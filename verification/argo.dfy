/** The Argo `Workflow` documents the compilers produce, as typed records.
    Each template variant carries exactly the keys its compiler writes. */
module Argo {
  import opened Config

  const ApiVersion := "argoproj.io/v1alpha1"
  const Kind := "Workflow"

  /** A step of the parsers' entrypoint template: `{name, template}`. */
  datatype Call = Call(name: string, template: string)

  /** A step of the generators' `main` template:
      `{name, template, arguments: {parameters: [{name: k, value: v}, ...]}}`. */
  datatype Step = Step(name: string, template: string, arguments: Params)

  datatype Mount = Mount(name: string, mountPath: string)

  datatype Template =
      /** The parsers' entrypoint: one list of calls per flow block. */
    | StepsTemplate(name: string, steps: seq<seq<Call>>)
      /** The generators' `main`: per flow block, a list of singleton lists. */
    | MainTemplate(name: string, groups: seq<seq<seq<Step>>>)
      /** `parser_noreuse.py`: a container running the stage's own image. */
    | ScriptTemplate(name: string, image: string, command: seq<string>,
                     args: seq<string>, mount: Mount)
      /** `parser_reuse.py`: a curl container calling the stage's service. */
    | CurlTemplate(name: string, image: string, command: seq<string>, mount: Mount)
      /** The generators' stage template, with declared input parameters. */
    | AppTemplate(name: string, inputs: seq<string>, image: string,
                  command: seq<string>, args: seq<string>)

  datatype Volume = Volume(name: string, claimName: string)

  /** `namespace`, `serviceAccountName` and the single shared volume are
      written by the parsers only. */
  datatype Workflow = Workflow(
    apiVersion: string,
    kind: string,
    generateName: string,
    namespace: Option<string>,
    entrypoint: string,
    serviceAccountName: Option<string>,
    volume: Option<Volume>,
    templates: seq<Template>)

  /** The names of a template list, in order. */
  function TemplateNames(ts: seq<Template>): (ns: seq<string>)
    ensures |ns| == |ts|
    ensures forall j :: 0 <= j < |ts| ==> ns[j] == ts[j].name
  {
    seq(|ts|, j requires 0 <= j < |ts| => ts[j].name)
  }

  /** Some template of `ts` is named `name`: a step's reference resolves. */
  predicate Names(ts: seq<Template>, name: string) {
    exists i :: 0 <= i < |ts| && ts[i].name == name
  }
}
