/** `generate_argo_with_reuse` (pipeline/parser_reuse.py): every stage
    occurrence becomes a curl container that posts to the stage's long-running
    service, with freshly drawn input and output directories. Templates are
    named from the occurrence's label and are not deduplicated. */
module ReuseParser {
  import opened Text
  import opened Config
  import opened Argo
  import opened Fold

  const DefaultPort := 5000
  const DefaultPvc := "argo-shard-pvc"
  const ServiceAccount := "argo-workflow-sa"
  const VolumeName := "shared-data"
  const MountPath := "/mnt/data"
  const CurlImage := "curlimages/curl:7.85.0"

  // ---------------------------------------------------------------------
  // Unique paths
  // ---------------------------------------------------------------------

  /** `str(uuid.uuid4())[:8]`. */
  type Uid = s: string | |s| == 8 witness "00000000"

  /** The uuids the run draws, numbered in drawing order. The model takes
      them as a parameter instead of generating them. */
  type UidSupply = nat -> Uid

  /** The supply never repeats itself. */
  ghost predicate Fresh(uids: UidSupply) {
    forall a: nat, b: nat :: a != b ==> uids(a) != uids(b)
  }

  /** `generate_unique_path(stage, pipeline, path_type)` with `uid` drawn. */
  function UniquePath(stage: string, pipeline: string, pathType: string, uid: Uid): (r: string)
  {
    if pathType == "input" then MountPath + "/" + pipeline + "_" + stage + "_input_" + uid
    else MountPath + "/" + pipeline + "_" + stage + "_output_" + uid
  }

  /** The path lies under the mount and ends in its uid, so the uid can be
      read back from it. */
  lemma UniquePathParts(stage: string, pipeline: string, pathType: string, uid: Uid)
    ensures var r := UniquePath(stage, pipeline, pathType, uid);
      && |r| >= |MountPath| + 8 && r[..|MountPath|] == MountPath
      && r[|r| - 8..] == uid
      && (pathType == "input" <==> r[|r| - 15..|r| - 8] == "_input_")
  {
    var r := UniquePath(stage, pipeline, pathType, uid);
    if pathType != "input" {
      var pre := MountPath + "/" + pipeline + "_" + stage + "_";
      assert r == pre + "output_" + uid;
      assert r[|r| - 15..|r| - 8] == ("output_" + uid)[..7];
    }
  }

  /** Paths drawn with different uids are different, whatever the stage,
      pipeline and kind. */
  lemma UniquePathsDiffer(s1: string, p1: string, t1: string, u1: Uid,
                          s2: string, p2: string, t2: string, u2: Uid)
    requires u1 != u2
    ensures UniquePath(s1, p1, t1, u1) != UniquePath(s2, p2, t2, u2)
  {
    UniquePathParts(s1, p1, t1, u1);
    UniquePathParts(s2, p2, t2, u2);
  }

  // ---------------------------------------------------------------------
  // Naming and the curl command
  // ---------------------------------------------------------------------

  /** The occurrence's `template-name` when it has one, else its stage. */
  function Label(inst: Instance): string {
    inst.templateName.GetOr(inst.stage)
  }

  function CallTemplateName(tag: string): string {
    "call-" + tag + "-service"
  }

  /** Strips the `call-` prefix and the `-service` suffix. */
  function LabelOf(name: string): string
    requires |name| >= 13
  {
    name[5..|name| - 8]
  }

  /** The template name gives back the label it was built from, so two
      occurrences share a template name exactly when they share a label. */
  lemma CallTemplateNameInverts(tag: string, other: string)
    ensures LabelOf(CallTemplateName(tag)) == tag
    ensures CallTemplateName(tag) == CallTemplateName(other) <==> tag == other
  {
    assert LabelOf(CallTemplateName(tag)) == tag;
    assert LabelOf(CallTemplateName(other)) == other;
  }

  /** `http://{stage}.{namespace}.svc.cluster.local:{port}/run`. */
  function ServiceUrl(stage: string, namespace: string, port: nat): string {
    "http://" + stage + "." + namespace + ".svc.cluster.local:" + Decimal(port) + "/run"
  }

  /** `-F key=value` for each parameter, in insertion order. */
  function FormFields(ps: Params): (r: seq<string>)
    ensures |r| == 2 * |ps|
    decreases |ps|
  {
    if |ps| == 0 then [] else ["-F", ps[0].key + "=" + Render(ps[0].value)] + FormFields(ps[1..])
  }

  /** The fields come in `-F`, `key=value` pairs, one pair per parameter
      at its own position. */
  lemma {:induction false} FormFieldsAt(ps: Params, i: nat)
    requires i < |ps|
    ensures FormFields(ps)[2 * i] == "-F"
    ensures FormFields(ps)[2 * i + 1] == ps[i].key + "=" + Render(ps[i].value)
    decreases i
  {
    var head := ["-F", ps[0].key + "=" + Render(ps[0].value)];
    assert FormFields(ps) == head + FormFields(ps[1..]);
    if i > 0 {
      FormFieldsAt(ps[1..], i - 1);
      assert ps[1..][i - 1] == ps[i];
      assert FormFields(ps)[2 * i] == FormFields(ps[1..])[2 * (i - 1)];
      assert FormFields(ps)[2 * i + 1] == FormFields(ps[1..])[2 * (i - 1) + 1];
    }
  }

  const InputField := "input_dir="
  const OutputField := "output_dir="

  function CurlCommand(url: string, input: string, output: string, ps: Params): (r: seq<string>)
    ensures |r| == 8 + 2 * |ps|
  {
    ["curl", "-X", "POST", url, "-F", InputField + input, "-F", OutputField + output]
      + FormFields(ps)
  }

  /** What follows `field` in a command entry, or "" when the entry does not
      start with it. */
  function FieldValue(entry: string, field: string): string {
    if |field| <= |entry| && entry[..|field|] == field then entry[|field|..] else ""
  }

  /** The input directory a curl template posts. */
  function InputDir(t: Template): string {
    if t.CurlTemplate? && |t.command| > 5 then FieldValue(t.command[5], InputField) else ""
  }

  /** The output directory a curl template posts. */
  function OutputDir(t: Template): string {
    if t.CurlTemplate? && |t.command| > 7 then FieldValue(t.command[7], OutputField) else ""
  }

  /** The command posts to the service, then the input and output
      directories, then one `-F key=value` pair per parameter, in order; the
      two directories read back from it. */
  lemma CurlCommandLayout(url: string, input: string, output: string, ps: Params)
    ensures var r := CurlCommand(url, input, output, ps);
      && r[..4] == ["curl", "-X", "POST", url]
      && r[4] == "-F" && r[6] == "-F"
      && FieldValue(r[5], InputField) == input
      && FieldValue(r[7], OutputField) == output
      && (forall k :: 0 <= k < |ps| ==>
            r[8 + 2 * k] == "-F" && r[9 + 2 * k] == ps[k].key + "=" + Render(ps[k].value))
  {
    var r := CurlCommand(url, input, output, ps);
    assert (InputField + input)[..|InputField|] == InputField;
    assert (OutputField + output)[..|OutputField|] == OutputField;
    forall k | 0 <= k < |ps|
      ensures r[8 + 2 * k] == "-F" && r[9 + 2 * k] == ps[k].key + "=" + Render(ps[k].value)
    {
      FormFieldsAt(ps, k);
    }
  }

  /** The container template of one occurrence, given its two uids. */
  function CurlFor(def: StageDef, inst: Instance, namespace: string, pipeline: string,
                   uIn: Uid, uOut: Uid): Template
  {
    CurlTemplate(CallTemplateName(Label(inst)), CurlImage,
                 CurlCommand(ServiceUrl(inst.stage, namespace, def.port.GetOr(DefaultPort)),
                             UniquePath(inst.stage, pipeline, "input", uIn),
                             UniquePath(inst.stage, pipeline, "output", uOut),
                             ParamsOrEmpty(inst)),
                 Mount(VolumeName, MountPath))
  }

  // ---------------------------------------------------------------------
  // The compiler, as a fold over the flow
  // ---------------------------------------------------------------------

  /** What the loop carries: how many uuids the run has drawn, and the
      templates appended so far. */
  datatype Acc = Acc(draws: nat, templates: seq<Template>)

  /** One stage occurrence, in a parallel group or alone: look the stage
      up, draw the input and then the output uid, append the curl template. */
  function Occurrence(stages: seq<StageDef>, namespace: string, pipeline: string,
                      uids: UidSupply, inst: Instance, acc: Acc): Result<(Call, Acc)>
  {
    match StagesDict(stages, inst.stage)
    case None => Failure(UnknownStage(inst.stage))
    case Some(def) =>
      var tag := Label(inst);
      Success((Call(tag, CallTemplateName(tag)),
               Acc(acc.draws + 2,
                   acc.templates + [CurlFor(def, inst, namespace, pipeline,
                                            uids(acc.draws), uids(acc.draws + 1))])))
  }

  function Step(stages: seq<StageDef>, namespace: string, pipeline: string, uids: UidSupply)
    : (Instance, Acc) -> Result<(Call, Acc)>
  {
    (inst, acc) => Occurrence(stages, namespace, pipeline, uids, inst, acc)
  }

  /** The occurrences of a pipeline, in traversal order. */
  function Occurrences(p: Pipeline): seq<Instance> {
    Uses(ParserBlock, p.flow)
  }

  /** One pipeline's workflow, drawing uuids from number `draws` on; also
      returns how many the run has drawn after it. */
  function CompilePipeline(stages: seq<StageDef>, namespace: string, pvc: string,
                           uids: UidSupply, p: Pipeline, draws: nat): Result<(Workflow, nat)>
  {
    match Blocks(ParserBlock, Step(stages, namespace, p.name, uids), p.flow, Acc(draws, []))
    case Failure(e) => Failure(e)
    case Success((steps, acc)) =>
      Success((Workflow(ApiVersion, Kind, p.name + "-", Some(namespace), p.name,
                        Some(ServiceAccount), Some(Volume(VolumeName, pvc)),
                        [StepsTemplate(p.name, steps)] + acc.templates),
               acc.draws))
  }

  function PipelineStep(stages: seq<StageDef>, namespace: string, pvc: string, uids: UidSupply)
    : (Pipeline, nat) -> Result<(Workflow, nat)>
  {
    (p, draws) => CompilePipeline(stages, namespace, pvc, uids, p, draws)
  }

  /** `generate_argo_with_reuse(config)`: `Deployment` and its `namespace`
      are required; the pipelines are compiled in order from one shared
      supply of uuids, and the first exception ends the whole run. */
  function GenerateArgoWithReuse(c: Config, uids: UidSupply): Result<seq<Workflow>> {
    match c.deployment
    case None => Failure(MissingKey("Deployment"))
    case Some(d) =>
      match d.namespace
      case None => Failure(MissingKey("namespace"))
      case Some(ns) =>
        match Run(PipelineStep(c.stages, ns, d.pvcName.GetOr(DefaultPvc), uids), c.pipelines, 0)
        case Failure(e) => Failure(e)
        case Success((ws, _)) => Success(ws)
  }

  // ---------------------------------------------------------------------
  // Reference semantics
  // ---------------------------------------------------------------------

  function RefCall(inst: Instance): Call {
    Call(Label(inst), CallTemplateName(Label(inst)))
  }

  function RefCalls(us: seq<Instance>): seq<Call> {
    seq(|us|, i requires 0 <= i < |us| => RefCall(us[i]))
  }

  /** The template of the i-th of the occurrences `us` when the first of
      them draws uuid number `n`: occurrence i draws `n + 2i` and `n + 2i + 1`. */
  function RefTemplate(stages: seq<StageDef>, namespace: string, pipeline: string,
                       uids: UidSupply, us: seq<Instance>, n: nat, i: nat): Template
    requires i < |us| && Declares(stages, us[i].stage)
  {
    CurlFor(StagesDict(stages, us[i].stage).value, us[i], namespace, pipeline,
            uids(n + 2 * i), uids(n + 2 * i + 1))
  }

  function RefTemplates(stages: seq<StageDef>, namespace: string, pipeline: string,
                        uids: UidSupply, us: seq<Instance>, n: nat): seq<Template>
    requires AllDeclared(stages, us)
  {
    seq(|us|, i requires 0 <= i < |us| => RefTemplate(stages, namespace, pipeline, uids, us, n, i))
  }

  /** Occurrence i, reached after i occurrences' draws, adds its
      reference template to whatever templates precede it. */
  lemma OccurrenceAt(stages: seq<StageDef>, ns: string, p: string, uids: UidSupply,
                     us: seq<Instance>, n: nat, i: nat, ts: seq<Template>)
    requires AllDeclared(stages, us) && i < |us|
    ensures Step(stages, ns, p, uids)(us[i], Acc(n + 2 * i, ts))
              == Success((RefCall(us[i]), Acc(n + 2 * (i + 1), ts + [RefTemplates(stages, ns, p, uids, us, n)[i]])))
  {
    var def := StagesDict(stages, us[i].stage).value;
    assert RefTemplates(stages, ns, p, uids, us, n)[i]
        == CurlFor(def, us[i], ns, p, uids(n + 2 * i), uids(n + 2 * i + 1));
  }

  /** Every occurrence adds its reference call and template, stated in the
      form `RunCollects` takes, for any `st` and `out` that build the
      accumulator from the draws and list the reference calls. */
  lemma StepsCollect(stages: seq<StageDef>, ns: string, p: string, uids: UidSupply,
                     us: seq<Instance>, n: nat, st: (nat, seq<Template>) -> Acc, out: nat -> Call)
    requires AllDeclared(stages, us)
    requires forall i: nat, ts :: st(i, ts) == Acc(n + 2 * i, ts)
    requires forall i: nat :: i < |us| ==> out(i) == RefCall(us[i])
    ensures var step, T := Step(stages, ns, p, uids), RefTemplates(stages, ns, p, uids, us, n);
      forall i: nat, ts {:trigger step(us[i], st(i, ts))} :: i < |us| ==> step(us[i], st(i, ts)) == Success((out(i), st(i + 1, ts + [T[i]])))
  {
    var T := RefTemplates(stages, ns, p, uids, us, n);
    forall i: nat, ts | i < |us|
      ensures Step(stages, ns, p, uids)(us[i], st(i, ts)) == Success((out(i), st(i + 1, ts + [T[i]])))
    {
      OccurrenceAt(stages, ns, p, uids, us, n, i, ts);
      assert st(i, ts) == Acc(n + 2 * i, ts);
      assert st(i + 1, ts + [T[i]]) == Acc(n + 2 * (i + 1), ts + [T[i]]);
      assert out(i) == RefCall(us[i]);
    }
  }

  /** With every stage defined, occurrence i gets its reference call and
      template and draws uuids `n + 2i` and `n + 2i + 1`. */
  lemma {:induction false} RunReference(stages: seq<StageDef>, ns: string, p: string, uids: UidSupply,
                     us: seq<Instance>, n: nat)
    requires AllDeclared(stages, us)
    ensures Run(Step(stages, ns, p, uids), us, Acc(n, []))
              == Success((RefCalls(us), Acc(n + 2 * |us|, RefTemplates(stages, ns, p, uids, us, n))))
  {
    var step := Step(stages, ns, p, uids);
    var T := RefTemplates(stages, ns, p, uids, us, n);
    var st := (i: nat, ts: seq<Template>) => Acc(n + 2 * i, ts);
    var out := (i: nat) => if i < |us| then RefCall(us[i]) else Call("", "");
    assert Run(step, us, st(0, [])) == Success((Outputs(out, |us|), st(|us|, [] + T))) by {
      StepsCollect(stages, ns, p, uids, us, n, st, out);
      RunCollects(step, us, st, out, T, []);
    }
    assert Outputs(out, |us|) == RefCalls(us);
    assert st(0, []) == Acc(n, []);
    assert st(|us|, [] + T) == Acc(n + 2 * |us|, T) by {
      assert [] + T == T;
    }
  }

  /** Whatever the accumulator, the occurrences fail exactly when one names
      an undefined stage, at the first such occurrence. */
  lemma {:induction false} RunUndefined(stages: seq<StageDef>, ns: string, p: string, uids: UidSupply,
                     us: seq<Instance>, acc: Acc)
    ensures Run(Step(stages, ns, p, uids), us, acc).Success? <==> AllDeclared(stages, us)
    ensures !AllDeclared(stages, us) ==>
      Run(Step(stages, ns, p, uids), us, acc)
        == Failure(UnknownStage(us[FirstRejected(Defined(stages), us)].stage))
  {
    var step := Step(stages, ns, p, uids);
    var err := (x: Instance) => UnknownStage(x.stage);
    forall x, t | Defined(stages)(x) ensures step(x, t).Success? {
    }
    forall x, t | !Defined(stages)(x) ensures step(x, t) == Failure(err(x)) {
    }
    RunFailure(step, Defined(stages), err, us, acc);
  }

  // ---------------------------------------------------------------------
  // One pipeline
  // ---------------------------------------------------------------------

  /** A pipeline naming an undefined stage raises at the first such
      occurrence, in traversal order, whatever was drawn before it. */
  lemma CompilePipelineFailure(stages: seq<StageDef>, ns: string, pvc: string, uids: UidSupply,
                               p: Pipeline, n: nat)
    ensures CompilePipeline(stages, ns, pvc, uids, p, n).Failure? <==> !AllDeclared(stages, Occurrences(p))
    ensures var us := Occurrences(p);
      !AllDeclared(stages, us) ==>
        CompilePipeline(stages, ns, pvc, uids, p, n)
          == Failure(UnknownStage(us[FirstRejected(Defined(stages), us)].stage))
  {
    assert Readable(ParserBlock, p.flow);
    BlocksRun(ParserBlock, Step(stages, ns, p.name, uids), p.flow, Acc(n, []));
    RunUndefined(stages, ns, p.name, uids, Occurrences(p), Acc(n, []));
  }

  /** A pipeline whose stages are all defined compiles into a workflow in
      the configured namespace whose first template is the entrypoint
      steps template (one entry per block, as wide as the block, holding
      the reference calls in traversal order), followed by one curl template
      per occurrence in the same order; it draws two uuids per occurrence. */
  lemma CompilePipelineSuccess(stages: seq<StageDef>, ns: string, pvc: string, uids: UidSupply,
                               p: Pipeline, n: nat)
    requires AllDeclared(stages, Occurrences(p))
    ensures var us, r := Occurrences(p), CompilePipeline(stages, ns, pvc, uids, p, n);
      && r.Success?
      && r.value.1 == n + 2 * |us|
      && var w := r.value.0;
      && w.apiVersion == ApiVersion && w.kind == Kind
      && w.generateName == p.name + "-"
      && w.namespace == Some(ns)
      && w.entrypoint == p.name
      && w.serviceAccountName == Some(ServiceAccount)
      && w.volume == Some(Volume(VolumeName, pvc))
      && |w.templates| == |us| + 1
      && w.templates[0].StepsTemplate?
      && w.templates[0].name == p.name
      && |w.templates[0].steps| == |p.flow|
      && (forall b :: 0 <= b < |p.flow| ==> |w.templates[0].steps[b]| == |ParserMembers(p.flow[b])|)
      && Flatten(w.templates[0].steps) == RefCalls(us)
      && w.templates[1..] == RefTemplates(stages, ns, p.name, uids, us, n)
  {
    var us := Occurrences(p);
    var step := Step(stages, ns, p.name, uids);
    assert Readable(ParserBlock, p.flow);
    BlocksRun(ParserBlock, step, p.flow, Acc(n, []));
    RunReference(stages, ns, p.name, uids, us, n);
    BlocksShape(ParserBlock, step, p.flow, Acc(n, []));
  }

  /** Compiling a pipeline of defined stages draws two uuids per occurrence. */
  lemma CompilePipelineDraws(stages: seq<StageDef>, ns: string, pvc: string, uids: UidSupply,
                             p: Pipeline, n: nat)
    requires AllDeclared(stages, Occurrences(p))
    ensures var r := CompilePipeline(stages, ns, pvc, uids, p, n);
      r.Success? && r.value.1 == n + 2 * |Occurrences(p)|
  {
    CompilePipelineSuccess(stages, ns, pvc, uids, p, n);
  }

  /** The template of the i-th occurrence: a curl container named after its
      label, posting to the stage's service in the namespace (port 5000
      unless the last definition of the stage gives one) the input directory
      drawn as uuid `n + 2i` and the output directory drawn as `n + 2i + 1`,
      then the occurrence's parameters; its call has the label as name. */
  lemma {:induction false} OccurrenceTemplate(stages: seq<StageDef>, ns: string, pvc: string, uids: UidSupply,
                           p: Pipeline, n: nat, i: nat)
    requires AllDeclared(stages, Occurrences(p))
    requires i < |Occurrences(p)|
    ensures var us, r := Occurrences(p), CompilePipeline(stages, ns, pvc, uids, p, n);
      && r.Success? && |r.value.0.templates| == |us| + 1
      && r.value.0.templates[0].StepsTemplate? && |Flatten(r.value.0.templates[0].steps)| == |us|
      && var w, u, def := r.value.0, us[i], StagesDict(stages, us[i].stage).value;
      && var t := w.templates[1 + i];
      && t.CurlTemplate?
      && t.name == CallTemplateName(Label(u))
      && t.image == CurlImage
      && t.mount == Mount(VolumeName, MountPath)
      && |t.command| == 8 + 2 * |ParamsOrEmpty(u)|
      && t.command[..4] == ["curl", "-X", "POST", ServiceUrl(u.stage, ns, def.port.GetOr(DefaultPort))]
      && InputDir(t) == UniquePath(u.stage, p.name, "input", uids(n + 2 * i))
      && OutputDir(t) == UniquePath(u.stage, p.name, "output", uids(n + 2 * i + 1))
      && (forall k :: 0 <= k < |ParamsOrEmpty(u)| ==>
            t.command[8 + 2 * k] == "-F"
            && t.command[9 + 2 * k] == ParamsOrEmpty(u)[k].key + "=" + Render(ParamsOrEmpty(u)[k].value))
      && Flatten(w.templates[0].steps)[i] == Call(Label(u), CallTemplateName(Label(u)))
  {
    var us := Occurrences(p);
    CompilePipelineSuccess(stages, ns, pvc, uids, p, n);
    var w := CompilePipeline(stages, ns, pvc, uids, p, n).value.0;
    assert w.templates[1 + i] == w.templates[1..][i];
    var u, def := us[i], StagesDict(stages, us[i].stage).value;
    CurlCommandLayout(ServiceUrl(u.stage, ns, def.port.GetOr(DefaultPort)),
                      UniquePath(u.stage, p.name, "input", uids(n + 2 * i)),
                      UniquePath(u.stage, p.name, "output", uids(n + 2 * i + 1)),
                      ParamsOrEmpty(u));
  }

  /** The directories of the i-th occurrence's template are the paths
      drawn as uuids `n + 2i` and `n + 2i + 1`. */
  lemma OccurrenceDirs(stages: seq<StageDef>, ns: string, pvc: string, uids: UidSupply,
                       p: Pipeline, n: nat, i: nat)
    requires AllDeclared(stages, Occurrences(p))
    requires i < |Occurrences(p)|
    ensures var us, r := Occurrences(p), CompilePipeline(stages, ns, pvc, uids, p, n);
      && r.Success? && |r.value.0.templates| == |us| + 1
      && InputDir(r.value.0.templates[1 + i]) == UniquePath(us[i].stage, p.name, "input", uids(n + 2 * i))
      && OutputDir(r.value.0.templates[1 + i]) == UniquePath(us[i].stage, p.name, "output", uids(n + 2 * i + 1))
  {
    OccurrenceTemplate(stages, ns, pvc, uids, p, n, i);
  }

  /** Templates are not deduplicated: two occurrences of a pipeline get
      templates of the same name exactly when they have the same label. */
  lemma TemplateNamesRepeat(stages: seq<StageDef>, ns: string, pvc: string, uids: UidSupply,
                            p: Pipeline, n: nat, i: nat, j: nat)
    requires AllDeclared(stages, Occurrences(p))
    requires i < |Occurrences(p)| && j < |Occurrences(p)|
    ensures var us, r := Occurrences(p), CompilePipeline(stages, ns, pvc, uids, p, n);
      && r.Success? && |r.value.0.templates| == |us| + 1
      && (r.value.0.templates[1 + i].name == r.value.0.templates[1 + j].name
          <==> Label(us[i]) == Label(us[j]))
  {
    var us := Occurrences(p);
    OccurrenceTemplate(stages, ns, pvc, uids, p, n, i);
    OccurrenceTemplate(stages, ns, pvc, uids, p, n, j);
    CallTemplateNameInverts(Label(us[i]), Label(us[j]));
  }

  /** Every call of the steps template names a template of the workflow. */
  lemma ReferencesResolve(stages: seq<StageDef>, ns: string, pvc: string, uids: UidSupply,
                          p: Pipeline, n: nat, b: nat, c: nat)
    requires var r := CompilePipeline(stages, ns, pvc, uids, p, n);
      r.Success? && b < |r.value.0.templates[0].steps| && c < |r.value.0.templates[0].steps[b]|
    ensures var w := CompilePipeline(stages, ns, pvc, uids, p, n).value.0;
      Names(w.templates, w.templates[0].steps[b][c].template)
  {
    var us := Occurrences(p);
    CompilePipelineFailure(stages, ns, pvc, uids, p, n);
    CompilePipelineSuccess(stages, ns, pvc, uids, p, n);
    var w := CompilePipeline(stages, ns, pvc, uids, p, n).value.0;
    var steps := w.templates[0].steps;
    FlattenMember(steps, b, c);
    var i :| 0 <= i < |us| && RefCalls(us)[i] == steps[b][c];
    OccurrenceTemplate(stages, ns, pvc, uids, p, n, i);
    assert w.templates[1 + i].name == steps[b][c].template;
  }

  // ---------------------------------------------------------------------
  // The whole configuration
  // ---------------------------------------------------------------------

  /** The draw count after a pipeline of defined stages, from `n`. */
  function Advance(p: Pipeline, n: nat): nat {
    n + 2 * |Occurrences(p)|
  }

  /** The number of uuids the pipelines before pipeline i draw. */
  function DrawsBefore(ps: seq<Pipeline>, i: nat): nat
    requires i <= |ps|
  {
    After(Advance, ps, 0, i)
  }

  /** Pipeline i draws its uuids after every earlier pipeline's. */
  lemma {:induction false} DrawsGrow(ps: seq<Pipeline>, i: nat, k: nat)
    requires i < k <= |ps|
    ensures DrawsBefore(ps, i) + 2 * |Occurrences(ps[i])| <= DrawsBefore(ps, k)
    decreases k - i
  {
    if i + 1 < k {
      DrawsGrow(ps, i, k - 1);
    }
  }

  function Compiles(stages: seq<StageDef>): Pipeline -> bool {
    p => AllDeclared(stages, Occurrences(p))
  }

  /** The error of a pipeline naming an undefined stage. */
  function PipelineError(stages: seq<StageDef>): Pipeline -> Error {
    p => var us := Occurrences(p);
         UnknownStage(if FirstRejected(Defined(stages), us) < |us|
                      then us[FirstRejected(Defined(stages), us)].stage else "")
  }

  /** A pipeline of defined stages compiles from any draw count and
      advances it; any other fails with its own error from any draw count. */
  lemma PipelineStepFacts(stages: seq<StageDef>, ns: string, pvc: string, uids: UidSupply)
    ensures var step := PipelineStep(stages, ns, pvc, uids);
      && (forall p, n: nat :: Compiles(stages)(p) ==>
            step(p, n).Success? && step(p, n).value.1 == Advance(p, n))
      && (forall p, n: nat :: !Compiles(stages)(p) ==> step(p, n) == Failure(PipelineError(stages)(p)))
  {
    var step := PipelineStep(stages, ns, pvc, uids);
    forall p, n: nat | Compiles(stages)(p)
      ensures step(p, n).Success? && step(p, n).value.1 == Advance(p, n)
    {
      CompilePipelineDraws(stages, ns, pvc, uids, p, n);
    }
    forall p, n: nat | !Compiles(stages)(p) ensures step(p, n) == Failure(PipelineError(stages)(p)) {
      CompilePipelineFailure(stages, ns, pvc, uids, p, n);
    }
  }

  /** The pipelines in order from draw 0: they all compile exactly when
      each names defined stages only, and then there is one workflow per
      pipeline, pipeline i drawing its uuids after those of the pipelines
      before it; otherwise the first pipeline naming an undefined stage
      ends the run with its error. */
  lemma {:induction false} RunPipelines(stages: seq<StageDef>, ns: string, pvc: string, uids: UidSupply,
                     ps: seq<Pipeline>)
    ensures var q, j := Run(PipelineStep(stages, ns, pvc, uids), ps, 0), FirstRejected(Compiles(stages), ps);
      && (q.Success? <==> j == |ps|)
      && (j < |ps| ==> q == Failure(PipelineError(stages)(ps[j])))
      && (q.Success? ==> |q.value.0| == |ps|)
      && (q.Success? ==> forall i :: 0 <= i < |ps| ==>
            CompilePipeline(stages, ns, pvc, uids, ps[i], DrawsBefore(ps, i)).Success?
            && q.value.0[i] == CompilePipeline(stages, ns, pvc, uids, ps[i], DrawsBefore(ps, i)).value.0)
  {
    var step := PipelineStep(stages, ns, pvc, uids);
    PipelineStepFacts(stages, ns, pvc, uids);
    RunFailure<Pipeline, Workflow, nat>(step, Compiles(stages), PipelineError(stages), ps, 0);
    if FirstRejected(Compiles(stages), ps) == |ps| {
      RunThreaded<Pipeline, Workflow, nat>(step, Compiles(stages), Advance, ps, 0);
    }
  }

  /** `generate_argo_with_reuse`: without a `Deployment` section, or
      without its `namespace`, it raises. Otherwise it yields one workflow
      per pipeline, in order, pipeline i drawing its uuids after those of
      the pipelines before it, or the error of the first occurrence of an
      undefined stage in the first pipeline that has one: one failing
      pipeline loses every workflow. */
  lemma GenerateSpec(c: Config, uids: UidSupply)
    ensures c.deployment.None? ==> GenerateArgoWithReuse(c, uids) == Failure(MissingKey("Deployment"))
    ensures c.deployment.Some? && c.deployment.value.namespace.None? ==>
      GenerateArgoWithReuse(c, uids) == Failure(MissingKey("namespace"))
    ensures c.deployment.Some? && c.deployment.value.namespace.Some? ==>
      var ns := c.deployment.value.namespace.value;
      var pvc := if c.deployment.value.pvcName.Some? then c.deployment.value.pvcName.value
                 else "argo-shard-pvc";
      var ps, r := c.pipelines, GenerateArgoWithReuse(c, uids);
      var j := FirstRejected(Compiles(c.stages), ps);
      && (r.Success? <==> j == |ps|)
      && (r.Success? ==> |r.value| == |ps|)
      && (r.Success? ==> forall i :: 0 <= i < |ps| ==>
            CompilePipeline(c.stages, ns, pvc, uids, ps[i], DrawsBefore(ps, i)).Success?
            && r.value[i] == CompilePipeline(c.stages, ns, pvc, uids, ps[i], DrawsBefore(ps, i)).value.0)
      && (j < |ps| ==>
            var us := Occurrences(ps[j]);
            r == Failure(UnknownStage(us[FirstRejected(Defined(c.stages), us)].stage)))
  {
    if c.deployment.Some? && c.deployment.value.namespace.Some? {
      var d := c.deployment.value;
      RunPipelines(c.stages, d.namespace.value, d.pvcName.GetOr(DefaultPvc), uids, c.pipelines);
    }
  }

  /** In a successful run, workflow i is pipeline i compiled after the
      draws of the pipelines before it, and every stage it names is defined. */
  lemma RunWorkflows(c: Config, uids: UidSupply, i: nat)
    requires GenerateArgoWithReuse(c, uids).Success?
    requires i < |c.pipelines|
    ensures c.deployment.Some? && c.deployment.value.namespace.Some?
    ensures AllDeclared(c.stages, Occurrences(c.pipelines[i]))
    ensures var d, ws := c.deployment.value, GenerateArgoWithReuse(c, uids).value;
      var r := CompilePipeline(c.stages, d.namespace.value, d.pvcName.GetOr(DefaultPvc), uids,
                               c.pipelines[i], DrawsBefore(c.pipelines, i));
      && |ws| == |c.pipelines|
      && r.Success? && ws[i] == r.value.0
  {
    GenerateSpec(c, uids);
    assert Compiles(c.stages)(c.pipelines[i]);
  }

  /** Each occurrence of a run draws two uuids no other occurrence draws:
      an even offset for input, the next for output. */
  lemma DrawsDisjoint(ps: seq<Pipeline>, i1: nat, a1: nat, i2: nat, a2: nat)
    requires i1 < |ps| && a1 < |Occurrences(ps[i1])|
    requires i2 < |ps| && a2 < |Occurrences(ps[i2])|
    ensures var n1, n2 := DrawsBefore(ps, i1) + 2 * a1, DrawsBefore(ps, i2) + 2 * a2;
      && n1 != n2 + 1
      && ((i1, a1) != (i2, a2) ==> n1 != n2)
  {
    if i1 < i2 {
      DrawsGrow(ps, i1, i2);
    } else if i2 < i1 {
      DrawsGrow(ps, i2, i1);
    }
  }

  /** With a supply that never repeats, the templates of two occurrences of
      a run of compiles, each pipeline drawing after the ones before it,
      never share an input or an output directory, and none reads from a
      directory another writes to. */
  lemma CompiledDirsDistinct(stages: seq<StageDef>, ns: string, pvc: string, uids: UidSupply,
                             ps: seq<Pipeline>, i1: nat, a1: nat, i2: nat, a2: nat)
    requires Fresh(uids)
    requires i1 < |ps| && a1 < |Occurrences(ps[i1])| && AllDeclared(stages, Occurrences(ps[i1]))
    requires i2 < |ps| && a2 < |Occurrences(ps[i2])| && AllDeclared(stages, Occurrences(ps[i2]))
    ensures var r1 := CompilePipeline(stages, ns, pvc, uids, ps[i1], DrawsBefore(ps, i1));
      var r2 := CompilePipeline(stages, ns, pvc, uids, ps[i2], DrawsBefore(ps, i2));
      && r1.Success? && r2.Success?
      && 1 + a1 < |r1.value.0.templates| && 1 + a2 < |r2.value.0.templates|
      && var t1, t2 := r1.value.0.templates[1 + a1], r2.value.0.templates[1 + a2];
      && InputDir(t1) != OutputDir(t2)
      && ((i1, a1) != (i2, a2) ==> InputDir(t1) != InputDir(t2) && OutputDir(t1) != OutputDir(t2))
  {
    var n1, n2 := DrawsBefore(ps, i1) + 2 * a1, DrawsBefore(ps, i2) + 2 * a2;
    var s1, s2 := Occurrences(ps[i1])[a1].stage, Occurrences(ps[i2])[a2].stage;
    OccurrenceDirs(stages, ns, pvc, uids, ps[i1], DrawsBefore(ps, i1), a1);
    OccurrenceDirs(stages, ns, pvc, uids, ps[i2], DrawsBefore(ps, i2), a2);
    DrawsDisjoint(ps, i1, a1, i2, a2);
    UniquePathsDiffer(s1, ps[i1].name, "input", uids(n1), s2, ps[i2].name, "output", uids(n2 + 1));
    if (i1, a1) != (i2, a2) {
      UniquePathsDiffer(s1, ps[i1].name, "input", uids(n1), s2, ps[i2].name, "input", uids(n2));
      UniquePathsDiffer(s1, ps[i1].name, "output", uids(n1 + 1), s2, ps[i2].name, "output", uids(n2 + 1));
    }
  }

  /** With a supply that never repeats, no two occurrences of a run, in the
      same pipeline or not, share an input directory or an output
      directory, and no occurrence reads from a directory any occurrence
      writes to. */
  lemma DataDirsDistinct(c: Config, uids: UidSupply, ws: seq<Workflow>,
                         i1: nat, a1: nat, i2: nat, a2: nat)
    requires Fresh(uids)
    requires GenerateArgoWithReuse(c, uids) == Success(ws)
    requires i1 < |c.pipelines| && a1 < |Occurrences(c.pipelines[i1])|
    requires i2 < |c.pipelines| && a2 < |Occurrences(c.pipelines[i2])|
    ensures |ws| == |c.pipelines|
    ensures 1 + a1 < |ws[i1].templates| && 1 + a2 < |ws[i2].templates|
    ensures var t1, t2 := ws[i1].templates[1 + a1], ws[i2].templates[1 + a2];
      && InputDir(t1) != OutputDir(t2)
      && ((i1, a1) != (i2, a2) ==> InputDir(t1) != InputDir(t2) && OutputDir(t1) != OutputDir(t2))
  {
    RunWorkflows(c, uids, i1);
    RunWorkflows(c, uids, i2);
    var d := c.deployment.value;
    var ns, pvc, ps := d.namespace.value, d.pvcName.GetOr(DefaultPvc), c.pipelines;
    CompiledDirsDistinct(c.stages, ns, pvc, uids, ps, i1, a1, i2, a2);
    assert ws[i1] == CompilePipeline(c.stages, ns, pvc, uids, ps[i1], DrawsBefore(ps, i1)).value.0;
    assert ws[i2] == CompilePipeline(c.stages, ns, pvc, uids, ps[i2], DrawsBefore(ps, i2)).value.0;
  }
}
