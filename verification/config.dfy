/** The parsed pipeline configuration every compiler consumes: stage
    definitions, pipelines whose flow is a list of blocks, and the optional
    deployment section. Python exceptions become `Failure` values. */
module Config {
  import Text

  datatype Option<+T> = None | Some(value: T) {
    function GetOr(default: T): T {
      match this
      case Some(v) => v
      case None => default
    }
  }

  /** What the Python code raises, and where the message's subject comes from. */
  datatype Error =
    | MissingKey(key: string)      // KeyError on a missing mapping key
    | UnknownStage(name: string)   // KeyError from the `stages_dict` lookup
    | StageNotFound(name: string)  // ValueError("Stage not found: <name>")
    | NotAMapping(entry: string)   // TypeError: a bare string used as a mapping

  datatype Result<+T> = Success(value: T) | Failure(error: Error)

  /** A scalar parameter value as the configuration loader produced it:
      `text` is Python's `str()` of it and `isString` tells a quoted string
      from a number or boolean with the same text (their `repr` differs). */
  datatype Scalar = Scalar(text: string, isString: bool)

  /** A parameter value: one scalar, or a list of scalars. */
  datatype Value = Atom(scalar: Scalar) | Items(items: seq<Scalar>)

  datatype Param = Param(key: string, value: Value)

  /** A parameter mapping in insertion order. */
  type Params = seq<Param>

  /** A Python dict never repeats a key. */
  predicate IsDict(ps: Params) {
    forall i, j :: 0 <= i < j < |ps| ==> ps[i].key != ps[j].key
  }

  /** One stage instance of a flow: the mapping `{stage, parameters?,
      template-name?}`. `id` stands for the Python object identity of that
      mapping, the value `id()` returns. */
  datatype Instance = Instance(
    stage: string,
    parameters: Option<Params>,
    templateName: Option<string>,
    id: nat)

  /** One entry of a pipeline's flow.
      - `Bare`: the entry is a plain string naming a stage.
      - `Sequential`: a mapping naming one stage; `falsyParallel` records that
        it also carries a `parallel` key whose value is falsy.
      - `Parallel`: a mapping with a truthy `parallel` key and a `stages` list. */
  datatype Block =
    | Bare(name: string)
    | Sequential(inst: Instance, falsyParallel: bool)
    | Parallel(members: seq<Instance>)

  /** A stage definition. `image` and `dataPath` (the `data-path` key) are
      `None` when the definition lacks the key. `declared` lists the keys of
      its `parameters` mapping in configuration order, or is `None` when the
      definition has no `parameters` key. */
  datatype StageDef = StageDef(
    name: string,
    image: Option<string>,
    dataPath: Option<string>,
    port: Option<nat>,
    declared: Option<seq<string>>)

  datatype Pipeline = Pipeline(name: string, flow: seq<Block>)

  datatype Deployment = Deployment(namespace: Option<string>, pvcName: Option<string>)

  datatype Config = Config(
    deployment: Option<Deployment>,
    stages: seq<StageDef>,
    pipelines: seq<Pipeline>)

  predicate Declares(stages: seq<StageDef>, name: string) {
    exists i :: 0 <= i < |stages| && stages[i].name == name
  }

  /** `{s["name"]: s for s in stages}[name]`: the dict comprehension keeps the
      LAST definition of a repeated name. */
  function StagesDict(stages: seq<StageDef>, name: string): (r: Option<StageDef>)
    ensures r.None? <==> !Declares(stages, name)
    ensures r.Some? ==> exists i :: 0 <= i < |stages| && stages[i] == r.value
                         && forall j :: i < j < |stages| ==> stages[j].name != name
    ensures r.Some? ==> r.value.name == name
    decreases |stages|
  {
    if |stages| == 0 then None
    else if stages[|stages| - 1].name == name then Some(stages[|stages| - 1])
    else
      var r := StagesDict(stages[..|stages| - 1], name);
      assert forall i :: 0 <= i < |stages| - 1 ==> stages[..|stages| - 1][i] == stages[i];
      r
  }

  /** `str(v)` after the compilers' list handling: a list is comma-joined. */
  function Render(v: Value): (r: string)
  {
    match v
    case Atom(s) => s.text
    case Items(xs) => Text.Join(",", seq(|xs|, i requires 0 <= i < |xs| => xs[i].text))
  }

  /** The stage instances a parser (`parser_noreuse.py`, `parser_reuse.py`)
      sees in one block. A bare string becomes `{"stage": name, "parameters": {}}`;
      its object identity is never read by the parsers. */
  function ParserMembers(b: Block): (ms: seq<Instance>)
    ensures b.Parallel? ==> ms == b.members
    ensures !b.Parallel? ==> |ms| == 1
    ensures b.Bare? ==> ms[0].stage == b.name && ms[0].parameters == Some([])
                        && ms[0].templateName.None?
  {
    match b
    case Bare(n) => [Instance(n, Some([]), None, 0)]
    case Sequential(inst, _) => [inst]
    case Parallel(ms) => ms
  }

  /** How a parser reads one block: always successfully. */
  function ParserBlock(b: Block): Result<seq<Instance>> {
    Success(ParserMembers(b))
  }

  /** The parsers read a missing `parameters` key as the empty mapping. */
  function ParamsOrEmpty(inst: Instance): Params {
    inst.parameters.GetOr([])
  }

  /** Whether the stage an occurrence names is defined. */
  function Defined(stages: seq<StageDef>): Instance -> bool {
    (inst: Instance) => Declares(stages, inst.stage)
  }

  /** Every occurrence names a defined stage. */
  predicate AllDeclared(stages: seq<StageDef>, us: seq<Instance>) {
    forall i :: 0 <= i < |us| ==> Declares(stages, us[i].stage)
  }

  lemma AllDeclaredSplit(stages: seq<StageDef>, a: seq<Instance>, b: seq<Instance>)
    ensures AllDeclared(stages, a + b) <==> AllDeclared(stages, a) && AllDeclared(stages, b)
  {
    if AllDeclared(stages, a + b) {
      forall i | 0 <= i < |a| ensures Declares(stages, a[i].stage) {
        assert (a + b)[i] == a[i];
      }
      forall j | 0 <= j < |b| ensures Declares(stages, b[j].stage) {
        assert (a + b)[|a| + j] == b[j];
      }
    }
  }
}
