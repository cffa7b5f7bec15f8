/** `generate_argo_with_parallel` (pipeline/parser_noreuse.py): verbatim
    compilation. Every stage occurrence gets its own template; a per-pipeline
    counter keyed by stage name numbers the occurrences of each stage. */
module NoReuseParser {
  import opened Text
  import opened Config
  import opened Argo
  import opened Fold

  const Namespace := "no-reuse-pipeline"
  const DefaultPvc := "argo-shard-pvc"
  const VolumeName := "shared-data"
  const ServiceAccount := "argo-workflow-sa"
  const Command := ["python", "main.py"]

  // ---------------------------------------------------------------------
  // Occurrence naming
  // ---------------------------------------------------------------------

  /** `step_counter[s]`, or 0 while `s` is not yet a key. */
  function Seen(counter: map<string, nat>, s: string): nat {
    if s in counter then counter[s] else 0
  }

  /** Template name of the k-th occurrence of `stage`. */
  function TemplateName(stage: string, k: nat, pipeline: string): string {
    if k > 1 then stage + "-" + Decimal(k) + "-" + pipeline else stage + "-" + pipeline
  }

  /** Display (step) name of the k-th occurrence of `stage`. */
  function DisplayName(stage: string, k: nat): string {
    if k > 1 then stage + "-" + Decimal(k) else stage
  }

  /** Two different occurrence numbers of one stage never share a template
      name or a display name. */
  lemma OccurrenceNamesDistinct(stage: string, pipeline: string, k1: nat, k2: nat)
    requires 1 <= k1 && 1 <= k2 && k1 != k2
    ensures TemplateName(stage, k1, pipeline) != TemplateName(stage, k2, pipeline)
    ensures DisplayName(stage, k1) != DisplayName(stage, k2)
  {
    if k1 > 1 && k2 > 1 {
      var d1, d2 := Decimal(k1), Decimal(k2);
      if stage + "-" + d1 == stage + "-" + d2 {
        DashDigitsSplit(stage, d1, stage, d2);
        DecimalInjective(k1, k2);
      }
    }
  }

  /** Names are unique per stage only: the second `a` and the first `a-2`
      of pipeline `p` both get the template `a-2-p`, and the display name
      `a-2`. */
  lemma CrossStageNamesCollide()
    ensures TemplateName("a", 2, "p") == TemplateName("a-2", 1, "p")
    ensures DisplayName("a", 2) == DisplayName("a-2", 1)
    ensures DisplayName("a", 2) == "a-2"
  {
    assert Decimal(2) == "2";
  }

  // ---------------------------------------------------------------------
  // Container arguments
  // ---------------------------------------------------------------------

  /** The tokens one parameter contributes: `--key`, then the rendered value
      unless it contains `=`. */
  function Flag(p: Param): seq<string> {
    var v := Render(p.value);
    ["--" + p.key] + (if '=' in v then [] else [v])
  }

  /** The `args` of a stage container, built parameter by parameter in
      insertion order. */
  function BuildArgs(ps: Params): (r: seq<string>)
    ensures |ps| <= |r| <= 2 * |ps|
    ensures |ps| > 0 ==> r[0] == "--" + ps[0].key
    decreases |ps|
  {
    if |ps| == 0 then [] else Flag(ps[0]) + BuildArgs(ps[1..])
  }

  predicate IsFlag(t: string) {
    |t| >= 2 && t[..2] == "--"
  }

  /** How a command-line reader splits an argument vector: each flag token
      opens an option, and a following token that is not a flag is its value. */
  function ReadArgs(args: seq<string>): seq<(string, Option<string>)>
    decreases |args|
  {
    if |args| == 0 then []
    else
      var key := if |args[0]| >= 2 then args[0][2..] else args[0];
      if |args| >= 2 && !IsFlag(args[1]) then [(key, Some(args[1]))] + ReadArgs(args[2..])
      else [(key, None)] + ReadArgs(args[1..])
  }

  /** What a reader recovers for one parameter: its key, and its rendered
      value when the value holds no `=`. */
  function Kept(p: Param): (string, Option<string>) {
    var v := Render(p.value);
    (p.key, if '=' in v then None else Some(v))
  }

  /** Reading the argument vector back gives every parameter, in insertion
      order, with its value where one was emitted (provided no emitted value
      itself looks like a flag). */
  lemma {:induction false} ReadArgsInvertsBuildArgs(ps: Params)
    requires forall i :: 0 <= i < |ps| ==> !IsFlag(Render(ps[i].value))
    ensures ReadArgs(BuildArgs(ps)) == seq(|ps|, i requires 0 <= i < |ps| => Kept(ps[i]))
    decreases |ps|
  {
    if |ps| > 0 {
      var rest := BuildArgs(ps[1..]);
      ReadArgsInvertsBuildArgs(ps[1..]);
      var v := Render(ps[0].value);
      assert ("--" + ps[0].key)[2..] == ps[0].key;
      if '=' in v {
        assert BuildArgs(ps) == ["--" + ps[0].key] + rest;
        if |rest| > 0 {
          assert IsFlag(rest[0]) by {
            assert rest[0][..2] == "--";
          }
        }
        assert BuildArgs(ps)[1..] == rest;
      } else {
        assert BuildArgs(ps) == ["--" + ps[0].key, v] + rest;
        assert BuildArgs(ps)[2..] == rest;
      }
    }
  }

  /** The container template for one occurrence of a stage with the given
      image and data path. */
  function StageTemplate(image: string, dataPath: string, name: string, ps: Params): Template {
    ScriptTemplate(name, "no" + image, Command, BuildArgs(ps), Mount(VolumeName, dataPath))
  }

  // ---------------------------------------------------------------------
  // Which occurrences compile
  // ---------------------------------------------------------------------

  /** A stage an occurrence can compile against: it is defined, and its
      last definition has the `image` and `data-path` keys the container
      spec reads. */
  predicate Usable(stages: seq<StageDef>, s: string) {
    var d := StagesDict(stages, s);
    d.Some? && d.value.image.Some? && d.value.dataPath.Some?
  }

  function Compilable(stages: seq<StageDef>): Instance -> bool {
    (inst: Instance) => Usable(stages, inst.stage)
  }

  predicate AllUsable(stages: seq<StageDef>, us: seq<Instance>) {
    forall i :: 0 <= i < |us| ==> Usable(stages, us[i].stage)
  }

  /** The exception an occurrence that does not compile raises: the
      `stages_dict` lookup comes first, then the container spec reads
      `image` before `data-path`. */
  function Refusal(stages: seq<StageDef>): Instance -> Error {
    (inst: Instance) =>
      match StagesDict(stages, inst.stage)
      case None => UnknownStage(inst.stage)
      case Some(d) => if d.image.None? then MissingKey("image") else MissingKey("data-path")
  }

  lemma AllUsableSplit(stages: seq<StageDef>, a: seq<Instance>, b: seq<Instance>)
    ensures AllUsable(stages, a + b) <==> AllUsable(stages, a) && AllUsable(stages, b)
  {
    if AllUsable(stages, a + b) {
      forall i | 0 <= i < |a| ensures Usable(stages, a[i].stage) {
        assert (a + b)[i] == a[i];
      }
      forall j | 0 <= j < |b| ensures Usable(stages, b[j].stage) {
        assert (a + b)[|a| + j] == b[j];
      }
    }
  }


  // ---------------------------------------------------------------------
  // The compiler, as a fold over the flow
  // ---------------------------------------------------------------------

  /** What the loop carries: `step_counter` and the stage templates appended so far. */
  datatype Acc = Acc(counter: map<string, nat>, templates: seq<Template>)

  /** One stage occurrence, in a parallel group or alone: look the stage up,
      bump its counter, name the occurrence, append its template (whose
      container reads the definition's `image` and `data-path`). */
  function Occurrence(stages: seq<StageDef>, pipeline: string, inst: Instance, acc: Acc)
    : Result<(Call, Acc)>
  {
    match StagesDict(stages, inst.stage)
    case None => Failure(UnknownStage(inst.stage))
    case Some(def) =>
      var k := Seen(acc.counter, inst.stage) + 1;
      var name := TemplateName(inst.stage, k, pipeline);
      if def.image.None? then Failure(MissingKey("image"))
      else if def.dataPath.None? then Failure(MissingKey("data-path"))
      else
        Success((Call(DisplayName(inst.stage, k), name),
                 Acc(acc.counter[inst.stage := k],
                     acc.templates + [StageTemplate(def.image.value, def.dataPath.value, name, ParamsOrEmpty(inst))])))
  }

  function Step(stages: seq<StageDef>, pipeline: string): (Instance, Acc) -> Result<(Call, Acc)> {
    (inst, acc) => Occurrence(stages, pipeline, inst, acc)
  }

  /** The occurrences of a pipeline, in traversal order. */
  function Occurrences(p: Pipeline): seq<Instance> {
    Uses(ParserBlock, p.flow)
  }

  /** One pipeline's workflow: the counter starts empty, each block's calls
      form one entry of `steps`, and the entrypoint steps template is put in
      front of the stage templates. */
  function CompilePipeline(stages: seq<StageDef>, pvc: string, p: Pipeline): Result<Workflow> {
    match Blocks(ParserBlock, Step(stages, p.name), p.flow, Acc(map[], []))
    case Failure(e) => Failure(e)
    case Success((steps, acc)) =>
      Success(Workflow(ApiVersion, Kind, p.name + "-", Some(Namespace), p.name,
                       Some(ServiceAccount), Some(Volume(VolumeName, pvc)),
                       [StepsTemplate(p.name, steps)] + acc.templates))
  }

  function PipelineStep(stages: seq<StageDef>, pvc: string): (Pipeline, ()) -> Result<(Workflow, ())> {
    (p, u) =>
      match CompilePipeline(stages, pvc, p)
      case Failure(e) => Failure(e)
      case Success(w) => Success((w, ()))
  }

  /** `generate_argo_with_parallel(config)`: the pipelines in order; the
      first exception ends the whole run. */
  function GenerateArgoWithParallel(c: Config): Result<seq<Workflow>> {
    match c.deployment
    case None => Failure(MissingKey("Deployment"))
    case Some(d) =>
      match Run(PipelineStep(c.stages, d.pvcName.GetOr(DefaultPvc)), c.pipelines, ())
      case Failure(e) => Failure(e)
      case Success((ws, _)) => Success(ws)
  }

  // ---------------------------------------------------------------------
  // Reference semantics: what the i-th occurrence of a flow receives
  // ---------------------------------------------------------------------

  /** How often `s` occurs in `us`. */
  function Occ(s: string, us: seq<Instance>): nat
    decreases |us|
  {
    if |us| == 0 then 0 else (if us[0].stage == s then 1 else 0) + Occ(s, us[1..])
  }

  lemma {:induction false} OccAppend(s: string, a: seq<Instance>, b: seq<Instance>)
    ensures Occ(s, a + b) == Occ(s, a) + Occ(s, b)
    decreases |a|
  {
    if |a| == 0 {
      assert a + b == b;
    } else {
      assert (a + b)[1..] == a[1..] + b;
      OccAppend(s, a[1..], b);
    }
  }

  lemma {:induction false} OccOne(s: string, x: Instance)
    ensures Occ(s, [x]) == if x.stage == s then 1 else 0
  {
    assert [x][1..] == [];
  }

  ghost function StageSet(us: seq<Instance>): set<string> {
    set i | 0 <= i < |us| :: us[i].stage
  }

  lemma {:induction false} OccAbsent(s: string, us: seq<Instance>)
    requires s !in StageSet(us)
    ensures Occ(s, us) == 0
    decreases |us|
  {
    if |us| > 0 {
      assert us[0].stage in StageSet(us);
      assert s !in StageSet(us[1..]);
      OccAbsent(s, us[1..]);
    }
  }

  /** The counter after visiting `us`, started empty. */
  ghost function Tally(us: seq<Instance>): map<string, nat> {
    map s | s in StageSet(us) :: Occ(s, us)
  }

  lemma {:induction false} SeenTally(us: seq<Instance>, s: string)
    ensures Seen(Tally(us), s) == Occ(s, us)
  {
    if s !in StageSet(us) {
      OccAbsent(s, us);
    }
  }

  lemma TallySnoc(us: seq<Instance>, x: Instance)
    ensures Tally(us + [x]) == Tally(us)[x.stage := Seen(Tally(us), x.stage) + 1]
  {
    assert StageSet(us + [x]) == StageSet(us) + {x.stage} by {
      forall t | t in StageSet(us + [x]) ensures t in StageSet(us) + {x.stage} {
        var i :| 0 <= i < |us + [x]| && (us + [x])[i].stage == t;
        if i < |us| {
          assert us[i].stage == t;
        }
      }
      forall t | t in StageSet(us) ensures t in StageSet(us + [x]) {
        var i :| 0 <= i < |us| && us[i].stage == t;
        assert (us + [x])[i].stage == t;
      }
      assert (us + [x])[|us|].stage == x.stage;
    }
    forall s | s in StageSet(us + [x])
      ensures Occ(s, us + [x]) == Seen(Tally(us), s) + (if x.stage == s then 1 else 0)
    {
      OccAppend(s, us, [x]);
      OccOne(s, x);
      SeenTally(us, s);
    }
  }

  /** Started empty, the counter holds exactly the stages seen, each with
      the number of its occurrences. */
  lemma {:induction false} TallyCounts(us: seq<Instance>, s: string)
    ensures s in Tally(us) <==> exists i :: 0 <= i < |us| && us[i].stage == s
    ensures s in Tally(us) ==> Tally(us)[s] == Occ(s, us)
  {
  }

  /** The occurrence number of `us[i]`: how often its stage occurs up to and
      including position i. */
  ghost function Rank(us: seq<Instance>, i: nat): nat
    requires i < |us|
  {
    Occ(us[i].stage, us[..i + 1])
  }

  lemma RankPrefix(u: seq<Instance>, v: seq<Instance>, i: nat)
    requires i < |u| <= |v| && u == v[..|u|]
    ensures Rank(u, i) == Rank(v, i)
  {
    assert u[..i + 1] == v[..i + 1];
  }

  lemma RankLast(us: seq<Instance>, x: Instance)
    ensures Rank(us + [x], |us|) == Seen(Tally(us), x.stage) + 1
  {
    assert (us + [x])[..|us| + 1] == us + [x];
    OccAppend(x.stage, us, [x]);
    OccOne(x.stage, x);
    SeenTally(us, x.stage);
  }

  /** Later occurrences of a stage carry strictly larger numbers. */
  lemma RankGrows(us: seq<Instance>, i: nat, j: nat)
    requires i < j < |us| && us[i].stage == us[j].stage
    ensures 1 <= Rank(us, i) < Rank(us, j)
  {
    var s := us[i].stage;
    assert us[..j + 1] == us[..i + 1] + us[i + 1..j + 1];
    OccAppend(s, us[..i + 1], us[i + 1..j + 1]);
    assert us[i + 1..j + 1] == us[i + 1..j] + [us[j]];
    OccAppend(s, us[i + 1..j], [us[j]]);
    OccOne(s, us[j]);
    assert us[..i + 1] == us[..i] + [us[i]];
    OccAppend(s, us[..i], [us[i]]);
    OccOne(s, us[i]);
  }

  /** The first occurrence of a stage, and only it, has number 1. */
  lemma RankOneIffFirst(us: seq<Instance>, i: nat)
    requires i < |us|
    ensures Rank(us, i) >= 1
    ensures Rank(us, i) == 1 <==> forall h :: 0 <= h < i ==> us[h].stage != us[i].stage
  {
    var s := us[i].stage;
    assert us[..i + 1] == us[..i] + [us[i]];
    OccAppend(s, us[..i], [us[i]]);
    OccOne(s, us[i]);
    if exists h :: 0 <= h < i && us[h].stage == s {
      var h :| 0 <= h < i && us[h].stage == s;
      RankGrows(us, h, i);
    } else {
      assert s !in StageSet(us[..i]);
      OccAbsent(s, us[..i]);
    }
  }

  /** The call the i-th occurrence receives. */
  ghost function RefCall(pipeline: string, us: seq<Instance>, i: nat): Call
    requires i < |us|
  {
    Call(DisplayName(us[i].stage, Rank(us, i)), TemplateName(us[i].stage, Rank(us, i), pipeline))
  }

  ghost function RefCalls(pipeline: string, us: seq<Instance>): seq<Call> {
    seq(|us|, i requires 0 <= i < |us| => RefCall(pipeline, us, i))
  }

  /** The template the i-th occurrence receives. */
  ghost function RefTemplate(stages: seq<StageDef>, pipeline: string, us: seq<Instance>, i: nat): Template
    requires i < |us| && Usable(stages, us[i].stage)
  {
    var def := StagesDict(stages, us[i].stage).value;
    StageTemplate(def.image.value, def.dataPath.value,
                  TemplateName(us[i].stage, Rank(us, i), pipeline), ParamsOrEmpty(us[i]))
  }

  ghost function RefTemplates(stages: seq<StageDef>, pipeline: string, us: seq<Instance>): seq<Template>
    requires AllUsable(stages, us)
  {
    seq(|us|, i requires 0 <= i < |us| => RefTemplate(stages, pipeline, us, i))
  }

  lemma RefTemplatesSnoc(stages: seq<StageDef>, p: string, us: seq<Instance>, x: Instance)
    requires AllUsable(stages, us) && Usable(stages, x.stage)
    ensures AllUsable(stages, us + [x])
    ensures RefTemplates(stages, p, us + [x])
              == RefTemplates(stages, p, us) + [RefTemplate(stages, p, us + [x], |us|)]
  {
    AllUsableSplit(stages, us, [x]);
    var l := RefTemplates(stages, p, us + [x]);
    var r := RefTemplates(stages, p, us) + [RefTemplate(stages, p, us + [x], |us|)];
    forall i | 0 <= i < |us| ensures l[i] == r[i] {
      RankPrefix(us, us + [x], i);
      assert (us + [x])[i] == us[i];
    }
  }

  /** What one occurrence does to an accumulator that reflects the
      occurrences `P` before it. */
  lemma OccurrenceStep(stages: seq<StageDef>, p: string, P: seq<Instance>, x: Instance)
    requires AllUsable(stages, P) && Usable(stages, x.stage)
    ensures AllUsable(stages, P + [x])
    ensures Occurrence(stages, p, x, Acc(Tally(P), RefTemplates(stages, p, P)))
      == Success((RefCall(p, P + [x], |P|), Acc(Tally(P + [x]), RefTemplates(stages, p, P + [x]))))
  {
    TallySnoc(P, x);
    RankLast(P, x);
    RefTemplatesSnoc(stages, p, P, x);
  }


  /** The accumulator after the first i occurrences. */
  ghost function Reached(stages: seq<StageDef>, p: string, us: seq<Instance>, i: nat): Acc
    requires i <= |us| && AllUsable(stages, us)
  {
    assert AllUsable(stages, us[..i]);
    Acc(Tally(us[..i]), RefTemplates(stages, p, us[..i]))
  }

  lemma OccurrenceAt(stages: seq<StageDef>, p: string, us: seq<Instance>, i: nat)
    requires AllUsable(stages, us) && i < |us|
    ensures Occurrence(stages, p, us[i], Reached(stages, p, us, i))
              == Success((RefCall(p, us, i), Reached(stages, p, us, i + 1)))
  {
    var P := us[..i];
    assert us[..i + 1] == P + [us[i]];
    OccurrenceStep(stages, p, P, us[i]);
    RankPrefix(us[..i + 1], us, i);
  }

  /** With every occurrence compilable, the occurrences receive the reference calls
      and templates in traversal order, and the counter ends as their tally. */
  lemma {:induction false} RunReference(stages: seq<StageDef>, p: string, us: seq<Instance>)
    requires AllUsable(stages, us)
    ensures Run(Step(stages, p), us, Acc(map[], []))
              == Success((RefCalls(p, us), Acc(Tally(us), RefTemplates(stages, p, us))))
  {
    var inv := (i: nat) => if i <= |us| then Reached(stages, p, us, i) else Acc(map[], []);
    var out := (i: nat) => if i < |us| then RefCall(p, us, i) else Call("", "");
    forall i | 0 <= i < |us| ensures Step(stages, p)(us[i], inv(i)) == Success((out(i), inv(i + 1))) {
      OccurrenceAt(stages, p, us, i);
    }
    RunSuccess(Step(stages, p), us, inv, out);
    assert us[..0] == [] && us[..|us|] == us;
    assert Tally([]) == map[];
    assert inv(0) == Acc(map[], []);
    assert Outputs(out, |us|) == RefCalls(p, us);
  }

  /** Whatever the accumulator, the occurrences fail exactly when one does
      not compile, with that first occurrence's exception. */
  lemma {:induction false} RunRefused(stages: seq<StageDef>, p: string, us: seq<Instance>, acc: Acc)
    ensures Run(Step(stages, p), us, acc).Success? <==> AllUsable(stages, us)
    ensures !AllUsable(stages, us) ==>
      Run(Step(stages, p), us, acc)
        == Failure(Refusal(stages)(us[FirstRejected(Compilable(stages), us)]))
  {
    forall x, t | Compilable(stages)(x) ensures Step(stages, p)(x, t).Success? {
    }
    forall x, t | !Compilable(stages)(x) ensures Step(stages, p)(x, t) == Failure(Refusal(stages)(x)) {
    }
    RunFailure(Step(stages, p), Compilable(stages), Refusal(stages), us, acc);
  }

  // ---------------------------------------------------------------------
  // One pipeline
  // ---------------------------------------------------------------------

  /** A pipeline with an occurrence that does not compile raises at the
      first such occurrence, in traversal order. */
  lemma CompilePipelineFailure(stages: seq<StageDef>, pvc: string, p: Pipeline)
    ensures CompilePipeline(stages, pvc, p).Failure? <==> !AllUsable(stages, Occurrences(p))
    ensures var us := Occurrences(p);
      !AllUsable(stages, us) ==>
        CompilePipeline(stages, pvc, p)
          == Failure(Refusal(stages)(us[FirstRejected(Compilable(stages), us)]))
  {
    assert Readable(ParserBlock, p.flow);
    BlocksRun(ParserBlock, Step(stages, p.name), p.flow, Acc(map[], []));
    RunRefused(stages, p.name, Occurrences(p), Acc(map[], []));
  }

  /** A pipeline whose occurrences all compile compiles into a workflow
      whose first template is the entrypoint steps template (one entry per
      block, as wide as the block, holding the reference calls in traversal
      order), followed by one container template per occurrence, in the
      same order. */
  lemma CompilePipelineSuccess(stages: seq<StageDef>, pvc: string, p: Pipeline)
    requires AllUsable(stages, Occurrences(p))
    ensures var us, r := Occurrences(p), CompilePipeline(stages, pvc, p);
      && r.Success?
      && r.value.apiVersion == ApiVersion && r.value.kind == Kind
      && r.value.generateName == p.name + "-"
      && r.value.namespace == Some(Namespace)
      && r.value.entrypoint == p.name
      && r.value.serviceAccountName == Some(ServiceAccount)
      && r.value.volume == Some(Volume(VolumeName, pvc))
      && |r.value.templates| == |us| + 1
      && r.value.templates[0].StepsTemplate?
      && r.value.templates[0].name == p.name
      && |r.value.templates[0].steps| == |p.flow|
      && (forall b :: 0 <= b < |p.flow| ==> |r.value.templates[0].steps[b]| == |ParserMembers(p.flow[b])|)
      && Flatten(r.value.templates[0].steps) == RefCalls(p.name, us)
      && r.value.templates[1..] == RefTemplates(stages, p.name, us)
  {
    var us := Occurrences(p);
    var acc0 := Acc(map[], []);
    assert Readable(ParserBlock, p.flow);
    BlocksRun(ParserBlock, Step(stages, p.name), p.flow, acc0);
    RunReference(stages, p.name, us);
    BlocksShape(ParserBlock, Step(stages, p.name), p.flow, acc0);
  }

  /** The template of the i-th occurrence of a compiled pipeline: a
      container named for the stage, its occurrence number and the pipeline,
      running the `no`-prefixed image of the stage's last definition, with
      `python main.py`, the occurrence's own parameters as flags, and the
      shared volume mounted at the definition's data path. Its call in the
      steps template has the matching display name. */
  lemma {:induction false} OccurrenceTemplate(stages: seq<StageDef>, pvc: string, p: Pipeline, i: nat)
    requires AllUsable(stages, Occurrences(p))
    requires i < |Occurrences(p)|
    ensures var us, r := Occurrences(p), CompilePipeline(stages, pvc, p);
      && r.Success? && |r.value.templates| == |us| + 1
      && r.value.templates[0].StepsTemplate? && |Flatten(r.value.templates[0].steps)| == |us|
      && var w, def, k := r.value, StagesDict(stages, us[i].stage).value, Rank(us, i);
      && w.templates[1 + i]
           == ScriptTemplate(TemplateName(us[i].stage, k, p.name), "no" + def.image.value,
                             ["python", "main.py"], BuildArgs(ParamsOrEmpty(us[i])),
                             Mount("shared-data", def.dataPath.value))
      && Flatten(w.templates[0].steps)[i]
           == Call(DisplayName(us[i].stage, k), TemplateName(us[i].stage, k, p.name))
  {
    CompilePipelineSuccess(stages, pvc, p);
    var w := CompilePipeline(stages, pvc, p).value;
    assert w.templates[1 + i] == w.templates[1..][i];
  }

  /** The counter numbers occurrences 1, 2, ... per stage: the first
      occurrence of a stage gets the plain names, and only it. */
  lemma OccurrenceNumbering(us: seq<Instance>, i: nat)
    requires i < |us|
    ensures Rank(us, i) >= 1
    ensures (forall h :: 0 <= h < i ==> us[h].stage != us[i].stage) <==>
              (DisplayName(us[i].stage, Rank(us, i)) == us[i].stage)
  {
    RankOneIffFirst(us, i);
    var k := Rank(us, i);
    if k > 1 {
      assert |DisplayName(us[i].stage, k)| > |us[i].stage|;
    }
  }

  /** Within one pipeline, two occurrences of the same stage get distinct
      template names and distinct display names. */
  lemma PerStageNamesDistinct(stages: seq<StageDef>, pvc: string, p: Pipeline, i: nat, j: nat)
    requires AllUsable(stages, Occurrences(p))
    requires i < j < |Occurrences(p)|
    requires Occurrences(p)[i].stage == Occurrences(p)[j].stage
    ensures var us, r := Occurrences(p), CompilePipeline(stages, pvc, p);
      && r.Success? && |r.value.templates| == |us| + 1
      && r.value.templates[0].StepsTemplate? && |Flatten(r.value.templates[0].steps)| == |us|
      && var w := r.value;
      && w.templates[1 + i].name != w.templates[1 + j].name
      && Flatten(w.templates[0].steps)[i].name != Flatten(w.templates[0].steps)[j].name
  {
    var us := Occurrences(p);
    OccurrenceTemplate(stages, pvc, p, i);
    OccurrenceTemplate(stages, pvc, p, j);
    RankGrows(us, i, j);
    OccurrenceNamesDistinct(us[i].stage, p.name, Rank(us, i), Rank(us, j));
  }

  /** Every call of the steps template names a template of the workflow. */
  lemma ReferencesResolve(stages: seq<StageDef>, pvc: string, p: Pipeline, b: nat, c: nat)
    requires var w := CompilePipeline(stages, pvc, p);
      w.Success? && b < |w.value.templates[0].steps| && c < |w.value.templates[0].steps[b]|
    ensures var w := CompilePipeline(stages, pvc, p).value;
      Names(w.templates, w.templates[0].steps[b][c].template)
  {
    var us := Occurrences(p);
    CompilePipelineFailure(stages, pvc, p);
    CompilePipelineSuccess(stages, pvc, p);
    var w := CompilePipeline(stages, pvc, p).value;
    var steps := w.templates[0].steps;
    FlattenMember(steps, b, c);
    var i :| 0 <= i < |us| && RefCalls(p.name, us)[i] == steps[b][c];
    OccurrenceTemplate(stages, pvc, p, i);
    assert w.templates[1 + i].name == steps[b][c].template;
  }

  /** After a pipeline, `step_counter` maps exactly the stages that occur in
      it, each to its number of occurrences. */
  lemma {:induction false} CounterCounts(stages: seq<StageDef>, p: Pipeline, s: string)
    requires AllUsable(stages, Occurrences(p))
    ensures var us, r := Occurrences(p), Blocks(ParserBlock, Step(stages, p.name), p.flow, Acc(map[], []));
      && r.Success?
      && var acc := r.value.1;
      && (s in acc.counter <==> exists i :: 0 <= i < |us| && us[i].stage == s)
      && (s in acc.counter ==> acc.counter[s] == Occ(s, us))
  {
    var us := Occurrences(p);
    assert Readable(ParserBlock, p.flow);
    BlocksRun(ParserBlock, Step(stages, p.name), p.flow, Acc(map[], []));
    RunReference(stages, p.name, us);
    TallyCounts(us, s);
  }

  // ---------------------------------------------------------------------
  // The whole configuration
  // ---------------------------------------------------------------------

  function Compiles(stages: seq<StageDef>, pvc: string): Pipeline -> bool {
    p => CompilePipeline(stages, pvc, p).Success?
  }

  /** `generate_argo_with_parallel`: without a `Deployment` section it
      raises. Otherwise each pipeline is compiled against the configured
      claim name (`argo-shard-pvc` when none is given) and the run yields one
      workflow per pipeline, in order, or the error of the first pipeline
      that raises: one failing pipeline loses every workflow. */
  lemma GenerateSpec(c: Config)
    ensures c.deployment.None? ==> GenerateArgoWithParallel(c) == Failure(MissingKey("Deployment"))
    ensures c.deployment.Some? ==>
      var pvc := if c.deployment.value.pvcName.Some? then c.deployment.value.pvcName.value
                 else "argo-shard-pvc";
      var ps, r := c.pipelines, GenerateArgoWithParallel(c);
      var j := FirstRejected(Compiles(c.stages, pvc), ps);
      && (r.Success? <==> j == |ps|)
      && (r.Success? ==> |r.value| == |ps|)
      && (r.Success? ==> forall i :: 0 <= i < |ps| ==> r.value[i] == CompilePipeline(c.stages, pvc, ps[i]).value)
      && (j < |ps| ==> r == Failure(CompilePipeline(c.stages, pvc, ps[j]).error))
  {
    if c.deployment.Some? {
      var pvc := c.deployment.value.pvcName.GetOr(DefaultPvc);
      var ps, step := c.pipelines, PipelineStep(c.stages, pvc);
      var j := FirstRejected(Compiles(c.stages, pvc), ps);
      var inv := (i: nat) => ();
      var out := (i: nat) => if i < |ps| && CompilePipeline(c.stages, pvc, ps[i]).Success?
                             then CompilePipeline(c.stages, pvc, ps[i]).value
                             else Workflow("", "", "", None, "", None, None, []);
      if j == |ps| {
        RunSuccess(step, ps, inv, out);
      } else {
        RunStops(step, ps, inv, out, j);
      }
    }
  }
}
