/** `NoReuseArgoGenerator` (`pipeline/auto-argo-generator/no_reuse_generator.py`):
    one step per stage occurrence, named after the occurrence's object
    identity, and one template per stage name, in order of first use. */
module NoReuseGenerator {
  import Text
  import opened Config
  import opened Argo
  import opened Fold
  import opened OrderedMap
  import opened BaseGenerator

  // ---------------------------------------------------------------------
  // The generator
  // ---------------------------------------------------------------------

  /** `f"{stage['stage']}-{id(stage)}"`. */
  function StepName(inst: Instance): string {
    inst.stage + "-" + Text.Decimal(inst.id)
  }

  /** `_create_step(name, block)`: a step calling the stage's template with
      the block's parameters as arguments; a block without `parameters`
      raises. */
  function CreateStep(name: string, inst: Instance): Result<Step> {
    match inst.parameters
    case None => Failure(MissingKey("parameters"))
    case Some(ps) => Success(Step(name, inst.stage, ps))
  }

  /** One occurrence: its step (as the singleton list `main` holds), then
      its stage's template assigned again. */
  function Occurrence(stages: seq<StageDef>, inst: Instance, ts: Templates)
    : Result<(seq<Step>, Templates)>
  {
    match CreateStep(StepName(inst), inst)
    case Failure(e) => Failure(e)
    case Success(st) =>
      match CreateTemplate(stages, inst.stage)
      case Failure(e) => Failure(e)
      case Success(t) => Success(([st], Put(ts, inst.stage, t)))
  }

  function Visit(stages: seq<StageDef>): (Instance, Templates) -> Result<(seq<Step>, Templates)> {
    (inst: Instance, ts: Templates) => Occurrence(stages, inst, ts)
  }

  /** `_generate_one(pipeline)`: the skeleton named after the pipeline, the
      template `main` holding one entry per flow block, then the stage
      templates in the order their stages were first assigned. */
  function GenerateOne(stages: seq<StageDef>, p: Pipeline): Result<Workflow> {
    match Blocks(GeneratorMembers, Visit(stages), p.flow, [])
    case Failure(e) => Failure(e)
    case Success((groups, ts)) =>
      Success(BaseWorkflow(p.name).(templates := [MainTemplate("main", groups)] + Values(ts)))
  }

  function PipelineStep(stages: seq<StageDef>): (Pipeline, ()) -> Result<(Workflow, ())> {
    (p: Pipeline, u: ()) =>
      match GenerateOne(stages, p)
      case Failure(e) => Failure(e)
      case Success(w) => Success((w, ()))
  }

  /** `generate_all()`: the pipelines in order; the first exception ends
      the whole call. */
  function GenerateAll(c: Config): Result<seq<Workflow>> {
    match Run(PipelineStep(c.stages), c.pipelines, ())
    case Failure(e) => Failure(e)
    case Success((ws, _)) => Success(ws)
  }

  // ---------------------------------------------------------------------
  // Reference semantics
  // ---------------------------------------------------------------------

  /** An occurrence compiles when it has parameters and the first
      definition of its stage has parameters. */
  predicate Compiles(stages: seq<StageDef>, inst: Instance) {
    inst.parameters.Some? && GetStageParams(stages, inst.stage).Success?
  }

  function Accepts(stages: seq<StageDef>): Instance -> bool {
    (inst: Instance) => Compiles(stages, inst)
  }

  /** What an occurrence that does not compile raises: the missing block
      parameters first, else the stage lookup's error. */
  function Refusal(stages: seq<StageDef>): Instance -> Error {
    (inst: Instance) =>
      if inst.parameters.None? then MissingKey("parameters")
      else match GetStageParams(stages, inst.stage)
        case Failure(e) => e
        case Success(_) => MissingKey("parameters")
  }

  /** How an occurrence that compiles moves the template map. */
  function Record(stages: seq<StageDef>): (Instance, Templates) -> Templates {
    (inst: Instance, ts: Templates) =>
      match CreateTemplate(stages, inst.stage)
      case Success(t) => Put(ts, inst.stage, t)
      case Failure(_) => ts
  }

  /** The step of an occurrence that compiles. */
  function RefStep(inst: Instance): Step
    requires inst.parameters.Some?
  {
    Step(StepName(inst), inst.stage, inst.parameters.value)
  }

  /** An occurrence compiles or fails whatever the templates so far. */
  lemma OccurrenceFacts(stages: seq<StageDef>)
    ensures forall x, t :: Accepts(stages)(x) ==>
      Visit(stages)(x, t) == Success(([RefStep(x)], Record(stages)(x, t)))
    ensures forall x, t :: !Accepts(stages)(x) ==> Visit(stages)(x, t) == Failure(Refusal(stages)(x))
  {
  }

  /** The template map after occurrences `us`: one entry per stage name in
      order of first use, each its stage's template. */
  ghost predicate OnePerStage(stages: seq<StageDef>, ts: Templates, us: seq<Instance>) {
    Keys(ts) == Dedup(StageNames(us)) && Faithful(stages, ts)
  }

  /** One more compiling occurrence keeps the template map one faithful
      entry per stage name in order of first use. */
  lemma {:induction false} TemplatesStep(stages: seq<StageDef>, us: seq<Instance>, i: nat)
    requires 0 < i <= |us|
    requires forall j :: 0 <= j < i ==> Accepts(stages)(us[j])
    ensures OnePerStage(stages, After(Record(stages), us, [], i), us[..i])
    decreases i, 0
  {
    TemplatesAfter(stages, us, i - 1);
    var ts := After(Record(stages), us, [], i - 1);
    var s := us[i - 1].stage;
    assert Accepts(stages)(us[i - 1]);
    var t := CreateTemplate(stages, s).value;
    assert After(Record(stages), us, [], i) == Put(ts, s, t);
    PutFirstUse(stages, ts, StageNames(us[..i - 1]), s, t);
    StageNamesPrefix(us, i);
  }

  /** The templates after the first i occurrences, all compiling: one per
      stage name in order of first use, each its stage's template. */
  lemma {:induction false} TemplatesAfter(stages: seq<StageDef>, us: seq<Instance>, i: nat)
    requires i <= |us|
    requires forall j :: 0 <= j < i ==> Accepts(stages)(us[j])
    ensures OnePerStage(stages, After(Record(stages), us, [], i), us[..i])
    decreases i, 1
  {
    if i > 0 {
      TemplatesStep(stages, us, i);
    }
  }

  /** The occurrences in order from no templates: they all compile exactly
      when each has parameters and a stage defined with parameters, and then
      occurrence i yields its own step and the templates are one per stage
      name in order of first use; otherwise the first occurrence that does
      not compile ends the run with its error. */
  lemma RunOccurrences(stages: seq<StageDef>, us: seq<Instance>)
    ensures var q, j := Run(Visit(stages), us, []), FirstRejected(Accepts(stages), us);
      && (q.Success? <==> j == |us|)
      && (j < |us| ==> q == Failure(Refusal(stages)(us[j])))
      && (q.Success? ==>
            && |q.value.0| == |us|
            && (forall i :: 0 <= i < |us| ==>
                  us[i].parameters.Some? && q.value.0[i] == [RefStep(us[i])])
            && Keys(q.value.1) == Dedup(StageNames(us))
            && Faithful(stages, q.value.1))
  {
    var step := Visit(stages);
    OccurrenceFacts(stages);
    RunFailure<Instance, seq<Step>, Templates>(step, Accepts(stages), Refusal(stages), us, []);
    if FirstRejected(Accepts(stages), us) == |us| {
      RunThreaded<Instance, seq<Step>, Templates>(step, Accepts(stages), Record(stages), us, []);
      TemplatesAfter(stages, us, |us|);
      assert us[..|us|] == us;
      forall i | 0 <= i < |us|
        ensures us[i].parameters.Some? && step(us[i], After(Record(stages), us, [], i)).value.0 == [RefStep(us[i])]
      {
        assert Accepts(stages)(us[i]);
      }
    }
  }

  // ---------------------------------------------------------------------
  // One pipeline
  // ---------------------------------------------------------------------

  /** `_generate_one` raises at the first thing in traversal order that
      fails: an occurrence before the first unreadable block that does not
      compile, else that block; otherwise it succeeds. */
  lemma GenerateOneFailure(stages: seq<StageDef>, p: Pipeline)
    ensures Unreadable(p) <= |p.flow|
    ensures var us := Reached(p);
      var j, r := FirstRejected(Accepts(stages), us), GenerateOne(stages, p);
      && (r.Success? <==> Unreadable(p) == |p.flow| && j == |us|)
      && (j < |us| ==> r == Failure(Refusal(stages)(us[j])))
      && (j == |us| && Unreadable(p) < |p.flow| ==>
            r == Failure(GeneratorMembers(p.flow[Unreadable(p)]).error))
  {
    var k := Unreadable(p);
    var us := Reached(p);
    BlocksOutcome(GeneratorMembers, Visit(stages), p.flow, []);
    RunOccurrences(stages, us);
    if k == |p.flow| {
      BlocksRun(GeneratorMembers, Visit(stages), p.flow, []);
    }
  }

  /** The workflow is `_base_workflow`'s skeleton for the pipeline's name
      with only its templates filled in: the `main` steps template first,
      which is the entrypoint. */
  lemma ExtendsBase(stages: seq<StageDef>, p: Pipeline)
    requires GenerateOne(stages, p).Success?
    ensures var w := GenerateOne(stages, p).value;
      && w == BaseWorkflow(p.name).(templates := w.templates)
      && |w.templates| >= 1 && w.templates[0].MainTemplate? && w.templates[0].name == w.entrypoint
  {
  }

  /** A pipeline that compiles: the skeleton named after it with the
      template `main` first, holding one entry per block with one singleton
      list per member, the occurrence steps in traversal order; then one
      template per stage name in order of first use. */
  lemma GenerateOneSuccess(stages: seq<StageDef>, p: Pipeline)
    requires GenerateOne(stages, p).Success?
    ensures var w, us := GenerateOne(stages, p).value, Occurrences(p);
      var names := Dedup(StageNames(us));
      && w.apiVersion == ApiVersion && w.kind == Kind
      && w.generateName == p.name + "-" && w.entrypoint == "main"
      && w.namespace.None? && w.serviceAccountName.None? && w.volume.None?
      && |w.templates| == 1 + |names|
      && w.templates[0].MainTemplate? && w.templates[0].name == "main"
      && |w.templates[0].groups| == |p.flow|
      && (forall b :: 0 <= b < |p.flow| ==>
            GeneratorMembers(p.flow[b]).Success?
            && |w.templates[0].groups[b]| == |GeneratorMembers(p.flow[b]).value|)
      && |Flatten(w.templates[0].groups)| == |us|
      && (forall i :: 0 <= i < |us| ==>
            us[i].parameters.Some? && Flatten(w.templates[0].groups)[i] == [RefStep(us[i])])
      && (forall j :: 0 <= j < |names| ==>
            CreateTemplate(stages, names[j]) == Success(w.templates[1 + j]))
  {
    var step := Visit(stages);
    var us := Occurrences(p);
    GenerateOneFailure(stages, p);
    BlocksOutcome(GeneratorMembers, step, p.flow, []);
    BlocksRun(GeneratorMembers, step, p.flow, []);
    BlocksShape(GeneratorMembers, step, p.flow, []);
    RunOccurrences(stages, us);
    var ts := Run(step, us, []).value.1;
    var w := GenerateOne(stages, p).value;
    assert w.templates[1..] == Values(ts);
    forall j | 0 <= j < |Dedup(StageNames(us))|
      ensures CreateTemplate(stages, Dedup(StageNames(us))[j]) == Success(w.templates[1 + j])
    {
      assert ts[j] in ts;
      assert w.templates[1 + j] == Values(ts)[j];
    }
  }

  /** Every step of `main` calls a template of the workflow, and so does
      the entrypoint. */
  lemma ReferencesResolve(stages: seq<StageDef>, p: Pipeline, b: nat, c: nat, d: nat)
    requires var r := GenerateOne(stages, p);
      && r.Success? && r.value.templates[0].MainTemplate?
      && b < |r.value.templates[0].groups| && c < |r.value.templates[0].groups[b]|
      && d < |r.value.templates[0].groups[b][c]|
    ensures var w := GenerateOne(stages, p).value;
      Names(w.templates, w.entrypoint) && Names(w.templates, w.templates[0].groups[b][c][d].template)
  {
    GenerateOneSuccess(stages, p);
    var w, us := GenerateOne(stages, p).value, Occurrences(p);
    var names := Dedup(StageNames(us));
    var groups := w.templates[0].groups;
    assert w.templates[0].name == w.entrypoint;
    FlattenMember(groups, b, c);
    var i :| 0 <= i < |us| && Flatten(groups)[i] == groups[b][c];
    assert groups[b][c][d] == RefStep(us[i]);
    assert StageNames(us)[i] == us[i].stage;
    DedupMembers(StageNames(us), us[i].stage);
    var j :| 0 <= j < |names| && names[j] == us[i].stage;
    assert w.templates[1 + j].name == us[i].stage;
  }

  /** The template names of a workflow are pairwise distinct exactly when
      no occurrence is of a stage named `main`. */
  lemma TemplateNamesDistinct(stages: seq<StageDef>, p: Pipeline)
    requires GenerateOne(stages, p).Success?
    ensures var w := GenerateOne(stages, p).value;
      (forall i, j :: 0 <= i < j < |w.templates| ==> w.templates[i].name != w.templates[j].name)
      <==> "main" !in StageNames(Occurrences(p))
  {
    GenerateOneSuccess(stages, p);
    var w, us := GenerateOne(stages, p).value, Occurrences(p);
    var names := Dedup(StageNames(us));
    assert forall j :: 0 <= j < |names| ==> w.templates[1 + j].name == names[j];
    if "main" in StageNames(us) {
      DedupMembers(StageNames(us), "main");
      var j :| 0 <= j < |names| && names[j] == "main";
      assert w.templates[0].name == w.templates[1 + j].name;
    } else {
      forall i, j | 0 <= i < j < |w.templates| ensures w.templates[i].name != w.templates[j].name {
        assert names[j - 1] in StageNames(us);
        if i > 0 {
          assert names[i - 1] != names[j - 1];
        }
      }
    }
  }

  /** Step names tell occurrences apart by stage and identity. */
  lemma StepNameInjective(a: Instance, b: Instance)
    ensures StepName(a) == StepName(b) <==> a.stage == b.stage && a.id == b.id
  {
    if StepName(a) == StepName(b) {
      Text.DashDecimalInjective(a.stage, a.id, b.stage, b.id);
    }
  }

  /** `generate_all()` yields one workflow per pipeline, in order, exactly
      when every pipeline compiles, and otherwise fails with the first
      failing pipeline's error. */
  lemma GenerateAllSpec(c: Config)
    ensures var ps, r := c.pipelines, GenerateAll(c);
      var j := FirstRejected((p: Pipeline) => GenerateOne(c.stages, p).Success?, ps);
      && (r.Success? <==> j == |ps|)
      && (r.Success? ==> |r.value| == |ps|)
      && (r.Success? ==> forall i :: 0 <= i < |ps| ==> r.value[i] == GenerateOne(c.stages, ps[i]).value)
      && (j < |ps| ==> r == Failure(GenerateOne(c.stages, ps[j]).error))
  {
    var ps, step := c.pipelines, PipelineStep(c.stages);
    var j := FirstRejected((p: Pipeline) => GenerateOne(c.stages, p).Success?, ps);
    var inv := (i: nat) => ();
    var out := (i: nat) => if i < |ps| && GenerateOne(c.stages, ps[i]).Success?
                           then GenerateOne(c.stages, ps[i]).value
                           else BaseWorkflow("");
    if j == |ps| {
      RunSuccess(step, ps, inv, out);
    } else {
      RunStops(step, ps, inv, out, j);
    }
  }
}
