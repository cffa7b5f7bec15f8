/** `ReuseAwareArgoGenerator` (`pipeline/auto-argo-generator/reuse_generator.py`):
    occurrences whose content hash was already seen in the pipeline reuse
    the step name given to the first of them, and a stage's template is
    created only when an occurrence brings a hash not seen before. */
module ReuseGenerator {
  import Text
  import opened Config
  import opened Argo
  import opened Fold
  import opened OrderedMap
  import opened BaseGenerator

  // ---------------------------------------------------------------------
  // The generator
  // ---------------------------------------------------------------------

  /** What `_generate_one` carries from occurrence to occurrence: the
      `executed` dict from hash to step name and the `templates` dict. */
  datatype Memo = Memo(executed: map<string, string>, templates: Templates)

  /** Both dicts empty, as every pipeline starts. */
  const NoMemo := Memo(map[], [])

  /** `_reuse_step(block, templates, executed)`: a block without
      `parameters` raises; a hash already executed gives a step under the
      recorded name; a new hash records `{stage}-{hash}` and assigns the
      stage's template again, raising if the stage cannot be compiled. The
      step comes back as the singleton list `main` holds. */
  function ReuseStep(stages: seq<StageDef>, md5: Digest, inst: Instance, m: Memo)
    : Result<(seq<Step>, Memo)>
  {
    match inst.parameters
    case None => Failure(MissingKey("parameters"))
    case Some(ps) =>
      var h := HashStage(md5, inst.stage, ps);
      if h in m.executed then Success(([Step(m.executed[h], inst.stage, ps)], m))
      else
        match CreateTemplate(stages, inst.stage)
        case Failure(e) => Failure(e)
        case Success(t) =>
          var name := inst.stage + "-" + h;
          Success(([Step(name, inst.stage, ps)],
                   Memo(m.executed[h := name], Put(m.templates, inst.stage, t))))
  }

  function Visit(stages: seq<StageDef>, md5: Digest): (Instance, Memo) -> Result<(seq<Step>, Memo)> {
    (inst: Instance, m: Memo) => ReuseStep(stages, md5, inst, m)
  }

  /** `_generate_one(pipeline)`: the skeleton named `{name}-reuse`, the
      template `main` holding one entry per flow block, then the stage
      templates in the order their stages were first assigned. */
  function GenerateOne(stages: seq<StageDef>, md5: Digest, p: Pipeline): Result<Workflow> {
    match Blocks(GeneratorMembers, Visit(stages, md5), p.flow, NoMemo)
    case Failure(e) => Failure(e)
    case Success((groups, m)) =>
      Success(BaseWorkflow(p.name + "-reuse").(templates := [MainTemplate("main", groups)] + Values(m.templates)))
  }

  function PipelineStep(stages: seq<StageDef>, md5: Digest): (Pipeline, ()) -> Result<(Workflow, ())> {
    (p: Pipeline, u: ()) =>
      match GenerateOne(stages, md5, p)
      case Failure(e) => Failure(e)
      case Success(w) => Success((w, ()))
  }

  /** `generate_all()`: the pipelines in order, each from empty dicts; the
      first exception ends the whole call. */
  function GenerateAll(c: Config, md5: Digest): Result<seq<Workflow>> {
    match Run(PipelineStep(c.stages, md5), c.pipelines, ())
    case Failure(e) => Failure(e)
    case Success((ws, _)) => Success(ws)
  }

  // ---------------------------------------------------------------------
  // Reference semantics: what occurrence i of a flow receives
  // ---------------------------------------------------------------------

  /** The content hash of an occurrence (of no parameters when it has none;
      such an occurrence never gets that far). */
  function Hash(md5: Digest, inst: Instance): string {
    HashStage(md5, inst.stage, inst.parameters.GetOr([]))
  }

  /** The first occurrence with hash `h`, or the length of `us`. */
  function FirstWith(md5: Digest, us: seq<Instance>, h: string): (j: nat)
    ensures j <= |us|
    ensures forall i {:trigger Hash(md5, us[i])} :: 0 <= i < j ==> Hash(md5, us[i]) != h
    ensures j < |us| ==> Hash(md5, us[j]) == h
    decreases |us|
  {
    if |us| == 0 then 0
    else if Hash(md5, us[0]) == h then 0
    else 1 + FirstWith(md5, us[1..], h)
  }

  /** Occurrence i opens a hash: no occurrence before it has the same. */
  predicate Opens(md5: Digest, us: seq<Instance>, i: nat)
    requires i < |us|
  {
    FirstWith(md5, us, Hash(md5, us[i])) == i
  }

  /** Whether each occurrence opens a hash. */
  function Openings(md5: Digest, us: seq<Instance>): (bs: seq<bool>)
    ensures |bs| == |us|
    ensures forall i :: 0 <= i < |us| ==> bs[i] == Opens(md5, us, i)
  {
    seq(|us|, i requires 0 <= i < |us| => Opens(md5, us, i))
  }

  /** The stages of the marked occurrences among the first i, in order. */
  function Marked(us: seq<Instance>, marks: seq<bool>, i: nat): seq<string>
    requires i <= |us| && |marks| == |us|
    decreases i
  {
    if i == 0 then []
    else Marked(us, marks, i - 1) + (if marks[i - 1] then [us[i - 1].stage] else [])
  }

  /** The stages of the occurrences among the first i that open a hash,
      in order. */
  function OpenedStages(md5: Digest, us: seq<Instance>, i: nat): seq<string>
    requires i <= |us|
  {
    Marked(us, Openings(md5, us), i)
  }

  /** The step name occurrence i gets: its hash after the stage of the first
      occurrence with that hash. */
  function ReuseName(md5: Digest, us: seq<Instance>, i: nat): string
    requires i < |us|
  {
    var h := Hash(md5, us[i]);
    assert FirstWith(md5, us, h) <= i;
    us[FirstWith(md5, us, h)].stage + "-" + h
  }

  /** The step occurrence i yields. */
  function RefStep(md5: Digest, us: seq<Instance>, i: nat): Step
    requires i < |us| && us[i].parameters.Some?
  {
    Step(ReuseName(md5, us, i), us[i].stage, us[i].parameters.value)
  }

  /** Occurrence i compiles once those before it have: it has parameters,
      and when it opens a hash its stage's first definition has parameters. */
  predicate Fine(stages: seq<StageDef>, md5: Digest, us: seq<Instance>, i: nat)
    requires i < |us|
  {
    us[i].parameters.Some? && (Opens(md5, us, i) ==> GetStageParams(stages, us[i].stage).Success?)
  }

  /** The first occurrence from k on that does not compile, or `|us|`. */
  function FirstFault(stages: seq<StageDef>, md5: Digest, us: seq<Instance>, k: nat): (r: nat)
    requires k <= |us|
    ensures k <= r <= |us|
    ensures forall j :: k <= j < r ==> Fine(stages, md5, us, j)
    ensures r < |us| ==> !Fine(stages, md5, us, r)
    decreases |us| - k
  {
    if k == |us| || !Fine(stages, md5, us, k) then k else FirstFault(stages, md5, us, k + 1)
  }

  /** What an occurrence that does not compile raises: the missing block
      parameters first, else the stage lookup's error. */
  function Fault(stages: seq<StageDef>, inst: Instance): Error {
    if inst.parameters.None? then MissingKey("parameters")
    else match GetStageParams(stages, inst.stage)
      case Failure(e) => e
      // Never reached from a non-`Fine` occurrence, whose lookup then failed.
      case Success(_) => MissingKey("parameters")
  }

  /** How an occurrence moves the dicts. */
  function Record(stages: seq<StageDef>, md5: Digest): (Instance, Memo) -> Memo {
    (inst: Instance, m: Memo) =>
      var h := Hash(md5, inst);
      if h in m.executed then m
      else
        Memo(m.executed[h := inst.stage + "-" + h],
             match CreateTemplate(stages, inst.stage)
             case Success(t) => Put(m.templates, inst.stage, t)
             case Failure(_) => m.templates)
  }

  /** `executed` after the first i occurrences of `us`: exactly the hashes
      opened so far, each under the name of the occurrence that opened it. */
  ghost predicate ExecutedUpTo(md5: Digest, us: seq<Instance>, i: nat, ex: map<string, string>) {
    && (forall h {:trigger h in ex} :: h in ex <==> FirstWith(md5, us, h) < i)
    && (forall h {:trigger h in ex} :: h in ex ==>
          FirstWith(md5, us, h) < |us| && ex[h] == us[FirstWith(md5, us, h)].stage + "-" + h)
  }

  /** `templates` after the first i occurrences of `us`: faithful, one per
      stage of an occurrence so far that opens a hash, in the order they
      first open one. */
  ghost predicate TemplatesUpTo(stages: seq<StageDef>, md5: Digest, us: seq<Instance>, i: nat, ts: Templates)
    requires i <= |us|
  {
    Faithful(stages, ts) && Keys(ts) == Dedup(OpenedStages(md5, us, i))
  }

  /** The dicts after the first i occurrences of `us`. */
  ghost predicate Recorded(stages: seq<StageDef>, md5: Digest, us: seq<Instance>, i: nat, m: Memo)
    requires i <= |us|
  {
    ExecutedUpTo(md5, us, i, m.executed) && TemplatesUpTo(stages, md5, us, i, m.templates)
  }

  /** While `executed` holds the hashes of the first i occurrences, occurrence
      i opens a hash exactly when its hash is not yet a key of `executed`. */
  lemma OpensUnseen(md5: Digest, us: seq<Instance>, i: nat, ex: map<string, string>)
    requires i < |us| && ExecutedUpTo(md5, us, i, ex)
    ensures Opens(md5, us, i) <==> Hash(md5, us[i]) !in ex
  {
    var h := Hash(md5, us[i]);
    assert FirstWith(md5, us, h) <= i;
    assert h in ex <==> FirstWith(md5, us, h) < i;
  }

  /** A hash seen before leaves both dicts recorded one occurrence on. */
  lemma {:induction false} SeenKeeps(stages: seq<StageDef>, md5: Digest, us: seq<Instance>, i: nat, m: Memo)
    requires i < |us| && Recorded(stages, md5, us, i, m)
    requires Hash(md5, us[i]) in m.executed
    ensures Recorded(stages, md5, us, i + 1, m)
  {
    var h := Hash(md5, us[i]);
    assert FirstWith(md5, us, h) < i;
    forall g ensures g in m.executed <==> FirstWith(md5, us, g) < i + 1 {
      if FirstWith(md5, us, g) == i {
        assert false;
      }
    }
    assert OpenedStages(md5, us, i + 1) == OpenedStages(md5, us, i);
  }

  /** An occurrence whose hash was executed yields a step under the
      recorded name and leaves the dicts as they are. */
  lemma {:induction false} StepSeen(stages: seq<StageDef>, md5: Digest, us: seq<Instance>, i: nat, m: Memo)
    requires i < |us| && Fine(stages, md5, us, i) && Recorded(stages, md5, us, i, m)
    requires Hash(md5, us[i]) in m.executed
    ensures ReuseStep(stages, md5, us[i], m) == Success(([RefStep(md5, us, i)], m))
    ensures Record(stages, md5)(us[i], m) == m
    ensures Recorded(stages, md5, us, i + 1, m)
  {
    assert FirstWith(md5, us, Hash(md5, us[i])) < i;
    SeenKeeps(stages, md5, us, i, m);
  }

  /** Recording the name of a newly opened hash keeps `executed` recorded
      one occurrence on. */
  lemma {:induction false} ExecutedNew(md5: Digest, us: seq<Instance>, i: nat, ex: map<string, string>)
    requires i < |us| && ExecutedUpTo(md5, us, i, ex)
    requires Hash(md5, us[i]) !in ex
    ensures var h := Hash(md5, us[i]);
      ExecutedUpTo(md5, us, i + 1, ex[h := us[i].stage + "-" + h])
  {
    var h := Hash(md5, us[i]);
    var ex' := ex[h := us[i].stage + "-" + h];
    assert FirstWith(md5, us, h) == i;
    forall g ensures g in ex' <==> FirstWith(md5, us, g) < i + 1 {
      if FirstWith(md5, us, g) == i {
        assert g == h;
      }
    }
  }

  /** Assigning the template of a stage that opens a hash keeps the
      templates recorded one occurrence on. */
  lemma {:induction false} TemplatesNew(stages: seq<StageDef>, md5: Digest, us: seq<Instance>, i: nat,
                                        ts: Templates, t: Template)
    requires i < |us| && TemplatesUpTo(stages, md5, us, i, ts) && Opens(md5, us, i)
    requires CreateTemplate(stages, us[i].stage) == Success(t)
    ensures TemplatesUpTo(stages, md5, us, i + 1, Put(ts, us[i].stage, t))
  {
    var s := us[i].stage;
    PutFirstUse(stages, ts, OpenedStages(md5, us, i), s, t);
    assert OpenedStages(md5, us, i + 1) == OpenedStages(md5, us, i) + [s];
  }

  /** An occurrence that compiles and opens a hash records its own name
      for it and assigns its stage's template, keeping the dicts recorded. */
  lemma {:induction false} StepNew(stages: seq<StageDef>, md5: Digest, us: seq<Instance>, i: nat, m: Memo)
    requires i < |us| && Fine(stages, md5, us, i) && Recorded(stages, md5, us, i, m)
    requires Hash(md5, us[i]) !in m.executed
    ensures var u, h := us[i], Hash(md5, us[i]);
      && GetStageParams(stages, u.stage).Success?
      && var m' := Memo(m.executed[h := u.stage + "-" + h],
                        Put(m.templates, u.stage, CreateTemplate(stages, u.stage).value));
      && ReuseStep(stages, md5, u, m) == Success(([RefStep(md5, us, i)], m'))
      && Record(stages, md5)(u, m) == m'
      && Recorded(stages, md5, us, i + 1, m')
  {
    var u := us[i];
    var h := Hash(md5, u);
    assert FirstWith(md5, us, h) == i;
    var t := CreateTemplate(stages, u.stage).value;
    ExecutedNew(md5, us, i, m.executed);
    TemplatesNew(stages, md5, us, i, m.templates, t);
  }

  /** An occurrence that compiles yields its reference step and moves the
      dicts by `Record`, keeping them recorded. */
  lemma {:induction false} StepAlong(stages: seq<StageDef>, md5: Digest, us: seq<Instance>, i: nat, m: Memo)
    requires i < |us| && Fine(stages, md5, us, i) && Recorded(stages, md5, us, i, m)
    ensures us[i].parameters.Some?
    ensures ReuseStep(stages, md5, us[i], m) == Success(([RefStep(md5, us, i)], Record(stages, md5)(us[i], m)))
    ensures Recorded(stages, md5, us, i + 1, Record(stages, md5)(us[i], m))
  {
    if Hash(md5, us[i]) in m.executed {
      StepSeen(stages, md5, us, i, m);
    } else {
      StepNew(stages, md5, us, i, m);
    }
  }

  /** An occurrence that does not compile fails with its fault whatever
      recorded dicts it meets. */
  lemma {:induction false} StepFault(stages: seq<StageDef>, md5: Digest, us: seq<Instance>, i: nat, m: Memo)
    requires i < |us| && !Fine(stages, md5, us, i) && Recorded(stages, md5, us, i, m)
    ensures ReuseStep(stages, md5, us[i], m) == Failure(Fault(stages, us[i]))
  {
    if us[i].parameters.Some? {
      assert FirstWith(md5, us, Hash(md5, us[i])) == i;
    }
  }

  /** The template list of a pipeline's occurrences `us`: faithful stage
      templates, one per stage of an occurrence that opens a hash, in the
      order the stages first open one. */
  ghost predicate StageTemplates(stages: seq<StageDef>, md5: Digest, us: seq<Instance>, ts: seq<Template>) {
    && (forall j :: 0 <= j < |ts| ==> CreateTemplate(stages, ts[j].name) == Success(ts[j]))
    && TemplateNames(ts) == Dedup(OpenedStages(md5, us, |us|))
  }

  /** The stage of a marked occurrence among the first i is among the
      marked stages. */
  lemma {:induction false} MarkedHas(us: seq<Instance>, marks: seq<bool>, i: nat, j: nat)
    requires j < i <= |us| && |marks| == |us| && marks[j]
    ensures us[j].stage in Marked(us, marks, i)
    decreases i
  {
    if j < i - 1 {
      MarkedHas(us, marks, i - 1, j);
    }
  }

  /** Every marked stage occurs. */
  lemma {:induction false} MarkedOccur(us: seq<Instance>, marks: seq<bool>, i: nat, s: string)
    requires i <= |us| && |marks| == |us| && s in Marked(us, marks, i)
    ensures s in StageNames(us)
    decreases i
  {
    if s in Marked(us, marks, i - 1) {
      MarkedOccur(us, marks, i - 1, s);
    } else {
      assert StageNames(us)[i - 1] == s;
    }
  }

  /** The stage templates have pairwise distinct names; the stage of every
      occurrence that opens a hash has one, and no stage that does not
      occur has one. */
  lemma StageTemplatesNames(stages: seq<StageDef>, md5: Digest, us: seq<Instance>, ts: seq<Template>)
    requires StageTemplates(stages, md5, us, ts)
    ensures forall j, k :: 0 <= j < k < |ts| ==> ts[j].name != ts[k].name
    ensures forall i :: 0 <= i < |us| && Opens(md5, us, i) ==> Names(ts, us[i].stage)
    ensures forall j :: 0 <= j < |ts| ==> ts[j].name in StageNames(us)
  {
    var o := OpenedStages(md5, us, |us|);
    assert forall j :: 0 <= j < |ts| ==> ts[j].name == Dedup(o)[j];
    forall i | 0 <= i < |us| && Opens(md5, us, i) ensures Names(ts, us[i].stage) {
      MarkedHas(us, Openings(md5, us), |us|, i);
      DedupMembers(o, us[i].stage);
      var j :| 0 <= j < |Dedup(o)| && Dedup(o)[j] == us[i].stage;
      assert ts[j].name == us[i].stage;
    }
    forall j | 0 <= j < |ts| ensures ts[j].name in StageNames(us) {
      MarkedOccur(us, Openings(md5, us), |us|, ts[j].name);
    }
  }

  /** The template list of dicts recorded after all of `us`. */
  lemma {:induction false} RecordedTemplates(stages: seq<StageDef>, md5: Digest, us: seq<Instance>, m: Memo)
    requires Recorded(stages, md5, us, |us|, m)
    ensures StageTemplates(stages, md5, us, Values(m.templates))
  {
    var ts := Values(m.templates);
    assert forall j :: 0 <= j < |ts| ==> m.templates[j] in m.templates;
    FaithfulNames(stages, m.templates);
  }

  /** `ys` holds, in order, the steps of occurrences i and on of `us`. */
  ghost predicate Yields(md5: Digest, us: seq<Instance>, i: nat, ys: seq<seq<Step>>) {
    && i + |ys| == |us|
    && forall j :: i <= j < |us| ==> us[j].parameters.Some? && ys[j - i] == [RefStep(md5, us, j)]
  }

  /** The step of occurrence i before those of the occurrences after it. */
  lemma YieldsCons(md5: Digest, us: seq<Instance>, i: nat, ys: seq<seq<Step>>)
    requires i < |us| && us[i].parameters.Some? && Yields(md5, us, i + 1, ys)
    ensures Yields(md5, us, i, [[RefStep(md5, us, i)]] + ys)
  {
    var zs := [[RefStep(md5, us, i)]] + ys;
    forall j | i <= j < |us| ensures us[j].parameters.Some? && zs[j - i] == [RefStep(md5, us, j)] {
      if j > i {
        assert zs[j - i] == ys[j - (i + 1)];
      }
    }
  }

  /** Steps yielded from the start, read occurrence by occurrence. */
  lemma YieldsAll(md5: Digest, us: seq<Instance>, ys: seq<seq<Step>>)
    requires Yields(md5, us, 0, ys)
    ensures |ys| == |us|
    ensures forall i :: 0 <= i < |us| ==> us[i].parameters.Some? && ys[i] == [RefStep(md5, us, i)]
  {
  }

  /** Every occurrence j in [i, n) turns dicts `ok` holds of at j into its
      reference step and dicts `ok` holds of at j + 1. */
  ghost predicate Advances(stages: seq<StageDef>, md5: Digest, us: seq<Instance>, i: nat, n: nat,
                           ok: (nat, Memo) -> bool)
    requires n <= |us|
  {
    forall j, t :: i <= j < n && ok(j, t) ==>
      && us[j].parameters.Some?
      && Visit(stages, md5)(us[j], t) == Success(([RefStep(md5, us, j)], Record(stages, md5)(us[j], t)))
      && ok(j + 1, Record(stages, md5)(us[j], t))
  }

  /** The occurrences from i on, from dicts `ok` holds of at i, each
      advancing `ok`: the run yields their reference steps and ends with
      dicts `ok` holds of at the end. */
  lemma {:induction false} RunKept(stages: seq<StageDef>, md5: Digest, us: seq<Instance>, i: nat, m: Memo,
                                   ok: (nat, Memo) -> bool)
    requires i <= |us| && ok(i, m) && Advances(stages, md5, us, i, |us|, ok)
    ensures var q := Run(Visit(stages, md5), us[i..], m);
      q.Success? && Yields(md5, us, i, q.value.0) && ok(|us|, q.value.1)
    decreases |us| - i
  {
    if i < |us| {
      var m' := Record(stages, md5)(us[i], m);
      RunKept(stages, md5, us, i + 1, m', ok);
      RunCons(Visit(stages, md5), us, i, m);
      YieldsCons(md5, us, i, Run(Visit(stages, md5), us[i + 1..], m').value.0);
    }
  }

  /** The occurrences from i on, from dicts `ok` holds of at i, those
      before k advancing `ok` and occurrence k failing from any dicts `ok`
      holds of: the run ends with that failure. */
  lemma {:induction false} RunKeptFails(stages: seq<StageDef>, md5: Digest, us: seq<Instance>, i: nat, m: Memo,
                                        k: nat, e: Error, ok: (nat, Memo) -> bool)
    requires i <= k < |us| && ok(i, m) && Advances(stages, md5, us, i, k, ok)
    requires forall t :: ok(k, t) ==> Visit(stages, md5)(us[k], t) == Failure(e)
    ensures Run(Visit(stages, md5), us[i..], m) == Failure(e)
    decreases k - i
  {
    if i < k {
      RunKeptFails(stages, md5, us, i + 1, Record(stages, md5)(us[i], m), k, e, ok);
      RunCons(Visit(stages, md5), us, i, m);
    } else {
      assert us[i..][0] == us[i];
    }
  }

  /** `Recorded` as a property of an index and dicts. */
  ghost function Kept(stages: seq<StageDef>, md5: Digest, us: seq<Instance>): (nat, Memo) -> bool {
    (j: nat, t: Memo) => j <= |us| && Recorded(stages, md5, us, j, t)
  }

  /** A compiling occurrence advances `Recorded`. */
  lemma StepKept(stages: seq<StageDef>, md5: Digest, us: seq<Instance>, j: nat, t: Memo)
    requires j < |us| && Fine(stages, md5, us, j) && Kept(stages, md5, us)(j, t)
    ensures us[j].parameters.Some?
    ensures Visit(stages, md5)(us[j], t) == Success(([RefStep(md5, us, j)], Record(stages, md5)(us[j], t)))
    ensures Kept(stages, md5, us)(j + 1, Record(stages, md5)(us[j], t))
  {
    StepAlong(stages, md5, us, j, t);
  }

  /** Compiling occurrences advance `Recorded`. */
  lemma StepsKept(stages: seq<StageDef>, md5: Digest, us: seq<Instance>, i: nat, n: nat)
    requires n <= |us| && forall j :: i <= j < n ==> Fine(stages, md5, us, j)
    ensures Advances(stages, md5, us, i, n, Kept(stages, md5, us))
  {
    forall j, t | i <= j < n && Kept(stages, md5, us)(j, t)
      ensures && us[j].parameters.Some?
              && Visit(stages, md5)(us[j], t) == Success(([RefStep(md5, us, j)], Record(stages, md5)(us[j], t)))
              && Kept(stages, md5, us)(j + 1, Record(stages, md5)(us[j], t))
    {
      StepKept(stages, md5, us, j, t);
    }
  }

  /** An occurrence at fault fails with its fault from any recorded dicts. */
  lemma FaultKept(stages: seq<StageDef>, md5: Digest, us: seq<Instance>, k: nat)
    requires k < |us| && !Fine(stages, md5, us, k)
    ensures forall t :: Kept(stages, md5, us)(k, t) ==> Visit(stages, md5)(us[k], t) == Failure(Fault(stages, us[k]))
  {
    forall t | Kept(stages, md5, us)(k, t) ensures Visit(stages, md5)(us[k], t) == Failure(Fault(stages, us[k])) {
      StepFault(stages, md5, us, k, t);
    }
  }

  /** The occurrences from i on, all compiling, from dicts recorded after
      the first i: occurrence j yields the step named after the first
      occurrence with its hash, and the dicts end recorded. */
  lemma RunRecorded(stages: seq<StageDef>, md5: Digest, us: seq<Instance>, i: nat, m: Memo)
    requires i <= |us| && Recorded(stages, md5, us, i, m)
    requires forall j :: i <= j < |us| ==> Fine(stages, md5, us, j)
    ensures var q := Run(Visit(stages, md5), us[i..], m);
      q.Success? && Yields(md5, us, i, q.value.0) && Recorded(stages, md5, us, |us|, q.value.1)
  {
    StepsKept(stages, md5, us, i, |us|);
    RunKept(stages, md5, us, i, m, Kept(stages, md5, us));
  }

  /** The occurrences from i on, the k-th the first at fault, from dicts
      recorded after the first i: the run ends with that occurrence's error. */
  lemma RunFaults(stages: seq<StageDef>, md5: Digest, us: seq<Instance>, i: nat, m: Memo, k: nat)
    requires i <= k < |us| && Recorded(stages, md5, us, i, m)
    requires forall j :: i <= j < k ==> Fine(stages, md5, us, j)
    requires !Fine(stages, md5, us, k)
    ensures Run(Visit(stages, md5), us[i..], m) == Failure(Fault(stages, us[k]))
  {
    StepsKept(stages, md5, us, i, k);
    FaultKept(stages, md5, us, k);
    RunKeptFails(stages, md5, us, i, m, k, Fault(stages, us[k]), Kept(stages, md5, us));
  }

  /** The occurrences in order from empty dicts, none at fault: they yield
      their steps and the templates are those of `StageTemplates`. */
  lemma RunSucceeds(stages: seq<StageDef>, md5: Digest, us: seq<Instance>)
    requires FirstFault(stages, md5, us, 0) == |us|
    ensures var q := Run(Visit(stages, md5), us, NoMemo);
      q.Success? && Yields(md5, us, 0, q.value.0) && StageTemplates(stages, md5, us, Values(q.value.1.templates))
  {
    assert us[0..] == us;
    assert Recorded(stages, md5, us, 0, NoMemo);
    RunRecorded(stages, md5, us, 0, NoMemo);
    RecordedTemplates(stages, md5, us, Run(Visit(stages, md5), us, NoMemo).value.1);
  }

  /** The occurrences in order from empty dicts: they all compile exactly
      when none is at fault, and then occurrence i yields the step named
      after the first occurrence with its hash and the templates are those
      of `StageTemplates`; otherwise the first occurrence at fault ends the
      run with its error. */
  lemma RunMemo(stages: seq<StageDef>, md5: Digest, us: seq<Instance>)
    ensures var q, k := Run(Visit(stages, md5), us, NoMemo), FirstFault(stages, md5, us, 0);
      && (q.Success? <==> k == |us|)
      && (k < |us| ==> q == Failure(Fault(stages, us[k])))
      && (q.Success? ==>
            && |q.value.0| == |us|
            && (forall i :: 0 <= i < |us| ==>
                  us[i].parameters.Some? && q.value.0[i] == [RefStep(md5, us, i)])
            && StageTemplates(stages, md5, us, Values(q.value.1.templates)))
  {
    var k := FirstFault(stages, md5, us, 0);
    if k == |us| {
      RunSucceeds(stages, md5, us);
      YieldsAll(md5, us, Run(Visit(stages, md5), us, NoMemo).value.0);
    } else {
      assert us[0..] == us;
      assert Recorded(stages, md5, us, 0, NoMemo);
      RunFaults(stages, md5, us, 0, NoMemo, k);
    }
  }

  // ---------------------------------------------------------------------
  // Step names
  // ---------------------------------------------------------------------

  /** Two occurrences get the same step name exactly when they have the
      same hash. */
  lemma ReuseNameShared(md5: Digest, us: seq<Instance>, i: nat, j: nat)
    requires i < |us| && j < |us|
    ensures ReuseName(md5, us, i) == ReuseName(md5, us, j) <==> Hash(md5, us[i]) == Hash(md5, us[j])
  {
    var a, b := ReuseName(md5, us, i), ReuseName(md5, us, j);
    var ha, hb := Hash(md5, us[i]), Hash(md5, us[j]);
    if a == b {
      assert a[|a| - 8..] == ha;
      assert b[|b| - 8..] == hb;
    }
  }

  /** Occurrences of one stage with the same parameter items, in whatever
      order they were written, share one step name. */
  lemma SameWorkShared(md5: Digest, us: seq<Instance>, i: nat, j: nat)
    requires i < |us| && j < |us| && us[i].stage == us[j].stage
    requires us[i].parameters.Some? && us[j].parameters.Some?
    requires IsDict(us[i].parameters.value) && IsDict(us[j].parameters.value)
    requires forall x :: x in us[i].parameters.value <==> x in us[j].parameters.value
    ensures ReuseName(md5, us, i) == ReuseName(md5, us, j)
  {
    HashIgnoresOrder(md5, us[i].stage, us[i].parameters.value, us[j].parameters.value);
    ReuseNameShared(md5, us, i, j);
  }

  // ---------------------------------------------------------------------
  // One pipeline
  // ---------------------------------------------------------------------

  /** `_generate_one` raises at the first thing in traversal order that
      fails: an occurrence before the first unreadable block that is at
      fault, else that block; otherwise it succeeds. */
  lemma GenerateOneFailure(stages: seq<StageDef>, md5: Digest, p: Pipeline)
    ensures Unreadable(p) <= |p.flow|
    ensures var us := Reached(p);
      var k, r := FirstFault(stages, md5, us, 0), GenerateOne(stages, md5, p);
      && (r.Success? <==> Unreadable(p) == |p.flow| && k == |us|)
      && (k < |us| ==> r == Failure(Fault(stages, us[k])))
      && (k == |us| && Unreadable(p) < |p.flow| ==>
            r == Failure(GeneratorMembers(p.flow[Unreadable(p)]).error))
  {
    var k := Unreadable(p);
    BlocksOutcome(GeneratorMembers, Visit(stages, md5), p.flow, NoMemo);
    RunMemo(stages, md5, Reached(p));
    if k == |p.flow| {
      BlocksRun(GeneratorMembers, Visit(stages, md5), p.flow, NoMemo);
    }
  }

  /** The workflow is `_base_workflow`'s skeleton for `{name}-reuse`
      with only its templates filled in: the `main` steps template first,
      which is the entrypoint. */
  lemma ExtendsBase(stages: seq<StageDef>, md5: Digest, p: Pipeline)
    requires GenerateOne(stages, md5, p).Success?
    ensures var w := GenerateOne(stages, md5, p).value;
      && w == BaseWorkflow(p.name + "-reuse").(templates := w.templates)
      && |w.templates| >= 1 && w.templates[0].MainTemplate? && w.templates[0].name == w.entrypoint
  {
  }

  /** A pipeline that compiles: the skeleton named `{name}-reuse` with the
      template `main` first, holding one entry per block with one singleton
      list per member, occurrence i's step named after the first occurrence
      with its hash; then faithful stage templates, one per stage of an
      occurrence that opens a hash, in the order those stages first open
      one. */
  lemma GenerateOneSuccess(stages: seq<StageDef>, md5: Digest, p: Pipeline)
    requires GenerateOne(stages, md5, p).Success?
    ensures var w, us := GenerateOne(stages, md5, p).value, Occurrences(p);
      && w.apiVersion == ApiVersion && w.kind == Kind
      && w.generateName == p.name + "-reuse-" && w.entrypoint == "main"
      && w.namespace.None? && w.serviceAccountName.None? && w.volume.None?
      && |w.templates| >= 1
      && w.templates[0].MainTemplate? && w.templates[0].name == "main"
      && |w.templates[0].groups| == |p.flow|
      && (forall b :: 0 <= b < |p.flow| ==>
            GeneratorMembers(p.flow[b]).Success?
            && |w.templates[0].groups[b]| == |GeneratorMembers(p.flow[b]).value|)
      && |Flatten(w.templates[0].groups)| == |us|
      && (forall i :: 0 <= i < |us| ==>
            us[i].parameters.Some? && Flatten(w.templates[0].groups)[i] == [RefStep(md5, us, i)])
      && StageTemplates(stages, md5, us, w.templates[1..])
  {
    var step := Visit(stages, md5);
    var us := Occurrences(p);
    GenerateOneFailure(stages, md5, p);
    BlocksOutcome(GeneratorMembers, step, p.flow, NoMemo);
    BlocksRun(GeneratorMembers, step, p.flow, NoMemo);
    BlocksShape(GeneratorMembers, step, p.flow, NoMemo);
    RunMemo(stages, md5, us);
    var m := Run(step, us, NoMemo).value.1;
    var w := GenerateOne(stages, md5, p).value;
    assert w.templates[1..] == Values(m.templates);
  }

  /** No two occurrences of different stages share a hash. */
  predicate NoCrossStageCollision(md5: Digest, us: seq<Instance>) {
    forall i, j {:trigger Hash(md5, us[i]), Hash(md5, us[j])} ::
      0 <= i < |us| && 0 <= j < |us| && Hash(md5, us[i]) == Hash(md5, us[j]) ==>
      us[i].stage == us[j].stage
  }

  /** Without a hash shared across stages, the step of every occurrence
      that compiles calls one of the pipeline's stage templates. */
  lemma StepResolves(stages: seq<StageDef>, md5: Digest, us: seq<Instance>, ts: seq<Template>, i: nat)
    requires NoCrossStageCollision(md5, us) && StageTemplates(stages, md5, us, ts)
    requires i < |us| && us[i].parameters.Some?
    ensures Names(ts, RefStep(md5, us, i).template)
  {
    StageTemplatesNames(stages, md5, us, ts);
    var f := FirstWith(md5, us, Hash(md5, us[i]));
    assert f <= i;
    assert Opens(md5, us, f);
    assert us[f].stage == us[i].stage;
  }

  /** A workflow whose `main` lists the steps of `us` and whose other
      templates are those of `StageTemplates`: without a hash shared
      across stages, every step of `main` calls one of its templates, and
      so does the entrypoint. */
  lemma MainResolves(stages: seq<StageDef>, md5: Digest, us: seq<Instance>, w: Workflow, b: nat, c: nat, d: nat)
    requires NoCrossStageCollision(md5, us)
    requires |w.templates| >= 1 && w.templates[0].MainTemplate? && w.templates[0].name == w.entrypoint
    requires var groups := w.templates[0].groups;
      && |Flatten(groups)| == |us|
      && (forall i :: 0 <= i < |us| ==> us[i].parameters.Some? && Flatten(groups)[i] == [RefStep(md5, us, i)])
      && b < |groups| && c < |groups[b]| && d < |groups[b][c]|
    requires StageTemplates(stages, md5, us, w.templates[1..])
    ensures Names(w.templates, w.entrypoint) && Names(w.templates, w.templates[0].groups[b][c][d].template)
  {
    var groups: seq<seq<seq<Step>>> := w.templates[0].groups;
    var ts := w.templates[1..];
    assert w.templates[0].name == w.entrypoint;
    FlattenMember(groups, b, c);
    var i :| 0 <= i < |us| && Flatten(groups)[i] == groups[b][c];
    assert groups[b][c][d] == RefStep(md5, us, i);
    StepResolves(stages, md5, us, ts, i);
    var j :| 0 <= j < |ts| && ts[j].name == groups[b][c][d].template;
    assert w.templates[1 + j] == ts[j];
  }

  /** Without a hash shared across stages, every step of `main` calls a
      template of the workflow, and so does the entrypoint. */
  lemma ReferencesResolve(stages: seq<StageDef>, md5: Digest, p: Pipeline, b: nat, c: nat, d: nat)
    requires NoCrossStageCollision(md5, Occurrences(p))
    requires var r := GenerateOne(stages, md5, p);
      && r.Success? && r.value.templates[0].MainTemplate?
      && b < |r.value.templates[0].groups| && c < |r.value.templates[0].groups[b]|
      && d < |r.value.templates[0].groups[b][c]|
    ensures var w := GenerateOne(stages, md5, p).value;
      Names(w.templates, w.entrypoint) && Names(w.templates, w.templates[0].groups[b][c][d].template)
  {
    GenerateOneSuccess(stages, md5, p);
    MainResolves(stages, md5, Occurrences(p), GenerateOne(stages, md5, p).value, b, c, d);
  }

  /** Without a hash shared across stages, an occurrence that opens no
      hash is of a stage that occurred before it. */
  lemma ReopenedStageSeen(md5: Digest, us: seq<Instance>, i: nat)
    requires i < |us| && NoCrossStageCollision(md5, us) && !Opens(md5, us, i)
    ensures us[i].stage in StageNames(us[..i])
  {
    var f := FirstWith(md5, us, Hash(md5, us[i]));
    assert f < i && us[f].stage == us[i].stage;
    assert StageNames(us[..i])[f] == us[i].stage;
  }

  /** Without a hash shared across stages, the first i occurrences open
      hashes for their stages in the order those stages first occur. */
  lemma {:induction false} OpenedStagesPrefix(md5: Digest, us: seq<Instance>, i: nat)
    requires i <= |us| && NoCrossStageCollision(md5, us)
    ensures Dedup(OpenedStages(md5, us, i)) == Dedup(StageNames(us[..i]))
    decreases i
  {
    if i > 0 {
      OpenedStagesPrefix(md5, us, i - 1);
      var o, n, s := OpenedStages(md5, us, i - 1), StageNames(us[..i - 1]), us[i - 1].stage;
      StageNamesPrefix(us, i);
      assert StageNames(us[..i]) == n + [s];
      if Opens(md5, us, i - 1) {
        assert OpenedStages(md5, us, i) == o + [s];
        DedupSnocBoth(o, n, s);
      } else {
        assert OpenedStages(md5, us, i) == o;
        ReopenedStageSeen(md5, us, i - 1);
        DedupSnoc(n, s);
      }
    }
  }

  /** Without a hash shared across stages, the first occurrence of every
      stage opens a hash: the opened stages, deduplicated, are the stage
      names in order of first use. */
  lemma StagesOpenInOrder(md5: Digest, us: seq<Instance>)
    requires NoCrossStageCollision(md5, us)
    ensures Dedup(OpenedStages(md5, us, |us|)) == Dedup(StageNames(us))
  {
    OpenedStagesPrefix(md5, us, |us|);
    assert us[..|us|] == us;
  }

  /** Without a hash shared across stages, a pipeline that compiles has
      after `main` one template per stage name, in order of first use, as
      the generator without reuse has. */
  lemma TemplatesPerStage(stages: seq<StageDef>, md5: Digest, p: Pipeline)
    requires NoCrossStageCollision(md5, Occurrences(p))
    requires GenerateOne(stages, md5, p).Success?
    ensures var w := GenerateOne(stages, md5, p).value;
      |w.templates| >= 1 && TemplateNames(w.templates[1..]) == Dedup(StageNames(Occurrences(p)))
  {
    GenerateOneSuccess(stages, md5, p);
    StagesOpenInOrder(md5, Occurrences(p));
  }

  /** A digest that gives every input the same value. */
  const Flat: HexDigest := "00000000000000000000000000000000"

  function FlatDigest(): Digest {
    (s: string, ps: Params) => Flat
  }

  /** Two stages, each defined with no parameters. */
  const TwoStages := [StageDef("a", None, None, None, Some([])), StageDef("b", None, None, None, Some([]))]

  /** The flow `[{stage: a, parameters: {}}, {stage: b, parameters: {}}]`. */
  const TwoBlocks := [Sequential(Instance("a", Some([]), None, 0), false),
                      Sequential(Instance("b", Some([]), None, 1), false)]

  /** The shared step name and the dicts after the first block. */
  function FlatName(): string {
    "a" + "-" + HashStage(FlatDigest(), "a", [])
  }

  function FlatMemo(): Memo {
    Memo(map[HashStage(FlatDigest(), "a", []) := FlatName()],
         [("a", AppTemplate("a", [], "a:latest", ["python", "app.py"], []))])
  }

  /** Under the flat digest, `b` finds the hash `a` opened and reuses its
      name, creating no template. */
  lemma CollisionSteps()
    ensures Visit(TwoStages, FlatDigest())(TwoBlocks[0].inst, NoMemo)
         == Success(([Step(FlatName(), "a", [])], FlatMemo()))
    ensures Visit(TwoStages, FlatDigest())(TwoBlocks[1].inst, FlatMemo())
         == Success(([Step(FlatName(), "b", [])], FlatMemo()))
  {
    var h := HashStage(FlatDigest(), "a", []);
    assert HashStage(FlatDigest(), "b", []) == h;
    assert GetStageParams(TwoStages, "a") == Success([]);
    var ta := CreateTemplate(TwoStages, "a").value;
    assert ta == AppTemplate("a", [], "a:latest", ["python", "app.py"], []);
    assert Put([], "a", ta) == [("a", ta)];
  }

  /** The flow runs to `main`'s two entries, ending with the dicts after
      the first block. */
  lemma CollisionRun()
    ensures var q := Blocks(GeneratorMembers, Visit(TwoStages, FlatDigest()), TwoBlocks, NoMemo);
      && q.Success? && q.value.1 == FlatMemo()
      && q.value.0 == [[[Step(FlatName(), "a", [])]], [[Step(FlatName(), "b", [])]]]
  {
    var step, m := Visit(TwoStages, FlatDigest()), FlatMemo();
    var u, v := TwoBlocks[0].inst, TwoBlocks[1].inst;
    var su, sv := Step(FlatName(), "a", []), Step(FlatName(), "b", []);
    CollisionSteps();
    var xu, xv := [u], [v];
    assert xu[0] == u && xu[1..] == [] && xv[0] == v && xv[1..] == [];
    assert Run(step, xu[1..], m) == Success(([], m));
    var qu := Run(step, xu, NoMemo);
    assert qu.Success? && qu.value.1 == m && qu.value.0 == [[su]];
    var qv := Run(step, xv, m);
    assert qv.Success? && qv.value.1 == m && qv.value.0 == [[sv]];
    var rest := TwoBlocks[1..];
    assert rest[0] == TwoBlocks[1] && rest[1..] == [];
    assert Blocks(GeneratorMembers, step, rest[1..], m) == Success(([], m));
    var q1 := Blocks(GeneratorMembers, step, rest, m);
    assert q1.Success? && q1.value.1 == m && q1.value.0 == [[[sv]]];
  }

  /** With a hash shared across stages the template of the second stage is
      never created: `main` calls a template the workflow lacks. */
  lemma CollisionDangles()
    ensures var r := GenerateOne(TwoStages, FlatDigest(), Pipeline("p", TwoBlocks));
      && r.Success? && r.value.templates[0].MainTemplate?
      && |r.value.templates[0].groups| == 2 && |r.value.templates[0].groups[1]| == 1
      && |r.value.templates[0].groups[1][0]| == 1
      && r.value.templates[0].groups[1][0][0].template == "b"
      && !Names(r.value.templates, "b")
  {
    CollisionRun();
    var w := GenerateOne(TwoStages, FlatDigest(), Pipeline("p", TwoBlocks)).value;
    assert |w.templates| == 2 && w.templates[1].name == "a";
  }

  // ---------------------------------------------------------------------
  // All pipelines
  // ---------------------------------------------------------------------

  /** `generate_all()` yields one workflow per pipeline, in order, each
      compiled from empty dicts so that nothing carries over from one
      pipeline to the next, exactly when every pipeline compiles; otherwise
      it fails with the first failing pipeline's error. */
  lemma GenerateAllSpec(c: Config, md5: Digest)
    ensures var ps, r := c.pipelines, GenerateAll(c, md5);
      var j := FirstRejected((p: Pipeline) => GenerateOne(c.stages, md5, p).Success?, ps);
      && (r.Success? <==> j == |ps|)
      && (r.Success? ==> |r.value| == |ps|)
      && (r.Success? ==> forall i :: 0 <= i < |ps| ==> r.value[i] == GenerateOne(c.stages, md5, ps[i]).value)
      && (j < |ps| ==> r == Failure(GenerateOne(c.stages, md5, ps[j]).error))
  {
    var ps, step := c.pipelines, PipelineStep(c.stages, md5);
    var j := FirstRejected((p: Pipeline) => GenerateOne(c.stages, md5, p).Success?, ps);
    var inv := (i: nat) => ();
    var out := (i: nat) => if i < |ps| && GenerateOne(c.stages, md5, ps[i]).Success?
                           then GenerateOne(c.stages, md5, ps[i]).value
                           else BaseWorkflow("");
    if j == |ps| {
      RunSuccess(step, ps, inv, out);
    } else {
      RunStops(step, ps, inv, out, j);
    }
  }
}
