/** The helpers `BaseArgoGenerator` gives both generators
    (`pipeline/auto-argo-generator/base_generator.py`): the content hash of
    an occurrence, the stage-definition lookup, the workflow skeleton and
    the stage template. */
module BaseGenerator {
  import Text
  import opened Config
  import opened Argo
  import opened OrderedMap
  import opened Fold

  // ---------------------------------------------------------------------
  // `_hash_stage`
  // ---------------------------------------------------------------------

  predicate IsHexDigit(c: char) {
    '0' <= c <= '9' || 'a' <= c <= 'f'
  }

  /** What `hashlib.md5(...).hexdigest()` returns: 32 lower-case hex digits. */
  type HexDigest = s: string | |s| == 32 && forall i :: 0 <= i < |s| ==> IsHexDigit(s[i])
    witness "00000000000000000000000000000000"

  /** The digest of `f"{stage}:{items}"` for a stage name and its sorted
      item list; the MD5 function itself is a parameter of the model. */
  type Digest = (string, Params) -> HexDigest

  /** Python's `<=` on the keys of two items. */
  predicate KeyAtMost(a: Param, b: Param) {
    !Text.Below(b.key, a.key)
  }

  /** Ordered by key, as `sorted()` leaves the items of a dict. */
  predicate Sorted(ps: Params) {
    forall i, j :: 0 <= i < j < |ps| ==> KeyAtMost(ps[i], ps[j])
  }

  /** Strictly increasing keys. */
  predicate StrictlySorted(ps: Params) {
    forall i, j :: 0 <= i < j < |ps| ==> Text.Below(ps[i].key, ps[j].key)
  }

  lemma KeyAtMostTransitive(a: Param, b: Param, c: Param)
    requires KeyAtMost(a, b) && KeyAtMost(b, c)
    ensures KeyAtMost(a, c)
  {
    if Text.Below(c.key, a.key) {
      if a.key == b.key {
      } else {
        Text.BelowTotal(a.key, b.key);
        if Text.Below(b.key, a.key) {
        } else {
          Text.BelowTotal(b.key, c.key);
          if b.key == c.key {
            Text.BelowAsymmetric(a.key, c.key);
          } else {
            Text.BelowTransitive(a.key, b.key, c.key);
            Text.BelowAsymmetric(a.key, c.key);
          }
        }
      }
    }
  }

  /** One step of insertion sort: `p` goes before the first item whose key
      is not below its own. */
  function Insert(p: Param, ps: Params): (r: Params)
    ensures |r| == |ps| + 1
    ensures forall x :: x in r <==> x == p || x in ps
    decreases |ps|
  {
    if |ps| == 0 || KeyAtMost(p, ps[0]) then [p] + ps
    else
      assert ps == [ps[0]] + ps[1..];
      [ps[0]] + Insert(p, ps[1..])
  }

  lemma {:induction false} InsertSorted(p: Param, ps: Params)
    requires Sorted(ps)
    ensures Sorted(Insert(p, ps))
    decreases |ps|
  {
    var r := Insert(p, ps);
    if |ps| == 0 {
    } else if KeyAtMost(p, ps[0]) {
      forall j | 0 < j < |r| ensures KeyAtMost(p, r[j]) {
        if j > 1 {
          KeyAtMostTransitive(p, ps[0], ps[j - 1]);
        }
      }
    } else {
      InsertSorted(p, ps[1..]);
      Text.BelowAsymmetric(ps[0].key, p.key);
      var rest := Insert(p, ps[1..]);
      assert r == [ps[0]] + rest;
      forall j | 0 <= j < |rest| ensures KeyAtMost(ps[0], rest[j]) {
        if rest[j] != p {
          assert rest[j] in rest;
          var k :| 0 <= k < |ps[1..]| && ps[1..][k] == rest[j];
          assert ps[k + 1] == rest[j];
        }
      }
    }
  }

  lemma InsertDict(p: Param, ps: Params)
    requires IsDict(ps)
    requires forall i :: 0 <= i < |ps| ==> ps[i].key != p.key
    ensures IsDict(Insert(p, ps))
    decreases |ps|
  {
    if |ps| > 0 && !KeyAtMost(p, ps[0]) {
      InsertDict(p, ps[1..]);
      var rest := Insert(p, ps[1..]);
      forall j | 0 <= j < |rest| ensures rest[j].key != ps[0].key {
        if rest[j] != p {
          assert rest[j] in rest;
          var k :| 0 <= k < |ps[1..]| && ps[1..][k] == rest[j];
          assert ps[k + 1] == rest[j];
        }
      }
    }
  }

  /** `sorted(parameters.items())`: the keys of a dict are distinct, so
      the items are ordered by key alone. */
  function SortParams(ps: Params): (r: Params)
    ensures |r| == |ps|
    ensures forall x :: x in r <==> x in ps
    decreases |ps|
  {
    if |ps| == 0 then []
    else
      assert ps == [ps[0]] + ps[1..];
      Insert(ps[0], SortParams(ps[1..]))
  }

  /** The sort orders the items by key, and keeps the keys of a dict distinct. */
  lemma {:induction false} SortParamsSorted(ps: Params)
    ensures Sorted(SortParams(ps))
    ensures IsDict(ps) ==> IsDict(SortParams(ps))
    decreases |ps|
  {
    if |ps| > 0 {
      var rest := SortParams(ps[1..]);
      SortParamsSorted(ps[1..]);
      InsertSorted(ps[0], rest);
      if IsDict(ps) {
        assert IsDict(ps[1..]);
        forall i | 0 <= i < |rest| ensures rest[i].key != ps[0].key {
          assert rest[i] in rest;
          var k :| 0 <= k < |ps[1..]| && ps[1..][k] == rest[i];
          assert ps[k + 1] == rest[i];
        }
        InsertDict(ps[0], rest);
      }
    }
  }

  /** Sorted with distinct keys is strictly sorted. */
  lemma SortedDictStrictly(ps: Params)
    requires Sorted(ps) && IsDict(ps)
    ensures StrictlySorted(ps)
  {
    forall i, j | 0 <= i < j < |ps| ensures Text.Below(ps[i].key, ps[j].key) {
      Text.BelowTotal(ps[i].key, ps[j].key);
    }
  }

  lemma EmptyAlike(a: Params, b: Params)
    requires forall x :: x in a <==> x in b
    ensures |a| == 0 <==> |b| == 0
  {
    if |a| > 0 {
      assert a[0] in a;
    }
    if |b| > 0 {
      assert b[0] in b;
    }
  }

  /** Two strictly sorted lists holding the same items start alike. */
  lemma HeadsAlike(a: Params, b: Params)
    requires StrictlySorted(a) && StrictlySorted(b)
    requires forall x :: x in a <==> x in b
    requires |a| > 0 && |b| > 0
    ensures a[0] == b[0]
  {
    assert a[0] in a;
    var j :| 0 <= j < |b| && b[j] == a[0];
    assert b[0] in b;
    var i :| 0 <= i < |a| && a[i] == b[0];
    if j > 0 {
      if i > 0 {
        Text.BelowAsymmetric(a[0].key, a[i].key);
      } else {
        Text.BelowIrreflexive(b[0].key);
      }
    }
  }

  /** ... and then hold the same items after their common head. */
  lemma TailsAlike(a: Params, b: Params)
    requires StrictlySorted(a) && StrictlySorted(b)
    requires forall x :: x in a <==> x in b
    requires |a| > 0 && |b| > 0 && a[0] == b[0]
    ensures forall x :: x in a[1..] <==> x in b[1..]
  {
    forall x | x in a[1..] ensures x in b[1..] {
      var k :| 0 <= k < |a[1..]| && a[1..][k] == x;
      assert a[k + 1] == x;
      if x == b[0] {
        Text.BelowIrreflexive(a[0].key);
      }
      assert x in b;
      var m :| 0 <= m < |b| && b[m] == x;
      assert b[1..][m - 1] == x;
    }
    forall x | x in b[1..] ensures x in a[1..] {
      var k :| 0 <= k < |b[1..]| && b[1..][k] == x;
      assert b[k + 1] == x;
      if x == a[0] {
        Text.BelowIrreflexive(b[0].key);
      }
      assert x in a;
      var m :| 0 <= m < |a| && a[m] == x;
      assert a[1..][m - 1] == x;
    }
  }

  /** Two strictly sorted lists holding the same items are the same list. */
  lemma {:induction false} StrictlySortedUnique(a: Params, b: Params)
    requires StrictlySorted(a) && StrictlySorted(b)
    requires forall x :: x in a <==> x in b
    ensures a == b
    decreases |a|
  {
    EmptyAlike(a, b);
    if |a| > 0 {
      HeadsAlike(a, b);
      TailsAlike(a, b);
      StrictlySortedUnique(a[1..], b[1..]);
      assert a == [a[0]] + a[1..] && b == [b[0]] + b[1..];
    }
  }

  /** Two dicts holding the same items, inserted in any order, sort alike. */
  lemma SortIgnoresOrder(a: Params, b: Params)
    requires IsDict(a) && IsDict(b)
    requires forall x :: x in a <==> x in b
    ensures SortParams(a) == SortParams(b)
  {
    SortParamsSorted(a);
    SortParamsSorted(b);
    SortedDictStrictly(SortParams(a));
    SortedDictStrictly(SortParams(b));
    StrictlySortedUnique(SortParams(a), SortParams(b));
  }

  /** `_hash_stage(stage, parameters)`: the first 8 hex digits of the
      digest of the stage name with the sorted items. */
  function HashStage(md5: Digest, stage: string, ps: Params): (h: string)
    ensures |h| == 8
    ensures forall i :: 0 <= i < |h| ==> IsHexDigit(h[i])
  {
    md5(stage, SortParams(ps))[..8]
  }

  /** The hash sees the items of the parameter dict, not the order they
      were written in. */
  lemma HashIgnoresOrder(md5: Digest, stage: string, a: Params, b: Params)
    requires IsDict(a) && IsDict(b)
    requires forall x :: x in a <==> x in b
    ensures HashStage(md5, stage, a) == HashStage(md5, stage, b)
  {
    SortIgnoresOrder(a, b);
  }

  // ---------------------------------------------------------------------
  // `_get_stage_params`
  // ---------------------------------------------------------------------

  /** `_get_stage_params(name)`: the parameter keys of the FIRST definition
      named `name`; `ValueError` when there is none, `KeyError` when that
      definition has no `parameters`. */
  function GetStageParams(stages: seq<StageDef>, name: string): (r: Result<seq<string>>)
    ensures r == Failure(StageNotFound(name)) <==> !Declares(stages, name)
    ensures Declares(stages, name) ==>
      exists i :: 0 <= i < |stages| && stages[i].name == name
                  && (forall j :: 0 <= j < i ==> stages[j].name != name)
                  && r == (if stages[i].declared.Some? then Success(stages[i].declared.value)
                           else Failure(MissingKey("parameters")))
    decreases |stages|
  {
    if |stages| == 0 then Failure(StageNotFound(name))
    else if stages[0].name == name then
      match stages[0].declared
      case None => Failure(MissingKey("parameters"))
      case Some(keys) => Success(keys)
    else
      var r := GetStageParams(stages[1..], name);
      assert Declares(stages, name) ==> Declares(stages[1..], name) by {
        if Declares(stages, name) {
          var i :| 0 <= i < |stages| && stages[i].name == name;
          assert stages[1..][i - 1] == stages[i];
        }
      }
      assert Declares(stages[1..], name) ==> Declares(stages, name) by {
        if Declares(stages[1..], name) {
          var i :| 0 <= i < |stages[1..]| && stages[1..][i].name == name;
          assert stages[i + 1] == stages[1..][i];
        }
      }
      if Declares(stages[1..], name) then
        var i :| 0 <= i < |stages[1..]| && stages[1..][i].name == name
                 && (forall j :: 0 <= j < i ==> stages[1..][j].name != name)
                 && r == (if stages[1..][i].declared.Some? then Success(stages[1..][i].declared.value)
                          else Failure(MissingKey("parameters")));
        assert stages[i + 1] == stages[1..][i];
        assert forall j :: 1 <= j < i + 1 ==> stages[j] == stages[1..][j - 1];
        r
      else r
  }

  /** Where a stage is defined once, the generators' first-match lookup and
      the parsers' last-wins dict find the same definition. */
  lemma GetStageParamsAgrees(stages: seq<StageDef>, name: string)
    requires Declares(stages, name)
    requires forall i, j :: 0 <= i < j < |stages| && stages[i].name == name ==> stages[j].name != name
    ensures var d := StagesDict(stages, name).value;
      GetStageParams(stages, name)
        == if d.declared.Some? then Success(d.declared.value) else Failure(MissingKey("parameters"))
  {
  }

  // ---------------------------------------------------------------------
  // `_base_workflow` and `_create_template`
  // ---------------------------------------------------------------------

  /** `_base_workflow(name)`: no namespace, service account or volume, the
      entrypoint `main`, no templates yet. */
  function BaseWorkflow(name: string): (w: Workflow)
    ensures w.apiVersion == ApiVersion && w.kind == Kind
    ensures w.generateName == name + "-" && w.entrypoint == "main"
    ensures w.namespace.None? && w.serviceAccountName.None? && w.volume.None?
    ensures w.templates == []
  {
    Workflow(ApiVersion, Kind, name + "-", None, "main", None, None, [])
  }

  const InputsPrefix := "={inputs.parameters."

  /** The container argument for parameter `p`: `--p={inputs.parameters.p}`
      (the doubled braces of the f-string are literal braces). */
  function ArgFor(p: string): string {
    "--" + p + InputsPrefix + p + "}"
  }

  /** The flag an argument sets, read back by length. */
  function ArgName(a: string): string {
    if |a| < 23 then "" else a[2..2 + (|a| - 23) / 2]
  }

  /** The input parameter an argument refers to, between the prefix and
      the closing brace. */
  function ArgReference(a: string): string {
    if |a| < 23 then "" else a[22 + (|a| - 23) / 2..|a| - 1]
  }

  /** An argument sets the flag named after the parameter and refers to
      that same input parameter. */
  lemma ArgForParts(p: string)
    ensures var a := ArgFor(p);
      && "--" <= a && a[|a| - 1] == '}'
      && ArgName(a) == p && ArgReference(a) == p
  {
    var a := ArgFor(p);
    assert |a| == 2 * |p| + 23;
    assert a[2..2 + |p|] == p;
    assert a[22 + |p|..|a| - 1] == p;
  }

  /** `_create_template(stage)`: the stage's image tag `latest`, the command
      `python app.py`, one input parameter per declared key in order, and
      per key an argument passing that input on as a flag of the same name. */
  function CreateTemplate(stages: seq<StageDef>, stage: string): (r: Result<Template>)
    ensures r.Success? <==> GetStageParams(stages, stage).Success?
    ensures r.Failure? ==> r.error == GetStageParams(stages, stage).error
    ensures r.Success? ==>
      var t, keys := r.value, GetStageParams(stages, stage).value;
      && t.AppTemplate?
      && t.name == stage
      && t.image == stage + ":latest"
      && t.command == ["python", "app.py"]
      && t.inputs == keys
      && |t.args| == |keys|
      && forall i :: 0 <= i < |keys| ==>
           && t.args[i] == "--" + keys[i] + "={inputs.parameters." + keys[i] + "}"
           && ArgName(t.args[i]) == keys[i] && ArgReference(t.args[i]) == keys[i]
  {
    match GetStageParams(stages, stage)
    case Failure(e) => Failure(e)
    case Success(keys) =>
      var args := seq(|keys|, i requires 0 <= i < |keys| => ArgFor(keys[i]));
      assert forall i :: 0 <= i < |keys| ==>
        ArgName(args[i]) == keys[i] && ArgReference(args[i]) == keys[i] by {
        forall i | 0 <= i < |keys|
          ensures ArgName(args[i]) == keys[i] && ArgReference(args[i]) == keys[i]
        {
          ArgForParts(keys[i]);
        }
      }
      Success(AppTemplate(stage, keys, stage + ":latest", ["python", "app.py"], args))
  }

  // ---------------------------------------------------------------------
  // The flow loop both generators share
  // ---------------------------------------------------------------------

  /** How `_generate_one` reads one flow entry: `"parallel" in block` tests
      for the KEY, so a falsy `parallel` still sends it to `block["stages"]`,
      which it does not have; a bare string fails as soon as it is
      indexed by a key. Otherwise the entry is one stage occurrence, or the
      members of a parallel group. */
  function GeneratorMembers(b: Block): (r: Result<seq<Instance>>)
    ensures r.Success? <==> b.Parallel? || (b.Sequential? && !b.falsyParallel)
    ensures b.Parallel? ==> r == Success(b.members)
    ensures b.Sequential? && !b.falsyParallel ==> r == Success([b.inst])
    ensures b.Sequential? && b.falsyParallel ==> r == Failure(MissingKey("stages"))
    ensures b.Bare? ==> r == Failure(NotAMapping(b.name))
  {
    match b
    case Bare(name) => Failure(NotAMapping(name))
    case Sequential(inst, falsyParallel) =>
      if falsyParallel then Failure(MissingKey("stages")) else Success([inst])
    case Parallel(ms) => Success(ms)
  }

  /** Where a generator reads a block, it reads the same occurrences as the
      parsers; the blocks it refuses (bare strings, and mappings whose
      `parallel` is falsy) are ones the parsers read as a single occurrence. */
  lemma MembersAgree(b: Block)
    ensures GeneratorMembers(b).Success? ==> GeneratorMembers(b).value == ParserMembers(b)
    ensures GeneratorMembers(b).Failure? ==> !b.Parallel? && |ParserMembers(b)| == 1
  {
  }

  /** A flow whose every block the generators read holds the same
      occurrences, in the same order, for the generators as for the parsers. */
  lemma {:induction false} UsesAgree(flow: seq<Block>)
    requires Readable(GeneratorMembers, flow)
    ensures Uses(GeneratorMembers, flow) == Uses(ParserBlock, flow)
    decreases |flow|
  {
    if |flow| > 0 {
      MembersAgree(flow[0]);
      assert Readable(GeneratorMembers, flow[1..]) by {
        forall k | 0 <= k < |flow| - 1 ensures GeneratorMembers(flow[1..][k]).Success? {
          assert flow[1..][k] == flow[k + 1];
        }
      }
      UsesAgree(flow[1..]);
    }
  }

  /** The occurrences of a flow as the generators read it, in traversal
      order. */
  function Occurrences(p: Pipeline): seq<Instance> {
    Uses(GeneratorMembers, p.flow)
  }

  /** The first flow block the generator cannot read, or the flow's length. */
  function Unreadable(p: Pipeline): nat {
    FirstRejected(CanRead(GeneratorMembers), p.flow)
  }

  /** The occurrences before the first unreadable block. */
  function Reached(p: Pipeline): seq<Instance>
    requires Unreadable(p) <= |p.flow|
  {
    Uses(GeneratorMembers, p.flow[..Unreadable(p)])
  }

  /** The stage names of a list of occurrences. */
  function StageNames(us: seq<Instance>): (ns: seq<string>)
    ensures |ns| == |us|
    ensures forall i :: 0 <= i < |us| ==> ns[i] == us[i].stage
  {
    seq(|us|, i requires 0 <= i < |us| => us[i].stage)
  }

  /** Taking one more occurrence adds its stage name at the end. */
  lemma StageNamesPrefix(us: seq<Instance>, i: nat)
    requires 0 < i <= |us|
    ensures StageNames(us[..i]) == StageNames(us[..i - 1]) + [us[i - 1].stage]
  {
    var a, b := StageNames(us[..i]), StageNames(us[..i - 1]) + [us[i - 1].stage];
    assert |a| == |b|;
    forall k | 0 <= k < |a| ensures a[k] == b[k] {
      if k < i - 1 {
        assert b[k] == StageNames(us[..i - 1])[k];
      }
    }
  }

  /** A stage-template map as both generators build it: assigning
      `templates[stage] = _create_template(stage)` keeps each stage's
      position from its first assignment. */
  type Templates = Entries<string, Template>

  /** Every entry holds the template of its own stage. */
  ghost predicate Faithful(stages: seq<StageDef>, ts: Templates) {
    forall e :: e in ts ==> CreateTemplate(stages, e.0) == Success(e.1)
  }

  /** In a faithful map every template is named after its key. */
  lemma FaithfulNames(stages: seq<StageDef>, ts: Templates)
    requires Faithful(stages, ts)
    ensures TemplateNames(Values(ts)) == Keys(ts)
  {
    forall j | 0 <= j < |ts| ensures Values(ts)[j].name == Keys(ts)[j] {
      assert ts[j] in ts;
    }
  }

  /** Assigning a stage its template keeps every entry faithful. */
  lemma PutFaithful(stages: seq<StageDef>, ts: Templates, stage: string, t: Template)
    requires Faithful(stages, ts)
    requires CreateTemplate(stages, stage) == Success(t)
    ensures Faithful(stages, Put(ts, stage, t))
  {
    var r := Put(ts, stage, t);
    forall e | e in r ensures CreateTemplate(stages, e.0) == Success(e.1) {
      var i :| 0 <= i < |r| && r[i] == e;
      if e.0 != stage {
        assert ts[i] in ts;
      }
    }
  }

  /** Assigning the template of the next stage used keeps the map one
      faithful entry per stage name in order of first use. */
  lemma PutFirstUse(stages: seq<StageDef>, ts: Templates, names: seq<string>, stage: string, t: Template)
    requires Keys(ts) == Dedup(names) && Faithful(stages, ts)
    requires CreateTemplate(stages, stage) == Success(t)
    ensures Keys(Put(ts, stage, t)) == Dedup(names + [stage])
    ensures Faithful(stages, Put(ts, stage, t))
  {
    PutFaithful(stages, ts, stage, t);
    DedupSnoc(names, stage);
    DedupMembers(names, stage);
  }
}
