/** The loop every compiler is made of: a left fold over a sequence that
    threads a state, collects one output per item and stops at the first
    exception; and its two-level form over a flow of blocks, each block
    standing for a list of items. */
module Fold {
  import opened Config

  /** Concatenation of a list of lists. */
  function Flatten<T>(xss: seq<seq<T>>): (r: seq<T>)
    ensures |xss| == 0 ==> r == []
    decreases |xss|
  {
    if |xss| == 0 then [] else xss[0] + Flatten(xss[1..])
  }

  lemma {:induction false} FlattenAppend<T>(a: seq<seq<T>>, b: seq<seq<T>>)
    ensures Flatten(a + b) == Flatten(a) + Flatten(b)
    decreases |a|
  {
    if |a| > 0 {
      assert (a + b)[1..] == a[1..] + b;
      FlattenAppend(a[1..], b);
    } else {
      assert a + b == b;
    }
  }

  /** Every element of a member list lies in the flattening. */
  lemma {:induction false} FlattenMember<T>(xss: seq<seq<T>>, b: nat, j: nat)
    requires b < |xss| && j < |xss[b]|
    ensures xss[b][j] in Flatten(xss)
    decreases b
  {
    if b > 0 {
      FlattenMember(xss[1..], b - 1, j);
    }
  }

  // ---------------------------------------------------------------------
  // One level
  // ---------------------------------------------------------------------

  /** `for x in xs: y, s = step(x, s)`, collecting the `y`s; an exception
      ends the loop. */
  function Run<X, Y, S>(step: (X, S) -> Result<(Y, S)>, xs: seq<X>, s: S): Result<(seq<Y>, S)>
    decreases |xs|
  {
    if |xs| == 0 then Success(([], s))
    else
      match step(xs[0], s)
      case Failure(e) => Failure(e)
      case Success((y, s1)) =>
        match Run(step, xs[1..], s1)
        case Failure(e) => Failure(e)
        case Success((ys, s2)) => Success(([y] + ys, s2))
  }

  /** A run from item i whose first step succeeds: that step's output,
      then the run over the items after it from the state it leaves. */
  lemma RunCons<X, Y, S>(step: (X, S) -> Result<(Y, S)>, xs: seq<X>, i: nat, s: S)
    requires i < |xs| && step(xs[i], s).Success?
    ensures var r := Run(step, xs[i + 1..], step(xs[i], s).value.1);
      Run(step, xs[i..], s)
        == if r.Failure? then Failure(r.error) else Success(([step(xs[i], s).value.0] + r.value.0, r.value.1))
  {
    assert xs[i..][0] == xs[i] && xs[i..][1..] == xs[i + 1..];
  }

  /** The first `n` values of `out`, as a list. */
  function Outputs<Y>(out: nat -> Y, n: nat): (ys: seq<Y>)
    ensures |ys| == n
    ensures forall i :: 0 <= i < n ==> ys[i] == out(i)
  {
    seq(n, i requires 0 <= i < n => out(i))
  }

  /** A run yields one output per item. */
  lemma {:induction false} RunShape<X, Y, S>(step: (X, S) -> Result<(Y, S)>, xs: seq<X>, s: S)
    requires Run(step, xs, s).Success?
    ensures |Run(step, xs, s).value.0| == |xs|
    decreases |xs|
  {
    if |xs| > 0 {
      RunShape(step, xs[1..], step(xs[0], s).value.1);
    }
  }

  /** The loop invariant: when the state after i items is `inv(i)` and item
      i turns `inv(i)` into output `out(i)` and state `inv(i + 1)`, the run
      yields the outputs in order and ends in `inv(|xs|)`. */
  lemma {:induction false} RunSuccess<X, Y, S>(step: (X, S) -> Result<(Y, S)>, xs: seq<X>,
                                               inv: nat -> S, out: nat -> Y)
    requires forall i :: 0 <= i < |xs| ==> step(xs[i], inv(i)) == Success((out(i), inv(i + 1)))
    ensures Run(step, xs, inv(0)) == Success((Outputs(out, |xs|), inv(|xs|)))
    decreases |xs|
  {
    if |xs| > 0 {
      var inv' := (i: nat) => inv(i + 1);
      var out' := (i: nat) => out(i + 1);
      forall i | 0 <= i < |xs| - 1
        ensures step(xs[1..][i], inv'(i)) == Success((out'(i), inv'(i + 1)))
      {
        assert xs[1..][i] == xs[i + 1];
      }
      RunSuccess(step, xs[1..], inv', out');
      assert Outputs(out, |xs|) == [out(0)] + Outputs(out', |xs| - 1);
    }
  }

  /** A run whose state is built from a count of items done and a list
      that grows by one element per item: when item i turns `st(i, Q)` into
      output `out(i)` and `st(i + 1, Q + [zs[i]])`, whatever `Q` is, the
      run appends `zs` as a whole. */
  lemma {:induction false} RunCollects<X, Y, Z, S>(step: (X, S) -> Result<(Y, S)>, xs: seq<X>,
                                                   st: (nat, seq<Z>) -> S, out: nat -> Y,
                                                   zs: seq<Z>, P: seq<Z>)
    requires |zs| == |xs|
    requires forall i: nat, Q {:trigger step(xs[i], st(i, Q))} :: i < |xs| ==> step(xs[i], st(i, Q)) == Success((out(i), st(i + 1, Q + [zs[i]])))
    ensures Run(step, xs, st(0, P)) == Success((Outputs(out, |xs|), st(|xs|, P + zs)))
    decreases |xs|
  {
    if |xs| == 0 {
      assert P + zs == P;
    } else {
      var st' := (i: nat, Q: seq<Z>) => st(i + 1, Q);
      var out' := (i: nat) => out(i + 1);
      forall i: nat, Q | i < |xs| - 1
        ensures step(xs[1..][i], st'(i, Q)) == Success((out'(i), st'(i + 1, Q + [zs[1..][i]])))
      {
        assert xs[1..][i] == xs[i + 1] && zs[1..][i] == zs[i + 1];
      }
      RunCollects(step, xs[1..], st', out', zs[1..], P + [zs[0]]);
      assert P + [zs[0]] + zs[1..] == P + zs;
      assert Outputs(out, |xs|) == [out(0)] + Outputs(out', |xs| - 1);
    }
  }

  /** With the invariant holding for the first k items, a failure at item k
      is the failure of the whole run. */
  lemma {:induction false} RunStops<X, Y, S>(step: (X, S) -> Result<(Y, S)>, xs: seq<X>,
                                             inv: nat -> S, out: nat -> Y, k: nat)
    requires k < |xs|
    requires forall i :: 0 <= i < k ==> step(xs[i], inv(i)) == Success((out(i), inv(i + 1)))
    requires step(xs[k], inv(k)).Failure?
    ensures Run(step, xs, inv(0)) == Failure(step(xs[k], inv(k)).error)
    decreases k
  {
    if k > 0 {
      var inv' := (i: nat) => inv(i + 1);
      var out' := (i: nat) => out(i + 1);
      forall i | 0 <= i < k - 1
        ensures step(xs[1..][i], inv'(i)) == Success((out'(i), inv'(i + 1)))
      {
        assert xs[1..][i] == xs[i + 1];
      }
      assert xs[1..][k - 1] == xs[k];
      RunStops(step, xs[1..], inv', out', k - 1);
    }
  }

  /** The position of the first item `ok` rejects, or `|xs|`. */
  function FirstRejected<X>(ok: X -> bool, xs: seq<X>): (j: nat)
    ensures j <= |xs|
    ensures forall i :: 0 <= i < j ==> ok(xs[i])
    ensures j < |xs| ==> !ok(xs[j])
    decreases |xs|
  {
    if |xs| == 0 then 0
    else if !ok(xs[0]) then 0
    else
      var j := FirstRejected(ok, xs[1..]);
      assert forall i :: 1 <= i < j + 1 ==> xs[i] == xs[1..][i - 1];
      1 + j
  }

  /** For a step whose success depends on the item alone, the run fails
      exactly when some item is rejected, and then with the error of the
      first rejected item. */
  lemma {:induction false} RunFailure<X, Y, S>(step: (X, S) -> Result<(Y, S)>, ok: X -> bool,
                                               err: X -> Error, xs: seq<X>, s: S)
    requires forall x, t :: ok(x) ==> step(x, t).Success?
    requires forall x, t :: !ok(x) ==> step(x, t) == Failure(err(x))
    ensures Run(step, xs, s).Success? <==> FirstRejected(ok, xs) == |xs|
    ensures FirstRejected(ok, xs) < |xs| ==> Run(step, xs, s) == Failure(err(xs[FirstRejected(ok, xs)]))
    decreases |xs|
  {
    if |xs| > 0 && ok(xs[0]) {
      RunFailure(step, ok, err, xs[1..], step(xs[0], s).value.1);
    }
  }

  /** The state after the first i items when each item moves it by `next`. */
  function After<X, S>(next: (X, S) -> S, xs: seq<X>, s: S, i: nat): S
    requires i <= |xs|
  {
    if i == 0 then s else next(xs[i - 1], After(next, xs, s, i - 1))
  }

  /** Item i, processed from the state the items before it lead to,
      succeeds and moves that state by `next`. */
  ghost predicate Along<X, Y, S>(step: (X, S) -> Result<(Y, S)>, next: (X, S) -> S,
                                 xs: seq<X>, s: S, i: nat)
    requires i < |xs|
  {
    var t := After(next, xs, s, i);
    step(xs[i], t).Success? && step(xs[i], t).value.1 == next(xs[i], t)
  }

  /** A run whose every item goes along: it succeeds, item i yields what it
      yields from the state the items before it lead to, and the run ends
      in the state all items lead to. */
  lemma {:induction false} RunAlong<X, Y, S>(step: (X, S) -> Result<(Y, S)>, next: (X, S) -> S,
                                             xs: seq<X>, s: S)
    requires forall i :: 0 <= i < |xs| ==> Along(step, next, xs, s, i)
    ensures var q := Run(step, xs, s);
      && q.Success? && |q.value.0| == |xs|
      && q.value.1 == After(next, xs, s, |xs|)
      && forall i :: 0 <= i < |xs| ==>
           step(xs[i], After(next, xs, s, i)).Success?
           && q.value.0[i] == step(xs[i], After(next, xs, s, i)).value.0
  {
    if |xs| > 0 {
      var inv := (i: nat) => After(next, xs, s, if i <= |xs| then i else |xs|);
      forall i | 0 <= i < |xs| ensures step(xs[i], inv(i)).Success? {
        assert Along(step, next, xs, s, i);
        assert inv(i) == After(next, xs, s, i);
      }
      var out := (i: nat) => if i < |xs| then step(xs[i], inv(i)).value.0 else step(xs[0], inv(0)).value.0;
      forall i | 0 <= i < |xs| ensures step(xs[i], inv(i)) == Success((out(i), inv(i + 1))) {
        var x, t := xs[i], After(next, xs, s, i);
        assert Along(step, next, xs, s, i);
        assert step(x, t).value.1 == next(x, t) == After(next, xs, s, i + 1);
      }
      RunSuccess(step, xs, inv, out);
      forall i | 0 <= i < |xs|
        ensures step(xs[i], After(next, xs, s, i)).Success?
        ensures Outputs(out, |xs|)[i] == step(xs[i], After(next, xs, s, i)).value.0
      {
        assert inv(i) == After(next, xs, s, i);
      }
    }
  }

  /** A run whose first k items go along and whose item k fails from the
      state they lead to fails with that error. */
  lemma {:induction false} RunAlongStops<X, Y, S>(step: (X, S) -> Result<(Y, S)>, next: (X, S) -> S,
                                                  xs: seq<X>, s: S, k: nat)
    requires k < |xs|
    requires forall i :: 0 <= i < k ==> Along(step, next, xs, s, i)
    requires step(xs[k], After(next, xs, s, k)).Failure?
    ensures Run(step, xs, s) == Failure(step(xs[k], After(next, xs, s, k)).error)
  {
    var inv := (i: nat) => After(next, xs, s, if i <= |xs| then i else |xs|);
    assert inv(k) == After(next, xs, s, k);
    if k > 0 {
      forall i | 0 <= i < k ensures step(xs[i], inv(i)).Success? {
        assert Along(step, next, xs, s, i);
        assert inv(i) == After(next, xs, s, i);
      }
      var out := (i: nat) => if i < k then step(xs[i], inv(i)).value.0 else step(xs[0], inv(0)).value.0;
      forall i | 0 <= i < k ensures step(xs[i], inv(i)) == Success((out(i), inv(i + 1))) {
        var x, t := xs[i], After(next, xs, s, i);
        assert Along(step, next, xs, s, i);
        assert step(x, t).value.1 == next(x, t) == After(next, xs, s, i + 1);
      }
      RunStops(step, xs, inv, out, k);
      assert After(next, xs, s, 0) == s;
      assert inv(0) == After(next, xs, s, 0);
    }
  }

  /** A run in which every item is accepted, and an accepted item succeeds
      from any state and moves it by `next`: item i is processed from the
      state the items before it lead to. */
  lemma {:induction false} RunThreaded<X, Y, S>(step: (X, S) -> Result<(Y, S)>, ok: X -> bool,
                             next: (X, S) -> S, xs: seq<X>, s: S)
    requires forall x, t :: ok(x) ==> step(x, t).Success? && step(x, t).value.1 == next(x, t)
    requires forall i :: 0 <= i < |xs| ==> ok(xs[i])
    ensures var q := Run(step, xs, s);
      && q.Success? && |q.value.0| == |xs|
      && q.value.1 == After(next, xs, s, |xs|)
      && forall i :: 0 <= i < |xs| ==>
           step(xs[i], After(next, xs, s, i)).Success?
           && q.value.0[i] == step(xs[i], After(next, xs, s, i)).value.0
  {
    forall i | 0 <= i < |xs| ensures Along(step, next, xs, s, i) {
      assert ok(xs[i]);
    }
    RunAlong(step, next, xs, s);
  }

  /** Running over a concatenation runs over both parts in turn. */
  lemma {:induction false} RunAppend<X, Y, S>(step: (X, S) -> Result<(Y, S)>, a: seq<X>, b: seq<X>, s: S)
    ensures var ra := Run(step, a, s);
      Run(step, a + b, s)
        == if ra.Failure? then Failure(ra.error)
           else var rb := Run(step, b, ra.value.1);
                if rb.Failure? then Failure(rb.error) else Success((ra.value.0 + rb.value.0, rb.value.1))
    decreases |a|
  {
    if |a| == 0 {
      assert a + b == b;
      var rb := Run(step, b, s);
      if rb.Success? {
        assert [] + rb.value.0 == rb.value.0;
      }
    } else {
      assert (a + b)[0] == a[0];
      assert (a + b)[1..] == a[1..] + b;
      match step(a[0], s)
      case Failure(_) =>
      case Success((y, s1)) =>
        RunAppend(step, a[1..], b, s1);
        var r1 := Run(step, a[1..], s1);
        if r1.Success? {
          var rb := Run(step, b, r1.value.1);
          if rb.Success? {
            assert [y] + (r1.value.0 + rb.value.0) == ([y] + r1.value.0) + rb.value.0;
          }
        }
    }
  }

  // ---------------------------------------------------------------------
  // Two levels: a flow of blocks
  // ---------------------------------------------------------------------

  /** `for block in flow:` read the block's items (which may raise), run the
      step over them, and record their outputs as one entry. */
  function Blocks<B, X, Y, S>(members: B -> Result<seq<X>>, step: (X, S) -> Result<(Y, S)>,
                              flow: seq<B>, s: S): Result<(seq<seq<Y>>, S)>
    decreases |flow|
  {
    if |flow| == 0 then Success(([], s))
    else
      match members(flow[0])
      case Failure(e) => Failure(e)
      case Success(ms) =>
        match Run(step, ms, s)
        case Failure(e) => Failure(e)
        case Success((ys, s1)) =>
          match Blocks(members, step, flow[1..], s1)
          case Failure(e) => Failure(e)
          case Success((yss, s2)) => Success(([ys] + yss, s2))
  }

  /** Every block of the flow can be read. */
  ghost predicate Readable<B, X>(members: B -> Result<seq<X>>, flow: seq<B>) {
    forall k :: 0 <= k < |flow| ==> members(flow[k]).Success?
  }

  /** The items of a flow in traversal order (blocks that cannot be read
      contribute nothing). */
  function Uses<B, X>(members: B -> Result<seq<X>>, flow: seq<B>): (us: seq<X>)
    ensures |flow| == 0 ==> us == []
    decreases |flow|
  {
    if |flow| == 0 then []
    else
      (if members(flow[0]).Success? then members(flow[0]).value else []) + Uses(members, flow[1..])
  }

  lemma {:induction false} UsesAppend<B, X>(members: B -> Result<seq<X>>, a: seq<B>, b: seq<B>)
    ensures Uses(members, a + b) == Uses(members, a) + Uses(members, b)
    decreases |a|
  {
    if |a| == 0 {
      assert a + b == b;
    } else {
      assert (a + b)[0] == a[0];
      assert (a + b)[1..] == a[1..] + b;
      UsesAppend(members, a[1..], b);
    }
  }

  /** A flow of readable blocks behaves as one run over its items: the same
      outcome, the same error, the same final state, and entries that
      flatten to the run's outputs. */
  lemma {:induction false} BlocksRun<B, X, Y, S>(members: B -> Result<seq<X>>,
                                                 step: (X, S) -> Result<(Y, S)>, flow: seq<B>, s: S)
    requires Readable(members, flow)
    ensures var r, q := Blocks(members, step, flow, s), Run(step, Uses(members, flow), s);
      && (r.Success? <==> q.Success?)
      && (r.Failure? ==> r.error == q.error)
      && (r.Success? ==> Flatten(r.value.0) == q.value.0 && r.value.1 == q.value.1)
    decreases |flow|
  {
    if |flow| > 0 {
      var ms := members(flow[0]).value;
      assert Readable(members, flow[1..]) by {
        forall k | 0 <= k < |flow| - 1 ensures members(flow[1..][k]).Success? {
          assert flow[1..][k] == flow[k + 1];
        }
      }
      RunAppend(step, ms, Uses(members, flow[1..]), s);
      var rm := Run(step, ms, s);
      if rm.Success? {
        BlocksRun(members, step, flow[1..], rm.value.1);
        var rest := Blocks(members, step, flow[1..], rm.value.1);
        if rest.Success? {
          assert ([rm.value.0] + rest.value.0)[1..] == rest.value.0;
        }
      }
    }
  }

  /** A flow that compiles has one entry per block, as long as the block. */
  lemma {:induction false} BlocksShape<B, X, Y, S>(members: B -> Result<seq<X>>,
                                                   step: (X, S) -> Result<(Y, S)>, flow: seq<B>, s: S)
    requires Blocks(members, step, flow, s).Success?
    ensures Readable(members, flow)
    ensures var yss := Blocks(members, step, flow, s).value.0;
      && |yss| == |flow|
      && forall k :: 0 <= k < |flow| ==> |yss[k]| == |members(flow[k]).value|
    decreases |flow|
  {
    if |flow| > 0 {
      var ms := members(flow[0]).value;
      RunShape(step, ms, s);
      var s1 := Run(step, ms, s).value.1;
      BlocksShape(members, step, flow[1..], s1);
      var yss := Blocks(members, step, flow, s).value.0;
      assert yss == [Run(step, ms, s).value.0] + Blocks(members, step, flow[1..], s1).value.0;
      forall k | 0 < k < |flow|
        ensures members(flow[k]).Success? && |yss[k]| == |members(flow[k]).value|
      {
        assert flow[1..][k - 1] == flow[k];
      }
    }
  }

  /** A block that cannot be read, reached with every item before it run
      successfully, is the failure of the whole flow. */
  lemma {:induction false} BlocksUnreadable<B, X, Y, S>(members: B -> Result<seq<X>>,
                                                        step: (X, S) -> Result<(Y, S)>,
                                                        flow: seq<B>, s: S, k: nat)
    requires k < |flow| && Readable(members, flow[..k]) && members(flow[k]).Failure?
    requires Run(step, Uses(members, flow[..k]), s).Success?
    ensures Blocks(members, step, flow, s) == Failure(members(flow[k]).error)
    decreases k
  {
    if k > 0 {
      var ms := members(flow[0]).value;
      assert flow[..k][0] == flow[0];
      assert flow[..k][1..] == flow[1..][..k - 1];
      RunAppend(step, ms, Uses(members, flow[1..][..k - 1]), s);
      var f := flow[1..][..k - 1];
      assert Readable(members, f) by {
        forall j | 0 <= j < |f| ensures members(f[j]).Success? {
          assert f[j] == flow[..k][j + 1];
        }
      }
      BlocksUnreadable(members, step, flow[1..], Run(step, ms, s).value.1, k - 1);
    }
  }

  /** Whether a block can be read. */
  function CanRead<B, X>(members: B -> Result<seq<X>>): B -> bool {
    (b: B) => members(b).Success?
  }

  /** An item failing before the first unreadable block is the failure of
      the whole flow. */
  lemma {:induction false} BlocksFirstError<B, X, Y, S>(members: B -> Result<seq<X>>,
                                                        step: (X, S) -> Result<(Y, S)>,
                                                        flow: seq<B>, s: S, m: nat)
    requires m <= |flow| && Readable(members, flow[..m])
    requires Run(step, Uses(members, flow[..m]), s).Failure?
    ensures Blocks(members, step, flow, s) == Failure(Run(step, Uses(members, flow[..m]), s).error)
    decreases m
  {
    if m > 0 {
      var ms := members(flow[0]).value;
      var f := flow[1..][..m - 1];
      assert flow[..m][0] == flow[0];
      assert flow[..m][1..] == f;
      assert Uses(members, flow[..m]) == ms + Uses(members, f);
      RunAppend(step, ms, Uses(members, f), s);
      if Run(step, ms, s).Success? {
        assert Readable(members, f) by {
          forall j | 0 <= j < |f| ensures members(f[j]).Success? {
            assert f[j] == flow[..m][j + 1];
          }
        }
        BlocksFirstError(members, step, flow[1..], Run(step, ms, s).value.1, m - 1);
      }
    }
  }

  /** How a flow ends, read up to its first unreadable block `k`: with the
      first failing item before `k`, else with the error reading `k`; when
      every block is readable the flow runs as its items do (`BlocksRun`). */
  lemma BlocksOutcome<B, X, Y, S>(members: B -> Result<seq<X>>, step: (X, S) -> Result<(Y, S)>,
                                  flow: seq<B>, s: S)
    ensures var k := FirstRejected(CanRead(members), flow);
      var q := Run(step, Uses(members, flow[..k]), s);
      && (q.Failure? ==> Blocks(members, step, flow, s) == Failure(q.error))
      && (q.Success? && k < |flow| ==>
            Blocks(members, step, flow, s) == Failure(members(flow[k]).error))
      && (k == |flow| ==> Readable(members, flow) && flow[..k] == flow)
  {
    var k := FirstRejected(CanRead(members), flow);
    assert Readable(members, flow[..k]) by {
      forall j | 0 <= j < k ensures members(flow[..k][j]).Success? {
        assert CanRead(members)(flow[j]);
      }
    }
    if Run(step, Uses(members, flow[..k]), s).Failure? {
      BlocksFirstError(members, step, flow, s, k);
    } else if k < |flow| {
      assert !CanRead(members)(flow[k]);
      BlocksUnreadable(members, step, flow, s, k);
    } else {
      assert flow[..k] == flow;
    }
  }
}
