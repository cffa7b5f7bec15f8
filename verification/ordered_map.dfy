/** Python's insertion-ordered `dict`, as a list of key/value pairs with
    distinct keys: assigning to a present key replaces its value in place,
    assigning to a new key appends it. `list(d.values())` is then the values
    in first-insertion order of their keys. */
module OrderedMap {

  type Entries<K, V> = seq<(K, V)>

  function Keys<K, V>(m: Entries<K, V>): (ks: seq<K>)
    ensures |ks| == |m|
    ensures forall i :: 0 <= i < |m| ==> ks[i] == m[i].0
  {
    seq(|m|, i requires 0 <= i < |m| => m[i].0)
  }

  function Values<K, V>(m: Entries<K, V>): (vs: seq<V>)
    ensures |vs| == |m|
    ensures forall i :: 0 <= i < |m| ==> vs[i] == m[i].1
  {
    seq(|m|, i requires 0 <= i < |m| => m[i].1)
  }

  predicate Distinct<T(==)>(xs: seq<T>) {
    forall i, j :: 0 <= i < j < |xs| ==> xs[i] != xs[j]
  }

  /** `d[k] = v`: a present key keeps its position and takes the new
      value, a new key goes to the end. */
  function Put<K(==), V>(m: Entries<K, V>, k: K, v: V): (r: Entries<K, V>)
    ensures k in Keys(m) ==> Keys(r) == Keys(m)
    ensures k !in Keys(m) ==> Keys(r) == Keys(m) + [k]
    ensures forall i :: 0 <= i < |r| ==> r[i] == (if r[i].0 == k then (k, v) else m[i])
    ensures Distinct(Keys(m)) ==> Distinct(Keys(r))
  {
    if k in Keys(m) then seq(|m|, i requires 0 <= i < |m| => if m[i].0 == k then (k, v) else m[i])
    else m + [(k, v)]
  }

  /** The distinct elements of `xs` in order of first appearance (that
      none is lost is `DedupMembers`). */
  function Dedup<T(==)>(xs: seq<T>): (r: seq<T>)
    ensures forall i :: 0 <= i < |r| ==> r[i] in xs
    ensures Distinct(r)
    ensures |r| <= |xs|
    decreases |xs|
  {
    if |xs| == 0 then []
    else
      var d := Dedup(xs[..|xs| - 1]);
      assert xs == xs[..|xs| - 1] + [xs[|xs| - 1]];
      if xs[|xs| - 1] in xs[..|xs| - 1] then d else d + [xs[|xs| - 1]]
  }

  /** No element of the list is lost. */
  lemma {:induction false} DedupCovers<T>(xs: seq<T>, i: nat)
    requires i < |xs|
    ensures xs[i] in Dedup(xs)
    decreases |xs|
  {
    var p := xs[..|xs| - 1];
    if i < |xs| - 1 {
      DedupCovers(p, i);
      assert p[i] == xs[i];
    } else if xs[i] in p {
      var k :| 0 <= k < |p| && p[k] == xs[i];
      DedupCovers(p, k);
    }
  }

  /** Deduplication keeps exactly the elements of the list. */
  lemma DedupMembers<T>(xs: seq<T>, x: T)
    ensures x in Dedup(xs) <==> x in xs
  {
    if x in xs {
      var k :| 0 <= k < |xs| && xs[k] == x;
      DedupCovers(xs, k);
    }
  }

  /** Lists that deduplicate alike still do after the same element is
      appended to both. */
  lemma DedupSnocBoth<T>(a: seq<T>, b: seq<T>, x: T)
    requires Dedup(a) == Dedup(b)
    ensures Dedup(a + [x]) == Dedup(b + [x])
  {
    DedupSnoc(a, x);
    DedupSnoc(b, x);
    DedupMembers(a, x);
    DedupMembers(b, x);
  }

  /** Appending an element that already occurred leaves `Dedup` alone; a new one
      goes to the end. */
  lemma {:induction false} DedupSnoc<T>(xs: seq<T>, x: T)
    ensures x in xs ==> Dedup(xs + [x]) == Dedup(xs)
    ensures x !in xs ==> Dedup(xs + [x]) == Dedup(xs) + [x]
  {
    assert (xs + [x])[..|xs + [x]| - 1] == xs;
  }
}
