/** A Python `dict[str, Any]`, kept as an association list so that insertion order is part of
    the value: `keys()` and `values()` iterate in that order. */
module Records {
  import opened Wrappers
  import opened Values

  type Record = seq<(string, Value)>

  /** Every key occurs at most once. A `Record` as such may repeat a key; a Python dict never
      does, so this is the dict invariant, required by the lemmas that need it and preserved
      by `Put` (`PutInPlace`). */
  predicate DistinctKeys(r: Record) {
    forall i, j :: 0 <= i < j < |r| ==> r[i].0 != r[j].0
  }

  /** `dict.keys()`, in insertion order. */
  function Keys(r: Record): (ks: seq<string>)
    ensures |ks| == |r|
    ensures forall i :: 0 <= i < |r| ==> ks[i] == r[i].0
  {
    seq(|r|, i requires 0 <= i < |r| => r[i].0)
  }

  /** `dict.values()`, in insertion order. */
  function Vals(r: Record): (vs: seq<Value>)
    ensures |vs| == |r|
    ensures forall i :: 0 <= i < |r| ==> vs[i] == r[i].1
  {
    seq(|r|, i requires 0 <= i < |r| => r[i].1)
  }

  /** The position of the entry for `k`, or `|r|` when there is none. */
  function Position(r: Record, k: string): (i: nat)
    ensures i <= |r|
    ensures i < |r| ==> r[i].0 == k
    ensures forall j :: 0 <= j < i ==> r[j].0 != k
    decreases |r|
  {
    if |r| == 0 then 0
    else if r[0].0 == k then 0
    else 1 + Position(r[1..], k)
  }

  /** The value stored under `k`, if any: `None` where `k not in d` holds, `Some(d[k])` otherwise. */
  function Lookup(r: Record, k: string): (v: Option<Value>)
    ensures v.Some? <==> k in Keys(r)
  {
    var i := Position(r, k);
    assert i < |r| ==> Keys(r)[i] == k;
    if i == |r| then None else Some(r[i].1)
  }

  /** `d[k] = v`: an existing key keeps its position and gets the new value; a new key is
      appended at the end. */
  function Put(r: Record, k: string, v: Value): (r': Record)
    ensures k in Keys(r) ==> Keys(r') == Keys(r)
    ensures k !in Keys(r) ==> r' == r + [(k, v)]
  {
    var i := Position(r, k);
    assert i < |r| ==> Keys(r)[i] == k;
    if i == |r| then r + [(k, v)] else r[i := (k, v)]
  }

  /** After `d[k] = v`, `d[k]` is `v` and every other key reads as before. */
  lemma PutLookup(r: Record, k: string, v: Value)
    ensures Lookup(Put(r, k, v), k) == Some(v)
    ensures forall k' :: k' != k ==> Lookup(Put(r, k, v), k') == Lookup(r, k')
  {
    var r' := Put(r, k, v);
    var p := Position(r, k);
    assert r'[p] == (k, v);
    assert forall j :: 0 <= j < |r| && j != p ==> r'[j] == r[j];
    PositionUnique(r', k, p);
    forall k' | k' != k
      ensures Lookup(r', k') == Lookup(r, k')
    {
      var q := Position(r, k');
      if q < |r| {
        assert r'[q] == r[q];
        PositionUnique(r', k', q);
      } else {
        PositionUnique(r', k', |r'|);
      }
    }
  }

  /** The position of a key is the first index holding it. */
  lemma PositionUnique(r: Record, k: string, i: nat)
    requires i <= |r|
    requires i < |r| ==> r[i].0 == k
    requires forall j :: 0 <= j < i ==> r[j].0 != k
    ensures Position(r, k) == i
  {
  }

  /** Assignment keeps the existing keys in front, in their order. */
  lemma PutExtendsKeys(r: Record, k: string, v: Value)
    ensures |r| <= |Put(r, k, v)|
    ensures Keys(Put(r, k, v))[..|r|] == Keys(r)
  {
    if k !in Keys(r) {
      assert (Keys(r) + [k])[..|r|] == Keys(r);
    }
  }

  /** In a dict with distinct keys, assignment rewrites the entry of `k` where it stands,
      leaves every other entry where it was, and introduces no second entry for a key. */
  lemma PutInPlace(r: Record, k: string, v: Value)
    requires DistinctKeys(r)
    ensures DistinctKeys(Put(r, k, v))
    ensures forall i :: 0 <= i < |r| ==> Put(r, k, v)[i] == (if r[i].0 == k then (k, v) else r[i])
  {
    var p := Position(r, k);
    if p < |r| {
      forall i | 0 <= i < |r| && r[i].0 == k
        ensures i == p
      {
      }
    }
  }

  /** With distinct keys, `Lookup` finds exactly the pairs the record holds. */
  lemma LookupFindsMember(r: Record, k: string, x: Value)
    requires DistinctKeys(r)
    ensures Lookup(r, k) == Some(x) <==> (k, x) in r
  {
    if (k, x) in r {
      var i :| 0 <= i < |r| && r[i] == (k, x);
      assert Position(r, k) == i;
    }
  }

  /** Two dicts holding the same pairs, in whatever insertion order, answer every lookup alike. */
  lemma LookupIgnoresOrder(a: Record, b: Record, k: string)
    requires DistinctKeys(a) && DistinctKeys(b)
    requires multiset(a) == multiset(b)
    ensures Lookup(a, k) == Lookup(b, k)
  {
    if Lookup(a, k).Some? {
      var x := Lookup(a, k).value;
      LookupFindsMember(a, k, x);
      assert (k, x) in multiset(b);
      LookupFindsMember(b, k, x);
    } else if Lookup(b, k).Some? {
      var x := Lookup(b, k).value;
      LookupFindsMember(b, k, x);
      assert (k, x) in multiset(a);
      LookupFindsMember(a, k, x);
    }
  }
}
