/** Python's insertion-ordered `dict` with string keys, as a sequence of
    key/value pairs without repeated keys. Assigning to a present key keeps
    its position and replaces its value; assigning to a new key appends it. */
module Dicts {

  type Dict<V> = seq<(string, V)>

  function Keys<V>(d: Dict<V>): (ks: seq<string>)
    ensures |ks| == |d|
    ensures forall i :: 0 <= i < |d| ==> ks[i] == d[i].0
  {
    seq(|d|, i requires 0 <= i < |d| => d[i].0)
  }

  predicate DistinctKeys<V>(d: Dict<V>)
  {
    forall i, j :: 0 <= i < j < |d| ==> d[i].0 != d[j].0
  }

  predicate HasKey<V>(d: Dict<V>, k: string)
  {
    k in Keys(d)
  }

  /** `d[k] = v` */
  function Put<V>(d: Dict<V>, k: string, v: V): (r: Dict<V>)
    requires DistinctKeys(d)
    ensures DistinctKeys(r)
    ensures forall k' :: HasKey(r, k') <==> k' == k || HasKey(d, k')
    ensures HasKey(d, k) ==> |r| == |d| && forall i :: 0 <= i < |d| ==> r[i] == (if d[i].0 == k then (k, v) else d[i])
    ensures !HasKey(d, k) ==> r == d + [(k, v)]
  {
    if HasKey(d, k) then
      var r := seq(|d|, i requires 0 <= i < |d| => if d[i].0 == k then (k, v) else d[i]);
      assert forall i :: 0 <= i < |d| ==> Keys(r)[i] == Keys(d)[i];
      assert Keys(r) == Keys(d);
      r
    else
      var r := d + [(k, v)];
      forall i, j | 0 <= i < j < |r| ensures r[i].0 != r[j].0 {
        if j == |d| { assert Keys(d)[i] == r[i].0; }
      }
      assert Keys(r) == Keys(d) + [k];
      r
  }

  /** The value a present key is bound to: that of its first entry. */
  function Get<V>(d: Dict<V>, k: string): (v: V)
    requires HasKey(d, k)
  {
    if d[0].0 == k then d[0].1
    else
      assert Keys(d) == [d[0].0] + Keys(d[1..]);
      Get(d[1..], k)
  }

  /** Without repeated keys, a key's value is the one stored beside it. */
  lemma {:induction false} GetAt<V>(d: Dict<V>, i: nat)
    requires DistinctKeys(d) && i < |d|
    ensures HasKey(d, d[i].0) && Get(d, d[i].0) == d[i].1
  {
    assert Keys(d)[i] == d[i].0;
    if i > 0 {
      assert Keys(d) == [d[0].0] + Keys(d[1..]);
      GetAt(d[1..], i - 1);
    }
  }

  /** A read after a write sees the value written; other keys are untouched. */
  lemma GetPut<V>(d: Dict<V>, k: string, v: V, k': string)
    requires DistinctKeys(d)
    requires k' == k || HasKey(d, k')
    ensures HasKey(Put(d, k, v), k')
    ensures Get(Put(d, k, v), k') == if k' == k then v else Get(d, k')
  {
    var r := Put(d, k, v);
    var j :| 0 <= j < |r| && Keys(r)[j] == k';
    GetAt(r, j);
    if k' != k {
      var m :| 0 <= m < |d| && Keys(d)[m] == k';
      GetAt(d, m);
      if HasKey(d, k) { assert j == m; } else { assert r[m] == d[m]; assert j == m; }
    } else if !HasKey(d, k) {
      assert j == |d|;
    }
  }

  /** The position of a key's first occurrence. */
  function FirstIndex(ks: seq<string>, k: string): (i: nat)
    requires k in ks
    ensures i < |ks| && ks[i] == k
    ensures forall j :: 0 <= j < i ==> ks[j] != k
  {
    if ks[0] == k then 0
    else
      assert ks == [ks[0]] + ks[1..];
      1 + FirstIndex(ks[1..], k)
  }

  /** The entries of `d` follow the order in which their keys first occur in `ks`. */
  predicate FirstAppearanceOrder<V>(d: Dict<V>, ks: seq<string>)
  {
    && (forall i :: 0 <= i < |d| ==> d[i].0 in ks)
    && (forall i, j :: 0 <= i < j < |d| ==> FirstIndex(ks, d[i].0) < FirstIndex(ks, d[j].0))
  }

  /** Appending a key leaves the first occurrence of every earlier key in place. */
  lemma FirstIndexAppend(ks: seq<string>, x: string, k: string)
    requires k in ks
    ensures FirstIndex(ks + [x], k) == FirstIndex(ks, k)
  {
    var j := FirstIndex(ks, k);
    assert (ks + [x])[j] == k;
  }

  /** A new key's first occurrence is where it is appended. */
  lemma FirstIndexNew(ks: seq<string>, k: string)
    requires k !in ks
    ensures FirstIndex(ks + [k], k) == |ks|
  {
    assert forall j :: 0 <= j < |ks| ==> (ks + [k])[j] != k;
  }

  /** Appending to the key list keeps an order that held before. */
  lemma OrderAppendKey<V>(d: Dict<V>, ks: seq<string>, x: string)
    requires FirstAppearanceOrder(d, ks)
    ensures FirstAppearanceOrder(d, ks + [x])
  {
    forall i | 0 <= i < |d| ensures FirstIndex(ks + [x], d[i].0) == FirstIndex(ks, d[i].0) {
      FirstIndexAppend(ks, x, d[i].0);
    }
  }

  /** Rebinding a present key keeps the order. */
  lemma OrderPutPresent<V>(d: Dict<V>, k: string, v: V, ks: seq<string>)
    requires DistinctKeys(d) && HasKey(d, k)
    requires FirstAppearanceOrder(d, ks)
    ensures FirstAppearanceOrder(Put(d, k, v), ks)
  {
    var r := Put(d, k, v);
    assert forall i :: 0 <= i < |r| ==> r[i].0 == d[i].0;
  }

  /** A new key goes after every present key, as its first occurrence does. */
  lemma OrderAppendNew<V>(d: Dict<V>, k: string, v: V, ks: seq<string>)
    requires FirstAppearanceOrder(d, ks)
    requires k !in ks
    ensures FirstAppearanceOrder(d + [(k, v)], ks + [k])
  {
    var r := d + [(k, v)];
    var ks' := ks + [k];
    FirstIndexNew(ks, k);
    forall i | 0 <= i < |r| ensures r[i].0 in ks' && FirstIndex(ks', r[i].0) <= |ks| && (i < |d| ==> FirstIndex(ks', r[i].0) < |ks|) {
      if i < |d| {
        assert r[i] == d[i];
        FirstIndexAppend(ks, k, d[i].0);
      }
    }
    forall i, j | 0 <= i < j < |r| ensures FirstIndex(ks', r[i].0) < FirstIndex(ks', r[j].0) {
      if j < |d| {
        assert r[i] == d[i] && r[j] == d[j];
        FirstIndexAppend(ks, k, d[i].0);
        FirstIndexAppend(ks, k, d[j].0);
      }
    }
  }

  /** `{k: v for k, v in pairs}`: one entry per key, in order of first
      appearance, bound to the value of the key's LAST pair. */
  function FromPairs<V>(pairs: seq<(string, V)>): (d: Dict<V>)
    ensures DistinctKeys(d)
    ensures forall k :: HasKey(d, k) <==> k in Keys(pairs)
    ensures forall i :: 0 <= i < |d| ==> d[i] in pairs
    ensures forall i :: 0 <= i < |pairs| && pairs[i].0 !in Keys(pairs[i + 1..]) ==>
      HasKey(d, pairs[i].0) && Get(d, pairs[i].0) == pairs[i].1
  {
    if pairs == [] then []
    else
      var init := pairs[..|pairs| - 1];
      var last := pairs[|pairs| - 1];
      assert pairs == init + [last];
      FromPairsStep(init, last, FromPairs(init));
      Put(FromPairs(init), last.0, last.1)
  }

  lemma FromPairsStep<V>(init: seq<(string, V)>, last: (string, V), before: Dict<V>)
    requires DistinctKeys(before)
    requires forall k :: HasKey(before, k) <==> k in Keys(init)
    requires forall i :: 0 <= i < |before| ==> before[i] in init
    requires forall i :: 0 <= i < |init| && init[i].0 !in Keys(init[i + 1..]) ==>
      HasKey(before, init[i].0) && Get(before, init[i].0) == init[i].1
    ensures var pairs := init + [last];
      var d := Put(before, last.0, last.1);
      && (forall k :: HasKey(d, k) <==> k in Keys(pairs))
      && (forall i :: 0 <= i < |d| ==> d[i] in pairs)
      && (forall i :: 0 <= i < |pairs| && pairs[i].0 !in Keys(pairs[i + 1..]) ==>
           HasKey(d, pairs[i].0) && Get(d, pairs[i].0) == pairs[i].1)
  {
    var pairs := init + [last];
    var d := Put(before, last.0, last.1);
    assert Keys(pairs) == Keys(init) + [last.0];
    forall i | 0 <= i < |d| ensures d[i] in pairs {
      if i < |before| && d[i] == before[i] {
        assert before[i] in init;
      }
    }
    forall i | 0 <= i < |pairs| && pairs[i].0 !in Keys(pairs[i + 1..])
      ensures HasKey(d, pairs[i].0) && Get(d, pairs[i].0) == pairs[i].1
    {
      if i < |init| {
        assert pairs[i + 1..] == init[i + 1..] + [last];
        assert Keys(pairs[i + 1..]) == Keys(init[i + 1..]) + [last.0];
        assert pairs[i] == init[i];
        GetPut(before, last.0, last.1, pairs[i].0);
      } else {
        GetPut(before, last.0, last.1, last.0);
      }
    }
  }

  /** A dict comprehension keeps its keys in order of first appearance. */
  lemma {:induction false} FromPairsOrder<V>(pairs: seq<(string, V)>)
    ensures FirstAppearanceOrder(FromPairs(pairs), Keys(pairs))
  {
    if pairs != [] {
      var init := pairs[..|pairs| - 1];
      var last := pairs[|pairs| - 1];
      assert pairs == init + [last];
      var before := FromPairs(init);
      FromPairsOrder(init);
      assert Keys(pairs) == Keys(init) + [last.0];
      if HasKey(before, last.0) {
        OrderAppendKey(before, Keys(init), last.0);
        OrderPutPresent(before, last.0, last.1, Keys(pairs));
      } else {
        OrderAppendNew(before, last.0, last.1, Keys(init));
      }
    }
  }
}
