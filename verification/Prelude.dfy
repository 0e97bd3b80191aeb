/** Values shared by every module: an optional value and Python's insertion-ordered dict. */
module Prelude {

  datatype Option<+T> = None | Some(value: T)

  ghost predicate NoDup<T>(s: seq<T>) {
    forall i, j :: 0 <= i < j < |s| ==> s[i] != s[j]
  }

  /** A Python dict: assigning to a present key keeps its position, a new key goes last. */
  datatype Dict<K(==, !new), +V> = Dict(order: seq<K>, at: map<K, V>) {

    ghost predicate Valid() {
      && NoDup(order)
      && forall k :: k in order <==> k in at
    }

    function Put(k: K, v: V): (d: Dict<K, V>)
      ensures Valid() ==> d.Valid()
    {
      Dict(if k in at then order else order + [k], at[k := v])
    }

    /** dict.pop(k, None) */
    function Pop(k: K): (d: Dict<K, V>)
      ensures Valid() ==> d.Valid()
    {
      RemoveKeepsOthers(order, k);
      Dict(Remove(order, k), at - {k})
    }

    function PopAll(ks: seq<K>): (d: Dict<K, V>)
      ensures Valid() ==> d.Valid()
      ensures forall k :: k in d.at <==> k in at && k !in ks
      ensures forall k :: k in d.at ==> d.at[k] == at[k]
      decreases |ks|
    {
      if ks == [] then this else Pop(ks[0]).PopAll(ks[1..])
    }
  }

  function Remove<K(==)>(s: seq<K>, k: K): seq<K> {
    if s == [] then []
    else if s[0] == k then Remove(s[1..], k)
    else [s[0]] + Remove(s[1..], k)
  }

  lemma RemoveKeepsOthers<K(!new)>(s: seq<K>, k: K)
    ensures forall x :: x in Remove(s, k) <==> x in s && x != k
    ensures NoDup(s) ==> NoDup(Remove(s, k))
  {
    if s != [] {
      RemoveKeepsOthers(s[1..], k);
      if NoDup(s) {
        assert NoDup(s[1..]);
        assert forall j :: 0 <= j < |s[1..]| ==> s[1..][j] == s[j + 1] != s[0];
        assert s[0] !in Remove(s[1..], k);
      }
    }
  }

  /** PopAll read from the back, the way a loop that pops one key at a time builds it. */
  lemma {:induction false} PopAllSnoc<K(!new), V>(d: Dict<K, V>, ks: seq<K>, k: K)
    ensures d.PopAll(ks + [k]) == d.PopAll(ks).Pop(k)
    decreases |ks|
  {
    if ks == [] {
      assert d.PopAll([k]) == d.Pop(k).PopAll([]);
    } else {
      assert (ks + [k])[1..] == ks[1..] + [k];
      PopAllSnoc(d.Pop(ks[0]), ks[1..], k);
    }
  }
}
