/** Insertion-ordered dictionaries: Python's `dict` and `OrderedDict`, as values. */
module Dicts {

  ghost predicate Distinct<T>(s: seq<T>) {
    forall i, j :: 0 <= i < j < |s| ==> s[i] != s[j]
  }

  /** `s` with every `x` taken out. */
  function Without<T(==)>(s: seq<T>, x: T): seq<T> {
    if |s| == 0 then [] else
      var rest := Without(s[..|s| - 1], x);
      if s[|s| - 1] == x then rest else rest + [s[|s| - 1]]
  }

  lemma {:induction false} WithoutIs<T>(s: seq<T>, x: T)
    ensures forall y :: y in Without(s, x) <==> y in s && y != x
    ensures Distinct(s) ==> Distinct(Without(s, x))
    ensures |Without(s, x)| <= |s| && (x in s ==> |Without(s, x)| < |s|)
  {
    if |s| > 0 {
      var front, last := s[..|s| - 1], s[|s| - 1];
      assert s == front + [last];
      WithoutIs(front, x);
      assert Distinct(s) ==> last !in front;
    }
  }

  datatype Dict<K(==,!new), +V> = Dict(order: seq<K>, vals: map<K, V>) {

    ghost predicate Valid() {
      Distinct(order) && forall k :: k in order <==> k in vals
    }

    /** `d[k] = v`: an existing key keeps its place. */
    function Put(k: K, v: V): Dict<K, V> {
      Dict(if k in vals then order else order + [k], vals[k := v])
    }

    function Pop(k: K): Dict<K, V> {
      Dict(Without(order, k), map x | x in vals && x != k :: vals[x])
    }

    function MoveToEnd(k: K): Dict<K, V> {
      Dict(Without(order, k) + [k], vals)
    }

    /** `popitem(last=False)`. */
    function PopFirst(): Dict<K, V>
      requires |order| > 0
    {
      Dict(order[1..], map x | x in vals && x != order[0] :: vals[x])
    }

    lemma PopFirstValid()
      requires Valid() && |order| > 0
      ensures PopFirst().Valid()
    {
      assert order == [order[0]] + order[1..];
    }

    lemma PutValid(k: K, v: V)
      requires Valid()
      ensures Put(k, v).Valid()
    {
    }

    lemma PopValid(k: K)
      requires Valid()
      ensures Pop(k).Valid()
    {
      WithoutIs(order, k);
    }

    lemma MoveToEndValid(k: K)
      requires Valid() && k in vals
      ensures MoveToEnd(k).Valid()
    {
      WithoutIs(order, k);
    }
  }

}
