/** Small facts about sequences used by several modules. */
module Collections {

  /** No element occurs twice. */
  predicate Distinct<T(==)>(s: seq<T>) {
    forall i, j :: 0 <= i < j < |s| ==> s[i] != s[j]
  }

  /** Every element of `ks` is a key of `m`. */
  predicate AllIn<K, V>(ks: seq<K>, m: map<K, V>) {
    forall k :: k in ks ==> k in m
  }

  /** Sum of `f(m[k])` over the keys `ks`, folded from the end. */
  function SumOver<K, V>(ks: seq<K>, m: map<K, V>, f: V -> int): int
    requires AllIn(ks, m)
  {
    if |ks| == 0 then 0
    else SumOver(ks[..|ks| - 1], m, f) + f(m[ks[|ks| - 1]])
  }

  /** Changing the map at a key outside `ks` does not change the sum. */
  lemma {:induction false} SumOverUpdateAbsent<K, V>(ks: seq<K>, m: map<K, V>, f: V -> int, k: K, v: V)
    requires AllIn(ks, m)
    requires k !in ks
    ensures AllIn(ks, m[k := v])
    ensures SumOver(ks, m[k := v], f) == SumOver(ks, m, f)
  {
    if |ks| > 0 {
      var init := ks[..|ks| - 1];
      assert forall x :: x in init ==> x in ks;
      SumOverUpdateAbsent(init, m, f, k, v);
    }
  }

  /** Changing the map at a key that occurs once in `ks` moves the sum by the difference. */
  lemma {:induction false} SumOverUpdatePresent<K, V>(ks: seq<K>, m: map<K, V>, f: V -> int, k: K, v: V)
    requires AllIn(ks, m)
    requires Distinct(ks)
    requires k in ks
    ensures AllIn(ks, m[k := v])
    ensures SumOver(ks, m[k := v], f) == SumOver(ks, m, f) - f(m[k]) + f(v)
  {
    var init := ks[..|ks| - 1];
    assert forall x :: x in init ==> x in ks;
    assert ks == init + [ks[|ks| - 1]];
    if ks[|ks| - 1] == k {
      assert k !in init;
      SumOverUpdateAbsent(init, m, f, k, v);
    } else {
      assert k in init;
      SumOverUpdatePresent(init, m, f, k, v);
    }
  }

  lemma AppendAssoc<T>(a: seq<T>, b: seq<T>, c: seq<T>)
    ensures a + b + c == a + (b + c)
  {
  }

  lemma AppendNil<T>(a: seq<T>)
    ensures a + [] == a
  {
  }
}
