/** `collections.Counter` as the readers use it: a map whose missing keys read as 0, only ever incremented. */
module Counters {

  type Counter<K(==)> = map<K, nat>

  /** `c[k]`: 0 for a key the counter has never seen. */
  function Get<K(==)>(c: Counter<K>, k: K): nat
  {
    if k in c then c[k] else 0
  }

  /** `c[k] += 1` */
  function Inc<K(==)>(c: Counter<K>, k: K): Counter<K>
  {
    c[k := Get(c, k) + 1]
  }

  /** `for k in ks: c[k] += 1` */
  function CountAll<K(==)>(c: Counter<K>, ks: seq<K>): Counter<K>
  {
    if ks == [] then c else Inc(CountAll(c, ks[..|ks| - 1]), ks[|ks| - 1])
  }

  /** Each key's count grows by exactly the number of its occurrences. */
  lemma {:induction false} CountAllOccurrences<K>(c: Counter<K>, ks: seq<K>, k: K)
    ensures Get(CountAll(c, ks), k) == Get(c, k) + multiset(ks)[k]
  {
    if ks != [] {
      var init := ks[..|ks| - 1];
      CountAllOccurrences(c, init, k);
      assert ks == init + [ks[|ks| - 1]];
    }
  }

  /** The counted keys are the keys of `c` and the elements of `ks`. */
  lemma {:induction false} CountAllKeys<K>(c: Counter<K>, ks: seq<K>)
    ensures forall k :: k in CountAll(c, ks) <==> k in c || k in ks
  {
    if ks != [] {
      var init := ks[..|ks| - 1];
      CountAllKeys(c, init);
      assert ks == init + [ks[|ks| - 1]];
    }
  }

  /** Counting `a` then `b` is counting `a + b`. */
  lemma {:induction false} CountAllAppend<K>(c: Counter<K>, a: seq<K>, b: seq<K>)
    ensures CountAll(c, a + b) == CountAll(CountAll(c, a), b)
    decreases |b|
  {
    if b == [] {
      assert a + b == a;
    } else {
      assert (a + b)[..|a + b| - 1] == a + b[..|b| - 1];
      CountAllAppend(c, a, b[..|b| - 1]);
    }
  }

  /** The loop `for k in ks: c[k] += 1`. */
  method CountEach<K(==)>(c: Counter<K>, ks: seq<K>) returns (counts: Counter<K>)
    ensures counts == CountAll(c, ks)
  {
    counts := c;
    for i := 0 to |ks|
      invariant counts == CountAll(c, ks[..i])
    {
      assert ks[..i + 1][..i] == ks[..i];
      counts := Inc(counts, ks[i]);
    }
    assert ks[..|ks|] == ks;
  }
}
