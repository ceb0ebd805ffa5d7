/** Small facts about sets and maps that several components share. */
module Base {

  datatype Option<+T> = None | Some(value: T)

  /** A set cannot be larger than a set that contains it. */
  lemma SubsetSize<T>(a: set<T>, b: set<T>)
    requires a <= b
    ensures |a| <= |b|
    ensures |a| == |b| ==> a == b
  {
    assert b == a + (b - a);
    assert |b| == |a| + |b - a|;
  }

  /** Two sets that differ at one element at most. */
  lemma OneApart<T>(a: set<T>, b: set<T>, x: T)
    requires a - {x} == b - {x}
    ensures |b| == |a| + (if x in b then 1 else 0) - (if x in a then 1 else 0)
  {
    assert x in a ==> |a| == |a - {x}| + 1;
    assert x in b ==> |b| == |b - {x}| + 1;
    assert x !in a ==> a == a - {x};
    assert x !in b ==> b == b - {x};
  }

  lemma KeepSize<K, V>(m: map<K, V>, m': map<K, V>)
    requires m'.Keys <= m.Keys
    ensures |m'| <= |m|
    ensures |m'| == |m| ==> m'.Keys == m.Keys
  {
    SubsetSize(m'.Keys, m.Keys);
  }

  lemma SameKeysSize<K, V, W>(m: map<K, V>, m': map<K, W>)
    requires m.Keys == m'.Keys
    ensures |m| == |m'|
  {
    assert |m| == |m.Keys| && |m'| == |m'.Keys|;
  }

  lemma RemoveSize<K, V>(m: map<K, V>, k: K)
    ensures |m - {k}| == if k in m then |m| - 1 else |m|
  {
    assert (m - {k}).Keys == m.Keys - {k};
  }

  /** The sum of the values of a map. */
  ghost function Total(m: map<string, int>): int
    decreases |m|
  {
    if m == map[] then 0
    else
      var k :| k in m;
      RemoveSize(m, k);
      m[k] + Total(m - {k})
  }

  /** Any key can be taken out first. */
  lemma {:induction false} TotalWithout(m: map<string, int>, k: string)
    requires k in m
    ensures Total(m) == m[k] + Total(m - {k})
    decreases |m|
  {
    var j :| j in m && Total(m) == m[j] + Total(m - {j});
    if j != k {
      RemoveSize(m, j);
      RemoveSize(m, k);
      TotalWithout(m - {j}, k);
      TotalWithout(m - {k}, j);
      assert m - {j} - {k} == m - {k} - {j};
    }
  }

  lemma TotalSet(m: map<string, int>, k: string, v: int)
    ensures Total(m[k := v]) == Total(m - {k}) + v
  {
    TotalWithout(m[k := v], k);
    assert m[k := v] - {k} == m - {k};
  }

  lemma TotalDrop(m: map<string, int>, k: string)
    ensures Total(m - {k}) == Total(m) - if k in m then m[k] else 0
  {
    if k in m {
      TotalWithout(m, k);
    } else {
      assert m - {k} == m;
    }
  }

  /** Leaving some non-negative values out does not raise the sum. */
  lemma {:induction false} TotalPart(m: map<string, int>, part: map<string, int>)
    requires part.Keys <= m.Keys && (forall k <- part :: part[k] == m[k]) && forall k <- m :: m[k] >= 0
    ensures 0 <= Total(part) <= Total(m)
    decreases |m|
  {
    if m != map[] {
      var k :| k in m;
      TotalWithout(m, k);
      RemoveSize(m, k);
      TotalDrop(part, k);
      TotalPart(m - {k}, part - {k});
    } else {
      assert part == map[];
    }
  }

  /** The values of a map, each as often as it occurs. */
  ghost function Bag<K, V>(m: map<K, V>): multiset<V>
    decreases |m|
  {
    if m == map[] then multiset{}
    else
      var k :| k in m;
      RemoveSize(m, k);
      multiset{m[k]} + Bag(m - {k})
  }

  lemma BagPick<K, V>(m: map<K, V>) returns (k: K)
    requires m != map[]
    ensures k in m && Bag(m) == multiset{m[k]} + Bag(m - {k})
  {
    k :| k in m && Bag(m) == multiset{m[k]} + Bag(m - {k});
  }

  /** Any key can be taken out first. */
  lemma {:induction false} BagWithout<K, V>(m: map<K, V>, k: K)
    requires k in m
    ensures Bag(m) == multiset{m[k]} + Bag(m - {k})
    decreases |m|
  {
    hide Bag;
    var j := BagPick(m);
    if j != k {
      RemoveSize(m, j);
      RemoveSize(m, k);
      BagWithout(m - {j}, k);
      BagWithout(m - {k}, j);
      assert m - {j} - {k} == m - {k} - {j};
      Swap(multiset{m[j]}, multiset{m[k]}, Bag(m - {j} - {k}));
    }
  }

  lemma Swap<V>(x: multiset<V>, y: multiset<V>, z: multiset<V>)
    ensures x + (y + z) == y + (x + z)
  {
  }

  lemma BagWith<K, V>(m: map<K, V>, k: K, v: V)
    requires k !in m
    ensures Bag(m[k := v]) == Bag(m) + multiset{v}
  {
    BagWithout(m[k := v], k);
    assert m[k := v] - {k} == m;
  }

  lemma {:induction false} BagSize<K, V>(m: map<K, V>)
    ensures |Bag(m)| == |m|
    decreases |m|
  {
    if m != map[] {
      var k :| k in m;
      BagWithout(m, k);
      RemoveSize(m, k);
      BagSize(m - {k});
    }
  }

  // ---------------------------------------------------------------------------
  // Sequences
  // ---------------------------------------------------------------------------

  lemma Regroup<T>(x: seq<T>, y: seq<T>, z: seq<T>)
    ensures x + (y + z) == x + y + z
  {
  }

  lemma Split<T>(s: seq<T>, init: seq<T>, last: T)
    requires s == init + [last]
    ensures s[..|s| - 1] == init && s[|s| - 1] == last
  {
  }

  lemma LastJoins<T>(s: seq<T>)
    requires s != []
    ensures s == s[..|s| - 1] + [s[|s| - 1]]
  {
  }

  // ---------------------------------------------------------------------------
  // One name and any number of others
  // ---------------------------------------------------------------------------

  const V := "v"

  /** Any number of keys different from `V` and from each other. */
  function Other(j: nat): string {
    seq(j + 2, _ => 'x')
  }

  function Others(n: nat): set<string> {
    if n == 0 then {} else Others(n - 1) + {Other(n - 1)}
  }

  lemma {:induction false} OthersCounted(n: nat)
    ensures |Others(n)| == n
    ensures forall k <- Others(n) :: 2 <= |k| <= n + 1
    ensures V !in Others(n) && Other(n) !in Others(n)
    ensures n > 0 ==> Other(0) in Others(n)
  {
    if n > 0 {
      OthersCounted(n - 1);
    }
  }
}
