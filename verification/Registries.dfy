/** The metrics registry (internal/metrics/metrics.go). */
module Registries {
  import opened Base
  import opened SeriesKeys

  // ---------- printing the key ----------

  ghost predicate Ascending(s: seq<string>) {
    forall i, j :: 0 <= i < j < |s| ==> AtMost(s[i], s[j])
  }

  /** What sort.Strings does, here by insertion. */
  method SortStrings(keys: seq<string>) returns (r: seq<string>)
    ensures Ascending(r) && multiset(r) == multiset(keys)
  {
    hide AtMost;
    r := [];
    for i := 0 to |keys|
      invariant Ascending(r) && multiset(r) == multiset(keys[..i])
    {
      InsertedSame(keys, i, r);
      r := Insert(r, keys[i]);
    }
    assert keys[..|keys|] == keys;
  }

  method Insert(s: seq<string>, k: string) returns (r: seq<string>)
    requires Ascending(s)
    ensures Ascending(r) && multiset(r) == multiset(s) + multiset{k}
  {
    hide AtMost, Ascending;
    var j := |s|;
    while j > 0 && !AtMost(s[j - 1], k)
      invariant 0 <= j <= |s|
      invariant forall l :: j <= l < |s| ==> AtMost(k, s[l])
    {
      j := j - 1;
      Comparable(k, s[j]);
    }
    InsertedAscends(s, j, k);
    assert s == s[..j] + s[j..];
    r := s[..j] + [k] + s[j..];
  }

  lemma InsertedSame(keys: seq<string>, i: nat, r: seq<string>)
    requires i < |keys| && multiset(r) == multiset(keys[..i])
    ensures multiset(keys[..i + 1]) == multiset(r) + multiset{keys[i]}
  {
    assert keys[..i + 1] == keys[..i] + [keys[i]];
  }

  lemma InsertedAscends(r: seq<string>, j: nat, k: string)
    requires Ascending(r) && j <= |r|
    requires j > 0 ==> AtMost(r[j - 1], k)
    requires forall l :: j <= l < |r| ==> AtMost(k, r[l])
    ensures Ascending(r[..j] + [k] + r[j..])
  {
    forall l | 0 <= l < j ensures AtMost(r[l], k) {
      if l < j - 1 {
        Transitive(r[l], r[j - 1], k);
      }
    }
  }

  /** Sorted label names without repetition are the order in which the key lists the labels. */
  lemma {:induction false} SortedPairs(keys: seq<string>, m: Labels, pairs: seq<(string, string)>)
    requires Ascending(keys) && multiset(keys) == multiset(m.Keys)
    requires |pairs| == |keys|
    requires forall i :: 0 <= i < |keys| ==> keys[i] in m && pairs[i] == (keys[i], m[keys[i]])
    ensures pairs == Pairs(m)
    decreases |keys|
  {
    if keys == [] {
      NoKeys(keys, m);
    } else {
      var k := keys[0];
      FirstIsLeast(keys, m);
      LeastIsUnique(m.Keys, k);
      var n := m - {k};
      WithoutFirst(keys, m.Keys);
      assert n.Keys == m.Keys - {k};
      forall i | 0 <= i < |keys[1..]| ensures keys[1..][i] in n {
        assert keys[1..][i] in multiset(keys[1..]);
      }
      SortedPairs(keys[1..], n, pairs[1..]);
      assert k in m.Keys;
      assert pairs == [pairs[0]] + pairs[1..];
    }
  }

  lemma NoKeys(keys: seq<string>, m: Labels)
    requires keys == [] && multiset(keys) == multiset(m.Keys)
    ensures m == map[]
  {
    forall k ensures k !in m {
      assert multiset(m.Keys)[k] == 0;
    }
  }

  lemma FirstIsLeast(keys: seq<string>, m: Labels)
    requires keys != [] && Ascending(keys) && multiset(keys) == multiset(m.Keys)
    ensures IsLeast(keys[0], m.Keys)
  {
    assert keys[0] in multiset(keys);
    Comparable(keys[0], keys[0]);
    forall y | y in m.Keys ensures AtMost(keys[0], y) {
      assert y in multiset(keys);
    }
  }

  lemma WithoutFirst(keys: seq<string>, names: set<string>)
    requires keys != [] && multiset(keys) == multiset(names)
    ensures multiset(keys[1..]) == multiset(names - {keys[0]})
  {
    var k := keys[0];
    assert keys == [k] + keys[1..];
    assert multiset(keys) == multiset{k} + multiset(keys[1..]);
    assert k in multiset(keys);
    forall x ensures multiset(keys[1..])[x] == multiset(names - {k})[x] {
      assert multiset(names)[x] == multiset(keys)[x];
    }
  }

  /** Collects the label names in any order, sorts them and prints the labels. */
  method MakeKey(name: string, labels: Labels) returns (text: string)
    ensures text == Key(name, labels)
  {
    if |labels| == 0 {
      return name;
    }
    var left, keys := labels.Keys, [];
    while left != {}
      invariant left <= labels.Keys
      invariant multiset(keys) + multiset(left) == multiset(labels.Keys)
      decreases left
    {
      var k :| k in left;
      left, keys := left - {k}, keys + [k];
    }
    keys := SortStrings(keys);
    assert multiset(keys) == multiset(labels.Keys);
    forall i | 0 <= i < |keys| ensures keys[i] in labels {
      assert keys[i] in multiset(keys);
    }
    var parts := [];
    ghost var pairs := [];
    for i := 0 to |keys|
      invariant |pairs| == i && parts == Parts(pairs)
      invariant forall j :: 0 <= j < i ==> keys[j] in labels && pairs[j] == (keys[j], labels[keys[j]])
    {
      var k := keys[i];
      PartsAppend(pairs, (k, labels[k]));
      parts := parts + [k + "=\"" + Escape(labels[k]) + "\""];
      pairs := pairs + [(k, labels[k])];
    }
    SortedPairs(keys, labels, pairs);
    return name + "{" + Join(parts, ",") + "}";
  }

  // ---------- counters and gauges ----------

  /** The value kept for a series; the zero value when there is none. */
  ghost function Reading(m: map<string, real>, name: string, labels: Labels): real {
    At(m, Key(name, labels))
  }

  function At(m: map<string, real>, key: string): real {
    if key in m then m[key] else 0.0
  }

  /** Every other plain series reads as before. */
  ghost predicate OthersKept(was: map<string, real>, now: map<string, real>, name: string, labels: Labels) {
    forall n, l :: Plain(n, l) && (n != name || l != labels) ==> Reading(now, n, l) == Reading(was, n, l)
  }

  predicate Plain(name: string, labels: Labels) {
    PlainName(name) && PlainLabels(labels)
  }

  /** Writing a series changes the reading of that series alone. */
  lemma OneSeries(m: map<string, real>, name: string, labels: Labels, x: real)
    ensures Reading(m[Key(name, labels) := x], name, labels) == x
    ensures Plain(name, labels) ==> OthersKept(m, m[Key(name, labels) := x], name, labels)
  {
    if Plain(name, labels) {
      forall n, l | Plain(n, l) && (n != name || l != labels)
        ensures Key(n, l) != Key(name, labels)
      {
        KeyInjective(name, labels, n, l);
      }
    }
  }

  class Registry {
    var counters: map<string, real>
    var gauges: map<string, real>

    constructor ()
      ensures counters == map[] && gauges == map[]
    {
      counters, gauges := map[], map[];
    }

    method Add(name: string, labels: Labels, value: real)
      modifies this`counters
      ensures counters == old(counters)[Key(name, labels) := old(Reading(counters, name, labels)) + value]
      ensures Reading(counters, name, labels) == old(Reading(counters, name, labels)) + value
      ensures Plain(name, labels) ==> OthersKept(old(counters), counters, name, labels)
    {
      var k := MakeKey(name, labels);
      OneSeries(counters, name, labels, At(counters, k) + value);
      counters := counters[k := At(counters, k) + value];
    }

    method Set(name: string, labels: Labels, value: real)
      modifies this`gauges
      ensures gauges == old(gauges)[Key(name, labels) := value] && Reading(gauges, name, labels) == value
      ensures Plain(name, labels) ==> OthersKept(old(gauges), gauges, name, labels)
    {
      var k := MakeKey(name, labels);
      OneSeries(gauges, name, labels, value);
      gauges := gauges[k := value];
    }

    method AddGauge(name: string, labels: Labels, value: real)
      modifies this`gauges
      ensures gauges == old(gauges)[Key(name, labels) := old(Reading(gauges, name, labels)) + value]
      ensures Reading(gauges, name, labels) == old(Reading(gauges, name, labels)) + value
      ensures Plain(name, labels) ==> OthersKept(old(gauges), gauges, name, labels)
    {
      var k := MakeKey(name, labels);
      OneSeries(gauges, name, labels, At(gauges, k) + value);
      gauges := gauges[k := At(gauges, k) + value];
    }
  }
}
