/** The text that names a metric series: a name and its labels, printed in the Prometheus format. */
module SeriesKeys {
  import opened Base

  // ---------- escaping a label value ----------

  /** strings.ReplaceAll with a pattern of one character. */
  function ReplaceAll(s: string, c: char, with: string): string {
    if s == [] then [] else (if s[0] == c then with else [s[0]]) + ReplaceAll(s[1..], c, with)
  }

  /** The three passes of the source, backslashes first. */
  function Escape(s: string): string {
    ReplaceAll(ReplaceAll(ReplaceAll(s, '\\', "\\\\"), '\n', "\\n"), '"', "\\\"")
  }

  /** What becomes of one character. */
  function Code(c: char): string {
    if c == '\\' then "\\\\" else if c == '\n' then "\\n" else if c == '"' then "\\\"" else [c]
  }

  function OnePass(s: string): string {
    if s == [] then [] else Code(s[0]) + OnePass(s[1..])
  }

  /** Reads an escaped text back; not every text is one. */
  function Unescape(t: string): Option<string> {
    if t == [] then Some([])
    else if t[0] == '\n' || t[0] == '"' then None
    else if t[0] != '\\' then Prepend(t[0], Unescape(t[1..]))
    else if |t| == 1 then None
    else if t[1] == '\\' then Prepend('\\', Unescape(t[2..]))
    else if t[1] == 'n' then Prepend('\n', Unescape(t[2..]))
    else if t[1] == '"' then Prepend('"', Unescape(t[2..]))
    else None
  }

  function Prepend(c: char, d: Option<string>): Option<string> {
    if d.Some? then Some([c] + d.value) else None
  }

  lemma {:induction false} ReplaceAppend(s: string, t: string, c: char, with: string)
    ensures ReplaceAll(s + t, c, with) == ReplaceAll(s, c, with) + ReplaceAll(t, c, with)
  {
    if s == [] {
      assert s + t == t;
    } else {
      assert (s + t)[1..] == s[1..] + t;
      ReplaceAppend(s[1..], t, c, with);
    }
  }

  /** Each pass leaves the characters the other passes insert alone, so one pass does the work of three. */
  lemma {:induction false} EscapeIsOnePass(s: string)
    ensures Escape(s) == OnePass(s)
  {
    if s != [] {
      var c, rest := [s[0]], s[1..];
      assert s == c + rest;
      var c1, r1 := ReplaceAll(c, '\\', "\\\\"), ReplaceAll(rest, '\\', "\\\\");
      var c2, r2 := ReplaceAll(c1, '\n', "\\n"), ReplaceAll(r1, '\n', "\\n");
      ReplaceAppend(c, rest, '\\', "\\\\");
      ReplaceAppend(c1, r1, '\n', "\\n");
      ReplaceAppend(c2, r2, '"', "\\\"");
      OneCharacter(s[0]);
      EscapeIsOnePass(rest);
    }
  }

  lemma OneCharacter(c: char)
    ensures Escape([c]) == Code(c)
  {
    assert forall with, d :: ReplaceAll([c], d, with) == if c == d then with else [c];
    if c == '\\' {
      var t := "\\\\";
      assert t[1..] == "\\";
      assert ReplaceAll(t, '\n', "\\n") == t;
      assert ReplaceAll(t, '"', "\\\"") == t;
    } else if c == '\n' {
      var t := "\\n";
      assert t[1..] == "n";
      assert ReplaceAll(t, '"', "\\\"") == t;
    }
  }

  /** Unescape is the inverse of the escaper, and accepts nothing but what the escaper writes. */
  lemma {:induction false} EscapeInverse(t: string, s: string)
    ensures Unescape(t) == Some(s) <==> t == Escape(s)
  {
    EscapeIsOnePass(s);
    if t == Escape(s) {
      UnescapeOnePass(s);
    }
    if Unescape(t) == Some(s) {
      OnePassUnescape(t);
    }
  }

  lemma {:induction false} UnescapeOnePass(s: string)
    ensures Unescape(OnePass(s)) == Some(s)
  {
    if s != [] {
      UnescapeOnePass(s[1..]);
      var rest := OnePass(s[1..]);
      var t := Code(s[0]) + rest;
      assert t[|Code(s[0])|..] == rest;
      assert s == [s[0]] + s[1..];
    }
  }

  lemma {:induction false} OnePassUnescape(t: string)
    requires Unescape(t).Some?
    ensures OnePass(Unescape(t).value) == t
  {
    if t != [] {
      var n := if t[0] == '\\' then 2 else 1;
      OnePassUnescape(t[n..]);
      var v := Unescape(t[n..]).value;
      assert Unescape(t).value[1..] == v;
      assert t == t[..n] + t[n..];
    }
  }

  // ---------- the order of label names ----------

  /** The order of sort.Strings. */
  predicate AtMost(a: string, b: string) {
    a == [] || (b != [] && (a[0] < b[0] || (a[0] == b[0] && AtMost(a[1..], b[1..]))))
  }

  lemma {:induction false} Comparable(a: string, b: string)
    ensures AtMost(a, b) || AtMost(b, a)
  {
    if a != [] && b != [] {
      Comparable(a[1..], b[1..]);
    }
  }

  lemma {:induction false} Antisymmetric(a: string, b: string)
    requires AtMost(a, b) && AtMost(b, a)
    ensures a == b
  {
    if a != [] {
      Antisymmetric(a[1..], b[1..]);
      assert a == [a[0]] + a[1..] && b == [b[0]] + b[1..];
    }
  }

  lemma {:induction false} Transitive(a: string, b: string, c: string)
    requires AtMost(a, b) && AtMost(b, c)
    ensures AtMost(a, c)
  {
    if a != [] && a[0] == b[0] == c[0] {
      Transitive(a[1..], b[1..], c[1..]);
    }
  }

  ghost predicate IsLeast(x: string, names: set<string>) {
    x in names && forall y :: y in names ==> AtMost(x, y)
  }

  lemma {:induction false} LeastExists(names: set<string>)
    requires names != {}
    ensures exists x :: IsLeast(x, names)
    decreases |names|
  {
    var y :| y in names;
    Comparable(y, y);
    if names == {y} {
      assert IsLeast(y, names);
    } else {
      LeastExists(names - {y});
      var z :| IsLeast(z, names - {y});
      Comparable(y, z);
      var x := if AtMost(y, z) then y else z;
      forall w | w in names ensures AtMost(x, w) {
        if w != y && AtMost(y, z) {
          Transitive(y, z, w);
        }
      }
      assert IsLeast(x, names);
    }
  }

  ghost function Least(names: set<string>): (x: string)
    requires names != {}
    ensures IsLeast(x, names)
  {
    LeastExists(names);
    var x :| IsLeast(x, names);
    x
  }

  lemma LeastIsUnique(names: set<string>, x: string)
    requires IsLeast(x, names)
    ensures x == Least(names)
  {
    Antisymmetric(x, Least(names));
  }

  /** The labels of a series, in the order of their names. */
  type Labels = map<string, string>

  ghost function Pairs(m: Labels): (s: seq<(string, string)>)
    ensures m == map[] <==> s == []
    decreases |m|
  {
    if m == map[] then []
    else
      var k := Least(m.Keys);
      RemoveSize(m, k);
      [(k, m[k])] + Pairs(m - {k})
  }

  function Collected(s: seq<(string, string)>): Labels {
    if s == [] then map[] else Collected(s[1..])[s[0].0 := s[0].1]
  }

  /** The pairs are all the labels and nothing else. */
  lemma {:induction false} PairsCollected(m: Labels)
    ensures Collected(Pairs(m)) == m
    ensures forall p :: p in Pairs(m) ==> p.0 in m && p.1 == m[p.0]
    decreases |m|
  {
    if m != map[] {
      var k := Least(m.Keys);
      RemoveSize(m, k);
      PairsCollected(m - {k});
      assert Pairs(m)[1..] == Pairs(m - {k});
      assert m == (m - {k})[k := m[k]];
    }
  }

  // ---------- the key ----------

  function Part(p: (string, string)): string {
    p.0 + "=\"" + Escape(p.1) + "\""
  }

  function Parts(s: seq<(string, string)>): (parts: seq<string>)
    ensures |parts| == |s|
  {
    if s == [] then [] else [Part(s[0])] + Parts(s[1..])
  }

  lemma PartsAppend(s: seq<(string, string)>, p: (string, string))
    ensures Parts(s + [p]) == Parts(s) + [Part(p)]
  {
    if s == [] {
      assert s + [p] == [p];
    } else {
      assert (s + [p])[1..] == s[1..] + [p];
      PartsAppend(s[1..], p);
    }
  }

  /** strings.Join. */
  function Join(parts: seq<string>, sep: string): string {
    if parts == [] then [] else if |parts| == 1 then parts[0] else parts[0] + sep + Join(parts[1..], sep)
  }

  ghost function Key(name: string, labels: Labels): string {
    if labels == map[] then name else name + "{" + Join(Parts(Pairs(labels)), ",") + "}"
  }

  /** Names that leave the key readable: no opening brace in the series, no `="` in a label. */
  predicate PlainName(name: string) {
    '{' !in name
  }

  predicate PlainLabel(k: string) {
    forall i :: 0 <= i < |k| - 1 ==> !(k[i] == '=' && k[i + 1] == '"')
  }

  predicate PlainLabels(m: Labels) {
    forall k :: k in m ==> PlainLabel(k)
  }

  lemma NameAt(k: string, r: string, t: string)
    requires t == k + "=\"" + r
    ensures |t| >= |k| + 2 && t[|k|] == '=' && t[|k| + 1] == '"'
    ensures t[..|k|] == k && t[|k| + 2..] == r
    ensures forall i :: 0 <= i < |k| ==> t[i] == k[i]
  {
  }

  lemma NameNotLonger(k: string, r: string, k': string, r': string, t: string)
    requires PlainLabel(k')
    requires t == k + "=\"" + r && t == k' + "=\"" + r'
    ensures |k'| <= |k|
  {
    NameAt(k, r, t);
    NameAt(k', r', t);
  }

  /** A label name ends where `="` first stands. */
  lemma NameEnds(k: string, r: string, k': string, r': string)
    requires PlainLabel(k) && PlainLabel(k')
    requires k + "=\"" + r == k' + "=\"" + r'
    ensures k == k' && r == r'
  {
    var t := k + "=\"" + r;
    NameNotLonger(k, r, k', r', t);
    NameNotLonger(k', r', k, r, t);
    NameAt(k, r, t);
    NameAt(k', r', t);
  }

  /** No code is the beginning of another, and none begins with a quote. */
  lemma CodeEnds(c: char, r: string, c': char, r': string)
    requires Code(c) + r == Code(c') + r'
    ensures c == c' && r == r'
  {
    var t := Code(c) + r;
    assert t[0] == Code(c)[0] == Code(c')[0];
    assert |Code(c)| == |Code(c')|;
    assert t[..|Code(c)|] == Code(c) == Code(c');
    assert r == t[|Code(c)|..] == r';
  }

  lemma FirstNotQuote(v: string, r: string)
    requires v != []
    ensures (OnePass(v) + r)[0] != '"'
  {
    assert (OnePass(v) + r)[0] == Code(v[0])[0];
  }

  lemma CodeFirst(v: string, r: string)
    requires v != []
    ensures OnePass(v) + r == Code(v[0]) + (OnePass(v[1..]) + r)
  {
  }

  /** A value ends at the first quote that is not escaped. */
  lemma {:induction false} ValueEnds(v: string, r: string, v': string, r': string)
    requires OnePass(v) + ("\"" + r) == OnePass(v') + ("\"" + r')
    ensures v == v' && r == r'
  {
    if v == [] {
      ValueIsEmpty(v', r', r);
    } else if v' == [] {
      ValueIsEmpty(v, r, r');
    } else {
      var q, q' := "\"" + r, "\"" + r';
      CodeFirst(v, q);
      CodeFirst(v', q');
      CodeEnds(v[0], OnePass(v[1..]) + q, v'[0], OnePass(v'[1..]) + q');
      ValueEnds(v[1..], r, v'[1..], r');
      assert v == [v[0]] + v[1..] && v' == [v'[0]] + v'[1..];
    }
  }

  lemma ValueIsEmpty(v: string, r: string, r': string)
    requires OnePass(v) + ("\"" + r) == "\"" + r'
    ensures v == [] && r == r'
  {
    var t := "\"" + r';
    assert t[0] == '"' && t[1..] == r';
    if v != [] {
      FirstNotQuote(v, "\"" + r);
    } else {
      assert OnePass(v) + ("\"" + r) == "\"" + r;
      assert ("\"" + r)[1..] == r;
    }
  }

  lemma PartEnds(p: (string, string), r: string, p': (string, string), r': string)
    requires PlainLabel(p.0) && PlainLabel(p'.0)
    requires Part(p) + r == Part(p') + r'
    ensures p == p' && r == r'
  {
    var e, e' := Escape(p.1) + "\"" + r, Escape(p'.1) + "\"" + r';
    assert Part(p) + r == p.0 + "=\"" + e;
    assert Part(p') + r' == p'.0 + "=\"" + e';
    NameEnds(p.0, e, p'.0, e');
    EscapeIsOnePass(p.1);
    EscapeIsOnePass(p'.1);
    assert e == OnePass(p.1) + ("\"" + r) && e' == OnePass(p'.1) + ("\"" + r');
    ValueEnds(p.1, r, p'.1, r');
  }

  /** What follows the first part: a comma and the other parts, or the closing brace. */
  function Rest(s: seq<(string, string)>): string {
    if s == [] then "}" else "," + Join(Parts(s), ",") + "}"
  }

  lemma BodyFirst(s: seq<(string, string)>)
    requires s != []
    ensures Join(Parts(s), ",") + "}" == Part(s[0]) + Rest(s[1..])
  {
    assert Parts(s)[1..] == Parts(s[1..]);
  }

  lemma RestCancels(s: seq<(string, string)>, s': seq<(string, string)>)
    requires Rest(s) == Rest(s')
    ensures s == [] <==> s' == []
    ensures s != [] ==> Join(Parts(s), ",") + "}" == Join(Parts(s'), ",") + "}"
  {
    hide Join, Parts;
    var r, r' := Rest(s), Rest(s');
    assert r[0] == r'[0];
    assert s != [] ==> r[1..] == Join(Parts(s), ",") + "}";
    assert s' != [] ==> r'[1..] == Join(Parts(s'), ",") + "}";
  }

  lemma {:induction false} BodyInjective(s: seq<(string, string)>, s': seq<(string, string)>)
    requires s != [] && s' != []
    requires forall p :: p in s || p in s' ==> PlainLabel(p.0)
    requires Join(Parts(s), ",") + "}" == Join(Parts(s'), ",") + "}"
    ensures s == s'
  {
    hide Join, Parts, Part, Rest, PlainLabel;
    BodyFirst(s);
    BodyFirst(s');
    PartEnds(s[0], Rest(s[1..]), s'[0], Rest(s'[1..]));
    RestCancels(s[1..], s'[1..]);
    assert s == [s[0]] + s[1..] && s' == [s'[0]] + s'[1..];
    if s[1..] != [] {
      BodyInjective(s[1..], s'[1..]);
    }
  }

  lemma BraceAt(n: string, b: string, t: string)
    requires t == n + "{" + b
    ensures |t| > |n| && t[|n|] == '{' && t[..|n|] == n && t[|n| + 1..] == b
    ensures forall i :: 0 <= i < |n| ==> t[i] == n[i]
  {
  }

  /** The name of a series ends at the first opening brace. */
  lemma SeriesNameEnds(n: string, b: string, n': string, b': string)
    requires PlainName(n) && PlainName(n')
    requires n + "{" + b == n' + "{" + b'
    ensures n == n' && b == b'
  {
    BraceAt(n, b, n + "{" + b);
    BraceAt(n', b', n + "{" + b);
  }

  /** The key determines the name and every label. */
  lemma KeyInjective(n: string, m: Labels, n': string, m': Labels)
    requires PlainName(n) && PlainLabels(m) && PlainName(n') && PlainLabels(m')
    ensures Key(n, m) == Key(n', m') <==> n == n' && m == m'
  {
    if Key(n, m) == Key(n', m') {
      BraceOnlyWithLabels(n, m);
      BraceOnlyWithLabels(n', m');
      if m != map[] {
        var b, b' := Join(Parts(Pairs(m)), ",") + "}", Join(Parts(Pairs(m')), ",") + "}";
        assert Key(n, m) == n + "{" + b && Key(n', m') == n' + "{" + b';
        SeriesNameEnds(n, b, n', b');
        PairsCollected(m);
        PairsCollected(m');
        BodyInjective(Pairs(m), Pairs(m'));
      }
    }
  }

  lemma BraceOnlyWithLabels(n: string, m: Labels)
    requires PlainName(n)
    ensures '{' in Key(n, m) <==> m != map[]
  {
    if m != map[] {
      assert Key(n, m)[|n|] == '{';
    }
  }

  // ---------- where the key is not enough ----------

  lemma OneLabel(k: string, v: string)
    ensures Pairs(map[k := v]) == [(k, v)]
  {
    var m := map[k := v];
    LeastIsUnique(m.Keys, k) by {
      Comparable(k, k);
    }
    assert m - {k} == map[];
  }

  /** Every series name with a brace shares a key with another series. */
  lemma BraceCollides(p: string, q: string, k: string, v: string)
    ensures Key(p + "{" + q, map[k := v]) == Key(p, map[q + "{" + k := v])
  {
    OneLabel(k, v);
    OneLabel(q + "{" + k, v);
    var e := "=\"" + Escape(v) + "\"";
    assert Parts([(k, v)]) == [k + e] by {
      assert Part((k, v)) == k + e;
    }
    assert Parts([(q + "{" + k, v)]) == [q + "{" + k + e] by {
      assert Part((q + "{" + k, v)) == q + "{" + k + e;
    }
    assert (p + "{" + q) + "{" + (k + e) + "}" == p + "{" + (q + "{" + k + e) + "}";
  }

  lemma TwoLabels(a: string, e: string, b: string, v: string)
    requires AtMost(a, b) && a != b
    ensures Pairs(map[a := e, b := v]) == [(a, e), (b, v)]
  {
    var m := map[a := e, b := v];
    LeastIsUnique(m.Keys, a) by {
      Comparable(a, a);
    }
    OneLabel(b, v);
    assert m - {a} == map[b := v];
  }

  lemma TwoParts(p: (string, string), q: (string, string))
    ensures Join(Parts([p, q]), ",") == Part(p) + "," + Part(q)
    ensures Join(Parts([q]), ",") == Part(q)
  {
    hide Part;
    assert [p, q][1..] == [q];
    assert Parts([q]) == [Part(q)];
    assert Parts([p, q]) == [Part(p), Part(q)];
    assert [Part(p), Part(q)][1..] == [Part(q)];
  }

  /** Every label name that spells out another label shares a key with the two labels it spells. */
  lemma LabelCollides(n: string, a: string, e: string, b: string, v: string)
    requires AtMost(a, b) && a != b
    ensures Key(n, map[a + "=\"" + Escape(e) + "\"," + b := v]) == Key(n, map[a := e, b := v])
  {
    hide Escape, AtMost, Join, Parts, Pairs;
    var k := a + "=\"" + Escape(e) + "\"," + b;
    OneLabel(k, v);
    TwoLabels(a, e, b, v);
    TwoParts((a, e), (k, v));
    TwoParts((a, e), (b, v));
    assert Part((k, v)) == Part((a, e)) + "," + Part((b, v));
  }
}
