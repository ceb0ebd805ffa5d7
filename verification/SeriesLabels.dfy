/** Exactly which label names can be taken for other labels in the key of a series. */
module SeriesLabels {
  import opened Base
  import opened SeriesKeys

  type Pair = (string, string)

  predicate PlainPairs(s: seq<Pair>) {
    forall p <- s :: PlainLabel(p.0)
  }

  predicate Rising(s: seq<Pair>) {
    forall i, j | 0 <= i < j < |s| :: AtMost(s[i].0, s[j].0) && s[i].0 != s[j].0
  }

  /** The name is the text of plain labels, a comma, and a plain name that comes after theirs. */
  predicate Spells(k: string, s: seq<Pair>, b: string) {
    && s != [] && PlainPairs(s + [(b, "")]) && Rising(s + [(b, "")])
    && k == Join(Parts(s), ",") + "," + b
  }

  ghost predicate SpellsOut(k: string) {
    exists s, b :: Spells(k, s, b)
  }

  /** Some other series, with plain labels, has the key of this series. */
  ghost predicate Ambiguous(n: string, m: Labels) {
    exists n', m' :: PlainName(n') && PlainLabels(m') && (n' != n || m' != m) && Key(n', m') == Key(n, m)
  }

  // ---------------------------------------------------------------------------
  // Pairs and maps
  // ---------------------------------------------------------------------------

  function Names(s: seq<Pair>): set<string> {
    set p | p in s :: p.0
  }

  lemma NamesFirst(s: seq<Pair>)
    requires s != []
    ensures Names(s) == {s[0].0} + Names(s[1..])
  {
    assert s == [s[0]] + s[1..];
  }

  lemma {:induction false} CollectedKeys(s: seq<Pair>)
    ensures Collected(s).Keys == Names(s)
  {
    hide Names;
    if s != [] {
      CollectedKeys(s[1..]);
      NamesFirst(s);
    } else {
      assert Names([]) == {} by {
        NoNames();
      }
    }
  }

  lemma NoNames()
    ensures Names([]) == {}
  {
  }

  lemma RisingFirst(s: seq<Pair>)
    requires s != [] && Rising(s)
    ensures Rising(s[1..]) && s[0].0 !in Names(s[1..]) && IsLeast(s[0].0, Names(s))
  {
    var rest := s[1..];
    assert forall i | 0 <= i < |rest| :: rest[i] == s[i + 1];
    Comparable(s[0].0, s[0].0);
    assert s[0] in s;
    hide AtMost;
    forall y | y in Names(s)
      ensures AtMost(s[0].0, y)
    {
      var i :| 0 <= i < |s| && s[i].0 == y;
    }
  }

  /** Rising pairs are the pairs of the map they make. */
  lemma {:induction false} RisingPairs(s: seq<Pair>)
    requires Rising(s)
    ensures Pairs(Collected(s)) == s
  {
    hide Rising, Names, IsLeast;
    if s != [] {
      RisingFirst(s);
      CollectedKeys(s);
      CollectedKeys(s[1..]);
      RisingPairs(s[1..]);
      var m, rest, k := Collected(s), Collected(s[1..]), s[0].0;
      LeastIsUnique(m.Keys, k);
      assert k !in rest;
      assert m == rest[k := s[0].1];
      PairsWith(m, rest, k, s[0].1);
      assert s == [s[0]] + s[1..];
    }
  }

  lemma PairsWith(m: Labels, rest: Labels, k: string, v: string)
    requires k !in rest && m == rest[k := v] && m.Keys != {} && Least(m.Keys) == k
    ensures Pairs(m) == [(k, v)] + Pairs(rest)
  {
    assert m - {k} == rest;
  }

  lemma RisingWith(p: Pair, rest: seq<Pair>)
    requires Rising(rest) && forall q <- rest :: AtMost(p.0, q.0) && q.0 != p.0
    ensures Rising([p] + rest)
  {
    hide AtMost;
    var s := [p] + rest;
    forall i, j | 0 <= i < j < |s|
      ensures AtMost(s[i].0, s[j].0) && s[i].0 != s[j].0
    {
      assert s[j] == rest[j - 1] && rest[j - 1] in rest;
      assert i > 0 ==> s[i] == rest[i - 1];
    }
  }

  lemma AfterLeast(m: Labels, k: string)
    requires IsLeast(k, m.Keys)
    ensures k in m && forall q <- Pairs(m - {k}) :: AtMost(k, q.0) && q.0 != k
  {
    hide AtMost, Pairs;
    PairsCollected(m - {k});
  }

  /** The pairs of a map rise. */
  lemma {:induction false} PairsRise(m: Labels)
    ensures Rising(Pairs(m))
    decreases |m|
  {
    hide Rising, AtMost, IsLeast;
    if m == map[] {
      NothingRises();
    } else {
      var k := Least(m.Keys);
      AfterLeast(m, k);
      RemoveSize(m, k);
      PairsRise(m - {k});
      RisingWith((k, m[k]), Pairs(m - {k}));
    }
  }

  lemma NothingRises()
    ensures Rising([])
  {
  }

  // ---------------------------------------------------------------------------
  // A name that spells labels is ambiguous
  // ---------------------------------------------------------------------------

  lemma {:induction false} JoinLast(parts: seq<string>, last: string)
    requires parts != []
    ensures Join(parts + [last], ",") == Join(parts, ",") + "," + last
  {
    var all := parts + [last];
    if |parts| == 1 {
      assert all[1..] == [last];
    } else {
      assert all[1..] == parts[1..] + [last];
      JoinLast(parts[1..], last);
      Regroup(parts[0] + ",", Join(parts[1..], ","), "," + last);
    }
  }

  lemma SpelledPart(k: string, s: seq<Pair>, b: string, v: string)
    requires Spells(k, s, b)
    ensures Part((k, v)) == Join(Parts(s + [(b, v)]), ",")
  {
    hide Escape;
    PartsAppend(s, (b, v));
    assert Parts(s) != [];
    JoinLast(Parts(s), Part((b, v)));
    hide Join, Parts;
    var e := "=\"" + Escape(v) + "\"";
    assert Part((k, v)) == k + e && Part((b, v)) == b + e;
    assert (Join(Parts(s), ",") + "," + b) + e == Join(Parts(s), ",") + "," + (b + e);
  }

  lemma SpelledIsAmbiguous(n: string, k: string, v: string)
    requires PlainName(n) && SpellsOut(k)
    ensures Ambiguous(n, map[k := v])
  {
    var s, b :| Spells(k, s, b);
    var all := s + [(b, v)];
    var m' := Collected(all);
    RisingAgain(s, b, v);
    RisingPairs(all);
    CollectedKeys(all);
    SpelledPart(k, s, b, v);
    OneLabel(k, v);
    assert all[0] in all && all[|s|] in all;
    assert all[0].0 in m' && all[|s|].0 in m' && all[0].0 != all[|s|].0;
    assert Key(n, m') == Key(n, map[k := v]) by {
      OnePart((k, v));
    }
    assert PlainLabels(m') by {
      hide Collected, Key, Pairs;
    }
  }

  lemma OnePart(p: Pair)
    ensures Join(Parts([p]), ",") == Part(p)
  {
    assert Parts([p]) == [Part(p)];
  }

  lemma RisingAgain(s: seq<Pair>, b: string, v: string)
    requires Rising(s + [(b, "")]) && PlainPairs(s + [(b, "")])
    ensures Rising(s + [(b, v)]) && forall i | 0 <= i <= |s| :: PlainLabel((s + [(b, v)])[i].0)
  {
    var x, y := s + [(b, "")], s + [(b, v)];
    assert forall i | 0 <= i < |x| :: x[i].0 == y[i].0 && x[i] in x;
  }

  // ---------------------------------------------------------------------------
  // An ambiguous name spells labels
  // ---------------------------------------------------------------------------

  /** A quote inside an escaped value has a backslash before it. */
  lemma {:induction false} QuoteInValue(v: string, i: nat)
    requires i < |OnePass(v)| && OnePass(v)[i] == '"'
    ensures i > 0 && OnePass(v)[i - 1] == '\\'
  {
    var c := |Code(v[0])|;
    assert OnePass(v) == Code(v[0]) + OnePass(v[1..]);
    if i >= c {
      QuoteInValue(v[1..], i - c);
    }
  }

  /** What follows a label name to the end of the text, when it is the last. */
  function Tail(v: string): string {
    "=\"" + (OnePass(v) + "\"}")
  }

  /** What comes before the last name. */
  function Front(s: seq<Pair>): string {
    if |s| <= 1 then "" else Part(s[0]) + "," + Front(s[1..])
  }

  lemma {:induction false} FrontJoin(s: seq<Pair>)
    requires |s| >= 2
    ensures Front(s) == Join(Parts(s[..|s| - 1]), ",") + ","
  {
    var init := s[..|s| - 1];
    if |s| == 2 {
      assert init == [s[0]];
      OnePart(s[0]);
    } else {
      FrontJoin(s[1..]);
      assert s[1..][..|s[1..]| - 1] == init[1..];
      assert Parts(init)[1..] == Parts(init[1..]);
      assert Join(Parts(init), ",") == Part(s[0]) + "," + Join(Parts(init[1..]), ",");
      Regroup(Part(s[0]) + ",", Join(Parts(init[1..]), ","), ",");
    }
  }

  /** The first plain label lies inside the name, or is the name. */
  lemma FirstName(k: string, y: string, a: string, x: string)
    requires PlainLabel(a) && k + "=\"" + y == a + "=\"" + x
    ensures (k == a && y == x) || (|k| >= |a| + 2 && k == a + "=\"" + k[|a| + 2..] && k[|a| + 2..] + ("=\"" + y) == x)
  {
    var t := k + "=\"" + y;
    NameNotLonger(k, y, a, x, t);
    NameAt(k, y, t);
    NameAt(a, x, t);
    if |k| > |a| {
      assert k == t[..|k|];
      assert k[..|a|] == a && k[|a|] == '=';
      assert |k| != |a| + 1;
      assert k[|a| + 1] == '"';
      assert k == k[..|a|] + k[|a|..|a| + 2] + k[|a| + 2..];
      assert x == t[|a| + 2..] == k[|a| + 2..] + ("=\"" + y);
    }
  }

  lemma QuoteAt(x: string, rest: string, t: string)
    requires t == x + ("\"" + rest)
    ensures |t| > |x| && t[|x|] == '"' && t[..|x|] == x && t[|x| + 1..] == rest
    ensures forall i :: 0 <= i < |x| ==> t[i] == x[i]
  {
  }

  /** A quote that stands right behind an equals sign is not inside an escaped value. */
  lemma NotInside(v: string, rest: string, t: string, q: nat)
    requires t == OnePass(v) + ("\"" + rest) && q + 1 < |t| && t[q] == '=' && t[q + 1] == '"'
    ensures q + 1 >= |OnePass(v)|
  {
    QuoteAt(OnePass(v), rest, t);
    if q + 1 < |OnePass(v)| {
      QuoteInValue(v, q + 1);
    }
  }

  lemma Inside(k: string, y: string, x: string, rest: string, t: string)
    requires t == k + y && t == x + ("\"" + rest) && |x| < |k|
    ensures k == x + "\"" + k[|x| + 1..] && k[|x| + 1..] + y == rest
  {
    QuoteAt(x, rest, t);
    assert k == t[..|k|];
    assert k[..|x|] == x && k[|x|] == '"';
    assert k == k[..|x|] + [k[|x|]] + k[|x| + 1..];
    assert t[|x| + 1..] == k[|x| + 1..] + y;
  }

  /** The value of that label ends inside the name, or the last value is all that follows it. */
  lemma FirstValue(k: string, v: string, e: string, rest: string)
    requires k + Tail(v) == OnePass(e) + ("\"" + rest)
    ensures var n := |OnePass(e)|;
            || (|k| > n && k == OnePass(e) + "\"" + k[n + 1..] && k[n + 1..] + Tail(v) == rest)
            || rest == OnePass(v) + "\"}"
  {
    hide OnePass;
    var t, n, y := k + Tail(v), |OnePass(e)|, OnePass(v) + "\"}";
    assert t == k + "=\"" + y;
    NameAt(k, y, t);
    QuoteAt(OnePass(e), rest, t);
    NotInside(e, rest, t, |k|);
    if n < |k| {
      Inside(k, Tail(v), OnePass(e), rest, t);
    }
  }

  lemma RestAt(s: seq<Pair>)
    requires s != []
    ensures var q := 1 + |s[0].0|; Rest(s)[q..q + 2] == "=\"" && |Rest(s)| >= q + 4
  {
    hide Escape, Join, Parts;
    BodyFirst(s);
    var after := Escape(s[0].1) + "\"" + Rest(s[1..]);
    assert Part(s[0]) + Rest(s[1..]) == s[0].0 + "=\"" + after;
    NameAt(s[0].0, after, s[0].0 + "=\"" + after);
    assert Rest(s) == "," + (s[0].0 + "=\"" + after);
    assert |Rest(s[1..])| >= 1;
  }

  /** More labels are not the end of a value. */
  lemma RestNotValue(s: seq<Pair>, v: string)
    ensures Rest(s) != OnePass(v) + "\"}"
  {
    hide OnePass, Join;
    var t, q := OnePass(v) + "\"}", if s == [] then 0 else 1 + |s[0].0|;
    assert t == OnePass(v) + ("\"" + "}");
    if s != [] && Rest(s) == t {
      RestAt(s);
      assert t[q] == t[q..q + 2][0] && t[q + 1] == t[q..q + 2][1];
      NotInside(v, "}", t, q);
    }
  }

  /** What is left of the name begins with a comma, and goes on with the other labels. */
  lemma NextLabel(k: string, v: string, s: seq<Pair>)
    requires k + Tail(v) == Rest(s)
    ensures s != [] && k != "" && k == "," + k[1..] && k[1..] + Tail(v) == Join(Parts(s), ",") + "}"
  {
    hide OnePass, Join, Parts;
    var t := k + Tail(v);
    assert |Tail(v)| >= 4 && Tail(v)[0] == '=';
    assert s != [];
    assert t[0] == ',';
    assert k != "";
    assert k == [k[0]] + k[1..];
    assert t[1..] == k[1..] + Tail(v);
    assert t[1..] == Join(Parts(s), ",") + "}";
  }

  lemma BodyText(s: seq<Pair>)
    requires s != []
    ensures Join(Parts(s), ",") + "}" == s[0].0 + "=\"" + (OnePass(s[0].1) + ("\"" + Rest(s[1..])))
  {
    hide OnePass, Escape, Join, Parts, Rest;
    BodyFirst(s);
    EscapeIsOnePass(s[0].1);
    Five(s[0].0, "=\"", OnePass(s[0].1), "\"", Rest(s[1..]));
    Regroup(OnePass(s[0].1), "\"", Rest(s[1..]));
  }

  /** If plain labels print the text of one label, its name spells all of them but the last value. */
  lemma {:induction false} SpelledBy(k: string, v: string, s: seq<Pair>)
    requires s != [] && PlainPairs(s) && k + Tail(v) == Join(Parts(s), ",") + "}"
    ensures s[|s| - 1].1 == v && k == Front(s) + s[|s| - 1].0
    decreases |s|, 1
  {
    hide OnePass, Join, Parts, PlainLabel, Rest;
    BodyText(s);
    var a, e, rest := s[0].0, s[0].1, Rest(s[1..]);
    assert s[0] in s;
    var x, y := OnePass(e) + ("\"" + rest), OnePass(v) + "\"}";
    assert k + Tail(v) == k + "=\"" + y;
    FirstName(k, y, a, x);
    RestNotValue(s[1..], v);
    if k == a && y == x {
      LastLabel(v, e, s[1..]);
    } else {
      hide Front;
      SpelledRest(k, v, s, k[|a| + 2..]);
    }
  }

  lemma {:induction false} SpelledRest(k: string, v: string, s: seq<Pair>, k2: string)
    requires s != [] && PlainPairs(s) && k == s[0].0 + "=\"" + k2
    requires k2 + Tail(v) == OnePass(s[0].1) + ("\"" + Rest(s[1..])) && Rest(s[1..]) != OnePass(v) + "\"}"
    ensures s[|s| - 1].1 == v && k == Front(s) + s[|s| - 1].0
    decreases |s|, 0
  {
    hide OnePass, Join, Parts, PlainLabel, Rest, Front, Tail;
    var e := s[0].1;
    FirstValue(k2, v, e, Rest(s[1..]));
    var k3 := k2[|OnePass(e)| + 1..];
    NextLabel(k3, v, s[1..]);
    SpelledBy(k3[1..], v, s[1..]);
    SpelledOn(k, s, k2, k3);
  }

  lemma LastLabel(v: string, e: string, s: seq<Pair>)
    requires OnePass(v) + "\"}" == OnePass(e) + ("\"" + Rest(s))
    ensures v == e && s == []
  {
    hide OnePass, Join, Parts;
    assert OnePass(v) + "\"}" == OnePass(v) + ("\"" + "}");
    ValueEnds(v, "}", e, Rest(s));
  }

  lemma SpelledOn(k: string, s: seq<Pair>, k2: string, k3: string)
    requires |s| >= 2 && k == s[0].0 + "=\"" + k2 && k2 == OnePass(s[0].1) + "\"" + k3
    requires k3 != "" && k3 == "," + k3[1..] && k3[1..] == Front(s[1..]) + s[|s| - 1].0
    ensures k == Front(s) + s[|s| - 1].0
  {
    hide OnePass, Escape;
    EscapeIsOnePass(s[0].1);
    Five(s[0].0, "=\"", OnePass(s[0].1), "\"", k3);
    assert k == Part(s[0]) + k3;
    hide Part;
    Five(Part(s[0]), ",", Front(s[1..]), s[|s| - 1].0, "");
    assert Front(s) == Part(s[0]) + "," + Front(s[1..]);
    assert s[|s| - 1].0 + "" == s[|s| - 1].0;
    assert Front(s[1..]) + s[|s| - 1].0 + "" == Front(s[1..]) + s[|s| - 1].0;
  }

  lemma Five(a: string, b: string, c: string, d: string, e: string)
    ensures a + b + (c + d + e) == a + b + c + d + e
    ensures a + (b + (c + d + e)) == a + b + c + d + e
  {
  }

  lemma AmbiguousSpells(n: string, k: string, v: string, n': string, m': Labels)
    requires PlainName(n) && PlainName(n') && PlainLabels(m') && Key(n', m') == Key(n, map[k := v])
    requires n' != n || m' != map[k := v]
    ensures SpellsOut(k)
  {
    var s := Pairs(m');
    BraceOnlyWithLabels(n, map[k := v]);
    BraceOnlyWithLabels(n', m');
    OneLabel(k, v);
    OnePart((k, v));
    SeriesNameEnds(n, Part((k, v)) + "}", n', Join(Parts(s), ",") + "}") by {
      KeyText(n, map[k := v]);
      KeyText(n', m');
    }
    PairsCollected(m');
    PairsRise(m');
    hide Key, Pairs, Join, Parts, Escape, OnePass;
    PartTail(k, v);
    SpelledBy(k, v, s);
    if |s| == 1 {
      OnlyLabel(k, v, s);
    } else {
      LastSplits(k, s);
    }
  }

  lemma OnlyLabel(k: string, v: string, s: seq<Pair>)
    requires |s| == 1 && s[0].1 == v && k == Front(s) + s[0].0
    ensures Collected(s) == map[k := v]
  {
    assert "" + s[0].0 == s[0].0;
  }

  lemma KeyText(n: string, m: Labels)
    requires m != map[]
    ensures Key(n, m) == n + "{" + (Join(Parts(Pairs(m)), ",") + "}")
  {
    hide Join, Parts, Pairs;
  }

  lemma PartTail(k: string, v: string)
    ensures Part((k, v)) + "}" == k + Tail(v)
  {
    hide Escape, OnePass;
    EscapeIsOnePass(v);
  }

  lemma LastSplits(k: string, s: seq<Pair>)
    requires |s| >= 2 && PlainPairs(s) && Rising(s) && k == Front(s) + s[|s| - 1].0
    ensures Spells(k, s[..|s| - 1], s[|s| - 1].0)
  {
    hide Join, Parts, AtMost, PlainLabel, Front;
    FrontJoin(s);
    var init, b := s[..|s| - 1], s[|s| - 1].0;
    var all := init + [(b, "")];
    assert forall i | 0 <= i < |s| :: all[i].0 == s[i].0 && s[i] in s;
  }

  /**
   * A label name makes a series of plain name share its key with some series of plain
   * labels if and only if the name spells out plain labels in order, whatever the value.
   */
  lemma AmbiguousExactly(n: string, k: string, v: string)
    requires PlainName(n)
    ensures Ambiguous(n, map[k := v]) <==> SpellsOut(k)
  {
    if SpellsOut(k) {
      SpelledIsAmbiguous(n, k, v);
    }
    if Ambiguous(n, map[k := v]) {
      var n', m' :|
        PlainName(n') && PlainLabels(m') && (n' != n || m' != map[k := v]) && Key(n', m') == Key(n, map[k := v]);
      AmbiguousSpells(n, k, v, n', m');
    }
  }

  // ---------------------------------------------------------------------------
  // Series names with a brace
  // ---------------------------------------------------------------------------

  /** Up to its first brace the name is read as the name, and the rest as part of the label. */
  lemma BraceExactly(p: string, q: string, k: string, v: string)
    requires PlainName(p)
    ensures Ambiguous(p + "{" + q, map[k := v]) <==> PlainLabel(q + "{" + k) || SpellsOut(q + "{" + k)
  {
    var n, m, l := p + "{" + q, map[k := v], q + "{" + k;
    BraceCollides(p, q, k, v);
    AmbiguousExactly(p, l, v);
    assert n[|p|] == '{';
    if PlainLabel(l) {
      assert PlainName(p) && PlainLabels(map[l := v]) && p != n && Key(p, map[l := v]) == Key(n, m);
    }
    if SpellsOut(l) {
      var n', m' :|
        PlainName(n') && PlainLabels(m') && (n' != p || m' != map[l := v]) && Key(n', m') == Key(p, map[l := v]);
      assert n' != n;
    }
    if Ambiguous(n, m) && !PlainLabel(l) {
      var n', m' :| PlainName(n') && PlainLabels(m') && (n' != n || m' != m) && Key(n', m') == Key(n, m);
      assert m' != map[l := v] by {
        assert l in map[l := v];
      }
    }
  }

  /** Where the first brace of a name stands. */
  function FirstBrace(n: string): (i: nat)
    requires !PlainName(n)
    ensures i < |n| && n[i] == '{' && PlainName(n[..i])
  {
    if n[0] == '{' then 0
    else
      var i := FirstBrace(n[1..]);
      assert n[..i + 1] == [n[0]] + n[1..][..i];
      i + 1
  }

  /** What the label's name looks like behind the first brace of the key. */
  function ReadAs(n: string, k: string): string {
    if PlainName(n) then k else n[FirstBrace(n) + 1..] + "{" + k
  }

  /**
   * Every series with one label: it shares its key with some other series of plain name
   * and labels if and only if what stands behind the first brace of the key, up to the
   * label's value, spells out plain labels, or is one plain label where the series name
   * itself holds a brace.
   */
  lemma OneLabelExactly(n: string, k: string, v: string)
    ensures Ambiguous(n, map[k := v]) <==>
              SpellsOut(ReadAs(n, k)) || (!PlainName(n) && PlainLabel(ReadAs(n, k)))
  {
    if PlainName(n) {
      AmbiguousExactly(n, k, v);
    } else {
      var i := FirstBrace(n);
      assert n == n[..i] + "{" + n[i + 1..];
      BraceExactly(n[..i], n[i + 1..], k, v);
    }
  }

  /** The name is the text of a plain series that has labels. */
  predicate Prints(n: string, p: string, s: seq<Pair>) {
    PlainName(p) && s != [] && PlainPairs(s) && Rising(s) && n == p + "{" + (Join(Parts(s), ",") + "}")
  }

  /** Every series without labels: its key is its name. */
  lemma NoLabelsExactly(n: string)
    ensures Ambiguous(n, map[]) <==> exists p, s :: Prints(n, p, s)
  {
    if p, s :| Prints(n, p, s) {
      PrintedIsAmbiguous(n, p, s);
    }
    if Ambiguous(n, map[]) {
      var n', m' :| PlainName(n') && PlainLabels(m') && (n' != n || m' != map[]) && Key(n', m') == Key(n, map[]);
      assert m' != map[];
      KeyText(n', m');
      PairsCollected(m');
      PairsRise(m');
      hide Join, Parts, Rising;
      assert Prints(n, n', Pairs(m'));
    }
  }

  lemma PrintedIsAmbiguous(n: string, p: string, s: seq<Pair>)
    requires Prints(n, p, s)
    ensures Ambiguous(n, map[])
  {
    var m := Collected(s);
    RisingPairs(s);
    CollectedKeys(s);
    assert s[0] in s && s[0].0 in m;
    KeyText(p, m);
    hide Join, Parts, Rising, Key;
    assert Key(n, map[]) == n by {
      NoLabels(n);
    }
    assert Key(p, m) == n && PlainLabels(m) && m != map[];
  }

  lemma NoLabels(n: string)
    ensures Key(n, map[]) == n
  {
  }
}
