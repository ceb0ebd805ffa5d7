/** Bytes and big-endian numbers. */
module Bytes {

  type byte = b: int | 0 <= b < 256

  /** 256 to the power of `width`. */
  function Span(width: nat): (n: nat)
    ensures n > 0
  {
    if width == 0 then 1 else 256 * Span(width - 1)
  }

  /** The last `width` base-256 digits of `n`, most significant first. */
  function BigEndian(n: nat, width: nat): (s: seq<byte>)
    ensures |s| == width
  {
    if width == 0 then [] else BigEndian(n / 256, width - 1) + [n % 256]
  }

  function Number(s: seq<byte>): nat {
    if s == [] then 0 else 256 * Number(s[..|s| - 1]) + s[|s| - 1]
  }

  lemma SplitLast(n: nat, m: nat)
    requires m > 0
    ensures n % (256 * m) == 256 * ((n / 256) % m) + n % 256
  {
    var q, r := n / 256, n % 256;
    var a, b := q / m, q % m;
    assert n == 256 * q + r && q == m * a + b;
    assert n == (256 * m) * a + (256 * b + r) by {
      assert 256 * (m * a) == (256 * m) * a;
    }
    Remainder(n, 256 * m, a, 256 * b + r);
  }

  lemma Multiples(d: int, k: int)
    requires d > 0
    ensures k >= 1 ==> d * k >= d
    ensures k <= -1 ==> d * k <= -d
  {
    if k >= 1 {
      assert d * k == d + d * (k - 1) && d * (k - 1) >= 0;
    } else if k <= -1 {
      assert d * k == d * (k + 1) - d && d * (k + 1) <= 0;
    }
  }

  lemma Remainder(n: int, d: int, q: int, r: int)
    requires n == d * q + r && 0 <= r < d
    ensures n % d == r
  {
    var k := n / d - q;
    assert n == d * (n / d) + n % d;
    assert d * (n / d) - d * q == d * k;
    Multiples(d, k);
  }

  /** Reading back the digits gives the number up to what did not fit. */
  lemma {:induction false} NumberOfBigEndian(n: nat, width: nat)
    ensures Number(BigEndian(n, width)) == n % Span(width)
  {
    if width > 0 {
      NumberOfBigEndian(n / 256, width - 1);
      SplitLast(n, Span(width - 1));
      assert BigEndian(n, width)[..width - 1] == BigEndian(n / 256, width - 1);
    }
  }

  lemma Spans()
    ensures Span(2) == 0x1_0000 && Span(4) == 0x1_0000_0000 && Span(8) == 0x1_0000_0000_0000_0000
  {
    assert Span(1) == 256;
    assert Span(3) == 256 * Span(2);
    assert Span(5) == 256 * Span(4);
    assert Span(6) == 256 * Span(5);
    assert Span(7) == 256 * Span(6);
  }

  /** Different numbers that fit have different digits. */
  lemma BigEndianInjective(n: nat, m: nat, width: nat)
    requires n < Span(width) && m < Span(width) && BigEndian(n, width) == BigEndian(m, width)
    ensures n == m
  {
    NumberOfBigEndian(n, width);
    NumberOfBigEndian(m, width);
  }

  lemma {:induction false} BigEndianWraps(n: nat, width: nat)
    ensures BigEndian(n + Span(width), width) == BigEndian(n, width)
  {
    if width > 0 {
      var m := Span(width - 1);
      assert (n + 256 * m) / 256 == n / 256 + m && (n + 256 * m) % 256 == n % 256;
      BigEndianWraps(n / 256, width - 1);
    }
  }

  /** The concatenation of a list of strings. */
  function Concat<T>(parts: seq<seq<T>>): seq<T> {
    if parts == [] then [] else Concat(parts[..|parts| - 1]) + parts[|parts| - 1]
  }

  lemma {:induction false} ConcatAppend<T>(a: seq<seq<T>>, b: seq<seq<T>>)
    ensures Concat(a + b) == Concat(a) + Concat(b)
  {
    if b == [] {
      assert a + b == a;
    } else {
      ConcatAppend(a, b[..|b| - 1]);
      assert (a + b)[..|a + b| - 1] == a + b[..|b| - 1];
    }
  }

  lemma ConcatFirst<T>(a: seq<seq<T>>)
    requires a != []
    ensures Concat(a) == a[0] + Concat(a[1..])
  {
    ConcatAppend([a[0]], a[1..]);
    assert [a[0]] + a[1..] == a;
    assert Concat([a[0]]) == Concat([]) + a[0];
  }
}
