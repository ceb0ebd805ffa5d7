/** Frames, nonces and the laws of the cipher (internal/secure/conn.go). */
module Frames {
  import opened Base
  import opened Bytes

  const MAX_PLAIN_FRAME := 16 * 1024
  const OVERHEAD := 16
  const MAX_CIPHER_FRAME := MAX_PLAIN_FRAME + OVERHEAD
  const COUNTER_SPAN := 0x1_0000_0000_0000_0000

  /** The header that announces the end of the stream. */
  const END: seq<byte> := [0, 0, 0, 0]

  // ---------------------------------------------------------------------------
  // Nonces
  // ---------------------------------------------------------------------------

  /** Four zero bytes and the 64-bit counter; twelve bytes as section 2.8 of RFC 8439 asks for. */
  function MakeNonce(counter: nat): (nonce: seq<byte>)
    ensures |nonce| == 12
  {
    [0, 0, 0, 0] + BigEndian(counter % COUNTER_SPAN, 8)
  }

  /** A nonce is four zero bytes, and eight that read back as the counter up to where that comes round. */
  lemma NonceReadsBack(counter: nat)
    ensures forall i | 0 <= i < 4 :: MakeNonce(counter)[i] == 0
    ensures Number(MakeNonce(counter)[4..]) == counter % COUNTER_SPAN
  {
    hide BigEndian, Number;
    Spans();
    var n := counter % COUNTER_SPAN;
    assert MakeNonce(counter)[4..] == BigEndian(n, 8);
    NumberOfBigEndian(n, 8);
  }

  /** The nonces of the first `n` seals of a direction. */
  function Nonces(n: nat): seq<seq<byte>> {
    seq(n, i requires 0 <= i => MakeNonce(i))
  }

  ghost predicate Distinct(s: seq<seq<byte>>) {
    forall i, j | 0 <= i < j < |s| :: s[i] != s[j]
  }

  lemma NonceInjective(i: nat, j: nat)
    requires i < COUNTER_SPAN && j < COUNTER_SPAN && MakeNonce(i) == MakeNonce(j)
    ensures i == j
  {
    hide BigEndian;
    Spans();
    assert MakeNonce(i)[4..] == BigEndian(i, 8) && MakeNonce(j)[4..] == BigEndian(j, 8);
    BigEndianInjective(i, j, 8);
  }

  /** No nonce is used twice, if and only if the 64-bit counter does not come round. */
  lemma NoncesDistinct(n: nat)
    ensures Distinct(Nonces(n)) <==> n <= COUNTER_SPAN
  {
    if n <= COUNTER_SPAN {
      forall i, j | 0 <= i < j < n
        ensures Nonces(n)[i] != Nonces(n)[j]
      {
        if MakeNonce(i) == MakeNonce(j) {
          NonceInjective(i, j);
        }
      }
    } else {
      assert Nonces(n)[0] == Nonces(n)[COUNTER_SPAN];
    }
  }

  // ---------------------------------------------------------------------------
  // The cipher
  // ---------------------------------------------------------------------------

  /** Seal and Open under one key. */
  datatype Cipher = Cipher(
    seal: (seq<byte>, seq<byte>) -> seq<byte>,
    open: (seq<byte>, seq<byte>) -> Option<seq<byte>>)

  function SealAt(a: Cipher, i: nat, plain: seq<byte>): seq<byte> {
    a.seal(MakeNonce(i), plain)
  }

  ghost predicate Tagged(a: Cipher) {
    forall nonce, plain :: |a.seal(nonce, plain)| == |plain| + OVERHEAD
  }

  /** Open undoes the seals that were made: the i-th text of `sealed` under the i-th nonce. */
  ghost predicate Correct(a: Cipher, sealed: seq<seq<byte>>) {
    Tagged(a) && forall i: nat | i < |sealed| :: a.open(MakeNonce(i), SealAt(a, i, sealed[i])) == Some(sealed[i])
  }

  /** Open accepts nothing but what was sealed under the same nonce. */
  ghost predicate Ideal(a: Cipher, sealed: seq<seq<byte>>) {
    forall nonce, text | a.open(nonce, text).Some? ::
      exists i: nat :: i < |sealed| && nonce == MakeNonce(i) && text == SealAt(a, i, sealed[i])
                       && a.open(nonce, text).value == sealed[i]
  }

  /** The laws ask for nothing impossible: for any texts some cipher meets them all. */
  lemma LawsAreConsistent(sealed: seq<seq<byte>>)
    requires |sealed| <= COUNTER_SPAN
    ensures exists a :: Correct(a, sealed) && Ideal(a, sealed)
  {
    var seal := (nonce: seq<byte>, plain: seq<byte>) => plain + seq(OVERHEAD, _ => 0 as byte);
    var pick := (nonce: seq<byte>, text: seq<byte>) => PickSealed(sealed, nonce, text, 0);
    var a := Cipher(seal, pick);
    forall i: nat | i < |sealed|
      ensures a.open(MakeNonce(i), SealAt(a, i, sealed[i])) == Some(sealed[i])
    {
      PickFinds(sealed, i, 0);
    }
    forall nonce, text | a.open(nonce, text).Some?
      ensures exists i: nat :: i < |sealed| && nonce == MakeNonce(i) && text == SealAt(a, i, sealed[i])
                               && a.open(nonce, text).value == sealed[i]
    {
      var i := PickFound(sealed, nonce, text, 0);
      assert text == SealAt(a, i, sealed[i]);
    }
    assert Correct(a, sealed) && Ideal(a, sealed);
  }

  function PickSealed(sealed: seq<seq<byte>>, nonce: seq<byte>, text: seq<byte>, i: nat): Option<seq<byte>>
    decreases |sealed| - i
  {
    if i >= |sealed| then None
    else if nonce == MakeNonce(i) && text == sealed[i] + seq(OVERHEAD, _ => 0) then Some(sealed[i])
    else PickSealed(sealed, nonce, text, i + 1)
  }

  lemma {:induction false} PickFinds(sealed: seq<seq<byte>>, k: nat, i: nat)
    requires i <= k < |sealed| <= COUNTER_SPAN
    ensures PickSealed(sealed, MakeNonce(k), sealed[k] + seq(OVERHEAD, _ => 0), i) == Some(sealed[k])
    decreases |sealed| - i
  {
    if i < k {
      if MakeNonce(i) == MakeNonce(k) {
        NonceInjective(i, k);
      }
      PickFinds(sealed, k, i + 1);
    }
  }

  lemma {:induction false} PickFound(sealed: seq<seq<byte>>, nonce: seq<byte>, text: seq<byte>, i: nat) returns (k: nat)
    requires PickSealed(sealed, nonce, text, i).Some?
    ensures k < |sealed| && nonce == MakeNonce(k) && text == sealed[k] + seq(OVERHEAD, _ => 0)
    ensures PickSealed(sealed, nonce, text, i) == Some(sealed[k])
    decreases |sealed| - i
  {
    if nonce == MakeNonce(i) && text == sealed[i] + seq(OVERHEAD, _ => 0) {
      k := i;
    } else {
      k := PickFound(sealed, nonce, text, i + 1);
    }
  }

  // ---------------------------------------------------------------------------
  // Chunks and frames
  // ---------------------------------------------------------------------------

  function Min(a: int, b: int): int {
    if a < b then a else b
  }

  /** The pieces in which a write goes out. */
  function Chunks(p: seq<byte>): seq<seq<byte>> {
    if p == [] then []
    else [p[..Min(|p|, MAX_PLAIN_FRAME)]] + Chunks(p[Min(|p|, MAX_PLAIN_FRAME)..])
  }

  predicate Fitting(chunk: seq<byte>) {
    0 < |chunk| <= MAX_PLAIN_FRAME
  }

  /** A write goes out whole, in as few pieces as fit, all full but perhaps the last. */
  lemma {:induction false} ChunksWhole(p: seq<byte>)
    ensures Concat(Chunks(p)) == p
    ensures forall c <- Chunks(p) :: Fitting(c)
    ensures forall i | 0 <= i < |Chunks(p)| - 1 :: |Chunks(p)[i]| == MAX_PLAIN_FRAME
    ensures |Chunks(p)| == (|p| + MAX_PLAIN_FRAME - 1) / MAX_PLAIN_FRAME
  {
    if p != [] {
      var n := Min(|p|, MAX_PLAIN_FRAME);
      ChunksWhole(p[n..]);
      ConcatFirst(Chunks(p));
      assert Chunks(p)[1..] == Chunks(p[n..]);
      assert p == p[..n] + p[n..];
      if |p| <= MAX_PLAIN_FRAME {
        assert |Chunks(p[n..])| == 0;
      } else {
        CeilStep(|p|);
      }
    }
  }

  lemma CeilStep(n: nat)
    requires n > MAX_PLAIN_FRAME
    ensures (n + MAX_PLAIN_FRAME - 1) / MAX_PLAIN_FRAME
         == (n - MAX_PLAIN_FRAME + MAX_PLAIN_FRAME - 1) / MAX_PLAIN_FRAME + 1
  {
  }

  function Header(length: nat): seq<byte> {
    BigEndian(length % 0x1_0000_0000, 4)
  }

  function Frame(a: Cipher, i: nat, chunk: seq<byte>): seq<byte> {
    Header(|SealAt(a, i, chunk)|) + SealAt(a, i, chunk)
  }

  /** The frames of a list of chunks, the first under counter `i`. */
  function Wire(a: Cipher, i: nat, chunks: seq<seq<byte>>): seq<byte> {
    if chunks == [] then []
    else
      var n := |chunks| - 1;
      Wire(a, i, chunks[..n]) + Frame(a, i + n, chunks[n])
  }

  lemma {:induction false} WireAppend(a: Cipher, i: nat, x: seq<seq<byte>>, y: seq<seq<byte>>)
    ensures Wire(a, i, x + y) == Wire(a, i, x) + Wire(a, i + |x|, y)
  {
    hide Frame;
    if y == [] {
      assert x + y == x;
    } else {
      WireAppend(a, i, x, y[..|y| - 1]);
      assert (x + y)[..|x + y| - 1] == x + y[..|y| - 1];
    }
  }

  lemma WireFirst(a: Cipher, i: nat, chunks: seq<seq<byte>>)
    requires chunks != []
    ensures Wire(a, i, chunks) == Frame(a, i, chunks[0]) + Wire(a, i + 1, chunks[1..])
  {
    hide Frame;
    WireAppend(a, i, [chunks[0]], chunks[1..]);
    assert [chunks[0]] + chunks[1..] == chunks;
    assert Wire(a, i, [chunks[0]]) == [] + Frame(a, i, chunks[0]);
  }

  lemma HeaderReadsBack(length: nat)
    requires length < 0x1_0000_0000
    ensures |Header(length)| == 4 && Number(Header(length)) == length
  {
    hide BigEndian, Number, Span;
    Spans();
    NumberOfBigEndian(length, 4);
    assert length % 0x1_0000_0000 == length;
  }

  /** A data header is never the end header and never above the largest frame. */
  lemma DataHeader(a: Cipher, i: nat, chunk: seq<byte>)
    requires Tagged(a) && Fitting(chunk)
    ensures var h := Header(|SealAt(a, i, chunk)|);
            h != END && Number(h) == |chunk| + OVERHEAD && OVERHEAD < Number(h) <= MAX_CIPHER_FRAME
  {
    HeaderReadsBack(|chunk| + OVERHEAD);
    EndIsZero();
  }

  lemma EndIsZero()
    ensures Number(END) == 0
  {
    assert Number([0]) == 0 && END[..3] == [0, 0, 0] && [0 as byte, 0, 0][..2] == [0, 0] && [0 as byte, 0][..1] == [0];
    assert Number([0, 0]) == 0;
    assert Number([0, 0, 0]) == 0;
  }
}
