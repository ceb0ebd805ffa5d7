/** The encrypted connection as an object (internal/secure/conn.go). */
module SecureConns {
  import opened Base
  import opened Bytes
  import opened Frames
  import opened SecureReads

  /** The raw connection: events still to come in, bytes that went out. */
  class RawConn {
    var incoming: seq<Event>
    var outgoing: seq<byte>

    constructor (incoming: seq<Event>)
      ensures this.incoming == incoming && outgoing == []
    {
      this.incoming := incoming;
      outgoing := [];
    }

    /** One raw read: at least one and at most `n` of the bytes that come next, or an error. */
    method Read(n: nat) returns (bytes: seq<byte>, err: Option<Error>)
      requires n > 0
      modifies this`incoming
      ensures err == None ==> 0 < |bytes| <= n && old(incoming) == Octets(bytes) + incoming
      ensures err != None ==> bytes == [] && incoming == old(incoming)[Min(1, |old(incoming)|)..]
      ensures err == Some(EOF) <==> old(incoming) == []
      ensures err != None && old(incoming) != [] ==> err == Some(RawError) && old(incoming)[0] == Fault
    {
      bytes, err := [], None;
      if incoming == [] {
        return [], Some(EOF);
      }
      if incoming[0] == Fault {
        incoming := incoming[1..];
        return [], Some(RawError);
      }
      var size: nat :| 0 < size <= n;
      while |bytes| < size && incoming != [] && incoming[0].Octet?
        invariant |bytes| <= size && old(incoming) == Octets(bytes) + incoming
        invariant |bytes| == 0 ==> incoming == old(incoming)
        decreases size - |bytes|
      {
        bytes, incoming := bytes + [incoming[0].b], incoming[1..];
      }
    }

    /** One raw write: all of the bytes, or an error and some of them. */
    method Write(bytes: seq<byte>) returns (ok: bool)
      modifies this`outgoing
      ensures ok ==> outgoing == old(outgoing) + bytes
      ensures !ok ==> exists k :: 0 <= k <= |bytes| && outgoing == old(outgoing) + bytes[..k]
    {
      var k :| 0 <= k <= |bytes|;
      outgoing := outgoing + bytes[..k];
      ok := k == |bytes|;
    }
  }

  /** The outcome when `got` was read before. */
  function Extend(got: seq<byte>, f: Full): Full {
    match f
    case Got(bytes) => Got(got + bytes)
    case Failed(e) => Failed(if got != [] && e == EOF then UnexpectedEOF else e)
  }

  lemma ExtendFirst(b: byte, got: seq<byte>, f: Full)
    ensures Extend([b] + got, f) ==
              match Extend(got, f)
              case Got(bytes) => Got([b] + bytes)
              case Failed(e) => Failed(if e == EOF then UnexpectedEOF else e)
  {
    if f.Got? {
      assert [b] + got + f.bytes == [b] + (got + f.bytes);
    }
  }

  lemma OctetsFirst(b: byte, got: seq<byte>, s: seq<Event>)
    ensures Octets([b] + got) + s == [Octet(b)] + (Octets(got) + s)
  {
  }

  lemma OctetsNone(s: seq<Event>)
    ensures Octets([]) + s == s
  {
  }

  lemma ExtendNone(f: Full)
    ensures Extend([], f) == f
  {
    if f.Got? {
      assert [] + f.bytes == f.bytes;
    }
  }

  lemma {:induction false} ReadFullOn(got: seq<byte>, s: seq<Event>, n: nat)
    requires |got| <= n
    ensures ReadFull(Octets(got) + s, n) == (ReadFull(s, n - |got|).0, Extend(got, ReadFull(s, n - |got|).1))
  {
    hide Octets, Extend;
    if got == [] {
      OctetsNone(s);
      ExtendNone(ReadFull(s, n).1);
    } else {
      var b, more := got[0], got[1..];
      assert got == [b] + more;
      ReadFullOn(more, s, n - 1);
      OctetsFirst(b, more, s);
      ExtendFirst(b, more, ReadFull(s, n - |got|).1);
      ReadFullFirst(b, Octets(more) + s, n);
    }
  }

  lemma ReadFullFirst(b: byte, s: seq<Event>, n: nat)
    requires n > 0
    ensures ReadFull([Octet(b)] + s, n) ==
              (ReadFull(s, n - 1).0,
               match ReadFull(s, n - 1).1
               case Got(bytes) => Got([b] + bytes)
               case Failed(e) => Failed(if e == EOF then UnexpectedEOF else e))
  {
    assert ([Octet(b)] + s)[1..] == s;
  }

  /** io.ReadFull over raw reads of any size. */
  method ReadFullRaw(raw: RawConn, n: nat) returns (full: Full)
    modifies raw`incoming
    ensures (raw.incoming, full) == ReadFull(old(raw.incoming), n)
  {
    hide Octets;
    var got: seq<byte> := [];
    ghost var was := raw.incoming;
    Joined([], [], was);
    while |got| < n
      invariant |got| <= n && was == Octets(got) + raw.incoming
      decreases n - |got|
    {
      ReadFullOn(got, raw.incoming, n);
      var bytes, err := raw.Read(n - |got|);
      if err != None {
        var e := err.value;
        if got != [] && e == EOF {
          e := UnexpectedEOF;
        }
        return Failed(e);
      }
      Joined(got, bytes, raw.incoming);
      got := got + bytes;
    }
    ReadFullOn(got, raw.incoming, n);
    full := Got(got);
    assert got + [] == got;
  }

  lemma Joined(got: seq<byte>, bytes: seq<byte>, rest: seq<Event>)
    ensures Octets(got + bytes) + rest == Octets(got) + (Octets(bytes) + rest)
    ensures got == [] ==> Octets(got) + rest == rest
  {
  }

  method Copy(p: array<byte>, from: seq<byte>, n: nat)
    requires n <= |from| && n <= p.Length
    modifies p
    ensures p[..n] == from[..n] && p[n..] == old(p[n..])
  {
    for i := 0 to n
      invariant p[..i] == from[..i] && p[n..] == old(p[n..])
    {
      p[i] := from[i];
    }
  }

  class Conn {
    const raw: RawConn
    const readAEAD: Cipher
    const writeAEAD: Cipher
    var readBuf: seq<byte>
    var readSeq: nat
    var writeSeq: nat
    var writeEOF: bool

    /** Every text sealed so far, and the nonce it was sealed under. */
    ghost var sealed: seq<seq<byte>>
    ghost var nonces: seq<seq<byte>>
    /** Whether some raw write has failed. */
    ghost var broken: bool

    constructor (raw: RawConn, readAEAD: Cipher, writeAEAD: Cipher)
      requires raw.outgoing == []
      ensures Valid() && View() == Reader(raw.incoming, [], 0)
      ensures sealed == [] && !writeEOF && !broken
      ensures this.raw == raw && this.readAEAD == readAEAD && this.writeAEAD == writeAEAD
    {
      this.raw := raw;
      this.readAEAD := readAEAD;
      this.writeAEAD := writeAEAD;
      readBuf, readSeq, writeSeq, writeEOF := [], 0, 0, false;
      sealed, nonces, broken := [], [], false;
    }

    ghost function View(): Reader
      reads this, raw
    {
      Reader(raw.incoming, readBuf, readSeq)
    }

    /**
     * The i-th seal used the i-th nonce, and until a raw write fails the wire holds the
     * frames of all sealed texts in order, with the end header behind them once it is sent.
     */
    ghost predicate Valid()
      reads this, raw
    {
      && writeSeq == |sealed| % COUNTER_SPAN
      && nonces == Nonces(|sealed|)
      && (!broken ==> raw.outgoing == Wire(writeAEAD, 0, sealed) + if writeEOF then END else [])
    }

    // -------------------------------------------------------------------------
    // Reading
    // -------------------------------------------------------------------------

    method Read(p: array<byte>) returns (n: nat, err: Option<Error>)
      modifies this`readBuf, this`readSeq, raw`incoming, p
      ensures n <= p.Length
      ensures (View(), if err == None then Data(p[..n]) else Err(err.value))
              == SecureReads.Read(readAEAD, old(View()), p.Length)
      ensures p[n..] == old(p[..])[n..] && (err != None ==> n == 0)
      ensures old(Valid()) ==> Valid()
    {
      hide SecureReads.ReadFrame;
      while readBuf == []
        modifies this`readBuf, this`readSeq, raw`incoming
        invariant SecureReads.Read(readAEAD, View(), p.Length) == SecureReads.Read(readAEAD, old(View()), p.Length)
        invariant old(Valid()) ==> Valid()
        decreases |raw.incoming|
      {
        var e := ReadFrame();
        if e != None {
          return 0, e;
        }
      }
      n := Min(p.Length, |readBuf|);
      Copy(p, readBuf, n);
      readBuf := readBuf[n..];
      return n, None;
    }

    method ReadFrame() returns (err: Option<Error>)
      modifies this`readBuf, this`readSeq, raw`incoming
      ensures (View(), err) == SecureReads.ReadFrame(readAEAD, old(View()))
      ensures old(Valid()) ==> Valid()
    {
      hide ReadFull, Number, Octets;
      var header := ReadFullRaw(raw, 4);
      if header.Failed? {
        return Some(header.error);
      }
      var size := Number(header.bytes);
      if size == 0 {
        return Some(EOF);
      }
      if size > MAX_CIPHER_FRAME {
        return Some(BadSize);
      }
      var text := ReadFullRaw(raw, size);
      if text.Failed? {
        return Some(text.error);
      }
      var plain := readAEAD.open(MakeNonce(readSeq), text.bytes);
      if plain == None {
        return Some(AuthFailed);
      }
      readSeq := (readSeq + 1) % COUNTER_SPAN;
      readBuf := plain.value;
      return None;
    }

    // -------------------------------------------------------------------------
    // Writing
    // -------------------------------------------------------------------------

    method WriteFrame(plain: seq<byte>) returns (ok: bool)
      requires Valid() && !writeEOF
      modifies this`writeSeq, this`sealed, this`nonces, this`broken, raw`outgoing
      ensures Valid() && sealed == old(sealed) + [plain]
      ensures broken == (old(broken) || !ok)
      ensures ok ==> raw.outgoing == old(raw.outgoing) + Frame(writeAEAD, |old(sealed)|, plain)
      ensures !ok ==> CutOff(raw.outgoing, old(raw.outgoing), Frame(writeAEAD, |old(sealed)|, plain))
    {
      hide Header, MakeNonce, Wire, Nonces;
      ghost var i := |sealed|;
      var nonce := MakeNonce(writeSeq);
      var text := writeAEAD.seal(nonce, plain);
      writeSeq := (writeSeq + 1) % COUNTER_SPAN;
      SealStep(writeAEAD, sealed, plain);
      sealed, nonces := sealed + [plain], nonces + [nonce];
      var header := Header(|text|);
      ok := raw.Write(header);
      if !ok {
        broken := true;
        return;
      }
      ok := raw.Write(text);
      if !ok {
        broken := true;
      }
    }

    method Write(p: seq<byte>) returns (n: nat, err: bool)
      requires Valid()
      modifies this`writeSeq, this`sealed, this`nonces, this`broken, raw`outgoing
      ensures Valid()
      ensures old(writeEOF) ==> n == 0 && err && sealed == old(sealed) && broken == old(broken)
      ensures old(writeEOF) ==> raw.outgoing == old(raw.outgoing)
      ensures !old(writeEOF) ==> broken == (old(broken) || err)
      ensures !err ==> n == |p| && sealed == old(sealed) + Chunks(p)
      ensures !err ==> raw.outgoing == old(raw.outgoing) + Wire(writeAEAD, |old(sealed)|, Chunks(p))
      ensures err && !old(writeEOF) ==>
                BrokeOff(writeAEAD, p, n, old(sealed), sealed, old(raw.outgoing), raw.outgoing)
    {
      if writeEOF {
        return 0, true;
      }
      hide Chunks, Wire, Frame, Concat, CutOff, Progress, BrokeOff, Valid, Sent, Min;
      ghost var before, was := sealed, raw.outgoing;
      ghost var done: seq<seq<byte>> := [];
      var rest := p;
      n := 0;
      NothingSent(writeAEAD, before, was, p);
      while |rest| > 0
        invariant Valid() && broken == old(broken) && !writeEOF
        invariant n == |p| - |rest| && Progress(p, done, rest)
        invariant Sent(writeAEAD, before, was, done, sealed, raw.outgoing)
        decreases |rest|
      {
        var chunk := FirstChunk(rest);
        NextChunk(p, done, rest, chunk);
        ghost var mid, out := sealed, raw.outgoing;
        var ok := WriteFrame(chunk);
        if !ok {
          BreakOff(writeAEAD, p, done, rest, chunk, before, was, mid, out, raw.outgoing);
          return n, true;
        }
        NextSent(writeAEAD, before, was, done, chunk, mid, out);
        n := n + |chunk|;
        rest := rest[|chunk|..];
        done := done + [chunk];
      }
      AllSent(writeAEAD, before, was, p, done, rest, sealed, raw.outgoing);
      return n, false;
    }

    method CloseWrite() returns (ok: bool)
      requires Valid()
      modifies this`writeEOF, this`broken, raw`outgoing
      ensures Valid() && writeEOF
      ensures old(writeEOF) ==> ok && raw.outgoing == old(raw.outgoing) && broken == old(broken)
      ensures !old(writeEOF) ==> broken == (old(broken) || !ok)
      ensures !old(writeEOF) ==> if ok then raw.outgoing == old(raw.outgoing) + END
                                 else CutOff(raw.outgoing, old(raw.outgoing), END)
    {
      if writeEOF {
        return true;
      }
      writeEOF := true;
      ok := raw.Write(END);
      if !ok {
        broken := true;
      }
    }
  }

  /** `now` is `before` with some beginning of `more` behind it. */
  ghost predicate CutOff(now: seq<byte>, before: seq<byte>, more: seq<byte>) {
    before <= now <= before + more
  }

  lemma SealStep(a: Cipher, sealed: seq<seq<byte>>, plain: seq<byte>)
    ensures MakeNonce(|sealed| % COUNTER_SPAN) == MakeNonce(|sealed|)
    ensures Nonces(|sealed| + 1) == Nonces(|sealed|) + [MakeNonce(|sealed|)]
    ensures Wire(a, 0, sealed + [plain]) == Wire(a, 0, sealed) + Frame(a, |sealed|, plain)
    ensures (|sealed| % COUNTER_SPAN + 1) % COUNTER_SPAN == (|sealed| + 1) % COUNTER_SPAN
  {
    hide *;
    SameNonce(|sealed|);
    NextNonce(|sealed|);
    NextFrame(a, sealed, plain);
    NextCounter(|sealed|);
  }

  lemma NextNonce(n: nat)
    ensures Nonces(n + 1) == Nonces(n) + [MakeNonce(n)]
  {
    hide MakeNonce;
  }

  lemma NextFrame(a: Cipher, sealed: seq<seq<byte>>, plain: seq<byte>)
    ensures Wire(a, 0, sealed + [plain]) == Wire(a, 0, sealed) + Frame(a, |sealed|, plain)
  {
    hide Frame;
    assert (sealed + [plain])[..|sealed|] == sealed;
  }

  lemma NextCounter(n: nat)
    ensures (n % COUNTER_SPAN + 1) % COUNTER_SPAN == (n + 1) % COUNTER_SPAN
  {
  }

  /** The chunks in `done` have gone out and `rest` is left; until the last, all are full. */
  ghost predicate Progress(p: seq<byte>, done: seq<seq<byte>>, rest: seq<byte>) {
    && Chunks(p) == done + Chunks(rest)
    && |Concat(done)| == |p| - |rest|
    && (rest != [] ==> |p| - |rest| == MAX_PLAIN_FRAME * |done|)
  }

  /**
   * A write that failed after `n` bytes: the full chunks before the failing one are
   * on the wire whole, the failing one was sealed and may be there in part, and
   * nothing after it was sealed.
   */
  ghost predicate BrokeOff(a: Cipher, p: seq<byte>, n: nat, sealed: seq<seq<byte>>, sealed': seq<seq<byte>>,
                           out: seq<byte>, out': seq<byte>) {
    var k := n / MAX_PLAIN_FRAME;
    && k < |Chunks(p)| && n == |Concat(Chunks(p)[..k])| == MAX_PLAIN_FRAME * k
    && sealed' == sealed + Chunks(p)[..k + 1]
    && CutOff(out', out + Wire(a, |sealed|, Chunks(p)[..k]), Frame(a, |sealed| + k, Chunks(p)[k]))
  }

  /** `done` was sealed after `before` and its frames are on the wire after `was`. */
  ghost predicate Sent(a: Cipher, before: seq<seq<byte>>, was: seq<byte>, done: seq<seq<byte>>,
                       sealed: seq<seq<byte>>, out: seq<byte>) {
    sealed == before + done && out == was + Wire(a, |before|, done)
  }

  method FirstChunk(rest: seq<byte>) returns (chunk: seq<byte>)
    requires rest != []
    ensures chunk == rest[..Min(|rest|, MAX_PLAIN_FRAME)] && 0 < |chunk| <= |rest|
  {
    chunk := rest;
    if |chunk| > MAX_PLAIN_FRAME {
      chunk := rest[..MAX_PLAIN_FRAME];
    }
  }

  lemma NothingSent(a: Cipher, before: seq<seq<byte>>, was: seq<byte>, p: seq<byte>)
    ensures Sent(a, before, was, [], before, was) && Progress(p, [], p)
  {
    assert [] + Chunks(p) == Chunks(p);
  }

  lemma FirstOfChunks(rest: seq<byte>, chunk: seq<byte>)
    requires rest != [] && chunk == rest[..Min(|rest|, MAX_PLAIN_FRAME)]
    ensures Chunks(rest) == [chunk] + Chunks(rest[|chunk|..])
    ensures |rest[|chunk|..]| == |rest| - |chunk|
    ensures rest[|chunk|..] != [] ==> |chunk| == MAX_PLAIN_FRAME
  {
  }

  lemma Middle<T>(all: seq<T>, done: seq<T>, x: T, more: seq<T>)
    requires all == done + ([x] + more)
    ensures all == done + [x] + more
    ensures |done| < |all| && all[..|done|] == done && all[|done|] == x
  {
  }

  lemma ConcatNext(done: seq<seq<byte>>, chunk: seq<byte>)
    ensures Concat(done + [chunk]) == Concat(done) + chunk
  {
    assert (done + [chunk])[..|done|] == done;
  }

  lemma NextChunk(p: seq<byte>, done: seq<seq<byte>>, rest: seq<byte>, chunk: seq<byte>)
    requires Progress(p, done, rest) && rest != [] && chunk == rest[..Min(|rest|, MAX_PLAIN_FRAME)]
    ensures Progress(p, done + [chunk], rest[|chunk|..])
    ensures |done| < |Chunks(p)| && Chunks(p)[..|done|] == done && Chunks(p)[|done|] == chunk
  {
    hide Chunks, Concat;
    FirstOfChunks(rest, chunk);
    Middle(Chunks(p), done, chunk, Chunks(rest[|chunk|..]));
    ConcatNext(done, chunk);
  }

  lemma NextSent(a: Cipher, before: seq<seq<byte>>, was: seq<byte>, done: seq<seq<byte>>, chunk: seq<byte>,
                 sealed: seq<seq<byte>>, out: seq<byte>)
    requires Sent(a, before, was, done, sealed, out)
    ensures Sent(a, before, was, done + [chunk], sealed + [chunk], out + Frame(a, |sealed|, chunk))
  {
    hide Frame;
    assert (done + [chunk])[..|done|] == done;
    var x, y := Wire(a, |before|, done), Frame(a, |sealed|, chunk);
    assert was + (x + y) == was + x + y;
  }

  lemma BreakOff(a: Cipher, p: seq<byte>, done: seq<seq<byte>>, rest: seq<byte>, chunk: seq<byte>,
                 before: seq<seq<byte>>, was: seq<byte>, sealed: seq<seq<byte>>, out: seq<byte>, now: seq<byte>)
    requires Progress(p, done, rest) && rest != []
    requires |done| < |Chunks(p)| && Chunks(p)[..|done|] == done && Chunks(p)[|done|] == chunk
    requires Sent(a, before, was, done, sealed, out) && CutOff(now, out, Frame(a, |sealed|, chunk))
    ensures BrokeOff(a, p, |p| - |rest|, before, sealed + [chunk], was, now)
  {
    hide Chunks, Wire, Frame, Concat, CutOff;
    assert (|p| - |rest|) / MAX_PLAIN_FRAME == |done|;
    assert Chunks(p)[..|done| + 1] == done + [chunk];
  }

  lemma AllSent(a: Cipher, before: seq<seq<byte>>, was: seq<byte>, p: seq<byte>, done: seq<seq<byte>>, rest: seq<byte>,
                sealed: seq<seq<byte>>, out: seq<byte>)
    requires Progress(p, done, rest) && rest == [] && Sent(a, before, was, done, sealed, out)
    ensures sealed == before + Chunks(p) && out == was + Wire(a, |before|, Chunks(p))
  {
    assert done + [] == done;
  }

  lemma SameNonce(i: nat)
    ensures MakeNonce(i % COUNTER_SPAN) == MakeNonce(i)
  {
  }
}
