/**
 * Reading the encrypted stream (internal/secure/conn.go): what any series of reads
 * delivers from any raw stream, and the round trip.
 */
module SecureReads {
  import opened Base
  import opened Bytes
  import opened Frames

  /** The raw stream as the reads find it: bytes, and read errors between them. */
  datatype Event = Octet(b: byte) | Fault

  datatype Error = EOF | UnexpectedEOF | RawError | BadSize | AuthFailed

  datatype Full = Got(bytes: seq<byte>) | Failed(error: Error)

  /** io.ReadFull: exactly `n` bytes, or an error and the bytes before it lost. */
  function ReadFull(stream: seq<Event>, n: nat): (r: (seq<Event>, Full))
    ensures |r.0| <= |stream|
    ensures r.1.Got? ==> |r.1.bytes| == n && |r.0| == |stream| - n
  {
    if n == 0 then (stream, Got([]))
    else if stream == [] then ([], Failed(EOF))
    else if stream[0] == Fault then (stream[1..], Failed(RawError))
    else
      var (rest, tail) := ReadFull(stream[1..], n - 1);
      match tail
      case Got(bytes) => (rest, Got([stream[0].b] + bytes))
      case Failed(e) => (rest, Failed(if e == EOF then UnexpectedEOF else e))
  }

  /** The reading half of a connection. */
  datatype Reader = Reader(stream: seq<Event>, buf: seq<byte>, counter: nat)

  function ReadFrame(a: Cipher, r: Reader): (x: (Reader, Option<Error>))
    ensures |x.0.stream| <= |r.stream|
    ensures x.1 == None ==> |x.0.stream| < |r.stream|
  {
    var (s1, header) := ReadFull(r.stream, 4);
    match header
    case Failed(e) => (r.(stream := s1), Some(e))
    case Got(h) =>
      var size := Number(h);
      if size == 0 then (r.(stream := s1), Some(EOF))
      else if size > MAX_CIPHER_FRAME then (r.(stream := s1), Some(BadSize))
      else
        var (s2, text) := ReadFull(s1, size);
        match text
        case Failed(e) => (r.(stream := s2), Some(e))
        case Got(c) =>
          match a.open(MakeNonce(r.counter), c)
          case None => (r.(stream := s2), Some(AuthFailed))
          case Some(plain) => (Reader(s2, plain, (r.counter + 1) % COUNTER_SPAN), None)
  }

  datatype Outcome = Data(bytes: seq<byte>) | Err(error: Error)

  /** One Read into a buffer of `n` bytes. */
  function Read(a: Cipher, r: Reader, n: nat): (Reader, Outcome)
    decreases |r.stream|
  {
    if r.buf != [] then
      var k := Min(n, |r.buf|);
      (r.(buf := r.buf[k..]), Data(r.buf[..k]))
    else
      var (r', e) := ReadFrame(a, r);
      if e.Some? then (r', Err(e.value)) else Read(a, r', n)
  }

  /** A series of Reads, going on after errors. */
  function Reads(a: Cipher, r: Reader, sizes: seq<nat>): (x: (Reader, seq<Outcome>))
    ensures |x.1| == |sizes|
  {
    if sizes == [] then (r, [])
    else
      var n := |sizes| - 1;
      var (r1, outs) := Reads(a, r, sizes[..n]);
      var (r2, out) := Read(a, r1, sizes[n]);
      (r2, outs + [out])
  }

  function Delivered(outs: seq<Outcome>): seq<byte> {
    if outs == [] then []
    else
      var n := |outs| - 1;
      Delivered(outs[..n]) + if outs[n].Data? then outs[n].bytes else []
  }

  // ---------------------------------------------------------------------------
  // Nothing but a prefix, whatever comes in
  // ---------------------------------------------------------------------------

  /** What was delivered and what is buffered are the first texts the peer sealed, one per accepted frame. */
  ghost predicate OnTrack(sealed: seq<seq<byte>>, r: Reader, delivered: seq<byte>) {
    r.counter <= |sealed| && delivered + r.buf == Concat(sealed[..r.counter])
  }

  /** A frame is accepted only by opening it under the nonce of the counter; otherwise nothing but the stream moves. */
  lemma FrameOpens(a: Cipher, r: Reader)
    ensures var (r', e) := ReadFrame(a, r);
            if e == None then
              r'.counter == (r.counter + 1) % COUNTER_SPAN
              && exists text :: a.open(MakeNonce(r.counter), text) == Some(r'.buf)
            else r'.counter == r.counter && r'.buf == r.buf
  {
    hide ReadFull, Number, MakeNonce;
  }

  lemma IdealOpen(a: Cipher, sealed: seq<seq<byte>>, i: nat, text: seq<byte>)
    requires Ideal(a, sealed) && |sealed| < COUNTER_SPAN && i < COUNTER_SPAN && a.open(MakeNonce(i), text).Some?
    ensures i < |sealed| && a.open(MakeNonce(i), text).value == sealed[i]
  {
    var j: nat :| j < |sealed| && MakeNonce(i) == MakeNonce(j) && a.open(MakeNonce(i), text).value == sealed[j];
    NonceInjective(i, j);
  }

  lemma FrameKeepsTrack(a: Cipher, sealed: seq<seq<byte>>, r: Reader, delivered: seq<byte>)
    requires Ideal(a, sealed) && |sealed| < COUNTER_SPAN && OnTrack(sealed, r, delivered) && r.buf == []
    ensures OnTrack(sealed, ReadFrame(a, r).0, delivered)
  {
    hide ReadFrame, MakeNonce, Ideal;
    FrameOpens(a, r);
    var (r', e) := ReadFrame(a, r);
    if e == None {
      var text :| a.open(MakeNonce(r.counter), text) == Some(r'.buf);
      IdealOpen(a, sealed, r.counter, text);
      assert sealed[..r.counter + 1][..r.counter] == sealed[..r.counter];
      assert delivered + [] == delivered;
    }
  }

  lemma {:induction false} ReadKeepsTrack(a: Cipher, sealed: seq<seq<byte>>, r: Reader, n: nat, delivered: seq<byte>)
    requires Ideal(a, sealed) && |sealed| < COUNTER_SPAN && OnTrack(sealed, r, delivered)
    ensures var (r', out) := Read(a, r, n);
            OnTrack(sealed, r', delivered + if out.Data? then out.bytes else [])
    decreases |r.stream|
  {
    hide ReadFrame, Ideal;
    if r.buf != [] {
      var k := Min(n, |r.buf|);
      assert delivered + r.buf[..k] + r.buf[k..] == delivered + r.buf;
    } else {
      FrameKeepsTrack(a, sealed, r, delivered);
      var (r', e) := ReadFrame(a, r);
      if e == None {
        ReadKeepsTrack(a, sealed, r', n, delivered);
      } else {
        assert delivered + [] == delivered;
      }
    }
  }

  lemma {:induction false} ReadsKeepTrack(a: Cipher, sealed: seq<seq<byte>>, stream: seq<Event>, sizes: seq<nat>)
    requires Ideal(a, sealed) && |sealed| < COUNTER_SPAN
    ensures var (r', outs) := Reads(a, Reader(stream, [], 0), sizes);
            OnTrack(sealed, r', Delivered(outs))
  {
    hide Read, Ideal;
    if sizes != [] {
      var n := |sizes| - 1;
      var (r1, outs) := Reads(a, Reader(stream, [], 0), sizes[..n]);
      ReadsKeepTrack(a, sealed, stream, sizes[..n]);
      ReadKeepsTrack(a, sealed, r1, sizes[n], Delivered(outs));
      var out := Read(a, r1, sizes[n]).1;
      assert (outs + [out])[..n] == outs;
    }
  }

  /**
   * With an ideal cipher, whatever bytes and faults arrive and however often reading
   * goes on after an error, the bytes delivered are a prefix of what the peer sealed.
   */
  lemma DeliveredIsPrefix(a: Cipher, sealed: seq<seq<byte>>, stream: seq<Event>, sizes: seq<nat>)
    requires Ideal(a, sealed) && |sealed| < COUNTER_SPAN
    ensures Delivered(Reads(a, Reader(stream, [], 0), sizes).1) <= Concat(sealed)
  {
    hide Ideal, Reads, Delivered, Concat;
    var (r', outs) := Reads(a, Reader(stream, [], 0), sizes);
    ReadsKeepTrack(a, sealed, stream, sizes);
    var first, rest := sealed[..r'.counter], sealed[r'.counter..];
    assert first + rest == sealed;
    ConcatAppend(first, rest);
    BeginsWith(Delivered(outs), r'.buf, Concat(rest), Concat(sealed));
  }

  lemma BeginsWith(x: seq<byte>, y: seq<byte>, z: seq<byte>, all: seq<byte>)
    requires all == (x + y) + z
    ensures x <= all
  {
    Regroup(x, y, z);
    IsPrefix(x, y + z);
  }

  // ---------------------------------------------------------------------------
  // The round trip
  // ---------------------------------------------------------------------------

  function Octets(bytes: seq<byte>): seq<Event> {
    seq(|bytes|, i requires 0 <= i < |bytes| => Octet(bytes[i]))
  }

  lemma {:induction false} ReadFullOctets(bytes: seq<byte>, rest: seq<Event>)
    ensures ReadFull(Octets(bytes) + rest, |bytes|) == (rest, Got(bytes))
  {
    var s := Octets(bytes) + rest;
    if bytes == [] {
      assert s == rest;
    } else {
      ReadFullOctets(bytes[1..], rest);
      assert s[1..] == Octets(bytes[1..]) + rest;
      assert bytes == [bytes[0]] + bytes[1..];
    }
  }

  /** Still to be read from the stream: the frames of `todo`, and behind them what makes a read fail with `e`. */
  ghost predicate Ahead(a: Cipher, r: Reader, todo: seq<seq<byte>>, tail: seq<Event>, e: Error) {
    && r.stream == Octets(Wire(a, r.counter, todo)) + tail
    && ReadFrame(a, Reader(tail, [], r.counter + |todo|)).1 == Some(e)
    && r.counter + |todo| < COUNTER_SPAN
    && Tagged(a)
    && forall i: nat | i < |todo| ::
         Fitting(todo[i]) && a.open(MakeNonce(r.counter + i), SealAt(a, r.counter + i, todo[i])) == Some(todo[i])
  }

  lemma TextLength(a: Cipher, i: nat, chunk: seq<byte>)
    requires Tagged(a)
    ensures |SealAt(a, i, chunk)| == |chunk| + OVERHEAD && |Header(|chunk| + OVERHEAD)| == 4
  {
  }

  lemma OneFrame(a: Cipher, i: nat, chunk: seq<byte>, buf: seq<byte>, after: seq<Event>)
    requires Tagged(a) && Fitting(chunk) && i + 1 < COUNTER_SPAN
    requires a.open(MakeNonce(i), SealAt(a, i, chunk)) == Some(chunk)
    ensures ReadFrame(a, Reader(Octets(Frame(a, i, chunk)) + after, buf, i)) == (Reader(after, chunk, i + 1), None)
  {
    hide ReadFull, SealAt, Header, MakeNonce, Number;
    var text := SealAt(a, i, chunk);
    var h := Header(|text|);
    DataHeader(a, i, chunk);
    TextLength(a, i, chunk);
    assert Octets(Frame(a, i, chunk)) + after == Octets(h) + (Octets(text) + after);
    ReadFullOctets(h, Octets(text) + after);
    ReadFullOctets(text, after);
  }

  lemma EndFrame(a: Cipher, i: nat, buf: seq<byte>, after: seq<Event>)
    ensures ReadFrame(a, Reader(Octets(END) + after, buf, i)) == (Reader(after, buf, i), Some(EOF))
  {
    ReadFullOctets(END, after);
    EndIsZero();
    hide ReadFull;
  }

  lemma OpensAt(a: Cipher, r: Reader, todo: seq<seq<byte>>, tail: seq<Event>, e: Error, j: nat)
    requires Ahead(a, r, todo, tail, e) && j < |todo|
    ensures Fitting(todo[j])
    ensures a.open(MakeNonce(r.counter + j), SealAt(a, r.counter + j, todo[j])) == Some(todo[j])
  {
  }

  lemma SplitStream(a: Cipher, r: Reader, todo: seq<seq<byte>>, tail: seq<Event>, e: Error)
    requires Ahead(a, r, todo, tail, e) && todo != []
    ensures r.stream == Octets(Frame(a, r.counter, todo[0])) + (Octets(Wire(a, r.counter + 1, todo[1..])) + tail)
  {
    hide Frame, Wire, Octets;
    WireFirst(a, r.counter, todo);
    SplitOctets(Frame(a, r.counter, todo[0]), Wire(a, r.counter + 1, todo[1..]), tail);
  }

  lemma SplitOctets(x: seq<byte>, y: seq<byte>, tail: seq<Event>)
    ensures Octets(x + y) + tail == Octets(x) + (Octets(y) + tail)
  {
  }

  lemma FrameAhead(a: Cipher, r: Reader, todo: seq<seq<byte>>, tail: seq<Event>, e: Error)
    requires Ahead(a, r, todo, tail, e) && todo != []
    ensures var (r', x) := ReadFrame(a, r);
            x == None && r'.buf == todo[0] && Ahead(a, r', todo[1..], tail, e)
  {
    hide ReadFrame, Frame, Wire, SealAt, MakeNonce, Octets;
    var i := r.counter;
    SplitStream(a, r, todo, tail, e);
    OpensAt(a, r, todo, tail, e, 0);
    var after := Octets(Wire(a, i + 1, todo[1..])) + tail;
    OneFrame(a, i, todo[0], r.buf, after);
    forall j: nat | j < |todo[1..]|
      ensures Fitting(todo[1..][j])
      ensures a.open(MakeNonce(i + 1 + j), SealAt(a, i + 1 + j, todo[1..][j])) == Some(todo[1..][j])
    {
      OpensAt(a, r, todo, tail, e, j + 1);
      assert i + (j + 1) == i + 1 + j && todo[1..][j] == todo[j + 1];
    }
  }

  /** While something is left a Read delivers some of it; then it reports what stands behind. */
  lemma ReadAhead(a: Cipher, r: Reader, todo: seq<seq<byte>>, tail: seq<Event>, e: Error, n: nat)
    returns (todo': seq<seq<byte>>)
    requires Ahead(a, r, todo, tail, e) && n > 0
    ensures var (r', out) := Read(a, r, n);
            if r.buf + Concat(todo) == [] then out == Err(e)
            else
              && out.Data? && 0 < |out.bytes| <= n
              && Ahead(a, r', todo', tail, e)
              && r.buf + Concat(todo) == out.bytes + (r'.buf + Concat(todo'))
  {
    hide Ahead, ReadFrame, Octets, Wire;
    if r.buf != [] {
      todo' := todo;
      var k := Min(n, |r.buf|);
      AheadBuf(a, r, todo, tail, e, r.buf[k..]);
      assert r.buf + Concat(todo) == r.buf[..k] + (r.buf[k..] + Concat(todo));
    } else if todo == [] {
      todo' := [];
      AheadEnd(a, r, tail, e);
    } else {
      todo' := todo[1..];
      FrameAhead(a, r, todo, tail, e);
      var r1 := ReadFrame(a, r).0;
      var k := Min(n, |r1.buf|);
      AheadFits(a, r, todo, tail, e);
      AheadBuf(a, r1, todo', tail, e, r1.buf[k..]);
      ConcatFirst(todo);
      hide Concat;
      assert r1.buf + Concat(todo') == r1.buf[..k] + (r1.buf[k..] + Concat(todo'));
    }
  }

  lemma AheadBuf(a: Cipher, r: Reader, todo: seq<seq<byte>>, tail: seq<Event>, e: Error, buf: seq<byte>)
    requires Ahead(a, r, todo, tail, e)
    ensures Ahead(a, r.(buf := buf), todo, tail, e)
  {
    hide ReadFrame, Octets, Wire, SealAt, MakeNonce, Fitting, Tagged;
  }

  lemma AheadFits(a: Cipher, r: Reader, todo: seq<seq<byte>>, tail: seq<Event>, e: Error)
    requires Ahead(a, r, todo, tail, e) && todo != []
    ensures todo[0] != []
  {
  }

  lemma AheadEnd(a: Cipher, r: Reader, tail: seq<Event>, e: Error)
    requires Ahead(a, r, [], tail, e)
    ensures r.stream == tail && (r.buf == [] ==> ReadFrame(a, r).1 == Some(e))
  {
    assert Octets(Wire(a, r.counter, [])) == [];
  }

  predicate NonEmpty(sizes: seq<nat>) {
    forall i | 0 <= i < |sizes| :: sizes[i] > 0
  }

  /** The first `k` reads each delivered something that fits. */
  ghost predicate AllData(sizes: seq<nat>, outs: seq<Outcome>, k: nat) {
    k <= |outs| == |sizes| && forall i: nat | i < k :: outs[i].Data? && 0 < |outs[i].bytes| <= sizes[i]
  }

  /** Reads that start with the whole of `all` ahead: data first, all of it, then `e`. */
  ghost predicate Delivers(all: seq<byte>, sizes: seq<nat>, outs: seq<Outcome>, k: nat, e: Error) {
    && AllData(sizes, outs, k)
    && Delivered(outs[..k]) <= all
    && (k < |outs| ==> Delivered(outs[..k]) == all && outs[k] == Err(e))
  }

  lemma AllDataNext(sizes: seq<nat>, outs: seq<Outcome>, k: nat, size: nat, out: Outcome)
    requires AllData(sizes, outs, k)
    ensures AllData(sizes + [size], outs + [out], k)
    ensures k == |outs| && out.Data? && 0 < |out.bytes| <= size ==> AllData(sizes + [size], outs + [out], k + 1)
  {
  }

  lemma DeliveredNext(outs: seq<Outcome>, out: Outcome)
    ensures Delivered(outs + [out]) == Delivered(outs) + if out.Data? then out.bytes else []
  {
    assert (outs + [out])[..|outs|] == outs;
  }

  lemma DeliversLater(all: seq<byte>, sizes: seq<nat>, outs: seq<Outcome>, k: nat, e: Error, size: nat, out: Outcome)
    requires Delivers(all, sizes, outs, k, e) && k < |outs|
    ensures Delivers(all, sizes + [size], outs + [out], k, e)
  {
    hide Delivered, AllData;
    AllDataCount(sizes, outs, k);
    AllDataNext(sizes, outs, k, size, out);
    assert (outs + [out])[..k] == outs[..k];
  }

  lemma TakeAll<T>(s: seq<T>, x: T)
    ensures s[..|s|] == s && (s + [x])[..|s|] == s && (s + [x])[..|s| + 1] == s + [x]
  {
  }

  lemma DeliversEnd(all: seq<byte>, sizes: seq<nat>, outs: seq<Outcome>, e: Error, size: nat)
    requires Delivers(all, sizes, outs, |outs|, e) && all == Delivered(outs)
    ensures Delivers(all, sizes + [size], outs + [Err(e)], |outs|, e)
  {
    hide Delivered, AllData;
    AllDataCount(sizes, outs, |outs|);
    AllDataNext(sizes, outs, |outs|, size, Err(e));
    TakeAll(outs, Err(e));
  }

  lemma DeliversData(all: seq<byte>, sizes: seq<nat>, outs: seq<Outcome>, e: Error, size: nat,
                     bytes: seq<byte>, left: seq<byte>)
    requires Delivers(all, sizes, outs, |outs|, e) && all == Delivered(outs) + (bytes + left)
    requires 0 < |bytes| <= size
    ensures Delivers(all, sizes + [size], outs + [Data(bytes)], |outs| + 1, e)
  {
    hide Delivered, AllData;
    TakeAll(outs, Data(bytes));
    DeliveredNext(outs, Data(bytes));
    AllDataNext(sizes, outs, |outs|, size, Data(bytes));
    AllDataCount(sizes, outs, |outs|);
    Regroup(Delivered(outs), bytes, left);
    IsPrefix(Delivered(outs) + bytes, left);
  }

  lemma AllDataCount(sizes: seq<nat>, outs: seq<Outcome>, k: nat)
    requires AllData(sizes, outs, k)
    ensures k <= |outs| == |sizes|
  {
  }

  lemma IsPrefix<T>(x: seq<T>, y: seq<T>)
    ensures x <= x + y
  {
  }

  lemma {:induction false} ReadsAhead(a: Cipher, r: Reader, todo: seq<seq<byte>>, tail: seq<Event>, e: Error,
                                      sizes: seq<nat>)
    returns (k: nat, r': Reader, todo': seq<seq<byte>>)
    requires Ahead(a, r, todo, tail, e) && r.buf == [] && NonEmpty(sizes)
    ensures Delivers(Concat(todo), sizes, Reads(a, r, sizes).1, k, e)
    ensures k == |sizes| ==> r' == Reads(a, r, sizes).0 && Ahead(a, r', todo', tail, e)
    ensures k == |sizes| ==> Concat(todo) == Delivered(Reads(a, r, sizes).1) + (r'.buf + Concat(todo'))
  {
    hide Ahead, Read, Delivers, Delivered, Concat;
    if sizes == [] {
      k, r', todo' := 0, r, todo;
      NoReads(Concat(todo), e);
    } else {
      var n := |sizes| - 1;
      assert sizes == sizes[..n] + [sizes[n]];
      var (r1, outs) := Reads(a, r, sizes[..n]);
      k, r', todo' := ReadsAhead(a, r, todo, tail, e, sizes[..n]);
      var (r2, out) := Read(a, r1, sizes[n]);
      DeliversBound(Concat(todo), sizes[..n], outs, k, e);
      if k < n {
        DeliversLater(Concat(todo), sizes[..n], outs, k, e, sizes[n], out);
      } else {
        var left := r1.buf + Concat(todo');
        todo' := ReadAhead(a, r1, todo', tail, e, sizes[n]);
        if left == [] {
          DeliversEnd(Concat(todo), sizes[..n], outs, e, sizes[n]);
        } else {
          DeliversData(Concat(todo), sizes[..n], outs, e, sizes[n], out.bytes, r2.buf + Concat(todo'));
          k, r' := n + 1, r2;
          DeliveredNext(outs, out);
          Regroup(Delivered(outs), out.bytes, r2.buf + Concat(todo'));
        }
      }
    }
  }

  lemma DeliversBound(all: seq<byte>, sizes: seq<nat>, outs: seq<Outcome>, k: nat, e: Error)
    requires Delivers(all, sizes, outs, k, e)
    ensures k <= |outs| == |sizes|
  {
  }

  lemma NoReads(all: seq<byte>, e: Error)
    ensures Delivers(all, [], [], 0, e) && all == Delivered([]) + ([] + all)
  {
  }

  lemma {:induction false} DeliveredGrows(outs: seq<Outcome>)
    requires forall i: nat | i < |outs| :: outs[i].Data? && outs[i].bytes != []
    ensures |Delivered(outs)| >= |outs|
  {
    if outs != [] {
      DeliveredGrows(outs[..|outs| - 1]);
    }
  }

  /**
   * Frames that open, and behind them what makes a read fail: every frame is accepted, the
   * data comes out whole and in order with no empty read, and then that error is reported,
   * at the latest by the read after one read per byte.
   */
  lemma UpToTheError(a: Cipher, chunks: seq<seq<byte>>, tail: seq<Event>, e: Error, sizes: seq<nat>) returns (k: nat)
    requires Correct(a, chunks) && |chunks| < COUNTER_SPAN
    requires (forall c <- chunks :: Fitting(c)) && NonEmpty(sizes)
    requires ReadFrame(a, Reader(tail, [], |chunks|)).1 == Some(e)
    ensures Delivers(Concat(chunks), sizes, Reads(a, Reader(Octets(Wire(a, 0, chunks)) + tail, [], 0), sizes).1, k, e)
    ensures |sizes| > |Concat(chunks)| ==> k < |sizes|
  {
    hide Reads, Ahead, Delivered, Octets, Wire;
    var r := Reader(Octets(Wire(a, 0, chunks)) + tail, [], 0);
    AllAhead(a, chunks, tail, e);
    var r', todo';
    k, r', todo' := ReadsAhead(a, r, chunks, tail, e, sizes);
    DeliveredGrows(Reads(a, r, sizes).1[..k]);
  }

  lemma AllAhead(a: Cipher, chunks: seq<seq<byte>>, tail: seq<Event>, e: Error)
    requires Correct(a, chunks) && |chunks| < COUNTER_SPAN && forall c <- chunks :: Fitting(c)
    requires ReadFrame(a, Reader(tail, [], |chunks|)).1 == Some(e)
    ensures Ahead(a, Reader(Octets(Wire(a, 0, chunks)) + tail, [], 0), chunks, tail, e)
  {
    hide SealAt, MakeNonce, Octets, Wire, ReadFrame;
    forall i: nat | i < |chunks|
      ensures a.open(MakeNonce(0 + i), SealAt(a, 0 + i, chunks[i])) == Some(chunks[i])
    {
      assert 0 + i == i;
    }
  }

  /** Whatever was written in whatever pieces and however the reader sizes its reads: all of it, and then the end. */
  lemma RoundTrip(a: Cipher, chunks: seq<seq<byte>>, rest: seq<Event>, sizes: seq<nat>)
    requires Correct(a, chunks) && |chunks| < COUNTER_SPAN
    requires (forall c <- chunks :: Fitting(c)) && NonEmpty(sizes)
    ensures var outs := Reads(a, Reader(Octets(Wire(a, 0, chunks) + END) + rest, [], 0), sizes).1;
            exists k: nat :: Delivers(Concat(chunks), sizes, outs, k, EOF)
                             && (|sizes| > |Concat(chunks)| ==> k < |sizes|)
  {
    hide Reads, ReadFrame, Octets, Wire;
    EndFrame(a, |chunks|, [], rest);
    var k := UpToTheError(a, chunks, Octets(END) + rest, EOF, sizes);
    SplitOctets(Wire(a, 0, chunks), END, rest);
  }

  /** The chunks of a series of writes. */
  function AllChunks(writes: seq<seq<byte>>): seq<seq<byte>> {
    if writes == [] then []
    else AllChunks(writes[..|writes| - 1]) + Chunks(writes[|writes| - 1])
  }

  lemma {:induction false} AllChunksWhole(writes: seq<seq<byte>>)
    ensures Concat(AllChunks(writes)) == Concat(writes)
    ensures forall c <- AllChunks(writes) :: Fitting(c)
  {
    hide Chunks;
    if writes != [] {
      var n := |writes| - 1;
      AllChunksWhole(writes[..n]);
      ChunksWhole(writes[n]);
      ConcatAppend(AllChunks(writes[..n]), Chunks(writes[n]));
    }
  }

  /** The round trip of any series of writes, empty ones included, and a CloseWrite. */
  lemma SessionRoundTrip(a: Cipher, writes: seq<seq<byte>>, rest: seq<Event>, sizes: seq<nat>)
    requires Correct(a, AllChunks(writes)) && |AllChunks(writes)| < COUNTER_SPAN && NonEmpty(sizes)
    ensures var outs := Reads(a, Reader(Octets(Wire(a, 0, AllChunks(writes)) + END) + rest, [], 0), sizes).1;
            exists k: nat :: Delivers(Concat(writes), sizes, outs, k, EOF)
                             && (|sizes| > |Concat(writes)| ==> k < |sizes|)
  {
    hide Correct, Reads, Octets, Wire, AllChunks, Concat;
    AllChunksWhole(writes);
    RoundTrip(a, AllChunks(writes), rest, sizes);
  }
}
