/**
 * Which error a read reports (internal/secure/conn.go): each error from the events that
 * were consumed, both ways, and what a stream that is cut off or fails reports in the end.
 */
module SecureErrors {
  import opened Base
  import opened Bytes
  import opened Frames
  import opened SecureReads

  predicate AllOctets(events: seq<Event>) {
    forall i | 0 <= i < |events| :: events[i].Octet?
  }

  function Plain(events: seq<Event>): seq<byte>
    requires AllOctets(events)
  {
    seq<byte>(|events|, i requires 0 <= i < |events| => events[i].b)
  }

  /** A full header that announces a text of allowed size. */
  predicate Announces(events: seq<Event>) {
    |events| == 4 && AllOctets(events) && 0 < Number(Plain(events)) <= MAX_CIPHER_FRAME
  }

  /** A frame that has begun and is not whole. */
  predicate Short(events: seq<Event>) {
    && AllOctets(events)
    && (|events| < 4 || (Announces(events[..4]) && |events| < 4 + Number(Plain(events[..4]))))
  }

  predicate Whole(events: seq<Event>) {
    && AllOctets(events) && |events| >= 4
    && Announces(events[..4]) && |events| == 4 + Number(Plain(events[..4]))
  }

  /** The text of a whole frame, opened under the nonce of the counter. */
  function Opened(a: Cipher, counter: nat, events: seq<Event>): Option<seq<byte>>
    requires Whole(events)
  {
    a.open(MakeNonce(counter), Plain(events[4..]))
  }

  /** The stream ended at the start of a frame, or right behind the header of one. */
  predicate CleanCut(eaten: seq<Event>) {
    eaten == [] || Announces(eaten)
  }

  /** What was eaten, and whether the stream ran out, when a frame is read with this outcome. */
  predicate Because(a: Cipher, counter: nat, eaten: seq<Event>, out: bool, outcome: Option<Error>) {
    match outcome
    case None => Whole(eaten) && Opened(a, counter, eaten).Some?
    case Some(AuthFailed) => Whole(eaten) && Opened(a, counter, eaten).None?
    case Some(BadSize) => |eaten| == 4 && AllOctets(eaten) && Number(Plain(eaten)) > MAX_CIPHER_FRAME
    case Some(RawError) => eaten != [] && eaten[|eaten| - 1] == Fault
    case Some(EOF) => eaten == Octets(END) || (out && CleanCut(eaten))
    case Some(UnexpectedEOF) => out && Short(eaten) && !CleanCut(eaten)
  }

  lemma PlainBack(events: seq<Event>)
    requires AllOctets(events)
    ensures Octets(Plain(events)) == events
  {
  }

  /** What a full read of `n` bytes has eaten, and what it left. */
  predicate Ate(n: nat, eaten: seq<Event>, rest: seq<Event>, full: Full) {
    && |eaten| <= n
    && (full.Got? ==> AllOctets(eaten) && Plain(eaten) == full.bytes && |eaten| == n)
    && (full == Failed(RawError) ==> eaten != [] && eaten[|eaten| - 1] == Fault)
    && (full.Failed? && full.error != RawError ==>
          AllOctets(eaten) && |eaten| < n && rest == []
          && full.error == if eaten == [] then EOF else UnexpectedEOF)
  }

  lemma AteOne(e: Event, n: nat, eaten: seq<Event>, rest: seq<Event>, full: Full)
    requires Ate(n, eaten, rest, full) && e.Octet?
    ensures full.Got? ==> Ate(n + 1, [e] + eaten, rest, Got([e.b] + full.bytes))
    ensures full.Failed? ==>
              Ate(n + 1, [e] + eaten, rest, Failed(if full.error == EOF then UnexpectedEOF else full.error))
  {
    if full.Got? {
      assert Plain([e] + eaten) == [e.b] + full.bytes;
    }
  }

  lemma NothingRead(stream: seq<Event>, n: nat)
    requires n == 0 || stream == [] || stream[0] == Fault
    ensures var (rest, full) := ReadFull(stream, n); var eaten := stream[..|stream| - |rest|];
            stream == eaten + rest && Ate(n, eaten, rest, full)
  {
    if n > 0 && stream != [] {
      assert stream == [Fault] + stream[1..];
    }
  }

  lemma OneMore(stream: seq<Event>, eaten: seq<Event>, rest: seq<Event>)
    requires stream != [] && stream[1..] == eaten + rest
    ensures stream == [stream[0]] + eaten + rest && stream[..|stream| - |rest|] == [stream[0]] + eaten
  {
    assert stream == [stream[0]] + stream[1..];
  }

  lemma {:induction false} FullReadEats(stream: seq<Event>, n: nat)
    ensures var (rest, full) := ReadFull(stream, n); var eaten := stream[..|stream| - |rest|];
            stream == eaten + rest && Ate(n, eaten, rest, full)
  {
    hide Ate;
    if n == 0 || stream == [] || stream[0] == Fault {
      hide ReadFull;
      NothingRead(stream, n);
    } else {
      FullReadEats(stream[1..], n - 1);
      var (rest, tail) := ReadFull(stream[1..], n - 1);
      var eaten := stream[1..][..|stream[1..]| - |rest|];
      AteOne(stream[0], n - 1, eaten, rest, tail);
      OneMore(stream, eaten, rest);
    }
  }

  /** A frame that could not be read whole, from what the two full reads ate. */
  lemma HeaderFails(a: Cipher, r: Reader)
    requires ReadFull(r.stream, 4).1.Failed?
    ensures var (r', e) := ReadFrame(a, r);
            e.Some? && Because(a, r.counter, r.stream[..|r.stream| - |r'.stream|], r'.stream == [], e)
  {
    hide ReadFull, Number;
    FullReadEats(r.stream, 4);
  }

  lemma HeaderRead(a: Cipher, r: Reader, h: seq<byte>)
    requires ReadFull(r.stream, 4).1 == Got(h) && (Number(h) == 0 || Number(h) > MAX_CIPHER_FRAME)
    ensures var (r', e) := ReadFrame(a, r);
            e.Some? && Because(a, r.counter, r.stream[..|r.stream| - |r'.stream|], r'.stream == [], e)
  {
    hide ReadFull, Number;
    FullReadEats(r.stream, 4);
    if Number(h) == 0 {
      ZeroIsEnd(h);
      PlainBack(r.stream[..4]);
      assert r.stream[..4] == Octets(h);
    }
  }

  lemma ZeroIsEnd(h: seq<byte>)
    requires |h| == 4 && Number(h) == 0
    ensures h == END
  {
    assert Number(h) == 256 * Number(h[..3]) + h[3];
    assert Number(h[..3]) == 256 * Number(h[..3][..2]) + h[2];
    assert Number(h[..3][..2]) == 256 * Number(h[..3][..2][..1]) + h[1];
  }

  lemma TextRead(a: Cipher, r: Reader, h: seq<byte>)
    requires ReadFull(r.stream, 4).1 == Got(h) && 0 < Number(h) <= MAX_CIPHER_FRAME
    ensures var (r', e) := ReadFrame(a, r);
            Because(a, r.counter, r.stream[..|r.stream| - |r'.stream|], r'.stream == [], e)
  {
    hide ReadFull, Number, MakeNonce;
    FullReadEats(r.stream, 4);
    var s1 := ReadFull(r.stream, 4).0;
    FullReadEats(s1, Number(h));
    var (s2, text) := ReadFull(s1, Number(h));
    var eaten := r.stream[..|r.stream| - |s2|];
    assert eaten == r.stream[..4] + s1[..|s1| - |s2|];
    assert eaten[..4] == r.stream[..4];
    if text.Got? {
      assert Plain(eaten[4..]) == text.bytes;
    }
  }

  /**
   * For every stream, what reading a frame reports is decided by what it has eaten:
   * each error for its own reason and only for that.
   */
  lemma FrameErrors(a: Cipher, r: Reader)
    ensures var (r', e) := ReadFrame(a, r); var eaten := r.stream[..|r.stream| - |r'.stream|];
            && r.stream == eaten + r'.stream
            && (e == None <==> Whole(eaten) && Opened(a, r.counter, eaten).Some?)
            && (e == Some(AuthFailed) <==> Whole(eaten) && Opened(a, r.counter, eaten).None?)
            && (e == Some(BadSize) <==>
                  |eaten| == 4 && AllOctets(eaten) && Number(Plain(eaten)) > MAX_CIPHER_FRAME)
            && (e == Some(RawError) <==> eaten != [] && eaten[|eaten| - 1] == Fault)
            && (e == Some(EOF) <==> eaten == Octets(END) || (r'.stream == [] && CleanCut(eaten)))
            && (e == Some(UnexpectedEOF) <==> r'.stream == [] && Short(eaten) && !CleanCut(eaten))
  {
    hide ReadFull, Number, MakeNonce, ReadFrame, Whole, Short, CleanCut, Opened, Plain, AllOctets;
    var header := ReadFull(r.stream, 4).1;
    if header.Failed? {
      HeaderFails(a, r);
    } else if 0 < Number(header.bytes) <= MAX_CIPHER_FRAME {
      TextRead(a, r, header.bytes);
    } else {
      HeaderRead(a, r, header.bytes);
    }
    var (r', e) := ReadFrame(a, r);
    var eaten := r.stream[..|r.stream| - |r'.stream|];
    FrameRest(a, r);
    OneReason(a, r.counter, eaten, r'.stream == [], e);
  }

  lemma FrameRest(a: Cipher, r: Reader)
    ensures var r' := ReadFrame(a, r).0; r.stream == r.stream[..|r.stream| - |r'.stream|] + r'.stream
  {
    hide ReadFull, Number, MakeNonce, AllOctets, Plain;
    FullReadEats(r.stream, 4);
    var (s1, header) := ReadFull(r.stream, 4);
    var eaten := r.stream[..|r.stream| - |s1|];
    CutOff(r.stream, eaten, s1);
    if header.Got? {
      var n := Number(header.bytes);
      FullReadEats(s1, n);
      var s2 := ReadFull(s1, n).0;
      var more := s1[..|s1| - |s2|];
      assert r.stream == (eaten + more) + s2;
      CutOff(r.stream, eaten + more, s2);
    }
  }

  lemma CutOff(stream: seq<Event>, eaten: seq<Event>, rest: seq<Event>)
    requires stream == eaten + rest
    ensures stream == stream[..|stream| - |rest|] + rest
  {
  }

  lemma OneReason(a: Cipher, counter: nat, eaten: seq<Event>, out: bool, e: Option<Error>)
    requires Because(a, counter, eaten, out, e)
    ensures Because(a, counter, eaten, out, None) ==> e == None
    ensures Because(a, counter, eaten, out, Some(AuthFailed)) ==> e == Some(AuthFailed)
    ensures Because(a, counter, eaten, out, Some(BadSize)) ==> e == Some(BadSize)
    ensures Because(a, counter, eaten, out, Some(RawError)) ==> e == Some(RawError)
    ensures Because(a, counter, eaten, out, Some(EOF)) ==> e == Some(EOF)
    ensures Because(a, counter, eaten, out, Some(UnexpectedEOF)) ==> e == Some(UnexpectedEOF)
  {
    hide Number, Opened, Plain;
    EndIsEnd();
    assert |eaten| == 4 ==> eaten[..4] == eaten;
    if eaten != [] && eaten[|eaten| - 1] == Fault {
      assert !AllOctets(eaten);
    }
  }

  lemma EndIsEnd()
    ensures |Octets(END)| == 4 && AllOctets(Octets(END)) && Plain(Octets(END)) == END && Number(END) == 0
  {
    EndIsZero();
  }

  // ---------------------------------------------------------------------------
  // A series of reads
  // ---------------------------------------------------------------------------

  predicate IsRest(rest: seq<Event>, stream: seq<Event>) {
    |rest| <= |stream| && rest == stream[|stream| - |rest|..]
  }

  ghost predicate ReasonAt(a: Cipher, stream: seq<Event>, at: nat, end: nat, counter: nat, e: Error) {
    at <= end <= |stream| && Because(a, counter, stream[at..end], end == |stream|, Some(e))
  }

  /** What was eaten between two places of the stream ends with what this error is reported for. */
  ghost predicate HasReason(a: Cipher, stream: seq<Event>, from: nat, end: nat, e: Error) {
    exists at: nat, counter: nat :: from <= at && ReasonAt(a, stream, at, end, counter, e)
  }

  lemma FrameReason(a: Cipher, r: Reader, stream: seq<Event>)
    requires IsRest(r.stream, stream)
    ensures var (r', e) := ReadFrame(a, r);
            && IsRest(r'.stream, stream)
            && (e.Some? ==> HasReason(a, stream, |stream| - |r.stream|, |stream| - |r'.stream|, e.value))
  {
    hide ReadFrame, Whole, Short, CleanCut, Opened, Plain, AllOctets, Number, Octets;
    FrameErrors(a, r);
    var (r', e) := ReadFrame(a, r);
    var at, end := |stream| - |r.stream|, |stream| - |r'.stream|;
    assert stream[at..end] == r.stream[..|r.stream| - |r'.stream|];
    if e.Some? {
      assert e.value.EOF? || e.value.UnexpectedEOF? || e.value.BadSize? || e.value.AuthFailed? || e.value.RawError?;
      assert ReasonAt(a, stream, at, end, r.counter, e.value);
    }
  }

  lemma {:induction false} ReadReason(a: Cipher, r: Reader, n: nat, stream: seq<Event>)
    requires IsRest(r.stream, stream)
    ensures var (r', out) := Read(a, r, n);
            && IsRest(r'.stream, stream)
            && (out.Err? ==> HasReason(a, stream, |stream| - |r.stream|, |stream| - |r'.stream|, out.error))
    decreases |r.stream|
  {
    hide ReadFrame, ReasonAt;
    if r.buf == [] {
      FrameReason(a, r, stream);
      var (r', e) := ReadFrame(a, r);
      if e == None {
        ReadReason(a, r', n, stream);
      }
    }
  }

  /** A series of reads so far is the series of its first reads. */
  lemma {:induction false} FirstReads(a: Cipher, r: Reader, sizes: seq<nat>, k: nat)
    requires k < |sizes|
    ensures Reads(a, r, sizes).1[k] == Read(a, Reads(a, r, sizes[..k]).0, sizes[k]).1
  {
    hide Read;
    var n := |sizes| - 1;
    if k < n {
      FirstReads(a, r, sizes[..n], k);
      assert sizes[..n][..k] == sizes[..k];
    }
  }

  lemma {:induction false} ReadsRest(a: Cipher, stream: seq<Event>, sizes: seq<nat>)
    ensures IsRest(Reads(a, Reader(stream, [], 0), sizes).0.stream, stream)
  {
    hide Read, IsRest;
    if sizes == [] {
      WholeRest(stream);
    } else {
      var n := |sizes| - 1;
      ReadsRest(a, stream, sizes[..n]);
      ReadReason(a, Reads(a, Reader(stream, [], 0), sizes[..n]).0, sizes[n], stream);
    }
  }

  /**
   * In any series of reads of any stream, going on after errors, what a failing read has
   * eaten ends with the reason for its error: an EOF stands for an end header, or for a
   * stream that ran out at the start of a frame or right behind a header, and so each of
   * the others.
   */
  lemma EveryErrorHasItsReason(a: Cipher, stream: seq<Event>, sizes: seq<nat>, k: nat)
    requires k < |sizes|
    ensures var r := Reader(stream, [], 0);
            var from := |stream| - |Reads(a, r, sizes[..k]).0.stream|;
            var end := |stream| - |Reads(a, r, sizes[..k + 1]).0.stream|;
            var out := Reads(a, r, sizes).1[k];
            0 <= from <= end && (out.Err? ==> HasReason(a, stream, from, end, out.error))
  {
    hide Read, HasReason, Because;
    var r := Reader(stream, [], 0);
    ReadsRest(a, stream, sizes[..k]);
    FirstReads(a, r, sizes, k);
    ReadReason(a, Reads(a, r, sizes[..k]).0, sizes[k], stream);
    assert sizes[..k + 1][..k] == sizes[..k];
    ReadLess(a, Reads(a, r, sizes[..k]).0, sizes[k]);
  }

  lemma {:induction false} ReadLess(a: Cipher, r: Reader, n: nat)
    ensures |Read(a, r, n).0.stream| <= |r.stream|
    decreases |r.stream|
  {
    hide ReadFrame;
    if r.buf == [] && ReadFrame(a, r).1 == None {
      ReadLess(a, ReadFrame(a, r).0, n);
    }
  }

  lemma WholeRest(stream: seq<Event>)
    ensures IsRest(stream, stream)
  {
  }

  // ---------------------------------------------------------------------------
  // A stream that is cut off, or fails
  // ---------------------------------------------------------------------------

  /** In a frame that has begun and is not whole, only the cut or the fault behind it can be reported. */
  lemma ShortReads(a: Cipher, counter: nat, part: seq<Event>, after: seq<Event>)
    requires Short(part) && (after == [] || after[0] == Fault)
    ensures ReadFrame(a, Reader(part + after, [], counter)).1
         == Some(if after != [] then RawError else if CleanCut(part) then EOF else UnexpectedEOF)
  {
    hide ReadFrame, Number, Opened, Octets, Plain;
    var r := Reader(part + after, [], counter);
    FrameErrors(a, r);
    var (r', e) := ReadFrame(a, r);
    var eaten := r.stream[..|r.stream| - |r'.stream|];
    BeforeFault(part, after, eaten, r'.stream);
    EndIsEnd();
    if e != Some(RawError) {
      assert e.None? || e.value.EOF? || e.value.UnexpectedEOF? || e.value.BadSize? || e.value.AuthFailed?;
      ShortIsNoEnd(part, eaten);
    }
  }

  lemma BeforeFault(part: seq<Event>, after: seq<Event>, eaten: seq<Event>, rest: seq<Event>)
    requires part + after == eaten + rest && (after == [] || after[0] == Fault)
    ensures AllOctets(eaten) ==> eaten <= part && (rest == [] ==> after == [] && eaten == part)
    ensures after == [] ==> eaten <= part && (rest == [] ==> eaten == part)
  {
    if |eaten| > |part| {
      assert (eaten + rest)[|part|] == eaten[|part|] && (part + after)[|part|] == after[0];
    } else {
      assert eaten == (part + after)[..|eaten|] == part[..|eaten|];
    }
  }

  lemma ShortIsNoEnd(part: seq<Event>, eaten: seq<Event>)
    requires Short(part) && eaten <= part
    ensures !Whole(eaten) && eaten != Octets(END)
    ensures |eaten| == 4 ==> AllOctets(eaten) && Number(Plain(eaten)) <= MAX_CIPHER_FRAME
  {
    hide Number, Octets, Plain;
    EndIsEnd();
    if |eaten| >= 4 {
      assert eaten[..4] == part[..4];
      assert |eaten| == 4 ==> eaten[..4] == eaten;
    }
  }

  /** A proper beginning of a frame, and of the end header. */
  lemma PartOfFrame(a: Cipher, i: nat, chunk: seq<byte>, q: nat)
    requires Tagged(a) && Fitting(chunk) && q < |Frame(a, i, chunk)|
    ensures var part := Octets(Frame(a, i, chunk)[..q]);
            Short(part) && (CleanCut(part) <==> q == 0 || q == 4)
  {
    hide Number, SealAt, Header;
    TextLength(a, i, chunk);
    DataHeader(a, i, chunk);
    var frame, part := Frame(a, i, chunk), Octets(Frame(a, i, chunk)[..q]);
    if q >= 4 {
      assert Plain(part[..4]) == Header(|SealAt(a, i, chunk)|);
      assert q == 4 ==> part[..4] == part;
    }
  }

  lemma PartOfEnd(q: nat)
    requires q < 4
    ensures Short(Octets(END[..q])) && (CleanCut(Octets(END[..q])) <==> q == 0)
  {
  }

  /** How many frames are whole before a cut. */
  lemma {:induction false} WholeBefore(a: Cipher, chunks: seq<seq<byte>>, p: nat) returns (m: nat)
    ensures m <= |chunks| && |Wire(a, 0, chunks[..m])| <= p
    ensures m < |chunks| ==> p < |Wire(a, 0, chunks[..m + 1])|
  {
    hide Frame;
    assert chunks[..|chunks|] == chunks;
    if p >= |Wire(a, 0, chunks)| {
      m := |chunks|;
    } else {
      var n := |chunks| - 1;
      m := WholeBefore(a, chunks[..n], p);
      assert chunks[..n][..m] == chunks[..m];
      assert m < n ==> chunks[..n][..m + 1] == chunks[..m + 1];
    }
  }

  lemma CutWire(a: Cipher, chunks: seq<seq<byte>>, m: nat, p: nat)
    requires m <= |chunks| && |Wire(a, 0, chunks[..m])| <= p < |Wire(a, 0, chunks) + END|
    requires m < |chunks| ==> p < |Wire(a, 0, chunks[..m + 1])|
    ensures var q := p - |Wire(a, 0, chunks[..m])|;
            var next := if m < |chunks| then Frame(a, m, chunks[m]) else END;
            q < |next| && (Wire(a, 0, chunks) + END)[..p] == Wire(a, 0, chunks[..m]) + next[..q]
  {
    hide Frame;
    if m < |chunks| {
      assert chunks[..m + 1][..m] == chunks[..m];
      assert chunks == chunks[..m + 1] + chunks[m + 1..];
      WireAppend(a, 0, chunks[..m + 1], chunks[m + 1..]);
      TakeOver(Wire(a, 0, chunks[..m]), Frame(a, m, chunks[m]), Wire(a, m + 1, chunks[m + 1..]) + END, p);
    } else {
      assert chunks[..m] == chunks;
    }
  }

  lemma TakeOver(x: seq<byte>, y: seq<byte>, z: seq<byte>, p: nat)
    requires |x| <= p <= |x| + |y|
    ensures (x + y + z)[..p] == x + y[..p - |x|]
  {
  }

  /**
   * The frames of a session and its end header, broken off at any place: the frames that
   * are whole are delivered, and then, if a raw error follows, that is reported, otherwise
   * EOF if the break is at the start of a frame or right behind its header, and
   * UnexpectedEOF anywhere else.
   */
  lemma BrokenOff(a: Cipher, chunks: seq<seq<byte>>, p: nat, after: seq<Event>, sizes: seq<nat>)
    returns (m: nat, k: nat)
    requires Correct(a, chunks) && |chunks| < COUNTER_SPAN && NonEmpty(sizes) && forall c <- chunks :: Fitting(c)
    requires p < |Wire(a, 0, chunks) + END| && (after == [] || after[0] == Fault)
    ensures m <= |chunks| && |Wire(a, 0, chunks[..m])| <= p && (m < |chunks| ==> p < |Wire(a, 0, chunks[..m + 1])|)
    ensures var q := p - |Wire(a, 0, chunks[..m])|;
            var clean := q == 0 || (q == 4 && m < |chunks|);
            var stream := Octets((Wire(a, 0, chunks) + END)[..p]) + after;
            Delivers(Concat(chunks[..m]), sizes, Reads(a, Reader(stream, [], 0), sizes).1, k,
                     if after != [] then RawError else if clean then EOF else UnexpectedEOF)
    ensures |sizes| > |Concat(chunks[..m])| ==> k < |sizes|
  {
    hide Reads, ReadFrame, Octets, Wire, Frame, SealAt, MakeNonce, Short, CleanCut, Delivers;
    m := WholeBefore(a, chunks, p);
    CutWire(a, chunks, m, p);
    var q := p - |Wire(a, 0, chunks[..m])|;
    var part;
    if m < |chunks| {
      part := Frame(a, m, chunks[m])[..q];
      PartOfFrame(a, m, chunks[m], q);
    } else {
      part := END[..q];
      PartOfEnd(q);
    }
    ShortReads(a, m, Octets(part), after);
    var clean := q == 0 || (q == 4 && m < |chunks|);
    var e := if after != [] then RawError else if clean then EOF else UnexpectedEOF;
    CorrectBegin(a, chunks, m);
    k := UpToTheError(a, chunks[..m], Octets(part) + after, e, sizes);
    SplitOctets(Wire(a, 0, chunks[..m]), part, after);
  }

  lemma CorrectBegin(a: Cipher, chunks: seq<seq<byte>>, m: nat)
    requires Correct(a, chunks) && m <= |chunks|
    ensures Correct(a, chunks[..m])
  {
    hide SealAt, MakeNonce;
  }
}
