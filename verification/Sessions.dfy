/** A session over connection objects: one side writes and closes, the other side reads. */
module Sessions {
  import opened Base
  import opened Bytes
  import opened Frames
  import opened SecureReads
  import opened SecureConns

  /** Any series of writes, going on after errors, and then CloseWrite; says whether all went well. */
  method Send(c: Conn, writes: seq<seq<byte>>) returns (ok: bool)
    requires c.Valid()
    modifies c`writeSeq, c`writeEOF, c`sealed, c`nonces, c`broken, c.raw`outgoing
    ensures c.Valid() && c.writeEOF && Distinct(c.nonces[..Min(|c.nonces|, COUNTER_SPAN)])
    ensures ok && old(c.sealed == [] && !c.writeEOF && !c.broken) ==>
              c.raw.outgoing == Wire(c.writeAEAD, 0, AllChunks(writes)) + END
  {
    hide Chunks, Wire, Distinct, Nonces, Min;
    ghost var unused := c.sealed == [] && !c.writeEOF && !c.broken;
    ok := true;
    for i := 0 to |writes|
      invariant c.Valid()
      invariant ok && unused ==> !c.writeEOF && !c.broken && c.sealed == AllChunks(writes[..i])
    {
      var n, err := c.Write(writes[i]);
      if err {
        ok := false;
      }
      assert writes[..i + 1][..i] == writes[..i];
    }
    assert writes[..|writes|] == writes;
    var closed := c.CloseWrite();
    ok := ok && closed;
    FirstNonces(|c.sealed|);
  }

  lemma FirstNonces(n: nat)
    ensures |Nonces(n)| == n && Distinct(Nonces(n)[..Min(n, COUNTER_SPAN)])
  {
    var k := Min(n, COUNTER_SPAN);
    NoncesDistinct(k);
    assert Nonces(n)[..k] == Nonces(k);
  }

  /** A series of reads into buffers of the given sizes, going on after errors. */
  method Receive(c: Conn, sizes: seq<nat>) returns (outs: seq<Outcome>)
    modifies c`readBuf, c`readSeq, c.raw`incoming
    ensures (c.View(), outs) == Reads(c.readAEAD, old(c.View()), sizes)
  {
    hide SecureReads.Read;
    outs := [];
    for i := 0 to |sizes|
      invariant (c.View(), outs) == Reads(c.readAEAD, old(c.View()), sizes[..i])
    {
      var p := new byte[sizes[i]];
      var n, err := c.Read(p);
      outs := outs + [if err == None then Data(p[..n]) else Err(err.value)];
      assert sizes[..i + 1][..i] == sizes[..i];
    }
    assert sizes[..|sizes|] == sizes;
  }

  /** The round trip on objects: what is sent without an error is received whole, and then the end. */
  method Exchange(key: Cipher, writes: seq<seq<byte>>, rest: seq<Event>, sizes: seq<nat>)
    returns (ok: bool, outs: seq<Outcome>)
    requires Correct(key, AllChunks(writes)) && |AllChunks(writes)| < COUNTER_SPAN && NonEmpty(sizes)
    ensures ok ==> exists k: nat :: Delivers(Concat(writes), sizes, outs, k, EOF)
                                    && (|sizes| > |Concat(writes)| ==> k < |sizes|)
  {
    hide Correct, Delivers, AllChunks, Wire, Octets, Reads, Concat;
    var near := new RawConn([]);
    var writer := new Conn(near, key, key);
    outs := [];
    ok := Send(writer, writes);
    if ok {
      var far := new RawConn(Octets(near.outgoing) + rest);
      var reader := new Conn(far, key, key);
      outs := Receive(reader, sizes);
      SessionRoundTrip(key, writes, rest, sizes);
    }
  }
}
