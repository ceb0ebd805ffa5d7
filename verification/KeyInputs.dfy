/** What is hashed into the two transport keys (internal/secure/conn.go). */
module KeyInputs {
  import opened Base
  import opened Bytes

  const LABEL: seq<byte> := [116, 114, 97, 110, 115, 112, 111, 114, 116, 45, 107, 101, 121] // "transport-key"
  const C2S: seq<byte> := [99, 50, 115] // "c2s"
  const S2C: seq<byte> := [115, 50, 99] // "s2c"

  const LIMIT := 0x1_0000

  /** A 16-bit length, cut off if it does not fit, and the string. */
  function Sized(s: seq<byte>): seq<byte> {
    BigEndian(|s| % LIMIT, 2) + s
  }

  datatype Session = Session(clientID: seq<byte>, authNonce: seq<byte>, port: nat, direction: seq<byte>)

  function MacInput(s: Session): seq<byte> {
    LABEL + Sized(s.clientID) + Sized(s.authNonce) + BigEndian(s.port % LIMIT, 2) + Sized(s.direction)
  }

  lemma SamePrefix<T>(a: seq<T>, x: seq<T>, b: seq<T>, y: seq<T>)
    requires a + x == b + y && |a| == |b|
    ensures a == b && x == y
  {
    assert a == (a + x)[..|a|] && x == (a + x)[|a|..];
    assert b == (b + y)[..|b|] && y == (b + y)[|b|..];
  }

  lemma SmallLength(n: nat)
    requires n < LIMIT
    ensures n % LIMIT == n
  {
  }

  lemma SizedWhole(s: seq<byte>, x: seq<byte>)
    requires |s| < LIMIT
    ensures Sized(s) + x == BigEndian(|s|, 2) + (s + x)
  {
    hide BigEndian;
    SmallLength(|s|);
    Regroup(BigEndian(|s|, 2), s, x);
  }

  lemma SizedCancels(s: seq<byte>, x: seq<byte>, t: seq<byte>, y: seq<byte>)
    requires Sized(s) + x == Sized(t) + y && |s| < LIMIT && |t| < LIMIT
    ensures s == t && x == y
  {
    hide Sized, BigEndian;
    Spans();
    SizedWhole(s, x);
    SizedWhole(t, y);
    SamePrefix(BigEndian(|s|, 2), s + x, BigEndian(|t|, 2), t + y);
    BigEndianInjective(|s|, |t|, 2);
    SamePrefix(s, x, t, y);
  }

  predicate Fits(s: Session, strings: nat, ports: nat) {
    |s.clientID| < strings && |s.authNonce| < strings && |s.direction| < strings && s.port < ports
  }

  /** Sessions whose strings and ports fit in 16 bits never share the input of a key. */
  lemma MacInputInjective(s: Session, t: Session)
    requires Fits(s, LIMIT, LIMIT) && Fits(t, LIMIT, LIMIT) && MacInput(s) == MacInput(t)
    ensures s == t
  {
    hide Sized;
    Spans();
    var s3, t3 := BigEndian(s.port, 2) + Sized(s.direction), BigEndian(t.port, 2) + Sized(t.direction);
    var s2, t2 := Sized(s.authNonce) + s3, Sized(t.authNonce) + t3;
    assert MacInput(s) == LABEL + (Sized(s.clientID) + s2);
    assert MacInput(t) == LABEL + (Sized(t.clientID) + t2);
    SamePrefix(LABEL, Sized(s.clientID) + s2, LABEL, Sized(t.clientID) + t2);
    SizedCancels(s.clientID, s2, t.clientID, t2);
    SizedCancels(s.authNonce, s3, t.authNonce, t3);
    SamePrefix(BigEndian(s.port, 2), Sized(s.direction), BigEndian(t.port, 2), Sized(t.direction));
    BigEndianInjective(s.port, t.port, 2);
    assert Sized(s.direction) + [] == Sized(t.direction) + [];
    SizedCancels(s.direction, [], t.direction, []);
  }

  ghost predicate Injective(strings: nat, ports: nat) {
    forall s: Session, t: Session |
      Fits(s, strings, ports) && Fits(t, strings, ports) && MacInput(s) == MacInput(t) :: s == t
  }

  function Zeros(n: nat): seq<byte> {
    seq(n, _ => 0)
  }

  /** A string of 65536 zeros as the client id or as the nonce: the inputs are the same. */
  lemma LongStringsCollide()
    ensures MacInput(Session(Zeros(LIMIT), [], 0, [])) == MacInput(Session([], Zeros(LIMIT), 0, []))
  {
    var a, b := Session(Zeros(LIMIT), [], 0, []), Session([], Zeros(LIMIT), 0, []);
    var head := BigEndian(0, 2);
    assert head == [0, 0] by {
      assert BigEndian(0, 1) == [0];
    }
    assert Sized([]) == head && Sized(Zeros(LIMIT)) == head + Zeros(LIMIT);
    assert Sized(Zeros(LIMIT)) + Sized([]) == Zeros(LIMIT + 4);
    assert Sized([]) + Sized(Zeros(LIMIT)) == Zeros(LIMIT + 4);
    assert MacInput(a) == LABEL + (Sized(Zeros(LIMIT)) + Sized([])) + head + Sized([]);
    assert MacInput(b) == LABEL + (Sized([]) + Sized(Zeros(LIMIT))) + head + Sized([]);
  }

  lemma LargePortsCollide()
    ensures MacInput(Session([], [], 0, [])) == MacInput(Session([], [], LIMIT, []))
  {
  }

  /** Exactly how far the encoding can be trusted: 16-bit lengths and 16-bit ports, no further. */
  lemma InjectiveExactly(strings: nat, ports: nat)
    requires strings > 0 && ports > 0
    ensures Injective(strings, ports) <==> strings <= LIMIT && ports <= LIMIT
  {
    hide MacInput;
    if strings <= LIMIT && ports <= LIMIT {
      forall s: Session, t: Session | Fits(s, strings, ports) && Fits(t, strings, ports) && MacInput(s) == MacInput(t)
        ensures s == t
      {
        MacInputInjective(s, t);
      }
    } else if strings > LIMIT {
      LongStringsCollide();
      var s, t := Session(Zeros(LIMIT), [], 0, []), Session([], Zeros(LIMIT), 0, []);
      assert Fits(s, strings, ports) && Fits(t, strings, ports) && |s.clientID| != |t.clientID|;
    } else {
      LargePortsCollide();
      var s, t := Session([], [], 0, []), Session([], [], LIMIT, []);
      assert Fits(s, strings, ports) && Fits(t, strings, ports) && s.port != t.port;
    }
  }

  // ---------------------------------------------------------------------------
  // Roles
  // ---------------------------------------------------------------------------

  /** The inputs of the key a side reads with and of the key it writes with. */
  datatype Keys = Keys(read: seq<byte>, write: seq<byte>)

  function Wrap(clientID: seq<byte>, authNonce: seq<byte>, port: nat, role: string): Option<Keys> {
    var c2s := MacInput(Session(clientID, authNonce, port, C2S));
    var s2c := MacInput(Session(clientID, authNonce, port, S2C));
    if role == "client" then Some(Keys(s2c, c2s))
    else if role == "server" then Some(Keys(c2s, s2c))
    else None
  }

  /** Two sides of a session write with what the other reads with, and never with one key both ways. */
  lemma RolesMatch(clientID: seq<byte>, authNonce: seq<byte>, port: nat)
    ensures var c, s := Wrap(clientID, authNonce, port, "client"), Wrap(clientID, authNonce, port, "server");
            && c.Some? && s.Some?
            && c.value.write == s.value.read && c.value.read == s.value.write
            && c.value.write != c.value.read
  {
    var a, b := Session(clientID, authNonce, port, C2S), Session(clientID, authNonce, port, S2C);
    hide Sized;
    var head := LABEL + Sized(clientID) + Sized(authNonce) + BigEndian(port % LIMIT, 2);
    assert MacInput(a) == head + Sized(C2S) && MacInput(b) == head + Sized(S2C);
    DirectionsDiffer();
    if MacInput(a) == MacInput(b) {
      SamePrefix(head, Sized(C2S), head, Sized(S2C));
    }
  }

  lemma DirectionsDiffer()
    ensures Sized(C2S) != Sized(S2C)
  {
    assert Sized(C2S)[2] != Sized(S2C)[2];
  }
}
