/** What happens at most once to a connection, a knock or a packet. */
module ServerMarks {
  import opened Base
  import opened ConnectionSlots
  import opened Servers
  import opened ServerSlots

  /** Beginning, and passing a ban check. */
  datatype Mark = Start(who: Actor) | Pass(check: Check)

  predicate Marks(e: Event, m: Mark) {
    match m
    case Start(who) => e == Begun(who)
    case Pass(check) => e.Passed? && e.check == check
  }

  predicate BeforeStart(pc: Pc) {
    pc.AtLoop? || pc.Queued?
  }

  predicate BeforeBanCheck(pc: Pc) {
    BeforeStart(pc) || pc.BanCheck?
  }

  predicate BeforeClientCheck(pc: Pc) {
    BeforeBanCheck(pc) || pc.AcquireIP? || pc.Auth? || pc.ClientBan?
  }

  /** Whoever could get this mark has not come so far. */
  predicate NotYet(s: Server, m: Mark) {
    match m
    case Start(OfConn(c)) => c in s.conns ==> BeforeStart(s.conns[c].pc)
    case Start(OfKnock(id)) => id !in s.knockers
    case Start(OfPacket(id)) => id !in s.packets
    case Pass(ByIP(c)) => c in s.conns ==> BeforeBanCheck(s.conns[c].pc)
    case Pass(ByClient(c)) => c in s.conns ==> BeforeClientCheck(s.conns[c].pc)
    case Pass(ByKnock(id)) => id in s.knockers ==> s.knockers[id].pc.KBan?
    case Pass(ByPacket(id)) => id in s.packets ==> s.packets[id].pc.PBan?
  }

  ghost predicate Unmarked(log: seq<Event>, m: Mark) {
    forall e <- log :: !Marks(e, m)
  }

  ghost predicate MarkedOnce(log: seq<Event>) {
    forall i, j, m | 0 <= i < j < |log| && Marks(log[i], m) :: !Marks(log[j], m)
  }

  ghost predicate Once(s: Server) {
    MarkedOnce(s.log) && forall m | NotYet(s, m) :: Unmarked(s.log, m)
  }

  // ---------------------------------------------------------------------------
  // One step
  // ---------------------------------------------------------------------------

  /** Nobody goes back, and whoever is marked had not come so far and has now. */
  ghost predicate GoesOn(s: Server, s': Server, more: seq<Event>) {
    && (forall m | NotYet(s', m) :: NotYet(s, m))
    && (forall e, m | e in more && Marks(e, m) :: NotYet(s, m) && !NotYet(s', m))
  }

  lemma MarkedOnceLater(log: seq<Event>, e: Event)
    requires MarkedOnce(log)
    requires forall m | Marks(e, m) :: Unmarked(log, m)
    ensures MarkedOnce(log + [e])
  {
    hide Marks;
    var log' := log + [e];
    forall i, j, m | 0 <= i < j < |log'| && Marks(log'[i], m)
      ensures !Marks(log'[j], m)
    {
      assert Marks(e, m) ==> Unmarked(log, m);
      assert log'[i] == log[i] && log[i] in log;
    }
  }

  lemma UnmarkedLater(log: seq<Event>, e: Event, m: Mark)
    requires Unmarked(log, m) && !Marks(e, m)
    ensures Unmarked(log + [e], m)
  {
  }

  lemma OnceStep(s: Server, s': Server, more: seq<Event>)
    requires Once(s) && |more| <= 1 && s'.log == s.log + more && GoesOn(s, s', more)
    ensures Once(s')
  {
    hide MarkedOnce, Unmarked, Marks, NotYet;
    if more == [] {
      assert s.log + more == s.log;
    } else {
      var e := more[0];
      assert more == [e] && e in more;
      MarkedOnceLater(s.log, e);
      forall m | NotYet(s', m)
        ensures Unmarked(s'.log, m)
      {
        UnmarkedLater(s.log, e, m);
      }
    }
  }

  lemma HandlerGoesOn(cfg: Config, sh: Shared, h: Handler, ch: Choice)
    requires Running(h.pc)
    ensures var pc := After(cfg, sh, h, ch).pc;
            && !BeforeBanCheck(pc) && (BeforeClientCheck(pc) ==> BeforeClientCheck(h.pc))
            && (h.pc.ClientBan? ==> !BeforeClientCheck(pc))
  {
    hide ClientIsFull, FirewallAllows, IPFull;
  }

  lemma HandlerMarks(cfg: Config, sh: Shared, c: nat, h: Handler, ch: Choice)
    ensures |HandlerEvents(cfg, sh, c, h, ch)| <= 1
    ensures forall e <- HandlerEvents(cfg, sh, c, h, ch) ::
              !e.Begun?
              && (e.Passed? ==> (h.pc.BanCheck? && e.check == ByIP(c)) || (h.pc.ClientBan? && e.check == ByClient(c)))
  {
  }

  lemma HandledGoesOn(s: Server, s': Server, c: nat, h': Handler, more: seq<Event>)
    requires c in s.conns && s'.conns == s.conns[c := h'] && s'.knockers == s.knockers && s'.packets == s.packets
    requires var pc, pc' := s.conns[c].pc, h'.pc;
             && !BeforeBanCheck(pc') && (BeforeClientCheck(pc') ==> BeforeClientCheck(pc))
             && (pc.ClientBan? ==> !BeforeClientCheck(pc'))
             && forall e <- more ::
                  !e.Begun?
                  && (e.Passed? ==> (pc.BanCheck? && e.check == ByIP(c)) || (pc.ClientBan? && e.check == ByClient(c)))
    ensures GoesOn(s, s', more)
  {
  }

  lemma HandleKeepsOnce(cfg: Config, s: Server, c: nat, ch: Choice, s': Server)
    requires Once(s) && Step(cfg, s, Handle(c, ch), s')
    ensures Once(s')
  {
    hide HandlerStep, After, HandlerEvents, Once, GoesOn, PipeStep, KnockStep, PacketStep, BeforeBanCheck,
      BeforeClientCheck;
    var h := s.conns[c];
    HandlerMarks(cfg, s.sh, c, h, ch);
    HandlerGoesOn(cfg, s.sh, h, ch);
    HandledGoesOn(s, s', c, After(cfg, s.sh, h, ch), HandlerEvents(cfg, s.sh, c, h, ch));
    OnceStep(s, s', HandlerEvents(cfg, s.sh, c, h, ch));
  }

  lemma KnockGoesOn(cfg: Config, s: Server, id: nat, ch: Choice, s': Server)
    requires id in s.knockers && !s.knockers[id].pc.KDone? && s'.conns == s.conns && s'.packets == s.packets
    requires s'.knockers == s.knockers[id := KnockContinue(s.knockers[id], ch).(since := s.sh.clock)]
    ensures var more := KnockEvents(cfg, s.sh, id, s.knockers[id], ch); GoesOn(s, s', more) && |more| <= 1
  {
  }

  lemma PacketGoesOn(s: Server, id: nat, ch: Choice, s': Server)
    requires id in s.packets && !s.packets[id].pc.PDone? && s'.conns == s.conns && s'.knockers == s.knockers
    requires s'.packets == s.packets[id := PacketContinue(s.packets[id], s.sh.clock, ch)]
    ensures var more := PacketEvents(s.sh, id, s.packets[id], ch); GoesOn(s, s', more) && |more| <= 1
  {
  }

  /** A connection that moves between places outside its handler, or comes in. */
  lemma PlaceGoesOn(s: Server, s': Server, c: nat, h: Handler)
    requires s'.conns == s.conns[c := h] && s'.knockers == s.knockers && s'.packets == s.packets
    requires !h.pc.AcquireIP? && !h.pc.Auth? && !h.pc.ClientBan?
    requires h.pc.AtLoop? ==> c !in s.conns
    requires h.pc.Queued? ==> c in s.conns ==> BeforeStart(s.conns[c].pc)
    requires h.pc.BanCheck? ==> c in s.conns ==> BeforeBanCheck(s.conns[c].pc)
    ensures GoesOn(s, s', [])
  {
  }

  lemma TakeGoesOn(s: Server, s': Server, c: nat, h: Handler)
    requires s'.conns == s.conns[c := h] && s'.knockers == s.knockers && s'.packets == s.packets
    requires c in s.conns && s.conns[c].pc.Queued? && (h.pc.BanCheck? || h.pc.Close?)
    ensures GoesOn(s, s', [Begun(OfConn(c))])
  {
  }

  lemma NobodyMoves(s: Server, s': Server)
    requires s'.conns == s.conns && s'.knockers == s.knockers && s'.packets == s.packets
    ensures GoesOn(s, s', [])
  {
  }

  lemma PipeKeepsOnce(cfg: Config, s: Server, a: Action, s': Server)
    requires Placed(s) && Once(s) && PipeStep(cfg, s, a, s')
    ensures Once(s')
  {
    hide Once, GoesOn;
    assert s.log + [] == s.log;
    if a.Take? {
      var c := Subject(s, a);
      TakeGoesOn(s, s', c, s'.conns[c]);
      OnceStep(s, s', [Begun(OfConn(c))]);
    } else {
      PlacesGoOn(cfg, s, a, s');
      OnceStep(s, s', []);
    }
  }

  lemma PlacesGoOn(cfg: Config, s: Server, a: Action, s': Server)
    requires Placed(s) && PipeStep(cfg, s, a, s') && !a.Take?
    ensures GoesOn(s, s', []) && s'.log == s.log
  {
    hide GoesOn;
    if s'.conns != s.conns {
      PlaceGoesOn(s, s', Subject(s, a), s'.conns[Subject(s, a)]);
    } else {
      NobodyMoves(s, s');
    }
  }

  lemma KnockKeepsOnce(cfg: Config, s: Server, id: nat, ch: Choice, s': Server)
    requires Once(s) && Step(cfg, s, Knock(id, ch), s')
    ensures Once(s')
  {
    hide Once, GoesOn, PipeStep, HandlerStep, PacketStep, KnockEvents, KnockContinue, BanPart, StorePart, KnockFirewall;
    KnockGoesOn(cfg, s, id, ch, s');
    OnceStep(s, s', KnockEvents(cfg, s.sh, id, s.knockers[id], ch));
  }

  lemma PacketKeepsOnce(cfg: Config, s: Server, id: nat, ch: Choice, s': Server)
    requires Once(s) && Step(cfg, s, Packet(id, ch), s')
    ensures Once(s')
  {
    hide Once, GoesOn, PipeStep, HandlerStep, KnockStep, PacketEvents, PacketContinue, BanPart, RatePart;
    PacketGoesOn(s, id, ch, s');
    OnceStep(s, s', PacketEvents(s.sh, id, s.packets[id], ch));
  }

  lemma StepKeepsOnce(cfg: Config, s: Server, a: Action, s': Server)
    requires Placed(s) && Once(s) && Step(cfg, s, a, s')
    ensures Once(s')
  {
    hide Once, Placed, GoesOn, PipeStep, HandlerStep, KnockStep, PacketStep;
    assert s.log + [] == s.log;
    match a
    case Handle(c, ch) => HandleKeepsOnce(cfg, s, c, ch, s');
    case Knock(id, ch) => KnockKeepsOnce(cfg, s, id, ch, s');
    case Packet(id, ch) => PacketKeepsOnce(cfg, s, id, ch, s');
    case Tick(_) =>
      NobodyMoves(s, s');
      OnceStep(s, s', []);
    case PacketArrives(id, ip) =>
      PacketBegins(s, s', id);
      OnceStep(s, s', [Begun(OfPacket(id))]);
    case KnockArrives(id, ip, client, nonce) =>
      KnockBegins(s, s', id);
      OnceStep(s, s', [Begun(OfKnock(id))]);
    case _ => PipeKeepsOnce(cfg, s, a, s');
  }

  lemma PacketBegins(s: Server, s': Server, id: nat)
    requires id !in s.packets && id in s'.packets && s'.packets == s.packets[id := s'.packets[id]]
    requires s'.conns == s.conns && s'.knockers == s.knockers
    ensures GoesOn(s, s', [Begun(OfPacket(id))])
  {
  }

  lemma KnockBegins(s: Server, s': Server, id: nat)
    requires id !in s.knockers && id in s'.knockers && s'.knockers == s.knockers[id := s'.knockers[id]]
    requires s'.conns == s.conns && s'.packets == s.packets
    ensures GoesOn(s, s', [Begun(OfKnock(id))])
  {
  }
}
