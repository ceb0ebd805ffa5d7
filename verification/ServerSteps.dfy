/** What one step of the server adds to the log, and what it leaves alone. */
module ServerSteps {
  import opened Servers

  /** A step of the accept loop or of a worker: at most the beginning of a handler. */
  lemma PipeNews(cfg: Config, s: Server, a: Action, s': Server) returns (news: seq<Event>)
    requires PipeStep(cfg, s, a, s')
    ensures s'.log == s.log + news && |news| <= 1 && forall e <- news :: e.Begun?
    ensures s'.sh == s.sh && s'.knockers == s.knockers && s'.packets == s.packets
  {
    hide PipeStep, Subject;
    PipeMoves(cfg, s, a, s');
    news := if a.Take? then [Begun(OfConn(s.pipe.queue[0]))] else [];
  }

  /** Every step adds at most one event. */
  lemma StepNews(cfg: Config, s: Server, a: Action, s': Server) returns (news: seq<Event>)
    requires Step(cfg, s, a, s')
    ensures s'.log == s.log + news && |news| <= 1
    ensures a.Handle? ==>
              && a.conn in s.conns && HandlerStep(cfg, s.sh, s.conns[a.conn], a.ch, s'.sh)
              && news == HandlerEvents(cfg, s.sh, a.conn, s.conns[a.conn], a.ch)
    ensures a.Knock? ==>
              && a.id in s.knockers && KnockStep(cfg, s.sh, s.knockers[a.id], a.ch, s'.sh)
              && s'.knockers == s.knockers[a.id := KnockContinue(s.knockers[a.id], a.ch).(since := s.sh.clock)]
              && news == KnockEvents(cfg, s.sh, a.id, s.knockers[a.id], a.ch)
    ensures a.KnockArrives? ==>
              && a.id !in s.knockers
              && s'.knockers == s.knockers[a.id := Knocker(KBan, a.ip, a.client, a.nonce, s.sh.clock)]
    ensures a.Packet? ==>
              && a.id in s.packets && PacketStep(cfg, s.sh, s.packets[a.id], a.ch, s'.sh)
              && s'.packets == s.packets[a.id := PacketContinue(s.packets[a.id], s.sh.clock, a.ch)]
              && news == PacketEvents(s.sh, a.id, s.packets[a.id], a.ch)
    ensures a.PacketArrives? ==>
              a.id !in s.packets && s'.packets == s.packets[a.id := Arrival(PBan, a.ip, s.sh.clock)]
    ensures !a.Knock? && !a.KnockArrives? ==> s'.knockers == s.knockers
    ensures !a.Packet? && !a.PacketArrives? ==> s'.packets == s.packets
    ensures !a.Handle? && !a.Knock? && !a.Packet? ==>
              s.sh.clock <= s'.sh.clock && s'.sh == s.sh.(clock := s'.sh.clock) && forall e <- news :: e.Begun?
  {
    hide HandlerStep, KnockStep, PacketStep, PipeStep, HandlerEvents, KnockEvents, PacketEvents;
    assert s.log + [] == s.log;
    match a
    case Handle(c, ch) => news := HandlerEvents(cfg, s.sh, c, s.conns[c], ch);
    case Knock(id, ch) => news := KnockEvents(cfg, s.sh, id, s.knockers[id], ch);
    case Packet(id, ch) => news := PacketEvents(s.sh, id, s.packets[id], ch);
    case PacketArrives(id, _) => news := [Begun(OfPacket(id))];
    case KnockArrives(id, _, _, _) => news := [Begun(OfKnock(id))];
    case Tick(_) => news := [];
    case _ => news := PipeNews(cfg, s, a, s');
  }

  lemma SameNews(log: seq<Event>, news: seq<Event>, more: seq<Event>)
    requires log + news == log + more
    ensures news == more
  {
    assert news == (log + news)[|log|..];
  }
}
