/** Who begins while a ban runs does nothing the ban forbids before it is over. */
module ServerOrder {
  import opened Base
  import opened ConnectionSlots
  import opened Servers
  import opened ServerBans
  import opened ServerMarks
  import ServerPipeline

  function ActorOf(check: Check): Actor {
    match check
    case ByIP(c) => OfConn(c)
    case ByClient(c) => OfConn(c)
    case ByKnock(id) => OfKnock(id)
    case ByPacket(id) => OfPacket(id)
  }

  predicate HasBegun(s: Server, who: Actor) {
    match who
    case OfConn(c) => c in s.conns && InHandler(s.conns[c].pc)
    case OfKnock(id) => id in s.knockers
    case OfPacket(id) => id in s.packets
  }

  /** Every check was passed by somebody who had begun before. */
  ghost predicate BegunFirst(log: seq<Event>) {
    forall j: nat | j < |log| && log[j].Passed? :: Begun(ActorOf(log[j].check)) in log[..j]
  }

  ghost predicate AllBegun(s: Server) {
    forall who | HasBegun(s, who) :: Begun(who) in s.log
  }

  /** No check was passed in the future. */
  ghost predicate Timely(log: seq<Event>, clock: int) {
    forall e <- log :: e.Passed? ==> e.at <= clock
  }

  ghost predicate Traced(s: Server) {
    BegunFirst(s.log) && AllBegun(s) && Timely(s.log, s.sh.clock)
  }

  // ---------------------------------------------------------------------------
  // Every step
  // ---------------------------------------------------------------------------

  /** Whoever has begun after the step had begun before or begins in it; whoever passes a check had begun. */
  ghost predicate InOrder(s: Server, s': Server, more: seq<Event>) {
    && (forall who | HasBegun(s', who) :: HasBegun(s, who) || more == [Begun(who)])
    && (forall e <- more :: e.Passed? ==> HasBegun(s, ActorOf(e.check)) && e.at <= s.sh.clock)
  }

  lemma BegunLater(log: seq<Event>, e: Event)
    requires BegunFirst(log) && (e.Passed? ==> Begun(ActorOf(e.check)) in log)
    ensures BegunFirst(log + [e])
  {
    hide ActorOf;
    var log' := log + [e];
    forall j: nat | j < |log'| && log'[j].Passed?
      ensures Begun(ActorOf(log'[j].check)) in log'[..j]
    {
      if j < |log| {
        assert log'[..j] == log[..j] && log'[j] == log[j];
      } else {
        assert log'[..j] == log;
      }
    }
  }

  lemma TracedNext(s: Server, s': Server, more: seq<Event>)
    requires Traced(s) && |more| <= 1 && s'.log == s.log + more
    requires s.sh.clock <= s'.sh.clock && InOrder(s, s', more)
    ensures Traced(s')
  {
    hide BegunFirst, HasBegun, ActorOf;
    if more == [] {
      assert s.log + more == s.log;
    } else {
      var e := more[0];
      assert more == [e] && e in more;
      BegunLater(s.log, e);
    }
  }

  lemma HandleInOrder(cfg: Config, sh: Shared, s: Server, c: nat, ch: Choice, s': Server, h': Handler)
    requires sh == s.sh && c in s.conns && Running(s.conns[c].pc) && s'.conns == s.conns[c := h']
    requires s'.knockers == s.knockers && s'.packets == s.packets
    ensures InOrder(s, s', HandlerEvents(cfg, sh, c, s.conns[c], ch))
    ensures |HandlerEvents(cfg, sh, c, s.conns[c], ch)| <= 1
  {
    HandlerMarks(cfg, sh, c, s.conns[c], ch);
  }

  lemma KnockInOrder(cfg: Config, s: Server, id: nat, ch: Choice, s': Server, k': Knocker)
    requires id in s.knockers && s'.knockers == s.knockers[id := k'] && s'.conns == s.conns && s'.packets == s.packets
    ensures var more := KnockEvents(cfg, s.sh, id, s.knockers[id], ch); InOrder(s, s', more) && |more| <= 1
  {
  }

  lemma PacketInOrder(s: Server, id: nat, ch: Choice, s': Server, p': Arrival)
    requires id in s.packets && s'.packets == s.packets[id := p'] && s'.conns == s.conns && s'.knockers == s.knockers
    ensures var more := PacketEvents(s.sh, id, s.packets[id], ch); InOrder(s, s', more) && |more| <= 1
  {
  }

  lemma PipeKeepsTraced(cfg: Config, s: Server, a: Action, s': Server)
    requires Traced(s) && PipeStep(cfg, s, a, s')
    ensures Traced(s')
  {
    hide PipeStep, Traced;
    PipeMoves(cfg, s, a, s');
    TracedNext(s, s', if a.Take? then [Begun(OfConn(s.pipe.queue[0]))] else []);
  }

  lemma StepKeepsTraced(cfg: Config, s: Server, a: Action, s': Server)
    requires Traced(s) && Step(cfg, s, a, s')
    ensures Traced(s')
  {
    hide Traced, InOrder, PipeStep, HandlerEvents, KnockEvents, PacketEvents, After, BanPart, StorePart, RatePart;
    assert s.log + [] == s.log;
    match a
    case Handle(c, ch) =>
      HandleInOrder(cfg, s.sh, s, c, ch, s', s'.conns[c]);
      TracedNext(s, s', HandlerEvents(cfg, s.sh, c, s.conns[c], ch));
    case Knock(id, ch) =>
      KnockInOrder(cfg, s, id, ch, s', s'.knockers[id]);
      TracedNext(s, s', KnockEvents(cfg, s.sh, id, s.knockers[id], ch));
    case Packet(id, ch) =>
      PacketInOrder(s, id, ch, s', s'.packets[id]);
      TracedNext(s, s', PacketEvents(s.sh, id, s.packets[id], ch));
    case Tick(_) =>
      NobodyBegins(s, s');
      TracedNext(s, s', []);
    case PacketArrives(id, _) =>
      PacketBeginsNow(s, s', id);
      TracedNext(s, s', [Begun(OfPacket(id))]);
    case KnockArrives(id, _, _, _) =>
      KnockBeginsNow(s, s', id);
      TracedNext(s, s', [Begun(OfKnock(id))]);
    case _ => PipeKeepsTraced(cfg, s, a, s');
  }

  lemma NobodyBegins(s: Server, s': Server)
    requires s'.conns == s.conns && s'.knockers == s.knockers && s'.packets == s.packets
    ensures InOrder(s, s', [])
  {
  }

  lemma PacketBeginsNow(s: Server, s': Server, id: nat)
    requires id in s'.packets && s'.packets == s.packets[id := s'.packets[id]]
    requires s'.conns == s.conns && s'.knockers == s.knockers
    ensures InOrder(s, s', [Begun(OfPacket(id))])
  {
  }

  lemma KnockBeginsNow(s: Server, s': Server, id: nat)
    requires id in s'.knockers && s'.knockers == s.knockers[id := s'.knockers[id]]
    requires s'.conns == s.conns && s'.packets == s.packets
    ensures InOrder(s, s', [Begun(OfKnock(id))])
  {
  }

  lemma InitTraced(cfg: Config, s: Server)
    requires Init(cfg, s)
    ensures Traced(s)
  {
  }

  lemma {:induction false} TracedAlways(cfg: Config, r: Run, i: nat)
    requires Valid(cfg, r) && i <= |r.actions|
    ensures Traced(r.states[i])
  {
    hide Step, Init, Traced;
    if i == 0 {
      InitTraced(cfg, r.states[0]);
    } else {
      TracedAlways(cfg, r, i - 1);
      assert StepAt(cfg, r, i - 1);
      StepKeepsTraced(cfg, r.states[i - 1], r.actions[i - 1], r.states[i]);
    }
  }

  // ---------------------------------------------------------------------------
  // Beginning while a ban runs
  // ---------------------------------------------------------------------------

  /** Nobody begins twice, so a check passed before event `h` was not passed by who begins there. */
  lemma PassedAfterBeginning(log: seq<Event>, p: nat, h: nat)
    requires BegunFirst(log) && MarkedOnce(log) && p < |log| && h < |log| && log[p].Passed?
    requires log[h] == Begun(ActorOf(log[p].check))
    ensures h < p
  {
    var who := ActorOf(log[p].check);
    assert Begun(who) in log[..p];
    var g: nat :| g < p && log[..p][g] == Begun(who);
    assert log[g] == Begun(who);
    assert Marks(log[g], Start(who)) && Marks(log[h], Start(who));
  }

  /** Whoever begins while a ban of its IP or client runs does not act until the ban is over. */
  lemma BegunInBanDoesNotAct(cfg: Config, r: Run, i: nat, b: nat, h: nat, j: nat, check: Check)
    requires Valid(cfg, r) && i <= |r.actions|
    requires var log := r.states[i].log;
             && b < h < j < |log| && log[b].Banned? && log[h] == Begun(ActorOf(check))
             && Needs(cfg, log[j], check, log[b].key)
    ensures r.states[i].sh.clock >= r.states[i].log[b].at + cfg.bans.ttl
  {
    hide Init, StepAt, Needs, ActorOf;
    ActsOutsideBan(cfg, r, i, b, j, check);
    TracedAlways(cfg, r, i);
    MarkedOnceAlways(cfg, r, i);
    var log := r.states[i].log;
    var p: nat :| p < j && log[p].Passed? && log[p].check == check && log[p].key == log[b].key
                  && (p < b || log[p].at >= log[b].at + cfg.bans.ttl);
    PassedAfterBeginning(log, p, h);
    assert log[p] in log;
  }

  lemma MarkedOnceAlways(cfg: Config, r: Run, i: nat)
    requires Valid(cfg, r) && i <= |r.actions|
    ensures MarkedOnce(r.states[i].log)
  {
    hide Init, StepAt, ServerPipeline.Orderly;
    ServerPipeline.TidyAlways(cfg, r, i);
  }

  /**
   * A handler that starts while a ban of its IP or of its client runs does not dial until
   * the ban is over.
   */
  lemma HandlersBegunInBanDoNotDial(cfg: Config, r: Run, i: nat, b: nat, h: nat, j: nat)
    requires Valid(cfg, r) && i <= |r.actions|
    requires var log := r.states[i].log;
             && b < h < j < |log| && log[b].Banned? && log[j].Dialed? && log[h] == Begun(OfConn(log[j].conn))
             && (IPKey(log[j].ip) == log[b].key || ClientKey(log[j].client) == log[b].key)
    ensures r.states[i].sh.clock >= r.states[i].log[b].at + cfg.bans.ttl
  {
    hide Init, StepAt, IPKey, ClientKey;
    var log := r.states[i].log;
    assert log[b] in log;
    if cfg.direct {
      DirectModeNeverBans(cfg, r, i);
    } else if IPKey(log[j].ip) == log[b].key {
      BegunInBanDoesNotAct(cfg, r, i, b, h, j, ByIP(log[j].conn));
    } else {
      BegunInBanDoesNotAct(cfg, r, i, b, h, j, ByClient(log[j].conn));
    }
  }

  /** A packet that comes in while a ban of its IP runs is not admitted until the ban is over. */
  lemma PacketsBegunInBanRefused(cfg: Config, r: Run, i: nat, b: nat, h: nat, j: nat)
    requires Valid(cfg, r) && i <= |r.actions|
    requires var log := r.states[i].log;
             && b < h < j < |log| && log[b].Banned? && log[j].Admitted? && log[h] == Begun(OfPacket(log[j].id))
             && IPKey(log[j].ip) == log[b].key
    ensures r.states[i].sh.clock >= r.states[i].log[b].at + cfg.bans.ttl
  {
    hide Init, StepAt, IPKey, ClientKey;
    BegunInBanDoesNotAct(cfg, r, i, b, h, j, ByPacket(r.states[i].log[j].id));
  }

  /** A knock that is taken up while a ban of its client runs is not accepted until the ban is over. */
  lemma KnocksBegunInBanRefused(cfg: Config, r: Run, i: nat, b: nat, h: nat, j: nat)
    requires Valid(cfg, r) && i <= |r.actions|
    requires var log := r.states[i].log;
             && b < h < j < |log| && log[b].Banned? && log[j].Granted? && log[h] == Begun(OfKnock(log[j].id))
             && ClientKey(log[j].client) == log[b].key
    ensures r.states[i].sh.clock >= r.states[i].log[b].at + cfg.bans.ttl
  {
    hide Init, StepAt, IPKey, ClientKey;
    BegunInBanDoesNotAct(cfg, r, i, b, h, j, ByKnock(r.states[i].log[j].id));
  }
}
