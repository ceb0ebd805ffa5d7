/** Every handler ends in one way: it relays, or something was refused or failed. */
module ServerOutcomes {
  import opened Base
  import opened ConnectionSlots
  import opened Servers
  import opened ServerSlots
  import opened ServerSteps
  import ServerBans
  import ServerPipeline
  import ServerConduct
  import opened ServerStories
  import opened ServerDuties

  /** A relay, a failure, a banned address, no slot, no credit, or an upstream that could not be dialed. */
  predicate IsOutcome(cfg: Config, e: Event, c: nat) {
    || IsFault(cfg, e, c)
    || e == Relayed(c)
    || (e.Barred? && e.check == ByIP(c))
    || (e.SlotAsked? && e.conn == c && !e.ok)
    || (e.Unpaid? && e.conn == c)
    || (e.ClientSlotAsked? && e.conn == c && !e.ok)
    || (e.Dialed? && e.conn == c && !e.ok)
  }

  function Outcomes(cfg: Config, log: seq<Event>, c: nat): nat {
    if log == [] then 0 else Outcomes(cfg, log[..|log| - 1], c) + One(IsOutcome(cfg, log[|log| - 1], c))
  }

  lemma OutcomesNext(cfg: Config, log: seq<Event>, news: seq<Event>, c: nat)
    requires |news| <= 1
    ensures Outcomes(cfg, log + news, c)
         == Outcomes(cfg, log, c) + if news == [] then 0 else One(IsOutcome(cfg, news[0], c))
  {
    hide IsOutcome;
    if news == [] {
      assert log + news == log;
    } else {
      assert (log + news)[..|log|] == log && (log + news)[|log|] == news[0];
    }
  }

  /** The steps that come after the outcome. */
  predicate Decided(pc: Pc) {
    pc.FailIP? || pc.FailIPCount? || pc.FailClient? || pc.FailClientCount? || pc.FailRevoke? || pc.FailRemove?
    || pc.ReleaseClient? || pc.ReleaseIP? || pc.Close?
  }

  /** A handler that goes on has its outcome in this step exactly if it gets behind it in this step. */
  ghost predicate Decides(cfg: Config, c: nat, pc: Pc, pc': Pc, news: seq<Event>) {
    One(Decided(pc')) == One(Decided(pc)) + if news == [] then 0 else One(IsOutcome(cfg, news[0], c))
  }

  lemma DecidesByCheck(cfg: Config, sh: Shared, c: nat, h: Handler, ch: Choice)
    requires OfMode(cfg, h.pc) && (h.pc.BanCheck? || h.pc.AcquireIP? || h.pc.Auth? || h.pc.ClientBan?)
    ensures Decides(cfg, c, h.pc, NextPc(cfg, sh, h, ch), HandlerEvents(cfg, sh, c, h, ch))
  {
    hide IPKey, ClientKey, IPFull, ClientIsFull, FirewallAllows, NextGround;
  }

  lemma DecidesByStore(cfg: Config, sh: Shared, c: nat, h: Handler, ch: Choice)
    requires OfMode(cfg, h.pc) && (h.pc.Consume? || h.pc.Access? || h.pc.RemoveOne?)
    ensures Decides(cfg, c, h.pc, NextPc(cfg, sh, h, ch), HandlerEvents(cfg, sh, c, h, ch))
  {
    hide IPKey, ClientKey, IPFull, ClientIsFull, FirewallAllows, NextGround;
  }

  lemma DecidesByAccess(cfg: Config, sh: Shared, c: nat, h: Handler, ch: Choice)
    requires OfMode(cfg, h.pc)
    requires h.pc.DirectRevoke? || h.pc.RevokeOne? || h.pc.Lookup? || h.pc.Check? || h.pc.AcquireClient?
    ensures Decides(cfg, c, h.pc, NextPc(cfg, sh, h, ch), HandlerEvents(cfg, sh, c, h, ch))
  {
    hide IPKey, ClientKey, IPFull, ClientIsFull, FirewallAllows, NextGround;
  }

  lemma DecidesByDial(cfg: Config, sh: Shared, c: nat, h: Handler, ch: Choice)
    requires OfMode(cfg, h.pc) && (h.pc.Dial? || h.pc.WrapUp? || h.pc.Relay?)
    ensures Decides(cfg, c, h.pc, NextPc(cfg, sh, h, ch), HandlerEvents(cfg, sh, c, h, ch))
  {
    hide IPKey, ClientKey, IPFull, ClientIsFull, FirewallAllows, NextGround;
  }

  lemma DecidedFailing(cfg: Config, sh: Shared, c: nat, h: Handler, ch: Choice)
    requires OfMode(cfg, h.pc) && (h.pc.FailIP? || h.pc.FailIPCount? || h.pc.FailClient? || h.pc.FailClientCount?)
    ensures Decides(cfg, c, h.pc, NextPc(cfg, sh, h, ch), HandlerEvents(cfg, sh, c, h, ch))
  {
    hide IPKey, ClientKey, IPFull, ClientIsFull, FirewallAllows, NextGround;
  }

  lemma DecidedLeaving(cfg: Config, sh: Shared, c: nat, h: Handler, ch: Choice)
    requires OfMode(cfg, h.pc) && (h.pc.FailRevoke? || h.pc.FailRemove? || h.pc.ReleaseClient? || h.pc.ReleaseIP?)
    ensures Decides(cfg, c, h.pc, NextPc(cfg, sh, h, ch), HandlerEvents(cfg, sh, c, h, ch))
  {
    hide IPKey, ClientKey, IPFull, ClientIsFull, FirewallAllows, NextGround;
  }

  lemma HandlerDecides(cfg: Config, sh: Shared, c: nat, h: Handler, ch: Choice)
    requires Running(h.pc) && OfMode(cfg, h.pc)
    ensures Decides(cfg, c, h.pc, After(cfg, sh, h, ch).pc, HandlerEvents(cfg, sh, c, h, ch))
  {
    hide Decides, HandlerEvents, NextPc, NextGround, NextClient;
    if h.pc.BanCheck? || h.pc.AcquireIP? || h.pc.Auth? || h.pc.ClientBan? {
      DecidesByCheck(cfg, sh, c, h, ch);
    } else if h.pc.Consume? || h.pc.Access? || h.pc.RemoveOne? {
      DecidesByStore(cfg, sh, c, h, ch);
    } else if h.pc.DirectRevoke? || h.pc.RevokeOne? || h.pc.Lookup? || h.pc.Check? || h.pc.AcquireClient? {
      DecidesByAccess(cfg, sh, c, h, ch);
    } else if h.pc.Dial? || h.pc.WrapUp? || h.pc.Relay? {
      DecidesByDial(cfg, sh, c, h, ch);
    } else if h.pc.FailIP? || h.pc.FailIPCount? || h.pc.FailClient? || h.pc.FailClientCount? {
      DecidedFailing(cfg, sh, c, h, ch);
    } else {
      DecidedLeaving(cfg, sh, c, h, ch);
    }
  }

  // ---------------------------------------------------------------------------
  // Every step
  // ---------------------------------------------------------------------------

  /** One outcome behind it, none before it. A connection whose address does not parse is only closed. */
  predicate DecidedRight(cfg: Config, log: seq<Event>, c: nat, h: Handler) {
    && (InHandler(h.pc) && h.addr.Some? ==> Outcomes(cfg, log, c) == One(Decided(h.pc)))
    && (Running(h.pc) ==> h.addr.Some?)
    && (h.pc.AtLoop? || h.pc.Queued? ==> Outcomes(cfg, log, c) == 0)
  }

  ghost predicate AllDecided(cfg: Config, s: Server) {
    && (forall c <- s.conns :: DecidedRight(cfg, s.log, c, s.conns[c]))
    && (forall c: nat | c !in s.conns :: Outcomes(cfg, s.log, c) == 0)
  }

  lemma NotItsOutcome(cfg: Config, e: Event, c: nat)
    requires ConnOf(e) != Some(c)
    ensures !IsOutcome(cfg, e, c)
  {
  }

  lemma OthersUndecided(cfg: Config, log: seq<Event>, news: seq<Event>, c: nat)
    requires |news| <= 1 && (news != [] ==> ConnOf(news[0]) != Some(c))
    ensures Outcomes(cfg, log + news, c) == Outcomes(cfg, log, c)
  {
    hide IsOutcome, ConnOf;
    OutcomesNext(cfg, log, news, c);
    if news != [] {
      NotItsOutcome(cfg, news[0], c);
    }
  }

  lemma HandleKeepsDecided(cfg: Config, s: Server, c: nat, ch: Choice, s': Server)
    requires AllDecided(cfg, s) && ServerBans.ModeKept(cfg, s)
    requires Step(cfg, s, Handle(c, ch), s')
    ensures AllDecided(cfg, s')
  {
    hide HandlerStep, KnockStep, PacketStep, PipeStep, HandlerEvents, After, OfMode, Outcomes, ConnOf, IsOutcome;
    var h, h' := s.conns[c], After(cfg, s.sh, s.conns[c], ch);
    var news := HandlerEvents(cfg, s.sh, c, h, ch);
    ServerConduct.ModeFor(cfg, s, c);
    HandlerDecides(cfg, s.sh, c, h, ch);
    ServerConduct.HandlerConn(cfg, s.sh, c, h, ch);
    ServerConduct.SinceDoesNotMatter(cfg, s.sh, h, ch);
    assert news != [] ==> news[0] in news;
    OutcomesNext(cfg, s.log, news, c);
    forall d: nat | d != c
      ensures Outcomes(cfg, s'.log, d) == Outcomes(cfg, s.log, d)
    {
      OthersUndecided(cfg, s.log, news, d);
    }
  }

  /** A step in which at most connection `c` moves, and that to a place where nothing is decided. */
  lemma NobodyDecides(cfg: Config, s: Server, s': Server, news: seq<Event>, c: nat, h: Handler)
    requires AllDecided(cfg, s) && s'.log == s.log + news && |news| <= 1
    requires news != [] ==> ConnOf(news[0]) == None
    requires s'.conns == s.conns || (s'.conns == s.conns[c := h] && AtEdge(h.pc))
    requires s'.conns == s.conns || h.pc.Closed? || (Outcomes(cfg, s.log, c) == 0 && Waits(h))
    ensures AllDecided(cfg, s')
  {
    hide Outcomes, ConnOf;
    forall d: nat
      ensures Outcomes(cfg, s'.log, d) == Outcomes(cfg, s.log, d)
    {
      OthersUndecided(cfg, s.log, news, d);
    }
  }

  lemma SubjectUndecided(cfg: Config, s: Server, a: Action, s': Server)
    requires PipeStep(cfg, s, a, s') && Placed(s) && AllDecided(cfg, s) && s'.conns != s.conns
    requires a.Take? ==> s.pipe.queue != []
    requires a.Finish? ==> a.worker in s.pipe.workers && s.pipe.workers[a.worker].Busy?
    ensures var c := Subject(s, a);
            c in s'.conns && (s'.conns[c].pc.Closed? || (Outcomes(cfg, s.log, c) == 0 && Waits(s'.conns[c])))
  {
    hide Outcomes;
  }

  /** Nothing has been decided for this connection, or nothing is to be. */
  predicate Waits(h: Handler) {
    h.pc.AtLoop? || h.pc.Queued? || (h.pc.BanCheck? && h.addr.Some?) || (h.pc.Close? && h.addr.None?)
  }

  lemma PipeKeepsDecided(cfg: Config, s: Server, a: Action, s': Server)
    requires AllDecided(cfg, s) && Placed(s) && PipeStep(cfg, s, a, s')
    ensures AllDecided(cfg, s')
  {
    hide PipeStep, Subject, AllDecided, Outcomes, Placed, AtEdge;
    PipeMoves(cfg, s, a, s');
    var news := PipeNews(cfg, s, a, s');
    assert news != [] ==> news[0] in news;
    var c := Subject(s, a);
    if s'.conns != s.conns {
      SubjectUndecided(cfg, s, a, s');
      NobodyDecides(cfg, s, s', news, c, s'.conns[c]);
    } else {
      NobodyDecides(cfg, s, s', news, c, Arrived(None, 0));
    }
  }

  /** A step of a knock, of a packet or of the clock. */
  lemma NoConnMoves(cfg: Config, s: Server, a: Action, s': Server) returns (news: seq<Event>)
    requires Step(cfg, s, a, s') && (a.Knock? || a.Packet? || a.Tick? || a.PacketArrives? || a.KnockArrives?)
    ensures s'.conns == s.conns && s'.log == s.log + news && |news| <= 1
    ensures news != [] ==> ConnOf(news[0]) == None
  {
    hide PipeStep, HandlerStep, KnockStep, PacketStep, HandlerEvents, KnockEvents, PacketEvents, KnockContinue,
      PacketContinue;
    news := StepNews(cfg, s, a, s');
    if a.Knock? || a.Packet? {
      ServerConduct.NotByConn(cfg, s, a.id, a.ch);
    }
    assert news != [] ==> news[0] in news;
  }

  lemma StepKeepsDecided(cfg: Config, s: Server, a: Action, s': Server)
    requires AllDecided(cfg, s) && Placed(s) && ServerBans.ModeKept(cfg, s)
    requires Step(cfg, s, a, s')
    ensures AllDecided(cfg, s')
  {
    hide PipeStep, HandlerStep, KnockStep, PacketStep, HandlerEvents, KnockEvents, PacketEvents, AllDecided,
      Placed, After, ServerBans.ModeKept;
    if a.Handle? {
      HandleKeepsDecided(cfg, s, a.conn, a.ch, s');
    } else if a.Knock? || a.Packet? || a.Tick? || a.PacketArrives? || a.KnockArrives? {
      var news := NoConnMoves(cfg, s, a, s');
      NobodyDecides(cfg, s, s', news, 0, Arrived(None, 0));
    } else {
      PipeKeepsDecided(cfg, s, a, s');
    }
  }

  lemma {:induction false} DecidedAlways(cfg: Config, r: Run, i: nat)
    requires Valid(cfg, r) && i <= |r.actions|
    ensures AllDecided(cfg, r.states[i])
  {
    hide Step, Init, AllDecided, ServerPipeline.Tidy, ServerBans.BanSafe, ServerBans.ModeKept, Placed;
    if i == 0 {
      NothingDecided(cfg, r.states[0]);
    } else {
      DecidedAlways(cfg, r, i - 1);
      ServerPipeline.TidyAlways(cfg, r, i - 1);
      ServerPipeline.TidyPlaced(cfg, r.states[i - 1]);
      ServerBans.SafeAlways(cfg, r, i - 1);
      ServerBans.SafeMode(cfg, r.states[i - 1]);
      assert StepAt(cfg, r, i - 1);
      StepKeepsDecided(cfg, r.states[i - 1], r.actions[i - 1], r.states[i]);
    }
  }

  lemma NothingDecided(cfg: Config, s: Server)
    requires Init(cfg, s)
    ensures AllDecided(cfg, s)
  {
  }

  /**
   * In every run a handler that has come to its end has had exactly one of these: it has
   * relayed, or something that has to be recorded as a failure happened to it, or its address
   * was banned, or there was no slot for its address or for its client, or no credit, or the
   * upstream could not be dialed. So whoever passes everything is relayed, once.
   */
  lemma EveryHandlerHasOneOutcome(cfg: Config, r: Run, i: nat, c: nat)
    requires Valid(cfg, r) && i <= |r.actions| && c in r.states[i].conns
    requires r.states[i].conns[c].pc.Close? && r.states[i].conns[c].addr.Some?
    ensures Outcomes(cfg, r.states[i].log, c) == 1
  {
    hide Init, StepAt, Outcomes;
    DecidedAlways(cfg, r, i);
  }
}
