/** The conduct of every handler, in every run: what its dial, its relay and its leaving rest on. */
module ServerConduct {
  import opened Base
  import opened ConnectionSlots
  import opened Servers
  import opened ServerStories
  import opened ServerSlots
  import ServerBans
  import ServerPipeline

  ghost predicate StandsAt(cfg: Config, log: seq<Event>, c: nat, h: Handler) {
    match h.addr
    case None => !Running(h.pc)
    case Some(ip) =>
      if Running(h.pc) then h.ip == ip && Stands(cfg, h, StoryOf(cfg, log, c, ip))
      else if h.pc.Close? || h.pc.Closed? then Settled(cfg, StoryOf(cfg, log, c, ip))
      else StoryOf(cfg, log, c, ip) == Fresh(ip) && h.client == "" && !h.clientSlot
  }

  /** Every handler stands where its story says, and who has not come yet has no story. */
  ghost predicate AllStand(cfg: Config, s: Server) {
    && (forall c <- s.conns :: StandsAt(cfg, s.log, c, s.conns[c]))
    && (forall c: nat, ip | c !in s.conns :: StoryOf(cfg, s.log, c, ip) == Fresh(ip))
  }

  /** What event `j` rests on, if it is a dial, a relay or a handler giving back its slot. */
  ghost predicate RightAt(cfg: Config, conns: map<nat, Handler>, log: seq<Event>, j: nat)
    requires j < |log|
  {
    var e := log[j];
    && (e.Dialed? ==>
          e.conn in conns && conns[e.conn].addr == Some(e.ip)
          && var s := StoryOf(cfg, log[..j], e.conn, e.ip); DialRests(cfg, s) && s.client == e.client)
    && (e.Relayed? ==>
          e.conn in conns && conns[e.conn].addr.Some?
          && RelayRests(cfg, StoryOf(cfg, log[..j], e.conn, conns[e.conn].addr.value)))
    && (e.Left? ==>
          e.conn in conns && conns[e.conn].addr == Some(e.ip)
          && var s := StoryOf(cfg, log[..j], e.conn, e.ip); Settled(cfg, s) && s.clientLeaves == s.clientSlots)
  }

  ghost predicate AllRight(cfg: Config, conns: map<nat, Handler>, log: seq<Event>) {
    forall j: nat | j < |log| :: RightAt(cfg, conns, log, j)
  }

  // ---------------------------------------------------------------------------
  // History grows
  // ---------------------------------------------------------------------------

  lemma StoryLater(cfg: Config, log: seq<Event>, more: seq<Event>, c: nat, ip: string)
    requires |more| <= 1
    ensures StoryOf(cfg, log + more, c, ip) ==
              if more != [] && ConnOf(more[0]) == Some(c) then Told(cfg, StoryOf(cfg, log, c, ip), more[0])
              else StoryOf(cfg, log, c, ip)
  {
    hide Told, ConnOf;
    if more == [] {
      assert log + more == log;
    } else {
      assert (log + more)[..|log|] == log;
    }
  }

  /** Connections keep their addresses. */
  ghost predicate SameAddresses(conns: map<nat, Handler>, conns': map<nat, Handler>) {
    forall c <- conns :: c in conns' && conns'[c].addr == conns[c].addr
  }

  lemma RightLater(cfg: Config, conns: map<nat, Handler>, conns': map<nat, Handler>, log: seq<Event>, more: seq<Event>)
    requires AllRight(cfg, conns, log) && SameAddresses(conns, conns') && |more| <= 1
    requires more != [] ==> RightAt(cfg, conns', log + more, |log|)
    ensures AllRight(cfg, conns', log + more)
  {
    hide StoryOf, DialRests, RelayRests, Settled;
    forall j: nat | j < |log + more|
      ensures RightAt(cfg, conns', log + more, j)
    {
      if j < |log| {
        assert RightAt(cfg, conns, log, j);
        assert (log + more)[..j] == log[..j] && (log + more)[j] == log[j];
      }
    }
  }

  /** A step in which handler `c` moves to `h`, or nobody does. */
  lemma AllStandNext(cfg: Config, s: Server, s': Server, more: seq<Event>, c: nat, h: Handler)
    requires AllStand(cfg, s) && |more| <= 1 && s'.log == s.log + more && s'.conns == s.conns[c := h]
    requires more != [] ==> ConnOf(more[0]) == None || ConnOf(more[0]) == Some(c)
    requires StandsAt(cfg, s'.log, c, h)
    ensures AllStand(cfg, s')
  {
    hide StandsAt, ConnOf, Told;
    forall d | d in s'.conns
      ensures StandsAt(cfg, s'.log, d, s'.conns[d])
    {
      if d != c {
        StandsOn(cfg, s.log, more, d, s.conns[d]);
      }
    }
    forall d: nat, ip | d !in s'.conns
      ensures StoryOf(cfg, s'.log, d, ip) == Fresh(ip)
    {
      StoryLater(cfg, s.log, more, d, ip);
    }
  }

  /** What others do does not touch a handler's story. */
  lemma StandsOn(cfg: Config, log: seq<Event>, more: seq<Event>, d: nat, h: Handler)
    requires StandsAt(cfg, log, d, h) && |more| <= 1 && (more != [] ==> ConnOf(more[0]) != Some(d))
    ensures StandsAt(cfg, log + more, d, h)
  {
    hide StoryOf, Stands, ConnOf, Settled, Told;
    if h.addr.Some? {
      StoryLater(cfg, log, more, d, h.addr.value);
    }
  }

  lemma NobodyStandsElsewhere(cfg: Config, s: Server, s': Server, more: seq<Event>)
    requires AllStand(cfg, s) && |more| <= 1 && s'.log == s.log + more && s'.conns == s.conns
    requires more != [] ==> ConnOf(more[0]) == None
    ensures AllStand(cfg, s')
  {
    hide StandsAt, ConnOf, Told;
    forall d | d in s'.conns
      ensures StandsAt(cfg, s'.log, d, s'.conns[d])
    {
      StandsOn(cfg, s.log, more, d, s.conns[d]);
    }
    forall d: nat, ip | d !in s'.conns
      ensures StoryOf(cfg, s'.log, d, ip) == Fresh(ip)
    {
      StoryLater(cfg, s.log, more, d, ip);
    }
  }

  // ---------------------------------------------------------------------------
  // Every step
  // ---------------------------------------------------------------------------

  lemma HandlerConn(cfg: Config, sh: Shared, c: nat, h: Handler, ch: Choice)
    ensures forall e <- HandlerEvents(cfg, sh, c, h, ch) :: ConnOf(e) == Some(c) || ConnOf(e) == None
    ensures forall e <- HandlerEvents(cfg, sh, c, h, ch) :: ConnOf(e) == None ==> e.Counted?
  {
    hide IPKey, ClientKey, IPFull, ClientIsFull, FirewallAllows;
  }

  lemma CountedTellsNothing(cfg: Config, s: Story, e: Event)
    requires e.Counted?
    ensures Told(cfg, s, e) == s
  {
  }

  lemma NextStory(cfg: Config, log: seq<Event>, sh: Shared, c: nat, h: Handler, ch: Choice, ip: string)
    ensures var more := HandlerEvents(cfg, sh, c, h, ch);
            StoryOf(cfg, log + more, c, ip) == Next(cfg, StoryOf(cfg, log, c, ip), more)
  {
    hide HandlerEvents, StoryOf, Told, ConnOf;
    var more := HandlerEvents(cfg, sh, c, h, ch);
    HandlerConn(cfg, sh, c, h, ch);
    StoryLater(cfg, log, more, c, ip);
    if more != [] {
      assert more[0] in more;
      if more[0].Counted? {
        CountedTellsNothing(cfg, StoryOf(cfg, log, c, ip), more[0]);
      }
    }
  }

  lemma EventPc(cfg: Config, sh: Shared, c: nat, h: Handler, ch: Choice)
    ensures forall e <- HandlerEvents(cfg, sh, c, h, ch) ::
              && (e.Dialed? ==> h.pc.Dial? && e.conn == c && e.ip == h.ip && e.client == h.client)
              && (e.Relayed? ==> h.pc.Relay? && e.conn == c)
              && (e.Left? ==> h.pc.ReleaseIP? && e.conn == c && e.ip == h.ip)
  {
    hide IPKey, ClientKey, IPFull, ClientIsFull, FirewallAllows;
  }

  lemma StandsWhere(cfg: Config, h: Handler, s: Story)
    requires Stands(cfg, h, s)
    ensures h.pc.Dial? ==> DialRests(cfg, s)
    ensures h.pc.Relay? ==> RelayRests(cfg, s)
    ensures h.pc.ReleaseIP? ==> Settled(cfg, s) && s.clientLeaves == s.clientSlots
  {
    hide DialRests, RelayRests, Settled;
  }

  lemma StandsStays(cfg: Config, h: Handler, s: Story)
    requires Stands(cfg, h, s) && h.pc.Close?
    ensures Settled(cfg, s)
  {
  }

  lemma SinceDoesNotMatter(cfg: Config, sh: Shared, h: Handler, ch: Choice)
    requires Running(h.pc)
    ensures var h' := After(cfg, sh, h, ch); h'.addr == h.addr && h'.ip == h.ip && (Running(h'.pc) || h'.pc.Close?)
  {
    hide NextGround, NextClient, IPFull, ClientIsFull, FirewallAllows, LeavePc, FailNextPc;
    assert Running(LeavePc(h)) && Running(FailNextPc(h)) by {
      LeavesRunning(h);
    }
  }

  lemma LeavesRunning(h: Handler)
    ensures Running(LeavePc(h)) && Running(FailNextPc(h))
  {
  }

  lemma HandleKeepsStory(cfg: Config, s: Server, c: nat, ch: Choice, s': Server)
    requires AllStand(cfg, s) && ServerBans.ModeKept(cfg, s) && Step(cfg, s, Handle(c, ch), s')
    requires AllRight(cfg, s.conns, s.log)
    ensures AllStand(cfg, s') && AllRight(cfg, s'.conns, s'.log)
  {
    hide HandlerStep, After, HandlerEvents, Stands, Settled, DialRests, RelayRests, StoryOf, OfMode, Next, AllStand,
      RightAt, AllRight, PipeStep, KnockStep, PacketStep, ConnOf, Told;
    var h, h' := s.conns[c], After(cfg, s.sh, s.conns[c], ch);
    var more := HandlerEvents(cfg, s.sh, c, h, ch);
    StandsFor(cfg, s, c);
    var ip := h.addr.value;
    var story := StoryOf(cfg, s.log, c, ip);
    ModeFor(cfg, s, c);
    StoryGoesOn(cfg, s.sh, c, h, ch, story);
    NextStory(cfg, s.log, s.sh, c, h, ch, ip);
    SinceDoesNotMatter(cfg, s.sh, h, ch);
    if h'.pc.Close? {
      StandsStays(cfg, h', Next(cfg, story, more));
    }
    HandlerConn(cfg, s.sh, c, h, ch);
    assert more != [] ==> more[0] in more;
    AllStandNext(cfg, s, s', more, c, h');
    EventPc(cfg, s.sh, c, h, ch);
    StandsWhere(cfg, h, story);
    RightNow(cfg, s, s', c, h', more);
    RightLater(cfg, s.conns, s'.conns, s.log, more);
  }

  lemma ModeFor(cfg: Config, s: Server, c: nat)
    requires ServerBans.ModeKept(cfg, s) && c in s.conns
    ensures OfMode(cfg, s.conns[c].pc)
  {
  }

  lemma StandsFor(cfg: Config, s: Server, c: nat)
    requires AllStand(cfg, s) && c in s.conns && Running(s.conns[c].pc)
    ensures var h := s.conns[c];
            && h.addr == Some(h.ip) && Stands(cfg, h, StoryOf(cfg, s.log, c, h.ip))
            && StoryOf(cfg, s.log, c, h.ip).client == h.client
  {
    hide Stands, StoryOf;
    var h := s.conns[c];
    assert StandsAt(cfg, s.log, c, h);
    StandsClient(cfg, h, StoryOf(cfg, s.log, c, h.ip));
  }

  lemma StandsClient(cfg: Config, h: Handler, s: Story)
    requires Stands(cfg, h, s)
    ensures s.client == h.client
  {
  }

  lemma RightNow(cfg: Config, s: Server, s': Server, c: nat, h': Handler, more: seq<Event>)
    requires c in s.conns && s.conns[c].addr == Some(s.conns[c].ip) == h'.addr && s'.conns == s.conns[c := h']
    requires |more| <= 1
    requires forall e <- more ::
               var story := StoryOf(cfg, s.log, c, s.conns[c].ip);
               && (e.Dialed? ==>
                     e.conn == c && e.ip == s.conns[c].ip && e.client == s.conns[c].client && DialRests(cfg, story))
               && (e.Relayed? ==> e.conn == c && RelayRests(cfg, story))
               && (e.Left? ==>
                     && e.conn == c && e.ip == s.conns[c].ip
                     && Settled(cfg, story) && story.clientLeaves == story.clientSlots)
    requires StoryOf(cfg, s.log, c, s.conns[c].ip).client == s.conns[c].client
    ensures more != [] ==> RightAt(cfg, s'.conns, s.log + more, |s.log|)
  {
    hide StoryOf, DialRests, RelayRests, Settled;
    if more != [] {
      assert more[0] in more;
      assert (s.log + more)[..|s.log|] == s.log && (s.log + more)[|s.log|] == more[0];
    }
  }

  lemma NoNewsKeepsRight(cfg: Config, s: Server, s': Server, more: seq<Event>)
    requires AllRight(cfg, s.conns, s.log) && SameAddresses(s.conns, s'.conns)
    requires |more| <= 1 && s'.log == s.log + more && forall e <- more :: !e.Dialed? && !e.Relayed? && !e.Left?
    ensures AllRight(cfg, s'.conns, s'.log)
  {
    hide StoryOf, DialRests, RelayRests, Settled, AllRight;
    if more != [] {
      assert more[0] in more && (s.log + more)[|s.log|] == more[0];
    }
    RightLater(cfg, s.conns, s'.conns, s.log, more);
  }

  lemma ArrivalStands(cfg: Config, s: Server, c: nat, addr: Option<string>)
    requires AllStand(cfg, s) && c !in s.conns
    ensures StandsAt(cfg, s.log, c, Arrived(addr, s.sh.clock))
  {
    hide StoryOf, Stands, Settled;
  }

  lemma FreshSettled(cfg: Config, ip: string)
    ensures Settled(cfg, Fresh(ip))
  {
  }

  lemma WaitingStands(cfg: Config, s: Server, c: nat, pc: Pc)
    requires AllStand(cfg, s) && c in s.conns && (s.conns[c].pc.AtLoop? || s.conns[c].pc.Queued?)
    requires pc.Queued? || pc.Closed?
    ensures StandsAt(cfg, s.log, c, s.conns[c].(pc := pc))
  {
    hide StoryOf, Stands, Settled;
    assert StandsAt(cfg, s.log, c, s.conns[c]);
    if s.conns[c].addr.Some? {
      FreshSettled(cfg, s.conns[c].addr.value);
    }
  }

  lemma StartStands(cfg: Config, s: Server, c: nat)
    requires AllStand(cfg, s) && c in s.conns && s.conns[c].pc.Queued?
    ensures StandsAt(cfg, s.log, c, Started(s.conns[c], s.sh.clock))
  {
    hide StoryOf, Settled;
    assert StandsAt(cfg, s.log, c, s.conns[c]);
  }

  lemma FinishedStands(cfg: Config, s: Server, c: nat, h': Handler)
    requires AllStand(cfg, s) && c in s.conns && s.conns[c].pc.Close? && h' == s.conns[c].(pc := Closed)
    ensures StandsAt(cfg, s.log, c, h')
  {
    hide StoryOf, Settled;
    assert StandsAt(cfg, s.log, c, s.conns[c]);
  }

  lemma PipeKeepsStories(cfg: Config, s: Server, a: Action, s': Server)
    requires AllStand(cfg, s) && AllRight(cfg, s.conns, s.log) && Placed(s) && PipeStep(cfg, s, a, s')
    ensures AllStand(cfg, s') && AllRight(cfg, s'.conns, s'.log)
  {
    hide AllStand, AllRight, StandsAt;
    PipeMoves(cfg, s, a, s');
    var more := if a.Take? then [Begun(OfConn(s.pipe.queue[0]))] else [];
    var c := Subject(s, a);
    if s'.conns == s.conns {
      NobodyStandsElsewhere(cfg, s, s', more);
    } else {
      SubjectStands(cfg, s, a, s');
      AllStandLog(cfg, s, more, c, s'.conns[c]);
      AllStandNext(cfg, s, s', more, c, s'.conns[c]);
    }
    NoNewsKeepsRight(cfg, s, s', more);
  }

  lemma AllStandLog(cfg: Config, s: Server, more: seq<Event>, c: nat, h: Handler)
    requires StandsAt(cfg, s.log, c, h) && |more| <= 1 && (more != [] ==> more[0].Begun?)
    ensures StandsAt(cfg, s.log + more, c, h)
  {
    hide StandsAt;
    StandsOn(cfg, s.log, more, c, h);
  }

  lemma SubjectStands(cfg: Config, s: Server, a: Action, s': Server)
    requires AllStand(cfg, s) && Placed(s) && PipeStep(cfg, s, a, s') && s'.conns != s.conns
    requires a.Take? ==> s.pipe.queue != []
    requires a.Finish? ==> a.worker in s.pipe.workers && s.pipe.workers[a.worker].Busy?
    ensures Subject(s, a) in s'.conns && StandsAt(cfg, s.log, Subject(s, a), s'.conns[Subject(s, a)])
    ensures SameAddresses(s.conns, s'.conns)
  {
    hide AllStand, StandsAt;
    var c := Subject(s, a);
    if a.Accept? {
      ArrivalStands(cfg, s, c, a.addr);
    } else if a.Take? {
      StartStands(cfg, s, c);
    } else if a.Finish? {
      FinishedStands(cfg, s, c, s'.conns[c]);
    } else {
      WaitingStands(cfg, s, c, if a.Enqueue? then Queued else Closed);
    }
  }

  lemma StepKeepsStories(cfg: Config, s: Server, a: Action, s': Server)
    requires AllStand(cfg, s) && AllRight(cfg, s.conns, s.log) && Placed(s) && ServerBans.ModeKept(cfg, s)
    requires Step(cfg, s, a, s')
    ensures AllStand(cfg, s') && AllRight(cfg, s'.conns, s'.log)
  {
    hide AllStand, AllRight, Placed, PipeStep, HandlerStep, KnockStep, PacketStep, HandlerEvents, KnockEvents,
      PacketEvents;
    assert s.log + [] == s.log;
    match a
    case Handle(c, ch) => HandleKeepsStory(cfg, s, c, ch, s');
    case Knock(id, ch) =>
      NotByConn(cfg, s, id, ch);
      NobodyMoves(cfg, s, s', KnockEvents(cfg, s.sh, id, s.knockers[id], ch));
    case Packet(id, ch) =>
      NotByConn(cfg, s, id, ch);
      NobodyMoves(cfg, s, s', PacketEvents(s.sh, id, s.packets[id], ch));
    case Tick(_) => NobodyMoves(cfg, s, s', []);
    case PacketArrives(id, _) => NobodyMoves(cfg, s, s', [Begun(OfPacket(id))]);
    case KnockArrives(id, _, _, _) => NobodyMoves(cfg, s, s', [Begun(OfKnock(id))]);
    case _ => PipeKeepsStories(cfg, s, a, s');
  }

  lemma NotByConn(cfg: Config, s: Server, id: nat, ch: Choice)
    ensures id in s.knockers ==>
              forall e <- KnockEvents(cfg, s.sh, id, s.knockers[id], ch) ::
                ConnOf(e) == None && !e.Dialed? && !e.Relayed? && !e.Left?
    ensures id in s.packets ==>
              forall e <- PacketEvents(s.sh, id, s.packets[id], ch) ::
                ConnOf(e) == None && !e.Dialed? && !e.Relayed? && !e.Left?
  {
  }

  lemma NobodyMoves(cfg: Config, s: Server, s': Server, more: seq<Event>)
    requires AllStand(cfg, s) && AllRight(cfg, s.conns, s.log) && s'.conns == s.conns
    requires |more| <= 1 && s'.log == s.log + more
    requires forall e <- more :: ConnOf(e) == None && !e.Dialed? && !e.Relayed? && !e.Left?
    ensures AllStand(cfg, s') && AllRight(cfg, s'.conns, s'.log)
  {
    hide AllStand, AllRight, ConnOf;
    assert more != [] ==> more[0] in more;
    NobodyStandsElsewhere(cfg, s, s', more);
    NoNewsKeepsRight(cfg, s, s', more);
  }

  lemma InitStories(cfg: Config, s: Server)
    requires Init(cfg, s)
    ensures AllStand(cfg, s) && AllRight(cfg, s.conns, s.log)
  {
  }

  lemma {:induction false} StoriesAlways(cfg: Config, r: Run, i: nat)
    requires Valid(cfg, r) && i <= |r.actions|
    ensures AllStand(cfg, r.states[i]) && AllRight(cfg, r.states[i].conns, r.states[i].log)
  {
    hide Step, Init, AllStand, AllRight, ServerBans.BanSafe, ServerBans.ModeKept, Placed, ServerPipeline.Tidy;
    if i == 0 {
      InitStories(cfg, r.states[0]);
    } else {
      StoriesAlways(cfg, r, i - 1);
      ServerBans.SafeAlways(cfg, r, i - 1);
      ServerBans.SafeMode(cfg, r.states[i - 1]);
      ServerPipeline.TidyAlways(cfg, r, i - 1);
      ServerPipeline.TidyPlaced(cfg, r.states[i - 1]);
      assert StepAt(cfg, r, i - 1);
      StepKeepsStories(cfg, r.states[i - 1], r.actions[i - 1], r.states[i]);
    }
  }
}
