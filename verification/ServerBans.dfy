/**
 * Bans end to end: what a banned IP and a banned client can no longer do, whatever else
 * goes on.
 */
module ServerBans {
  import opened Base
  import Bans
  import opened ConnectionSlots
  import opened Servers

  /** The ban made at `at` is in the tracker in full as long as it runs. */
  ghost predicate Holds(cfg: Config, sh: Shared, key: string, at: int) {
    sh.clock < at + cfg.bans.ttl ==>
      key in sh.bans.bannedTil && at + cfg.bans.ttl <= sh.bans.bannedTil[key]
  }

  ghost predicate AllHold(cfg: Config, sh: Shared, log: seq<Event>) {
    forall e <- log :: e.Banned? ==> Holds(cfg, sh, e.key, e.at)
  }

  /** Nobody passes a ban check for a key while a ban of that key runs. */
  predicate Respects(cfg: Config, ban: Event, later: Event)
    requires ban.Banned?
  {
    later.Passed? && later.key == ban.key ==> later.at >= ban.at + cfg.bans.ttl
  }

  ghost predicate RespectsAll(cfg: Config, log: seq<Event>, e: Event) {
    forall b <- log :: b.Banned? ==> Respects(cfg, b, e)
  }

  ghost predicate BansRespected(cfg: Config, log: seq<Event>) {
    forall i, j | 0 <= i < j < |log| && log[i].Banned? :: Respects(cfg, log[i], log[j])
  }

  /** This check of this key was passed at some time. */
  ghost predicate HasPassed(log: seq<Event>, check: Check, key: string) {
    exists p: nat :: p < |log| && log[p].Passed? && log[p].check == check && log[p].key == key
  }

  // ---------------------------------------------------------------------------
  // Who must have passed which check
  // ---------------------------------------------------------------------------

  /**
   * A dial needs the handler's check of its IP and, outside direct mode, of its client;
   * an accepted knock the check of its client; an admitted packet the check of its IP.
   */
  predicate Needs(cfg: Config, e: Event, check: Check, key: string) {
    match e
    case Dialed(c, ip, client, _, _) =>
      (check == ByIP(c) && key == IPKey(ip)) || (!cfg.direct && check == ByClient(c) && key == ClientKey(client))
    case Granted(id, _, client, _, _, _) => check == ByKnock(id) && key == ClientKey(client)
    case Admitted(id, ip, _) => check == ByPacket(id) && key == IPKey(ip)
    case _ => false
  }

  ghost predicate ActsCleared(cfg: Config, log: seq<Event>) {
    forall j: nat, check, key | j < |log| && Needs(cfg, log[j], check, key) :: HasPassed(log[..j], check, key)
  }

  predicate PastBanCheck(pc: Pc) {
    InHandler(pc) && !pc.BanCheck? && !pc.Close?
  }

  predicate PastClientCheck(pc: Pc) {
    pc.Lookup? || pc.Access? || pc.Check? || pc.AcquireClient? || pc.RemoveOne? || pc.RevokeOne? || pc.Dial?
  }

  /** Where a handler, a knock or a packet stands says that it has passed this check. */
  predicate Cleared(cfg: Config, s: Server, check: Check, key: string) {
    match check
    case ByIP(c) => c in s.conns && PastBanCheck(s.conns[c].pc) && key == IPKey(s.conns[c].ip)
    case ByClient(c) =>
      !cfg.direct && c in s.conns && PastClientCheck(s.conns[c].pc) && key == ClientKey(s.conns[c].client)
    case ByKnock(id) =>
      id in s.knockers && !s.knockers[id].pc.KBan? && !s.knockers[id].pc.KDone?
      && key == ClientKey(s.knockers[id].client)
    case ByPacket(id) =>
      id in s.packets && !s.packets[id].pc.PBan? && !s.packets[id].pc.PDone? && key == IPKey(s.packets[id].ip)
  }

  ghost predicate AllCleared(cfg: Config, s: Server) {
    forall check, key | Cleared(cfg, s, check, key) :: HasPassed(s.log, check, key)
  }

  ghost predicate ModeKept(cfg: Config, s: Server) {
    forall c <- s.conns :: OfMode(cfg, s.conns[c].pc)
  }

  ghost predicate BanSafe(cfg: Config, s: Server) {
    && s.sh.clock > 0
    && Bans.Inv(cfg.bans, s.sh.bans, s.sh.clock)
    && AllHold(cfg, s.sh, s.log)
    && BansRespected(cfg, s.log)
    && AllCleared(cfg, s)
    && ActsCleared(cfg, s.log)
    && ModeKept(cfg, s)
  }

  // ---------------------------------------------------------------------------
  // The tracker
  // ---------------------------------------------------------------------------

  /** One call at the present time keeps every ban that runs. */
  lemma CallKeepsBans(cfg: Config, sh: Shared, log: seq<Event>, call: Bans.Call, bans': Bans.Tracker, reply: Bans.Reply)
    requires sh.clock > 0 && Bans.Inv(cfg.bans, sh.bans, sh.clock) && AllHold(cfg, sh, log)
    requires call.now == sh.clock && Bans.Step(cfg.bans, sh.bans, call, bans', reply)
    ensures Bans.Inv(cfg.bans, bans', sh.clock) && AllHold(cfg, sh.(bans := bans'), log)
  {
    hide Bans.Step, Bans.Inv;
    Bans.StepKeepsInv(cfg.bans, sh.bans, call, bans', reply, sh.clock);
    forall e | e in log && e.Banned?
      ensures Holds(cfg, sh.(bans := bans'), e.key, e.at)
    {
      assert Holds(cfg, sh, e.key, e.at);
      if sh.clock < e.at + cfg.bans.ttl {
        Bans.StepKeepsBan(cfg.bans, sh.bans, call, bans', reply, sh.clock, e.key, e.at + cfg.bans.ttl);
      }
    }
  }

  /** A question about a key answered with no means that none of its bans runs. */
  lemma NotBanned(cfg: Config, sh: Shared, log: seq<Event>, check: Check, key: string, bans': Bans.Tracker)
    requires AllHold(cfg, sh, log)
    requires Bans.Step(cfg.bans, sh.bans, Bans.IsBanned(key, sh.clock), bans', Bans.Flag(false))
    ensures RespectsAll(cfg, log, Passed(check, key, sh.clock))
  {
    forall e | e in log && e.Banned? && e.key == key
      ensures sh.clock >= e.at + cfg.bans.ttl
    {
      assert Holds(cfg, sh, e.key, e.at);
    }
  }

  lemma NewBan(cfg: Config, sh: Shared, key: string, bans': Bans.Tracker)
    requires sh.clock > 0 && Bans.Inv(cfg.bans, sh.bans, sh.clock)
    requires Bans.Step(cfg.bans, sh.bans, Bans.RecordFailure(key, sh.clock), bans', Bans.Flag(true))
    ensures Holds(cfg, sh.(bans := bans'), key, sh.clock)
  {
    hide Bans.Step, Bans.Inv;
    Bans.BanningStep(cfg.bans, sh.bans, key, sh.clock, bans', sh.clock);
  }

  /** Any call on the tracker, and the event it leaves. */
  lemma CallEvents(cfg: Config, sh: Shared, log: seq<Event>, call: Bans.Call, bans': Bans.Tracker, reply: Bans.Reply,
                   check: Check)
    requires sh.clock > 0 && Bans.Inv(cfg.bans, sh.bans, sh.clock) && AllHold(cfg, sh, log)
    requires call.now == sh.clock && Bans.Step(cfg.bans, sh.bans, call, bans', reply)
    ensures forall e <- BanEvents(check, call, reply) ::
              RespectsAll(cfg, log, e) && (e.Banned? ==> Holds(cfg, sh.(bans := bans'), e.key, e.at))
  {
    hide Bans.Inv, AllHold, Holds, RespectsAll;
    if call.IsBanned? && reply != Bans.Flag(true) {
      assert reply == Bans.Flag(false);
      NotBanned(cfg, sh, log, check, call.key, bans');
    } else if call.RecordFailure? && reply == Bans.Flag(true) {
      NewBan(cfg, sh, call.key, bans');
      NoPass(cfg, log, Banned(check, call.key, call.now));
    } else {
      forall e | e in BanEvents(check, call, reply) ensures RespectsAll(cfg, log, e) {
        NoPass(cfg, log, e);
      }
    }
  }

  lemma NoPass(cfg: Config, log: seq<Event>, e: Event)
    requires !e.Passed?
    ensures RespectsAll(cfg, log, e)
  {
  }

  // ---------------------------------------------------------------------------
  // History
  // ---------------------------------------------------------------------------

  lemma PassedLater(log: seq<Event>, e: Event, check: Check, key: string)
    requires HasPassed(log, check, key)
    ensures HasPassed(log + [e], check, key)
  {
    var p: nat :| p < |log| && log[p].Passed? && log[p].check == check && log[p].key == key;
    assert (log + [e])[p] == log[p];
  }

  lemma PassedNow(log: seq<Event>, check: Check, key: string, at: int)
    ensures HasPassed(log + [Passed(check, key, at)], check, key)
  {
    assert (log + [Passed(check, key, at)])[|log|] == Passed(check, key, at);
  }

  lemma RespectedLater(cfg: Config, log: seq<Event>, e: Event)
    requires BansRespected(cfg, log) && RespectsAll(cfg, log, e)
    ensures BansRespected(cfg, log + [e])
  {
    var log' := log + [e];
    forall i, j | 0 <= i < j < |log'| && log'[i].Banned?
      ensures Respects(cfg, log'[i], log'[j])
    {
      assert log'[i] == log[i] && log[i] in log;
    }
  }

  lemma ActsLater(cfg: Config, log: seq<Event>, e: Event)
    requires ActsCleared(cfg, log)
    requires forall check, key | Needs(cfg, e, check, key) :: HasPassed(log, check, key)
    ensures ActsCleared(cfg, log + [e])
  {
    hide HasPassed, Needs;
    var log' := log + [e];
    forall j: nat, check, key | j < |log'| && Needs(cfg, log'[j], check, key)
      ensures HasPassed(log'[..j], check, key)
    {
      if j < |log| {
        assert log'[..j] == log[..j] && log'[j] == log[j];
      } else {
        assert log'[..j] == log;
      }
    }
  }

  lemma HoldLater(cfg: Config, sh: Shared, log: seq<Event>, e: Event)
    requires AllHold(cfg, sh, log) && (e.Banned? ==> Holds(cfg, sh, e.key, e.at))
    ensures AllHold(cfg, sh, log + [e])
  {
    hide Holds;
  }

  // ---------------------------------------------------------------------------
  // Every step
  // ---------------------------------------------------------------------------

  predicate PassesNow(more: seq<Event>, check: Check, key: string) {
    more != [] && more[0].Passed? && more[0].check == check && more[0].key == key
  }

  /** Whoever stands behind a check after the step stood there before, or has just passed it. */
  ghost predicate ClearedByStep(cfg: Config, s: Server, s': Server, more: seq<Event>) {
    forall check, key | Cleared(cfg, s', check, key) :: Cleared(cfg, s, check, key) || PassesNow(more, check, key)
  }

  /** Whoever acts in the step stood behind the checks it needs. */
  ghost predicate ActsInStep(cfg: Config, s: Server, more: seq<Event>) {
    forall e, check, key | e in more && Needs(cfg, e, check, key) :: Cleared(cfg, s, check, key)
  }

  lemma HistoryNext(cfg: Config, s: Server, s': Server, more: seq<Event>)
    requires BanSafe(cfg, s) && |more| <= 1 && s'.log == s.log + more
    requires forall e <- more :: RespectsAll(cfg, s.log, e)
    requires ClearedByStep(cfg, s, s', more) && ActsInStep(cfg, s, more)
    ensures BansRespected(cfg, s'.log) && AllCleared(cfg, s') && ActsCleared(cfg, s'.log)
  {
    hide HasPassed, Needs, Cleared, RespectsAll, AllHold, Bans.Inv, BansRespected, ActsCleared, ModeKept;
    if more == [] {
      assert s.log + more == s.log;
    } else {
      var e := more[0];
      assert more == [e] && e in more;
      RespectedLater(cfg, s.log, e);
      ActsLater(cfg, s.log, e);
      forall check, key | Cleared(cfg, s', check, key)
        ensures HasPassed(s'.log, check, key)
      {
        if PassesNow(more, check, key) {
          PassedNow(s.log, check, key, e.at);
        } else {
          PassedLater(s.log, e, check, key);
        }
      }
    }
  }

  lemma TrackerNext(cfg: Config, s: Server, sh': Shared, call: Option<Bans.Call>, reply: Bans.Reply, check: Check,
                    more: seq<Event>)
    requires BanSafe(cfg, s) && BanPart(cfg, s.sh.bans, call, sh'.bans, reply)
    requires sh'.clock == s.sh.clock && |more| <= 1
    requires call.Some? ==> call.value.now == s.sh.clock && more == BanEvents(check, call.value, reply)
    requires call == None ==> forall e <- more :: !e.Passed? && !e.Banned?
    ensures Bans.Inv(cfg.bans, sh'.bans, sh'.clock) && AllHold(cfg, sh', s.log + more)
    ensures forall e <- more :: RespectsAll(cfg, s.log, e)
  {
    hide Bans.Step, Bans.Inv, AllHold, RespectsAll, BansRespected, AllCleared, ActsCleared, ModeKept, Holds, BanEvents;
    if call.Some? {
      CallKeepsBans(cfg, s.sh, s.log, call.value, sh'.bans, reply);
      CallEvents(cfg, s.sh, s.log, call.value, sh'.bans, reply, check);
    } else {
      forall e | e in more ensures RespectsAll(cfg, s.log, e) {
        NoPass(cfg, s.log, e);
      }
    }
    SameBans(cfg, s.sh.(bans := sh'.bans), sh', s.log);
    if more == [] {
      assert s.log + more == s.log;
    } else {
      assert more == [more[0]] && more[0] in more;
      SameBan(cfg, s.sh.(bans := sh'.bans), sh', more[0]);
      HoldLater(cfg, sh', s.log, more[0]);
    }
  }

  lemma SameBans(cfg: Config, sh: Shared, sh': Shared, log: seq<Event>)
    requires sh'.bans == sh.bans && sh'.clock == sh.clock && AllHold(cfg, sh, log)
    ensures AllHold(cfg, sh', log)
  {
  }

  lemma SameBan(cfg: Config, sh: Shared, sh': Shared, e: Event)
    requires sh'.bans == sh.bans && sh'.clock == sh.clock && (e.Banned? ==> Holds(cfg, sh, e.key, e.at))
    ensures e.Banned? ==> Holds(cfg, sh', e.key, e.at)
  {
  }

  lemma HandlerMoves(cfg: Config, sh: Shared, h: Handler, ch: Choice)
    requires Running(h.pc) && (!cfg.direct ==> OfMode(cfg, h.pc))
    ensures var h' := After(cfg, sh, h, ch);
            && h'.ip == h.ip
            && (PastBanCheck(h'.pc) ==> PastBanCheck(h.pc) || (h.pc.BanCheck? && ch.ban != Bans.Flag(true)))
            && (!cfg.direct && PastClientCheck(h'.pc) ==>
                  h'.client == h.client && (PastClientCheck(h.pc) || (h.pc.ClientBan? && ch.ban != Bans.Flag(true))))
  {
    hide ClientIsFull, FirewallAllows, IPFull;
  }

  lemma AfterPc(cfg: Config, sh: Shared, h: Handler, ch: Choice)
    ensures After(cfg, sh, h, ch).pc == Continue(cfg, sh, h, ch).pc
  {
    hide Continue;
  }

  /** A handler that stands behind a check after its step stood there before or has just passed it. */
  lemma MovedClears(cfg: Config, s: Server, s': Server, c: nat, h': Handler, more: seq<Event>)
    requires c in s.conns && s'.conns == s.conns[c := h'] && s'.knockers == s.knockers && s'.packets == s.packets
    requires var h := s.conns[c];
             && h'.ip == h.ip
             && (PastBanCheck(h'.pc) ==> PastBanCheck(h.pc) || PassesNow(more, ByIP(c), IPKey(h.ip)))
             && (!cfg.direct && PastClientCheck(h'.pc) ==>
                   h'.client == h.client
                   && (PastClientCheck(h.pc) || PassesNow(more, ByClient(c), ClientKey(h.client))))
    ensures ClearedByStep(cfg, s, s', more)
  {
    hide IPKey, ClientKey, PassesNow, PastBanCheck, PastClientCheck;
  }

  lemma HandlerPasses(cfg: Config, sh: Shared, c: nat, h: Handler, ch: Choice)
    requires ch.ban != Bans.Flag(true)
    ensures h.pc.BanCheck? ==> PassesNow(HandlerEvents(cfg, sh, c, h, ch), ByIP(c), IPKey(h.ip))
    ensures h.pc.ClientBan? ==> PassesNow(HandlerEvents(cfg, sh, c, h, ch), ByClient(c), ClientKey(h.client))
  {
    hide IPKey, ClientKey;
  }

  lemma HandlerClears(cfg: Config, s: Server, c: nat, ch: Choice, s': Server)
    requires ModeKept(cfg, s) && Step(cfg, s, Handle(c, ch), s')
    ensures ClearedByStep(cfg, s, s', HandlerEvents(cfg, s.sh, c, s.conns[c], ch))
    ensures ModeKept(cfg, s')
  {
    hide HandlerStep, After, Continue, OfMode, IPKey, ClientKey, HandlerEvents, ClearedByStep, PassesNow,
      PastBanCheck, PastClientCheck, PipeStep, KnockStep, PacketStep;
    var h := s.conns[c];
    HandlerMoves(cfg, s.sh, h, ch);
    ModeGoesOn(cfg, s.sh, h, ch);
    AfterPc(cfg, s.sh, h, ch);
    if ch.ban != Bans.Flag(true) {
      HandlerPasses(cfg, s.sh, c, h, ch);
    }
    MovedClears(cfg, s, s', c, After(cfg, s.sh, h, ch), HandlerEvents(cfg, s.sh, c, h, ch));
  }

  lemma HandlerActs(cfg: Config, s: Server, c: nat, ch: Choice)
    requires c in s.conns && Running(s.conns[c].pc)
    ensures ActsInStep(cfg, s, HandlerEvents(cfg, s.sh, c, s.conns[c], ch))
  {
    hide IPKey, ClientKey;
  }

  lemma HandleKeepsSafe(cfg: Config, s: Server, c: nat, ch: Choice, s': Server)
    requires BanSafe(cfg, s) && Step(cfg, s, Handle(c, ch), s')
    ensures BanSafe(cfg, s')
  {
    hide Bans.Inv, AllHold, BansRespected, AllCleared, ActsCleared, ModeKept, ClearedByStep, ActsInStep, After,
      StorePart, FirewallAfter, SlotsAfter, RespectsAll;
    var h := s.conns[c];
    var more := HandlerEvents(cfg, s.sh, c, h, ch);
    HandlerCall(cfg, s.sh, c, h, ch);
    TrackerNext(cfg, s, s'.sh, BanCall(h, s.sh.clock), ch.ban, CheckOf(c, h), more);
    HandlerClears(cfg, s, c, ch, s');
    HandlerActs(cfg, s, c, ch);
    HistoryNext(cfg, s, s', more);
  }

  lemma HandlerCall(cfg: Config, sh: Shared, c: nat, h: Handler, ch: Choice)
    ensures var call, more := BanCall(h, sh.clock), HandlerEvents(cfg, sh, c, h, ch);
            && |more| <= 1
            && (call.Some? ==> call.value.now == sh.clock && more == BanEvents(CheckOf(c, h), call.value, ch.ban))
            && (call == None ==> forall e <- more :: !e.Passed? && !e.Banned?)
  {
  }

  lemma KnockKeepsSafe(cfg: Config, s: Server, id: nat, ch: Choice, s': Server)
    requires BanSafe(cfg, s) && Step(cfg, s, Knock(id, ch), s')
    ensures BanSafe(cfg, s')
  {
    hide Bans.Inv, AllHold, BansRespected, AllCleared, ActsCleared, ModeKept, ClearedByStep, ActsInStep,
      StorePart, KnockFirewall, RespectsAll, IPKey, ClientKey, Bans.Step;
    var k := s.knockers[id];
    var more := KnockEvents(cfg, s.sh, id, k, ch);
    TrackerNext(cfg, s, s'.sh, KnockBanCall(k, s.sh.clock), ch.ban, ByKnock(id), more);
    KnockClears(cfg, s, id, ch, s');
    HistoryNext(cfg, s, s', more);
    SameMode(cfg, s, s');
  }

  lemma KnockClears(cfg: Config, s: Server, id: nat, ch: Choice, s': Server)
    requires id in s.knockers && !s.knockers[id].pc.KDone? && s'.conns == s.conns && s'.packets == s.packets
    requires s'.knockers == s.knockers[id := KnockContinue(s.knockers[id], ch).(since := s.sh.clock)]
    ensures var more := KnockEvents(cfg, s.sh, id, s.knockers[id], ch);
            ClearedByStep(cfg, s, s', more) && ActsInStep(cfg, s, more)
  {
    hide IPKey, ClientKey;
  }

  lemma SameMode(cfg: Config, s: Server, s': Server)
    requires ModeKept(cfg, s) && s'.conns == s.conns
    ensures ModeKept(cfg, s')
  {
  }

  lemma PacketKeepsSafe(cfg: Config, s: Server, id: nat, ch: Choice, s': Server)
    requires BanSafe(cfg, s) && Step(cfg, s, Packet(id, ch), s')
    ensures BanSafe(cfg, s')
  {
    hide Bans.Inv, AllHold, BansRespected, AllCleared, ActsCleared, ModeKept, ClearedByStep, ActsInStep,
      RatePart, RespectsAll, IPKey, ClientKey, Bans.Step;
    var p := s.packets[id];
    var more := PacketEvents(s.sh, id, p, ch);
    TrackerNext(cfg, s, s'.sh, PacketBanCall(p, s.sh.clock), ch.ban, ByPacket(id), more);
    PacketClears(cfg, s, id, ch, s');
    HistoryNext(cfg, s, s', more);
    SameMode(cfg, s, s');
  }

  lemma PacketClears(cfg: Config, s: Server, id: nat, ch: Choice, s': Server)
    requires id in s.packets && s'.conns == s.conns && s'.knockers == s.knockers
    requires s'.packets == s.packets[id := PacketContinue(s.packets[id], s.sh.clock, ch)]
    ensures var more := PacketEvents(s.sh, id, s.packets[id], ch);
            ClearedByStep(cfg, s, s', more) && ActsInStep(cfg, s, more)
  {
    hide IPKey, ClientKey;
  }

  /** A step that asks nothing of the tracker and puts nobody behind a check. */
  lemma QuietStep(cfg: Config, s: Server, s': Server, more: seq<Event>)
    requires BanSafe(cfg, s) && |more| <= 1 && s'.log == s.log + more && forall e <- more :: e.Begun?
    requires s'.sh == s.sh && ClearedByStep(cfg, s, s', []) && ModeKept(cfg, s')
    ensures BanSafe(cfg, s')
  {
    hide Bans.Inv, AllHold, BansRespected, AllCleared, ActsCleared, ModeKept, RespectsAll, Bans.Step, Cleared;
    TrackerNext(cfg, s, s'.sh, None, Bans.Flag(false), ByIP(0), more);
    HistoryNext(cfg, s, s', more);
  }

  /** A connection at the edge of its handler stands behind no check. */
  lemma EdgeClears(cfg: Config, s: Server, s': Server, c: nat, h: Handler)
    requires ModeKept(cfg, s) && AtEdge(h.pc) && s'.conns == s.conns[c := h]
    requires s'.knockers == s.knockers && s'.packets == s.packets
    ensures ClearedByStep(cfg, s, s', []) && ModeKept(cfg, s')
  {
    hide IPKey, ClientKey;
  }

  lemma NobodyClears(cfg: Config, s: Server, s': Server)
    requires ModeKept(cfg, s) && s'.conns == s.conns && s'.knockers == s.knockers && s'.packets == s.packets
    ensures ClearedByStep(cfg, s, s', []) && ModeKept(cfg, s')
  {
    hide IPKey, ClientKey;
  }

  lemma PipeKeepsSafe(cfg: Config, s: Server, a: Action, s': Server)
    requires BanSafe(cfg, s) && PipeStep(cfg, s, a, s')
    ensures BanSafe(cfg, s')
  {
    hide ClearedByStep, ModeKept, PipeStep, AtEdge, Subject;
    PipeMoves(cfg, s, a, s');
    if s'.conns == s.conns {
      NobodyClears(cfg, s, s');
    } else {
      EdgeClears(cfg, s, s', Subject(s, a), s'.conns[Subject(s, a)]);
    }
    hide BanSafe;
    QuietStep(cfg, s, s', if a.Take? then [Begun(OfConn(s.pipe.queue[0]))] else []);
  }

  lemma Later(cfg: Config, s: Server, to: int)
    requires BanSafe(cfg, s) && s.sh.clock <= to
    ensures BanSafe(cfg, s.(sh := s.sh.(clock := to)))
  {
    hide BansRespected, ActsCleared, HasPassed;
    var s' := s.(sh := s.sh.(clock := to));
    assert forall check, key :: Cleared(cfg, s', check, key) <==> Cleared(cfg, s, check, key);
  }

  lemma StepKeepsSafe(cfg: Config, s: Server, a: Action, s': Server)
    requires BanSafe(cfg, s) && Step(cfg, s, a, s')
    ensures BanSafe(cfg, s')
  {
    hide PipeStep, HandlerStep, KnockStep, PacketStep, BanSafe, ClearedByStep, ModeKept;
    assert s.log + [] == s.log;
    match a
    case Handle(c, ch) => HandleKeepsSafe(cfg, s, c, ch, s');
    case Knock(id, ch) => KnockKeepsSafe(cfg, s, id, ch, s');
    case Packet(id, ch) => PacketKeepsSafe(cfg, s, id, ch, s');
    case Tick(to) => Later(cfg, s, to);
    case PacketArrives(id, ip) =>
      ArrivalClears(cfg, s, s', id, Knocker(KBan, "", "", "", 0), s'.packets[id]);
      QuietStep(cfg, s, s', [Begun(OfPacket(id))]);
    case KnockArrives(id, ip, client, nonce) =>
      ArrivalClears(cfg, s, s', id, s'.knockers[id], Arrival(PBan, "", 0));
      QuietStep(cfg, s, s', [Begun(OfKnock(id))]);
    case _ => PipeKeepsSafe(cfg, s, a, s');
  }

  /** A knock or a packet that has just come in stands before its check. */
  lemma ArrivalClears(cfg: Config, s: Server, s': Server, id: nat, k: Knocker, p: Arrival)
    requires BanSafe(cfg, s) && s'.conns == s.conns && k.pc.KBan? && p.pc.PBan?
    requires s'.knockers == s.knockers || s'.knockers == s.knockers[id := k]
    requires s'.packets == s.packets || s'.packets == s.packets[id := p]
    ensures ClearedByStep(cfg, s, s', []) && ModeKept(cfg, s')
  {
    hide IPKey, ClientKey, Bans.Inv, AllHold, BansRespected, AllCleared, ActsCleared;
  }

  lemma InitSafe(cfg: Config, s: Server)
    requires Init(cfg, s)
    ensures BanSafe(cfg, s)
  {
  }

  lemma {:induction false} SafeAlways(cfg: Config, r: Run, i: nat)
    requires Valid(cfg, r) && i <= |r.actions|
    ensures BanSafe(cfg, r.states[i])
  {
    hide Step, Init, BanSafe;
    if i == 0 {
      InitSafe(cfg, r.states[0]);
    } else {
      SafeAlways(cfg, r, i - 1);
      assert StepAt(cfg, r, i - 1);
      StepKeepsSafe(cfg, r.states[i - 1], r.actions[i - 1], r.states[i]);
    }
  }

  lemma NoBanByHandler(cfg: Config, sh: Shared, c: nat, h: Handler, ch: Choice)
    requires cfg.direct && OfMode(cfg, h.pc)
    ensures forall e <- HandlerEvents(cfg, sh, c, h, ch) :: !e.Banned?
  {
  }

  lemma NoBanByStep(cfg: Config, s: Server, a: Action, s': Server)
    requires cfg.direct && ModeKept(cfg, s) && Step(cfg, s, a, s')
    ensures |s.log| <= |s'.log| && forall e <- s'.log :: e.Banned? ==> e in s.log
  {
    hide HandlerStep, KnockStep, PacketStep, PipeStep, HandlerEvents, OfMode;
    match a
    case Handle(c, ch) => NoBanByHandler(cfg, s.sh, c, s.conns[c], ch);
    case Knock(_, _) =>
    case Packet(_, _) =>
    case Tick(_) =>
    case PacketArrives(_, _) =>
    case KnockArrives(_, _, _, _) =>
    case _ => PipeMoves(cfg, s, a, s');
  }

  /** In direct mode no failure is ever recorded, so nobody is ever banned. */
  lemma {:induction false} DirectModeNeverBans(cfg: Config, r: Run, i: nat)
    requires Valid(cfg, r) && cfg.direct && i <= |r.actions|
    ensures forall e <- r.states[i].log :: !e.Banned?
  {
    hide Step, BanSafe;
    if i > 0 {
      hide Init;
      DirectModeNeverBans(cfg, r, i - 1);
      SafeAlways(cfg, r, i - 1);
      assert StepAt(cfg, r, i - 1);
      SafeMode(cfg, r.states[i - 1]);
      NoBanByStep(cfg, r.states[i - 1], r.actions[i - 1], r.states[i]);
    }
  }

  lemma SafeMode(cfg: Config, s: Server)
    requires BanSafe(cfg, s)
    ensures ModeKept(cfg, s)
  {
  }

  // ---------------------------------------------------------------------------
  // What that means
  // ---------------------------------------------------------------------------

  /**
   * From the moment a key is banned until the ban runs out nobody passes a check of that
   * key: no packet and no handler of a banned IP, no knock and no handler of a banned client.
   */
  lemma NoCheckPassedInBan(cfg: Config, r: Run, i: nat, b: nat, j: nat)
    requires Valid(cfg, r) && i <= |r.actions|
    requires var log := r.states[i].log;
             b < j < |log| && log[b].Banned? && log[j].Passed? && log[j].key == log[b].key
    ensures r.states[i].log[j].at >= r.states[i].log[b].at + cfg.bans.ttl
  {
    hide Init, StepAt, AllCleared, ActsCleared;
    SafeAlways(cfg, r, i);
    var log := r.states[i].log;
    assert Respects(cfg, log[b], log[j]);
  }

  /** Event `j` follows a pass of this check, made before event `b` or once the ban of event `b` had run out. */
  ghost predicate ChecksOutsideBan(cfg: Config, log: seq<Event>, b: nat, j: nat, check: Check)
    requires b < j < |log| && log[b].Banned?
  {
    exists p: nat :: p < j && log[p].Passed? && log[p].check == check && log[p].key == log[b].key
      && (p < b || log[p].at >= log[b].at + cfg.bans.ttl)
  }

  lemma ActsOutsideBan(cfg: Config, r: Run, i: nat, b: nat, j: nat, check: Check)
    requires Valid(cfg, r) && i <= |r.actions|
    requires var log := r.states[i].log;
             b < j < |log| && log[b].Banned? && Needs(cfg, log[j], check, log[b].key)
    ensures ChecksOutsideBan(cfg, r.states[i].log, b, j, check)
  {
    hide Init, StepAt, AllCleared, BansRespected, Needs;
    SafeAlways(cfg, r, i);
    var log := r.states[i].log;
    assert HasPassed(log[..j], check, log[b].key);
    var p: nat :| p < j && log[..j][p].Passed? && log[..j][p].check == check && log[..j][p].key == log[b].key;
    assert log[..j][p] == log[p] && p != b;
    if b < p {
      NoCheckPassedInBan(cfg, r, i, b, p);
    }
  }

  /** A packet of a banned IP is admitted only if its ban check came before the ban or after its end. */
  lemma BannedPacketsRefused(cfg: Config, r: Run, i: nat, b: nat, j: nat)
    requires Valid(cfg, r) && i <= |r.actions|
    requires var log := r.states[i].log;
             b < j < |log| && log[b].Banned? && log[j].Admitted? && IPKey(log[j].ip) == log[b].key
    ensures var log := r.states[i].log; ChecksOutsideBan(cfg, log, b, j, ByPacket(log[j].id))
  {
    hide Init, StepAt, ChecksOutsideBan;
    ActsOutsideBan(cfg, r, i, b, j, ByPacket(r.states[i].log[j].id));
  }

  /** A knock of a banned client is accepted only if its ban check came before the ban or after its end. */
  lemma BannedKnocksRefused(cfg: Config, r: Run, i: nat, b: nat, j: nat)
    requires Valid(cfg, r) && i <= |r.actions|
    requires var log := r.states[i].log;
             b < j < |log| && log[b].Banned? && log[j].Granted? && ClientKey(log[j].client) == log[b].key
    ensures var log := r.states[i].log; ChecksOutsideBan(cfg, log, b, j, ByKnock(log[j].id))
  {
    hide Init, StepAt, ChecksOutsideBan;
    ActsOutsideBan(cfg, r, i, b, j, ByKnock(r.states[i].log[j].id));
  }

  /**
   * A handler dials for a banned IP, or for a banned client, only if its own ban check of
   * the IP, or of the client, came before the ban or after its end.
   */
  lemma BannedHandlersDoNotDial(cfg: Config, r: Run, i: nat, b: nat, j: nat)
    requires Valid(cfg, r) && i <= |r.actions|
    requires var log := r.states[i].log; b < j < |log| && log[b].Banned? && log[j].Dialed?
    ensures var log := r.states[i].log;
            && (IPKey(log[j].ip) == log[b].key ==> ChecksOutsideBan(cfg, log, b, j, ByIP(log[j].conn)))
            && (ClientKey(log[j].client) == log[b].key ==> ChecksOutsideBan(cfg, log, b, j, ByClient(log[j].conn)))
  {
    hide Init, StepAt, ChecksOutsideBan;
    var log := r.states[i].log;
    assert log[b] in log;
    if cfg.direct {
      DirectModeNeverBans(cfg, r, i);
    } else {
      if IPKey(log[j].ip) == log[b].key {
        ActsOutsideBan(cfg, r, i, b, j, ByIP(log[j].conn));
      }
      if ClientKey(log[j].client) == log[b].key {
        ActsOutsideBan(cfg, r, i, b, j, ByClient(log[j].conn));
      }
    }
  }
}
