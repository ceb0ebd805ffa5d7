/** Inside every run of the server there is a run of its ban tracker. */
module ServerCalls {
  import opened Base
  import Bans
  import BanRuns
  import opened Servers
  import opened ServerSteps

  // ---------------------------------------------------------------------------
  // Calls and events
  // ---------------------------------------------------------------------------

  /** The call on the ban tracker an event stands for. */
  function CallOf(e: Event): Option<Bans.Call> {
    match e
    case Passed(_, key, at) => Some(Bans.IsBanned(key, at))
    case Barred(_, key, at) => Some(Bans.IsBanned(key, at))
    case Banned(_, key, at) => Some(Bans.RecordFailure(key, at))
    case Recorded(_, key, at) => Some(Bans.RecordFailure(key, at))
    case Counted(_, at, _) => Some(Bans.Count(at))
    case _ => None
  }

  function AnswerOf(e: Event): Bans.Reply {
    if e.Counted? then e.reply else Bans.Flag(e.Barred? || e.Banned?)
  }

  /** The events of a log that stand for such a call. */
  function Asked(log: seq<Event>): seq<Event> {
    if log == [] then []
    else Asked(log[..|log| - 1]) + if CallOf(log[|log| - 1]).Some? then [log[|log| - 1]] else []
  }

  function News(log: seq<Event>, log': seq<Event>): seq<Event> {
    if |log| <= |log'| then log'[|log|..] else []
  }

  /** The calls on the tracker among the first `i` steps, with its states in between. */
  ghost function TrackerRun(r: Run, i: nat): BanRuns.Run
    requires i <= |r.actions| && |r.states| == |r.actions| + 1
  {
    if i == 0 then BanRuns.Run([Bans.EMPTY], [], [])
    else
      var before, news := TrackerRun(r, i - 1), News(r.states[i - 1].log, r.states[i].log);
      if news == [] || CallOf(news[0]) == None then before
      else
        BanRuns.Run(before.states + [r.states[i].sh.bans], before.calls + [CallOf(news[0]).value],
                    before.replies + [AnswerOf(news[0])])
  }

  // ---------------------------------------------------------------------------
  // One step
  // ---------------------------------------------------------------------------

  /** An event that stands for a call goes with that call at the present time; nothing else touches the tracker. */
  ghost predicate TrackerMoves(cfg: Config, sh: Shared, sh': Shared, news: seq<Event>) {
    if news == [] || CallOf(news[0]) == None then sh'.bans == sh.bans
    else
      && CallOf(news[0]).value.now == sh.clock
      && Bans.Step(cfg.bans, sh.bans, CallOf(news[0]).value, sh'.bans, AnswerOf(news[0]))
  }

  lemma FlagReply(cfg: Bans.Config, s: Bans.Tracker, call: Bans.Call, s': Bans.Tracker, reply: Bans.Reply)
    requires Bans.Step(cfg, s, call, s', reply)
    ensures !call.Count? ==> reply.Flag?
  {
  }

  lemma EventStandsForCall(cfg: Config, sh: Shared, sh': Shared, call: Bans.Call, reply: Bans.Reply, check: Check)
    requires Bans.Step(cfg.bans, sh.bans, call, sh'.bans, reply) && call.now == sh.clock
    ensures TrackerMoves(cfg, sh, sh', BanEvents(check, call, reply))
  {
    hide Bans.Step, BanEvents, CallOf, AnswerOf;
    FlagReply(cfg.bans, sh.bans, call, sh'.bans, reply);
    EventOf(check, call, reply);
  }

  lemma EventOf(check: Check, call: Bans.Call, reply: Bans.Reply)
    requires !call.Count? ==> reply.Flag?
    ensures var more := BanEvents(check, call, reply);
            |more| == 1 && CallOf(more[0]) == Some(call) && AnswerOf(more[0]) == reply
  {
  }

  lemma HandlerAsks(cfg: Config, sh: Shared, c: nat, h: Handler, ch: Choice, sh': Shared)
    requires HandlerStep(cfg, sh, h, ch, sh')
    ensures TrackerMoves(cfg, sh, sh', HandlerEvents(cfg, sh, c, h, ch)) && sh'.clock == sh.clock
  {
    hide Bans.Step, StorePart, FirewallAfter, SlotsAfter, TrackerMoves, CallOf;
    if BanCall(h, sh.clock).Some? {
      EventStandsForCall(cfg, sh, sh', BanCall(h, sh.clock).value, ch.ban, CheckOf(c, h));
    } else {
      NoCall(cfg, sh, c, h, ch);
      assert TrackerMoves(cfg, sh, sh', HandlerEvents(cfg, sh, c, h, ch)) by {
        NoEvent(cfg, sh, sh', HandlerEvents(cfg, sh, c, h, ch));
      }
    }
  }

  lemma NoEvent(cfg: Config, sh: Shared, sh': Shared, news: seq<Event>)
    requires sh'.bans == sh.bans && forall e <- news :: CallOf(e) == None
    ensures TrackerMoves(cfg, sh, sh', news)
  {
    hide Bans.Step, CallOf;
  }

  lemma NoCall(cfg: Config, sh: Shared, c: nat, h: Handler, ch: Choice)
    requires BanCall(h, sh.clock) == None
    ensures forall e <- HandlerEvents(cfg, sh, c, h, ch) :: CallOf(e) == None
  {
    hide BanEvents;
  }

  lemma KnockAsks(cfg: Config, sh: Shared, id: nat, k: Knocker, ch: Choice, sh': Shared)
    requires KnockStep(cfg, sh, k, ch, sh')
    ensures TrackerMoves(cfg, sh, sh', KnockEvents(cfg, sh, id, k, ch)) && sh'.clock == sh.clock
  {
    hide Bans.Step, StorePart, KnockFirewall, TrackerMoves, ClientKey;
    if k.pc.KBan? {
      EventStandsForCall(cfg, sh, sh', Bans.IsBanned(ClientKey(k.client), sh.clock), ch.ban, ByKnock(id));
    } else {
      NoEvent(cfg, sh, sh', KnockEvents(cfg, sh, id, k, ch));
    }
  }

  lemma PacketAsks(cfg: Config, sh: Shared, id: nat, p: Arrival, ch: Choice, sh': Shared)
    requires PacketStep(cfg, sh, p, ch, sh')
    ensures TrackerMoves(cfg, sh, sh', PacketEvents(sh, id, p, ch)) && sh'.clock == sh.clock
  {
    hide Bans.Step, RatePart, TrackerMoves, IPKey;
    if p.pc.PBan? {
      EventStandsForCall(cfg, sh, sh', Bans.IsBanned(IPKey(p.ip), sh.clock), ch.ban, ByPacket(id));
    } else {
      NoEvent(cfg, sh, sh', PacketEvents(sh, id, p, ch));
    }
  }

  /** Every step adds at most one event, and the tracker moves with it. */
  lemma StepAsks(cfg: Config, s: Server, a: Action, s': Server) returns (news: seq<Event>)
    requires Step(cfg, s, a, s')
    ensures s'.log == s.log + news && |news| <= 1 && s.sh.clock <= s'.sh.clock
    ensures TrackerMoves(cfg, s.sh, s'.sh, news)
  {
    hide Step, HandlerStep, KnockStep, PacketStep, HandlerEvents, KnockEvents, PacketEvents, TrackerMoves,
      KnockContinue, PacketContinue;
    news := StepNews(cfg, s, a, s');
    if a.Handle? {
      HandlerAsks(cfg, s.sh, a.conn, s.conns[a.conn], a.ch, s'.sh);
    } else if a.Knock? {
      KnockAsks(cfg, s.sh, a.id, s.knockers[a.id], a.ch, s'.sh);
    } else if a.Packet? {
      PacketAsks(cfg, s.sh, a.id, s.packets[a.id], a.ch, s'.sh);
    } else {
      BegunAsksNothing(news);
      NoEvent(cfg, s.sh, s'.sh, news);
    }
  }

  lemma BegunAsksNothing(news: seq<Event>)
    requires forall e <- news :: e.Begun?
    ensures forall e <- news :: CallOf(e) == None
  {
  }

  // ---------------------------------------------------------------------------
  // The run of the tracker
  // ---------------------------------------------------------------------------

  /** The calls and answers of a run are those of these events. */
  predicate Matches(t: BanRuns.Run, asked: seq<Event>) {
    && |t.calls| == |t.replies| == |asked|
    && forall k | 0 <= k < |asked| :: CallOf(asked[k]) == Some(t.calls[k]) && t.replies[k] == AnswerOf(asked[k])
  }

  lemma AskedNext(log: seq<Event>, news: seq<Event>)
    requires |news| <= 1
    ensures Asked(log + news) == Asked(log) + if news == [] || CallOf(news[0]) == None then [] else [news[0]]
  {
    if news == [] {
      assert log + news == log && Asked(log) + [] == Asked(log);
    } else {
      assert (log + news)[..|log|] == log && (log + news)[|log|] == news[0];
    }
  }

  lemma NewsIs(log: seq<Event>, news: seq<Event>)
    ensures News(log, log + news) == news
  {
  }

  lemma MatchesNext(t: BanRuns.Run, asked: seq<Event>, e: Event, states: seq<Bans.Tracker>)
    requires Matches(t, asked) && CallOf(e).Some?
    ensures Matches(BanRuns.Run(states, t.calls + [CallOf(e).value], t.replies + [AnswerOf(e)]), asked + [e])
  {
    hide CallOf, AnswerOf;
  }

  /**
   * The calls the server's steps make on the ban tracker, with the answers in the log, are a
   * run of the tracker that ends in the state the server has it in.
   */
  lemma {:induction false} TrackerRunIsRun(cfg: Config, r: Run, i: nat)
    requires Valid(cfg, r) && i <= |r.actions|
    ensures var t := TrackerRun(r, i);
            && BanRuns.Valid(cfg.bans, t) && t.states[|t.calls|] == r.states[i].sh.bans
            && BanRuns.Clock(t, |t.calls|) <= r.states[i].sh.clock && r.states[i].sh.clock > 0
            && Matches(t, Asked(r.states[i].log))
  {
    hide Step, Bans.Step, CallOf, AnswerOf, Asked, News;
    if i == 0 {
      hide *;
      TrackerStarts(cfg, r);
    } else {
      hide Init, Matches;
      TrackerRunIsRun(cfg, r, i - 1);
      assert StepAt(cfg, r, i - 1);
      var s, s' := r.states[i - 1], r.states[i];
      var news := StepAsks(cfg, s, r.actions[i - 1], s');
      var t := TrackerRun(r, i - 1);
      NewsIs(s.log, news);
      AskedNext(s.log, news);
      hide BanRuns.Valid;
      if news != [] && CallOf(news[0]).Some? {
        var call, reply := CallOf(news[0]).value, AnswerOf(news[0]);
        BanRuns.OneMoreCall(cfg.bans, t, call, s'.sh.bans, reply);
        MatchesNext(t, Asked(s.log), news[0], t.states + [s'.sh.bans]);
        BanRuns.Lengths(cfg.bans, t);
      } else {
        assert Asked(s.log) + [] == Asked(s.log);
      }
    }
  }

  lemma TrackerStarts(cfg: Config, r: Run)
    requires Valid(cfg, r)
    ensures var t := TrackerRun(r, 0);
            && BanRuns.Valid(cfg.bans, t) && t.states[|t.calls|] == r.states[0].sh.bans
            && BanRuns.Clock(t, |t.calls|) <= r.states[0].sh.clock && r.states[0].sh.clock > 0
            && Matches(t, Asked(r.states[0].log))
  {
  }
}
