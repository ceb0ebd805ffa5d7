/** Knock packets: nothing is admitted past the ban check and the rate limiter. */
module ServerPackets {
  import opened Base
  import Bans
  import Rates
  import RateRuns
  import opened Servers
  import ServerCalls
  import opened ServerSteps
  import opened ServerCourses

  // ---------------------------------------------------------------------------
  // The course of a packet
  // ---------------------------------------------------------------------------

  /** Its ban check, the limiter's answer and its admission: all for its address and with one time. */
  predicate PacketEvent(id: nat, ip: string, own: seq<Event>, n: nat)
    requires n < |own|
  {
    var e := own[n];
    if n == 0 then e.Passed? && e.check == ByPacket(id) && e.key == IPKey(ip)
    else if n == 1 then e.Rated? && e.id == id && e.ip == ip && own[0].Passed? && e.at == own[0].at
    else n == 2 && e.Admitted? && own[1].Rated? && own[1].ok && e == Admitted(id, ip, own[1].at)
  }

  predicate OnWay(id: nat, ip: string, own: seq<Event>) {
    forall n: nat | n < |own| :: PacketEvent(id, ip, own, n)
  }

  predicate PacketStands(id: nat, p: Arrival, own: seq<Event>) {
    match p.pc
    case PBan => own == []
    case PRate => OnWay(id, p.ip, own) && |own| == 1 && own[0].Passed? && own[0].at == p.now
    case PReturn(ok) => OnWay(id, p.ip, own) && |own| == 2 && own[1].Rated? && own[1].ok == ok && own[1].at == p.now
    case PDone =>
      || (|own| == 1 && own[0].Barred? && own[0].check == ByPacket(id) && own[0].key == IPKey(p.ip))
      || (OnWay(id, p.ip, own) && |own| >= 2 && own[1].Rated? && |own| == if own[1].ok then 3 else 2)
  }

  lemma WayNext(id: nat, ip: string, own: seq<Event>, e: Event)
    requires OnWay(id, ip, own) && PacketEvent(id, ip, own + [e], |own|)
    ensures OnWay(id, ip, own + [e])
  {
    hide IPKey;
    forall n: nat | n < |own + [e]|
      ensures PacketEvent(id, ip, own + [e], n)
    {
      if n < |own| {
        assert PacketEvent(id, ip, own, n);
      }
    }
  }

  /** One step of a packet keeps it on its way. */
  lemma PacketGoesOn(cfg: Config, sh: Shared, id: nat, p: Arrival, ch: Choice, sh': Shared, own: seq<Event>)
    requires PacketStands(id, p, own) && PacketStep(cfg, sh, p, ch, sh')
    ensures PacketStands(id, PacketContinue(p, sh.clock, ch), own + PacketEvents(sh, id, p, ch))
  {
    hide IPKey, BanPart, RatePart, OnWay;
    var news := PacketEvents(sh, id, p, ch);
    if p.pc.PBan? {
      NoWay(id, p.ip);
    }
    if news == [] {
      assert own + news == own;
    } else if !(p.pc.PBan? && ch.ban == Bans.Flag(true)) {
      WayNext(id, p.ip, own, news[0]);
    }
  }

  lemma NoWay(id: nat, ip: string)
    ensures OnWay(id, ip, [])
  {
  }

  ghost predicate AllOnWay(s: Server) {
    && (forall id <- s.packets :: PacketStands(id, s.packets[id], OwnOf(s.log, OfPacket(id))))
    && (forall id: nat | id !in s.packets :: OwnOf(s.log, OfPacket(id)) == [])
  }

  lemma StepKeepsWay(cfg: Config, s: Server, a: Action, s': Server)
    requires AllOnWay(s) && Step(cfg, s, a, s')
    ensures AllOnWay(s')
  {
    hide Step, HandlerStep, KnockStep, PacketStep, PacketStands, OwnOf, OwnedBy, KnockContinue, PacketContinue,
      HandlerEvents, KnockEvents, PacketEvents;
    var owned := StepOwns(cfg, s, a, s');
    var news := StepNews(cfg, s, a, s');
    SameNews(s.log, owned, news);
    forall id: nat | Mover(a) != Some(OfPacket(id))
      ensures OwnOf(s'.log, OfPacket(id)) == OwnOf(s.log, OfPacket(id))
    {
      OwnSame(s.log, news, Mover(a), OfPacket(id));
    }
    if a.Packet? {
      OwnMoves(s.log, news, OfPacket(a.id));
      PacketGoesOn(cfg, s.sh, a.id, s.packets[a.id], a.ch, s'.sh, OwnOf(s.log, OfPacket(a.id)));
    } else if a.PacketArrives? {
      NothingAsked(a.id, s'.packets[a.id]);
    }
  }

  lemma NothingAsked(id: nat, p: Arrival)
    requires p.pc.PBan?
    ensures PacketStands(id, p, [])
  {
  }

  lemma {:induction false} WaysAlways(cfg: Config, r: Run, i: nat)
    requires Valid(cfg, r) && i <= |r.actions|
    ensures AllOnWay(r.states[i])
  {
    hide Step, AllOnWay;
    if i == 0 {
      hide StepAt;
      NoWays(cfg, r.states[0]);
    } else {
      hide Init;
      WaysAlways(cfg, r, i - 1);
      assert StepAt(cfg, r, i - 1);
      StepKeepsWay(cfg, r.states[i - 1], r.actions[i - 1], r.states[i]);
    }
  }

  lemma NoWays(cfg: Config, s: Server)
    requires Init(cfg, s)
    ensures AllOnWay(s)
  {
  }

  /**
   * A packet is admitted only after its own ban check was passed and then its own call on
   * the limiter, for the same address and with the time of that check, was answered with yes.
   */
  lemma EveryAdmissionWasRated(cfg: Config, r: Run, i: nat, j: nat) returns (p: nat, x: nat)
    requires Valid(cfg, r) && i <= |r.actions| && j < |r.states[i].log| && r.states[i].log[j].Admitted?
    ensures var log := r.states[i].log; var e := log[j];
            && p < x < j && log[p] == Passed(ByPacket(e.id), IPKey(e.ip), e.at)
            && log[x].Rated? && log[x].id == e.id && log[x].ip == e.ip && log[x].at == e.at && log[x].ok
  {
    hide Init, StepAt, OwnOf, IPKey;
    WaysAlways(cfg, r, i);
    var log := r.states[i].log;
    var id := log[j].id;
    var own := OwnOf(log, OfPacket(id));
    OwnAt(log, OfPacket(id), j);
    var n := |OwnOf(log[..j], OfPacket(id))|;
    assert PacketStands(id, r.states[i].packets[id], own);
    var ip := r.states[i].packets[id].ip;
    assert PacketEvent(id, ip, own, n) && n == 2;
    assert PacketEvent(id, ip, own, 1) && PacketEvent(id, ip, own, 0);
    x := EventBefore(log, OfPacket(id), own, j, 2, 1);
    p := EventBefore(log, OfPacket(id), own, x, 1, 0);
  }

  /** A packet that is done was stopped by its ban check or by the limiter, or was admitted. */
  lemma EveryPacketHasOneEnd(cfg: Config, r: Run, i: nat, id: nat)
    requires Valid(cfg, r) && i <= |r.actions| && id in r.states[i].packets && r.states[i].packets[id].pc.PDone?
    ensures var own := OwnOf(r.states[i].log, OfPacket(id));
            || (|own| == 1 && own[0].Barred?)
            || (|own| == 2 && own[0].Passed? && own[1].Rated? && !own[1].ok)
            || (|own| == 3 && own[0].Passed? && own[1].Rated? && own[1].ok && own[2].Admitted?)
  {
    hide Init, StepAt, OwnOf, IPKey;
    WaysAlways(cfg, r, i);
    var p, own := r.states[i].packets[id], OwnOf(r.states[i].log, OfPacket(id));
    assert PacketStands(id, p, own);
    if OnWay(id, p.ip, own) && |own| >= 2 {
      assert PacketEvent(id, p.ip, own, 0) && PacketEvent(id, p.ip, own, |own| - 1);
    }
  }

  // ---------------------------------------------------------------------------
  // The run of the limiter inside a run of the server
  // ---------------------------------------------------------------------------

  /** The events of a log that are answers of the limiter. */
  function RatedOf(log: seq<Event>): seq<Event> {
    if log == [] then []
    else RatedOf(log[..|log| - 1]) + if log[|log| - 1].Rated? then [log[|log| - 1]] else []
  }

  ghost function LimiterRun(r: Run, i: nat): RateRuns.Run
    requires i <= |r.actions| && |r.states| == |r.actions| + 1
  {
    if i == 0 then RateRuns.Run([Rates.EMPTY], [], [], [])
    else
      var before, news := LimiterRun(r, i - 1), ServerCalls.News(r.states[i - 1].log, r.states[i].log);
      if news == [] || !news[0].Rated? then before
      else
        RateRuns.Run(before.states + [r.states[i].sh.rate], before.calls + [RateRuns.Call(news[0].ip, news[0].at)],
                     before.oks + [news[0].ok], before.evicted + [news[0].evicted])
  }

  /** The calls of the run are these events. */
  predicate Same(t: RateRuns.Run, rated: seq<Event>) {
    && |t.calls| == |t.oks| == |t.evicted| == |rated|
    && forall k | 0 <= k < |rated| ::
         rated[k].Rated? && t.calls[k] == RateRuns.Call(rated[k].ip, rated[k].at)
         && t.oks[k] == rated[k].ok && t.evicted[k] == rated[k].evicted
  }

  /** The limiter was asked in the order of the times. */
  ghost predicate InOrder(rated: seq<Event>) {
    forall k, l | 0 <= k < l < |rated| && rated[k].Rated? && rated[l].Rated? :: rated[k].at <= rated[l].at
  }

  ghost predicate LimiterMoves(cfg: Config, sh: Shared, sh': Shared, news: seq<Event>) {
    if news == [] || !news[0].Rated? then sh'.rate == sh.rate
    else Rates.Step(cfg.rate, sh.rate, news[0].ip, news[0].at, sh'.rate, news[0].ok, news[0].evicted)
  }

  lemma PacketRates(cfg: Config, sh: Shared, id: nat, p: Arrival, ch: Choice, sh': Shared)
    requires PacketStep(cfg, sh, p, ch, sh')
    ensures LimiterMoves(cfg, sh, sh', PacketEvents(sh, id, p, ch))
  {
    hide Rates.Step, BanPart, IPKey;
  }

  lemma OnlyPacketsRate(cfg: Config, s: Server, a: Action, s': Server)
    requires Step(cfg, s, a, s') && !a.Packet?
    ensures s'.sh.rate == s.sh.rate
  {
    hide Step, BanPart, StorePart, FirewallAfter, SlotsAfter, KnockFirewall, PacketStep;
    var news := StepNews(cfg, s, a, s');
  }

  lemma StepRates(cfg: Config, s: Server, a: Action, s': Server) returns (news: seq<Event>)
    requires Step(cfg, s, a, s')
    ensures s'.log == s.log + news && |news| <= 1 && LimiterMoves(cfg, s.sh, s'.sh, news)
  {
    hide Step, HandlerStep, KnockStep, PacketStep, HandlerEvents, KnockEvents, PacketEvents, LimiterMoves, OwnedBy;
    if a.Packet? {
      news := StepNews(cfg, s, a, s');
      PacketRates(cfg, s.sh, a.id, s.packets[a.id], a.ch, s'.sh);
    } else {
      news := StepOwns(cfg, s, a, s');
      OnlyPacketsRate(cfg, s, a, s');
      NotRated(cfg, s.sh, s'.sh, news, Mover(a));
    }
  }

  lemma NotRated(cfg: Config, sh: Shared, sh': Shared, news: seq<Event>, who: Option<Actor>)
    requires OwnedBy(news, who) && (who.Some? ==> who.value.OfKnock?) && sh'.rate == sh.rate
    ensures LimiterMoves(cfg, sh, sh', news)
  {
    hide Rates.Step;
    NoneRated(news, who);
  }

  lemma RatedNext(log: seq<Event>, news: seq<Event>)
    requires |news| <= 1
    ensures RatedOf(log + news) == RatedOf(log) + if news != [] && news[0].Rated? then [news[0]] else []
  {
    if news == [] {
      assert log + news == log && RatedOf(log) + [] == RatedOf(log);
    } else {
      assert (log + news)[..|log|] == log && (log + news)[|log|] == news[0];
    }
  }

  /** One more call. */
  lemma OneMore(cfg: Rates.Config, t: RateRuns.Run, rated: seq<Event>, e: Event, s': Rates.Limiter)
    requires RateRuns.Valid(cfg, t) && Same(t, rated) && e.Rated? && InOrder(rated + [e])
    requires Rates.Step(cfg, t.states[|t.calls|], e.ip, e.at, s', e.ok, e.evicted)
    ensures var t' := RateRuns.Run(t.states + [s'], t.calls + [RateRuns.Call(e.ip, e.at)], t.oks + [e.ok],
                                   t.evicted + [e.evicted]);
            RateRuns.Valid(cfg, t') && Same(t', rated + [e]) && t'.states[|t'.calls|] == s'
  {
    hide Rates.Step;
    var t' := RateRuns.Run(t.states + [s'], t.calls + [RateRuns.Call(e.ip, e.at)], t.oks + [e.ok],
                           t.evicted + [e.evicted]);
    forall k: nat | k < |t'.calls|
      ensures RateRuns.StepAt(cfg, t', k)
    {
      if k < |t.calls| {
        assert RateRuns.StepAt(cfg, t, k);
      }
    }
    forall k, l | 0 <= k < l < |t'.calls|
      ensures t'.calls[k].now <= t'.calls[l].now
    {
      assert (rated + [e])[k].Rated? && (rated + [e])[l].Rated?;
    }
  }

  lemma OrderBefore(rated: seq<Event>, more: seq<Event>)
    requires InOrder(rated + more)
    ensures InOrder(rated)
  {
    assert forall k | 0 <= k < |rated| :: (rated + more)[k] == rated[k];
  }

  /** The answers of the limiter, if it was asked in the order of the times, make a run of the limiter. */
  lemma {:induction false} LimiterRunIsRun(cfg: Config, r: Run, i: nat)
    requires Valid(cfg, r) && i <= |r.actions| && InOrder(RatedOf(r.states[i].log))
    ensures var t := LimiterRun(r, i);
            && RateRuns.Valid(cfg.rate, t) && t.states[|t.calls|] == r.states[i].sh.rate
            && Same(t, RatedOf(r.states[i].log))
  {
    hide Step, Rates.Step, RatedOf, ServerCalls.News;
    if i == 0 {
      hide StepAt;
      LimiterStarts(cfg, r);
    } else {
      hide Init, Same, InOrder, RateRuns.Valid;
      assert StepAt(cfg, r, i - 1);
      var s, s' := r.states[i - 1], r.states[i];
      var news := StepRates(cfg, s, r.actions[i - 1], s');
      RatedNext(s.log, news);
      var more := if news != [] && news[0].Rated? then [news[0]] else [];
      OrderBefore(RatedOf(s.log), more);
      LimiterRunIsRun(cfg, r, i - 1);
      var t := LimiterRun(r, i - 1);
      ServerCalls.NewsIs(s.log, news);
      if more != [] {
        OneMore(cfg.rate, t, RatedOf(s.log), news[0], s'.sh.rate);
      } else {
        assert RatedOf(s.log) + [] == RatedOf(s.log);
      }
    }
  }

  lemma LimiterStarts(cfg: Config, r: Run)
    requires Valid(cfg, r)
    ensures var t := LimiterRun(r, 0);
            && RateRuns.Valid(cfg.rate, t) && t.states[|t.calls|] == r.states[0].sh.rate
            && Same(t, RatedOf(r.states[0].log))
  {
  }

  // ---------------------------------------------------------------------------
  // How many packets are admitted
  // ---------------------------------------------------------------------------

  /** The packets of an address admitted in the interval that excludes `lo` and includes `hi`. */
  ghost function AdmittedIn(log: seq<Event>, ip: string, lo: int, hi: int): set<nat> {
    set e | e in log && e.Admitted? && e.ip == ip && lo < e.at <= hi :: e.id
  }

  ghost function AllowedIn(rated: seq<Event>, ip: string, lo: int, hi: int): set<nat> {
    set e | e in rated && e.Rated? && e.ok && e.ip == ip && lo < e.at <= hi :: e.id
  }

  lemma {:induction false} RatedInLog(log: seq<Event>, e: Event)
    requires e in log && e.Rated?
    ensures e in RatedOf(log)
  {
    if e != log[|log| - 1] {
      RatedInLog(log[..|log| - 1], e);
    }
  }

  lemma {:induction false} InRated(log: seq<Event>, e: Event)
    requires e in RatedOf(log)
    ensures e in log
  {
    if log != [] && e in RatedOf(log[..|log| - 1]) {
      InRated(log[..|log| - 1], e);
    }
  }

  lemma AllowedNext(rated: seq<Event>, e: Event, ip: string, lo: int, hi: int)
    requires e.Rated?
    ensures AllowedIn(rated + [e], ip, lo, hi)
         == AllowedIn(rated, ip, lo, hi) + if e.ok && e.ip == ip && lo < e.at <= hi then {e.id} else {}
  {
    assert forall x :: x in rated + [e] <==> x in rated || x == e;
  }

  lemma HistoryNext(t: RateRuns.Run, k: nat, ip: string, e: Event)
    requires 0 < k <= |t.calls| == |t.oks| && e.Rated?
    requires t.calls[k - 1] == RateRuns.Call(e.ip, e.at) && t.oks[k - 1] == e.ok
    ensures var before := RateRuns.History(t, k - 1, ip);
            RateRuns.History(t, k, ip) == if e.ok && e.ip == ip then before + [e.at] else before
  {
    var before := RateRuns.History(t, k - 1, ip);
    assert before + [] == before;
  }

  /** Behind each packet the limiter allowed is an event of the limiter's history. */
  lemma {:induction false} AllowedCount(t: RateRuns.Run, rated: seq<Event>, k: nat, ip: string, lo: int, hi: int)
    requires Same(t, rated) && k <= |rated|
    ensures |AllowedIn(rated[..k], ip, lo, hi)| <= RateRuns.CountIn(RateRuns.History(t, k, ip), lo, hi)
  {
    hide RateRuns.CountIn;
    if k == 0 {
      assert AllowedIn(rated[..0], ip, lo, hi) == {};
    } else {
      hide AllowedIn;
      var e := rated[k - 1];
      AllowedCount(t, rated, k - 1, ip, lo, hi);
      assert rated[..k] == rated[..k - 1] + [e];
      AllowedNext(rated[..k - 1], e, ip, lo, hi);
      var before := RateRuns.History(t, k - 1, ip);
      HistoryNext(t, k, ip, e);
      RateRuns.CountInAppend(before, e.at, lo, hi);
      hide Same;
    }
  }

  lemma AdmittedWereAllowed(cfg: Config, r: Run, i: nat, ip: string, lo: int, hi: int)
    requires Valid(cfg, r) && i <= |r.actions|
    ensures AdmittedIn(r.states[i].log, ip, lo, hi) <= AllowedIn(RatedOf(r.states[i].log), ip, lo, hi)
  {
    hide Init, StepAt, RatedOf;
    var log := r.states[i].log;
    forall id | id in AdmittedIn(log, ip, lo, hi)
      ensures id in AllowedIn(RatedOf(log), ip, lo, hi)
    {
      var e :| e in log && e.Admitted? && e.ip == ip && lo < e.at <= hi && e.id == id;
      var j: nat :| j < |log| && log[j] == e;
      var p, x := EveryAdmissionWasRated(cfg, r, i, j);
      RatedInLog(log, log[x]);
    }
  }

  /**
   * In every run in which the limiter is asked in the order of the packets' times: as long
   * as an address is not evicted, any interval one window long holds the times of at most
   * `limit` admitted packets of that address.
   */
  lemma AdmittedWithinLimit(cfg: Config, r: Run, i: nat, ip: string, to: int)
    requires Valid(cfg, r) && i <= |r.actions| && cfg.rate.limit > 0
    requires InOrder(RatedOf(r.states[i].log))
    requires forall e <- r.states[i].log :: e.Rated? ==> e.evicted != Some(ip)
    ensures |AdmittedIn(r.states[i].log, ip, to - cfg.rate.window, to)| <= cfg.rate.limit
  {
    hide Init, StepAt, RatedOf, AdmittedIn, AllowedIn, LimiterRun, InOrder, RateRuns.Valid, RateRuns.CountIn;
    var log, t, lo := r.states[i].log, LimiterRun(r, i), to - cfg.rate.window;
    var rated := RatedOf(log);
    LimiterRunIsRun(cfg, r, i);
    forall k: nat | k < |t.calls|
      ensures t.evicted[k] != Some(ip)
    {
      InRated(log, rated[k]);
    }
    RateRuns.AtMostLimitPerWindow(cfg.rate, t, |t.calls|, ip, to);
    AllowedCount(t, rated, |t.calls|, ip, lo, to);
    assert rated[..|t.calls|] == rated;
    AdmittedWereAllowed(cfg, r, i, ip, lo, to);
    SubsetSize(AdmittedIn(log, ip, lo, to), AllowedIn(rated, ip, lo, to));
  }

  // ---------------------------------------------------------------------------
  // Packets that are taken up one after the other
  // ---------------------------------------------------------------------------

  /** At most one packet is between its ban check and its call on the limiter. */
  ghost predicate OneByOne(s: Server) {
    forall id, other | id in s.packets && other in s.packets && s.packets[id].pc.PRate? && s.packets[other].pc.PRate? ::
      id == other
  }

  /** So far in order, and a packet still to ask has a time that comes after. */
  ghost predicate InTurn(s: Server) {
    && InOrder(RatedOf(s.log))
    && (forall e <- RatedOf(s.log) :: e.Rated? && e.at <= s.sh.clock)
    && (forall id, e | id in s.packets && s.packets[id].pc.PRate? && e in RatedOf(s.log) :: e.at <= s.packets[id].now)
    && (forall id <- s.packets :: s.packets[id].pc.PRate? ==> s.packets[id].now <= s.sh.clock)
  }

  lemma AsksInTurn(s: Server, s': Server, id: nat, e: Event)
    requires InTurn(s) && OneByOne(s) && id in s.packets && s.packets[id].pc.PRate?
    requires e.Rated? && e.at == s.packets[id].now && s'.sh.clock == s.sh.clock && s'.log == s.log + [e]
    requires id in s'.packets && !s'.packets[id].pc.PRate? && s'.packets == s.packets[id := s'.packets[id]]
    ensures InTurn(s')
  {
    hide RatedOf;
    RatedNext(s.log, [e]);
    assert RatedOf(s'.log) == RatedOf(s.log) + [e];
    forall k, l | 0 <= k < l < |RatedOf(s'.log)|
      ensures RatedOf(s'.log)[k].at <= RatedOf(s'.log)[l].at
    {
      assert RatedOf(s'.log)[k] == RatedOf(s.log)[k] && RatedOf(s.log)[k] in RatedOf(s.log);
    }
  }

  lemma OthersInTurn(s: Server, s': Server, news: seq<Event>)
    requires InTurn(s) && |news| <= 1 && (news != [] ==> !news[0].Rated?) && s'.log == s.log + news
    requires s.sh.clock <= s'.sh.clock
    requires forall id <- s'.packets :: s'.packets[id].pc.PRate? ==>
               (id in s.packets && s'.packets[id] == s.packets[id]) || s'.packets[id].now == s.sh.clock
    ensures InTurn(s')
  {
    hide RatedOf, InOrder;
    RatedNext(s.log, news);
    assert RatedOf(s'.log) == RatedOf(s.log);
  }

  lemma PacketInTurn(cfg: Config, s: Server, id: nat, ch: Choice, s': Server)
    requires InTurn(s) && OneByOne(s) && id in s.packets && PacketStep(cfg, s.sh, s.packets[id], ch, s'.sh)
    requires s'.packets == s.packets[id := PacketContinue(s.packets[id], s.sh.clock, ch)]
    requires s'.log == s.log + PacketEvents(s.sh, id, s.packets[id], ch)
    ensures InTurn(s')
  {
    hide IPKey, BanPart, RatePart, InTurn, OneByOne;
    if s.packets[id].pc.PRate? {
      AsksInTurn(s, s', id, PacketEvents(s.sh, id, s.packets[id], ch)[0]);
    } else {
      OthersInTurn(s, s', PacketEvents(s.sh, id, s.packets[id], ch));
    }
  }

  lemma StepKeepsTurn(cfg: Config, s: Server, a: Action, s': Server)
    requires InTurn(s) && OneByOne(s) && Step(cfg, s, a, s')
    ensures InTurn(s')
  {
    hide InTurn, OneByOne, Step, HandlerStep, KnockStep, PacketStep, KnockContinue, PacketContinue, HandlerEvents,
      KnockEvents, PacketEvents, OwnedBy;
    var news := StepNews(cfg, s, a, s');
    if a.Packet? {
      PacketInTurn(cfg, s, a.id, a.ch, s');
    } else {
      StepClock(cfg, s, a, s');
      var owned := StepOwns(cfg, s, a, s');
      NoneRated(owned, Mover(a));
      SameNews(s.log, owned, news);
      OthersInTurn(s, s', news);
    }
  }

  lemma NoneRated(news: seq<Event>, who: Option<Actor>)
    requires OwnedBy(news, who) && (who.Some? ==> who.value.OfKnock?)
    ensures news != [] ==> !news[0].Rated?
  {
    assert news != [] ==> news[0] in news;
  }

  lemma StepClock(cfg: Config, s: Server, a: Action, s': Server)
    requires Step(cfg, s, a, s')
    ensures s.sh.clock <= s'.sh.clock
  {
    hide Step;
    var news := ServerCalls.StepAsks(cfg, s, a, s');
  }

  lemma {:induction false} TurnsAlways(cfg: Config, r: Run, i: nat)
    requires Valid(cfg, r) && i <= |r.actions| && forall j: nat | j < i :: OneByOne(r.states[j])
    ensures InTurn(r.states[i])
  {
    hide Step, InTurn, OneByOne;
    if i == 0 {
      hide StepAt;
      NoTurns(cfg, r.states[0]);
    } else {
      hide Init;
      TurnsAlways(cfg, r, i - 1);
      assert StepAt(cfg, r, i - 1);
      StepKeepsTurn(cfg, r.states[i - 1], r.actions[i - 1], r.states[i]);
    }
  }

  lemma NoTurns(cfg: Config, s: Server)
    requires Init(cfg, s)
    ensures InTurn(s)
  {
  }

  /** If packets go through the check one after the other, the limiter is asked in the order of their times. */
  lemma OneByOneIsInOrder(cfg: Config, r: Run, i: nat)
    requires Valid(cfg, r) && i <= |r.actions| && forall j: nat | j < i :: OneByOne(r.states[j])
    ensures InOrder(RatedOf(r.states[i].log))
  {
    hide Init, StepAt, InOrder, RatedOf, OneByOne;
    TurnsAlways(cfg, r, i);
  }
}
