/**
 * The course of every knock: ban check, nonce, firewall, store, timer, each once and in
 * this order, and nothing behind a step that failed.
 */
module ServerCourses {
  import opened Base
  import Bans
  import opened Servers
  import opened ServerSteps

  // ---------------------------------------------------------------------------
  // What one knock or one packet has done
  // ---------------------------------------------------------------------------

  /** The knock or the packet an event belongs to. */
  function OwnerOf(e: Event): Option<Actor> {
    match e
    case Passed(check, _, _) => CheckOwner(check)
    case Barred(check, _, _) => CheckOwner(check)
    case NonceAsked(id, _, _, _) => Some(OfKnock(id))
    case Opened(id, _, _) => Some(OfKnock(id))
    case Granted(id, _, _, _, _, _) => Some(OfKnock(id))
    case Expired(id, _, _, _, _) => Some(OfKnock(id))
    case Revoked(OfKnock(id), _, _) => Some(OfKnock(id))
    case Rated(id, _, _, _, _) => Some(OfPacket(id))
    case Admitted(id, _, _) => Some(OfPacket(id))
    case _ => None
  }

  function CheckOwner(check: Check): Option<Actor> {
    match check
    case ByKnock(id) => Some(OfKnock(id))
    case ByPacket(id) => Some(OfPacket(id))
    case _ => None
  }

  /** Its events, in their order. */
  function OwnOf(log: seq<Event>, who: Actor): seq<Event> {
    if log == [] then []
    else OwnOf(log[..|log| - 1], who) + if OwnerOf(log[|log| - 1]) == Some(who) then [log[|log| - 1]] else []
  }

  lemma OwnNext(log: seq<Event>, news: seq<Event>, who: Actor)
    requires |news| <= 1
    ensures OwnOf(log + news, who)
         == OwnOf(log, who) + if news != [] && OwnerOf(news[0]) == Some(who) then news else []
  {
    hide OwnerOf;
    if news == [] {
      assert log + news == log && OwnOf(log, who) + [] == OwnOf(log, who);
    } else {
      assert (log + news)[..|log|] == log && (log + news)[|log|] == news[0] && news == [news[0]];
    }
  }

  /** Where in the log one of its events stands. */
  lemma {:induction false} PlaceOf(log: seq<Event>, who: Actor, n: nat) returns (j: nat)
    requires n < |OwnOf(log, who)|
    ensures j < |log| && log[j] == OwnOf(log, who)[n] && OwnOf(log[..j], who) == OwnOf(log, who)[..n]
  {
    hide OwnerOf;
    var l := |log| - 1;
    var before := OwnOf(log[..l], who);
    if n < |before| {
      j := PlaceOf(log[..l], who, n);
      assert log[..l][..j] == log[..j];
      assert OwnOf(log, who)[..n] == before[..n];
    } else {
      j := l;
      assert OwnOf(log, who)[..n] == before;
    }
  }

  lemma {:induction false} OwnAt(log: seq<Event>, who: Actor, j: nat)
    requires j < |log| && OwnerOf(log[j]) == Some(who)
    ensures var own, n := OwnOf(log, who), |OwnOf(log[..j], who)|;
            n < |own| && own[n] == log[j] && own[..n] == OwnOf(log[..j], who)
  {
    hide OwnerOf;
    var l := |log| - 1;
    if j < l {
      OwnAt(log[..l], who, j);
      assert log[..l][..j] == log[..j];
      var n := |OwnOf(log[..j], who)|;
      assert OwnOf(log, who)[..n] == OwnOf(log[..l], who)[..n];
    }
  }

  // ---------------------------------------------------------------------------
  // The course of a knock
  // ---------------------------------------------------------------------------

  /** The number of the event that opens the firewall; a knock without a nonce has one event less before it. */
  function OpensAt(k: Knocker): nat {
    if k.nonce == "" then 1 else 2
  }

  /** What one accepted knock is good for. */
  function Good(cfg: Config): int {
    if cfg.direct then cfg.maxPerKnock else 1
  }

  /** The `n`th event of this knock is what it must be, after the events before it. */
  predicate RightEvent(cfg: Config, id: nat, k: Knocker, own: seq<Event>, n: nat)
    requires n < |own|
  {
    var e, o := own[n], OpensAt(k);
    if n == 0 then e.Passed? && e.check == ByKnock(id) && e.key == ClientKey(k.client)
    else if n < o then e == NonceAsked(id, k.client, k.nonce, true)
    else if n == o then e.Opened? && e.id == id && e.ip == k.ip
    else if n == o + 1 then e.Granted? && e == Granted(id, k.ip, k.client, e.at, cfg.allowTTL, Good(cfg))
    else if n == o + 2 then
      e.Expired? && e == Expired(id, k.ip, k.client, e.at, e.gone)
      && own[n - 1].Granted? && own[n - 1].at + cfg.allowTTL <= e.at
    else n == o + 3 && e.Revoked? && e == Revoked(OfKnock(id), k.ip, e.ok) && own[n - 1].Expired? && own[n - 1].gone
  }

  predicate OnCourse(cfg: Config, id: nat, k: Knocker, own: seq<Event>) {
    forall n: nat | n < |own| :: RightEvent(cfg, id, k, own, n)
  }

  /** Why a knock is done: banned, a nonce that was refused, a firewall that did not open, or the end of its timer. */
  predicate Done(cfg: Config, id: nat, k: Knocker, own: seq<Event>) {
    var o := OpensAt(k);
    || (|own| == 1 && own[0].Barred? && own[0].check == ByKnock(id) && own[0].key == ClientKey(k.client))
    || (|own| == 2 == o && RightEvent(cfg, id, k, own, 0) && own[1] == NonceAsked(id, k.client, k.nonce, false))
    || (OnCourse(cfg, id, k, own)
        && (|own| == o || (|own| == o + 3 && own[o + 2].Expired? && !own[o + 2].gone) || |own| == o + 4))
  }

  predicate KnockStands(cfg: Config, id: nat, k: Knocker, own: seq<Event>) {
    var o := OpensAt(k);
    match k.pc
    case KBan => own == []
    case KNonce => OnCourse(cfg, id, k, own) && |own| == 1
    case KAllow => OnCourse(cfg, id, k, own) && |own| == o
    case KAdd => OnCourse(cfg, id, k, own) && |own| == o + 1
    case KTimer => OnCourse(cfg, id, k, own) && |own| == o + 2 && own[o + 1].Granted? && own[o + 1].at <= k.since
    case KRevoke => OnCourse(cfg, id, k, own) && |own| == o + 3 && own[o + 2].Expired? && own[o + 2].gone
    case KDone => Done(cfg, id, k, own)
  }

  lemma CourseNext(cfg: Config, id: nat, k: Knocker, k': Knocker, own: seq<Event>, e: Event)
    requires OnCourse(cfg, id, k, own) && k'.ip == k.ip && k'.client == k.client && k'.nonce == k.nonce
    requires RightEvent(cfg, id, k, own + [e], |own|)
    ensures OnCourse(cfg, id, k', own + [e])
  {
    hide ClientKey;
    forall n: nat | n < |own + [e]|
      ensures RightEvent(cfg, id, k', own + [e], n)
    {
      if n < |own| {
        assert RightEvent(cfg, id, k, own, n);
      }
    }
  }

  lemma SameCourse(cfg: Config, id: nat, k: Knocker, k': Knocker, own: seq<Event>)
    requires OnCourse(cfg, id, k, own) && k'.ip == k.ip && k'.client == k.client && k'.nonce == k.nonce
    ensures OnCourse(cfg, id, k', own)
  {
    hide ClientKey;
    forall n: nat | n < |own|
      ensures RightEvent(cfg, id, k', own, n)
    {
      assert RightEvent(cfg, id, k, own, n);
    }
  }

  lemma KnockChecked(cfg: Config, sh: Shared, id: nat, k: Knocker, ch: Choice, sh': Shared, own: seq<Event>)
    requires KnockStands(cfg, id, k, own) && KnockStep(cfg, sh, k, ch, sh') && k.pc.KBan?
    ensures KnockStands(cfg, id, KnockContinue(k, ch).(since := sh.clock), own + KnockEvents(cfg, sh, id, k, ch))
  {
    hide ClientKey, BanPart, StorePart, KnockFirewall, OnCourse;
    var k', news := KnockContinue(k, ch).(since := sh.clock), KnockEvents(cfg, sh, id, k, ch);
    NoCourse(cfg, id, k);
    if ch.ban != Bans.Flag(true) {
      CourseNext(cfg, id, k, k', own, news[0]);
    }
  }

  lemma KnockAsked(cfg: Config, sh: Shared, id: nat, k: Knocker, ch: Choice, sh': Shared, own: seq<Event>)
    requires KnockStands(cfg, id, k, own) && KnockStep(cfg, sh, k, ch, sh') && k.pc.KNonce?
    ensures KnockStands(cfg, id, KnockContinue(k, ch).(since := sh.clock), own + KnockEvents(cfg, sh, id, k, ch))
  {
    hide ClientKey, BanPart, StorePart, KnockFirewall, OnCourse;
    var k', news := KnockContinue(k, ch).(since := sh.clock), KnockEvents(cfg, sh, id, k, ch);
    if k.nonce == "" {
      assert own + news == own;
      SameCourse(cfg, id, k, k', own);
    } else if !ch.fails {
      CourseNext(cfg, id, k, k', own, news[0]);
    } else {
      CourseBegins(cfg, id, k, own, news[0]);
    }
  }

  lemma KnockOpened(cfg: Config, sh: Shared, id: nat, k: Knocker, ch: Choice, sh': Shared, own: seq<Event>)
    requires KnockStands(cfg, id, k, own) && KnockStep(cfg, sh, k, ch, sh') && k.pc.KAllow?
    ensures KnockStands(cfg, id, KnockContinue(k, ch).(since := sh.clock), own + KnockEvents(cfg, sh, id, k, ch))
  {
    hide ClientKey, BanPart, StorePart, KnockFirewall, OnCourse;
    var k', news := KnockContinue(k, ch).(since := sh.clock), KnockEvents(cfg, sh, id, k, ch);
    if ch.ok {
      CourseNext(cfg, id, k, k', own, news[0]);
    } else {
      assert own + news == own;
      SameCourse(cfg, id, k, k', own);
    }
  }

  lemma KnockAdded(cfg: Config, sh: Shared, id: nat, k: Knocker, ch: Choice, sh': Shared, own: seq<Event>)
    requires KnockStands(cfg, id, k, own) && KnockStep(cfg, sh, k, ch, sh') && k.pc.KAdd?
    ensures KnockStands(cfg, id, KnockContinue(k, ch).(since := sh.clock), own + KnockEvents(cfg, sh, id, k, ch))
  {
    hide ClientKey, BanPart, StorePart, KnockFirewall, OnCourse;
    var k', news := KnockContinue(k, ch).(since := sh.clock), KnockEvents(cfg, sh, id, k, ch);
    CourseNext(cfg, id, k, k', own, news[0]);
  }

  lemma KnockTimed(cfg: Config, sh: Shared, id: nat, k: Knocker, ch: Choice, sh': Shared, own: seq<Event>)
    requires KnockStands(cfg, id, k, own) && KnockStep(cfg, sh, k, ch, sh') && k.pc.KTimer?
    ensures KnockStands(cfg, id, KnockContinue(k, ch).(since := sh.clock), own + KnockEvents(cfg, sh, id, k, ch))
  {
    hide ClientKey, BanPart, StorePart, KnockFirewall, OnCourse;
    var k', news := KnockContinue(k, ch).(since := sh.clock), KnockEvents(cfg, sh, id, k, ch);
    CourseNext(cfg, id, k, k', own, news[0]);
  }

  lemma KnockRevoked(cfg: Config, sh: Shared, id: nat, k: Knocker, ch: Choice, sh': Shared, own: seq<Event>)
    requires KnockStands(cfg, id, k, own) && KnockStep(cfg, sh, k, ch, sh') && k.pc.KRevoke?
    ensures KnockStands(cfg, id, KnockContinue(k, ch).(since := sh.clock), own + KnockEvents(cfg, sh, id, k, ch))
  {
    hide ClientKey, BanPart, StorePart, KnockFirewall, OnCourse;
    var k', news := KnockContinue(k, ch).(since := sh.clock), KnockEvents(cfg, sh, id, k, ch);
    CourseNext(cfg, id, k, k', own, news[0]);
  }

  lemma CourseBegins(cfg: Config, id: nat, k: Knocker, own: seq<Event>, e: Event)
    requires OnCourse(cfg, id, k, own) && |own| == 1
    ensures RightEvent(cfg, id, k, own + [e], 0)
  {
    hide ClientKey;
    assert RightEvent(cfg, id, k, own, 0);
  }

  /** One step of a knock keeps it on its course. */
  lemma KnockGoesOn(cfg: Config, sh: Shared, id: nat, k: Knocker, ch: Choice, sh': Shared, own: seq<Event>)
    requires KnockStands(cfg, id, k, own) && KnockStep(cfg, sh, k, ch, sh')
    ensures KnockStands(cfg, id, KnockContinue(k, ch).(since := sh.clock), own + KnockEvents(cfg, sh, id, k, ch))
  {
    hide KnockStands, KnockContinue, KnockEvents, BanPart, StorePart, KnockFirewall;
    match k.pc
    case KBan => KnockChecked(cfg, sh, id, k, ch, sh', own);
    case KNonce => KnockAsked(cfg, sh, id, k, ch, sh', own);
    case KAllow => KnockOpened(cfg, sh, id, k, ch, sh', own);
    case KAdd => KnockAdded(cfg, sh, id, k, ch, sh', own);
    case KTimer => KnockTimed(cfg, sh, id, k, ch, sh', own);
    case KRevoke => KnockRevoked(cfg, sh, id, k, ch, sh', own);
  }

  lemma NoCourse(cfg: Config, id: nat, k: Knocker)
    ensures OnCourse(cfg, id, k, [])
  {
  }

  // ---------------------------------------------------------------------------
  // Every step
  // ---------------------------------------------------------------------------

  ghost predicate AllOnCourse(cfg: Config, s: Server) {
    && (forall id <- s.knockers :: KnockStands(cfg, id, s.knockers[id], OwnOf(s.log, OfKnock(id))))
    && (forall id: nat | id !in s.knockers :: OwnOf(s.log, OfKnock(id)) == [])
  }

  ghost predicate OwnedBy(news: seq<Event>, who: Option<Actor>) {
    forall e <- news :: OwnerOf(e) == who
  }

  lemma HandlerOwnsNothing(cfg: Config, sh: Shared, c: nat, h: Handler, ch: Choice)
    ensures OwnedBy(HandlerEvents(cfg, sh, c, h, ch), None)
  {
    hide IPKey, ClientKey;
  }

  lemma KnockOwns(cfg: Config, sh: Shared, id: nat, k: Knocker, ch: Choice)
    ensures OwnedBy(KnockEvents(cfg, sh, id, k, ch), Some(OfKnock(id)))
  {
    hide ClientKey;
  }

  lemma PacketOwns(sh: Shared, id: nat, p: Arrival, ch: Choice)
    ensures OwnedBy(PacketEvents(sh, id, p, ch), Some(OfPacket(id)))
  {
    hide IPKey;
  }

  /** The knock or the packet that moves in a step. */
  function Mover(a: Action): Option<Actor> {
    if a.Knock? then Some(OfKnock(a.id)) else if a.Packet? then Some(OfPacket(a.id)) else None
  }

  /** The events of a step belong to whoever makes it. */
  lemma StepOwns(cfg: Config, s: Server, a: Action, s': Server) returns (news: seq<Event>)
    requires Step(cfg, s, a, s')
    ensures s'.log == s.log + news && |news| <= 1 && OwnedBy(news, Mover(a))
  {
    hide Step, HandlerStep, KnockStep, PacketStep, HandlerEvents, KnockEvents, PacketEvents, KnockContinue,
      PacketContinue;
    news := StepNews(cfg, s, a, s');
    if a.Handle? {
      HandlerOwnsNothing(cfg, s.sh, a.conn, s.conns[a.conn], a.ch);
    } else if a.Knock? {
      KnockOwns(cfg, s.sh, a.id, s.knockers[a.id], a.ch);
    } else if a.Packet? {
      PacketOwns(s.sh, a.id, s.packets[a.id], a.ch);
    }
  }

  /** Nobody's events change but those of the knock or the packet that moves. */
  lemma OwnSame(log: seq<Event>, news: seq<Event>, mover: Option<Actor>, who: Actor)
    requires |news| <= 1 && OwnedBy(news, mover) && mover != Some(who)
    ensures OwnOf(log + news, who) == OwnOf(log, who)
  {
    hide OwnerOf;
    OwnNext(log, news, who);
    assert news != [] ==> news[0] in news;
  }

  lemma OwnMoves(log: seq<Event>, news: seq<Event>, who: Actor)
    requires |news| <= 1 && OwnedBy(news, Some(who))
    ensures OwnOf(log + news, who) == OwnOf(log, who) + news
  {
    hide OwnerOf;
    OwnNext(log, news, who);
    assert news != [] ==> news[0] in news;
  }

  lemma StepKeepsCourse(cfg: Config, s: Server, a: Action, s': Server)
    requires AllOnCourse(cfg, s) && Step(cfg, s, a, s')
    ensures AllOnCourse(cfg, s')
  {
    hide Step, HandlerStep, KnockStep, PacketStep, KnockStands, OwnOf, OwnedBy, KnockContinue, PacketContinue,
      HandlerEvents, KnockEvents, PacketEvents;
    var owned := StepOwns(cfg, s, a, s');
    var news := StepNews(cfg, s, a, s');
    SameNews(s.log, owned, news);
    forall id: nat | Mover(a) != Some(OfKnock(id))
      ensures OwnOf(s'.log, OfKnock(id)) == OwnOf(s.log, OfKnock(id))
    {
      OwnSame(s.log, news, Mover(a), OfKnock(id));
    }
    if a.Knock? {
      OwnMoves(s.log, news, OfKnock(a.id));
      KnockGoesOn(cfg, s.sh, a.id, s.knockers[a.id], a.ch, s'.sh, OwnOf(s.log, OfKnock(a.id)));
    } else if a.KnockArrives? {
      NothingDone(cfg, a.id, s'.knockers[a.id]);
    }
  }

  lemma NothingDone(cfg: Config, id: nat, k: Knocker)
    requires k.pc.KBan?
    ensures KnockStands(cfg, id, k, [])
  {
  }

  lemma {:induction false} CoursesAlways(cfg: Config, r: Run, i: nat)
    requires Valid(cfg, r) && i <= |r.actions|
    ensures AllOnCourse(cfg, r.states[i])
  {
    hide Step, AllOnCourse;
    if i == 0 {
      hide StepAt;
      NoCourses(cfg, r.states[0]);
    } else {
      hide Init;
      CoursesAlways(cfg, r, i - 1);
      assert StepAt(cfg, r, i - 1);
      StepKeepsCourse(cfg, r.states[i - 1], r.actions[i - 1], r.states[i]);
    }
  }

  lemma NoCourses(cfg: Config, s: Server)
    requires Init(cfg, s)
    ensures AllOnCourse(cfg, s)
  {
  }

  // ---------------------------------------------------------------------------
  // What that means
  // ---------------------------------------------------------------------------

  /** An event of a knock, and the knock's state, in the course the knock has taken. */
  lemma CourseAt(cfg: Config, r: Run, i: nat, id: nat, j: nat) returns (own: seq<Event>, n: nat)
    requires Valid(cfg, r) && i <= |r.actions|
    requires j < |r.states[i].log| && OwnerOf(r.states[i].log[j]) == Some(OfKnock(id))
    ensures id in r.states[i].knockers && own == OwnOf(r.states[i].log, OfKnock(id))
    ensures n < |own| && own[n] == r.states[i].log[j] && own[..n] == OwnOf(r.states[i].log[..j], OfKnock(id))
    ensures var k := r.states[i].knockers[id];
            OnCourse(cfg, id, k, own) || (Done(cfg, id, k, own) && |own| <= 2)
  {
    hide Init, StepAt, OwnOf, OwnerOf, OnCourse;
    CoursesAlways(cfg, r, i);
    own := OwnOf(r.states[i].log, OfKnock(id));
    OwnAt(r.states[i].log, OfKnock(id), j);
    n := |OwnOf(r.states[i].log[..j], OfKnock(id))|;
    if id in r.states[i].knockers {
      NoCourse(cfg, id, r.states[i].knockers[id]);
    }
  }

  /** The event before another one in the course of a knock stands before it in the log. */
  lemma EventBefore(log: seq<Event>, who: Actor, own: seq<Event>, j: nat, n: nat, m: nat) returns (x: nat)
    requires j < |log| && own == OwnOf(log, who) && n < |own| && own[..n] == OwnOf(log[..j], who) && m < n
    ensures x < j && log[x] == own[m] && own[..m] == OwnOf(log[..x], who)
  {
    hide OwnOf;
    x := PlaceOf(log[..j], who, m);
    assert log[..j][..x] == log[..x];
  }

  /** What must stand in the log before a knock has the firewall opened. */
  ghost predicate EarnedAt(log: seq<Event>, id: nat, k: Knocker, p: nat, n: nat, o: nat) {
    && p < o < |log| && log[p].Passed? && log[p].check == ByKnock(id) && log[p].key == ClientKey(k.client)
    && (k.nonce != "" ==> p < n < o && log[n] == NonceAsked(id, k.client, k.nonce, true))
  }

  /**
   * Every opening of the firewall is for the address of its knock, and has before it, in this
   * order, the passed ban check of the knock's client and, if the knock carries a nonce, the
   * acceptance of that nonce for that client.
   */
  lemma EveryOpeningIsEarned(cfg: Config, r: Run, i: nat, j: nat) returns (p: nat, n: nat)
    requires Valid(cfg, r) && i <= |r.actions| && j < |r.states[i].log| && r.states[i].log[j].Opened?
    ensures var id := r.states[i].log[j].id;
            id in r.states[i].knockers && r.states[i].log[j].ip == r.states[i].knockers[id].ip
            && EarnedAt(r.states[i].log, id, r.states[i].knockers[id], p, n, j)
  {
    hide Init, StepAt, OwnOf, ClientKey;
    var log, id := r.states[i].log, r.states[i].log[j].id;
    var own, m := CourseAt(cfg, r, i, id, j);
    var k := r.states[i].knockers[id];
    assert RightEvent(cfg, id, k, own, m) && m == OpensAt(k);
    p, n := EarnedBefore(cfg, log, id, k, own, j);
  }

  lemma EarnedBefore(cfg: Config, log: seq<Event>, id: nat, k: Knocker, own: seq<Event>, j: nat)
    returns (p: nat, n: nat)
    requires j < |log| && own == OwnOf(log, OfKnock(id)) && OnCourse(cfg, id, k, own) && OpensAt(k) < |own|
    requires own[..OpensAt(k)] == OwnOf(log[..j], OfKnock(id))
    ensures EarnedAt(log, id, k, p, n, j)
  {
    hide OwnOf, ClientKey;
    var o := OpensAt(k);
    assert RightEvent(cfg, id, k, own, 0);
    if k.nonce == "" {
      p := EventBefore(log, OfKnock(id), own, j, o, 0);
      n := p;
    } else {
      assert RightEvent(cfg, id, k, own, 1);
      n := EventBefore(log, OfKnock(id), own, j, o, 1);
      p := EventBefore(log, OfKnock(id), own, n, 1, 0);
    }
  }

  /**
   * Every knock that gets into the store is entered for its own address and client, for one
   * time to live and for the connections one knock is good for, and has before it the
   * opening of the firewall for the same address, with all that this needs.
   */
  lemma EveryGrantIsEarned(cfg: Config, r: Run, i: nat, j: nat) returns (p: nat, n: nat, o: nat)
    requires Valid(cfg, r) && i <= |r.actions| && j < |r.states[i].log| && r.states[i].log[j].Granted?
    ensures var log := r.states[i].log; var e := log[j];
            && e.id in r.states[i].knockers && o < j
            && e.ttl == cfg.allowTTL && e.count == (if cfg.direct then cfg.maxPerKnock else 1)
            && log[o].Opened? && log[o].id == e.id && log[o].ip == e.ip
            && e.client == r.states[i].knockers[e.id].client
            && EarnedAt(log, e.id, r.states[i].knockers[e.id], p, n, o)
  {
    hide Init, StepAt, OwnOf, ClientKey;
    var log, id := r.states[i].log, r.states[i].log[j].id;
    var own, m := CourseAt(cfg, r, i, id, j);
    var k := r.states[i].knockers[id];
    assert RightEvent(cfg, id, k, own, m) && m == OpensAt(k) + 1;
    assert RightEvent(cfg, id, k, own, m - 1);
    o := EventBefore(log, OfKnock(id), own, j, m, m - 1);
    p, n := EarnedBefore(cfg, log, id, k, own, o);
  }

  /** A knock whose nonce was refused never opens the firewall and never gets into the store. */
  lemma RefusedNonceOpensNothing(cfg: Config, r: Run, i: nat, x: nat, j: nat)
    requires Valid(cfg, r) && i <= |r.actions|
    requires var log := r.states[i].log;
             x < |log| && j < |log| && log[x].NonceAsked? && !log[x].accepted
    ensures var log := r.states[i].log;
            && (log[j].Opened? ==> log[j].id != log[x].id)
            && (log[j].Granted? ==> log[j].id != log[x].id)
  {
    hide Init, StepAt, OwnOf, ClientKey;
    var log, id := r.states[i].log, r.states[i].log[x].id;
    var own, m := CourseAt(cfg, r, i, id, x);
    var k := r.states[i].knockers[id];
    assert !RightEvent(cfg, id, k, own, m);
    if (log[j].Opened? || log[j].Granted?) && log[j].id == id {
      var own', n := CourseAt(cfg, r, i, id, j);
    }
  }

  /**
   * A knock's timer asks the store no earlier than one time to live after the knock was
   * entered, for the same address and client; and it has the firewall closed only after the
   * store has told it that the entry had run out.
   */
  lemma EveryTimerIsDue(cfg: Config, r: Run, i: nat, j: nat) returns (x: nat)
    requires Valid(cfg, r) && i <= |r.actions| && j < |r.states[i].log|
    requires var e := r.states[i].log[j]; e.Expired? || (e.Revoked? && e.who.OfKnock?)
    ensures var log := r.states[i].log; var e := log[j];
            && x < j
            && (e.Expired? ==>
                  log[x].Granted? && log[x].id == e.id && log[x].ip == e.ip && log[x].client == e.client
                  && log[x].at + cfg.allowTTL <= e.at)
            && (e.Revoked? ==> log[x].Expired? && log[x].id == e.who.id && log[x].ip == e.ip && log[x].gone)
  {
    hide Init, StepAt, OwnOf, ClientKey;
    var log := r.states[i].log;
    var id := if log[j].Expired? then log[j].id else log[j].who.id;
    var own, m := CourseAt(cfg, r, i, id, j);
    var k := r.states[i].knockers[id];
    assert RightEvent(cfg, id, k, own, m) && m > OpensAt(k) + 1;
    assert RightEvent(cfg, id, k, own, m - 1);
    x := EventBefore(log, OfKnock(id), own, j, m, m - 1);
  }

  /**
   * One of the ends of a knock: its client was banned; its nonce was refused; the firewall
   * did not open; its timer found the entry renewed or gone; or its timer found the entry run
   * out and asked to close the firewall.
   */
  ghost predicate EndsRight(k: Knocker, own: seq<Event>) {
    && own != []
    && var last := own[|own| - 1];
       if last.Barred? || (last.NonceAsked? && !last.accepted) then forall e <- own :: !e.Opened? && !e.Granted?
       else if last.Passed? || last.NonceAsked? then |own| == OpensAt(k)
       else
         && |own| >= 4 && (exists e <- own :: e.Opened?) && (exists e <- own :: e.Granted?)
         && ((last.Expired? && !last.gone)
             || (last.Revoked? && last.ip == k.ip && own[|own| - 2].Expired? && own[|own| - 2].gone))
  }

  /** In every run a knock that is done has come to one of its ends. */
  lemma EveryKnockHasOneEnd(cfg: Config, r: Run, i: nat, id: nat)
    requires Valid(cfg, r) && i <= |r.actions| && id in r.states[i].knockers && r.states[i].knockers[id].pc.KDone?
    ensures EndsRight(r.states[i].knockers[id], OwnOf(r.states[i].log, OfKnock(id)))
  {
    hide Init, StepAt, OwnOf, ClientKey;
    CoursesAlways(cfg, r, i);
    var k, own := r.states[i].knockers[id], OwnOf(r.states[i].log, OfKnock(id));
    var o := OpensAt(k);
    assert KnockStands(cfg, id, k, own);
    if OnCourse(cfg, id, k, own) {
      assert RightEvent(cfg, id, k, own, |own| - 1);
      if |own| > o {
        assert RightEvent(cfg, id, k, own, o) && RightEvent(cfg, id, k, own, o + 1);
        assert own[o] in own && own[o + 1] in own;
      }
    }
  }
}
