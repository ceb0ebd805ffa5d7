/**
 * The log as a ledger: the firewall is what the openings and revocations in it leave, and
 * no more credits are taken from the knock store than knocks have put into it.
 */
module ServerLedgers {
  import opened Base
  import Knocks
  import KnockCredits
  import opened Servers
  import opened ServerStories
  import opened ServerSteps

  // ---------------------------------------------------------------------------
  // The firewall
  // ---------------------------------------------------------------------------

  /** An opening sets the entry of its address, a revocation that succeeded removes it. */
  function WallAfter(cfg: Config, fw: map<string, int>, e: Event): map<string, int> {
    match e
    case Opened(_, ip, at) => fw[ip := at + cfg.allowTTL]
    case Revoked(_, ip, ok) => if ok then fw - {ip} else fw
    case _ => fw
  }

  /** The allow entries a log leaves. */
  function WallOf(cfg: Config, log: seq<Event>): map<string, int> {
    if log == [] then map[] else WallAfter(cfg, WallOf(cfg, log[..|log| - 1]), log[|log| - 1])
  }

  ghost predicate WallMoves(cfg: Config, sh: Shared, sh': Shared, news: seq<Event>) {
    sh'.fw == if news == [] then sh.fw else WallAfter(cfg, sh.fw, news[0])
  }

  lemma HandlerWall(cfg: Config, sh: Shared, c: nat, h: Handler, ch: Choice, sh': Shared)
    requires HandlerStep(cfg, sh, h, ch, sh')
    ensures WallMoves(cfg, sh, sh', HandlerEvents(cfg, sh, c, h, ch))
  {
    hide BanPart, StorePart, SlotsAfter, IPKey, ClientKey, ClientIsFull, FirewallAllows;
  }

  lemma KnockWall(cfg: Config, sh: Shared, id: nat, k: Knocker, ch: Choice, sh': Shared)
    requires KnockStep(cfg, sh, k, ch, sh')
    ensures WallMoves(cfg, sh, sh', KnockEvents(cfg, sh, id, k, ch))
  {
    hide BanPart, StorePart, ClientKey;
  }

  lemma StepWall(cfg: Config, s: Server, a: Action, s': Server) returns (news: seq<Event>)
    requires Step(cfg, s, a, s')
    ensures s'.log == s.log + news && |news| <= 1 && WallMoves(cfg, s.sh, s'.sh, news)
  {
    hide Step, HandlerStep, KnockStep, PacketStep, HandlerEvents, KnockEvents, PacketEvents, WallMoves,
      KnockContinue, PacketContinue;
    news := StepNews(cfg, s, a, s');
    if a.Handle? {
      HandlerWall(cfg, s.sh, a.conn, s.conns[a.conn], a.ch, s'.sh);
    } else if a.Knock? {
      KnockWall(cfg, s.sh, a.id, s.knockers[a.id], a.ch, s'.sh);
    } else {
      if a.Packet? {
        PacketIsQuiet(cfg, s.sh, a.id, s.packets[a.id], a.ch, s'.sh);
      }
      assert news != [] ==> news[0] in news && IsQuiet(news[0]);
      QuietWall(cfg, s.sh, s'.sh, news);
    }
  }

  /** A packet leaves the firewall and the knock store alone. */
  lemma PacketIsQuiet(cfg: Config, sh: Shared, id: nat, p: Arrival, ch: Choice, sh': Shared)
    requires PacketStep(cfg, sh, p, ch, sh')
    ensures sh'.fw == sh.fw && sh'.knocks == sh.knocks
    ensures forall e <- PacketEvents(sh, id, p, ch) :: IsQuiet(e)
  {
    hide BanPart, RatePart, IPKey;
  }

  /** An event that touches neither the firewall nor the credits. */
  predicate IsQuiet(e: Event) {
    !e.Opened? && !e.Revoked? && !e.Granted? && !e.Removed? && !e.Paid?
  }

  lemma QuietWall(cfg: Config, sh: Shared, sh': Shared, news: seq<Event>)
    requires sh'.fw == sh.fw && (news != [] ==> IsQuiet(news[0]))
    ensures WallMoves(cfg, sh, sh', news)
  {
  }

  lemma WallNext(cfg: Config, log: seq<Event>, news: seq<Event>, sh: Shared, sh': Shared)
    requires |news| <= 1 && WallMoves(cfg, sh, sh', news) && sh.fw == WallOf(cfg, log)
    ensures sh'.fw == WallOf(cfg, log + news)
  {
    hide WallAfter;
    if news == [] {
      assert log + news == log;
    } else {
      assert (log + news)[..|log|] == log && (log + news)[|log|] == news[0];
    }
  }

  /** In every run the firewall is what the openings and revocations in the log leave of it. */
  lemma {:induction false} FirewallIsLedger(cfg: Config, r: Run, i: nat)
    requires Valid(cfg, r) && i <= |r.actions|
    ensures r.states[i].sh.fw == WallOf(cfg, r.states[i].log)
  {
    hide Step, WallOf, WallMoves;
    if i == 0 {
      hide StepAt;
      EmptyWall(cfg, r.states[0]);
    } else {
      hide Init;
      FirewallIsLedger(cfg, r, i - 1);
      assert StepAt(cfg, r, i - 1);
      var s, s' := r.states[i - 1], r.states[i];
      var news := StepWall(cfg, s, r.actions[i - 1], s');
      WallNext(cfg, s.log, news, s.sh, s'.sh);
    }
  }

  lemma EmptyWall(cfg: Config, s: Server)
    requires Init(cfg, s)
    ensures s.sh.fw == WallOf(cfg, s.log)
  {
  }

  lemma {:induction false} WallStaysClosed(cfg: Config, log: seq<Event>, j: nat)
    requires j < |log| && log[j].Revoked? && log[j].ok
    requires forall k | j < k < |log| && log[k].Opened? :: log[k].ip != log[j].ip
    ensures log[j].ip !in WallOf(cfg, log)
  {
    if j < |log| - 1 {
      WallStaysClosed(cfg, log[..|log| - 1], j);
    }
  }

  /** A revocation that succeeded closes the address, and it stays closed until a knock opens it again. */
  lemma RevocationCloses(cfg: Config, r: Run, i: nat, j: nat)
    requires Valid(cfg, r) && i <= |r.actions|
    requires var log := r.states[i].log;
             j < |log| && log[j].Revoked? && log[j].ok
             && forall k | j < k < |log| && log[k].Opened? :: log[k].ip != log[j].ip
    ensures r.states[i].log[j].ip !in r.states[i].sh.fw && !FirewallAllows(r.states[i].sh, r.states[i].log[j].ip)
  {
    hide Init, StepAt, WallOf;
    FirewallIsLedger(cfg, r, i);
    WallStaysClosed(cfg, r.states[i].log, j);
  }

  // ---------------------------------------------------------------------------
  // The credits
  // ---------------------------------------------------------------------------

  /** A handler takes a credit of this client at this address that was live. */
  predicate Takes(e: Event, ip: string, client: string) {
    ((e.Removed? && e.live) || e.Paid?) && e.ip == ip && e.client == client
  }

  /** The connections a knock is entered for. */
  function Puts(e: Event, ip: string, client: string): nat {
    if e.Granted? && e.ip == ip && e.client == client then (if e.count >= 1 then e.count else 1) else 0
  }

  function Taken(log: seq<Event>, ip: string, client: string): nat {
    if log == [] then 0 else Taken(log[..|log| - 1], ip, client) + One(Takes(log[|log| - 1], ip, client))
  }

  /** All the credits that knocks of this client from this address have put into the store. */
  function Put(log: seq<Event>, ip: string, client: string): nat {
    if log == [] then 0 else Put(log[..|log| - 1], ip, client) + Puts(log[|log| - 1], ip, client)
  }

  /** What an event says about the credits is covered by what the step does to the store. */
  ghost predicate CreditMoves(store: Knocks.Store, store': Knocks.Store, news: seq<Event>, ip: string, client: string) {
    KnockCredits.Outstanding(store', ip, client) + (if news == [] then 0 else One(Takes(news[0], ip, client)))
    <= KnockCredits.Outstanding(store, ip, client) + if news == [] then 0 else Puts(news[0], ip, client)
  }

  lemma CallMoves(store: Knocks.Store, op: Knocks.Op, store': Knocks.Store, reply: Knocks.Reply, news: seq<Event>,
                  ip: string, client: string)
    requires KnockCredits.Positive(store) && Knocks.Step(store, op, store', reply) && |news| == 1
    requires One(Takes(news[0], ip, client)) <= KnockCredits.Taken(store, op, reply, ip, client)
    requires KnockCredits.Granted(op, ip, client) <= Puts(news[0], ip, client)
    ensures CreditMoves(store, store', news, ip, client)
  {
    hide KnockCredits.Outstanding, KnockCredits.Positive, KnockCredits.Taken, KnockCredits.Granted, Knocks.Step,
      KnockCredits.Discarded;
    KnockCredits.StepBalances(store, op, store', reply, ip, client);
  }

  lemma HandlerCredits(cfg: Config, sh: Shared, c: nat, h: Handler, ch: Choice, sh': Shared, ip: string, client: string)
    requires HandlerStep(cfg, sh, h, ch, sh') && KnockCredits.Positive(sh.knocks)
    ensures CreditMoves(sh.knocks, sh'.knocks, HandlerEvents(cfg, sh, c, h, ch), ip, client)
  {
    hide BanPart, SlotsAfter, FirewallAfter, IPKey, ClientKey, ClientIsFull, FirewallAllows, CreditMoves,
      Knocks.Step, KnockCredits.Positive, Knocks.Live;
    var op, news := StoreCall(h, ch.now), HandlerEvents(cfg, sh, c, h, ch);
    if op.Some? {
      CallMoves(sh.knocks, op.value, sh'.knocks, ch.knock, news, ip, client);
    } else {
      NoCredits(sh.knocks, news, ip, client);
    }
  }

  lemma NoCredits(store: Knocks.Store, news: seq<Event>, ip: string, client: string)
    requires news != [] ==> !news[0].Removed? && !news[0].Paid?
    ensures CreditMoves(store, store, news, ip, client)
  {
    hide KnockCredits.Outstanding;
  }

  lemma KnockPuts(cfg: Config, sh: Shared, id: nat, k: Knocker, ch: Choice, sh': Shared, ip: string, client: string)
    requires KnockStep(cfg, sh, k, ch, sh') && KnockCredits.Positive(sh.knocks)
    ensures CreditMoves(sh.knocks, sh'.knocks, KnockEvents(cfg, sh, id, k, ch), ip, client)
  {
    hide BanPart, KnockFirewall, ClientKey, CreditMoves, Knocks.Step, KnockCredits.Positive;
    var op, news := KnockStoreCall(cfg, k, ch.now), KnockEvents(cfg, sh, id, k, ch);
    if op.Some? {
      CallMoves(sh.knocks, op.value, sh'.knocks, ch.knock, news, ip, client);
    } else {
      NoCredits(sh.knocks, news, ip, client);
    }
  }

  lemma StorePositive(sh: Shared, op: Option<Knocks.Op>, sh': Shared, reply: Knocks.Reply)
    requires StorePart(sh.knocks, op, sh'.knocks, reply) && KnockCredits.Positive(sh.knocks)
    ensures KnockCredits.Positive(sh'.knocks)
  {
    hide KnockCredits.Positive, Knocks.Step;
    if op.Some? {
      KnockCredits.StepKeepsPositive(sh.knocks, op.value, sh'.knocks, reply);
    }
  }

  lemma HandlerPositive(cfg: Config, sh: Shared, h: Handler, ch: Choice, sh': Shared)
    requires HandlerStep(cfg, sh, h, ch, sh') && KnockCredits.Positive(sh.knocks)
    ensures KnockCredits.Positive(sh'.knocks)
  {
    hide BanPart, StorePart, KnockCredits.Positive;
    StorePositive(sh, StoreCall(h, ch.now), sh', ch.knock);
  }

  lemma KnockPositive(cfg: Config, sh: Shared, k: Knocker, ch: Choice, sh': Shared)
    requires KnockStep(cfg, sh, k, ch, sh') && KnockCredits.Positive(sh.knocks)
    ensures KnockCredits.Positive(sh'.knocks)
  {
    hide BanPart, StorePart, KnockCredits.Positive;
    StorePositive(sh, KnockStoreCall(cfg, k, ch.now), sh', ch.knock);
  }

  lemma StepCredits(cfg: Config, s: Server, a: Action, s': Server, ip: string, client: string)
    returns (news: seq<Event>)
    requires Step(cfg, s, a, s') && KnockCredits.Positive(s.sh.knocks)
    ensures s'.log == s.log + news && |news| <= 1 && KnockCredits.Positive(s'.sh.knocks)
    ensures CreditMoves(s.sh.knocks, s'.sh.knocks, news, ip, client)
  {
    hide Step, HandlerStep, KnockStep, PacketStep, HandlerEvents, KnockEvents, PacketEvents, CreditMoves,
      KnockContinue, PacketContinue, KnockCredits.Positive;
    news := StepNews(cfg, s, a, s');
    if a.Handle? {
      HandlerCredits(cfg, s.sh, a.conn, s.conns[a.conn], a.ch, s'.sh, ip, client);
      HandlerPositive(cfg, s.sh, s.conns[a.conn], a.ch, s'.sh);
    } else if a.Knock? {
      KnockPuts(cfg, s.sh, a.id, s.knockers[a.id], a.ch, s'.sh, ip, client);
      KnockPositive(cfg, s.sh, s.knockers[a.id], a.ch, s'.sh);
    } else {
      if a.Packet? {
        PacketIsQuiet(cfg, s.sh, a.id, s.packets[a.id], a.ch, s'.sh);
      }
      assert news != [] ==> news[0] in news;
      NoCredits(s.sh.knocks, news, ip, client);
    }
  }

  lemma CreditNext(log: seq<Event>, news: seq<Event>, ip: string, client: string)
    requires |news| <= 1
    ensures Taken(log + news, ip, client)
         == Taken(log, ip, client) + if news == [] then 0 else One(Takes(news[0], ip, client))
    ensures Put(log + news, ip, client)
         == Put(log, ip, client) + if news == [] then 0 else Puts(news[0], ip, client)
  {
    if news == [] {
      assert log + news == log;
    } else {
      assert (log + news)[..|log|] == log && (log + news)[|log|] == news[0];
    }
  }

  /** In every run, what was taken for a client at an address and what is left never exceed what was put in. */
  lemma {:induction false} CreditsAreLedger(cfg: Config, r: Run, i: nat, ip: string, client: string)
    requires Valid(cfg, r) && i <= |r.actions|
    ensures var s := r.states[i];
            && KnockCredits.Positive(s.sh.knocks)
            && Taken(s.log, ip, client) + KnockCredits.Outstanding(s.sh.knocks, ip, client) <= Put(s.log, ip, client)
  {
    hide Step, Taken, Put, KnockCredits.Positive, KnockCredits.Outstanding;
    if i == 0 {
      hide StepAt;
      NoCreditsYet(cfg, r.states[0], ip, client);
    } else {
      hide Init;
      CreditsAreLedger(cfg, r, i - 1, ip, client);
      assert StepAt(cfg, r, i - 1);
      var s, s' := r.states[i - 1], r.states[i];
      var news := StepCredits(cfg, s, r.actions[i - 1], s', ip, client);
      CreditNext(s.log, news, ip, client);
    }
  }

  lemma NoCreditsYet(cfg: Config, s: Server, ip: string, client: string)
    requires Init(cfg, s)
    ensures KnockCredits.Positive(s.sh.knocks)
    ensures Taken(s.log, ip, client) + KnockCredits.Outstanding(s.sh.knocks, ip, client) <= Put(s.log, ip, client)
  {
  }

  /** The handlers that took a live credit of this client at this address. */
  ghost function Takers(log: seq<Event>, ip: string, client: string): set<nat> {
    set e | e in log && Takes(e, ip, client) :: e.conn
  }

  lemma {:induction false} TakersCount(log: seq<Event>, ip: string, client: string)
    ensures |Takers(log, ip, client)| <= Taken(log, ip, client)
  {
    hide Takes;
    if log == [] {
      assert Takers(log, ip, client) == {};
    } else {
      var n := |log| - 1;
      TakersCount(log[..n], ip, client);
      assert log == log[..n] + [log[n]];
      TakersNext(log[..n], log[n], ip, client);
    }
  }

  lemma TakersNext(log: seq<Event>, e: Event, ip: string, client: string)
    ensures Takers(log + [e], ip, client) == Takers(log, ip, client) + if Takes(e, ip, client) then {e.conn} else {}
  {
    assert forall x :: x in log + [e] <==> x in log || x == e;
  }

  /** The handlers that dialed for this client at this address after taking a live credit of it. */
  ghost function DialedOnCredit(log: seq<Event>, ip: string, client: string): set<nat> {
    set e | e in log && e.Dialed? && e.ip == ip && e.client == client && e.conn in Takers(log, ip, client) :: e.conn
  }

  /**
   * In every run, in either mode and whatever the interleaving: the connections that dialed
   * for a client at an address on a live credit are no more than the credits its knocks from
   * that address were entered for.
   */
  lemma DialsWithinCredits(cfg: Config, r: Run, i: nat, ip: string, client: string)
    requires Valid(cfg, r) && i <= |r.actions|
    ensures |DialedOnCredit(r.states[i].log, ip, client)| <= Put(r.states[i].log, ip, client)
  {
    hide Init, StepAt, Taken, Put, Takers, KnockCredits.Positive;
    var s := r.states[i];
    CreditsAreLedger(cfg, r, i, ip, client);
    TakersCount(s.log, ip, client);
    SubsetSize(DialedOnCredit(s.log, ip, client), Takers(s.log, ip, client));
    OwesNothingLess(s.sh.knocks, ip, client);
  }

  lemma OwesNothingLess(store: Knocks.Store, ip: string, client: string)
    requires KnockCredits.Positive(store)
    ensures 0 <= KnockCredits.Outstanding(store, ip, client)
  {
    assert KnockCredits.AllPositive(Knocks.ClientsOf(store, ip));
  }
}
