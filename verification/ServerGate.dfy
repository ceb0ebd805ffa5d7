/** The gate: every dial rests on a knock. */
module ServerGate {
  import opened Base
  import Knocks
  import opened Servers

  // ---------------------------------------------------------------------------
  // What stands in the store and in the firewall was put there by a knock
  // ---------------------------------------------------------------------------

  /** A knock of this client from this IP was accepted at `k`. */
  ghost predicate WasGranted(log: seq<Event>, ip: string, client: string, k: int) {
    exists e <- log :: e.Granted? && e.ip == ip && e.client == client && e.at == k
  }

  /** The store's entry that ends at `end` was granted one time to live before. */
  ghost predicate EntryBacked(cfg: Config, log: seq<Event>, clock: int, ip: string, client: string, end: int) {
    WasGranted(log, ip, client, end - cfg.allowTTL) && end - cfg.allowTTL <= clock
  }

  ghost predicate StoreBacked(cfg: Config, store: Knocks.Store, log: seq<Event>, clock: int) {
    forall ip, client ::
      client in Knocks.ClientsOf(store, ip) ==>
      EntryBacked(cfg, log, clock, ip, client, Knocks.ClientsOf(store, ip)[client].expiresAt)
  }

  /** A knock from this IP opened the firewall at `k`. */
  ghost predicate WasOpened(log: seq<Event>, ip: string, k: int) {
    exists e <- log :: e.Opened? && e.ip == ip && e.at == k
  }

  ghost predicate OpeningBacked(cfg: Config, log: seq<Event>, clock: int, ip: string, end: int) {
    WasOpened(log, ip, end - cfg.allowTTL) && end - cfg.allowTTL <= clock
  }

  ghost predicate FirewallBacked(cfg: Config, fw: map<string, int>, log: seq<Event>, clock: int) {
    forall ip <- fw :: OpeningBacked(cfg, log, clock, ip, fw[ip])
  }

  /** A knock of this client from this IP was accepted at `k` and was still good at `t`. */
  ghost predicate KnockCovers(cfg: Config, log: seq<Event>, ip: string, client: string, k: int, t: int) {
    WasGranted(log, ip, client, k) && k <= t < k + cfg.allowTTL
  }

  /** A knock from this IP opened the firewall at `k`, and it was still open at `t`. */
  ghost predicate OpeningCovers(cfg: Config, log: seq<Event>, ip: string, k: int, t: int) {
    WasOpened(log, ip, k) && k <= t < k + cfg.allowTTL
  }

  /** A knock from this IP was accepted at some k, and the access check saw a time t with k <= t < k + ttl. */
  ghost predicate Justified(cfg: Config, log: seq<Event>, ip: string, client: string, ground: Option<Ground>) {
    match ground
    case None => false
    case Some(FromStore(from, until)) =>
      exists k: int, t: int :: from <= t <= until && KnockCovers(cfg, log, ip, client, k, t)
    case Some(FromFirewall(at)) =>
      exists k: int :: OpeningCovers(cfg, log, ip, k, at)
  }

  predicate PastCheck(pc: Pc) {
    pc.AcquireClient? || pc.RemoveOne? || pc.RevokeOne? || pc.DirectRevoke? || pc.Dial?
  }

  ghost predicate HandlersJustified(cfg: Config, conns: map<nat, Handler>, log: seq<Event>) {
    forall c <- conns :: PastCheck(conns[c].pc) ==>
      Justified(cfg, log, conns[c].ip, conns[c].client, conns[c].ground)
  }

  ghost predicate DialsJustified(cfg: Config, log: seq<Event>) {
    forall e <- log :: e.Dialed? ==> Justified(cfg, log, e.ip, e.client, e.ground)
  }

  ghost predicate Gate(cfg: Config, s: Server) {
    && StoreBacked(cfg, s.sh.knocks, s.log, s.sh.clock)
    && FirewallBacked(cfg, s.sh.fw, s.log, s.sh.clock)
    && HandlersJustified(cfg, s.conns, s.log)
    && DialsJustified(cfg, s.log)
  }

  // ---------------------------------------------------------------------------
  // History only grows
  // ---------------------------------------------------------------------------

  lemma GrantedLater(log: seq<Event>, more: seq<Event>, ip: string, client: string, k: int)
    requires WasGranted(log, ip, client, k)
    ensures WasGranted(log + more, ip, client, k)
  {
    var e :| e in log && e.Granted? && e.ip == ip && e.client == client && e.at == k;
    assert e in log + more;
  }

  lemma OpenedLater(log: seq<Event>, more: seq<Event>, ip: string, k: int)
    requires WasOpened(log, ip, k)
    ensures WasOpened(log + more, ip, k)
  {
    var e :| e in log && e.Opened? && e.ip == ip && e.at == k;
    assert e in log + more;
  }

  lemma JustifiedLater(cfg: Config, log: seq<Event>, more: seq<Event>, ip: string, client: string,
                       ground: Option<Ground>)
    requires Justified(cfg, log, ip, client, ground)
    ensures Justified(cfg, log + more, ip, client, ground)
  {
    match ground
    case Some(FromStore(from, until)) =>
      var k, t :| from <= t <= until && KnockCovers(cfg, log, ip, client, k, t);
      GrantedLater(log, more, ip, client, k);
      assert KnockCovers(cfg, log + more, ip, client, k, t);
    case Some(FromFirewall(at)) =>
      var k :| OpeningCovers(cfg, log, ip, k, at);
      OpenedLater(log, more, ip, k);
      assert OpeningCovers(cfg, log + more, ip, k, at);
  }

  lemma GateLater(cfg: Config, s: Server, more: seq<Event>, clock: int)
    requires Gate(cfg, s) && s.sh.clock <= clock
    requires forall e <- more :: e.Dialed? ==> Justified(cfg, s.log, e.ip, e.client, e.ground)
    ensures StoreBacked(cfg, s.sh.knocks, s.log + more, clock)
    ensures FirewallBacked(cfg, s.sh.fw, s.log + more, clock)
    ensures HandlersJustified(cfg, s.conns, s.log + more)
    ensures DialsJustified(cfg, s.log + more)
  {
    hide Justified, WasGranted, WasOpened;
    forall ip, client | client in Knocks.ClientsOf(s.sh.knocks, ip)
      ensures EntryBacked(cfg, s.log + more, clock, ip, client, Knocks.ClientsOf(s.sh.knocks, ip)[client].expiresAt)
    {
      GrantedLater(s.log, more, ip, client, Knocks.ClientsOf(s.sh.knocks, ip)[client].expiresAt - cfg.allowTTL);
    }
    forall ip | ip in s.sh.fw
      ensures OpeningBacked(cfg, s.log + more, clock, ip, s.sh.fw[ip])
    {
      OpenedLater(s.log, more, ip, s.sh.fw[ip] - cfg.allowTTL);
    }
    forall c | c in s.conns && PastCheck(s.conns[c].pc)
      ensures Justified(cfg, s.log + more, s.conns[c].ip, s.conns[c].client, s.conns[c].ground)
    {
      JustifiedLater(cfg, s.log, more, s.conns[c].ip, s.conns[c].client, s.conns[c].ground);
    }
    forall e | e in s.log + more && e.Dialed?
      ensures Justified(cfg, s.log + more, e.ip, e.client, e.ground)
    {
      JustifiedLater(cfg, s.log, more, e.ip, e.client, e.ground);
    }
  }

  // ---------------------------------------------------------------------------
  // The shared state
  // ---------------------------------------------------------------------------

  /** A call leaves no entry that was not there with the same end, but for the one it adds. */
  lemma StoreKeepsBacked(cfg: Config, store: Knocks.Store, op: Knocks.Op, store': Knocks.Store, reply: Knocks.Reply,
                         log: seq<Event>, clock: int)
    requires Knocks.Step(store, op, store', reply) && StoreBacked(cfg, store, log, clock)
    requires op.Add? ==> op.ttl == cfg.allowTTL && op.now <= clock && WasGranted(log, op.ip, op.client, op.now)
    ensures StoreBacked(cfg, store', log, clock)
  {
    Knocks.StepByIP(store, op, store', reply);
    forall ip, client | client in Knocks.ClientsOf(store', ip)
      ensures EntryBacked(cfg, log, clock, ip, client, Knocks.ClientsOf(store', ip)[client].expiresAt)
    {
      if ip == op.ip {
        EntriesFrom(Knocks.ClientsOf(store, ip), op, Knocks.Payer(reply), client);
      }
    }
  }

  lemma EntriesFrom(c: Knocks.Clients, op: Knocks.Op, payer: string, client: string)
    requires client in Knocks.ClientsAfter(c, op, payer)
    ensures var e := Knocks.ClientsAfter(c, op, payer)[client].expiresAt;
            (client in c && c[client].expiresAt == e) || (op.Add? && op.client == client && e == op.now + op.ttl)
  {
  }

  // ---------------------------------------------------------------------------
  // Handlers
  // ---------------------------------------------------------------------------

  /** Finding a live entry at a time read since the last step is a justification. */
  lemma LiveIsJustified(cfg: Config, store: Knocks.Store, log: seq<Event>, clock: int, now: int, ip: string,
                        client: string)
    requires StoreBacked(cfg, store, log, clock) && now <= clock && cfg.allowTTL > 0
    requires Knocks.Live(store, ip, client, now).Some?
    ensures Justified(cfg, log, ip, client, Some(FromStore(now, clock)))
  {
    var k := Knocks.ClientsOf(store, ip)[client].expiresAt - cfg.allowTTL;
    assert EntryBacked(cfg, log, clock, ip, client, k + cfg.allowTTL);
    // The knock may have come in after the time was read.
    var t := if k <= now then now else k;
    assert now <= t <= clock && KnockCovers(cfg, log, ip, client, k, t);
  }

  lemma AllowedIsJustified(cfg: Config, sh: Shared, log: seq<Event>, ip: string, client: string)
    requires FirewallBacked(cfg, sh.fw, log, sh.clock) && FirewallAllows(sh, ip)
    ensures Justified(cfg, log, ip, client, Some(FromFirewall(sh.clock)))
  {
    var k := sh.fw[ip] - cfg.allowTTL;
    assert OpeningCovers(cfg, log, ip, k, sh.clock);
  }

  lemma HandlerJustified(cfg: Config, s: Server, h: Handler, ch: Choice, sh': Shared)
    requires Sensible(cfg) && Gate(cfg, s) && HandlerStep(cfg, s.sh, h, ch, sh') && Running(h.pc)
    requires PastCheck(h.pc) ==> Justified(cfg, s.log, h.ip, h.client, h.ground)
    ensures var h' := After(cfg, s.sh, h, ch);
            PastCheck(h'.pc) ==> Justified(cfg, s.log, h'.ip, h'.client, h'.ground)
  {
    hide Justified, Gate, ClientIsFull, FirewallAllows, HandlerStep;
    var h' := After(cfg, s.sh, h, ch);
    if PastCheck(h'.pc) {
      GateParts(cfg, s);
      if h.pc.Consume? {
        ConsumeJustified(cfg, s, h, ch, sh');
      } else if h.pc.Access? {
        AccessJustified(cfg, s, h, ch, sh');
      } else if h.pc.Check? {
        AllowedIsJustified(cfg, s.sh, s.log, h.ip, h.client);
      }
    }
  }

  lemma ConsumeJustified(cfg: Config, s: Server, h: Handler, ch: Choice, sh': Shared)
    requires Sensible(cfg) && StoreBacked(cfg, s.sh.knocks, s.log, s.sh.clock)
    requires HandlerStep(cfg, s.sh, h, ch, sh') && Pays(h, ch)
    ensures Justified(cfg, s.log, h.ip, ch.knock.client, Some(FromStore(ch.now, s.sh.clock)))
  {
    hide Justified, StoreBacked;
    var op := Knocks.ConsumeAny(h.ip, ch.now);
    Knocks.ConsumeAnyTakesOne(s.sh.knocks, op, sh'.knocks, ch.knock, h.ip, "");
    LiveIsJustified(cfg, s.sh.knocks, s.log, s.sh.clock, ch.now, h.ip, ch.knock.client);
  }

  lemma AccessJustified(cfg: Config, s: Server, h: Handler, ch: Choice, sh': Shared)
    requires Sensible(cfg) && StoreBacked(cfg, s.sh.knocks, s.log, s.sh.clock)
    requires HandlerStep(cfg, s.sh, h, ch, sh') && h.pc == Access && ch.knock == Knocks.Flag(true)
    ensures Justified(cfg, s.log, h.ip, h.client, Some(FromStore(ch.now, s.sh.clock)))
  {
    hide Justified, StoreBacked;
    var op := Knocks.Has(h.ip, h.client, ch.now);
    Knocks.HousekeepingKeepsLive(s.sh.knocks, op, sh'.knocks, ch.knock, h.ip, h.client, ch.now);
    LiveIsJustified(cfg, s.sh.knocks, s.log, s.sh.clock, ch.now, h.ip, h.client);
  }

  lemma GateParts(cfg: Config, s: Server)
    requires Gate(cfg, s)
    ensures StoreBacked(cfg, s.sh.knocks, s.log, s.sh.clock)
    ensures FirewallBacked(cfg, s.sh.fw, s.log, s.sh.clock)
  {
  }

  // ---------------------------------------------------------------------------
  // Every step keeps the gate
  // ---------------------------------------------------------------------------

  lemma HandlersPart(cfg: Config, s: Server, c: nat)
    requires Gate(cfg, s) && c in s.conns
    ensures PastCheck(s.conns[c].pc) ==> Justified(cfg, s.log, s.conns[c].ip, s.conns[c].client, s.conns[c].ground)
  {
  }

  lemma FirewallLess(cfg: Config, fw: map<string, int>, gone: string, log: seq<Event>, clock: int)
    requires FirewallBacked(cfg, fw, log, clock)
    ensures FirewallBacked(cfg, fw - {gone}, log, clock)
  {
  }

  lemma HandlersWith(cfg: Config, conns: map<nat, Handler>, log: seq<Event>, c: nat, h: Handler)
    requires HandlersJustified(cfg, conns, log)
    requires PastCheck(h.pc) ==> Justified(cfg, log, h.ip, h.client, h.ground)
    ensures HandlersJustified(cfg, conns[c := h], log)
  {
  }

  lemma HandlerStoreBacked(cfg: Config, sh: Shared, h: Handler, ch: Choice, sh': Shared, log: seq<Event>)
    requires HandlerStep(cfg, sh, h, ch, sh') && StoreBacked(cfg, sh.knocks, log, sh.clock)
    ensures StoreBacked(cfg, sh'.knocks, log, sh.clock)
  {
    hide StoreBacked;
    var op := StoreCall(h, ch.now);
    if op.Some? {
      StoreKeepsBacked(cfg, sh.knocks, op.value, sh'.knocks, ch.knock, log, sh.clock);
    }
  }

  lemma HandleKeepsGate(cfg: Config, s: Server, c: nat, ch: Choice, s': Server)
    requires Sensible(cfg) && Gate(cfg, s) && Step(cfg, s, Handle(c, ch), s')
    ensures Gate(cfg, s')
  {
    hide StoreBacked, FirewallBacked, HandlersJustified, DialsJustified, HandlerStep, Justified, Continue;
    var h := s.conns[c];
    var more, h' := HandlerEvents(cfg, s.sh, c, h, ch), After(cfg, s.sh, h, ch);
    HandlersPart(cfg, s, c);
    GateLater(cfg, s, more, s.sh.clock);
    HandlerStoreBacked(cfg, s.sh, h, ch, s'.sh, s.log + more);
    HandlerFirewall(cfg, s.sh, h, ch, s'.sh, s.log + more);
    HandlerJustified(cfg, s, h, ch, s'.sh);
    if PastCheck(h'.pc) {
      JustifiedLater(cfg, s.log, more, h'.ip, h'.client, h'.ground);
    }
    HandlersWith(cfg, s.conns, s.log + more, c, h');
  }

  lemma HandlerFirewall(cfg: Config, sh: Shared, h: Handler, ch: Choice, sh': Shared, log: seq<Event>)
    requires HandlerStep(cfg, sh, h, ch, sh') && FirewallBacked(cfg, sh.fw, log, sh.clock)
    ensures FirewallBacked(cfg, sh'.fw, log, sh.clock) && sh'.clock == sh.clock
  {
    FirewallLess(cfg, sh.fw, h.ip, log, sh.clock);
    hide FirewallBacked;
  }

  lemma KnockStoreBacked(cfg: Config, sh: Shared, k: Knocker, ch: Choice, sh': Shared, log: seq<Event>)
    requires KnockStep(cfg, sh, k, ch, sh') && StoreBacked(cfg, sh.knocks, log, sh.clock)
    requires k.pc.KAdd? ==> WasGranted(log, k.ip, k.client, ch.now)
    ensures StoreBacked(cfg, sh'.knocks, log, sh.clock)
  {
    hide StoreBacked;
    var op := KnockStoreCall(cfg, k, ch.now);
    if op.Some? {
      StoreKeepsBacked(cfg, sh.knocks, op.value, sh'.knocks, ch.knock, log, sh.clock);
    }
  }

  lemma KnockFirewallBacked(cfg: Config, sh: Shared, k: Knocker, ch: Choice, log: seq<Event>)
    requires FirewallBacked(cfg, sh.fw, log, sh.clock)
    requires k.pc.KAllow? && ch.ok ==> WasOpened(log, k.ip, sh.clock)
    ensures FirewallBacked(cfg, KnockFirewall(cfg, sh, k, ch), log, sh.clock)
  {
    FirewallLess(cfg, sh.fw, k.ip, log, sh.clock);
  }

  lemma KnockKeepsGate(cfg: Config, s: Server, id: nat, ch: Choice, s': Server)
    requires Gate(cfg, s) && Step(cfg, s, Knock(id, ch), s')
    ensures Gate(cfg, s')
  {
    hide StoreBacked, FirewallBacked, HandlersJustified, DialsJustified, Justified, KnockFirewall;
    var k := s.knockers[id];
    var more := KnockEvents(cfg, s.sh, id, k, ch);
    GateLater(cfg, s, more, s.sh.clock);
    assert k.pc.KAdd? ==> more[0] in s.log + more;
    assert k.pc.KAllow? && ch.ok ==> more[0] in s.log + more;
    KnockStoreBacked(cfg, s.sh, k, ch, s'.sh, s.log + more);
    KnockFirewallBacked(cfg, s.sh, k, ch, s.log + more);
  }

  lemma PipeKeepsGate(cfg: Config, s: Server, a: Action, s': Server)
    requires Gate(cfg, s) && PipeStep(cfg, s, a, s')
    ensures Gate(cfg, s')
  {
    hide Justified, StoreBacked, FirewallBacked, DialsJustified, HandlersJustified, PipeStep, Subject;
    PipeMoves(cfg, s, a, s');
    var more := if a.Take? then [Begun(OfConn(s.pipe.queue[0]))] else [];
    GateLater(cfg, s, more, s.sh.clock);
    if s'.conns != s.conns {
      HandlersWith(cfg, s.conns, s.log + more, Subject(s, a), s'.conns[Subject(s, a)]);
    }
  }

  lemma StepKeepsGate(cfg: Config, s: Server, a: Action, s': Server)
    requires Sensible(cfg) && Gate(cfg, s) && Step(cfg, s, a, s')
    ensures Gate(cfg, s')
  {
    hide PipeStep, HandlerStep, KnockStep, StoreBacked, FirewallBacked, HandlersJustified, DialsJustified;
    match a
    case Handle(c, ch) => HandleKeepsGate(cfg, s, c, ch, s');
    case Knock(id, ch) => KnockKeepsGate(cfg, s, id, ch, s');
    case Tick(to) =>
      GateLater(cfg, s, [], to);
      assert s.log + [] == s.log;
    case PacketArrives(id, _) => GateLater(cfg, s, [Begun(OfPacket(id))], s.sh.clock);
    case Packet(id, ch) => GateLater(cfg, s, PacketEvents(s.sh, id, s.packets[id], ch), s.sh.clock);
    case KnockArrives(id, _, _, _) => GateLater(cfg, s, [Begun(OfKnock(id))], s.sh.clock);
    case _ => PipeKeepsGate(cfg, s, a, s');
  }

  lemma InitGate(cfg: Config, s: Server)
    requires Init(cfg, s)
    ensures Gate(cfg, s)
  {
  }

  lemma {:induction false} GateAlways(cfg: Config, r: Run, i: nat)
    requires Valid(cfg, r) && i <= |r.actions|
    ensures Gate(cfg, r.states[i])
  {
    hide Step, Init, Gate;
    if i == 0 {
      InitGate(cfg, r.states[0]);
    } else {
      GateAlways(cfg, r, i - 1);
      assert StepAt(cfg, r, i - 1);
      StepKeepsGate(cfg, r.states[i - 1], r.actions[i - 1], r.states[i]);
    }
  }

  /**
   * The gate, in every interleaving: every dial ever made for an IP rests on an access
   * check and on a knock from that IP that had been accepted and had not run out at a
   * moment of that check. If the check was made in the knock store, the knock was the
   * same client's.
   */
  lemma EveryDialRestsOnAKnock(cfg: Config, r: Run, i: nat, e: Event)
    requires Valid(cfg, r) && i <= |r.actions| && e in r.states[i].log && e.Dialed?
    ensures Justified(cfg, r.states[i].log, e.ip, e.client, e.ground)
  {
    hide Valid, Justified;
    GateAlways(cfg, r, i);
  }
}
