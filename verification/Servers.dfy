/**
 * The server as a step system (internal/app/server.go). Packet checks, knock handlers
 * with their timers, the accept loop, the workers and the connection handlers run in
 * any interleaving; every call on shared state is one step.
 */
module Servers {
  import opened Base
  import Bans
  import Rates
  import Knocks
  import opened ConnectionSlots

  datatype Config = Config(
    direct: bool, allowTTL: int, maxPerKnock: int,
    removeAfterAuth: bool, removeAfterFirst: bool, encrypted: bool, checker: bool,
    bans: Bans.Config, rate: Rates.Config, limits: Limits, clients: map<string, int>,
    maxPending: nat, maxWorkers: nat)

  /** What all goroutines share. The firewall is a map from IP to the end of its allow entry. */
  datatype Shared = Shared(
    clock: int, knocks: Knocks.Store, fw: map<string, int>,
    bans: Bans.Tracker, rate: Rates.Limiter, slots: Slots)

  /** What a step finds out that the state does not decide. */
  datatype Choice = Choice(
    ok: bool, fails: bool, text: string, now: int, ban: Bans.Reply, knock: Knocks.Reply, evicted: Option<string>)

  function IPKey(ip: string): string {
    "ip:" + ip
  }

  function ClientKey(client: string): string {
    "client:" + client
  }

  // ---------------------------------------------------------------------------
  // Connection handlers
  // ---------------------------------------------------------------------------

  /** Why a connection was let in: by a knock in the store or by the firewall, looked up between `from` and `until`. */
  datatype Ground = FromStore(from: int, until: int) | FromFirewall(at: int)

  /** The next thing a connection has before it. */
  datatype Pc =
    | AtLoop | Queued
    | BanCheck | AcquireIP
    | Consume | DirectRevoke
    | Auth | ClientBan | Lookup | Access | Check | AcquireClient | RemoveOne | RevokeOne
    | Dial | WrapUp | Relay
    | FailIP | FailIPCount | FailClient | FailClientCount | FailRevoke | FailRemove
    | ReleaseClient | ReleaseIP | Close | Closed

  datatype Handler = Handler(
    pc: Pc, addr: Option<string>, ip: string, client: string,
    ipSlot: bool, clientSlot: bool, ground: Option<Ground>, since: int)

  /** In the hands of a worker. */
  predicate InHandler(pc: Pc) {
    !pc.AtLoop? && !pc.Queued? && !pc.Closed?
  }

  /** Steps of handleConn proper, the close at its end apart. */
  predicate Running(pc: Pc) {
    InHandler(pc) && !pc.Close?
  }

  /** The call on the ban tracker a handler makes in this step. */
  function BanCall(h: Handler, clock: int): Option<Bans.Call> {
    match h.pc
    case BanCheck => Some(Bans.IsBanned(IPKey(h.ip), clock))
    case ClientBan => Some(Bans.IsBanned(ClientKey(h.client), clock))
    case FailIP => Some(Bans.RecordFailure(IPKey(h.ip), clock))
    case FailClient => Some(Bans.RecordFailure(ClientKey(h.client), clock))
    case FailIPCount => Some(Bans.Count(clock))
    case FailClientCount => Some(Bans.Count(clock))
    case _ => None
  }

  /** The call on the knock store a handler makes in this step, with the time it read before. */
  function StoreCall(h: Handler, now: int): Option<Knocks.Op> {
    match h.pc
    case Consume => Some(Knocks.ConsumeAny(h.ip, now))
    case Access => Some(Knocks.Has(h.ip, h.client, now))
    case RemoveOne => Some(Knocks.RemoveOne(h.ip, h.client, now))
    case FailRemove =>
      Some(if h.client != "" then Knocks.RemoveOne(h.ip, h.client, now) else Knocks.RemoveIP(h.ip))
    case _ => None
  }

  predicate Revokes(cfg: Config, h: Handler) {
    h.pc.DirectRevoke? || h.pc.RevokeOne? || (h.pc.FailRevoke? && cfg.removeAfterAuth)
  }

  function FirewallAfter(cfg: Config, fw: map<string, int>, h: Handler, ch: Choice): map<string, int> {
    if Revokes(cfg, h) && ch.ok then fw - {h.ip} else fw
  }

  predicate ClientIsFull(cfg: Config, s: Slots, client: string) {
    ClientFull(cfg.limits, s, client, Get(cfg.clients, client))
  }

  function SlotsAfter(cfg: Config, s: Slots, h: Handler): Slots {
    match h.pc
    case AcquireIP => if IPFull(cfg.limits, s, h.ip) then s else IPTaken(s, h.ip)
    case AcquireClient => if ClientIsFull(cfg, s, h.client) then s else ClientTaken(s, h.client)
    case ReleaseClient => ClientFreed(s, h.client)
    case ReleaseIP => IPFreed(s, h.ip)
    case _ => s
  }

  /** The deferred calls, last one first. */
  function LeavePc(h: Handler): Pc {
    if h.clientSlot then ReleaseClient else ReleaseIP
  }

  function FailNextPc(h: Handler): Pc {
    if h.client != "" then FailClient else FailRevoke
  }

  predicate FirewallAllows(sh: Shared, ip: string) {
    ip in sh.fw && sh.clock < sh.fw[ip]
  }

  /** Where a handler goes from here. */
  function NextPc(cfg: Config, sh: Shared, h: Handler, ch: Choice): Pc {
    match h.pc
    case BanCheck => if ch.ban == Bans.Flag(true) then Close else AcquireIP
    case AcquireIP => if IPFull(cfg.limits, sh.slots, h.ip) then Close else if cfg.direct then Consume else Auth
    case Consume =>
      if !Pays(h, ch) then LeavePc(h)
      else if cfg.removeAfterFirst && ch.knock.shouldRevoke then DirectRevoke
      else Dial
    case DirectRevoke => Dial
    case Auth => if ch.ok then ClientBan else FailIP
    case ClientBan => if ch.ban == Bans.Flag(true) then FailIP else Lookup
    case Lookup => if h.client in cfg.clients then Access else FailIP
    case Access => if ch.knock == Knocks.Flag(true) then AcquireClient else if cfg.checker then Check else FailIP
    case Check => if !ch.fails && FirewallAllows(sh, h.ip) then AcquireClient else FailIP
    case AcquireClient =>
      if ClientIsFull(cfg, sh.slots, h.client) then LeavePc(h) else if cfg.removeAfterAuth then RemoveOne else Dial
    case RemoveOne => if ch.knock == Knocks.Flag(true) then RevokeOne else Dial
    case RevokeOne => Dial
    case Dial => if !ch.ok then LeavePc(h) else if cfg.encrypted && !cfg.direct then WrapUp else Relay
    case WrapUp => if ch.ok then Relay else FailIP
    case Relay => LeavePc(h)
    case FailIP => if ch.ban == Bans.Flag(true) then FailIPCount else FailNextPc(h)
    case FailIPCount => FailNextPc(h)
    case FailClient => if ch.ban == Bans.Flag(true) then FailClientCount else FailRevoke
    case FailClientCount => FailRevoke
    case FailRevoke => if cfg.removeAfterAuth then FailRemove else LeavePc(h)
    case FailRemove => LeavePc(h)
    case ReleaseClient => ReleaseIP
    case ReleaseIP => Close
    case _ => h.pc
  }

  predicate Pays(h: Handler, ch: Choice) {
    h.pc.Consume? && ch.knock.Consumed? && ch.knock.ok
  }

  /** The client a handler works for: found in the store in direct mode, authenticated in proxy mode. */
  function NextClient(h: Handler, ch: Choice): string {
    if Pays(h, ch) then ch.knock.client
    else if h.pc.Auth? && ch.ok then ch.text
    else h.client
  }

  function NextGround(sh: Shared, h: Handler, ch: Choice): Option<Ground> {
    if Pays(h, ch) || (h.pc.Access? && ch.knock == Knocks.Flag(true)) then Some(FromStore(ch.now, sh.clock))
    else if h.pc.Check? then Some(FromFirewall(sh.clock))
    else h.ground
  }

  function Continue(cfg: Config, sh: Shared, h: Handler, ch: Choice): Handler {
    Handler(NextPc(cfg, sh, h, ch), h.addr, h.ip, NextClient(h, ch),
      if h.pc.AcquireIP? then !IPFull(cfg.limits, sh.slots, h.ip) else h.ipSlot && !h.pc.ReleaseIP?,
      if h.pc.AcquireClient? then !ClientIsFull(cfg, sh.slots, h.client) else h.clientSlot && !h.pc.ReleaseClient?,
      NextGround(sh, h, ch), h.since)
  }

  /** In direct mode no handler is at a step of the proxy mode. */
  predicate DirectOnly(pc: Pc) {
    !(pc.Auth? || pc.ClientBan? || pc.Lookup? || pc.Access? || pc.Check? || pc.AcquireClient? || pc.RemoveOne?
      || pc.RevokeOne? || pc.WrapUp? || pc.FailIP? || pc.FailIPCount? || pc.FailClient? || pc.FailClientCount?
      || pc.FailRevoke? || pc.FailRemove?)
  }

  predicate OfMode(cfg: Config, pc: Pc) {
    if cfg.direct then DirectOnly(pc) else !pc.Consume? && !pc.DirectRevoke?
  }

  lemma ModeGoesOn(cfg: Config, sh: Shared, h: Handler, ch: Choice)
    requires OfMode(cfg, h.pc)
    ensures OfMode(cfg, Continue(cfg, sh, h, ch).pc)
  {
    hide NextGround, NextClient, IPFull, ClientIsFull, FirewallAllows;
    assert Continue(cfg, sh, h, ch).pc == NextPc(cfg, sh, h, ch);
  }

  /** What runs beside the others: a connection's handler, the handling of a knock, the check of a packet. */
  datatype Actor = OfConn(conn: nat) | OfKnock(id: nat) | OfPacket(id: nat)

  /** Who asks the ban tracker: a handler for its IP or for its client, a knock, a packet. */
  datatype Check = ByIP(conn: nat) | ByClient(conn: nat) | ByKnock(id: nat) | ByPacket(id: nat)

  /** One event for each thing a handler, a knock or a packet does, with what it found out. */
  datatype Event =
    | Begun(who: Actor)
    // The ban tracker was asked, or a failure recorded, or the bans counted.
    | Passed(check: Check, key: string, at: int)
    | Barred(check: Check, key: string, at: int)
    | Banned(check: Check, key: string, at: int)
    | Recorded(check: Check, key: string, at: int)
    | Counted(check: Check, at: int, reply: Bans.Reply)
    // The knock store was called; `live` tells whether the entry was live.
    | Granted(id: nat, ip: string, client: string, at: int, ttl: int, count: int)
    | Expired(id: nat, ip: string, client: string, at: int, gone: bool)
    | Paid(conn: nat, ip: string, client: string, last: bool)
    | Unpaid(conn: nat, ip: string)
    | Found(conn: nat, ip: string, client: string, yes: bool)
    | Removed(conn: nat, ip: string, client: string, last: bool, live: bool)
    | Purged(conn: nat, ip: string)
    // The nonce cache, the firewall and the rate limiter.
    | NonceAsked(id: nat, client: string, nonce: string, accepted: bool)
    | Opened(id: nat, ip: string, at: int)
    | Revoked(who: Actor, ip: string, ok: bool)
    | FirewallAsked(conn: nat, ip: string, open: bool)
    | Rated(id: nat, ip: string, at: int, ok: bool, evicted: Option<string>)
    | Admitted(id: nat, ip: string, at: int)
    // A handler's own business.
    | SlotAsked(conn: nat, ip: string, ok: bool)
    | Authenticated(conn: nat, peer: Option<string>)
    | LookedUp(conn: nat, client: string, known: bool)
    | ClientSlotAsked(conn: nat, client: string, ok: bool)
    | Dialed(conn: nat, ip: string, client: string, ground: Option<Ground>, ok: bool)
    | Wrapped(conn: nat, ok: bool)
    | Relayed(conn: nat)
    | ClientLeft(conn: nat, client: string)
    | Left(conn: nat, ip: string)

  function BanEvents(check: Check, call: Bans.Call, reply: Bans.Reply): seq<Event> {
    match call
    case IsBanned(key, now) => [if reply == Bans.Flag(true) then Barred(check, key, now) else Passed(check, key, now)]
    case RecordFailure(key, now) =>
      [if reply == Bans.Flag(true) then Banned(check, key, now) else Recorded(check, key, now)]
    case Count(now) => [Counted(check, now, reply)]
  }

  function CheckOf(c: nat, h: Handler): Check {
    if h.pc.ClientBan? || h.pc.FailClient? || h.pc.FailClientCount? then ByClient(c) else ByIP(c)
  }

  function StoreEvents(store: Knocks.Store, c: nat, op: Knocks.Op, reply: Knocks.Reply): seq<Event> {
    match op
    case ConsumeAny(ip, _) =>
      [if reply.Consumed? && reply.ok then Paid(c, ip, reply.client, reply.shouldRevoke) else Unpaid(c, ip)]
    case Has(ip, client, _) => [Found(c, ip, client, reply == Knocks.Flag(true))]
    case RemoveOne(ip, client, now) =>
      [Removed(c, ip, client, reply == Knocks.Flag(true), Knocks.Live(store, ip, client, now).Some?)]
    case RemoveIP(ip) => [Purged(c, ip)]
    case _ => []
  }

  function OwnEvents(cfg: Config, sh: Shared, c: nat, h: Handler, ch: Choice): seq<Event> {
    match h.pc
    case AcquireIP => [SlotAsked(c, h.ip, !IPFull(cfg.limits, sh.slots, h.ip))]
    case Auth => [Authenticated(c, if ch.ok then Some(ch.text) else None)]
    case Lookup => [LookedUp(c, h.client, h.client in cfg.clients)]
    case Check => [FirewallAsked(c, h.ip, !ch.fails && FirewallAllows(sh, h.ip))]
    case AcquireClient => [ClientSlotAsked(c, h.client, !ClientIsFull(cfg, sh.slots, h.client))]
    case Dial => [Dialed(c, h.ip, h.client, h.ground, ch.ok)]
    case WrapUp => [Wrapped(c, ch.ok)]
    case Relay => [Relayed(c)]
    case ReleaseClient => [ClientLeft(c, h.client)]
    case ReleaseIP => [Left(c, h.ip)]
    case _ => []
  }

  function HandlerEvents(cfg: Config, sh: Shared, c: nat, h: Handler, ch: Choice): (more: seq<Event>)
    ensures |more| <= 1
  {
    var call, op := BanCall(h, sh.clock), StoreCall(h, ch.now);
    if call.Some? then BanEvents(CheckOf(c, h), call.value, ch.ban)
    else if op.Some? then StoreEvents(sh.knocks, c, op.value, ch.knock)
    else if Revokes(cfg, h) then [Revoked(OfConn(c), h.ip, ch.ok)]
    else OwnEvents(cfg, sh, c, h, ch)
  }

  ghost predicate BanPart(cfg: Config, s: Bans.Tracker, call: Option<Bans.Call>, s': Bans.Tracker, reply: Bans.Reply) {
    match call
    case None => s' == s
    case Some(c) => Bans.Step(cfg.bans, s, c, s', reply)
  }

  ghost predicate StorePart(s: Knocks.Store, op: Option<Knocks.Op>, s': Knocks.Store, reply: Knocks.Reply) {
    match op
    case None => s' == s
    case Some(o) => Knocks.Step(s, o, s', reply)
  }

  /** One step of a handler on the shared state; times are read between the step before and this one. */
  ghost predicate HandlerStep(cfg: Config, sh: Shared, h: Handler, ch: Choice, sh': Shared) {
    && h.since <= ch.now <= sh.clock
    && BanPart(cfg, sh.bans, BanCall(h, sh.clock), sh'.bans, ch.ban)
    && StorePart(sh.knocks, StoreCall(h, ch.now), sh'.knocks, ch.knock)
    && sh' == sh.(bans := sh'.bans, knocks := sh'.knocks,
                  fw := FirewallAfter(cfg, sh.fw, h, ch), slots := SlotsAfter(cfg, sh.slots, h))
  }

  // ---------------------------------------------------------------------------
  // Knock handlers and their timers
  // ---------------------------------------------------------------------------

  datatype KnockPc = KBan | KNonce | KAllow | KAdd | KTimer | KRevoke | KDone

  /** A knock; an empty nonce stands for none. */
  datatype Knocker = Knocker(pc: KnockPc, ip: string, client: string, nonce: string, since: int)

  function KnockBanCall(k: Knocker, clock: int): Option<Bans.Call> {
    if k.pc.KBan? then Some(Bans.IsBanned(ClientKey(k.client), clock)) else None
  }

  function PerKnock(cfg: Config): int {
    if cfg.direct then cfg.maxPerKnock else 1
  }

  function KnockStoreCall(cfg: Config, k: Knocker, now: int): Option<Knocks.Op> {
    match k.pc
    case KAdd => Some(Knocks.Add(k.ip, k.client, cfg.allowTTL, now, PerKnock(cfg)))
    case KTimer => Some(Knocks.Expire(k.ip, k.client, now))
    case _ => None
  }

  function KnockFirewall(cfg: Config, sh: Shared, k: Knocker, ch: Choice): map<string, int> {
    if k.pc.KAllow? && ch.ok then sh.fw[k.ip := sh.clock + cfg.allowTTL]
    else if k.pc.KRevoke? && ch.ok then sh.fw - {k.ip}
    else sh.fw
  }

  function KnockContinue(k: Knocker, ch: Choice): Knocker {
    match k.pc
    case KBan => k.(pc := if ch.ban == Bans.Flag(true) then KDone else KNonce)
    case KNonce => k.(pc := if k.nonce != "" && ch.fails then KDone else KAllow)
    case KAllow => k.(pc := if ch.ok then KAdd else KDone)
    case KAdd => k.(pc := KTimer)
    case KTimer => k.(pc := if ch.knock == Knocks.Flag(true) then KRevoke else KDone)
    case KRevoke => k.(pc := KDone)
    case KDone => k
  }

  function KnockStoreEvents(id: nat, op: Knocks.Op, reply: Knocks.Reply): seq<Event> {
    match op
    case Add(ip, client, ttl, now, count) => [Granted(id, ip, client, now, ttl, count)]
    case Expire(ip, client, now) => [Expired(id, ip, client, now, reply == Knocks.Flag(true))]
    case _ => []
  }

  function KnockEvents(cfg: Config, sh: Shared, id: nat, k: Knocker, ch: Choice): (more: seq<Event>)
    ensures |more| <= 1
  {
    var call, op := KnockBanCall(k, sh.clock), KnockStoreCall(cfg, k, ch.now);
    if call.Some? then BanEvents(ByKnock(id), call.value, ch.ban)
    else if op.Some? then KnockStoreEvents(id, op.value, ch.knock)
    else if k.pc.KNonce? && k.nonce != "" then [NonceAsked(id, k.client, k.nonce, !ch.fails)]
    else if k.pc.KAllow? && ch.ok then [Opened(id, k.ip, sh.clock)]
    else if k.pc.KRevoke? then [Revoked(OfKnock(id), k.ip, ch.ok)]
    else []
  }

  ghost predicate KnockStep(cfg: Config, sh: Shared, k: Knocker, ch: Choice, sh': Shared) {
    && !k.pc.KDone?
    && k.since <= ch.now <= sh.clock
    && (k.pc.KTimer? ==> k.since + cfg.allowTTL <= ch.now)
    && BanPart(cfg, sh.bans, KnockBanCall(k, sh.clock), sh'.bans, ch.ban)
    && StorePart(sh.knocks, KnockStoreCall(cfg, k, ch.now), sh'.knocks, ch.knock)
    && sh' == sh.(bans := sh'.bans, knocks := sh'.knocks, fw := KnockFirewall(cfg, sh, k, ch))
  }

  // ---------------------------------------------------------------------------
  // Packets
  // ---------------------------------------------------------------------------

  /**
   * allowKnockPacket asks the ban tracker and then, with the same time, the rate limiter,
   * and returns what that said.
   */
  datatype PacketPc = PBan | PRate | PReturn(ok: bool) | PDone

  datatype Arrival = Arrival(pc: PacketPc, ip: string, now: int)

  function PacketBanCall(p: Arrival, clock: int): Option<Bans.Call> {
    if p.pc.PBan? then Some(Bans.IsBanned(IPKey(p.ip), clock)) else None
  }

  function PacketContinue(p: Arrival, clock: int, ch: Choice): Arrival {
    match p.pc
    case PBan => Arrival(if ch.ban == Bans.Flag(true) then PDone else PRate, p.ip, clock)
    case PRate => p.(pc := PReturn(ch.ok))
    case _ => p.(pc := PDone)
  }

  function PacketEvents(sh: Shared, id: nat, p: Arrival, ch: Choice): (more: seq<Event>)
    ensures |more| <= 1
  {
    var call := PacketBanCall(p, sh.clock);
    if call.Some? then BanEvents(ByPacket(id), call.value, ch.ban)
    else if p.pc.PRate? then [Rated(id, p.ip, p.now, ch.ok, ch.evicted)]
    else if p.pc == PReturn(true) then [Admitted(id, p.ip, p.now)]
    else []
  }

  ghost predicate RatePart(cfg: Config, s: Rates.Limiter, p: Arrival, s': Rates.Limiter, ch: Choice) {
    if p.pc.PRate? then Rates.Step(cfg.rate, s, p.ip, p.now, s', ch.ok, ch.evicted) else s' == s
  }

  ghost predicate PacketStep(cfg: Config, sh: Shared, p: Arrival, ch: Choice, sh': Shared) {
    && !p.pc.PDone?
    && BanPart(cfg, sh.bans, PacketBanCall(p, sh.clock), sh'.bans, ch.ban)
    && RatePart(cfg, sh.rate, p, sh'.rate, ch)
    && sh' == sh.(bans := sh'.bans, rate := sh'.rate)
  }

  // ---------------------------------------------------------------------------
  // The accept loop and the workers
  // ---------------------------------------------------------------------------

  datatype Loop = Selecting | Accepting | Holding(conn: nat) | Returned

  datatype Worker = Idle | Busy(conn: nat) | Exited

  /** The pending channel is closed exactly when the loop has returned. */
  datatype Pipe = Pipe(loop: Loop, queue: seq<nat>, workers: map<nat, Worker>, cancelled: bool, knockErr: bool)

  datatype Server = Server(
    sh: Shared, conns: map<nat, Handler>, knockers: map<nat, Knocker>, packets: map<nat, Arrival>,
    pipe: Pipe, log: seq<Event>)

  datatype Action =
    | Tick(to: int) | Cancel | KnockListenerEnds
    | Select | Accept(conn: nat, addr: Option<string>) | AcceptFails | Enqueue | GiveUp | TurnAway
    | Take(worker: nat) | Finish(worker: nat) | Exit(worker: nat)
    | Handle(conn: nat, ch: Choice)
    | PacketArrives(id: nat, ip: string)
    | Packet(id: nat, ch: Choice)
    | KnockArrives(id: nat, ip: string, client: string, nonce: string)
    | Knock(id: nat, ch: Choice)

  function Arrived(addr: Option<string>, clock: int): Handler {
    Handler(AtLoop, addr, "", "", false, false, None, clock)
  }

  /** handleConn starts; an address that does not parse is only closed. */
  function Started(h: Handler, clock: int): Handler {
    match h.addr
    case None => h.(pc := Close, since := clock)
    case Some(ip) => h.(pc := BanCheck, ip := ip, since := clock)
  }

  ghost predicate PipeStep(cfg: Config, s: Server, a: Action, s': Server) {
    var p := s.pipe;
    match a
    case Select =>
      p.loop.Selecting? && s' == s.(pipe := if p.knockErr then p.(loop := Returned, knockErr := false)
                                            else p.(loop := Accepting))
    case Accept(c, addr) =>
      p.loop.Accepting? && c !in s.conns
      && s' == s.(pipe := p.(loop := Holding(c)), conns := s.conns[c := Arrived(addr, s.sh.clock)])
    case AcceptFails =>
      p.loop.Accepting?
      && s' == s.(pipe := if p.cancelled then p.(loop := Returned)
                          else if p.knockErr then p.(loop := Returned, knockErr := false)
                          else p.(loop := Selecting))
    case Enqueue =>
      p.loop.Holding? && p.loop.conn in s.conns && |p.queue| < cfg.maxPending
      && s' == s.(pipe := p.(loop := Selecting, queue := p.queue + [p.loop.conn]),
                  conns := s.conns[p.loop.conn := s.conns[p.loop.conn].(pc := Queued)])
    case GiveUp =>
      p.loop.Holding? && p.loop.conn in s.conns && p.cancelled
      && s' == s.(pipe := p.(loop := Returned),
                  conns := s.conns[p.loop.conn := s.conns[p.loop.conn].(pc := Closed)])
    case TurnAway =>
      p.loop.Holding? && p.loop.conn in s.conns && |p.queue| >= cfg.maxPending && !p.cancelled
      && s' == s.(pipe := p.(loop := Selecting),
                  conns := s.conns[p.loop.conn := s.conns[p.loop.conn].(pc := Closed)])
    case Take(w) =>
      w in p.workers && p.workers[w] == Idle && p.queue != [] && p.queue[0] in s.conns
      && var c := p.queue[0];
         s' == s.(pipe := p.(queue := p.queue[1..], workers := p.workers[w := Busy(c)]),
                  conns := s.conns[c := Started(s.conns[c], s.sh.clock)], log := s.log + [Begun(OfConn(c))])
    case Finish(w) =>
      w in p.workers && p.workers[w].Busy? && p.workers[w].conn in s.conns
      && var c := p.workers[w].conn;
         s.conns[c].pc.Close?
         && s' == s.(pipe := p.(workers := p.workers[w := Idle]), conns := s.conns[c := s.conns[c].(pc := Closed)])
    case Exit(w) =>
      w in p.workers && p.workers[w] == Idle && p.queue == [] && p.loop.Returned?
      && s' == s.(pipe := p.(workers := p.workers[w := Exited]))
    case Cancel => s' == s.(pipe := p.(cancelled := true))
    case KnockListenerEnds => s' == s.(pipe := p.(knockErr := true))
    case _ => false
  }

  function After(cfg: Config, sh: Shared, h: Handler, ch: Choice): Handler {
    Continue(cfg, sh, h, ch).(since := sh.clock)
  }

  ghost predicate Step(cfg: Config, s: Server, a: Action, s': Server) {
    match a
    case Tick(to) => s.sh.clock <= to && s' == s.(sh := s.sh.(clock := to))
    case Handle(c, ch) =>
      c in s.conns && Running(s.conns[c].pc)
      && HandlerStep(cfg, s.sh, s.conns[c], ch, s'.sh)
      && s' == s.(sh := s'.sh, conns := s.conns[c := After(cfg, s.sh, s.conns[c], ch)],
                  log := s.log + HandlerEvents(cfg, s.sh, c, s.conns[c], ch))
    case PacketArrives(id, ip) =>
      id !in s.packets
      && s' == s.(packets := s.packets[id := Arrival(PBan, ip, s.sh.clock)], log := s.log + [Begun(OfPacket(id))])
    case Packet(id, ch) =>
      id in s.packets && PacketStep(cfg, s.sh, s.packets[id], ch, s'.sh)
      && s' == s.(sh := s'.sh, packets := s.packets[id := PacketContinue(s.packets[id], s.sh.clock, ch)],
                  log := s.log + PacketEvents(s.sh, id, s.packets[id], ch))
    case KnockArrives(id, ip, client, nonce) =>
      id !in s.knockers
      && s' == s.(knockers := s.knockers[id := Knocker(KBan, ip, client, nonce, s.sh.clock)],
                  log := s.log + [Begun(OfKnock(id))])
    case Knock(id, ch) =>
      id in s.knockers && KnockStep(cfg, s.sh, s.knockers[id], ch, s'.sh)
      && s' == s.(sh := s'.sh, knockers := s.knockers[id := KnockContinue(s.knockers[id], ch).(since := s.sh.clock)],
                  log := s.log + KnockEvents(cfg, s.sh, id, s.knockers[id], ch))
    case _ => PipeStep(cfg, s, a, s')
  }

  /** Outside its handler, at the start of it, or at its end. */
  predicate AtEdge(pc: Pc) {
    !InHandler(pc) || pc.BanCheck? || pc.Close?
  }

  /** The connection a step of the accept loop or of a worker is about. */
  function Subject(s: Server, a: Action): nat
    requires a.Take? ==> s.pipe.queue != []
    requires a.Finish? ==> a.worker in s.pipe.workers && s.pipe.workers[a.worker].Busy?
  {
    if a.Accept? then a.conn else if a.Take? then s.pipe.queue[0]
    else if a.Finish? then s.pipe.workers[a.worker].conn
    else if s.pipe.loop.Holding? then s.pipe.loop.conn else 0
  }

  /** Such a step moves at most that connection, and leaves all but the pipeline as it is. */
  lemma PipeMoves(cfg: Config, s: Server, a: Action, s': Server)
    requires PipeStep(cfg, s, a, s')
    ensures a.Take? ==> s.pipe.queue != []
    ensures a.Finish? ==> a.worker in s.pipe.workers && s.pipe.workers[a.worker].Busy?
    ensures s'.sh == s.sh && s'.knockers == s.knockers && s'.packets == s.packets
    ensures s'.log == s.log + if a.Take? then [Begun(OfConn(s.pipe.queue[0]))] else []
    ensures s'.conns == s.conns
         || (Subject(s, a) in s'.conns && s'.conns == s.conns[Subject(s, a) := s'.conns[Subject(s, a)]]
             && AtEdge(s'.conns[Subject(s, a)].pc) && (InHandler(s'.conns[Subject(s, a)].pc) ==> a.Take?))
  {
    assert s.log + [] == s.log;
  }

  ghost predicate Init(cfg: Config, s: Server) {
    && s.sh.clock > 0 && s.sh.knocks == map[] && s.sh.fw == map[]
    && s.sh.bans == Bans.EMPTY && s.sh.rate == Rates.EMPTY && s.sh.slots == NONE
    && s.conns == map[] && s.knockers == map[] && s.packets == map[] && s.log == []
    && s.pipe.loop == Selecting && s.pipe.queue == [] && !s.pipe.cancelled && !s.pipe.knockErr
    && |s.pipe.workers| == cfg.maxWorkers && (forall w <- s.pipe.workers :: s.pipe.workers[w] == Idle)
  }

  /** Limits are not negative, sizes and the time to live are positive. */
  ghost predicate Sensible(cfg: Config) {
    cfg.allowTTL > 0 && cfg.maxPending > 0 && cfg.maxWorkers > 0
    && cfg.limits.maxGlobal >= 0 && cfg.limits.maxPerIP >= 0 && cfg.limits.maxPerClient >= 0
  }

  datatype Run = Run(states: seq<Server>, actions: seq<Action>)

  ghost predicate StepAt(cfg: Config, r: Run, i: nat)
    requires i < |r.actions| && |r.states| == |r.actions| + 1
  {
    Step(cfg, r.states[i], r.actions[i], r.states[i + 1])
  }

  ghost predicate Valid(cfg: Config, r: Run) {
    && Sensible(cfg)
    && |r.states| == |r.actions| + 1
    && Init(cfg, r.states[0])
    && forall i: nat | i < |r.actions| :: StepAt(cfg, r, i)
  }
}
