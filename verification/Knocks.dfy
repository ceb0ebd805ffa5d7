/**
 * The store of accepted knocks (internal/app/state.go): per source IP and client, how
 * many connections are still owed and until when.
 */
module Knocks {
  import opened Base

  datatype Entry = Entry(count: int, expiresAt: int)

  type Clients = map<string, Entry>

  type Store = map<string, Clients>

  datatype Op =
    | Add(ip: string, client: string, ttl: int, now: int, count: int)
    | Has(ip: string, client: string, now: int)
    | RemoveOne(ip: string, client: string, now: int)
    | Expire(ip: string, client: string, now: int)
    | RemoveIP(ip: string)
    | ConsumeAny(ip: string, now: int)

  datatype Reply =
    | Done
    | Flag(yes: bool)
    | Removed(n: nat)
    | Consumed(client: string, ok: bool, shouldRevoke: bool)

  // ---------------------------------------------------------------------------
  // What one call does
  // ---------------------------------------------------------------------------

  function ClientsOf(s: Store, ip: string): Clients {
    if ip in s then s[ip] else map[]
  }

  function PruneClients(c: Clients, now: int): Clients {
    map k | k in c && c[k].expiresAt > now :: c[k]
  }

  /** Puts the clients of an IP back, dropping the IP when none is left. */
  function PutOrDrop(s: Store, ip: string, c: Clients): Store {
    if c == map[] then s - {ip} else s[ip := c]
  }

  /** One credit less for a client, and the client gone with its last credit. */
  function TakeOne(c: Clients, client: string): Clients
    requires client in c
  {
    if c[client].count - 1 <= 0 then c - {client}
    else c[client := Entry(c[client].count - 1, c[client].expiresAt)]
  }

  function Credit(count: int): int {
    if count <= 0 then 1 else count
  }

  function Added(s: Store, ip: string, client: string, expiresAt: int, count: int): Store {
    var c := ClientsOf(s, ip);
    var had := if client in c then c[client].count else 0;
    s[ip := c[client := Entry(had + Credit(count), expiresAt)]]
  }

  /** Drops the client's entry if it has run out. */
  function Expired(s: Store, ip: string, client: string, now: int): (Store, bool) {
    var c := ClientsOf(s, ip);
    if client in c && c[client].expiresAt <= now then (PutOrDrop(s, ip, c - {client}), true)
    else (s, false)
  }

  function RemovedOne(s: Store, ip: string, client: string, now: int): (Store, bool) {
    if ip !in s then (s, false)
    else
      var c := PruneClients(s[ip], now);
      if client !in c then (s[ip := c], false)
      else
        var d := TakeOne(c, client);
        if client in d then (s[ip := d], false) else (PutOrDrop(s, ip, d), true)
  }

  /** Which of several clients pays is left open. */
  ghost predicate ConsumedAny(s: Store, ip: string, now: int, s': Store, client: string, ok: bool, shouldRevoke: bool) {
    var c := PruneClients(ClientsOf(s, ip), now);
    if c == map[] then
      s' == s - {ip} && client == "" && !ok && shouldRevoke
    else
      && ok && client in c
      && s' == PutOrDrop(s, ip, TakeOne(c, client))
      && shouldRevoke == (TakeOne(c, client) == map[])
  }

  ghost predicate Step(s: Store, op: Op, s': Store, reply: Reply) {
    match op
    case Add(ip, client, ttl, now, count) => s' == Added(s, ip, client, now + ttl, count) && reply == Done
    case Has(ip, client, now) =>
      s' == Expired(s, ip, client, now).0
      && reply == Flag(client in ClientsOf(s, ip) && ClientsOf(s, ip)[client].expiresAt > now)
    case Expire(ip, client, now) =>
      s' == Expired(s, ip, client, now).0 && reply == Flag(Expired(s, ip, client, now).1)
    case RemoveOne(ip, client, now) =>
      s' == RemovedOne(s, ip, client, now).0 && reply == Flag(RemovedOne(s, ip, client, now).1)
    case RemoveIP(ip) => s' == s - {ip} && reply == Removed(|ClientsOf(s, ip)|)
    case ConsumeAny(ip, now) =>
      reply.Consumed? && ConsumedAny(s, ip, now, s', reply.client, reply.ok, reply.shouldRevoke)
  }

  /** What a call makes of the clients of the one IP it is about. */
  function ClientsAfter(c: Clients, op: Op, payer: string): Clients {
    match op
    case Add(_, client, ttl, now, count) =>
      c[client := Entry((if client in c then c[client].count else 0) + Credit(count), now + ttl)]
    case Has(_, client, now) => if client in c && c[client].expiresAt <= now then c - {client} else c
    case Expire(_, client, now) => if client in c && c[client].expiresAt <= now then c - {client} else c
    case RemoveOne(_, client, now) =>
      var p := PruneClients(c, now);
      if client in p then TakeOne(p, client) else p
    case ConsumeAny(_, now) =>
      var p := PruneClients(c, now);
      if payer in p then TakeOne(p, payer) else p
    case RemoveIP(_) => map[]
  }

  function Payer(reply: Reply): string {
    if reply.Consumed? then reply.client else ""
  }

  lemma DroppedByIP(s: Store, ip: string, client: string, now: int)
    ensures var c, s' := ClientsOf(s, ip), Expired(s, ip, client, now).0;
            && ClientsOf(s', ip) == (if client in c && c[client].expiresAt <= now then c - {client} else c)
            && forall other | other != ip :: ClientsOf(s', other) == ClientsOf(s, other)
  {
    hide PutOrDrop;
    PutOrDropByIP(s, ip, ClientsOf(s, ip) - {client});
  }

  lemma SetByIP(s: Store, ip: string, c: Clients)
    ensures ClientsOf(s[ip := c], ip) == c
    ensures forall other | other != ip :: ClientsOf(s[ip := c], other) == ClientsOf(s, other)
    ensures ClientsOf(s - {ip}, ip) == map[]
    ensures forall other | other != ip :: ClientsOf(s - {ip}, other) == ClientsOf(s, other)
  {
  }

  lemma RemovedByIP(s: Store, ip: string, client: string, now: int)
    ensures var p, s' := PruneClients(ClientsOf(s, ip), now), RemovedOne(s, ip, client, now).0;
            && ClientsOf(s', ip) == (if client in p then TakeOne(p, client) else p)
            && forall other | other != ip :: ClientsOf(s', other) == ClientsOf(s, other)
  {
    hide TakeOne, PruneClients, PutOrDrop;
    var p := PruneClients(ClientsOf(s, ip), now);
    PruneNothing(now);
    SetByIP(s, ip, p);
    if client in p {
      PutOrDropByIP(s, ip, TakeOne(p, client));
      SetByIP(s, ip, TakeOne(p, client));
    }
  }

  lemma ConsumedByIP(s: Store, ip: string, now: int, s': Store, client: string, ok: bool, shouldRevoke: bool)
    requires ConsumedAny(s, ip, now, s', client, ok, shouldRevoke)
    ensures var p := PruneClients(ClientsOf(s, ip), now);
            && ClientsOf(s', ip) == (if client in p then TakeOne(p, client) else p)
            && (ok <==> client in p)
            && forall other | other != ip :: ClientsOf(s', other) == ClientsOf(s, other)
  {
    hide TakeOne, PruneClients, PutOrDrop;
    var p := PruneClients(ClientsOf(s, ip), now);
    SetByIP(s, ip, p);
    if client in p {
      PutOrDropByIP(s, ip, TakeOne(p, client));
    }
  }

  /** A call touches the clients of one IP only, and leaves there what `ClientsAfter` says. */
  ghost predicate ByIP(s: Store, op: Op, s': Store, payer: string) {
    && ClientsOf(s', op.ip) == ClientsAfter(ClientsOf(s, op.ip), op, payer)
    && forall ip | ip != op.ip :: ClientsOf(s', ip) == ClientsOf(s, ip)
  }

  lemma SetStep(s: Store, op: Op, s': Store, reply: Reply)
    requires (op.Add? || op.RemoveIP?) && Step(s, op, s', reply)
    ensures ByIP(s, op, s', "")
  {
    hide ClientsOf, Credit;
    if op.Add? {
      SetByIP(s, op.ip, ClientsAfter(ClientsOf(s, op.ip), op, ""));
    } else {
      SetByIP(s, op.ip, map[]);
    }
  }

  lemma DropStep(s: Store, op: Op, s': Store, reply: Reply)
    requires (op.Has? || op.Expire?) && Step(s, op, s', reply)
    ensures ByIP(s, op, s', "")
  {
    hide ClientsOf, Expired;
    DroppedByIP(s, op.ip, op.client, op.now);
  }

  lemma TakeStep(s: Store, op: Op, s': Store, reply: Reply)
    requires (op.RemoveOne? || op.ConsumeAny?) && Step(s, op, s', reply)
    ensures ByIP(s, op, s', Payer(reply))
    ensures op.ConsumeAny? ==>
              reply.Consumed? && (reply.ok <==> reply.client in PruneClients(ClientsOf(s, op.ip), op.now))
  {
    hide ClientsOf, RemovedOne, ConsumedAny, TakeOne, PruneClients;
    if op.RemoveOne? {
      RemovedByIP(s, op.ip, op.client, op.now);
    } else {
      ConsumedByIP(s, op.ip, op.now, s', reply.client, reply.ok, reply.shouldRevoke);
    }
  }

  lemma StepByIP(s: Store, op: Op, s': Store, reply: Reply)
    requires Step(s, op, s', reply)
    ensures ClientsOf(s', op.ip) == ClientsAfter(ClientsOf(s, op.ip), op, Payer(reply))
    ensures forall ip | ip != op.ip :: ClientsOf(s', ip) == ClientsOf(s, ip)
    ensures op.ConsumeAny? ==>
              reply.Consumed? && (reply.ok <==> reply.client in PruneClients(ClientsOf(s, op.ip), op.now))
  {
    hide Step, ClientsOf, ClientsAfter, PruneClients;
    if op.RemoveOne? || op.ConsumeAny? {
      TakeStep(s, op, s', reply);
    } else {
      if op.Add? || op.RemoveIP? {
        SetStep(s, op, s', reply);
      } else {
        DropStep(s, op, s', reply);
      }
      AnyPayer(ClientsOf(s, op.ip), op, Payer(reply));
    }
  }

  lemma AnyPayer(c: Clients, op: Op, payer: string)
    requires !op.ConsumeAny?
    ensures ClientsAfter(c, op, payer) == ClientsAfter(c, op, "")
  {
  }

  lemma PruneNothing(now: int)
    ensures PruneClients(map[], now) == map[]
  {
  }

  lemma PutOrDropByIP(s: Store, ip: string, c: Clients)
    ensures ClientsOf(PutOrDrop(s, ip, c), ip) == c
    ensures forall other | other != ip :: ClientsOf(PutOrDrop(s, ip, c), other) == ClientsOf(s, other)
    ensures c != map[] ==> PutOrDrop(s, ip, c) == s[ip := c]
  {
  }

  // ---------------------------------------------------------------------------
  // The live view
  // ---------------------------------------------------------------------------

  /** What is still owed to a client at time `t`. */
  function Live(s: Store, ip: string, client: string, t: int): Option<Entry> {
    var c := ClientsOf(s, ip);
    if client in c && c[client].expiresAt > t then Some(c[client]) else None
  }

  /** Looking a knock up tells whether it is live; neither that nor an expiry timer touches a live knock. */
  lemma HousekeepingKeepsLive(s: Store, op: Op, s': Store, reply: Reply, ip: string, client: string, t: int)
    requires (op.Has? || op.Expire?) && Step(s, op, s', reply) && op.now <= t
    ensures Live(s', ip, client, t) == Live(s, ip, client, t)
    ensures op.Has? ==> reply == Flag(Live(s, op.ip, op.client, op.now).Some?)
    ensures op.Expire? ==> reply == Flag(op.client in ClientsOf(s, op.ip) && Live(s, op.ip, op.client, op.now) == None)
    ensures op.Expire? && Live(s, op.ip, op.client, op.now).Some? ==> s' == s
  {
  }

  /**
   * A knock adds at least one connection to what its client had, whether that had run out or
   * not, renews its end, and touches nobody else.
   */
  lemma AddAddsCredits(s: Store, op: Op, s': Store, reply: Reply, ip: string, client: string, t: int)
    requires op.Add? && Step(s, op, s', reply) && t < op.now + op.ttl
    ensures Live(s', ip, client, t) ==
              if ip == op.ip && client == op.client then
                var had := if ip in s && client in s[ip] then s[ip][client].count else 0;
                Some(Entry(had + (if op.count >= 1 then op.count else 1), op.now + op.ttl))
              else Live(s, ip, client, t)
  {
  }

  lemma PruneKeepsLive(s: Store, pruned: string, now: int, ip: string, client: string, t: int)
    requires now <= t
    ensures Live(s[pruned := PruneClients(ClientsOf(s, pruned), now)], ip, client, t) == Live(s, ip, client, t)
  {
  }

  /** A refreshed knock outlives the timer of the knock before it. */
  lemma StaleTimer(s: Store, ip: string, client: string, ttl: int, k: int, count: int, s': Store, fired: int,
                   s'': Store, reply: Reply)
    requires Step(s, Add(ip, client, ttl, k, count), s', Done)
    requires Step(s', Expire(ip, client, fired), s'', reply) && fired < k + ttl
    ensures reply == Flag(false) && Live(s'', ip, client, fired).Some?
    ensures Live(s'', ip, client, fired).value.expiresAt == k + ttl
  {
    HousekeepingKeepsLive(s', Expire(ip, client, fired), s'', reply, ip, client, fired);
  }

  function Spent(e: Entry): Option<Entry> {
    if e.count <= 1 then None else Some(Entry(e.count - 1, e.expiresAt))
  }

  lemma TakeOneLive(c: Clients, client: string)
    requires client in c
    ensures TakeOne(c, client).Keys == c.Keys - (if c[client].count <= 1 then {client} else {})
    ensures forall k <- TakeOne(c, client) :: k != client ==> TakeOne(c, client)[k] == c[k]
    ensures c[client].count > 1 ==> TakeOne(c, client)[client] == Entry(c[client].count - 1, c[client].expiresAt)
  {
  }

  /**
   * Removing one takes one live credit of that client and nothing else from the live
   * view, and says yes exactly when that was the last one.
   */
  lemma RemoveOneTakesOne(s: Store, op: Op, s': Store, reply: Reply, ip: string, client: string)
    requires op.RemoveOne? && Step(s, op, s', reply)
    ensures Live(s', ip, client, op.now) ==
              (if ip == op.ip && client == op.client && Live(s, ip, client, op.now).Some?
               then Spent(Live(s, ip, client, op.now).value) else Live(s, ip, client, op.now))
    ensures reply == Flag(Live(s, op.ip, op.client, op.now).Some? && Live(s', op.ip, op.client, op.now) == None)
  {
    if op.ip in s && op.client in PruneClients(s[op.ip], op.now) {
      TakeOneLive(PruneClients(s[op.ip], op.now), op.client);
      hide TakeOne;
    }
  }

  ghost predicate AnyLive(s: Store, ip: string, t: int) {
    exists client :: Live(s, ip, client, t).Some?
  }

  lemma AnyLiveIs(s: Store, ip: string, t: int)
    ensures AnyLive(s, ip, t) <==> PruneClients(ClientsOf(s, ip), t) != map[]
  {
    var c := PruneClients(ClientsOf(s, ip), t);
    assert forall k :: k in c <==> Live(s, ip, k, t).Some?;
    if c != map[] {
      var any :| any in c;
    }
  }

  /** Taking a credit from live entries leaves live entries. */
  lemma TakenIsLive(c: Clients, now: int, payer: string)
    requires payer in PruneClients(c, now)
    ensures var p := TakeOne(PruneClients(c, now), payer); PruneClients(p, now) == p
  {
  }

  /**
   * Consuming succeeds exactly when some client of the IP is live, takes one credit
   * of one live client, and asks for the firewall to be closed exactly when no live
   * client of that IP is left, whichever client was picked.
   */
  lemma ConsumeAnyTakesOne(s: Store, op: Op, s': Store, reply: Reply, ip: string, client: string)
    requires op.ConsumeAny? && Step(s, op, s', reply)
    ensures reply.ok == AnyLive(s, op.ip, op.now)
    ensures reply.ok ==> Live(s, op.ip, reply.client, op.now).Some?
    ensures Live(s', ip, client, op.now) ==
              (if reply.ok && ip == op.ip && client == reply.client
               then Spent(Live(s, ip, client, op.now).value) else Live(s, ip, client, op.now))
    ensures reply.shouldRevoke == !AnyLive(s', op.ip, op.now)
  {
    hide AnyLive, PutOrDrop;
    var c := PruneClients(ClientsOf(s, op.ip), op.now);
    AnyLiveIs(s, op.ip, op.now);
    AnyLiveIs(s', op.ip, op.now);
    ConsumedByIP(s, op.ip, op.now, s', reply.client, reply.ok, reply.shouldRevoke);
    PruneNothing(op.now);
    if c != map[] {
      TakeOneLive(c, reply.client);
      TakenIsLive(ClientsOf(s, op.ip), op.now, reply.client);
      hide TakeOne;
    }
  }
}
