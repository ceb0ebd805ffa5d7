/** Connection slots (internal/limits/connections.go). */
module ConnectionSlots {
  import opened Base

  datatype Limits = Limits(maxGlobal: int, maxPerIP: int, maxPerClient: int)

  datatype Slots = Slots(global: int, byIP: map<string, int>, byClient: map<string, int>)

  const NONE := Slots(0, map[], map[])

  function Get(m: map<string, int>, key: string): int {
    if key in m then m[key] else 0
  }

  /** One less, and no entry at all instead of zero. */
  function Minus(m: map<string, int>, key: string): map<string, int> {
    if Get(m, key) <= 1 then m - {key} else m[key := m[key] - 1]
  }

  predicate IPFull(l: Limits, s: Slots, ip: string) {
    (l.maxGlobal > 0 && s.global >= l.maxGlobal) || (l.maxPerIP > 0 && Get(s.byIP, ip) >= l.maxPerIP)
  }

  /** The smaller of the two limits that are set. */
  function ClientLimit(l: Limits, clientLimit: int): int {
    if clientLimit > 0 && (l.maxPerClient == 0 || clientLimit < l.maxPerClient) then clientLimit else l.maxPerClient
  }

  predicate ClientFull(l: Limits, s: Slots, client: string, clientLimit: int) {
    ClientLimit(l, clientLimit) > 0 && Get(s.byClient, client) >= ClientLimit(l, clientLimit)
  }

  /** A limit that is set, that is above zero, and reached. */
  predicate Reached(limit: int, held: int) {
    limit > 0 && held >= limit
  }

  /**
   * An IP slot is refused exactly if one of the two limits on IP slots is reached. A client
   * slot is refused exactly if one of the two limits on that client is reached; a negative
   * limit for all clients switches both off.
   */
  lemma RefusedExactly(l: Limits, s: Slots, ip: string, client: string, clientLimit: int)
    ensures IPFull(l, s, ip) <==> Reached(l.maxGlobal, s.global) || Reached(l.maxPerIP, Get(s.byIP, ip))
    ensures ClientFull(l, s, client, clientLimit) <==>
              || Reached(l.maxPerClient, Get(s.byClient, client))
              || (l.maxPerClient >= 0 && Reached(clientLimit, Get(s.byClient, client)))
  {
  }

  function IPTaken(s: Slots, ip: string): Slots {
    s.(global := s.global + 1, byIP := s.byIP[ip := Get(s.byIP, ip) + 1])
  }

  function IPFreed(s: Slots, ip: string): Slots {
    s.(global := if s.global > 0 then s.global - 1 else s.global, byIP := Minus(s.byIP, ip))
  }

  function ClientTaken(s: Slots, client: string): Slots {
    s.(byClient := s.byClient[client := Get(s.byClient, client) + 1])
  }

  function ClientFreed(s: Slots, client: string): Slots {
    s.(byClient := Minus(s.byClient, client))
  }

  /** The counters for a bag of held IP slots and a bag of held client slots. */
  ghost predicate Counts(s: Slots, ips: multiset<string>, clients: multiset<string>) {
    && s.global == |ips|
    && (forall k :: Get(s.byIP, k) == ips[k]) && (forall k :: k in s.byIP ==> k in ips)
    && (forall k :: Get(s.byClient, k) == clients[k]) && (forall k :: k in s.byClient ==> k in clients)
  }

  lemma TakeCounts(s: Slots, ips: multiset<string>, clients: multiset<string>, key: string)
    requires Counts(s, ips, clients)
    ensures Counts(IPTaken(s, key), ips + multiset{key}, clients)
    ensures Counts(ClientTaken(s, key), ips, clients + multiset{key})
  {
  }

  lemma FreeCounts(s: Slots, ips: multiset<string>, clients: multiset<string>, key: string)
    requires Counts(s, ips, clients)
    ensures key in ips ==> Counts(IPFreed(s, key), ips - multiset{key}, clients)
    ensures key in clients ==> Counts(ClientFreed(s, key), ips, clients - multiset{key})
  {
  }

  /** The global counter is the sum over the IPs. */
  lemma {:induction false} GlobalIsSum(m: map<string, int>, bag: multiset<string>)
    requires forall k :: Get(m, k) == bag[k]
    requires forall k :: k in m ==> k in bag
    ensures Total(m) == |bag|
    decreases |m|
  {
    if m == map[] {
      assert bag == multiset{} by {
        forall k
          ensures bag[k] == 0
        {
          assert Get(m, k) == 0;
        }
      }
    } else {
      var k :| k in m;
      TotalWithout(m, k);
      RemoveSize(m, k);
      var rest := bag[k := 0];
      assert forall j :: Get(m - {k}, j) == (if j == k then 0 else Get(m, j));
      GlobalIsSum(m - {k}, rest);
      assert bag == rest + multiset{}[k := bag[k]];
    }
  }

  class Connections {
    const limits: Limits
    var global: int
    var byIP: map<string, int>
    var byClient: map<string, int>

    ghost function View(): Slots
      reads this
    {
      Slots(global, byIP, byClient)
    }

    constructor (maxGlobal: int, maxPerIP: int, maxPerClient: int)
      ensures View() == NONE && limits == Limits(maxGlobal, maxPerIP, maxPerClient)
    {
      limits := Limits(maxGlobal, maxPerIP, maxPerClient);
      global := 0;
      byIP := map[];
      byClient := map[];
    }

    method AcquireIP(ip: string) returns (ok: bool)
      modifies this
      ensures ok == !IPFull(limits, old(View()), ip)
      ensures ok <==> !Reached(limits.maxGlobal, old(global)) && !Reached(limits.maxPerIP, Get(old(byIP), ip))
      ensures View() == if ok then IPTaken(old(View()), ip) else old(View())
    {
      if limits.maxGlobal > 0 && global >= limits.maxGlobal {
        return false;
      }
      if limits.maxPerIP > 0 && Get(byIP, ip) >= limits.maxPerIP {
        return false;
      }
      global := global + 1;
      byIP := byIP[ip := Get(byIP, ip) + 1];
      return true;
    }

    method ReleaseIP(ip: string)
      modifies this
      ensures View() == IPFreed(old(View()), ip)
    {
      if global > 0 {
        global := global - 1;
      }
      if Get(byIP, ip) <= 1 {
        byIP := byIP - {ip};
      } else {
        byIP := byIP[ip := byIP[ip] - 1];
      }
    }

    method AcquireClient(clientID: string, clientLimit: int) returns (ok: bool)
      modifies this
      ensures ok == !ClientFull(limits, old(View()), clientID, clientLimit)
      ensures limits.maxPerClient >= 0 ==>
                (ok <==> !Reached(limits.maxPerClient, Get(old(byClient), clientID))
                         && !Reached(clientLimit, Get(old(byClient), clientID)))
      ensures View() == if ok then ClientTaken(old(View()), clientID) else old(View())
    {
      var limit := limits.maxPerClient;
      if clientLimit > 0 && (limit == 0 || clientLimit < limit) {
        limit := clientLimit;
      }
      if limit > 0 && Get(byClient, clientID) >= limit {
        return false;
      }
      byClient := byClient[clientID := Get(byClient, clientID) + 1];
      return true;
    }

    method ReleaseClient(clientID: string)
      modifies this
      ensures View() == ClientFreed(old(View()), clientID)
    {
      if Get(byClient, clientID) <= 1 {
        byClient := byClient - {clientID};
      } else {
        byClient := byClient[clientID := byClient[clientID] - 1];
      }
    }
  }
}
