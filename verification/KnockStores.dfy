/** The knock store as an object that updates its nested map (internal/app/state.go). */
module KnockStores {
  import opened Knocks

  class KnockStore {
    var entries: Store

    constructor ()
      ensures entries == map[]
    {
      entries := map[];
    }

    method Add(ip: string, clientID: string, ttl: int, now: int, count: int)
      modifies this
      ensures Step(old(entries), Op.Add(ip, clientID, ttl, now, count), entries, Done)
    {
      var credit := count;
      if credit <= 0 {
        credit := 1;
      }
      if ip !in entries {
        entries := entries[ip := map[]];
      }
      var entry := if clientID in entries[ip] then entries[ip][clientID] else Entry(0, 0);
      entry := Entry(entry.count + credit, now + ttl);
      entries := entries[ip := entries[ip][clientID := entry]];
    }

    method Has(ip: string, clientID: string, now: int) returns (yes: bool)
      modifies this
      ensures Step(old(entries), Op.Has(ip, clientID, now), entries, Flag(yes))
    {
      if ip !in entries || clientID !in entries[ip] {
        return false;
      }
      if entries[ip][clientID].expiresAt <= now {
        DeleteClient(ip, clientID);
        return false;
      }
      return true;
    }

    method RemoveOne(ip: string, clientID: string, now: int) returns (last: bool)
      modifies this
      ensures Step(old(entries), Op.RemoveOne(ip, clientID, now), entries, Flag(last))
    {
      if ip !in entries {
        return false;
      }
      PruneIPLocked(ip, now);
      var clients := entries[ip];
      if clientID !in clients {
        return false;
      }
      var entry := clients[clientID];
      entry := entry.(count := entry.count - 1);
      if entry.count <= 0 {
        DeleteClient(ip, clientID);
        return true;
      }
      entries := entries[ip := clients[clientID := entry]];
      return false;
    }

    method Expire(ip: string, clientID: string, now: int) returns (gone: bool)
      modifies this
      ensures Step(old(entries), Op.Expire(ip, clientID, now), entries, Flag(gone))
    {
      if ip !in entries {
        return false;
      }
      if clientID !in entries[ip] || entries[ip][clientID].expiresAt > now {
        return false;
      }
      DeleteClient(ip, clientID);
      return true;
    }

    method RemoveIP(ip: string) returns (n: nat)
      modifies this
      ensures Step(old(entries), Op.RemoveIP(ip), entries, Removed(n))
    {
      n := if ip in entries then |entries[ip]| else 0;
      entries := entries - {ip};
    }

    method ConsumeAny(ip: string, now: int) returns (clientID: string, ok: bool, shouldRevoke: bool)
      modifies this
      ensures Step(old(entries), Op.ConsumeAny(ip, now), entries, Consumed(clientID, ok, shouldRevoke))
    {
      if ip !in entries {
        return "", false, true;
      }
      PruneIPLocked(ip, now);
      var clients := entries[ip];
      // The first turn of a loop over the clients, in any order, returns.
      if clients != map[] {
        var client :| client in clients;
        var entry := clients[client];
        entry := entry.(count := entry.count - 1);
        if entry.count <= 0 {
          clients := clients - {client};
        } else {
          clients := clients[client := entry];
        }
        if clients == map[] {
          entries := entries - {ip};
          return client, true, true;
        }
        entries := entries[ip := clients];
        return client, true, false;
      }
      entries := entries - {ip};
      return "", false, true;
    }

    method DeleteClient(ip: string, clientID: string)
      requires ip in entries
      modifies this
      ensures entries == PutOrDrop(old(entries), ip, old(entries)[ip] - {clientID})
    {
      entries := entries[ip := entries[ip] - {clientID}];
      if entries[ip] == map[] {
        entries := entries - {ip};
      }
    }

    method PruneIPLocked(ip: string, now: int)
      requires ip in entries
      modifies this
      ensures entries == old(entries)[ip := PruneClients(old(entries)[ip], now)]
    {
      ghost var was := entries[ip];
      var todo := entries[ip].Keys;
      while todo != {}
        invariant ip in entries && todo <= entries[ip].Keys
        invariant entries[ip] == map k | k in was && (k in todo || was[k].expiresAt > now) :: was[k]
        invariant entries == old(entries)[ip := entries[ip]]
      {
        var clientID :| clientID in todo;
        todo := todo - {clientID};
        if entries[ip][clientID].expiresAt <= now {
          entries := entries[ip := entries[ip] - {clientID}];
        }
      }
      assert entries[ip] == PruneClients(was, now);
    }
  }
}
