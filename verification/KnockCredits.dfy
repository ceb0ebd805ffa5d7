/** Whole runs of the knock store: every credit granted is owed, consumed or discarded. */
module KnockCredits {
  import opened Base
  import opened Knocks

  ghost predicate AllPositive(c: Clients) {
    forall k <- c :: c[k].count >= 1
  }

  /** Every stored count is at least one. */
  ghost predicate Positive(s: Store) {
    forall ip :: AllPositive(ClientsOf(s, ip))
  }

  function CountOf(c: Clients, client: string): int {
    if client in c then c[client].count else 0
  }

  function Outstanding(s: Store, ip: string, client: string): int {
    CountOf(ClientsOf(s, ip), client)
  }

  /** What a call grants to one client of one IP. */
  function Granted(op: Op, ip: string, client: string): int {
    if op.Add? && op.ip == ip && op.client == client then Credit(op.count) else 0
  }

  /** What a call takes from a live entry of one client of one IP to let a connection in. */
  function Taken(s: Store, op: Op, reply: Reply, ip: string, client: string): int {
    if op.RemoveOne? && op.ip == ip && op.client == client && Live(s, ip, client, op.now).Some? then 1
    else if op.ConsumeAny? && op.ip == ip && reply.Consumed? && reply.ok && reply.client == client then 1
    else 0
  }

  /** Whether a call throws away the whole entry of one client of one IP. */
  predicate Clears(s: Store, op: Op, ip: string, client: string) {
    match op
    case Add(_, _, _, _, _) => false
    case Has(i, c, now) => i == ip && c == client && Live(s, ip, client, now) == None
    case Expire(i, c, now) => i == ip && c == client && Live(s, ip, client, now) == None
    case RemoveOne(i, _, now) => i == ip && Live(s, ip, client, now) == None
    case ConsumeAny(i, now) => i == ip && Live(s, ip, client, now) == None
    case RemoveIP(i) => i == ip
  }

  function Discarded(s: Store, op: Op, ip: string, client: string): int {
    if Clears(s, op, ip, client) then Outstanding(s, ip, client) else 0
  }

  lemma TakeOneCounts(c: Clients, payer: string, client: string)
    requires payer in c && AllPositive(c)
    ensures AllPositive(TakeOne(c, payer))
    ensures CountOf(TakeOne(c, payer), client) == CountOf(c, client) - if client == payer then 1 else 0
  {
  }

  lemma ClientsBalance(s: Store, op: Op, reply: Reply, client: string)
    requires var c := ClientsOf(s, op.ip); AllPositive(c)
    requires op.ConsumeAny? ==>
               reply.Consumed? && (reply.ok <==> reply.client in PruneClients(ClientsOf(s, op.ip), op.now))
    ensures var c' := ClientsAfter(ClientsOf(s, op.ip), op, Payer(reply));
            && AllPositive(c')
            && CountOf(c', client) == CountOf(ClientsOf(s, op.ip), client) + Granted(op, op.ip, client)
                 - Taken(s, op, reply, op.ip, client) - Discarded(s, op, op.ip, client)
  {
    if op.RemoveOne? || op.ConsumeAny? {
      var p := PruneClients(ClientsOf(s, op.ip), op.now);
      var payer := if op.RemoveOne? then op.client else reply.client;
      if payer in p {
        TakeOneCounts(p, payer, client);
      }
    }
  }

  lemma StepKeepsPositive(s: Store, op: Op, s': Store, reply: Reply)
    requires Positive(s) && Step(s, op, s', reply)
    ensures Positive(s')
  {
    hide Step, ClientsAfter, Payer, AllPositive, ClientsOf;
    StepByIP(s, op, s', reply);
    ClientsBalance(s, op, reply, "");
    forall ip
      ensures AllPositive(ClientsOf(s', ip))
    {
      assert ip == op.ip || ClientsOf(s', ip) == ClientsOf(s, ip);
    }
  }

  /** One call balances for every client of every IP. */
  lemma StepBalances(s: Store, op: Op, s': Store, reply: Reply, ip: string, client: string)
    requires Positive(s) && Step(s, op, s', reply)
    ensures Outstanding(s', ip, client)
            == Outstanding(s, ip, client) + Granted(op, ip, client)
               - Taken(s, op, reply, ip, client) - Discarded(s, op, ip, client)
    ensures 0 <= Outstanding(s', ip, client) && 0 <= Discarded(s, op, ip, client)
  {
    hide Step, ClientsAfter, Payer, ClientsOf;
    StepByIP(s, op, s', reply);
    StepKeepsPositive(s, op, s', reply);
    assert AllPositive(ClientsOf(s, ip)) && AllPositive(ClientsOf(s', ip));
    if ip == op.ip {
      ClientsBalance(s, op, reply, client);
    }
  }

  // ---------------------------------------------------------------------------
  // Runs
  // ---------------------------------------------------------------------------

  datatype Run = Run(states: seq<Store>, ops: seq<Op>, replies: seq<Reply>)

  ghost predicate StepAt(r: Run, i: nat)
    requires i < |r.ops| == |r.replies| && |r.states| == |r.ops| + 1
  {
    Step(r.states[i], r.ops[i], r.states[i + 1], r.replies[i])
  }

  ghost predicate Valid(r: Run) {
    && |r.states| == |r.ops| + 1 && |r.replies| == |r.ops|
    && r.states[0] == map[]
    && forall i: nat | i < |r.ops| :: StepAt(r, i)
  }

  /** Totals over the first `i` calls, for one client of one IP. */
  ghost function TotalGranted(r: Run, i: nat, ip: string, client: string): int
    requires i <= |r.ops|
  {
    if i == 0 then 0 else TotalGranted(r, i - 1, ip, client) + Granted(r.ops[i - 1], ip, client)
  }

  ghost function TotalTaken(r: Run, i: nat, ip: string, client: string): int
    requires i <= |r.ops| == |r.replies| && |r.states| == |r.ops| + 1
  {
    if i == 0 then 0
    else TotalTaken(r, i - 1, ip, client) + Taken(r.states[i - 1], r.ops[i - 1], r.replies[i - 1], ip, client)
  }

  ghost function TotalDiscarded(r: Run, i: nat, ip: string, client: string): int
    requires i <= |r.ops| && |r.states| == |r.ops| + 1
  {
    if i == 0 then 0
    else TotalDiscarded(r, i - 1, ip, client) + Discarded(r.states[i - 1], r.ops[i - 1], ip, client)
  }

  lemma NothingYet(ip: string, client: string)
    ensures Positive(map[]) && Outstanding(map[], ip, client) == 0
  {
  }

  /** In every reachable state, for every client of every IP: granted is outstanding plus consumed plus discarded. */
  lemma {:induction false} CreditsConserved(r: Run, i: nat, ip: string, client: string)
    requires Valid(r) && i <= |r.ops|
    ensures Positive(r.states[i])
    ensures TotalGranted(r, i, ip, client) ==
              Outstanding(r.states[i], ip, client) + TotalTaken(r, i, ip, client) + TotalDiscarded(r, i, ip, client)
    ensures 0 <= TotalDiscarded(r, i, ip, client) && 0 <= Outstanding(r.states[i], ip, client)
  {
    hide Step, Outstanding, Granted, Taken, Discarded, ClientsOf;
    if i == 0 {
      NothingYet(ip, client);
    } else {
      CreditsConserved(r, i - 1, ip, client);
      assert StepAt(r, i - 1);
      StepKeepsPositive(r.states[i - 1], r.ops[i - 1], r.states[i], r.replies[i - 1]);
      StepBalances(r.states[i - 1], r.ops[i - 1], r.states[i], r.replies[i - 1], ip, client);
    }
  }

  /** Nobody is ever let in on more credits than were granted to it. */
  lemma NeverOverdrawn(r: Run, i: nat, ip: string, client: string)
    requires Valid(r) && i <= |r.ops|
    ensures TotalTaken(r, i, ip, client) <= TotalGranted(r, i, ip, client)
  {
    CreditsConserved(r, i, ip, client);
  }

  // ---------------------------------------------------------------------------
  // All clients of one IP together
  // ---------------------------------------------------------------------------

  function Counts(c: Clients): map<string, int> {
    map k | k in c :: c[k].count
  }

  ghost function Owed(s: Store, ip: string): int {
    Total(Counts(ClientsOf(s, ip)))
  }

  function GrantedTo(op: Op, ip: string): int {
    if op.Add? && op.ip == ip then Credit(op.count) else 0
  }

  function TakenFrom(op: Op, reply: Reply, ip: string): int {
    if op.ConsumeAny? && op.ip == ip && reply.Consumed? && reply.ok then 1 else 0
  }

  lemma AddedOwed(c: Clients, client: string, e: Entry, more: int)
    requires e.count == more + if client in c then c[client].count else 0
    ensures Total(Counts(c[client := e])) == Total(Counts(c)) + more
  {
    assert Counts(c[client := e]) == Counts(c)[client := e.count];
    TotalSet(Counts(c), client, e.count);
    TotalDrop(Counts(c), client);
  }

  lemma TakenOwed(c: Clients, client: string)
    requires client in c && c[client].count >= 1
    ensures Total(Counts(TakeOne(c, client))) == Total(Counts(c)) - 1
  {
    TotalDrop(Counts(c), client);
    if c[client].count == 1 {
      assert Counts(c - {client}) == Counts(c) - {client};
    } else {
      AddedOwed(c, client, Entry(c[client].count - 1, c[client].expiresAt), -1);
    }
  }

  lemma PartOwed(c: Clients, part: Clients)
    requires part.Keys <= c.Keys && (forall k <- part :: part[k] == c[k]) && AllPositive(c)
    ensures 0 <= Total(Counts(part)) <= Total(Counts(c))
  {
    TotalPart(Counts(c), Counts(part));
  }

  lemma ClientsOwe(c: Clients, op: Op, payer: string)
    requires AllPositive(c)
    ensures var c' := ClientsAfter(c, op, payer);
            0 <= Total(Counts(c')) <= Total(Counts(c)) + GrantedTo(op, op.ip)
              - if op.ConsumeAny? && payer in PruneClients(c, op.now) then 1 else 0
  {
    hide Counts;
    PartOwed(c, c);
    match op
    case Add(_, client, ttl, now, count) =>
      AddedOwed(c, client, ClientsAfter(c, op, payer)[client], Credit(count));
    case RemoveOne(_, client, now) => TakingOwes(c, now, client);
    case ConsumeAny(_, now) => TakingOwes(c, now, payer);
    case _ => PartOwed(c, ClientsAfter(c, op, payer));
  }

  lemma TakingOwes(c: Clients, now: int, payer: string)
    requires AllPositive(c)
    ensures var p := PruneClients(c, now);
            && 0 <= Total(Counts(p)) <= Total(Counts(c))
            && (payer in p ==> 0 <= Total(Counts(TakeOne(p, payer))) <= Total(Counts(c)) - 1)
  {
    hide Counts;
    var p := PruneClients(c, now);
    PartOwed(c, p);
    if payer in p {
      TakenOwed(p, payer);
      TakeOneCounts(p, payer, payer);
      PartOwed(TakeOne(p, payer), TakeOne(p, payer));
    }
  }

  /** Per IP nothing but a grant raises what is owed, and every consumed connection lowers it by one. */
  lemma StepOwes(s: Store, op: Op, s': Store, reply: Reply, ip: string)
    requires Positive(s) && Step(s, op, s', reply)
    ensures 0 <= Owed(s', ip) <= Owed(s, ip) + GrantedTo(op, ip) - TakenFrom(op, reply, ip)
  {
    hide Step, ClientsAfter, ClientsOf, AllPositive, Counts;
    StepByIP(s, op, s', reply);
    assert AllPositive(ClientsOf(s, ip));
    if ip == op.ip {
      ClientsOwe(ClientsOf(s, ip), op, Payer(reply));
    } else {
      PartOwed(ClientsOf(s, ip), ClientsOf(s, ip));
    }
  }
}
