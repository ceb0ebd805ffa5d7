/** What the conduct of the handlers means: every dial uses up its knock, every failure is recorded. */
module ServerDuties {
  import opened Base
  import opened Servers
  import opened ServerStories
  import opened ServerConduct

  /** A story only adds up. */
  ghost predicate Adds(s: Story, t: Story) {
    && t.ip == s.ip && t.stray >= s.stray && t.faults >= s.faults && t.peers >= s.peers
    && t.removals >= s.removals && t.payments >= s.payments && t.revokes >= s.revokes && t.due >= s.due
    && t.ipFailures >= s.ipFailures && t.clientFailures >= s.clientFailures
  }

  lemma AddsByCheck(cfg: Config, s: Story, e: Event)
    requires (e.Passed? || e.Barred?)
    ensures Adds(s, Told(cfg, s, e))
  {
    hide IPKey, ClientKey, ToldFailure, ToldAccess, ToldOwn;
  }

  lemma AddsByFailure(cfg: Config, s: Story, e: Event)
    requires (e.Banned? || e.Recorded?)
    ensures Adds(s, Told(cfg, s, e))
  {
    hide IPKey, ClientKey, ToldCheck, ToldAccess, ToldOwn;
  }

  lemma AddsByAccess(cfg: Config, s: Story, e: Event)
    requires (e.Paid? || e.Unpaid? || e.Found? || e.FirewallAsked? || e.Removed? || e.Purged? || e.Revoked?)
    ensures Adds(s, Told(cfg, s, e))
  {
    hide IPKey, ClientKey, ToldCheck, ToldFailure, ToldOwn;
  }

  lemma AddsByOwn(cfg: Config, s: Story, e: Event)
    requires !(e.Passed? || e.Barred? || e.Banned? || e.Recorded?)
    requires !(e.Paid? || e.Unpaid? || e.Found? || e.FirewallAsked? || e.Removed? || e.Purged? || e.Revoked?)
    ensures Adds(s, Told(cfg, s, e))
  {
    hide IPKey, ClientKey, ToldCheck, ToldFailure, ToldAccess;
  }

  lemma TellingAdds(cfg: Config, s: Story, e: Event)
    ensures Adds(s, Told(cfg, s, e))
  {
    hide Told, Adds;
    if e.Passed? || e.Barred? {
      AddsByCheck(cfg, s, e);
    } else if e.Banned? || e.Recorded? {
      AddsByFailure(cfg, s, e);
    } else if e.Paid? || e.Unpaid? || e.Found? || e.FirewallAsked? || e.Removed? || e.Purged? || e.Revoked? {
      AddsByAccess(cfg, s, e);
    } else {
      AddsByOwn(cfg, s, e);
    }
  }

  // ---------------------------------------------------------------------------
  // Every dial uses up its knock
  // ---------------------------------------------------------------------------

  /** A call that takes a credit for this connection, or tries to. */
  predicate IsDebit(e: Event, c: nat) {
    (e.Removed? || e.Paid?) && e.conn == c
  }

  predicate IsRevoke(e: Event, c: nat, ip: string) {
    e.Revoked? && e.who == OfConn(c) && e.ip == ip
  }

  ghost predicate OnlyDebit(log: seq<Event>, c: nat, k: nat) {
    k < |log| && IsDebit(log[k], c) && forall l: nat | l < |log| && IsDebit(log[l], c) :: l == k
  }

  ghost predicate RevokedSince(log: seq<Event>, c: nat, ip: string, k: nat) {
    exists v: nat :: k < v < |log| && IsRevoke(log[v], c, ip)
  }

  ghost predicate NoDebit(log: seq<Event>, c: nat) {
    forall k: nat | k < |log| :: !IsDebit(log[k], c)
  }

  /** Before any fault: what the numbers of a story say about the debits in the log. */
  ghost predicate DebitsTold(log: seq<Event>, c: nat, s: Story) {
    && s.revokes <= s.due <= s.removals + s.payments
    && (s.removals > 0 ==> s.peers > 0)
    && (s.removals + s.payments == 0 ==> NoDebit(log, c) && forall k: nat | k < |log| :: !IsRevoke(log[k], c, s.ip))
    && (s.removals + s.payments == 1 ==>
          exists k: nat ::
            && OnlyDebit(log, c, k) && log[k].ip == s.ip && log[k].client == s.client
            && (log[k].Paid? <==> s.payments == 1) && s.due == One(log[k].last)
            && (RevokedSince(log, c, s.ip, k) <==> s.revokes == 1))
  }

  lemma DebitNow(log: seq<Event>, e: Event, c: nat, s: Story, t: Story)
    requires DebitsTold(log, c, s) && IsDebit(e, c) && s.removals + s.payments == 0
    requires t.ip == s.ip && t.revokes == s.revokes && t.due == One(e.last)
    requires t.removals == One(e.Removed?) && t.payments == One(e.Paid?) && (t.removals > 0 ==> t.peers > 0)
    requires e.ip == s.ip && e.client == t.client
    ensures DebitsTold(log + [e], c, t)
  {
    var log' := log + [e];
    assert log'[|log|] == e;
    assert forall k: nat | k < |log| :: log'[k] == log[k];
    assert OnlyDebit(log', c, |log|);
    assert !RevokedSince(log', c, s.ip, |log|);
  }

  lemma RevokeNow(log: seq<Event>, e: Event, c: nat, s: Story, t: Story)
    requires DebitsTold(log, c, s) && IsRevoke(e, c, s.ip) && s.revokes < s.due
    requires t == s.(revokes := s.revokes + 1)
    ensures DebitsTold(log + [e], c, t)
  {
    var log' := log + [e];
    assert log'[|log|] == e;
    assert forall k: nat | k < |log| :: log'[k] == log[k];
    if s.removals + s.payments == 1 {
      var k: nat :|
        && OnlyDebit(log, c, k) && log[k].ip == s.ip && log[k].client == s.client
        && (log[k].Paid? <==> s.payments == 1) && s.due == One(log[k].last)
        && (RevokedSince(log, c, s.ip, k) <==> s.revokes == 1);
      assert OnlyDebit(log', c, k);
      assert RevokedSince(log', c, s.ip, k);
    }
  }

  lemma NoDebitNow(log: seq<Event>, e: Event, c: nat, s: Story, t: Story)
    requires DebitsTold(log, c, s) && !IsDebit(e, c) && !IsRevoke(e, c, s.ip)
    requires t.ip == s.ip && t.revokes == s.revokes && t.due == s.due && t.removals == s.removals
    requires t.payments == s.payments && t.peers >= s.peers && (s.removals + s.payments > 0 ==> t.client == s.client)
    ensures DebitsTold(log + [e], c, t)
  {
    var log' := log + [e];
    assert log'[|log|] == e;
    assert forall k: nat | k < |log| :: log'[k] == log[k];
    if s.removals + s.payments == 1 {
      var k: nat :|
        && OnlyDebit(log, c, k) && log[k].ip == s.ip && log[k].client == s.client
        && (log[k].Paid? <==> s.payments == 1) && s.due == One(log[k].last)
        && (RevokedSince(log, c, s.ip, k) <==> s.revokes == 1);
      assert OnlyDebit(log', c, k);
      if RevokedSince(log', c, s.ip, k) {
        var v: nat :| k < v < |log'| && IsRevoke(log'[v], c, s.ip);
        assert v < |log|;
      }
      if RevokedSince(log, c, s.ip, k) {
        var v: nat :| k < v < |log| && IsRevoke(log[v], c, s.ip);
        assert IsRevoke(log'[v], c, s.ip);
      }
    }
  }

  /** What one event does to the debits of a story that stays without fault and stray. */
  lemma ToldDebit(cfg: Config, s: Story, e: Event, c: nat)
    requires ConnOf(e) == Some(c)
    requires var t := Told(cfg, s, e); t.stray == 0 && t.faults == 0
    requires s.removals > 0 ==> s.peers > 0
    ensures var t := Told(cfg, s, e);
            if IsDebit(e, c) then
              && t.revokes == s.revokes && t.due == s.due + One(e.last) && (t.removals > 0 ==> t.peers > 0)
              && t.removals == s.removals + One(e.Removed?) && t.payments == s.payments + One(e.Paid?)
              && e.ip == s.ip && e.client == t.client
            else if IsRevoke(e, c, s.ip) then
              s.revokes < s.due && t == s.(revokes := s.revokes + 1)
            else
              && t.revokes == s.revokes && t.due == s.due && t.removals == s.removals && t.payments == s.payments
              && (s.removals + s.payments > 0 ==> t.client == s.client)
  {
    hide IPKey, ClientKey;
    if e.Passed? || e.Barred? {
      hide ToldFailure, ToldAccess, ToldOwn;
    } else if e.Banned? || e.Recorded? {
      hide ToldCheck, ToldAccess, ToldOwn;
    } else if e.Paid? || e.Unpaid? || e.Found? || e.FirewallAsked? || e.Removed? || e.Purged? || e.Revoked? {
      hide ToldCheck, ToldFailure, ToldOwn;
    } else {
      hide ToldCheck, ToldFailure, ToldAccess;
    }
  }

  lemma {:induction false} DebitsOf(cfg: Config, log: seq<Event>, c: nat, ip: string)
    requires var s := StoryOf(cfg, log, c, ip);
             s.stray == 0 && s.faults == 0 && s.removals + s.payments <= 1
    ensures DebitsTold(log, c, StoryOf(cfg, log, c, ip))
  {
    hide Told, DebitsTold, ConnOf;
    if log == [] {
      NothingTold(c, ip);
    } else {
      var n := |log| - 1;
      var e, s := log[n], StoryOf(cfg, log[..n], c, ip);
      assert log == log[..n] + [e];
      if ConnOf(e) == Some(c) {
        var t := Told(cfg, s, e);
        TellingAdds(cfg, s, e);
        DebitsOf(cfg, log[..n], c, ip);
        DebitsPeers(log[..n], c, s);
        ToldDebit(cfg, s, e, c);
        if IsDebit(e, c) {
          DebitNow(log[..n], e, c, s, t);
        } else if IsRevoke(e, c, s.ip) {
          RevokeNow(log[..n], e, c, s, t);
        } else {
          NoDebitNow(log[..n], e, c, s, t);
        }
      } else {
        DebitsOf(cfg, log[..n], c, ip);
        NotItsDebit(e, c, s.ip);
        NoDebitNow(log[..n], e, c, s, s);
      }
    }
  }

  lemma NothingTold(c: nat, ip: string)
    ensures DebitsTold([], c, Fresh(ip))
  {
  }

  lemma DebitsPeers(log: seq<Event>, c: nat, s: Story)
    requires DebitsTold(log, c, s)
    ensures s.removals > 0 ==> s.peers > 0
    ensures s.removals + s.payments == 0 ==> s.due == 0
  {
  }

  lemma NotItsDebit(e: Event, c: nat, ip: string)
    requires ConnOf(e) != Some(c)
    ensures !IsDebit(e, c) && !IsRevoke(e, c, ip)
  {
  }

  /**
   * Call `k` is the one call by which the handler of dial `j` takes a credit: for the same
   * address and client, and the firewall is asked to close behind it exactly if that was
   * the last credit and the mode asks for it.
   */
  ghost predicate Uses(cfg: Config, log: seq<Event>, j: nat, k: nat)
    requires k < j < |log| && log[j].Dialed?
  {
    var c := log[j].conn;
    && (if cfg.direct then log[k].Paid? else log[k].Removed?)
    && log[k].conn == c && log[k].ip == log[j].ip && log[k].client == log[j].client
    && (forall l: nat | l < j && IsDebit(log[l], c) :: l == k)
    && (log[k].last && (cfg.direct ==> cfg.removeAfterFirst) <==>
          exists v: nat :: k < v < j && IsRevoke(log[v], c, log[j].ip))
  }

  lemma {:induction false} StoryAddress(cfg: Config, log: seq<Event>, c: nat, ip: string)
    ensures StoryOf(cfg, log, c, ip).ip == ip
  {
    hide Told, ConnOf;
    if log != [] {
      var n := |log| - 1;
      StoryAddress(cfg, log[..n], c, ip);
      TellingAdds(cfg, StoryOf(cfg, log[..n], c, ip), log[n]);
    }
  }

  /**
   * In every run every dial uses up its knock: in direct mode, and in proxy mode if knocks
   * are to be removed after authentication, its handler has made exactly one call on the
   * knock store for one credit of that address and client before, and has asked the
   * firewall to close exactly if that was the last. Otherwise it has made none.
   */
  lemma EveryDialUsesItsKnock(cfg: Config, r: Run, i: nat, j: nat)
    requires Valid(cfg, r) && i <= |r.actions| && j < |r.states[i].log| && r.states[i].log[j].Dialed?
    ensures if cfg.direct || cfg.removeAfterAuth
            then exists k: nat :: k < j && Uses(cfg, r.states[i].log, j, k)
            else NoDebit(r.states[i].log[..j], r.states[i].log[j].conn)
  {
    hide Init, StepAt, AllStand, Told;
    StoriesAlways(cfg, r, i);
    var log := r.states[i].log;
    var c, ip := log[j].conn, log[j].ip;
    assert RightAt(cfg, r.states[i].conns, log, j);
    DebitsOf(cfg, log[..j], c, ip);
    StoryAddress(cfg, log[..j], c, ip);
    if cfg.direct || cfg.removeAfterAuth {
      hide DebitsTold;
      UsedAt(cfg, log, j, StoryOf(cfg, log[..j], c, ip));
    }
  }

  lemma UsedAt(cfg: Config, log: seq<Event>, j: nat, s: Story)
    requires j < |log| && log[j].Dialed? && DebitsTold(log[..j], log[j].conn, s)
    requires s.ip == log[j].ip && s.client == log[j].client && DialRests(cfg, s)
    requires cfg.direct || cfg.removeAfterAuth
    ensures exists k: nat :: k < j && Uses(cfg, log, j, k)
  {
    var c, before := log[j].conn, log[..j];
    assert forall l: nat | l < j :: before[l] == log[l];
    var k: nat :|
      && OnlyDebit(before, c, k) && before[k].ip == s.ip && before[k].client == s.client
      && (before[k].Paid? <==> s.payments == 1) && s.due == One(before[k].last)
      && (RevokedSince(before, c, s.ip, k) <==> s.revokes == 1);
    if v: nat :| k < v < j && IsRevoke(log[v], c, log[j].ip) {
      assert IsRevoke(before[v], c, s.ip);
    }
    if RevokedSince(before, c, s.ip, k) {
      var v: nat :| k < v < |before| && IsRevoke(before[v], c, s.ip);
      assert IsRevoke(log[v], c, log[j].ip);
    }
    assert Uses(cfg, log, j, k);
  }

  // ---------------------------------------------------------------------------
  // Every failure is recorded
  // ---------------------------------------------------------------------------

  /** An authentication, a client's ban check, a look-up, an access check or a wrap that failed. */
  predicate IsFault(cfg: Config, e: Event, c: nat) {
    ConnOf(e) == Some(c)
    && ((e.Authenticated? && e.peer == None) || (e.Barred? && e.check.ByClient?) || (e.LookedUp? && !e.known)
        || (e.Found? && !e.yes && !cfg.checker) || (e.FirewallAsked? && !e.open) || (e.Wrapped? && !e.ok))
  }

  /** A failure recorded by this handler under this key, whether it led to a ban or not. */
  predicate IsRecord(e: Event, c: nat, key: string) {
    (e.Banned? || e.Recorded?) && (e.check == ByIP(c) || e.check == ByClient(c)) && e.key == key
  }

  predicate AnyRecord(e: Event, c: nat) {
    (e.Banned? || e.Recorded?) && ConnOf(e) == Some(c)
  }

  /** What a fault obliges a handler to: to record it, to close the firewall, to drop the knock. */
  datatype Duty = Record(key: string) | CloseWall(ip: string) | Drop(ip: string, client: string)

  predicate Does(e: Event, c: nat, d: Duty) {
    match d
    case Record(key) => IsRecord(e, c, key)
    case CloseWall(ip) => IsRevoke(e, c, ip)
    case Drop(ip, client) =>
      (e.Removed? && e.conn == c && e.ip == ip && e.client == client) || (client == "" && e == Purged(c, ip))
  }

  ghost predicate DoneSince(log: seq<Event>, c: nat, d: Duty, f: nat) {
    exists k: nat :: f < k < |log| && Does(log[k], c, d)
  }

  /** The one fault of this handler, before all it has recorded. */
  ghost predicate TheFault(cfg: Config, log: seq<Event>, c: nat, f: nat) {
    && f < |log| && IsFault(cfg, log[f], c)
    && (forall k: nat | k < |log| && IsFault(cfg, log[k], c) :: k == f)
    && (forall k: nat | k < |log| && AnyRecord(log[k], c) :: f < k)
  }

  ghost predicate NoFault(cfg: Config, log: seq<Event>, c: nat) {
    forall k: nat | k < |log| :: !IsFault(cfg, log[k], c) && !AnyRecord(log[k], c)
  }

  ghost predicate DoneFrom(log: seq<Event>, c: nat, s: Story, f: nat) {
    && (s.ipFailures > 0 ==> DoneSince(log, c, Record(IPKey(s.ip)), f))
    && (s.clientFailures > 0 ==> DoneSince(log, c, Record(ClientKey(s.client)), f))
    && (s.closes > 0 ==> DoneSince(log, c, CloseWall(s.ip), f))
    && (s.drops > 0 ==> DoneSince(log, c, Drop(s.ip, s.client), f))
  }

  /** What the numbers of a story say about faults and what follows them in the log. */
  ghost predicate FaultsTold(cfg: Config, log: seq<Event>, c: nat, s: Story) {
    && (s.faults == 0 ==>
          s.ipFailures == 0 && s.clientFailures == 0 && s.closes == 0 && s.drops == 0 && NoFault(cfg, log, c))
    && (s.faults == 1 ==> exists f: nat :: TheFault(cfg, log, c, f) && DoneFrom(log, c, s, f))
  }

  /** Every name this handler's client was authenticated under is the story's. */
  ghost predicate PeersTold(log: seq<Event>, c: nat, s: Story) {
    && (s.peers == 0 ==> forall k: nat, client | k < |log| :: log[k] != Authenticated(c, Some(client)))
    && (s.peers == 0 && s.payments == 0 ==> s.client == "")
    && (s.peers > 0 ==> exists a: nat :: a < |log| && log[a] == Authenticated(c, Some(s.client)))
    && (s.peers > 0 ==>
          forall k: nat, client | k < |log| && log[k] == Authenticated(c, Some(client)) :: client == s.client)
  }

  /** Every failure recorded is recorded under the handler's address or its client. */
  ghost predicate RecordsTold(log: seq<Event>, c: nat, s: Story) {
    forall k: nat | k < |log| && AnyRecord(log[k], c) ::
      IsRecord(log[k], c, IPKey(s.ip)) || (s.peers > 0 && IsRecord(log[k], c, ClientKey(s.client)))
  }

  /** What one event does to the faults and records of a story that stays without stray. */
  ghost predicate FaultMoves(cfg: Config, s: Story, e: Event, c: nat, t: Story) {
    && (s.faults > 0 || s.peers > 0 ==> t.client == s.client)
    && t.faults == s.faults + One(IsFault(cfg, e, c))
    && t.ipFailures == s.ipFailures + One(AnyRecord(e, c) && e.check.ByIP?)
    && t.clientFailures == s.clientFailures + One(AnyRecord(e, c) && e.check.ByClient?)
    && (AnyRecord(e, c) ==> s.faults > 0)
    && (AnyRecord(e, c) && e.check.ByIP? ==> IsRecord(e, c, IPKey(s.ip)))
    && (AnyRecord(e, c) && e.check.ByClient? ==> IsRecord(e, c, ClientKey(s.client)) && s.peers > 0)
  }

  lemma FaultByCheck(cfg: Config, s: Story, e: Event, c: nat)
    requires (e.Passed? || e.Barred?)
    requires ConnOf(e) == Some(c) && Told(cfg, s, e).stray == 0
    ensures FaultMoves(cfg, s, e, c, Told(cfg, s, e))
  {
    hide IPKey, ClientKey, ToldFailure, ToldAccess, ToldOwn;
  }

  lemma FaultByFailure(cfg: Config, s: Story, e: Event, c: nat)
    requires (e.Banned? || e.Recorded?)
    requires ConnOf(e) == Some(c) && Told(cfg, s, e).stray == 0
    ensures FaultMoves(cfg, s, e, c, Told(cfg, s, e))
  {
    hide IPKey, ClientKey, ToldCheck, ToldAccess, ToldOwn;
  }

  lemma FaultByAccess(cfg: Config, s: Story, e: Event, c: nat)
    requires (e.Paid? || e.Unpaid? || e.Found? || e.FirewallAsked? || e.Removed? || e.Purged? || e.Revoked?)
    requires ConnOf(e) == Some(c) && Told(cfg, s, e).stray == 0
    ensures FaultMoves(cfg, s, e, c, Told(cfg, s, e))
  {
    hide IPKey, ClientKey, ToldCheck, ToldFailure, ToldOwn;
  }

  lemma FaultByOwn(cfg: Config, s: Story, e: Event, c: nat)
    requires !(e.Passed? || e.Barred? || e.Banned? || e.Recorded?)
    requires !(e.Paid? || e.Unpaid? || e.Found? || e.FirewallAsked? || e.Removed? || e.Purged? || e.Revoked?)
    requires ConnOf(e) == Some(c) && Told(cfg, s, e).stray == 0
    ensures FaultMoves(cfg, s, e, c, Told(cfg, s, e))
  {
    hide IPKey, ClientKey, ToldCheck, ToldFailure, ToldAccess;
  }

  lemma ToldFault(cfg: Config, s: Story, e: Event, c: nat)
    requires ConnOf(e) == Some(c) && Told(cfg, s, e).stray == 0
    ensures FaultMoves(cfg, s, e, c, Told(cfg, s, e))
  {
    hide Told, FaultMoves;
    if e.Passed? || e.Barred? {
      FaultByCheck(cfg, s, e, c);
    } else if e.Banned? || e.Recorded? {
      FaultByFailure(cfg, s, e, c);
    } else if e.Paid? || e.Unpaid? || e.Found? || e.FirewallAsked? || e.Removed? || e.Purged? || e.Revoked? {
      FaultByAccess(cfg, s, e, c);
    } else {
      FaultByOwn(cfg, s, e, c);
    }
  }

  lemma ToldCleanUp(cfg: Config, s: Story, e: Event, c: nat)
    requires ConnOf(e) == Some(c) && Told(cfg, s, e).stray == 0
    ensures var t := Told(cfg, s, e);
            && (t.closes == s.closes || (t.closes == s.closes + 1 && s.faults > 0 && Does(e, c, CloseWall(s.ip))))
            && (t.drops == s.drops || (t.drops == s.drops + 1 && s.faults > 0 && Does(e, c, Drop(s.ip, s.client))))
  {
    hide IPKey, ClientKey;
    if e.Passed? || e.Barred? {
      hide ToldFailure, ToldAccess, ToldOwn;
    } else if e.Banned? || e.Recorded? {
      hide ToldCheck, ToldAccess, ToldOwn;
    } else if e.Paid? || e.Unpaid? || e.Found? || e.FirewallAsked? || e.Removed? || e.Purged? || e.Revoked? {
      hide ToldCheck, ToldFailure, ToldOwn;
    } else {
      hide ToldCheck, ToldFailure, ToldAccess;
    }
  }

  lemma TheFaultNow(cfg: Config, log: seq<Event>, e: Event, c: nat)
    requires NoFault(cfg, log, c) && IsFault(cfg, e, c) && !AnyRecord(e, c)
    ensures TheFault(cfg, log + [e], c, |log|)
  {
    hide IsFault;
    var log' := log + [e];
    assert log'[|log|] == e && forall k: nat | k < |log| :: log'[k] == log[k];
  }

  lemma TheFaultLater(cfg: Config, log: seq<Event>, e: Event, c: nat, f: nat)
    requires TheFault(cfg, log, c, f) && !IsFault(cfg, e, c)
    ensures TheFault(cfg, log + [e], c, f)
  {
    hide IsFault, AnyRecord;
    var log' := log + [e];
    assert log'[|log|] == e && forall k: nat | k < |log| :: log'[k] == log[k];
  }

  lemma NoFaultLater(cfg: Config, log: seq<Event>, e: Event, c: nat)
    requires NoFault(cfg, log, c) && !IsFault(cfg, e, c) && !AnyRecord(e, c)
    ensures NoFault(cfg, log + [e], c)
  {
    hide IsFault, AnyRecord;
  }

  lemma FaultIsNoRecord(cfg: Config, e: Event, c: nat)
    requires IsFault(cfg, e, c)
    ensures !AnyRecord(e, c)
  {
  }

  lemma DoneLater(log: seq<Event>, e: Event, c: nat, d: Duty, f: nat)
    requires f < |log|
    ensures DoneSince(log, c, d, f) || Does(e, c, d) ==> DoneSince(log + [e], c, d, f)
  {
    hide Does;
    var log' := log + [e];
    assert log'[|log|] == e;
    if k: nat :| f < k < |log| && Does(log[k], c, d) {
      assert Does(log'[k], c, d);
    }
  }

  lemma FaultNow(cfg: Config, log: seq<Event>, e: Event, c: nat, s: Story, t: Story)
    requires FaultsTold(cfg, log, c, s) && IsFault(cfg, e, c) && s.faults == 0 && t.faults == 1
    requires t.ipFailures == 0 && t.clientFailures == 0 && t.closes == 0 && t.drops == 0
    ensures FaultsTold(cfg, log + [e], c, t)
  {
    hide IsFault, TheFault, NoFault, AnyRecord, IPKey, ClientKey, DoneSince;
    FaultIsNoRecord(cfg, e, c);
    TheFaultNow(cfg, log, e, c);
    assert DoneFrom(log + [e], c, t, |log|);
  }

  /** After the fault: each number that grows, grows by its own kind of event. */
  lemma AfterFault(cfg: Config, log: seq<Event>, e: Event, c: nat, s: Story, t: Story)
    requires FaultsTold(cfg, log, c, s) && !IsFault(cfg, e, c) && s.faults == 1 && t.faults == 1
    requires t.ip == s.ip && t.client == s.client
    requires t.ipFailures > 0 ==> s.ipFailures > 0 || Does(e, c, Record(IPKey(s.ip)))
    requires t.clientFailures > 0 ==> s.clientFailures > 0 || Does(e, c, Record(ClientKey(s.client)))
    requires t.closes > 0 ==> s.closes > 0 || Does(e, c, CloseWall(s.ip))
    requires t.drops > 0 ==> s.drops > 0 || Does(e, c, Drop(s.ip, s.client))
    ensures FaultsTold(cfg, log + [e], c, t)
  {
    hide IsFault, TheFault, NoFault, Does, IPKey, ClientKey, DoneSince;
    var f: nat :| TheFault(cfg, log, c, f) && DoneFrom(log, c, s, f);
    TheFaultBounds(cfg, log, c, f);
    TheFaultLater(cfg, log, e, c, f);
    DoneLater(log, e, c, Record(IPKey(s.ip)), f);
    DoneLater(log, e, c, Record(ClientKey(s.client)), f);
    DoneLater(log, e, c, CloseWall(s.ip), f);
    DoneLater(log, e, c, Drop(s.ip, s.client), f);
    assert DoneFrom(log + [e], c, t, f);
  }

  lemma TheFaultBounds(cfg: Config, log: seq<Event>, c: nat, f: nat)
    requires TheFault(cfg, log, c, f)
    ensures f < |log| && IsFault(cfg, log[f], c)
  {
    hide IsFault;
  }

  lemma BeforeFault(cfg: Config, log: seq<Event>, e: Event, c: nat, s: Story, t: Story)
    requires FaultsTold(cfg, log, c, s) && !IsFault(cfg, e, c) && !AnyRecord(e, c) && s.faults == 0 && t.faults == 0
    requires t.ipFailures == 0 && t.clientFailures == 0 && t.closes == 0 && t.drops == 0
    ensures FaultsTold(cfg, log + [e], c, t)
  {
    hide IsFault, NoFault, AnyRecord;
    NoFaultLater(cfg, log, e, c);
  }

  lemma {:induction false} FaultsOf(cfg: Config, log: seq<Event>, c: nat, ip: string)
    requires var s := StoryOf(cfg, log, c, ip); s.stray == 0 && s.faults <= 1
    ensures FaultsTold(cfg, log, c, StoryOf(cfg, log, c, ip))
  {
    hide Told, FaultsTold, ConnOf, IsFault, IsRecord, Does, IPKey, ClientKey;
    if log == [] {
      NoFaultsYet(cfg, c, ip);
    } else {
      var n := |log| - 1;
      var e, s, t := log[n], StoryOf(cfg, log[..n], c, ip), StoryOf(cfg, log, c, ip);
      assert log == log[..n] + [e];
      TellingAdds(cfg, s, e);
      FaultsOf(cfg, log[..n], c, ip);
      FaultsStart(cfg, log[..n], c, s);
      if ConnOf(e) == Some(c) {
        ToldFault(cfg, s, e, c);
        ToldCleanUp(cfg, s, e, c);
        RecordDoes(e, c, IPKey(s.ip));
        RecordDoes(e, c, ClientKey(s.client));
      } else {
        NotItsFault(cfg, e, c);
      }
      if s.faults == 1 {
        AfterFault(cfg, log[..n], e, c, s, t);
      } else if t.faults == 1 {
        FaultNow(cfg, log[..n], e, c, s, t);
      } else {
        BeforeFault(cfg, log[..n], e, c, s, t);
      }
    }
  }

  lemma FaultsStart(cfg: Config, log: seq<Event>, c: nat, s: Story)
    requires FaultsTold(cfg, log, c, s)
    ensures s.faults == 0 ==> s.ipFailures == 0 && s.clientFailures == 0 && s.closes == 0 && s.drops == 0
  {
  }

  lemma RecordDoes(e: Event, c: nat, key: string)
    ensures Does(e, c, Record(key)) <==> IsRecord(e, c, key)
  {
  }

  lemma NoFaultsYet(cfg: Config, c: nat, ip: string)
    ensures FaultsTold(cfg, [], c, Fresh(ip))
  {
  }

  lemma NotItsFault(cfg: Config, e: Event, c: nat)
    requires ConnOf(e) != Some(c)
    ensures !IsFault(cfg, e, c) && !AnyRecord(e, c)
  {
  }

  lemma PeerNow(cfg: Config, s: Story, e: Event, c: nat)
    requires ConnOf(e) == Some(c) && Told(cfg, s, e).stray == 0
    ensures var t := Told(cfg, s, e); var peer := e.Authenticated? && e.peer.Some?;
            && t.peers == s.peers + One(peer) && (peer ==> s.peers == 0 && t.client == e.peer.value && e.conn == c)
            && (!peer && t.payments == s.payments ==> t.client == s.client) && t.payments >= s.payments
            && (s.peers > 0 ==> t.client == s.client)
  {
    hide IPKey, ClientKey;
    if e.Passed? || e.Barred? {
      hide ToldFailure, ToldAccess, ToldOwn;
    } else if e.Banned? || e.Recorded? {
      hide ToldCheck, ToldAccess, ToldOwn;
    } else if e.Paid? || e.Unpaid? || e.Found? || e.FirewallAsked? || e.Removed? || e.Purged? || e.Revoked? {
      hide ToldCheck, ToldFailure, ToldOwn;
    } else {
      hide ToldCheck, ToldFailure, ToldAccess;
    }
  }

  lemma PeersNext(log: seq<Event>, e: Event, c: nat, s: Story, t: Story)
    requires PeersTold(log, c, s)
    requires var peer := e.Authenticated? && e.conn == c && e.peer.Some?;
             && t.peers == s.peers + One(peer) && (peer ==> s.peers == 0 && t.client == e.peer.value)
             && (!peer && t.payments == s.payments ==> t.client == s.client) && t.payments >= s.payments
             && (s.peers > 0 ==> t.client == s.client)
    ensures PeersTold(log + [e], c, t)
  {
    var log' := log + [e];
    assert log'[|log|] == e && forall k: nat | k < |log| :: log'[k] == log[k];
    if s.peers > 0 {
      var a: nat :| a < |log| && log[a] == Authenticated(c, Some(s.client));
      assert log'[a] == Authenticated(c, Some(t.client));
    } else if t.peers > 0 {
      assert log'[|log|] == Authenticated(c, Some(t.client));
    }
  }

  lemma {:induction false} PeersOf(cfg: Config, log: seq<Event>, c: nat, ip: string)
    requires StoryOf(cfg, log, c, ip).stray == 0
    ensures PeersTold(log, c, StoryOf(cfg, log, c, ip))
    ensures RecordsTold(log, c, StoryOf(cfg, log, c, ip))
  {
    hide Told, ConnOf, IPKey, ClientKey;
    if log != [] {
      var n := |log| - 1;
      var e, s := log[n], StoryOf(cfg, log[..n], c, ip);
      assert log == log[..n] + [e];
      TellingAdds(cfg, s, e);
      PeersOf(cfg, log[..n], c, ip);
      AuthenticatedBy(e, c);
      RecordOfConn(e, c);
      if ConnOf(e) == Some(c) {
        ToldFault(cfg, s, e, c);
        PeerNow(cfg, s, e, c);
      }
      PeersNext(log[..n], e, c, s, StoryOf(cfg, log, c, ip));
    }
  }

  lemma AuthenticatedBy(e: Event, c: nat)
    ensures e.Authenticated? && e.conn == c ==> ConnOf(e) == Some(c)
  {
  }

  /** How many failures were recorded for a handler's IP, or for its client. */
  function Records(log: seq<Event>, check: Check): nat {
    if log == [] then 0
    else
      var e := log[|log| - 1];
      Records(log[..|log| - 1], check) + One((e.Banned? || e.Recorded?) && e.check == check)
  }

  lemma {:induction false} RecordsCounted(cfg: Config, log: seq<Event>, c: nat, ip: string)
    requires StoryOf(cfg, log, c, ip).stray == 0
    ensures Records(log, ByIP(c)) == StoryOf(cfg, log, c, ip).ipFailures
    ensures Records(log, ByClient(c)) == StoryOf(cfg, log, c, ip).clientFailures
  {
    hide Told, ConnOf, IsFault, IPKey, ClientKey;
    if log != [] {
      var n := |log| - 1;
      var e, s := log[n], StoryOf(cfg, log[..n], c, ip);
      TellingAdds(cfg, s, e);
      RecordsCounted(cfg, log[..n], c, ip);
      RecordOfConn(e, c);
      if ConnOf(e) == Some(c) {
        ToldFault(cfg, s, e, c);
      }
    }
  }

  lemma RecordOfConn(e: Event, c: nat)
    ensures AnyRecord(e, c) <==> (e.Banned? || e.Recorded?) && (e.check == ByIP(c) || e.check == ByClient(c))
    ensures AnyRecord(e, c) ==> ConnOf(e) == Some(c)
  {
  }

  /** This duty is done between the fault and the end. */
  ghost predicate DoneBetween(log: seq<Event>, f: nat, j: nat, c: nat, d: Duty)
    requires j < |log|
  {
    exists k: nat :: f < k < j && Does(log[k], c, d)
  }

  /**
   * In every run, by the time a handler gives back its IP slot: if its authentication, its
   * client's ban check, the look-up, the access check or the wrap failed, it has since
   * recorded exactly one failure for its own address and, if it was authenticated, exactly
   * one for that client.
   */
  lemma EveryFailureIsRecorded(cfg: Config, r: Run, i: nat, j: nat, f: nat)
    requires Valid(cfg, r) && i <= |r.actions|
    requires var log := r.states[i].log; f < j < |log| && log[j].Left? && IsFault(cfg, log[f], log[j].conn)
    ensures var log := r.states[i].log; var c := log[j].conn;
            && c in r.states[i].conns && r.states[i].conns[c].addr == Some(log[j].ip)
            && Records(log[..j], ByIP(c)) == 1 && DoneBetween(log, f, j, c, Record(IPKey(log[j].ip)))
            && (forall a: nat, client | a < j && log[a] == Authenticated(c, Some(client)) && client != "" ::
                  Records(log[..j], ByClient(c)) == 1 && DoneBetween(log, f, j, c, Record(ClientKey(client))))
  {
    hide Init, StepAt, Told, FaultsTold, PeersTold, RecordsTold, IsFault, IPKey, ClientKey, StoryOf, Does;
    var log := r.states[i].log;
    var c, ip := log[j].conn, log[j].ip;
    LeavingStory(cfg, r, i, j);
    RecordsCounted(cfg, log[..j], c, ip);
    DutiesAt(cfg, log, j, f, StoryOf(cfg, log[..j], c, ip));
  }

  /**
   * If knocks are to be removed after authentication, such a handler has since asked the
   * firewall to close for its own address and dropped the knock of that client, or all
   * knocks of the address if nobody was authenticated.
   */
  lemma EveryFailureCleansUp(cfg: Config, r: Run, i: nat, j: nat, f: nat)
    requires Valid(cfg, r) && i <= |r.actions| && cfg.removeAfterAuth
    requires var log := r.states[i].log; f < j < |log| && log[j].Left? && IsFault(cfg, log[f], log[j].conn)
    ensures var log := r.states[i].log; var c := log[j].conn;
            && DoneBetween(log, f, j, c, CloseWall(log[j].ip))
            && exists client :: DoneBetween(log, f, j, c, Drop(log[j].ip, client))
                 && if client != "" then exists a: nat :: a < j && log[a] == Authenticated(c, Some(client))
                    else forall a: nat, peer | a < j && log[a] == Authenticated(c, Some(peer)) :: peer == ""
  {
    hide Init, StepAt, Told, FaultsTold, PeersTold, RecordsTold, IsFault, IPKey, ClientKey, StoryOf, Does;
    var log := r.states[i].log;
    LeavingStory(cfg, r, i, j);
    var s := StoryOf(cfg, log[..j], log[j].conn, log[j].ip);
    DutiesAt(cfg, log, j, f, s);
    PeersAt(log, j, log[j].conn, s);
    assert DoneBetween(log, f, j, log[j].conn, Drop(log[j].ip, s.client));
  }

  lemma PeersAt(log: seq<Event>, j: nat, c: nat, s: Story)
    requires j < |log| && PeersTold(log[..j], c, s) && s.payments == 0
    ensures if s.client != "" then exists a: nat :: a < j && log[a] == Authenticated(c, Some(s.client))
            else forall a: nat, peer | a < j && log[a] == Authenticated(c, Some(peer)) :: peer == ""
  {
    var before := log[..j];
    assert forall l: nat | l < j :: before[l] == log[l];
    if s.client != "" {
      var a: nat :| a < |before| && before[a] == Authenticated(c, Some(s.client));
      assert log[a] == Authenticated(c, Some(s.client));
    } else {
      forall a: nat, peer | a < j && log[a] == Authenticated(c, Some(peer))
        ensures peer == ""
      {
        assert before[a] == Authenticated(c, Some(peer));
      }
    }
  }

  lemma LeavingStory(cfg: Config, r: Run, i: nat, j: nat)
    requires Valid(cfg, r) && i <= |r.actions| && j < |r.states[i].log| && r.states[i].log[j].Left?
    ensures var log := r.states[i].log; var c, ip := log[j].conn, log[j].ip;
            var s := StoryOf(cfg, log[..j], c, ip);
            && c in r.states[i].conns && r.states[i].conns[c].addr == Some(ip) && s.ip == ip
            && Settled(cfg, s) && FaultsTold(cfg, log[..j], c, s) && PeersTold(log[..j], c, s)
  {
    hide Init, StepAt, AllStand, Told, FaultsTold, PeersTold, RecordsTold, StoryOf;
    StoriesAlways(cfg, r, i);
    var log := r.states[i].log;
    var c, ip := log[j].conn, log[j].ip;
    assert RightAt(cfg, r.states[i].conns, log, j);
    FaultsOf(cfg, log[..j], c, ip);
    PeersOf(cfg, log[..j], c, ip);
    StoryAddress(cfg, log[..j], c, ip);
  }

  lemma DutiesAt(cfg: Config, log: seq<Event>, j: nat, f: nat, s: Story)
    requires f < j < |log| && log[j].Left? && IsFault(cfg, log[f], log[j].conn)
    requires FaultsTold(cfg, log[..j], log[j].conn, s) && PeersTold(log[..j], log[j].conn, s) && Settled(cfg, s)
    requires s.ip == log[j].ip
    ensures var c := log[j].conn;
            && s.ipFailures == 1 && s.payments == 0 && DoneBetween(log, f, j, c, Record(IPKey(log[j].ip)))
            && (forall a: nat, client | a < j && log[a] == Authenticated(c, Some(client)) && client != "" ::
                  s.clientFailures == 1 && DoneBetween(log, f, j, c, Record(ClientKey(client))))
            && (cfg.removeAfterAuth ==>
                  && DoneBetween(log, f, j, c, CloseWall(log[j].ip))
                  && DoneBetween(log, f, j, c, Drop(log[j].ip, s.client)))
  {
    hide IsFault, IPKey, ClientKey, AnyRecord, Does;
    var c, before := log[j].conn, log[..j];
    assert forall l: nat | l < j :: before[l] == log[l];
    assert IsFault(cfg, before[f], c);
    FaultCounted(cfg, before, c, s, f);
    forall d | DoneSince(before, c, d, f)
      ensures DoneBetween(log, f, j, c, d)
    {
      var k: nat :| f < k < |before| && Does(before[k], c, d);
      assert Does(log[k], c, d);
    }
    forall a: nat, client | a < j && log[a] == Authenticated(c, Some(client)) && client != ""
      ensures s.clientFailures == 1 && DoneBetween(log, f, j, c, Record(ClientKey(client)))
    {
      assert before[a] == Authenticated(c, Some(client));
      assert s.client == client;
    }
  }

  lemma FaultCounted(cfg: Config, log: seq<Event>, c: nat, s: Story, f: nat)
    requires FaultsTold(cfg, log, c, s) && s.faults <= 1 && f < |log| && IsFault(cfg, log[f], c)
    ensures s.faults == 1 && DoneFrom(log, c, s, f)
  {
    hide IsFault, IPKey, ClientKey, AnyRecord, DoneFrom;
    if s.faults == 1 {
      var g: nat :| TheFault(cfg, log, c, g) && DoneFrom(log, c, s, g);
      assert g == f;
    }
  }

  /** A handler that leaves without such a fault has recorded no failure at all. */
  lemma NoFailureWithoutFault(cfg: Config, r: Run, i: nat, j: nat)
    requires Valid(cfg, r) && i <= |r.actions|
    requires var log := r.states[i].log;
             j < |log| && log[j].Left? && forall f: nat | f < j :: !IsFault(cfg, log[f], log[j].conn)
    ensures var log := r.states[i].log;
            Records(log[..j], ByIP(log[j].conn)) == 0 && Records(log[..j], ByClient(log[j].conn)) == 0
  {
    hide Init, StepAt, Told, IsFault, IPKey, ClientKey, StoryOf, FaultsTold;
    var log := r.states[i].log;
    var c, ip := log[j].conn, log[j].ip;
    LeavingStory(cfg, r, i, j);
    RecordsCounted(cfg, log[..j], c, ip);
    assert forall f: nat | f < j :: !IsFault(cfg, log[..j][f], c);
    FaultsMeanFault(cfg, log[..j], c, StoryOf(cfg, log[..j], c, ip));
  }

  lemma FaultsMeanFault(cfg: Config, log: seq<Event>, c: nat, s: Story)
    requires FaultsTold(cfg, log, c, s)
    ensures s.faults == 1 ==> exists f: nat :: f < |log| && IsFault(cfg, log[f], c)
  {
    hide IsFault;
  }

  // ---------------------------------------------------------------------------
  // Every relay is linked
  // ---------------------------------------------------------------------------

  ghost predicate Linked(log: seq<Event>, c: nat, k: nat) {
    k < |log| && log[k].Dialed? && log[k].conn == c && log[k].ok
  }

  ghost predicate WrappedSince(log: seq<Event>, c: nat, k: nat) {
    exists w: nat :: k < w < |log| && log[w] == Wrapped(c, true)
  }

  ghost predicate LinksTold(log: seq<Event>, c: nat, s: Story) {
    && (s.links == 0 ==> forall k: nat | k < |log| :: !Linked(log, c, k))
    && (s.links == 1 ==> exists k: nat :: Linked(log, c, k) && (s.wraps > 0 ==> WrappedSince(log, c, k)))
  }

  lemma ToldLink(cfg: Config, s: Story, e: Event, c: nat)
    requires ConnOf(e) == Some(c) && Told(cfg, s, e).stray == 0
    ensures var t := Told(cfg, s, e);
            && t.links == s.links + One(e.Dialed? && e.ok)
            && t.wraps == s.wraps + One(e == Wrapped(c, true)) && (e.Wrapped? ==> s.links > 0)
  {
    hide IPKey, ClientKey;
    if e.Passed? || e.Barred? {
      hide ToldFailure, ToldAccess, ToldOwn;
    } else if e.Banned? || e.Recorded? {
      hide ToldCheck, ToldAccess, ToldOwn;
    } else if e.Paid? || e.Unpaid? || e.Found? || e.FirewallAsked? || e.Removed? || e.Purged? || e.Revoked? {
      hide ToldCheck, ToldFailure, ToldOwn;
    } else {
      hide ToldCheck, ToldFailure, ToldAccess;
    }
  }

  lemma LinkNow(log: seq<Event>, e: Event, c: nat, s: Story, t: Story)
    requires LinksTold(log, c, s) && (s.links == 0 ==> s.wraps == 0)
    requires ConnOf(e) == Some(c) ==>
               && t.links == s.links + One(e.Dialed? && e.ok)
               && t.wraps == s.wraps + One(e == Wrapped(c, true)) && (e.Wrapped? ==> s.links > 0)
    requires ConnOf(e) != Some(c) ==> t == s && !(e.Dialed? && e.conn == c)
    requires ConnOf(e) == Some(c) && e.Dialed? ==> e.conn == c
    ensures LinksTold(log + [e], c, t)
  {
    hide ConnOf;
    var log' := log + [e];
    assert log'[|log|] == e && forall k: nat | k < |log| :: log'[k] == log[k];
    assert forall k: nat | k < |log| :: Linked(log', c, k) <==> Linked(log, c, k);
    if s.links == 1 {
      var k: nat :| Linked(log, c, k) && (s.wraps > 0 ==> WrappedSince(log, c, k));
      assert Linked(log', c, k);
      if WrappedSince(log, c, k) {
        var w: nat :| k < w < |log| && log[w] == Wrapped(c, true);
        assert log'[w] == Wrapped(c, true);
      }
    } else if s.links == 0 && t.links == 1 {
      assert Linked(log', c, |log|);
    }
  }

  lemma {:induction false} LinksOf(cfg: Config, log: seq<Event>, c: nat, ip: string)
    requires StoryOf(cfg, log, c, ip).stray == 0
    ensures LinksTold(log, c, StoryOf(cfg, log, c, ip))
    ensures var s := StoryOf(cfg, log, c, ip); s.links == 0 ==> s.wraps == 0
  {
    hide Told, ConnOf;
    if log != [] {
      hide LinksTold;
      var n := |log| - 1;
      var e, s := log[n], StoryOf(cfg, log[..n], c, ip);
      assert log == log[..n] + [e];
      TellingAdds(cfg, s, e);
      LinksOf(cfg, log[..n], c, ip);
      DialedBy(e, c);
      if ConnOf(e) == Some(c) {
        ToldLink(cfg, s, e, c);
      }
      LinkNow(log[..n], e, c, s, StoryOf(cfg, log, c, ip));
    }
  }

  lemma DialedBy(e: Event, c: nat)
    ensures e.Dialed? ==> (ConnOf(e) == Some(c) <==> e.conn == c)
  {
  }

  /**
   * Every relay follows a dial of its handler that succeeded, and with an encrypted
   * transport outside direct mode a wrap that succeeded in between.
   */
  lemma EveryRelayIsLinked(cfg: Config, r: Run, i: nat, j: nat)
    requires Valid(cfg, r) && i <= |r.actions| && j < |r.states[i].log| && r.states[i].log[j].Relayed?
    ensures var log := r.states[i].log; var c := log[j].conn;
            exists k: nat :: k < j && Linked(log, c, k)
              && (cfg.encrypted && !cfg.direct ==> exists w: nat :: k < w < j && log[w] == Wrapped(c, true))
  {
    hide Init, StepAt, AllStand, Told, StoryOf;
    StoriesAlways(cfg, r, i);
    var log := r.states[i].log;
    var c := log[j].conn;
    assert RightAt(cfg, r.states[i].conns, log, j);
    var ip := r.states[i].conns[c].addr.value;
    LinksOf(cfg, log[..j], c, ip);
    var s := StoryOf(cfg, log[..j], c, ip);
    var k: nat :| Linked(log[..j], c, k) && (s.wraps > 0 ==> WrappedSince(log[..j], c, k));
    assert log[..j][k] == log[k] && Linked(log, c, k);
    if s.wraps > 0 {
      var w: nat :| k < w < |log[..j]| && log[..j][w] == Wrapped(c, true);
      assert log[w] == Wrapped(c, true);
    }
  }
}
