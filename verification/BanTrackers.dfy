/** The ban tracker as an object that updates its two maps (internal/limits/ban.go). */
module BanTrackers {
  import opened Base
  import opened Bans

  class BanTracker {
    const ttl: int
    const maxKeys: int
    var failures: map<string, Failure>
    var bannedTil: map<string, int>

    ghost function View(): Tracker
      reads this
    {
      Tracker(failures, bannedTil)
    }

    /** The empty string marks "none found" in the eviction loop, so it is no key. */
    ghost predicate KeysNamed()
      reads this
    {
      "" !in failures && "" !in bannedTil
    }

    constructor (ttl: int, maxKeys: int)
      ensures View() == EMPTY && KeysNamed()
      ensures this.ttl == ttl && this.maxKeys == maxKeys
    {
      this.ttl := ttl;
      this.maxKeys := maxKeys;
      failures := map[];
      bannedTil := map[];
    }

    method IsBanned(key: string, now: int) returns (yes: bool)
      requires KeysNamed()
      modifies this
      ensures Step(Config(ttl, maxKeys), old(View()), Call.IsBanned(key, now), View(), Flag(yes))
      ensures KeysNamed()
    {
      PruneLocked(now);
      if key !in bannedTil {
        return false;
      }
      if bannedTil[key] <= now {
        // The clean-up that stands here is never reached: the prune leaves no ban that has run out.
        assert false;
      }
      return true;
    }

    method RecordFailure(key: string, now: int) returns (banned: bool)
      requires KeysNamed() && key != ""
      modifies this
      ensures Step(Config(ttl, maxKeys), old(View()), Call.RecordFailure(key, now), View(), Flag(banned))
      ensures KeysNamed()
    {
      if ttl <= 0 {
        return false;
      }
      PruneLocked(now);
      var state := if key in failures then failures[key] else Failure(0, 0);
      if state.firstSeen == 0 || now - state.firstSeen > MINUTE {
        state := Failure(0, now);
      }
      state := state.(count := state.count + 1);
      failures := failures[key := state];
      if state.count >= AUTH_FAIL_THRESHOLD {
        bannedTil := bannedTil[key := now + ttl];
        failures := failures - {key};
        assert View() == Recorded(ttl, old(View()), key, now).0;
        EnforceLimitLocked();
        return true;
      }
      assert View() == Recorded(ttl, old(View()), key, now).0;
      EnforceLimitLocked();
      return false;
    }

    method Count(now: int) returns (n: nat)
      requires KeysNamed()
      modifies this
      ensures Step(Config(ttl, maxKeys), old(View()), Call.Count(now), View(), Number(n))
      ensures KeysNamed()
    {
      PruneLocked(now);
      n := |bannedTil|;
    }

    method PruneLocked(now: int)
      modifies this
      ensures View() == Prune(old(View()), now)
    {
      hide BansHalf, FailuresHalf;
      ghost var was := View();
      var todo := bannedTil.Keys;
      HalfEnds(was, now);
      while todo != {}
        invariant todo <= bannedTil.Keys && failures == was.failures
        invariant bannedTil == BansHalf(was.bannedTil, todo, now)
      {
        var key :| key in todo;
        BansHalfStep(was.bannedTil, todo, key, now);
        todo := todo - {key};
        if bannedTil[key] <= now {
          bannedTil := bannedTil - {key};
        }
      }
      todo := failures.Keys;
      while todo != {}
        invariant todo <= failures.Keys && bannedTil == Prune(was, now).bannedTil
        invariant failures == FailuresHalf(was.failures, todo, now)
      {
        var key :| key in todo;
        FailuresHalfStep(was.failures, todo, key, now);
        todo := todo - {key};
        var state := failures[key];
        if state.firstSeen == 0 || now - state.firstSeen > MINUTE {
          failures := failures - {key};
        }
      }
    }

    /** The oldest entry of either map; a window wins against a ban with the same stamp. */
    method Oldest() returns (key: string, ban: bool)
      requires KeysNamed()
      ensures key == "" ==> View().Size() == 0
      ensures key != "" ==>
                var e := if ban then BanOf(key) else FailureOf(key);
                && Has(View(), e)
                && forall other | Has(View(), other) :: Stamp(View(), e) <= Stamp(View(), other)
    {
      key, ban := "", false;
      var oldest := 0;
      var todo := failures.Keys;
      while todo != {}
        invariant todo <= failures.Keys && !ban
        invariant key == "" ==> todo == failures.Keys
        invariant key != "" ==> key in failures && oldest == failures[key].firstSeen
        invariant key != "" ==> forall k | k in failures && k !in todo :: oldest <= failures[k].firstSeen
      {
        var k :| k in todo;
        todo := todo - {k};
        if key == "" || failures[k].firstSeen < oldest {
          key, oldest := k, failures[k].firstSeen;
        }
      }
      todo := bannedTil.Keys;
      while todo != {}
        invariant todo <= bannedTil.Keys
        invariant key == "" ==> failures == map[] && todo == bannedTil.Keys
        invariant key != "" ==> var e := if ban then BanOf(key) else FailureOf(key);
                                Has(View(), e) && oldest == Stamp(View(), e)
        invariant key != "" ==> forall k <- failures :: oldest <= failures[k].firstSeen
        invariant key != "" ==> forall k | k in bannedTil && k !in todo :: oldest <= bannedTil[k]
      {
        var k :| k in todo;
        todo := todo - {k};
        if key == "" || bannedTil[k] < oldest {
          key, ban, oldest := k, true, bannedTil[k];
        }
      }
    }

    method EnforceLimitLocked()
      requires KeysNamed()
      modifies this
      ensures Trimmed(old(View()), View(), maxKeys)
      ensures KeysNamed()
    {
      if maxKeys <= 0 {
        return;
      }
      hide OldestGone;
      NoneGone(View());
      while |failures| + |bannedTil| > maxKeys
        invariant KeysNamed()
        invariant Within(View(), old(View())) && OldestGone(old(View()), View())
        invariant View().Size() == old(View()).Size() || View().Size() >= maxKeys
        invariant View().Size() <= old(View()).Size()
        decreases |failures| + |bannedTil|
      {
        var key, ban := Oldest();
        if key == "" {
          return;
        }
        ghost var was := View();
        if ban {
          bannedTil := bannedTil - {key};
        } else {
          failures := failures - {key};
        }
        OneOut(old(View()), was, View(), if ban then BanOf(key) else FailureOf(key));
      }
    }
  }

  /** The bans when only the keys outside `todo` have been looked at. */
  ghost function BansHalf(m: map<string, int>, todo: set<string>, now: int): map<string, int> {
    map k | k in m && (k in todo || m[k] > now) :: m[k]
  }

  ghost function FailuresHalf(m: map<string, Failure>, todo: set<string>, now: int): map<string, Failure> {
    map k | k in m && (k in todo || !Stale(m[k], now)) :: m[k]
  }

  lemma HalfEnds(s: Tracker, now: int)
    ensures BansHalf(s.bannedTil, s.bannedTil.Keys, now) == s.bannedTil
    ensures FailuresHalf(s.failures, s.failures.Keys, now) == s.failures
    ensures Prune(s, now) == Tracker(FailuresHalf(s.failures, {}, now), BansHalf(s.bannedTil, {}, now))
  {
  }

  lemma BansHalfStep(m: map<string, int>, todo: set<string>, key: string, now: int)
    requires key in todo && todo <= BansHalf(m, todo, now).Keys
    ensures var h := BansHalf(m, todo, now);
            key in h && BansHalf(m, todo - {key}, now) == if h[key] <= now then h - {key} else h
  {
  }

  lemma FailuresHalfStep(m: map<string, Failure>, todo: set<string>, key: string, now: int)
    requires key in todo && todo <= FailuresHalf(m, todo, now).Keys
    ensures var h := FailuresHalf(m, todo, now);
            key in h && FailuresHalf(m, todo - {key}, now) == if Stale(h[key], now) then h - {key} else h
  {
  }

  function Without(s: Tracker, e: Entry): Tracker {
    match e
    case FailureOf(k) => Tracker(s.failures - {k}, s.bannedTil)
    case BanOf(k) => Tracker(s.failures, s.bannedTil - {k})
  }

  lemma NoneGone(s: Tracker)
    ensures Within(s, s) && OldestGone(s, s)
  {
  }

  /** Taking out an oldest entry keeps the loop's account of what has gone. */
  lemma OneOut(was: Tracker, s: Tracker, s': Tracker, e: Entry)
    requires Within(s, was) && OldestGone(was, s)
    requires Has(s, e) && forall other | Has(s, other) :: Stamp(s, e) <= Stamp(s, other)
    requires s' == Without(s, e)
    ensures Within(s', was) && OldestGone(was, s')
    ensures s'.Size() == s.Size() - 1
  {
    RemoveSize(s.failures, e.key);
    RemoveSize(s.bannedTil, e.key);
    forall gone, kept | Has(was, gone) && !Has(s', gone) && Has(s', kept)
      ensures Stamp(was, gone) <= Stamp(s', kept)
    {
      assert Has(s, kept) && Stamp(s', kept) == Stamp(s, kept);
      if Has(s, gone) {
        assert gone == e;
      }
    }
  }
}
