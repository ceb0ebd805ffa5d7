/** When failures must lead to a ban: for a key whose window is not evicted, with any capacity limit. */
module BanWindows {
  import opened Base
  import opened Bans
  import opened BanRuns

  /** This call made the tracker drop the open window of `key` to keep to its capacity limit. */
  ghost predicate Evicts(cfg: Config, s: Tracker, call: Call, s': Tracker, key: string) {
    && call.RecordFailure? && cfg.ttl > 0
    && key in Recorded(cfg.ttl, s, call.key, call.now).0.failures && key !in s'.failures
  }

  /** Between calls `a` and `b` of the run no window of `key` is evicted. */
  ghost predicate Kept(cfg: Config, r: Run, key: string, a: nat, b: nat)
    requires |r.states| == |r.calls| + 1
  {
    forall i: nat | a <= i < b && i < |r.calls| :: !Evicts(cfg, r.states[i], r.calls[i], r.states[i + 1], key)
  }

  lemma KeptUncapped(cfg: Config, r: Run, key: string, a: nat, b: nat)
    requires Valid(cfg, r) && cfg.maxKeys <= 0
    ensures Kept(cfg, r, key, a, b)
  {
    hide Step, Evicts, Recorded;
    forall i: nat | a <= i < b && i < |r.calls|
      ensures !Evicts(cfg, r.states[i], r.calls[i], r.states[i + 1], key)
    {
      StepAt(cfg, r, i);
      UncappedKeeps(cfg, r.states[i], r.calls[i], r.states[i + 1], r.replies[i], key);
    }
  }

  lemma UncappedKeeps(cfg: Config, s: Tracker, call: Call, s': Tracker, reply: Reply, key: string)
    requires Step(cfg, s, call, s', reply) && cfg.maxKeys <= 0
    ensures !Evicts(cfg, s, call, s', key)
  {
    if call.RecordFailure? && cfg.ttl > 0 {
      UnderLimitKeepsAll(Recorded(cfg.ttl, s, call.key, call.now).0, s', cfg.maxKeys);
    }
  }

  /** What a call that does not evict a key's window does to it. */
  lemma KeptWindow(cfg: Config, s: Tracker, call: Call, s': Tracker, reply: Reply, key: string)
    requires Step(cfg, s, call, s', reply) && cfg.ttl > 0 && !Evicts(cfg, s, call, s', key)
    ensures IsFailureOf(call, key) && reply != Flag(true) ==>
              key in s'.failures && s'.failures[key] ==
              (if key in s.failures && !Stale(s.failures[key], call.now)
               then Failure(s.failures[key].count + 1, s.failures[key].firstSeen) else Failure(1, call.now))
    ensures !IsFailureOf(call, key) && key in s.failures && !Stale(s.failures[key], call.now) ==>
              key in s'.failures && s'.failures[key] == s.failures[key]
    ensures !IsFailureOf(call, key) && key in s'.failures ==>
              key in s.failures && s'.failures[key] == s.failures[key]
  {
  }

  // ---------------------------------------------------------------------------
  // Eight failures in a minute are enough, seven are not
  // ---------------------------------------------------------------------------

  /**
   * Where a key's window can stand after `n` failures since time `start`, none of
   * them answered with a ban: there is none, or it was open before and has counted
   * all `n`, or it was opened since and has missed at most three.
   */
  predicate Progress(s: Tracker, key: string, start: int, n: nat) {
    if key !in s.failures then n <= 3
    else
      var f := s.failures[key];
      f.count >= n + 1 || (f.firstSeen >= start && f.count >= n - 3)
  }

  lemma ProgressStep(cfg: Config, s: Tracker, call: Call, s': Tracker, reply: Reply, key: string, start: int, n: nat)
    requires Step(cfg, s, call, s', reply) && cfg.ttl > 0 && !Evicts(cfg, s, call, s', key)
    requires key in s.failures ==> 1 <= s.failures[key].count < AUTH_FAIL_THRESHOLD && 0 < s.failures[key].firstSeen
    requires 0 < start <= call.now <= start + MINUTE
    requires IsFailureOf(call, key) ==> reply != Flag(true)
    requires Progress(s, key, start, n)
    ensures Progress(s', key, start, n + if IsFailureOf(call, key) then 1 else 0)
  {
    hide Step, Evicts;
    KeptWindow(cfg, s, call, s', reply, key);
  }

  lemma InvWindows(cfg: Config, s: Tracker, before: int, key: string)
    requires Inv(cfg, s, before)
    ensures key in s.failures ==>
              1 <= s.failures[key].count < AUTH_FAIL_THRESHOLD && 0 < s.failures[key].firstSeen <= before
  {
  }

  /** One call of a run moves the progress of `key` on. */
  lemma ProgressNext(cfg: Config, r: Run, key: string, start: int, i: nat, n: nat)
    requires Valid(cfg, r) && cfg.ttl > 0 && i < |r.calls|
    requires !Evicts(cfg, r.states[i], r.calls[i], r.states[i + 1], key)
    requires 0 < start <= r.calls[i].now <= start + MINUTE && !BansAt(r, i, key)
    requires Progress(r.states[i], key, start, n)
    ensures Progress(r.states[i + 1], key, start, n + if IsFailureOf(r.calls[i], key) then 1 else 0)
  {
    hide Step, Progress, Valid, Inv, Evicts, Clock;
    StepAt(cfg, r, i);
    InvAlways(cfg, r, i);
    InvWindows(cfg, r.states[i], Clock(r, i), key);
    ProgressStep(cfg, r.states[i], r.calls[i], r.states[i + 1], r.replies[i], key, start, n);
  }

  lemma ProgressStart(cfg: Config, r: Run, key: string, a: nat)
    requires Valid(cfg, r) && a < |r.calls|
    ensures Progress(r.states[a], key, r.calls[a].now, Failures(r.calls[a..a], key)) && 0 < r.calls[a].now
  {
    hide Step, Inv, Valid;
    StepAt(cfg, r, a);
    InvAlways(cfg, r, a);
    InvWindows(cfg, r.states[a], Clock(r, a), key);
    FailuresNext(r.calls, key, a, a);
  }

  /** Every call of a stretch comes after its first call and not after its last. */
  lemma InStretch(cfg: Config, r: Run, a: nat, i: nat, b: nat)
    requires Valid(cfg, r) && a <= i <= b < |r.calls|
    ensures 0 < r.calls[a].now <= r.calls[i].now <= r.calls[b].now
  {
    hide Step;
  }

  lemma {:induction false} ProgressAlong(cfg: Config, r: Run, key: string, a: nat, i: nat, b: nat)
    requires Valid(cfg, r) && cfg.ttl > 0 && a <= i <= b + 1 && b < |r.calls| && a <= b
    requires r.calls[b].now - r.calls[a].now <= MINUTE && Kept(cfg, r, key, a, b + 1)
    requires forall k: nat | a <= k <= b :: !BansAt(r, k, key)
    ensures Progress(r.states[i], key, r.calls[a].now, Failures(r.calls[a..i], key))
  {
    hide Step, Progress, Failures, Valid, Evicts, IsFailureOf;
    if i == a {
      ProgressStart(cfg, r, key, a);
    } else {
      ProgressAlong(cfg, r, key, a, i - 1, b);
      InStretch(cfg, r, a, i - 1, b);
      FailuresNext(r.calls, key, a, i - 1);
      ProgressNext(cfg, r, key, r.calls[a].now, i - 1, Failures(r.calls[a..i - 1], key));
    }
  }

  /** Some failure of `key` between calls `a` and `b` is answered with a ban. */
  ghost predicate BansWithin(r: Run, key: string, a: nat, b: nat)
    requires |r.replies| == |r.calls|
  {
    exists k: nat :: a <= k <= b && BansAt(r, k, key)
  }

  /**
   * For any capacity limit: eight failures of one key inside one minute, during which
   * its window is not evicted, include one that is answered with a ban, whatever else
   * is called in between.
   */
  lemma EightFailuresBan(cfg: Config, r: Run, key: string, a: nat, b: nat)
    requires Valid(cfg, r) && cfg.ttl > 0 && a <= b < |r.calls| && Kept(cfg, r, key, a, b + 1)
    requires r.calls[b].now - r.calls[a].now <= MINUTE
    requires Failures(r.calls[a..b + 1], key) >= 2 * AUTH_FAIL_THRESHOLD - 2
    ensures BansWithin(r, key, a, b)
  {
    hide Step, Failures, Kept, Valid, Inv;
    StepAt(cfg, r, a);
    if !BansWithin(r, key, a, b) {
      ProgressAlong(cfg, r, key, a, b + 1, b);
      InvAlways(cfg, r, b + 1);
      InvWindows(cfg, r.states[b + 1], Clock(r, b + 1), key);
    }
  }

  /** A tracker with one open window and nothing else. */
  function OneWindow(key: string, count: int, since: int): Tracker {
    Tracker(map[key := Failure(count, since)], map[])
  }

  lemma OneWindowStep(cfg: Config, key: string, count: int, since: int, now: int)
    requires cfg.ttl > 0 && 0 < since <= now
    ensures now - since <= MINUTE && count < 4 ==>
              Step(cfg, OneWindow(key, count, since), RecordFailure(key, now), OneWindow(key, count + 1, since),
                Flag(false))
    ensures now - since > MINUTE ==>
              Step(cfg, OneWindow(key, count, since), RecordFailure(key, now), OneWindow(key, 1, now), Flag(false))
  {
    var s := OneWindow(key, count, since);
    if now - since > MINUTE {
      assert Prune(s, now) == EMPTY;
      assert Recorded(cfg.ttl, s, key, now).0 == OneWindow(key, 1, now);
    } else {
      assert Prune(s, now) == s;
      if count < 4 {
        assert Recorded(cfg.ttl, s, key, now).0 == OneWindow(key, count + 1, since);
      }
    }
  }

  lemma FirstWindowStep(cfg: Config, key: string, now: int)
    requires cfg.ttl > 0 && 0 < now
    ensures Step(cfg, EMPTY, RecordFailure(key, now), OneWindow(key, 1, now), Flag(false))
  {
    assert Prune(EMPTY, now) == EMPTY;
    assert Recorded(cfg.ttl, EMPTY, key, now).0 == OneWindow(key, 1, now);
  }

  function SevenState(key: string, i: nat): Tracker {
    if i == 0 then EMPTY
    else if i <= 4 then OneWindow(key, i, 1)
    else OneWindow(key, i - 4, MINUTE + 2)
  }

  function SevenCall(key: string, i: nat): Call {
    RecordFailure(key, if i == 0 then 1 else if i <= 3 then MINUTE else MINUTE + 2)
  }

  /** One failure at time 1, then three a minute later, then four just after the window closed. */
  function SevenFailures(key: string): Run {
    Run(seq(9, i requires 0 <= i => SevenState(key, i)), seq(8, i requires 0 <= i => SevenCall(key, i)),
      seq(8, _ => Flag(false)))
  }

  lemma SevenStep(cfg: Config, key: string, i: nat)
    requires cfg.ttl > 0 && i < 8
    ensures Step(cfg, SevenState(key, i), SevenCall(key, i), SevenState(key, i + 1), Flag(false))
  {
    hide Step;
    if i == 0 {
      FirstWindowStep(cfg, key, 1);
    } else if i <= 4 {
      OneWindowStep(cfg, key, i, 1, SevenCall(key, i).now);
    } else {
      OneWindowStep(cfg, key, i - 4, MINUTE + 2, MINUTE + 2);
    }
  }

  /** Calls that are all failures of one key. */
  lemma {:induction false} AllFailures(calls: seq<Call>, key: string, a: nat, i: nat)
    requires a <= i <= |calls| && forall k | a <= k < i :: IsFailureOf(calls[k], key)
    ensures Failures(calls[a..i], key) == i - a
  {
    hide Failures;
    if i > a {
      AllFailures(calls, key, a, i - 1);
      FailuresNext(calls, key, a, i - 1);
    } else {
      assert calls[a..i] == [];
      NoFailures(key);
    }
  }

  lemma NoFailures(key: string)
    ensures Failures([], key) == 0
  {
  }

  /** Eight is tight, for any capacity limit: seven failures within a minute can go without any ban. */
  lemma SevenFailuresNeedNotBan(cfg: Config, key: string)
    requires cfg.ttl > 0
    ensures var r := SevenFailures(key);
            && Valid(cfg, r) && Failures(r.calls[1..8], key) == 2 * AUTH_FAIL_THRESHOLD - 3
            && r.calls[7].now - r.calls[1].now <= MINUTE && !BansWithin(r, key, 0, 7)
  {
    var r := SevenFailures(key);
    assert SevenState(key, 0) == EMPTY;
    hide Step, Failures, SevenState;
    AllFailures(r.calls, key, 1, 8);
    forall i: nat | i < 8
      ensures Step(cfg, SevenState(key, i), SevenCall(key, i), SevenState(key, i + 1), Flag(false))
    {
      SevenStep(cfg, key, i);
    }
  }

  // ---------------------------------------------------------------------------
  // When five failures are enough
  // ---------------------------------------------------------------------------

  /** The run goes on where `z` ends. */
  predicate Extends(r: Run, z: Run) {
    z.states <= r.states && z.calls <= r.calls && z.replies <= r.replies
  }

  /**
   * Every continuation in which the next call is a failure of `key` at `t`, in which
   * `key` has five failures up to one minute later, and which does not evict its
   * window meanwhile, answers one of these failures with a ban.
   */
  ghost predicate FiveAlwaysBan(cfg: Config, z: Run, key: string, t: int) {
    forall r: Run, b: nat | Valid(cfg, r) && Extends(r, z) && FiveFrom(cfg, r, |z.calls|, b, key, t) ::
      BansWithin(r, key, |z.calls|, b)
  }

  ghost predicate FiveFrom(cfg: Config, r: Run, a: nat, b: nat, key: string, t: int) {
    && a <= b < |r.calls| && |r.states| == |r.calls| + 1 && Kept(cfg, r, key, a, b + 1)
    && r.calls[a] == RecordFailure(key, t) && r.calls[b].now <= t + MINUTE
    && Failures(r.calls[a..b + 1], key) >= AUTH_FAIL_THRESHOLD
  }

  /** No window of `key` is open at `t`, or it opened just then, or one more failure makes five. */
  predicate Sharp(s: Tracker, key: string, t: int) {
    key !in s.failures || Stale(s.failures[key], t) || s.failures[key].firstSeen == t
    || s.failures[key].count == AUTH_FAIL_THRESHOLD - 1
  }

  /** The window of `key` opened at `t` and has counted `n` failures or more. */
  predicate CountsFrom(s: Tracker, key: string, t: int, n: nat) {
    key in s.failures && s.failures[key].firstSeen == t && s.failures[key].count >= n
  }

  lemma FirstOfFive(cfg: Config, s: Tracker, s': Tracker, reply: Reply, key: string, t: int)
    requires Step(cfg, s, RecordFailure(key, t), s', reply) && cfg.ttl > 0 && reply != Flag(true)
    requires !Evicts(cfg, s, RecordFailure(key, t), s', key)
    requires key in s.failures ==> 1 <= s.failures[key].count
    requires Sharp(s, key, t)
    ensures CountsFrom(s', key, t, 1)
  {
    KeptWindow(cfg, s, RecordFailure(key, t), s', reply, key);
  }

  lemma NextOfFive(cfg: Config, s: Tracker, call: Call, s': Tracker, reply: Reply, key: string, t: int, n: nat)
    requires Step(cfg, s, call, s', reply) && cfg.ttl > 0 && !Evicts(cfg, s, call, s', key)
    requires IsFailureOf(call, key) ==> reply != Flag(true)
    requires 0 < t <= call.now <= t + MINUTE && CountsFrom(s, key, t, n)
    ensures CountsFrom(s', key, t, n + if IsFailureOf(call, key) then 1 else 0)
  {
    hide Step, Evicts;
    KeptWindow(cfg, s, call, s', reply, key);
  }

  lemma {:induction false} CountsAlong(cfg: Config, r: Run, key: string, t: int, a: nat, i: nat, b: nat)
    requires Valid(cfg, r) && cfg.ttl > 0 && a < i <= b + 1 && b < |r.calls|
    requires Sharp(r.states[a], key, t) && FiveFrom(cfg, r, a, b, key, t) && !BansWithin(r, key, a, b)
    ensures CountsFrom(r.states[i], key, t, Failures(r.calls[a..i], key))
  {
    hide Step, Failures, Valid, Inv, Evicts, Sharp, CountsFrom;
    StepAt(cfg, r, i - 1);
    FailuresNext(r.calls, key, a, i - 1);
    assert !BansAt(r, i - 1, key);
    assert !Evicts(cfg, r.states[i - 1], r.calls[i - 1], r.states[i], key);
    if i == a + 1 {
      InvAlways(cfg, r, a);
      InvWindows(cfg, r.states[a], Clock(r, a), key);
      FirstOfFive(cfg, r.states[a], r.states[i], r.replies[a], key, t);
    } else {
      CountsAlong(cfg, r, key, t, a, i - 1, b);
      InStretch(cfg, r, a, i - 1, b);
      NextOfFive(cfg, r.states[i - 1], r.calls[i - 1], r.states[i], r.replies[i - 1], key, t,
        Failures(r.calls[a..i - 1], key));
    }
  }

  lemma SharpBans(cfg: Config, r: Run, key: string, t: int, a: nat, b: nat)
    requires Valid(cfg, r) && cfg.ttl > 0
    requires FiveFrom(cfg, r, a, b, key, t) && Sharp(r.states[a], key, t)
    ensures BansWithin(r, key, a, b)
  {
    hide Step, Failures, Valid, Inv, Sharp, Kept;
    StepAt(cfg, r, a);
    if !BansWithin(r, key, a, b) {
      CountsAlong(cfg, r, key, t, a, b + 1, b);
      InvAlways(cfg, r, b + 1);
      InvWindows(cfg, r.states[b + 1], Clock(r, b + 1), key);
    }
  }

  /** The run with one more failure of `key`, which throws nothing out. */
  function WithFailure(ttl: int, r: Run, key: string, now: int): Run
    requires |r.states| == |r.calls| + 1
  {
    var (s, banned) := Recorded(ttl, r.states[|r.calls|], key, now);
    Run(r.states + [s], r.calls + [RecordFailure(key, now)], r.replies + [Flag(banned)])
  }

  lemma WithFailureValid(cfg: Config, r: Run, key: string, now: int)
    requires Valid(cfg, r) && cfg.ttl > 0 && 0 < now && Clock(r, |r.calls|) <= now
    requires key in r.states[|r.calls|].failures
    ensures Valid(cfg, WithFailure(cfg.ttl, r, key, now))
    ensures var s := r.states[|r.calls|];
            !Evicts(cfg, s, RecordFailure(key, now), Recorded(cfg.ttl, s, key, now).0, key)
  {
    hide Step, Inv, Recorded, Valid;
    var n := |r.calls|;
    Lengths(cfg, r);
    InvAlways(cfg, r, n);
    RecordedNoLarger(cfg, r.states[n], key, now, Clock(r, n));
    var (s, banned) := Recorded(cfg.ttl, r.states[n], key, now);
    OneMoreCall(cfg, r, RecordFailure(key, now), s, Flag(banned));
  }

  /** A failure of a key that has a window needs no room. */
  lemma RecordedNoLarger(cfg: Config, s: Tracker, key: string, now: int, before: int)
    requires Inv(cfg, s, before) && cfg.ttl > 0 && key in s.failures
    ensures var (r, banned) := Recorded(cfg.ttl, s, key, now);
            Step(cfg, s, RecordFailure(key, now), r, Flag(banned))
  {
    var (r, banned) := Recorded(cfg.ttl, s, key, now);
    RecordedFits(cfg.ttl, s, key, now);
    NothingTrimmed(r, cfg.maxKeys);
    hide Trimmed, Inv;
  }

  lemma RecordedFits(ttl: int, s: Tracker, key: string, now: int)
    requires key in s.failures
    ensures Recorded(ttl, s, key, now).0.Size() <= s.Size()
  {
    var p, r := Prune(s, now), Recorded(ttl, s, key, now).0;
    if key in r.failures {
      KeepSize(s.failures, r.failures);
    } else {
      assert r.failures.Keys <= s.failures.Keys - {key};
      SubsetSize(r.failures.Keys, s.failures.Keys - {key});
    }
    KeepSize(s.bannedTil, p.bannedTil);
  }

  lemma NothingTrimmed(r: Tracker, maxKeys: int)
    requires maxKeys > 0 ==> r.Size() <= maxKeys
    ensures Trimmed(r, r, maxKeys)
  {
  }

  /** `r` is `z` and then only failures of `key`, none of which bans or evicts. */
  ghost predicate Quiet(cfg: Config, r: Run, z: Run, key: string) {
    && Valid(cfg, r) && Extends(r, z)
    && forall i | |z.calls| <= i < |r.calls| ::
         IsFailureOf(r.calls[i], key) && r.replies[i] == Flag(false)
         && !Evicts(cfg, r.states[i], r.calls[i], r.states[i + 1], key)
  }

  /** The window of `key` in the last state of a run. */
  predicate EndsWith(r: Run, key: string, f: Failure) {
    r.states != [] && key in r.states[|r.states| - 1].failures && r.states[|r.states| - 1].failures[key] == f
  }

  lemma RecordedWindow(ttl: int, s: Tracker, key: string, now: int)
    requires key in s.failures && (Stale(s.failures[key], now) || s.failures[key].count < AUTH_FAIL_THRESHOLD - 1)
    ensures var f := s.failures[key]; var (r, banned) := Recorded(ttl, s, key, now);
            && !banned && key in r.failures
            && r.failures[key] == if Stale(f, now) then Failure(1, now) else Failure(f.count + 1, f.firstSeen)
  {
  }

  lemma QuietNext(cfg: Config, r: Run, z: Run, key: string, f: Failure, now: int)
    requires Quiet(cfg, r, z, key) && cfg.ttl > 0 && 0 < now && Clock(r, |r.calls|) <= now
    requires EndsWith(r, key, f) && (Stale(f, now) || f.count < AUTH_FAIL_THRESHOLD - 1)
    ensures |r.states| == |r.calls| + 1
    ensures var r' := WithFailure(cfg.ttl, r, key, now);
            && Quiet(cfg, r', z, key) && r'.calls == r.calls + [RecordFailure(key, now)]
            && EndsWith(r', key, if Stale(f, now) then Failure(1, now) else Failure(f.count + 1, f.firstSeen))
  {
    hide Valid, Recorded, Stale, Evicts;
    Lengths(cfg, r);
    WithFailureValid(cfg, r, key, now);
    RecordedWindow(cfg.ttl, r.states[|r.calls|], key, now);
  }

  /** `n` failures at `now` that start a new window and do not fill it. */
  lemma {:induction false} QuietWindow(cfg: Config, r: Run, z: Run, key: string, f: Failure, now: int, n: nat)
    returns (q: Run)
    requires Quiet(cfg, r, z, key) && cfg.ttl > 0 && 0 < now && Clock(r, |r.calls|) <= now
    requires EndsWith(r, key, f) && Stale(f, now) && 1 <= n < AUTH_FAIL_THRESHOLD
    ensures Quiet(cfg, q, z, key) && EndsWith(q, key, Failure(n, now))
    ensures |q.calls| == |r.calls| + n && r.calls <= q.calls && q.calls[|q.calls| - 1].now == now
  {
    hide Quiet, EndsWith, WithFailure;
    if n == 1 {
      QuietNext(cfg, r, z, key, f, now);
      q := WithFailure(cfg.ttl, r, key, now);
    } else {
      var p := QuietWindow(cfg, r, z, key, f, now, n - 1);
      QuietNext(cfg, p, z, key, Failure(n - 1, now), now);
      q := WithFailure(cfg.ttl, p, key, now);
    }
  }

  /** A window that opened before `t` with room for one more: it closes, and four failures open the next. */
  lemma BluntNeedNotBan(cfg: Config, z: Run, key: string, t: int) returns (r: Run)
    requires Valid(cfg, z) && cfg.ttl > 0 && 0 < t && Clock(z, |z.calls|) <= t
    requires !Sharp(z.states[|z.calls|], key, t)
    ensures Valid(cfg, r) && Extends(r, z) && |r.calls| == |z.calls| + 5
    ensures FiveFrom(cfg, r, |z.calls|, |z.calls| + 4, key, t) && !BansWithin(r, key, |z.calls|, |z.calls| + 4)
  {
    var a := |z.calls|;
    var f := z.states[a].failures[key];
    Lengths(cfg, z);
    InvAlways(cfg, z, a);
    InvWindows(cfg, z.states[a], Clock(z, a), key);
    QuietNext(cfg, z, z, key, f, t);
    var one := WithFailure(cfg.ttl, z, key, t);
    r := QuietWindow(cfg, one, z, key, Failure(f.count + 1, f.firstSeen), t + MINUTE, 4);
    FiveQuiet(cfg, r, z, key, t);
  }

  lemma FiveQuiet(cfg: Config, r: Run, z: Run, key: string, t: int)
    requires Quiet(cfg, r, z, key) && |r.calls| == |z.calls| + 5
    requires r.calls[|z.calls|] == RecordFailure(key, t) && r.calls[|z.calls| + 4].now == t + MINUTE
    ensures FiveFrom(cfg, r, |z.calls|, |z.calls| + 4, key, t) && !BansWithin(r, key, |z.calls|, |z.calls| + 4)
  {
    hide Step, Failures, Evicts;
    AllFailures(r.calls, key, |z.calls|, |z.calls| + 5);
  }

  /**
   * For any capacity limit, and known before the first of them at `t`: five failures of a
   * key within a minute of `t`, its window not evicted meanwhile, are sure to lead to a ban
   * if and only if at `t` the key has no open window, or one that opened at `t`, or one
   * that has already counted four.
   */
  lemma FiveBanExactly(cfg: Config, z: Run, key: string, t: int)
    requires Valid(cfg, z) && cfg.ttl > 0 && 0 < t && Clock(z, |z.calls|) <= t
    ensures FiveAlwaysBan(cfg, z, key, t) <==> Sharp(z.states[|z.calls|], key, t)
  {
    hide Step, Sharp, FiveFrom;
    Lengths(cfg, z);
    if Sharp(z.states[|z.calls|], key, t) {
      forall r: Run, b: nat | Valid(cfg, r) && Extends(r, z) && FiveFrom(cfg, r, |z.calls|, b, key, t)
        ensures BansWithin(r, key, |z.calls|, b)
      {
        Lengths(cfg, r);
        assert r.states[|z.calls|] == z.states[|z.calls|];
        SharpBans(cfg, r, key, t, |z.calls|, b);
      }
    } else {
      var r := BluntNeedNotBan(cfg, z, key, t);
      assert Valid(cfg, r) && Extends(r, z) && FiveFrom(cfg, r, |z.calls|, |z.calls| + 4, key, t);
    }
  }
}
