/**
 * Whole runs of the ban tracker: any calls, in any order, for any keys, with a
 * clock that does not run backwards.
 */
module BanRuns {
  import opened Base
  import opened Bans

  datatype Run = Run(states: seq<Tracker>, calls: seq<Call>, replies: seq<Reply>)

  ghost predicate Valid(cfg: Config, r: Run) {
    && |r.states| == |r.calls| + 1 && |r.replies| == |r.calls|
    && r.states[0] == EMPTY
    && (forall i | 0 <= i < |r.calls| :: Step(cfg, r.states[i], r.calls[i], r.states[i + 1], r.replies[i]))
    && (forall i | 0 <= i < |r.calls| :: 0 < r.calls[i].now)
    && (forall i, j | 0 <= i < j < |r.calls| :: r.calls[i].now <= r.calls[j].now)
  }

  /** The time of the last call before state `i`. */
  function Clock(r: Run, i: nat): int
    requires i <= |r.calls|
  {
    if i == 0 then 0 else r.calls[i - 1].now
  }

  predicate IsFailureOf(c: Call, key: string) {
    c.RecordFailure? && c.key == key
  }

  /** How many failures of `key` a stretch of calls records. */
  function Failures(calls: seq<Call>, key: string): nat {
    if calls == [] then 0
    else Failures(calls[..|calls| - 1], key) + if IsFailureOf(calls[|calls| - 1], key) then 1 else 0
  }

  lemma FailuresNext(calls: seq<Call>, key: string, a: nat, i: nat)
    requires a <= i < |calls|
    ensures Failures(calls[a..a], key) == 0
    ensures Failures(calls[a..i + 1], key) == Failures(calls[a..i], key) + if IsFailureOf(calls[i], key) then 1 else 0
  {
    assert calls[a..i + 1][..i - a] == calls[a..i];
  }

  /** What the calls' shape and a valid run say about one call. */
  lemma StepAt(cfg: Config, r: Run, i: nat)
    requires Valid(cfg, r) && i < |r.calls|
    ensures Step(cfg, r.states[i], r.calls[i], r.states[i + 1], r.replies[i])
    ensures 0 < r.calls[i].now && Clock(r, i) <= r.calls[i].now == Clock(r, i + 1)
    ensures |r.states| == |r.calls| + 1 && |r.replies| == |r.calls|
  {
  }

  lemma Lengths(cfg: Config, r: Run)
    requires Valid(cfg, r)
    ensures |r.states| == |r.calls| + 1 && |r.replies| == |r.calls| && r.states[0] == EMPTY
  {
  }

  lemma ClockOrder(cfg: Config, r: Run, i: nat, j: nat)
    requires Valid(cfg, r) && i <= j <= |r.calls|
    ensures 0 <= Clock(r, i) <= Clock(r, j)
  {
    if 0 < i < j {
      assert r.calls[i - 1].now <= r.calls[j - 1].now;
    }
  }

  lemma OneMoreCall(cfg: Config, r: Run, call: Call, s': Tracker, reply: Reply)
    requires Valid(cfg, r) && Step(cfg, r.states[|r.calls|], call, s', reply)
    requires 0 < call.now && Clock(r, |r.calls|) <= call.now
    ensures Valid(cfg, Run(r.states + [s'], r.calls + [call], r.replies + [reply]))
  {
    hide Step;
    var n, calls := |r.calls|, r.calls + [call];
    forall i | 0 <= i < n
      ensures calls[i].now <= call.now
    {
      ClockOrder(cfg, r, i + 1, n);
    }
  }

  lemma {:induction false} InvAlways(cfg: Config, r: Run, i: nat)
    requires Valid(cfg, r) && i <= |r.calls|
    ensures Inv(cfg, r.states[i], Clock(r, i)) && 0 <= Clock(r, i)
  {
    if i > 0 {
      InvAlways(cfg, r, i - 1);
      StepAt(cfg, r, i - 1);
      StepKeepsInv(cfg, r.states[i - 1], r.calls[i - 1], r.states[i], r.replies[i - 1], Clock(r, i - 1));
    }
  }

  // ---------------------------------------------------------------------------
  // A ban lasts
  // ---------------------------------------------------------------------------

  ghost predicate BansAt(r: Run, b: nat, key: string)
    requires |r.replies| == |r.calls|
  {
    b < |r.calls| && IsFailureOf(r.calls[b], key) && r.replies[b] == Flag(true)
  }

  lemma {:induction false} BanHeld(cfg: Config, r: Run, b: nat, j: nat, key: string)
    requires Valid(cfg, r) && BansAt(r, b, key) && b < j <= |r.calls|
    requires Clock(r, j) < r.calls[b].now + cfg.ttl || j == b + 1
    ensures key in r.states[j].bannedTil && r.calls[b].now + cfg.ttl <= r.states[j].bannedTil[key]
  {
    hide Step, Inv;
    InvAlways(cfg, r, j - 1);
    StepAt(cfg, r, j - 1);
    if j == b + 1 {
      BanningStep(cfg, r.states[b], key, r.calls[b].now, r.states[j], Clock(r, b));
    } else {
      BanHeld(cfg, r, b, j - 1, key);
      StepKeepsBan(cfg, r.states[j - 1], r.calls[j - 1], r.states[j], r.replies[j - 1], Clock(r, j - 1),
        key, r.calls[b].now + cfg.ttl);
    }
  }

  lemma AnswerIsTheBan(cfg: Config, s: Tracker, call: Call, s': Tracker, reply: Reply)
    requires Step(cfg, s, call, s', reply) && call.IsBanned?
    ensures reply == Flag(true) <==> call.key in s.bannedTil && call.now < s.bannedTil[call.key]
  {
  }

  /**
   * Once a failure is answered with a ban, every question about that key is
   * answered with yes until the ban runs out, whatever the capacity limit and
   * whatever calls come in between.
   */
  lemma BanPersists(cfg: Config, r: Run, b: nat, j: nat, key: string)
    requires Valid(cfg, r) && BansAt(r, b, key) && b < j < |r.calls|
    requires r.calls[j].IsBanned? && r.calls[j].key == key && r.calls[j].now < r.calls[b].now + cfg.ttl
    ensures r.replies[j] == Flag(true)
  {
    StepAt(cfg, r, j);
    if b + 1 < j {
      StepAt(cfg, r, j - 1);
    }
    BanHeld(cfg, r, b, j, key);
    AnswerIsTheBan(cfg, r.states[j], r.calls[j], r.states[j + 1], r.replies[j]);
  }

  // ---------------------------------------------------------------------------
  // A ban is earned
  // ---------------------------------------------------------------------------

  /** The window of `key` in state `i` was opened by call `a` and has counted every failure since. */
  ghost predicate OpenedBy(r: Run, i: nat, key: string, a: nat)
    requires |r.states| == |r.calls| + 1 && |r.replies| == |r.calls| && i <= |r.calls|
  {
    && a < i && IsFailureOf(r.calls[a], key)
    && key in r.states[i].failures
    && r.states[i].failures[key] == Failure(Failures(r.calls[a..i], key), r.calls[a].now)
    && (forall k: nat | a <= k < i :: !BansAt(r, k, key))
  }

  /** Call `b` is the fifth failure of `key` since call `a` opened its window, and the first to ban. */
  ghost predicate FifthFailure(r: Run, key: string, a: nat, b: nat)
    requires |r.replies| == |r.calls|
  {
    && a < b && BansAt(r, b, key) && IsFailureOf(r.calls[a], key)
    && Failures(r.calls[a..b + 1], key) == AUTH_FAIL_THRESHOLD
    && r.calls[b].now - r.calls[a].now <= MINUTE
    && (forall k: nat | a <= k < b :: !BansAt(r, k, key))
  }

  /** What one call does to the window of one key, with or without eviction. */
  lemma WindowStep(cfg: Config, s: Tracker, call: Call, s': Tracker, reply: Reply, key: string)
    requires Step(cfg, s, call, s', reply) && key in s'.failures
    ensures if IsFailureOf(call, key) && cfg.ttl > 0 && (key !in s.failures || Stale(s.failures[key], call.now))
            then s'.failures[key] == Failure(1, call.now)
            else key in s.failures && s'.failures[key] ==
                 (if IsFailureOf(call, key) && cfg.ttl > 0
                  then Failure(s.failures[key].count + 1, s.failures[key].firstSeen) else s.failures[key])
    ensures IsFailureOf(call, key) ==> reply == Flag(false)
  {
  }

  lemma WindowGoesOn(r: Run, i: nat, key: string, a: nat)
    requires |r.states| == |r.calls| + 1 && |r.replies| == |r.calls| && i < |r.calls|
    requires OpenedBy(r, i, key, a) && key in r.states[i + 1].failures && !BansAt(r, i, key)
    requires var f := r.states[i].failures[key];
             r.states[i + 1].failures[key] ==
               if IsFailureOf(r.calls[i], key) then Failure(f.count + 1, f.firstSeen) else f
    ensures OpenedBy(r, i + 1, key, a)
  {
    FailuresNext(r.calls, key, a, i);
  }

  lemma {:induction false} WindowsCount(cfg: Config, r: Run, i: nat, key: string) returns (a: nat)
    requires Valid(cfg, r) && cfg.ttl > 0 && i <= |r.calls| && key in r.states[i].failures
    ensures OpenedBy(r, i, key, a)
  {
    hide Step, Stale;
    assert i > 0;
    var c, s := r.calls[i - 1], r.states[i - 1];
    StepAt(cfg, r, i - 1);
    hide Valid;
    WindowStep(cfg, s, c, r.states[i], r.replies[i - 1], key);
    if IsFailureOf(c, key) && (key !in s.failures || Stale(s.failures[key], c.now)) {
      a := i - 1;
      FailuresNext(r.calls, key, a, a);
    } else {
      a := WindowsCount(cfg, r, i - 1, key);
      WindowGoesOn(r, i - 1, key, a);
    }
  }

  lemma BanIsFifth(cfg: Config, r: Run, b: nat, key: string) returns (a: nat)
    requires Valid(cfg, r) && BansAt(r, b, key)
    ensures FifthFailure(r, key, a, b)
  {
    var s, now := r.states[b], r.calls[b].now;
    InvAlways(cfg, r, b);
    StepAt(cfg, r, b);
    assert Tally(Prune(s, now), key, now).count >= AUTH_FAIL_THRESHOLD;
    a := WindowsCount(cfg, r, b, key);
    FailuresNext(r.calls, key, a, b);
  }

  lemma BanStep(cfg: Config, s: Tracker, call: Call, s': Tracker, reply: Reply, key: string)
    requires Step(cfg, s, call, s', reply) && key in s'.bannedTil
    ensures if IsFailureOf(call, key) && reply == Flag(true) then s'.bannedTil[key] == call.now + cfg.ttl
            else key in s.bannedTil && s'.bannedTil[key] == s.bannedTil[key]
  {
  }

  lemma {:induction false} BansHaveCause(cfg: Config, r: Run, i: nat, key: string) returns (b: nat)
    requires Valid(cfg, r) && i <= |r.calls| && key in r.states[i].bannedTil
    ensures b < i && BansAt(r, b, key) && r.states[i].bannedTil[key] == r.calls[b].now + cfg.ttl
  {
    hide Step;
    StepAt(cfg, r, i - 1);
    BanStep(cfg, r.states[i - 1], r.calls[i - 1], r.states[i], r.replies[i - 1], key);
    if BansAt(r, i - 1, key) {
      b := i - 1;
    } else {
      b := BansHaveCause(cfg, r, i - 1, key);
    }
  }

  /**
   * The exact meaning of IsBanned, with eviction and pruning: yes, if and only if
   * some earlier failure of this key was answered with a ban that still runs.
   */
  lemma BannedExactly(cfg: Config, r: Run, j: nat)
    requires Valid(cfg, r) && j < |r.calls| && r.calls[j].IsBanned?
    ensures r.replies[j] == Flag(true) <==>
            exists b: nat :: b < j && BansAt(r, b, r.calls[j].key) && r.calls[j].now < r.calls[b].now + cfg.ttl
  {
    var key := r.calls[j].key;
    StepAt(cfg, r, j);
    AnswerIsTheBan(cfg, r.states[j], r.calls[j], r.states[j + 1], r.replies[j]);
    if r.replies[j] == Flag(true) {
      var b := BansHaveCause(cfg, r, j, key);
    }
    if b: nat :| b < j && BansAt(r, b, key) && r.calls[j].now < r.calls[b].now + cfg.ttl {
      BanPersists(cfg, r, b, j, key);
    }
  }

  /** Nobody is banned without five failures inside one minute, the fifth less than one ttl ago. */
  lemma BanSoundness(cfg: Config, r: Run, j: nat)
    requires Valid(cfg, r) && j < |r.calls| && r.calls[j].IsBanned? && r.replies[j] == Flag(true)
    ensures exists a: nat, b: nat :: FifthFailure(r, r.calls[j].key, a, b) && b < j
              && r.calls[b].now <= r.calls[j].now < r.calls[b].now + cfg.ttl
  {
    var key := r.calls[j].key;
    StepAt(cfg, r, j);
    AnswerIsTheBan(cfg, r.states[j], r.calls[j], r.states[j + 1], r.replies[j]);
    var b := BansHaveCause(cfg, r, j, key);
    var a := BanIsFifth(cfg, r, b, key);
  }
}
