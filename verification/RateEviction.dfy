/**
 * Why the limiter's promise needs "not evicted": with any capacity limit at all,
 * other keys can push a key out and let it start again inside the same window.
 */
module RateEviction {
  import opened Base
  import opened Rates
  import opened RateRuns

  function Ones(n: nat): seq<int> {
    seq(n, _ => 1)
  }

  /** `V` accepted `c` times and then `n` other keys once each, all at time 1. */
  function Crowd(c: nat, n: nat): Limiter {
    if n > 0 then Accepted(Crowd(c, n - 1), Other(n - 1), 1)
    else if c == 0 then EMPTY
    else Limiter(map[V := Ones(c)], map[V := 1])
  }

  lemma {:induction false} CrowdKeys(c: nat, n: nat)
    ensures var s := Crowd(c, n);
            && s.events.Keys == s.lastSeen.Keys == Others(n) + (if c > 0 then {V} else {})
            && (forall k <- s.lastSeen :: s.lastSeen[k] == 1)
            && |EventsOf(s, V)| == c
  {
    if n > 0 {
      CrowdKeys(c, n - 1);
    }
  }

  lemma CrowdSize(c: nat, n: nat)
    ensures |Crowd(c, n).events| == n + if c > 0 then 1 else 0
    ensures Other(n) !in Crowd(c, n).events
  {
    CrowdKeys(c, n);
    OthersCounted(n);
    hide Crowd, Others;
  }

  /** A prune at `cutoff` has nothing to drop. */
  ghost predicate Untouched(s: Limiter, cutoff: int) {
    && s.lastSeen.Keys == s.events.Keys
    && (forall k <- s.events :: s.events[k] != [] && After(s.events[k], cutoff) == s.events[k])
    && (forall k <- s.events :: s.lastSeen[k] == Last(s.events[k]))
  }

  lemma {:induction false} AfterOnes(n: nat, cutoff: int)
    requires cutoff < 1
    ensures After(Ones(n), cutoff) == Ones(n)
  {
    if n > 0 {
      AfterOnes(n - 1, cutoff);
      assert Ones(n)[..n - 1] == Ones(n - 1);
    }
  }

  lemma UntouchedAccept(s: Limiter, key: string, cutoff: int)
    requires Untouched(s, cutoff) && key !in s.events && cutoff < 1
    ensures Untouched(Accepted(s, key, 1), cutoff)
  {
    AfterOnes(1, cutoff);
    assert Ones(1) == [1];
    hide After, Ones;
    assert Accepted(s, key, 1).events[key] == [1];
  }

  lemma {:induction false} CrowdUntouched(c: nat, n: nat, cutoff: int)
    requires cutoff < 1
    ensures Untouched(Crowd(c, n), cutoff)
  {
    if n > 0 {
      CrowdUntouched(c, n - 1, cutoff);
      CrowdSize(c, n - 1);
      UntouchedAccept(Crowd(c, n - 1), Other(n - 1), cutoff);
    } else {
      AfterOnes(c, cutoff);
    }
  }

  lemma UntouchedPrune(s: Limiter, cutoff: int)
    requires Untouched(s, cutoff)
    ensures Prune(s, cutoff) == s
  {
    assert Prune(s, cutoff).events == s.events;
    assert Prune(s, cutoff).lastSeen == s.lastSeen;
  }

  /** With nothing to prune and room in the window, a call only has to look at the capacity. */
  lemma PlainStep(cfg: Config, s: Limiter, key: string, victim: string)
    requires Untouched(s, 1 - cfg.window) && |EventsOf(s, key)| < cfg.limit && cfg.maxKeys > 0
    ensures var q := Accepted(s, key, 1);
            if |q.events| <= cfg.maxKeys then Step(cfg, s, key, 1, q, true, None)
            else LeastRecent(q, victim) ==> Step(cfg, s, key, 1, Forget(q, victim), true, Some(victim))
  {
    hide Prune, Untouched, Accepted, Forget, LeastRecent, EventsOf;
    UntouchedPrune(s, 1 - cfg.window);
  }

  lemma ForgetAccepted(s: Limiter, key: string, gone: string)
    requires key != gone
    ensures Forget(Accepted(s, key, 1), gone) == Accepted(Forget(s, gone), key, 1)
  {
    assert Forget(Accepted(s, key, 1), gone).events == Accepted(Forget(s, gone), key, 1).events;
    assert Forget(Accepted(s, key, 1), gone).lastSeen == Accepted(Forget(s, gone), key, 1).lastSeen;
  }

  lemma {:induction false} ForgetV(c: nat, n: nat)
    ensures Forget(Crowd(c, n), V) == Crowd(0, n)
  {
    if n > 0 {
      ForgetV(c, n - 1);
      assert Other(n - 1) != V;
      ForgetAccepted(Crowd(c, n - 1), Other(n - 1), V);
    }
  }

  /** `limit` events of `V`, one event each of `maxKeys` other keys, one more event of `V`. */
  function CallAt(cfg: Config, i: nat): Call {
    Call(if cfg.limit <= i < cfg.limit + cfg.maxKeys then Other(i - cfg.limit) else V, 1)
  }

  function EvictedAt(cfg: Config, i: nat): Option<string> {
    if i == cfg.limit + cfg.maxKeys - 1 then Some(V)
    else if i == cfg.limit + cfg.maxKeys then Some(Other(0))
    else None
  }

  function StateAt(cfg: Config, i: nat): Limiter
    requires cfg.limit > 0 && cfg.maxKeys > 0
  {
    if i <= cfg.limit then Crowd(i, 0)
    else if i < cfg.limit + cfg.maxKeys then Crowd(cfg.limit, i - cfg.limit)
    else if i == cfg.limit + cfg.maxKeys then Crowd(0, cfg.maxKeys)
    else Forget(Accepted(Crowd(0, cfg.maxKeys), V, 1), Other(0))
  }

  function Overrun(cfg: Config): Run
    requires cfg.limit > 0 && cfg.maxKeys > 0
  {
    var n := cfg.limit + cfg.maxKeys + 1;
    Run(seq(n + 1, i requires 0 <= i => StateAt(cfg, i)), seq(n, i requires 0 <= i => CallAt(cfg, i)),
      seq(n, _ => true), seq(n, i requires 0 <= i => EvictedAt(cfg, i)))
  }

  lemma AcceptedV(i: nat)
    ensures Accepted(Crowd(i, 0), V, 1) == Crowd(i + 1, 0)
  {
    assert Ones(i) + [1] == Ones(i + 1);
  }

  lemma EarlyStep(cfg: Config, i: nat)
    requires cfg.limit > 0 && cfg.maxKeys > 0 && cfg.window > 0 && i < cfg.limit
    ensures Step(cfg, Crowd(i, 0), V, 1, Crowd(i + 1, 0), true, None)
  {
    hide Step, Crowd, Accepted, Untouched, Others;
    AcceptedV(i);
    CrowdSize(i + 1, 0);
    CrowdKeys(i, 0);
    CrowdUntouched(i, 0, 1 - cfg.window);
    PlainStep(cfg, Crowd(i, 0), V, V);
  }

  lemma CrowdingStep(cfg: Config, n: nat)
    requires cfg.limit > 0 && cfg.window > 0 && n < cfg.maxKeys
    ensures n < cfg.maxKeys - 1 ==>
              Step(cfg, Crowd(cfg.limit, n), Other(n), 1, Crowd(cfg.limit, n + 1), true, None)
    ensures n == cfg.maxKeys - 1 ==>
              Step(cfg, Crowd(cfg.limit, n), Other(n), 1, Crowd(0, n + 1), true, Some(V))
  {
    hide Step, Accepted, Forget, Others, Untouched;
    CrowdSize(cfg.limit, n);
    CrowdSize(cfg.limit, n + 1);
    CrowdKeys(cfg.limit, n + 1);
    ForgetV(cfg.limit, n + 1);
    CrowdUntouched(cfg.limit, n, 1 - cfg.window);
    PlainStep(cfg, Crowd(cfg.limit, n), Other(n), V);
  }

  lemma ReturnStep(cfg: Config)
    requires cfg.limit > 0 && cfg.maxKeys > 0 && cfg.window > 0
    ensures var s := Crowd(0, cfg.maxKeys);
            Step(cfg, s, V, 1, Forget(Accepted(s, V, 1), Other(0)), true, Some(Other(0)))
  {
    var m := cfg.maxKeys;
    hide Step, Forget, Others, Crowd, Untouched;
    CrowdUntouched(0, m, 1 - cfg.window);
    CrowdSize(0, m);
    CrowdKeys(0, m);
    OthersCounted(m);
    PlainStep(cfg, Crowd(0, m), V, Other(0));
  }

  lemma OverrunStep(cfg: Config, i: nat)
    requires cfg.limit > 0 && cfg.maxKeys > 0 && cfg.window > 0 && i <= cfg.limit + cfg.maxKeys
    ensures Step(cfg, StateAt(cfg, i), CallAt(cfg, i).key, 1, StateAt(cfg, i + 1), true, EvictedAt(cfg, i))
  {
    hide Step, Crowd, Accepted, Forget;
    if i < cfg.limit {
      EarlyStep(cfg, i);
    } else if i < cfg.limit + cfg.maxKeys {
      CrowdingStep(cfg, i - cfg.limit);
    } else {
      ReturnStep(cfg);
    }
  }

  lemma {:induction false} OverrunHistory(cfg: Config, i: nat)
    requires cfg.limit > 0 && cfg.maxKeys > 0 && i <= cfg.limit + cfg.maxKeys
    ensures History(Overrun(cfg), i, V) == Ones(if i <= cfg.limit then i else cfg.limit)
  {
    if i > 0 {
      OverrunHistory(cfg, i - 1);
    }
  }

  lemma {:induction false} CountOnes(n: nat, lo: int, hi: int)
    requires lo < 1 <= hi
    ensures CountIn(Ones(n), lo, hi) == n
  {
    if n > 0 {
      CountOnes(n - 1, lo, hi);
      assert Ones(n)[..n - 1] == Ones(n - 1);
    }
  }

  lemma OverrunValid(cfg: Config)
    requires cfg.limit > 0 && cfg.maxKeys > 0 && cfg.window > 0
    ensures Valid(cfg, Overrun(cfg))
  {
    var r := Overrun(cfg);
    assert StateAt(cfg, 0) == EMPTY;
    hide Step, StateAt, CallAt, EvictedAt, Crowd, Accepted, Forget, Other;
    assert r.states[0] == EMPTY;
    forall i: nat | i < |r.calls|
      ensures StepAt(cfg, r, i)
    {
      OverrunStep(cfg, i);
    }
  }

  ghost predicate Bounded(cfg: Config, r: Run, key: string, T: int)
    requires |r.calls| == |r.oks|
  {
    CountIn(History(r, |r.calls|, key), T - cfg.window, T) <= cfg.limit
  }

  ghost predicate AlwaysBounded(cfg: Config) {
    forall r: Run, key: string, T: int | Valid(cfg, r) :: Bounded(cfg, r, key, T)
  }

  /**
   * In every run every key keeps to `limit` events in every interval one window
   * long, if and only if the limiter has no capacity limit.
   */
  lemma BoundedIffUncapped(cfg: Config)
    requires cfg.limit > 0 && cfg.window > 0
    ensures AlwaysBounded(cfg) <==> cfg.maxKeys <= 0
  {
    hide Step, CountIn, History;
    if cfg.maxKeys <= 0 {
      forall r: Run, key: string, T: int | Valid(cfg, r)
        ensures Bounded(cfg, r, key, T)
      {
        forall k: nat | k < |r.calls|
          ensures r.evicted[k] != Some(key)
        {
          NeverEvicts(cfg, r, k);
        }
        AtMostLimitPerWindow(cfg, r, |r.calls|, key, T);
      }
    } else {
      OverrunValid(cfg);
      OverrunTooMany(cfg);
      assert !Bounded(cfg, Overrun(cfg), V, 1);
    }
  }

  lemma OverrunTooMany(cfg: Config)
    requires cfg.limit > 0 && cfg.maxKeys > 0 && cfg.window > 0
    ensures var r := Overrun(cfg); CountIn(History(r, |r.calls|, V), 1 - cfg.window, 1) == cfg.limit + 1
  {
    hide CountIn, StateAt, EvictedAt;
    var r := Overrun(cfg);
    OverrunHistory(cfg, |r.calls| - 1);
    assert Ones(cfg.limit) + [1] == Ones(cfg.limit + 1);
    CountOnes(cfg.limit + 1, 1 - cfg.window, 1);
  }
}
