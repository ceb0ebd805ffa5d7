/** Whole runs of the rate limiter against the full history of accepted events. */
module RateRuns {
  import opened Base
  import opened Rates

  datatype Call = Call(key: string, now: int)

  datatype Run = Run(states: seq<Limiter>, calls: seq<Call>, oks: seq<bool>, evicted: seq<Option<string>>)

  ghost predicate StepAt(cfg: Config, r: Run, i: nat)
    requires i < |r.calls| == |r.oks| == |r.evicted| && |r.states| == |r.calls| + 1
  {
    Step(cfg, r.states[i], r.calls[i].key, r.calls[i].now, r.states[i + 1], r.oks[i], r.evicted[i])
  }

  ghost predicate Valid(cfg: Config, r: Run) {
    && |r.states| == |r.calls| + 1 && |r.oks| == |r.calls| == |r.evicted|
    && r.states[0] == EMPTY
    && (forall i: nat | i < |r.calls| :: StepAt(cfg, r, i))
    && (forall i, j | 0 <= i < j < |r.calls| :: r.calls[i].now <= r.calls[j].now)
  }

  lemma Facts(cfg: Config, r: Run, i: nat)
    requires Valid(cfg, r) && i < |r.calls|
    ensures |r.states| == |r.calls| + 1 && |r.oks| == |r.calls| == |r.evicted|
    ensures Step(cfg, r.states[i], r.calls[i].key, r.calls[i].now, r.states[i + 1], r.oks[i], r.evicted[i])
    ensures i > 0 ==> r.calls[i - 1].now <= r.calls[i].now
  {
    assert StepAt(cfg, r, i);
  }

  lemma NeverEvicts(cfg: Config, r: Run, k: nat)
    requires Valid(cfg, r) && k < |r.calls| && cfg.maxKeys <= 0
    ensures r.evicted[k] == None
  {
    Facts(cfg, r, k);
  }

  lemma {:induction false} ShapeAlways(cfg: Config, r: Run, i: nat, t: int)
    requires Valid(cfg, r) && i <= |r.calls| && (i > 0 ==> t == r.calls[i - 1].now)
    ensures Shape(cfg, r.states[i], t)
  {
    hide Step, Shape;
    if i > 0 {
      Facts(cfg, r, i - 1);
      var before := if i > 1 then r.calls[i - 2].now else t;
      ShapeAlways(cfg, r, i - 1, before);
      StepShape(cfg, r.states[i - 1], r.calls[i - 1].key, t, r.states[i], r.oks[i - 1], r.evicted[i - 1], before);
    } else {
      EmptyShape(cfg, t);
    }
  }

  lemma EmptyShape(cfg: Config, t: int)
    ensures Shape(cfg, EMPTY, t)
  {
  }

  /** Every event of `key` accepted by the first `i` calls. */
  function History(r: Run, i: nat, key: string): seq<int>
    requires i <= |r.calls| == |r.oks|
  {
    if i == 0 then []
    else History(r, i - 1, key) + if r.calls[i - 1].key == key && r.oks[i - 1] then [r.calls[i - 1].now] else []
  }

  /** Every event of `key` accepted since the key was last evicted. */
  function Memory(r: Run, i: nat, key: string): seq<int>
    requires i <= |r.calls| == |r.oks| == |r.evicted|
  {
    if i == 0 || r.evicted[i - 1] == Some(key) then []
    else Memory(r, i - 1, key) + if r.calls[i - 1].key == key && r.oks[i - 1] then [r.calls[i - 1].now] else []
  }

  lemma {:induction false} NotEvictedMemory(r: Run, i: nat, key: string)
    requires i <= |r.calls| == |r.oks| == |r.evicted|
    requires forall k: nat | k < i :: r.evicted[k] != Some(key)
    ensures Memory(r, i, key) == History(r, i, key)
  {
    if i > 0 {
      NotEvictedMemory(r, i - 1, key);
    }
  }

  /** Dropping what is out of the window first makes no difference to what a later cutoff sees. */
  lemma TracksOne(list: seq<int>, memory: seq<int>, d: int, c: int, now: int, ok: bool)
    requires After(list, c) == After(memory, c) && d <= c
    ensures After(After(list, d) + if ok then [now] else [], c) == After(memory + if ok then [now] else [], c)
  {
    hide After;
    AfterAfter(list, d, c);
    AfterAppend(memory, now, c);
    AfterAppend(After(list, d), now, c);
    assert memory + [] == memory;
    assert After(list, d) + [] == After(list, d);
  }

  /** One call moves the remembered and the full list of `key` in step, beyond any later cutoff. */
  lemma TracksStep(cfg: Config, s: Limiter, call: Call, s': Limiter, ok: bool, evicted: Option<string>,
                   key: string, memory: seq<int>, c: int)
    requires Step(cfg, s, call.key, call.now, s', ok, evicted) && call.now - cfg.window <= c
    requires After(EventsOf(s, key), c) == After(memory, c)
    ensures After(EventsOf(s', key), c) ==
              After(if evicted == Some(key) then [] else memory + if call.key == key && ok then [call.now] else [], c)
  {
    hide Step, EventsOf, After;
    var list, d := EventsOf(s, key), call.now - cfg.window;
    OwnAfterCall(cfg, s, call.key, call.now, s', ok, evicted);
    TracksOne(list, memory, d, c, call.now, call.key == key && ok);
    if key != call.key && evicted != Some(key) {
      OthersOnlyPruned(cfg, s, call.key, call.now, s', ok, evicted, key);
      assert After(list, d) + [] == After(list, d);
    }
  }

  lemma {:induction false} Tracks(cfg: Config, r: Run, i: nat, key: string, c: int)
    requires Valid(cfg, r) && i <= |r.calls|
    requires i > 0 ==> r.calls[i - 1].now - cfg.window <= c
    ensures After(EventsOf(r.states[i], key), c) == After(Memory(r, i, key), c)
  {
    hide Step, After;
    if i > 0 {
      Facts(cfg, r, i - 1);
      if i > 1 {
        Facts(cfg, r, i - 2);
      }
      Tracks(cfg, r, i - 1, key, c);
      TracksStep(cfg, r.states[i - 1], r.calls[i - 1], r.states[i], r.oks[i - 1], r.evicted[i - 1],
        key, Memory(r, i - 1, key), c);
    }
  }

  /**
   * Allow says yes exactly when fewer than `limit` of the events accepted for this
   * key, since it was last evicted, lie inside the window that ends now.
   */
  lemma AllowsExactly(cfg: Config, r: Run, i: nat)
    requires Valid(cfg, r) && i < |r.calls|
    ensures r.oks[i] <==>
              |After(Memory(r, i, r.calls[i].key), r.calls[i].now - cfg.window)| < cfg.limit
  {
    hide Step, After, Memory;
    var key, now := r.calls[i].key, r.calls[i].now;
    Facts(cfg, r, i);
    Tracks(cfg, r, i, key, now - cfg.window);
    OwnAfterCall(cfg, r.states[i], key, now, r.states[i + 1], r.oks[i], r.evicted[i]);
  }

  /** How many of the times lie in the interval that excludes `lo` and includes `hi`. */
  function CountIn(ts: seq<int>, lo: int, hi: int): nat {
    if ts == [] then 0
    else
      var n := |ts| - 1;
      CountIn(ts[..n], lo, hi) + if lo < ts[n] <= hi then 1 else 0
  }

  lemma {:induction false} CountInAtMost(ts: seq<int>, lo: int, hi: int)
    ensures CountIn(ts, lo, hi) <= |After(ts, lo)|
  {
    if ts != [] {
      CountInAtMost(ts[..|ts| - 1], lo, hi);
    }
  }

  lemma CountInAppend(ts: seq<int>, t: int, lo: int, hi: int)
    ensures CountIn(ts + [t], lo, hi) == CountIn(ts, lo, hi) + if lo < t <= hi then 1 else 0
  {
    assert (ts + [t])[..|ts|] == ts;
  }

  lemma AcceptedInWindow(cfg: Config, r: Run, i: nat, key: string, T: int)
    requires Valid(cfg, r) && i < |r.calls| && r.calls[i].key == key && r.oks[i]
    requires T - cfg.window < r.calls[i].now <= T
    ensures CountIn(Memory(r, i, key), T - cfg.window, T) < cfg.limit
  {
    hide After, Step, Memory, CountIn;
    var m := Memory(r, i, key);
    AllowsExactly(cfg, r, i);
    CountInAtMost(m, T - cfg.window, T);
    AfterShrinks(m, r.calls[i].now - cfg.window, T - cfg.window);
  }

  /** However an interval one window long is placed, at most `limit` remembered events lie in it. */
  lemma {:induction false} WindowBound(cfg: Config, r: Run, i: nat, key: string, T: int)
    requires Valid(cfg, r) && i <= |r.calls| && cfg.limit > 0
    ensures CountIn(Memory(r, i, key), T - cfg.window, T) <= cfg.limit
  {
    hide Valid, After, Step;
    if i > 0 {
      Facts(cfg, r, i - 1);
      WindowBound(cfg, r, i - 1, key, T);
      var now, m := r.calls[i - 1].now, Memory(r, i - 1, key);
      CountInAppend(m, now, T - cfg.window, T);
      assert m + [] == m;
      if r.calls[i - 1].key == key && r.oks[i - 1] && T - cfg.window < now <= T {
        AcceptedInWindow(cfg, r, i - 1, key, T);
      }
      hide CountIn;
    }
  }

  /**
   * The promise of the limiter: as long as a key is not evicted, at most `limit` of
   * its events are accepted in any interval one window long, wherever it ends.
   */
  lemma AtMostLimitPerWindow(cfg: Config, r: Run, i: nat, key: string, T: int)
    requires Valid(cfg, r) && i <= |r.calls| && cfg.limit > 0
    requires forall k: nat | k < i :: r.evicted[k] != Some(key)
    ensures CountIn(History(r, i, key), T - cfg.window, T) <= cfg.limit
  {
    hide Step;
    WindowBound(cfg, r, i, key, T);
    NotEvictedMemory(r, i, key);
  }
}
