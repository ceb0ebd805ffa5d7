/** The rate limiter without a capacity limit: other keys' calls do not matter. */
module RateKeys {
  import opened Base
  import opened Rates
  import opened RateRuns

  function Own(calls: seq<Call>, key: string): seq<Call> {
    if calls == [] then []
    else
      var n := |calls| - 1;
      Own(calls[..n], key) + if calls[n].key == key then [calls[n]] else []
  }

  function OwnAnswers(calls: seq<Call>, oks: seq<bool>, key: string): seq<bool>
    requires |calls| == |oks|
  {
    if calls == [] then []
    else
      var n := |calls| - 1;
      OwnAnswers(calls[..n], oks[..n], key) + if calls[n].key == key then [oks[n]] else []
  }

  function Before(r: Run): Run
    requires |r.states| == |r.calls| + 1 && |r.oks| == |r.calls| == |r.evicted| && r.calls != []
  {
    var n := |r.calls| - 1;
    Run(r.states[..n + 1], r.calls[..n], r.oks[..n], r.evicted[..n])
  }

  lemma BeforeValid(cfg: Config, r: Run)
    requires Valid(cfg, r) && r.calls != []
    ensures Valid(cfg, Before(r))
    ensures var n := |r.calls| - 1; Before(r).calls == r.calls[..n] && Before(r).oks == r.oks[..n]
  {
    hide Step;
    var b := Before(r);
    forall i: nat | i < |b.calls|
      ensures StepAt(cfg, b, i)
    {
      assert StepAt(cfg, r, i);
    }
  }

  lemma {:induction false} BeforeHistory(r: Run, i: nat, key: string)
    requires |r.states| == |r.calls| + 1 && |r.oks| == |r.calls| == |r.evicted| && i < |r.calls|
    ensures History(Before(r), i, key) == History(r, i, key)
  {
    if i > 0 {
      BeforeHistory(r, i - 1, key);
    }
  }

  lemma Lengths(cfg: Config, r: Run)
    requires Valid(cfg, r)
    ensures |r.states| == |r.calls| + 1 && |r.oks| == |r.calls| == |r.evicted|
  {
  }

  /** Without eviction an answer is a matter of the full history of the key alone. */
  lemma AnswerByHistory(cfg: Config, r: Run, i: nat)
    requires Valid(cfg, r) && i < |r.calls| && cfg.maxKeys <= 0
    ensures r.oks[i] <==>
              |After(History(r, i, r.calls[i].key), r.calls[i].now - cfg.window)| < cfg.limit
  {
    hide Step, After, History, Memory;
    forall k: nat | k < i
      ensures r.evicted[k] != Some(r.calls[i].key)
    {
      NeverEvicts(cfg, r, k);
    }
    NotEvictedMemory(r, i, r.calls[i].key);
    AllowsExactly(cfg, r, i);
  }

  /** The last of a key's calls and answers. */
  lemma OwnLast(calls: seq<Call>, oks: seq<bool>, key: string)
    requires calls != [] && |oks| == |calls|
    ensures var n := |calls| - 1; var own, answers := Own(calls[..n], key), OwnAnswers(calls[..n], oks[..n], key);
            && Own(calls, key) == (if calls[n].key == key then own + [calls[n]] else own)
            && OwnAnswers(calls, oks, key) == (if calls[n].key == key then answers + [oks[n]] else answers)
  {
  }

  lemma HistoryLast(r: Run, key: string)
    requires |r.states| == |r.calls| + 1 && |r.oks| == |r.calls| == |r.evicted| && r.calls != []
    ensures var n, h := |r.calls| - 1, History(Before(r), |r.calls| - 1, key);
            && |Before(r).calls| == n && h == History(r, n, key)
            && (r.calls[n].key != key ==> History(r, |r.calls|, key) == h)
            && (r.calls[n].key == key ==> History(r, |r.calls|, key) == h + if r.oks[n] then [r.calls[n].now] else [])
  {
    BeforeHistory(r, |r.calls| - 1, key);
  }

  /**
   * With no capacity limit, the answers a key gets in any run are the answers it
   * gets when only its own calls are made.
   */
  lemma {:induction false} NonInterference(cfg: Config, big: Run, small: Run, key: string)
    requires Valid(cfg, big) && Valid(cfg, small) && cfg.maxKeys <= 0
    requires small.calls == Own(big.calls, key)
    ensures small.oks == OwnAnswers(big.calls, big.oks, key)
    ensures History(small, |small.calls|, key) == History(big, |big.calls|, key)
    decreases |big.calls|
  {
    hide Step, StepAt, After, Valid, Before;
    Lengths(cfg, big);
    Lengths(cfg, small);
    if big.calls != [] {
      hide Own, OwnAnswers, History;
      var c := big.calls[|big.calls| - 1];
      BeforeValid(cfg, big);
      OwnLast(big.calls, big.oks, key);
      HistoryLast(big, key);
      if c.key == key {
        Split(small.calls, Own(big.calls[..|big.calls| - 1], key), c);
        BeforeValid(cfg, small);
        HistoryLast(small, key);
        NonInterference(cfg, Before(big), Before(small), key);
        LastAnswer(cfg, big, small, key);
        LastJoins(small.oks);
      } else {
        NonInterference(cfg, Before(big), small, key);
      }
    }
  }

  /** Two runs that end in the same call on the same history of its key end in the same answer. */
  lemma LastAnswer(cfg: Config, r: Run, z: Run, key: string)
    requires Valid(cfg, r) && Valid(cfg, z) && cfg.maxKeys <= 0 && r.calls != [] && z.calls != []
    requires var n, m := |r.calls| - 1, |z.calls| - 1;
             r.calls[n] == z.calls[m] && r.calls[n].key == key && History(r, n, key) == History(z, m, key)
    ensures r.oks[|r.calls| - 1] == z.oks[|z.calls| - 1]
  {
    hide Step, StepAt, After, History;
    AnswerByHistory(cfg, r, |r.calls| - 1);
    AnswerByHistory(cfg, z, |z.calls| - 1);
  }

  // ---------------------------------------------------------------------------
  // The run of a key's own calls exists
  // ---------------------------------------------------------------------------

  predicate InTime(calls: seq<Call>) {
    forall i, j | 0 <= i < j < |calls| :: calls[i].now <= calls[j].now
  }

  lemma OneMoreCall(cfg: Config, r: Run, call: Call, s': Limiter, ok: bool, evicted: Option<string>)
    requires Valid(cfg, r) && Step(cfg, r.states[|r.calls|], call.key, call.now, s', ok, evicted)
    requires InTime(r.calls + [call])
    ensures Valid(cfg, Run(r.states + [s'], r.calls + [call], r.oks + [ok], r.evicted + [evicted]))
  {
    hide Step;
    var z := Run(r.states + [s'], r.calls + [call], r.oks + [ok], r.evicted + [evicted]);
    forall i: nat | i < |z.calls|
      ensures StepAt(cfg, z, i)
    {
      assert i < |r.calls| ==> StepAt(cfg, r, i);
    }
  }

  lemma CallExists(cfg: Config, s: Limiter, key: string, now: int) returns (s': Limiter, ok: bool)
    requires cfg.maxKeys <= 0
    ensures Step(cfg, s, key, now, s', ok, None)
  {
    hide Prune, EventsOf, Accepted;
    var p := Prune(s, now - cfg.window);
    ok := |EventsOf(p, key)| < cfg.limit;
    s' := if ok then Accepted(p, key, now) else p;
  }

  /** A limiter without a capacity limit has a run for any calls in time. */
  lemma {:induction false} RunExists(cfg: Config, calls: seq<Call>) returns (r: Run)
    requires cfg.maxKeys <= 0 && InTime(calls)
    ensures Valid(cfg, r) && r.calls == calls
    decreases |calls|
  {
    hide Step;
    if calls == [] {
      r := Run([EMPTY], [], [], []);
    } else {
      var n := |calls| - 1;
      var c := calls[n];
      var before := RunExists(cfg, calls[..n]);
      Lengths(cfg, before);
      hide Valid;
      var s', ok := CallExists(cfg, before.states[n], c.key, c.now);
      LastJoins(calls);
      OneMoreCall(cfg, before, c, s', ok, None);
      r := Run(before.states + [s'], before.calls + [c], before.oks + [ok], before.evicted + [None]);
    }
  }

  lemma {:induction false} OwnInTime(calls: seq<Call>, key: string)
    requires InTime(calls)
    ensures InTime(Own(calls, key))
    ensures forall c <- Own(calls, key) :: c in calls
    decreases |calls|
  {
    if calls != [] {
      var n := |calls| - 1;
      OwnInTime(calls[..n], key);
      LastJoins(calls);
      hide Own;
      LaterInTime(calls, Own(calls[..n], key));
      assert Own(calls[..n], key) + [] == Own(calls[..n], key);
      OwnLast(calls, seq(|calls|, _ => false), key);
    }
  }

  lemma LaterInTime(calls: seq<Call>, own: seq<Call>)
    requires calls != [] && InTime(calls) && InTime(own) && forall c <- own :: c in calls
    ensures InTime(own + [calls[|calls| - 1]])
  {
    forall i | 0 <= i < |own|
      ensures own[i].now <= calls[|calls| - 1].now
    {
      assert own[i] in calls;
      var k :| 0 <= k < |calls| && calls[k] == own[i];
    }
  }

  /**
   * With no capacity limit: whatever else is called, the answers a key gets are those of a
   * run in which only its own calls are made, and there is such a run.
   */
  lemma AnswersOfOwnCalls(cfg: Config, big: Run, key: string)
    requires Valid(cfg, big) && cfg.maxKeys <= 0
    ensures |big.oks| == |big.calls|
    ensures exists small: Run ::
              Valid(cfg, small) && small.calls == Own(big.calls, key)
              && small.oks == OwnAnswers(big.calls, big.oks, key)
  {
    hide Step, StepAt;
    Lengths(cfg, big);
    OwnInTime(big.calls, key);
    hide Own, OwnAnswers, InTime;
    var small := RunExists(cfg, Own(big.calls, key));
    NonInterference(cfg, big, small, key);
  }
}
