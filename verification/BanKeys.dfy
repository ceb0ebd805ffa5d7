/** The ban tracker without a capacity limit: the calls of other keys do not matter. */
module BanKeys {
  import opened Base
  import opened Bans
  import opened BanRuns

  predicate About(c: Call, key: string) {
    !c.Count? && c.key == key
  }

  function Own(calls: seq<Call>, key: string): seq<Call> {
    if calls == [] then []
    else
      var n := |calls| - 1;
      Own(calls[..n], key) + if About(calls[n], key) then [calls[n]] else []
  }

  function OwnReplies(calls: seq<Call>, replies: seq<Reply>, key: string): seq<Reply>
    requires |calls| == |replies|
  {
    if calls == [] then []
    else
      var n := |calls| - 1;
      OwnReplies(calls[..n], replies[..n], key) + if About(calls[n], key) then [replies[n]] else []
  }

  /** All that a question or a failure of `key` at time `t` or later can see. */
  datatype View = View(window: Option<Failure>, until: Option<int>)

  function ViewAt(s: Tracker, key: string, t: int): View {
    View(
      if key in s.failures && !Stale(s.failures[key], t) then Some(s.failures[key]) else None,
      if key in s.bannedTil && t < s.bannedTil[key] then Some(s.bannedTil[key]) else None)
  }

  lemma ForeignCall(cfg: Config, s: Tracker, call: Call, s': Tracker, reply: Reply, key: string, t: int)
    requires cfg.maxKeys <= 0 && Step(cfg, s, call, s', reply) && !About(call, key) && call.now <= t
    ensures ViewAt(s', key, t) == ViewAt(s, key, t)
  {
    if call.RecordFailure? && cfg.ttl > 0 {
      UnderLimitKeepsAll(Recorded(cfg.ttl, s, call.key, call.now).0, s', cfg.maxKeys);
    }
  }

  /** What a call of `key` does to the view of `key`, and what it answers, from the view alone. */
  function OwnView(ttl: int, call: Call, now: View, later: View, t: int): (View, Reply)
    requires !call.Count?
  {
    if call.IsBanned? then (later, Flag(now.until.Some?))
    else if ttl <= 0 then (later, Flag(false))
    else
      var f := if now.window.Some? then Failure(now.window.value.count + 1, now.window.value.firstSeen)
               else Failure(1, call.now);
      if f.count >= AUTH_FAIL_THRESHOLD then
        (View(None, if t < call.now + ttl then Some(call.now + ttl) else None), Flag(true))
      else
        (View(if Stale(f, t) then None else Some(f), later.until), Flag(false))
  }

  lemma OwnCall(cfg: Config, s: Tracker, call: Call, s': Tracker, reply: Reply, key: string, t: int)
    requires cfg.maxKeys <= 0 && About(call, key) && call.now <= t
    requires Step(cfg, s, call, s', reply)
    ensures (ViewAt(s', key, t), reply) == OwnView(cfg.ttl, call, ViewAt(s, key, call.now), ViewAt(s, key, t), t)
  {
    if call.RecordFailure? && cfg.ttl > 0 {
      var r := Recorded(cfg.ttl, s, key, call.now).0;
      UnderLimitKeepsAll(r, s', cfg.maxKeys);
      OwnRecorded(cfg.ttl, s, key, call.now, t);
    }
  }

  lemma OwnRecorded(ttl: int, s: Tracker, key: string, now: int, t: int)
    requires ttl > 0 && now <= t
    ensures OwnView(ttl, RecordFailure(key, now), ViewAt(s, key, now), ViewAt(s, key, t), t)
         == (ViewAt(Recorded(ttl, s, key, now).0, key, t), Flag(Recorded(ttl, s, key, now).1))
  {
  }

  function Before(r: Run): Run
    requires |r.states| == |r.calls| + 1 && |r.replies| == |r.calls| > 0
  {
    var n := |r.calls| - 1;
    Run(r.states[..n + 1], r.calls[..n], r.replies[..n])
  }

  lemma BeforeValid(cfg: Config, r: Run)
    requires Valid(cfg, r) && |r.calls| > 0
    ensures |r.states| == |r.calls| + 1 && |r.replies| == |r.calls| && Valid(cfg, Before(r))
    ensures var n, b := |r.calls| - 1, Before(r);
            && b.calls == r.calls[..n] && b.replies == r.replies[..n] && b.states[|b.calls|] == r.states[n]
            && Clock(b, |b.calls|) <= r.calls[n].now == Clock(r, |r.calls|)
  {
    hide Step;
  }

  lemma LastForeign(cfg: Config, r: Run, key: string, t: int)
    requires Valid(cfg, r) && cfg.maxKeys <= 0 && r.calls != [] && Clock(r, |r.calls|) <= t
    requires !About(r.calls[|r.calls| - 1], key)
    ensures ViewAt(r.states[|r.calls|], key, t) == ViewAt(r.states[|r.calls| - 1], key, t)
  {
    hide Step, ViewAt, Valid;
    var n := |r.calls| - 1;
    StepAt(cfg, r, n);
    ForeignCall(cfg, r.states[n], r.calls[n], r.states[n + 1], r.replies[n], key, t);
  }

  /** The last call of a key, in two runs that looked alike to it before. */
  lemma LastOwn(cfg: Config, r: Run, z: Run, key: string, t: int)
    requires Valid(cfg, r) && Valid(cfg, z) && cfg.maxKeys <= 0 && r.calls != [] && z.calls != []
    requires var n, m, c := |r.calls| - 1, |z.calls| - 1, r.calls[|r.calls| - 1];
             && z.calls[m] == c && About(c, key) && c.now <= t
             && ViewAt(r.states[n], key, c.now) == ViewAt(z.states[m], key, c.now)
             && ViewAt(r.states[n], key, t) == ViewAt(z.states[m], key, t)
    ensures ViewAt(r.states[|r.calls|], key, t) == ViewAt(z.states[|z.calls|], key, t)
    ensures r.replies[|r.calls| - 1] == z.replies[|z.calls| - 1]
  {
    hide Step, ViewAt, Valid, OwnView, About;
    var n, m := |r.calls| - 1, |z.calls| - 1;
    StepAt(cfg, r, n);
    StepAt(cfg, z, m);
    OwnCall(cfg, r.states[n], r.calls[n], r.states[n + 1], r.replies[n], key, t);
    OwnCall(cfg, z.states[m], z.calls[m], z.states[m + 1], z.replies[m], key, t);
  }

  /** The last of a key's calls and answers. */
  lemma OwnLast(calls: seq<Call>, replies: seq<Reply>, key: string)
    requires calls != [] && |replies| == |calls|
    ensures var n := |calls| - 1; var own, answers := Own(calls[..n], key), OwnReplies(calls[..n], replies[..n], key);
            && Own(calls, key) == (if About(calls[n], key) then own + [calls[n]] else own)
            && OwnReplies(calls, replies, key) == (if About(calls[n], key) then answers + [replies[n]] else answers)
  {
  }

  /**
   * With no capacity limit, the answers a key gets in any run are the answers it
   * gets when only its own calls are made.
   */
  lemma {:induction false} NonInterference(cfg: Config, big: Run, small: Run, key: string, t: int)
    requires Valid(cfg, big) && Valid(cfg, small) && cfg.maxKeys <= 0
    requires small.calls == Own(big.calls, key)
    requires Clock(big, |big.calls|) <= t
    ensures small.replies == OwnReplies(big.calls, big.replies, key)
    ensures ViewAt(big.states[|big.calls|], key, t) == ViewAt(small.states[|small.calls|], key, t)
    decreases |big.calls|
  {
    hide Step, ViewAt, Valid, Before, About, Clock;
    Lengths(cfg, big);
    Lengths(cfg, small);
    if |big.calls| > 0 {
      hide Own, OwnReplies;
      var c := big.calls[|big.calls| - 1];
      BeforeValid(cfg, big);
      OwnLast(big.calls, big.replies, key);
      if About(c, key) {
        var before := Own(big.calls[..|big.calls| - 1], key);
        Split(small.calls, before, c);
        BeforeValid(cfg, small);
        NonInterference(cfg, Before(big), Before(small), key, c.now);
        NonInterference(cfg, Before(big), Before(small), key, t);
        LastOwn(cfg, big, small, key, t);
        LastJoins(small.replies);
      } else {
        NonInterference(cfg, Before(big), small, key, t);
        LastForeign(cfg, big, key, t);
      }
    }
  }

  // ---------------------------------------------------------------------------
  // The run of a key's own calls exists
  // ---------------------------------------------------------------------------

  /** Calls at positive times that do not run backwards. */
  predicate InTime(calls: seq<Call>) {
    && (forall i | 0 <= i < |calls| :: 0 < calls[i].now)
    && (forall i, j | 0 <= i < j < |calls| :: calls[i].now <= calls[j].now)
  }

  lemma CallExists(cfg: Config, s: Tracker, call: Call) returns (s': Tracker, reply: Reply)
    requires cfg.maxKeys <= 0
    ensures Step(cfg, s, call, s', reply)
  {
    match call
    case IsBanned(key, now) =>
      s' := Prune(s, now);
      reply := Flag(key in s'.bannedTil);
    case Count(now) =>
      s' := Prune(s, now);
      reply := Number(|s'.bannedTil|);
    case RecordFailure(key, now) =>
      if cfg.ttl <= 0 {
        s', reply := s, Flag(false);
      } else {
        var (r, banned) := Recorded(cfg.ttl, s, key, now);
        s', reply := r, Flag(banned);
      }
  }

  /** A tracker without a capacity limit has a run for any calls in time. */
  lemma {:induction false} RunExists(cfg: Config, calls: seq<Call>) returns (r: Run)
    requires cfg.maxKeys <= 0 && InTime(calls)
    ensures Valid(cfg, r) && r.calls == calls
    decreases |calls|
  {
    hide Step;
    if calls == [] {
      r := Run([EMPTY], [], []);
    } else {
      var n := |calls| - 1;
      var before := RunExists(cfg, calls[..n]);
      var s', reply := CallExists(cfg, before.states[n], calls[n]);
      OneMoreCall(cfg, before, calls[n], s', reply);
      r := Run(before.states + [s'], before.calls + [calls[n]], before.replies + [reply]);
      LastJoins(calls);
    }
  }

  lemma {:induction false} OwnInTime(calls: seq<Call>, key: string)
    requires InTime(calls)
    ensures InTime(Own(calls, key))
    ensures forall c <- Own(calls, key) :: c in calls
    decreases |calls|
  {
    if calls != [] {
      var n := |calls| - 1;
      OwnInTime(calls[..n], key);
      LastJoins(calls);
      hide Own;
      LaterInTime(calls, Own(calls[..n], key));
      assert Own(calls[..n], key) + [] == Own(calls[..n], key);
      OwnLast(calls, seq(|calls|, _ => Flag(false)), key);
    }
  }

  lemma LaterInTime(calls: seq<Call>, own: seq<Call>)
    requires calls != [] && InTime(calls) && InTime(own) && forall c <- own :: c in calls
    ensures InTime(own + [calls[|calls| - 1]])
  {
    forall i | 0 <= i < |own|
      ensures own[i].now <= calls[|calls| - 1].now
    {
      assert own[i] in calls;
      var k :| 0 <= k < |calls| && calls[k] == own[i];
    }
  }

  /**
   * With no capacity limit: whatever else is called, the answers a key gets are those of a
   * run in which only its own calls are made, and there is such a run.
   */
  lemma AnswersOfOwnCalls(cfg: Config, big: Run, key: string)
    requires Valid(cfg, big) && cfg.maxKeys <= 0
    ensures |big.replies| == |big.calls|
    ensures exists small: Run ::
              Valid(cfg, small) && small.calls == Own(big.calls, key)
              && small.replies == OwnReplies(big.calls, big.replies, key)
  {
    Lengths(cfg, big);
    OwnInTime(big.calls, key);
    hide Step, Own, OwnReplies, InTime;
    var small := RunExists(cfg, Own(big.calls, key));
    NonInterference(cfg, big, small, key, Clock(big, |big.calls|));
  }
}
