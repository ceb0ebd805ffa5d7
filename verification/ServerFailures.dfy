/** End to end: enough failing handlers of one address get it banned. */
module ServerFailures {
  import opened Base
  import Bans
  import BanRuns
  import BanWindows
  import opened Servers
  import opened ServerStories
  import opened ServerDuties
  import opened ServerCalls

  // ---------------------------------------------------------------------------
  // Counting failures in an interval of time
  // ---------------------------------------------------------------------------

  predicate FailsIn(call: Bans.Call, key: string, from: int, to: int) {
    BanRuns.IsFailureOf(call, key) && from <= call.now <= to
  }

  function FailuresIn(calls: seq<Bans.Call>, key: string, from: int, to: int): nat {
    if calls == [] then 0
    else FailuresIn(calls[..|calls| - 1], key, from, to) + One(FailsIn(calls[|calls| - 1], key, from, to))
  }

  ghost predicate InOrder(calls: seq<Bans.Call>) {
    forall i, j | 0 <= i < j < |calls| :: calls[i].now <= calls[j].now
  }

  /** The calls of an interval of time are those from `a` up to `b`. */
  ghost predicate IsStretch(calls: seq<Bans.Call>, from: int, to: int, a: nat, b: nat) {
    && a <= b <= |calls| && (forall k | a <= k < b :: from <= calls[k].now <= to)
    && (forall k | 0 <= k < |calls| && from <= calls[k].now <= to :: a <= k < b)
  }

  lemma {:induction false} Stretch(calls: seq<Bans.Call>, from: int, to: int) returns (a: nat, b: nat)
    requires InOrder(calls)
    ensures IsStretch(calls, from, to, a, b)
  {
    if calls == [] {
      a, b := 0, 0;
    } else {
      var n := |calls| - 1;
      a, b := Stretch(calls[..n], from, to);
      assert forall k | 0 <= k < n :: calls[..n][k] == calls[k];
      if from <= calls[n].now <= to {
        if a == b {
          a := n;
        }
        forall k | a <= k < n
          ensures from <= calls[k].now <= to
        {
          assert from <= calls[a].now <= calls[k].now <= calls[n].now;
        }
        b := n + 1;
      }
    }
  }

  /** The stretch without the last call. */
  lemma StretchBefore(calls: seq<Bans.Call>, from: int, to: int, a: nat, b: nat)
    requires calls != [] && IsStretch(calls, from, to, a, b)
    ensures var n := |calls| - 1; var within := from <= calls[n].now <= to;
            && a <= b <= n + 1 && (within <==> a < b == n + 1)
            && (within ==> IsStretch(calls[..n], from, to, a, n))
            && (!within && a < b ==> IsStretch(calls[..n], from, to, a, b))
            && (!within && a == b ==> IsStretch(calls[..n], from, to, 0, 0))
  {
    var n := |calls| - 1;
    assert forall k | 0 <= k < n :: calls[..n][k] == calls[k];
  }

  lemma {:induction false} FailuresInStretch(calls: seq<Bans.Call>, key: string, from: int, to: int, a: nat, b: nat)
    requires a <= b <= |calls| && IsStretch(calls, from, to, a, b)
    ensures BanRuns.Failures(calls[a..b], key) == FailuresIn(calls, key, from, to)
  {
    hide IsStretch, BanRuns.Failures, BanRuns.IsFailureOf;
    if calls == [] {
      assert calls[a..b] == [];
      NoFailures(key);
    } else {
      var n := |calls| - 1;
      StretchBefore(calls, from, to, a, b);
      if from <= calls[n].now <= to {
        FailuresInStretch(calls[..n], key, from, to, a, n);
        assert calls[..n][a..n] == calls[a..n];
        BanRuns.FailuresNext(calls, key, a, n);
      } else {
        var a', b' := if a < b then a else 0, if a < b then b else 0;
        FailuresInStretch(calls[..n], key, from, to, a', b');
        assert calls[..n][a'..b'] == calls[a..b];
      }
    }
  }

  lemma NoFailures(key: string)
    ensures BanRuns.Failures([], key) == 0
  {
  }

  /** Handlers that have recorded a failure under this key in that time. */
  ghost function Failers(log: seq<Event>, key: string, from: int, to: int): set<nat> {
    set e | e in log && RecordsIn(e, key, from, to) :: ConnOf(e).value
  }

  predicate RecordsIn(e: Event, key: string, from: int, to: int) {
    ConnOf(e).Some? && CallOf(e).Some? && FailsIn(CallOf(e).value, key, from, to)
  }

  function CallsOf(asked: seq<Event>): seq<Bans.Call> {
    if asked == [] then []
    else CallsOf(asked[..|asked| - 1])
         + if CallOf(asked[|asked| - 1]).Some? then [CallOf(asked[|asked| - 1]).value] else []
  }

  lemma FailersNext(log: seq<Event>, e: Event, key: string, from: int, to: int)
    ensures Failers(log + [e], key, from, to)
         == Failers(log, key, from, to) + if RecordsIn(e, key, from, to) then {ConnOf(e).value} else {}
  {
    hide RecordsIn, ConnOf;
    assert forall x :: x in log + [e] <==> x in log || x == e;
  }

  /** Each such handler is behind a call of its own. */
  lemma {:induction false} FailersCount(log: seq<Event>, key: string, from: int, to: int)
    ensures |Failers(log, key, from, to)| <= FailuresIn(CallsOf(Asked(log)), key, from, to)
  {
    hide CallOf, FailsIn, ConnOf;
    if log == [] {
      assert Failers(log, key, from, to) == {};
    } else {
      var n := |log| - 1;
      var e, asked := log[n], Asked(log[..n]);
      FailersCount(log[..n], key, from, to);
      assert log == log[..n] + [e];
      FailersNext(log[..n], e, key, from, to);
      if CallOf(e).Some? {
        assert (asked + [e])[..|asked|] == asked;
        var calls := CallsOf(asked);
        assert (calls + [CallOf(e).value])[..|calls|] == calls;
      } else {
        assert asked + [] == asked;
      }
    }
  }

  lemma {:induction false} CallsMatch(t: BanRuns.Run, asked: seq<Event>)
    requires Matches(t, asked)
    ensures CallsOf(asked) == t.calls
    decreases asked
  {
    hide CallOf, AnswerOf;
    if asked != [] {
      var n := |asked| - 1;
      CallsMatch(BanRuns.Run([], t.calls[..n], t.replies[..n]), asked[..n]);
      assert CallOf(asked[n]) == Some(t.calls[n]);
    }
  }

  lemma {:induction false} AskedInLog(log: seq<Event>, e: Event)
    requires e in Asked(log)
    ensures e in log
  {
    hide CallOf;
    if log != [] && e in Asked(log[..|log| - 1]) {
      AskedInLog(log[..|log| - 1], e);
    }
  }

  // ---------------------------------------------------------------------------
  // End to end
  // ---------------------------------------------------------------------------

  /** This handler's authentication, client check, look-up, access check or wrap failed, and it has left. */
  ghost predicate Failed(cfg: Config, log: seq<Event>, c: nat, ip: string) {
    exists f: nat, j: nat :: f < j < |log| && IsFault(cfg, log[f], c) && log[j] == Left(c, ip)
  }

  /** In that time the tracker does not drop the open window of this key for want of room. */
  ghost predicate KeptIn(cfg: Bans.Config, t: BanRuns.Run, key: string, from: int, to: int) {
    forall k: nat | k < |t.calls| && k + 1 < |t.states| && from <= t.calls[k].now <= to ::
      !BanWindows.Evicts(cfg, t.states[k], t.calls[k], t.states[k + 1], key)
  }

  lemma FailedIsFailer(cfg: Config, r: Run, i: nat, c: nat, ip: string, from: int, to: int)
    requires Valid(cfg, r) && i <= |r.actions| && Failed(cfg, r.states[i].log, c, ip)
    requires forall e <- r.states[i].log | IsRecord(e, c, IPKey(ip)) :: from <= e.at <= to
    ensures c in Failers(r.states[i].log, IPKey(ip), from, to)
  {
    hide Init, StepAt, IsFault, IPKey, ClientKey, Records;
    var log := r.states[i].log;
    var f: nat, j: nat :| f < j < |log| && IsFault(cfg, log[f], c) && log[j] == Left(c, ip);
    EveryFailureIsRecorded(cfg, r, i, j, f);
    var k: nat :| f < k < j && Does(log[k], c, Record(IPKey(ip)));
    assert log[k] in log && RecordsIn(log[k], IPKey(ip), from, to);
  }

  /** A tracker in which enough failures of a key fall into one minute bans it. */
  lemma EnoughCallsBan(cfg: Bans.Config, t: BanRuns.Run, key: string, from: int) returns (k: nat)
    requires BanRuns.Valid(cfg, t) && cfg.ttl > 0 && KeptIn(cfg, t, key, from, from + Bans.MINUTE)
    requires FailuresIn(t.calls, key, from, from + Bans.MINUTE) >= 2 * Bans.AUTH_FAIL_THRESHOLD - 2
    ensures k < |t.calls| && |t.replies| == |t.calls| && BanRuns.BansAt(t, k, key)
    ensures from <= t.calls[k].now <= from + Bans.MINUTE
  {
    hide Bans.Step, BanWindows.Evicts, FailuresIn;
    var a, b := Stretch(t.calls, from, from + Bans.MINUTE);
    FailuresInStretch(t.calls, key, from, from + Bans.MINUTE, a, b);
    assert t.calls[a..a] == [];
    assert BanWindows.Kept(cfg, t, key, a, b);
    BanWindows.EightFailuresBan(cfg, t, key, a, b - 1);
    k :| a <= k <= b - 1 && BanRuns.BansAt(t, k, key);
  }

  /**
   * In every run: eight handlers of one address that failed and have left, what they
   * recorded for the address lying within one minute in which its window is not dropped for
   * want of room, leave the address banned within that minute.
   */
  lemma EightFailedHandlersBan(cfg: Config, r: Run, i: nat, ip: string, failed: set<nat>, from: int)
    requires Valid(cfg, r) && i <= |r.actions| && cfg.bans.ttl > 0 && |failed| >= 2 * Bans.AUTH_FAIL_THRESHOLD - 2
    requires forall c <- failed :: Failed(cfg, r.states[i].log, c, ip)
    requires forall c <- failed, e <- r.states[i].log | IsRecord(e, c, IPKey(ip)) :: from <= e.at <= from + Bans.MINUTE
    requires KeptIn(cfg.bans, TrackerRun(r, i), IPKey(ip), from, from + Bans.MINUTE)
    ensures exists e <- r.states[i].log ::
              e.Banned? && e.key == IPKey(ip) && from <= e.at <= from + Bans.MINUTE
  {
    hide Init, StepAt, Failed, IPKey, KeptIn, BanRuns.Valid, IsRecord, Failers, FailuresIn, CallsOf, Asked, TrackerRun;
    var log, t, to := r.states[i].log, TrackerRun(r, i), from + Bans.MINUTE;
    TrackerRunIsRun(cfg, r, i);
    forall c | c in failed
      ensures c in Failers(log, IPKey(ip), from, to)
    {
      FailedIsFailer(cfg, r, i, c, ip, from, to);
    }
    SubsetSize(failed, Failers(log, IPKey(ip), from, to));
    FailersCount(log, IPKey(ip), from, to);
    CallsMatch(t, Asked(log));
    var k := EnoughCallsBan(cfg.bans, t, IPKey(ip), from);
    var e := Asked(log)[k];
    assert CallOf(e) == Some(t.calls[k]) && AnswerOf(e) == t.replies[k];
    AskedInLog(log, e);
    BanIsBanned(e, IPKey(ip));
  }

  lemma BanIsBanned(e: Event, key: string)
    requires CallOf(e).Some? && BanRuns.IsFailureOf(CallOf(e).value, key) && AnswerOf(e) == Bans.Flag(true)
    ensures e.Banned? && e.key == key && e.at == CallOf(e).value.now
  {
  }
}
