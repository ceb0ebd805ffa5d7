/**
 * The sliding-window rate limiter (internal/limits/rate.go): what one call does,
 * and the shape every call keeps.
 */
module Rates {
  import opened Base

  datatype Config = Config(limit: int, window: int, maxKeys: int)

  /** The accepted times still remembered for each key, and the last of them. */
  datatype Limiter = Limiter(events: map<string, seq<int>>, lastSeen: map<string, int>)

  const EMPTY := Limiter(map[], map[])

  /** The times later than `cutoff`, in their order. */
  function After(ts: seq<int>, cutoff: int): seq<int> {
    if ts == [] then []
    else
      var n := |ts| - 1;
      After(ts[..n], cutoff) + if ts[n] > cutoff then [ts[n]] else []
  }

  function EventsOf(s: Limiter, key: string): seq<int> {
    if key in s.events then s.events[key] else []
  }

  function Last(ts: seq<int>): int
    requires ts != []
  {
    ts[|ts| - 1]
  }

  function Prune(s: Limiter, cutoff: int): Limiter {
    Limiter(
      map k | k in s.events && After(s.events[k], cutoff) != [] :: After(s.events[k], cutoff),
      map k | k in s.events && After(s.events[k], cutoff) != [] :: Last(After(s.events[k], cutoff)))
  }

  /** No remembered key was last accepted before `key`. */
  ghost predicate LeastRecent(s: Limiter, key: string) {
    key in s.lastSeen && forall k <- s.lastSeen :: s.lastSeen[key] <= s.lastSeen[k]
  }

  function Forget(s: Limiter, key: string): Limiter {
    Limiter(s.events - {key}, s.lastSeen - {key})
  }

  /** The limiter after accepting one event, before the capacity limit is looked at. */
  function Accepted(s: Limiter, key: string, now: int): Limiter {
    Limiter(s.events[key := EventsOf(s, key) + [now]], s.lastSeen[key := now])
  }

  /**
   * What Allow does once everything out of the window is gone. Which of several
   * least recent keys is evicted is left open.
   */
  ghost predicate Answered(cfg: Config, p: Limiter, key: string, now: int, s': Limiter, ok: bool,
                           evicted: Option<string>) {
    ok == (|EventsOf(p, key)| < cfg.limit)
    && if !ok then s' == p && evicted == None
       else
         var q := Accepted(p, key, now);
         if 0 < cfg.maxKeys < |q.events| then
           evicted.Some? && LeastRecent(q, evicted.value) && s' == Forget(q, evicted.value)
         else
           evicted == None && s' == q
  }

  /** One call of Allow. */
  ghost predicate Step(cfg: Config, s: Limiter, key: string, now: int, s': Limiter, ok: bool, evicted: Option<string>) {
    Answered(cfg, Prune(s, now - cfg.window), key, now, s', ok, evicted)
  }

  // ---------------------------------------------------------------------------
  // Filtering
  // ---------------------------------------------------------------------------

  lemma {:induction false} AfterMembers(ts: seq<int>, cutoff: int)
    ensures forall t :: t in After(ts, cutoff) <==> t in ts && t > cutoff
    ensures |After(ts, cutoff)| <= |ts|
  {
    if ts != [] {
      AfterMembers(ts[..|ts| - 1], cutoff);
      assert ts == ts[..|ts| - 1] + [Last(ts)];
    }
  }

  lemma {:induction false} AfterAfter(ts: seq<int>, c: int, d: int)
    requires c <= d
    ensures After(After(ts, c), d) == After(ts, d)
  {
    if ts != [] {
      var n := |ts| - 1;
      AfterAfter(ts[..n], c, d);
      if ts[n] > c {
        assert After(ts, c)[..|After(ts, c)| - 1] == After(ts[..n], c);
      } else {
        assert After(ts, c) == After(ts[..n], c);
      }
    }
  }

  lemma AfterAppend(ts: seq<int>, t: int, c: int)
    ensures After(ts + [t], c) == After(ts, c) + if t > c then [t] else []
  {
    assert (ts + [t])[..|ts|] == ts;
  }

  /** A later cutoff keeps no more. */
  lemma AfterShrinks(ts: seq<int>, c: int, d: int)
    requires c <= d
    ensures |After(ts, d)| <= |After(ts, c)|
  {
    AfterAfter(ts, c, d);
    AfterMembers(After(ts, c), d);
  }

  ghost predicate Ordered(ts: seq<int>) {
    forall i, j | 0 <= i < j < |ts| :: ts[i] <= ts[j]
  }

  /** In an ordered list, what is later than a cutoff is a tail of it. */
  lemma {:induction false} AfterIsTail(ts: seq<int>, c: int) returns (k: nat)
    requires Ordered(ts)
    ensures k <= |ts| && After(ts, c) == ts[k..]
    ensures k < |ts| ==> ts[k] > c
  {
    if ts == [] {
      k := 0;
    } else {
      var n := |ts| - 1;
      k := AfterIsTail(ts[..n], c);
      if ts[n] > c {
        assert ts[k..] == ts[..n][k..] + [ts[n]];
      } else {
        k := n + 1;
      }
    }
  }

  // ---------------------------------------------------------------------------
  // The shape every call keeps
  // ---------------------------------------------------------------------------

  ghost predicate GoodList(limit: int, ts: seq<int>, now: int) {
    ts != [] && |ts| <= limit && Ordered(ts) && Last(ts) <= now
  }

  /** The same keys on both sides, every list ordered, non-empty and short, `lastSeen` its last time. */
  ghost predicate Sound(limit: int, s: Limiter, now: int) {
    && s.lastSeen.Keys == s.events.Keys
    && (forall k <- s.events :: GoodList(limit, s.events[k], now))
    && (forall k <- s.events :: s.lastSeen[k] == Last(s.events[k]))
  }

  ghost predicate Shape(cfg: Config, s: Limiter, now: int) {
    Sound(cfg.limit, s, now) && (cfg.maxKeys > 0 ==> |s.events| <= cfg.maxKeys)
  }

  lemma PruneSound(limit: int, s: Limiter, before: int, cutoff: int, now: int)
    requires Sound(limit, s, before) && before <= now
    ensures Sound(limit, Prune(s, cutoff), now)
    ensures |Prune(s, cutoff).events| <= |s.events|
  {
    var p := Prune(s, cutoff);
    KeepSize(s.events, p.events);
    forall k <- p.events
      ensures GoodList(limit, p.events[k], now)
    {
      var i := AfterIsTail(s.events[k], cutoff);
    }
  }

  lemma AcceptedSound(limit: int, s: Limiter, key: string, now: int)
    requires Sound(limit, s, now) && |EventsOf(s, key)| < limit
    ensures Sound(limit, Accepted(s, key, now), now)
    ensures |Accepted(s, key, now).events| <= |s.events| + 1
  {
    assert GoodList(limit, EventsOf(s, key) + [now], now);
  }

  lemma ForgetSound(limit: int, s: Limiter, key: string, now: int)
    requires Sound(limit, s, now) && key in s.events
    ensures Sound(limit, Forget(s, key), now)
    ensures |Forget(s, key).events| == |s.events| - 1
  {
    RemoveSize(s.events, key);
  }

  lemma StepShape(cfg: Config, s: Limiter, key: string, now: int, s': Limiter, ok: bool, evicted: Option<string>,
                  before: int)
    requires Shape(cfg, s, before) && before <= now
    requires Step(cfg, s, key, now, s', ok, evicted)
    ensures Shape(cfg, s', now)
  {
    hide Prune, Accepted, Forget, EventsOf, Sound;
    var p := Prune(s, now - cfg.window);
    PruneSound(cfg.limit, s, before, now - cfg.window, now);
    if ok {
      AcceptedSound(cfg.limit, p, key, now);
      if evicted.Some? {
        SoundKeys(cfg.limit, Accepted(p, key, now), now);
        ForgetSound(cfg.limit, Accepted(p, key, now), evicted.value, now);
      }
    }
  }

  lemma SoundKeys(limit: int, s: Limiter, now: int)
    requires Sound(limit, s, now)
    ensures s.lastSeen.Keys == s.events.Keys
  {
  }

  /** Keys other than the caller's and the evicted one lose only what is out of the window. */
  lemma OthersOnlyPruned(cfg: Config, s: Limiter, key: string, now: int, s': Limiter, ok: bool, evicted: Option<string>,
                         other: string)
    requires Step(cfg, s, key, now, s', ok, evicted) && other != key && evicted != Some(other)
    ensures EventsOf(s', other) == After(EventsOf(s, other), now - cfg.window)
  {
  }

  lemma OwnAfterCall(cfg: Config, s: Limiter, key: string, now: int, s': Limiter, ok: bool, evicted: Option<string>)
    requires Step(cfg, s, key, now, s', ok, evicted)
    ensures ok <==> |After(EventsOf(s, key), now - cfg.window)| < cfg.limit
    ensures evicted != Some(key) ==>
              EventsOf(s', key) == After(EventsOf(s, key), now - cfg.window) + if ok then [now] else []
    ensures evicted.Some? ==> EventsOf(s', evicted.value) == []
  {
  }
}
