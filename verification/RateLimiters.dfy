/**
 * The rate limiter as an object (internal/limits/rate.go). Each key's times live in
 * a slice of a backing array, compacted in place and appended to in place.
 */
module RateLimiters {
  import opened Base
  import opened Rates

  // ---------------------------------------------------------------------------
  // Slices
  // ---------------------------------------------------------------------------

  /** A slice that starts at the beginning of its backing array. */
  datatype Slice = Slice(buf: array<int>, len: nat)

  ghost function Items(s: Slice): (items: seq<int>)
    requires s.len <= s.buf.Length
    reads s.buf
    ensures |items| == s.len
    ensures items != [] ==> Last(items) == s.buf[s.len - 1]
  {
    s.buf[..s.len]
  }

  /** Keeps the times after `cutoff`, writing them over the front of the same array. */
  method Compact(s: Slice, cutoff: int) returns (keep: Slice)
    requires s.len <= s.buf.Length
    modifies s.buf
    ensures keep.buf == s.buf && keep.len <= s.len
    ensures Items(keep) == After(old(Items(s)), cutoff)
  {
    ghost var was := Items(s);
    var n, i := 0, 0;
    while i < s.len
      invariant n <= i <= s.len
      invariant s.buf[..n] == After(was[..i], cutoff)
      invariant forall j | i <= j < s.len :: s.buf[j] == was[j]
    {
      var t := s.buf[i];
      assert t == was[i] && was[..i + 1][..i] == was[..i];
      if t > cutoff {
        s.buf[n] := t;
        n := n + 1;
      }
      i := i + 1;
    }
    assert was[..i] == was;
    keep := Slice(s.buf, n);
  }

  /** Writes behind the slice when the array has room there, and to a larger copy when it has not. */
  method Append(s: Slice, t: int) returns (r: Slice)
    requires s.len <= s.buf.Length
    modifies s.buf
    ensures r.len <= r.buf.Length && (r.buf == s.buf || fresh(r.buf))
    ensures Items(r) == old(Items(s)) + [t]
  {
    if s.len < s.buf.Length {
      s.buf[s.len] := t;
      return Slice(s.buf, s.len + 1);
    }
    var buf := new int[2 * s.len + 1];
    forall i | 0 <= i < s.len {
      buf[i] := s.buf[i];
    }
    buf[s.len] := t;
    r := Slice(buf, s.len + 1);
  }

  // ---------------------------------------------------------------------------
  // Slices by key
  // ---------------------------------------------------------------------------

  /** Slices fit their arrays and no two keys share one. */
  ghost predicate Separate(m: map<string, Slice>) {
    && (forall k <- m :: m[k].len <= m[k].buf.Length)
    && (forall j, k | j in m && k in m && j != k :: m[j].buf != m[k].buf)
  }

  /** No key but `key` has its times in this array. */
  ghost predicate Private(m: map<string, Slice>, key: string, buf: array<int>) {
    forall k | k in m && k != key :: m[k].buf != buf
  }

  ghost function Arrays(m: map<string, Slice>): set<array<int>> {
    set k | k in m :: m[k].buf
  }

  ghost function Lists(m: map<string, Slice>): (lists: map<string, seq<int>>)
    requires Separate(m)
    reads Arrays(m)
    ensures lists.Keys == m.Keys
  {
    map k | k in m :: Items(m[k])
  }

  lemma SetSlice(m: map<string, Slice>, key: string, s: Slice)
    requires Separate(m) && s.len <= s.buf.Length && Private(m, key, s.buf)
    ensures Separate(m[key := s]) && Lists(m[key := s]) == Lists(m)[key := Items(s)]
    ensures Arrays(m[key := s]) <= Arrays(m) + {s.buf}
  {
    hide Items;
    SetSeparate(m, key, s);
    hide Separate, Private;
    SetArrays(m, key, s);
    hide Arrays;
    var lists := Lists(m[key := s]);
    forall k | k in lists
      ensures lists[k] == Lists(m)[key := Items(s)][k]
    {
    }
  }

  lemma SetSeparate(m: map<string, Slice>, key: string, s: Slice)
    requires Separate(m) && s.len <= s.buf.Length && Private(m, key, s.buf)
    ensures Separate(m[key := s])
  {
  }

  lemma SetArrays(m: map<string, Slice>, key: string, s: Slice)
    ensures Arrays(m[key := s]) <= Arrays(m) + {s.buf}
  {
  }

  lemma DropSlice(m: map<string, Slice>, key: string)
    requires Separate(m)
    ensures Separate(m - {key}) && Lists(m - {key}) == Lists(m) - {key}
    ensures Arrays(m - {key}) <= Arrays(m)
  {
  }

  /** Two maps that differ at one key at most agree once that key is set or dropped. */
  lemma Patch(m: map<string, seq<int>>, m': map<string, seq<int>>, key: string, v: seq<int>)
    requires m - {key} == m' - {key}
    ensures m[key := v] == m'[key := v]
    ensures key in m && m[key] == v ==> m[key := v] == m
  {
    assert m[key := v] == (m - {key})[key := v];
    assert m'[key := v] == (m' - {key})[key := v];
  }

  // ---------------------------------------------------------------------------
  // The limiter
  // ---------------------------------------------------------------------------

  class RateLimiter {
    const limit: int
    const window: int
    const maxKeys: int
    var events: map<string, Slice>
    var lastSeen: map<string, int>

    /** The limit comes from a parsed rate, so it is positive; the empty string is no key. */
    ghost predicate Valid()
      reads this
    {
      && Separate(events) && limit > 0
      && "" !in events
      && lastSeen.Keys == events.Keys
    }

    ghost function View(): Limiter
      requires Valid()
      reads this, Arrays(events)
    {
      Limiter(Lists(events), lastSeen)
    }

    constructor (limit: int, window: int, maxKeys: int)
      requires limit > 0
      ensures Valid() && View() == EMPTY && events == map[]
      ensures this.limit == limit && this.window == window && this.maxKeys == maxKeys
    {
      this.limit := limit;
      this.window := window;
      this.maxKeys := maxKeys;
      events := map[];
      lastSeen := map[];
    }

    method Allow(key: string, now: int) returns (ok: bool)
      requires Valid() && key != ""
      modifies this, Arrays(events)
      ensures Valid() && fresh(Arrays(events) - old(Arrays(events)))
      ensures exists evicted :: Step(Config(limit, window, maxKeys), old(View()), key, now, View(), ok, evicted)
    {
      hide Prune, Accepted, After, Forget, EventsOf, LeastRecent, Lists, Arrays, Separate;
      var cutoff := now - window;
      ghost var arrays := Arrays(events);
      PruneLocked(cutoff);
      PruneTwice(old(View()), key, cutoff);
      ghost var p, pruned := View(), Arrays(events);
      label before:
      ok := Admit(key, cutoff, now);
      ghost var admitted := Arrays(events);
      forall a | a in admitted && a !in arrays
        ensures !old(allocated(a))
      {
        assert a in admitted - pruned && !old@before(allocated(a));
      }
      ghost var evicted: Option<string> := None;
      SameKeysSize(View().events, events);
      if ok && maxKeys > 0 && |events| > maxKeys {
        evicted := EvictOldestLocked();
      }
      assert Arrays(events) <= admitted;
      assert Answered(Config(limit, window, maxKeys), p, key, now, View(), ok, evicted);
      assert Step(Config(limit, window, maxKeys), old(View()), key, now, View(), ok, evicted);
    }

    /** The key's slice; a key that is not there has an empty one. */
    method Lookup(key: string) returns (s: Slice)
      requires Valid()
      ensures s.len <= s.buf.Length && Private(events, key, s.buf)
      ensures s.buf in Arrays(events) || (key !in events && fresh(s.buf))
      ensures Items(s) == EventsOf(View(), key)
    {
      if key in events {
        s := events[key];
      } else {
        var none := new int[0];
        s := Slice(none, 0);
      }
    }

    /** Compacts the key's slice in place. */
    method CompactKey(key: string, cutoff: int) returns (keep: Slice)
      requires Valid()
      modifies Arrays(events)
      ensures keep.len <= keep.buf.Length && Private(events, key, keep.buf)
      ensures keep.buf in Arrays(events) || (key !in events && fresh(keep.buf))
      ensures Items(keep) == After(EventsOf(old(View()), key), cutoff)
      ensures Lists(events) - {key} == old(Lists(events)) - {key}
    {
      hide After;
      ghost var was := Lists(events);
      var s := Lookup(key);
      keep := Compact(s, cutoff);
      assert Lists(events) - {key} == was - {key};
    }

    /** Compacts the key's slice once more and, if there is room in the window, appends the event. */
    method Admit(key: string, cutoff: int, now: int) returns (ok: bool)
      requires Valid() && key != ""
      requires After(EventsOf(View(), key), cutoff) == EventsOf(View(), key)
      modifies this, Arrays(events)
      ensures Valid() && fresh(Arrays(events) - old(Arrays(events)))
      ensures ok == (|EventsOf(old(View()), key)| < limit)
      ensures View() == if ok then Accepted(old(View()), key, now) else old(View())
    {
      hide After, Lists, Arrays, Separate, Items, Private;
      ghost var was, list := Lists(events), EventsOf(View(), key);
      var keep := CompactKey(key, cutoff);
      ghost var mid := Lists(events);
      if keep.len >= limit {
        Patch(was, mid, key, list);
        SetSlice(events, key, keep);
        events := events[key := keep];
        return false;
      }
      Patch(was, mid, key, list + [now]);
      label before:
      Grow(key, keep, now);
      forall a | a in Arrays(events) && a !in old(Arrays(events))
        ensures !old(allocated(a))
      {
        assert a in Arrays(events) - old@before(Arrays(events)) - {keep.buf} || a == keep.buf;
        assert a != keep.buf ==> !old@before(allocated(a));
      }
      return true;
    }

    /** Puts the kept times and one more in place of what the key had. */
    method Grow(key: string, keep: Slice, now: int)
      requires Valid() && key != "" && keep.len <= keep.buf.Length && Private(events, key, keep.buf)
      modifies this, keep.buf
      ensures Valid() && fresh(Arrays(events) - old(Arrays(events)) - {keep.buf})
      ensures View() == Limiter(old(Lists(events))[key := old(Items(keep)) + [now]], old(lastSeen)[key := now])
    {
      hide Lists, Arrays, Separate, Items, Private;
      ghost var was := Lists(events);
      var grown := AppendFor(key, keep, now);
      Patch(was, Lists(events), key, Items(grown));
      SetSlice(events, key, grown);
      events := events[key := grown];
      lastSeen := lastSeen[key := now];
    }

    /** Append, for a slice that only `key` can hold. */
    method AppendFor(key: string, s: Slice, t: int) returns (r: Slice)
      requires Valid() && s.len <= s.buf.Length && Private(events, key, s.buf)
      modifies s.buf
      ensures r.len <= r.buf.Length && Private(events, key, r.buf) && (r.buf == s.buf || fresh(r.buf))
      ensures Items(r) == old(Items(s)) + [t]
      ensures Lists(events) - {key} == old(Lists(events)) - {key}
    {
      ghost var was := Lists(events);
      r := Append(s, t);
      assert Lists(events) - {key} == was - {key};
    }

    method EvictOldestLocked() returns (evicted: Option<string>)
      requires Valid() && events != map[]
      modifies this
      ensures Valid() && Arrays(events) <= old(Arrays(events))
      ensures evicted.Some? && LeastRecent(old(View()), evicted.value)
      ensures View() == Forget(old(View()), evicted.value)
    {
      hide Lists, Arrays, Separate;
      var oldestKey, oldest := "", 0;
      var todo := lastSeen.Keys;
      while todo != {}
        invariant todo <= lastSeen.Keys
        invariant oldestKey == "" ==> todo == lastSeen.Keys
        invariant oldestKey != "" ==> oldestKey in lastSeen && oldest == lastSeen[oldestKey]
        invariant oldestKey != "" ==> forall k | k in lastSeen && k !in todo :: oldest <= lastSeen[k]
      {
        var key :| key in todo;
        todo := todo - {key};
        if oldestKey == "" || lastSeen[key] < oldest {
          oldestKey, oldest := key, lastSeen[key];
        }
      }
      DropSlice(events, oldestKey);
      events := events - {oldestKey};
      lastSeen := lastSeen - {oldestKey};
      evicted := Some(oldestKey);
    }

    method PruneLocked(cutoff: int)
      requires Valid()
      modifies this, Arrays(events)
      ensures Valid() && Arrays(events) <= old(Arrays(events))
      ensures View() == Prune(old(View()), cutoff)
    {
      hide After, Half, Lists, Arrays, Separate, Prune, PrunedAt;
      ghost var was, arrays := View(), Arrays(events);
      var todo := events.Keys;
      HalfStart(was, cutoff);
      while todo != {}
        modifies this, arrays
        invariant Valid() && Arrays(events) <= arrays && todo <= events.Keys
        invariant View() == Half(was, todo, cutoff)
      {
        var key :| key in todo;
        HalfStep(was, todo, key, cutoff);
        todo := todo - {key};
        PruneKey(key, cutoff);
      }
      HalfEnd(was, cutoff);
    }

    /** One turn of the loop of the prune. */
    method PruneKey(key: string, cutoff: int)
      requires Valid() && key in events
      modifies this, Arrays(events)
      ensures Valid() && Arrays(events) <= old(Arrays(events)) && events.Keys + {key} == old(events).Keys
      ensures View() == PrunedAt(old(View()), key, cutoff)
    {
      hide After, Lists, Arrays, Separate, Items, Private;
      ghost var was := Lists(events);
      var keep := CompactKey(key, cutoff);
      Patch(was, Lists(events), key, Items(keep));
      if keep.len == 0 {
        DropSlice(events, key);
        events := events - {key};
        lastSeen := lastSeen - {key};
      } else {
        SetSlice(events, key, keep);
        events := events[key := keep];
        lastSeen := lastSeen[key := keep.buf[keep.len - 1]];
      }
    }
  }

  /** After the prune, a second compaction of the caller's list finds nothing to drop. */
  lemma PruneTwice(s: Limiter, key: string, cutoff: int)
    ensures After(EventsOf(Prune(s, cutoff), key), cutoff) == EventsOf(Prune(s, cutoff), key)
  {
    if key in s.events {
      AfterAfter(s.events[key], cutoff, cutoff);
    }
  }

  // ---------------------------------------------------------------------------
  // The prune half done
  // ---------------------------------------------------------------------------

  function PrunedAt(s: Limiter, key: string, cutoff: int): Limiter
    requires key in s.events
  {
    var ts := After(s.events[key], cutoff);
    if ts == [] then Forget(s, key)
    else Limiter(s.events[key := ts], s.lastSeen[key := Last(ts)])
  }

  /** The limiter with only the keys outside `todo` pruned. */
  ghost function Half(s: Limiter, todo: set<string>, cutoff: int): Limiter
    requires s.lastSeen.Keys == s.events.Keys
  {
    Limiter(
      map k | k in s.events && (k in todo || After(s.events[k], cutoff) != []) ::
        if k in todo then s.events[k] else After(s.events[k], cutoff),
      map k | k in s.events && (k in todo || After(s.events[k], cutoff) != []) ::
        if k in todo then s.lastSeen[k] else Last(After(s.events[k], cutoff)))
  }

  lemma HalfStart(s: Limiter, cutoff: int)
    requires s.lastSeen.Keys == s.events.Keys
    ensures Half(s, s.events.Keys, cutoff) == s
  {
    assert Half(s, s.events.Keys, cutoff).events == s.events;
    assert Half(s, s.events.Keys, cutoff).lastSeen == s.lastSeen;
  }

  lemma HalfEnd(s: Limiter, cutoff: int)
    requires s.lastSeen.Keys == s.events.Keys
    ensures Half(s, {}, cutoff) == Prune(s, cutoff)
  {
    hide After;
    assert Half(s, {}, cutoff).events == Prune(s, cutoff).events;
    assert Half(s, {}, cutoff).lastSeen == Prune(s, cutoff).lastSeen;
  }

  lemma HalfStep(s: Limiter, todo: set<string>, key: string, cutoff: int)
    requires s.lastSeen.Keys == s.events.Keys && key in todo && todo <= s.events.Keys
    ensures key in Half(s, todo, cutoff).events
    ensures Half(s, todo - {key}, cutoff) == PrunedAt(Half(s, todo, cutoff), key, cutoff)
  {
    hide After;
    var h, h' := Half(s, todo, cutoff), Half(s, todo - {key}, cutoff);
    assert h'.events == PrunedAt(h, key, cutoff).events;
    assert h'.lastSeen == PrunedAt(h, key, cutoff).lastSeen;
  }
}
