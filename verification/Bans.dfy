/**
 * Timed bans after repeated failures (internal/limits/ban.go).
 *
 * The tracker keeps two maps under one capacity limit: open failure windows,
 * stamped with the time the window opened, and bans, stamped with the time they
 * end. A time is a number of nanoseconds; 0 is the zero time.
 */
module Bans {
  import opened Base

  const AUTH_FAIL_THRESHOLD := 5
  const MINUTE := 60_000_000_000

  datatype Config = Config(ttl: int, maxKeys: int)

  datatype Failure = Failure(count: int, firstSeen: int)

  datatype Tracker = Tracker(failures: map<string, Failure>, bannedTil: map<string, int>) {
    function Size(): nat {
      |failures| + |bannedTil|
    }
  }

  const EMPTY := Tracker(map[], map[])

  datatype Call =
    | IsBanned(key: string, now: int)
    | RecordFailure(key: string, now: int)
    | Count(now: int)

  datatype Reply = Flag(yes: bool) | Number(n: nat)

  // ---------------------------------------------------------------------------
  // What one call does
  // ---------------------------------------------------------------------------

  predicate Stale(f: Failure, now: int) {
    f.firstSeen == 0 || now - f.firstSeen > MINUTE
  }

  function Prune(s: Tracker, now: int): Tracker {
    Tracker(
      map k | k in s.failures && !Stale(s.failures[k], now) :: s.failures[k],
      map k | k in s.bannedTil && s.bannedTil[k] > now :: s.bannedTil[k])
  }

  /** The failure window of `key` after one more failure at `now`. */
  function Tally(s: Tracker, key: string, now: int): Failure {
    var f := if key in s.failures then s.failures[key] else Failure(0, 0);
    var g := if Stale(f, now) then Failure(0, now) else f;
    Failure(g.count + 1, g.firstSeen)
  }

  /** The tracker and the answer of RecordFailure before the capacity limit is enforced. */
  function Recorded(ttl: int, s: Tracker, key: string, now: int): (Tracker, bool) {
    var p := Prune(s, now);
    var f := Tally(p, key, now);
    if f.count >= AUTH_FAIL_THRESHOLD then
      (Tracker(p.failures - {key}, p.bannedTil[key := now + ttl]), true)
    else
      (Tracker(p.failures[key := f], p.bannedTil), false)
  }

  /** One entry of either map. */
  datatype Entry = FailureOf(key: string) | BanOf(key: string)

  predicate Has(s: Tracker, e: Entry) {
    match e
    case FailureOf(k) => k in s.failures
    case BanOf(k) => k in s.bannedTil
  }

  function Stamp(s: Tracker, e: Entry): int
    requires Has(s, e)
  {
    match e
    case FailureOf(k) => s.failures[k].firstSeen
    case BanOf(k) => s.bannedTil[k]
  }

  predicate Within(s': Tracker, s: Tracker) {
    && s'.failures.Keys <= s.failures.Keys
    && s'.bannedTil.Keys <= s.bannedTil.Keys
    && (forall k <- s'.failures :: s'.failures[k] == s.failures[k])
    && (forall k <- s'.bannedTil :: s'.bannedTil[k] == s.bannedTil[k])
  }

  /** Nothing that was thrown out is newer than anything that was kept. */
  ghost predicate OldestGone(s: Tracker, s': Tracker)
    requires Within(s', s)
  {
    forall gone, kept |
      Has(s, gone) && !Has(s', gone) && Has(s', kept) :: Stamp(s, gone) <= Stamp(s', kept)
  }

  /** `s'` is `s` cut down to the capacity limit, oldest stamps first, and not by one entry more. */
  ghost predicate Trimmed(s: Tracker, s': Tracker, maxKeys: int) {
    && Within(s', s)
    && s'.Size() == (if maxKeys > 0 && s.Size() > maxKeys then maxKeys else s.Size())
    && OldestGone(s, s')
  }

  ghost predicate Step(cfg: Config, s: Tracker, call: Call, s': Tracker, reply: Reply) {
    match call
    case IsBanned(key, now) =>
      s' == Prune(s, now) && reply == Flag(key in s'.bannedTil)
    case Count(now) =>
      s' == Prune(s, now) && reply == Number(|s'.bannedTil|)
    case RecordFailure(key, now) =>
      if cfg.ttl <= 0 then
        s' == s && reply == Flag(false)
      else
        var (r, banned) := Recorded(cfg.ttl, s, key, now);
        Trimmed(r, s', cfg.maxKeys) && reply == Flag(banned)
  }

  // ---------------------------------------------------------------------------
  // What every call keeps
  // ---------------------------------------------------------------------------

  /** Windows open in the past, bans end at most one ttl ahead, the capacity limit holds. */
  ghost predicate Inv(cfg: Config, s: Tracker, now: int) {
    && (forall k <- s.failures ::
         0 < s.failures[k].firstSeen <= now && 1 <= s.failures[k].count < AUTH_FAIL_THRESHOLD)
    && (forall k <- s.bannedTil :: s.bannedTil[k] <= now + cfg.ttl)
    && (cfg.maxKeys > 0 ==> s.Size() <= cfg.maxKeys)
  }

  lemma WithinSize(s': Tracker, s: Tracker)
    requires Within(s', s)
    ensures s'.Size() <= s.Size()
    ensures s'.Size() == s.Size() ==> s' == s
  {
    KeepSize(s.failures, s'.failures);
    KeepSize(s.bannedTil, s'.bannedTil);
  }

  /** Recording a failure can grow the tracker only by opening a window, never by banning. */
  lemma RecordedSize(cfg: Config, s: Tracker, key: string, now: int)
    requires Inv(cfg, s, now)
    ensures var (r, banned) := Recorded(cfg.ttl, s, key, now);
            r.Size() <= s.Size() + (if banned then 0 else 1)
  {
    var p := Prune(s, now);
    WithinSize(p, s);
    RemoveSize(p.failures, key);
  }

  /** If at most one entry must go and a ban goes, every window stays. */
  lemma OneBanGone(r: Tracker, s': Tracker, maxKeys: int, k: string)
    requires Within(s', r) && s'.Size() == (if maxKeys > 0 && r.Size() > maxKeys then maxKeys else r.Size())
    requires maxKeys > 0 ==> r.Size() <= maxKeys + 1
    requires k in r.bannedTil && k !in s'.bannedTil
    ensures s'.failures.Keys == r.failures.Keys
  {
    KeepSize(r.failures, s'.failures);
    KeepSize(r.bannedTil, s'.bannedTil);
    assert s'.bannedTil.Keys != r.bannedTil.Keys;
  }

  /** If at most one entry must go and a window is older than every ban, no ban goes. */
  lemma OneOverKeepsBans(r: Tracker, s': Tracker, maxKeys: int, key: string)
    requires Trimmed(r, s', maxKeys)
    requires maxKeys > 0 ==> r.Size() <= maxKeys + 1
    requires key in r.failures && forall k <- r.bannedTil :: r.failures[key].firstSeen < r.bannedTil[k]
    ensures s'.bannedTil == r.bannedTil
  {
    if k :| k in r.bannedTil && k !in s'.bannedTil {
      // Had a ban gone, the window of `key` would have stayed, and it is older.
      OneBanGone(r, s', maxKeys, k);
      OldestGoneAt(r, s', BanOf(k), FailureOf(key));
    }
  }

  lemma OldestGoneAt(s: Tracker, s': Tracker, gone: Entry, kept: Entry)
    requires Within(s', s) && OldestGone(s, s')
    requires Has(s, gone) && !Has(s', gone) && Has(s', kept)
    ensures Stamp(s, gone) <= Stamp(s', kept)
  {
  }

  lemma UnderLimitKeepsAll(r: Tracker, s': Tracker, maxKeys: int)
    requires Trimmed(r, s', maxKeys)
    requires maxKeys > 0 ==> r.Size() <= maxKeys
    ensures s' == r
  {
    WithinSize(s', r);
  }

  /** Enforcing the limit after a failure never costs a ban its place. */
  lemma TrimmingKeepsBans(cfg: Config, s: Tracker, key: string, now: int, s': Tracker)
    requires Inv(cfg, s, now) && now > 0
    requires Trimmed(Recorded(cfg.ttl, s, key, now).0, s', cfg.maxKeys)
    ensures s'.bannedTil == Recorded(cfg.ttl, s, key, now).0.bannedTil
    ensures Recorded(cfg.ttl, s, key, now).1 ==> s' == Recorded(cfg.ttl, s, key, now).0
  {
    var (r, banned) := Recorded(cfg.ttl, s, key, now);
    RecordedSize(cfg, s, key, now);
    if banned {
      UnderLimitKeepsAll(r, s', cfg.maxKeys);
    } else {
      OneOverKeepsBans(r, s', cfg.maxKeys, key);
    }
  }

  lemma PruneKeepsInv(cfg: Config, s: Tracker, before: int, now: int)
    requires Inv(cfg, s, before) && before <= now
    ensures Inv(cfg, Prune(s, now), now)
  {
    WithinSize(Prune(s, now), s);
  }

  lemma RecordedKeepsInv(cfg: Config, s: Tracker, key: string, now: int)
    requires Inv(Config(cfg.ttl, 0), s, now) && 0 < now && cfg.ttl > 0
    ensures Inv(Config(cfg.ttl, 0), Recorded(cfg.ttl, s, key, now).0, now)
    ensures forall k <- Recorded(cfg.ttl, s, key, now).0.bannedTil ::
              now < Recorded(cfg.ttl, s, key, now).0.bannedTil[k]
  {
    var p := Prune(s, now);
    var f := Tally(p, key, now);
    assert 1 <= f.count && 0 < f.firstSeen <= now;
  }

  lemma StepKeepsInv(cfg: Config, s: Tracker, call: Call, s': Tracker, reply: Reply, before: int)
    requires Inv(cfg, s, before) && 0 <= before <= call.now && 0 < call.now
    requires Step(cfg, s, call, s', reply)
    ensures Inv(cfg, s', call.now)
    ensures cfg.ttl > 0 ==> forall k <- s'.bannedTil :: call.now < s'.bannedTil[k]
  {
    if call.RecordFailure? && cfg.ttl > 0 {
      RecordedKeepsInv(cfg, s, call.key, call.now);
    } else if !call.RecordFailure? {
      PruneKeepsInv(cfg, s, before, call.now);
    }
  }

  /** No call before `until` takes away or shortens a ban that lasts to `until`. */
  lemma StepKeepsBan(cfg: Config, s: Tracker, call: Call, s': Tracker, reply: Reply, before: int,
                     key: string, until: int)
    requires Inv(cfg, s, before) && 0 <= before <= call.now < until && 0 < call.now
    requires Step(cfg, s, call, s', reply)
    requires key in s.bannedTil && until <= s.bannedTil[key]
    ensures key in s'.bannedTil && s.bannedTil[key] <= s'.bannedTil[key]
  {
    if call.RecordFailure? && cfg.ttl > 0 {
      assert Inv(cfg, s, call.now);
      TrimmingKeepsBans(cfg, s, call.key, call.now, s');
    }
  }

  /** A failure answered with true leaves a ban of exactly one ttl. */
  lemma BanningStep(cfg: Config, s: Tracker, key: string, now: int, s': Tracker, before: int)
    requires Inv(cfg, s, before) && 0 <= before <= now && 0 < now
    requires Step(cfg, s, RecordFailure(key, now), s', Flag(true))
    ensures key in s'.bannedTil && s'.bannedTil[key] == now + cfg.ttl
    ensures key !in s'.failures && cfg.ttl > 0
  {
    assert Inv(cfg, s, now);
    TrimmingKeepsBans(cfg, s, key, now, s');
  }
}
