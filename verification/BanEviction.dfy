/**
 * Why failures need not lead to a ban under a capacity limit: other keys can push a
 * key's window out each time it opens.
 */
module BanEviction {
  import opened Base
  import opened Bans
  import opened BanRuns
  import opened BanWindows

  /** A window opened at time 1 with one failure for each of these keys, and no ban. */
  function Windows(keys: set<string>): Tracker {
    Tracker(map k | k in keys :: Failure(1, 1), map[])
  }

  lemma WindowsSize(keys: set<string>)
    ensures Windows(keys).Size() == |keys|
  {
    assert Windows(keys).failures.Keys == keys;
  }

  lemma WindowsRecorded(ttl: int, keys: set<string>, key: string)
    requires key !in keys
    ensures Recorded(ttl, Windows(keys), key, 1) == (Windows(keys + {key}), false)
  {
    var s := Windows(keys);
    assert Prune(s, 1).failures == s.failures && Prune(s, 1).bannedTil == map[];
    assert s.failures[key := Failure(1, 1)] == Windows(keys + {key}).failures;
  }

  /** A new key opens its window, and some keys give way if there is no room. */
  lemma OpenStep(cfg: Config, keys: set<string>, key: string, gone: set<string>)
    requires cfg.ttl > 0 && key !in keys && gone <= keys
    requires |keys| + 1 - |gone| == if cfg.maxKeys > 0 && |keys| + 1 > cfg.maxKeys then cfg.maxKeys else |keys| + 1
    ensures Step(cfg, Windows(keys), RecordFailure(key, 1), Windows(keys + {key} - gone), Flag(false))
  {
    hide OldestGone, Within, Recorded, Windows;
    WindowsRecorded(cfg.ttl, keys, key);
    WindowsSize(keys + {key});
    WindowsSize(keys + {key} - gone);
    assert keys + {key} == (keys + {key} - gone) + gone;
    WindowsTrimmed(keys + {key}, keys + {key} - gone);
  }

  lemma WindowsTrimmed(keys: set<string>, kept: set<string>)
    requires kept <= keys
    ensures Within(Windows(kept), Windows(keys)) && OldestGone(Windows(keys), Windows(kept))
  {
  }

  /**
   * First `maxKeys` other keys fail once each. Then `V` and the first of the others take
   * turns, and each failure evicts the window of the other one.
   */
  function CallAt(cfg: Config, i: nat): Call
    requires cfg.maxKeys > 0
  {
    RecordFailure(if i < cfg.maxKeys then Other(i) else if (i - cfg.maxKeys) % 2 == 0 then V else Other(0), 1)
  }

  function KeysAt(cfg: Config, i: nat): set<string>
    requires cfg.maxKeys > 0
  {
    if i <= cfg.maxKeys then Others(i)
    else if (i - cfg.maxKeys) % 2 == 0 then Others(cfg.maxKeys)
    else VTurn(cfg)
  }

  function Turns(cfg: Config): Run
    requires cfg.maxKeys > 0
  {
    var n := cfg.maxKeys + 15;
    Run(seq(n + 1, i requires 0 <= i => Windows(KeysAt(cfg, i))), seq(n, i requires 0 <= i => CallAt(cfg, i)),
      seq(n, _ => Flag(false)))
  }

  /** The keys with a window after a turn of `V`. */
  function VTurn(cfg: Config): set<string>
    requires cfg.maxKeys > 0
  {
    Others(cfg.maxKeys) + {V} - {Other(0)}
  }

  lemma EarlyStep(cfg: Config, i: nat)
    requires cfg.ttl > 0 && i < cfg.maxKeys
    ensures Step(cfg, Windows(Others(i)), RecordFailure(Other(i), 1), Windows(Others(i + 1)), Flag(false))
  {
    OthersCounted(i);
    hide Step, Windows, Other;
    OpenStep(cfg, Others(i), Other(i), {});
    assert Others(i) + {Other(i)} - {} == Others(i + 1);
  }

  lemma VStep(cfg: Config)
    requires cfg.ttl > 0 && cfg.maxKeys > 0
    ensures Step(cfg, Windows(Others(cfg.maxKeys)), RecordFailure(V, 1), Windows(VTurn(cfg)), Flag(false))
  {
    OthersCounted(cfg.maxKeys);
    hide Step, Windows, Others, Other;
    OpenStep(cfg, Others(cfg.maxKeys), V, {Other(0)});
  }

  lemma OtherStep(cfg: Config)
    requires cfg.ttl > 0 && cfg.maxKeys > 0
    ensures Step(cfg, Windows(VTurn(cfg)), RecordFailure(Other(0), 1), Windows(Others(cfg.maxKeys)), Flag(false))
  {
    var all := Others(cfg.maxKeys);
    OthersCounted(cfg.maxKeys);
    assert Other(0) != V;
    hide Step, Windows, Others, Other;
    Swapped(all, V, Other(0));
    OpenStep(cfg, VTurn(cfg), Other(0), {V});
  }

  lemma Swapped<T>(all: set<T>, x: T, y: T)
    requires x !in all && y in all
    ensures |all + {x} - {y}| == |all| && all + {x} - {y} + {y} - {x} == all
  {
    assert all + {x} == (all + {x} - {y}) + {y};
  }

  lemma TurnsStep(cfg: Config, i: nat)
    requires cfg.ttl > 0 && cfg.maxKeys > 0
    ensures Step(cfg, Windows(KeysAt(cfg, i)), CallAt(cfg, i), Windows(KeysAt(cfg, i + 1)), Flag(false))
  {
    hide Step, Windows, Others, Other, VTurn;
    if i < cfg.maxKeys {
      EarlyStep(cfg, i);
    } else if (i - cfg.maxKeys) % 2 == 0 {
      VStep(cfg);
    } else {
      OtherStep(cfg);
    }
  }

  lemma TurnsStart(cfg: Config)
    requires cfg.maxKeys > 0
    ensures Windows(KeysAt(cfg, 0)) == EMPTY
  {
  }

  lemma TurnsValid(cfg: Config)
    requires cfg.ttl > 0 && cfg.maxKeys > 0
    ensures Valid(cfg, Turns(cfg))
  {
    hide Step, Windows, KeysAt, Others, Other;
    var r := Turns(cfg);
    TurnsStart(cfg);
    forall i: nat | i < |r.calls|
      ensures Step(cfg, r.states[i], r.calls[i], r.states[i + 1], r.replies[i])
      ensures r.calls[i].now == 1
    {
      TurnsStep(cfg, i);
    }
  }

  lemma {:induction false} TurnsCounted(cfg: Config, j: nat)
    requires cfg.maxKeys > 0 && j <= 15
    ensures Failures(Turns(cfg).calls[cfg.maxKeys..cfg.maxKeys + j], V) == (j + 1) / 2
  {
    hide Failures;
    var c, m := Turns(cfg).calls, cfg.maxKeys;
    if j == 0 {
      FailuresNext(c, V, m, m);
    } else {
      TurnsCounted(cfg, j - 1);
      FailuresNext(c, V, m, m + (j - 1));
    }
  }

  /** In this run any eight failures of any key within a minute include a ban. */
  ghost predicate Complete(r: Run)
    requires |r.replies| == |r.calls|
  {
    forall key: string, a: nat, b: nat | EightIn(r.calls, key, a, b) :: BansWithin(r, key, a, b)
  }

  predicate EightIn(calls: seq<Call>, key: string, a: nat, b: nat) {
    && a <= b < |calls| && calls[b].now - calls[a].now <= MINUTE
    && Failures(calls[a..b + 1], key) >= 2 * AUTH_FAIL_THRESHOLD - 2
  }

  ghost predicate AlwaysComplete(cfg: Config) {
    forall r: Run | Valid(cfg, r) :: Complete(r)
  }

  /**
   * In every run any eight failures of a key within a minute include a ban, if and only
   * if the tracker has no capacity limit.
   */
  lemma CompleteIffUncapped(cfg: Config)
    requires cfg.ttl > 0
    ensures AlwaysComplete(cfg) <==> cfg.maxKeys <= 0
  {
    hide Step, Failures;
    if cfg.maxKeys <= 0 {
      forall r: Run, key: string, a: nat, b: nat | Valid(cfg, r) && EightIn(r.calls, key, a, b)
        ensures BansWithin(r, key, a, b)
      {
        KeptUncapped(cfg, r, key, a, b + 1);
        EightFailuresBan(cfg, r, key, a, b);
      }
    } else {
      var r, m := Turns(cfg), cfg.maxKeys;
      TurnsValid(cfg);
      TurnsCounted(cfg, 15);
      assert EightIn(r.calls, V, m, m + 14) && !BansWithin(r, V, m, m + 14);
      assert !Complete(r);
    }
  }
}
