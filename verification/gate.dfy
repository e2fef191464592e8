/** The anomaly gate: persistence, hysteresis and cooldown per key (internal/anomaly/gate.go). */
module AnomalyGate {
  import opened Wrappers

  datatype Config = Config(persistence: int, recoveryPersistence: int, cooldown: int)

  /** NewGate raises persistences below 1. */
  ghost predicate Sane(cfg: Config) {
    cfg.persistence >= 1 && cfg.recoveryPersistence >= 1
  }

  /** A time that was never set is None. */
  datatype KeyState = KeyState(
    breaches: nat, clears: nat, firing: bool, firstBreach: Option<int>, lastFired: Option<int>, firedCount: nat)

  const FRESH := KeyState(0, 0, false, None, None, 0)

  datatype Decision = Decision(
    fire: bool, recovered: bool, consecutive: nat, firing: bool, duration: int, suppressed: bool)

  datatype Input = Breached(now: int) | Cleared(now: int) | Forgotten

  // ----- One key ------------------------------------------------------------------------------

  function Since(t: Option<int>, now: int): int {
    match t case None => 0 case Some(start) => now - start
  }

  function Suppresses(cfg: Config, st: KeyState, now: int): bool {
    st.firing && (cfg.cooldown == 0 || (cfg.cooldown > 0 && Since(st.lastFired, now) < cfg.cooldown))
  }

  function OnBreach(cfg: Config, st: KeyState, now: int): (KeyState, Decision) {
    var n := st.breaches + 1;
    var first := if n == 1 then Some(now) else st.firstBreach;
    var counted := st.(clears := 0, breaches := n, firstBreach := first);
    var quiet := Decision(false, false, n, st.firing, Since(first, now), false);
    if n < cfg.persistence then (counted, quiet)
    else if Suppresses(cfg, st, now) then (counted, quiet.(suppressed := true))
    else (counted.(firing := true, lastFired := Some(now), firedCount := st.firedCount + 1),
          quiet.(fire := true, firing := true))
  }

  function OnClear(cfg: Config, st: KeyState, now: int): (KeyState, Decision) {
    var n := st.clears + 1;
    var counted := st.(breaches := 0, clears := n);
    var quiet := Decision(false, false, n, st.firing, 0, false);
    if !st.firing || n < cfg.recoveryPersistence then (counted, quiet)
    else (counted.(firing := false, clears := 0),
          quiet.(recovered := true, firing := false, duration := Since(st.firstBreach, now)))
  }

  function Respond(cfg: Config, st: KeyState, input: Input): (KeyState, Decision) {
    match input
    case Breached(now) => OnBreach(cfg, st, now)
    case Cleared(now) => OnClear(cfg, st, now)
    case Forgotten => (FRESH, Decision(false, false, 0, false, 0, false))
  }

  /** The state after the first n inputs. */
  function After(cfg: Config, inputs: seq<Input>, n: nat): KeyState
    requires n <= |inputs|
  {
    if n == 0 then FRESH else Respond(cfg, After(cfg, inputs, n - 1), inputs[n - 1]).0
  }

  /** The decision on input i. */
  function At(cfg: Config, inputs: seq<Input>, i: nat): Decision
    requires i < |inputs|
  {
    Respond(cfg, After(cfg, inputs, i), inputs[i]).1
  }

  /** The k inputs before position n are all breaches. */
  ghost predicate BreachRun(inputs: seq<Input>, n: nat, k: nat) {
    k <= n <= |inputs| && forall i :: n - k <= i < n ==> inputs[i].Breached?
  }

  ghost predicate ClearRun(inputs: seq<Input>, n: nat, k: nat) {
    k <= n <= |inputs| && forall i :: n - k <= i < n ==> inputs[i].Cleared?
  }

  /** The streak is as long as it can be. */
  ghost predicate IsBreachStreak(inputs: seq<Input>, n: nat, k: nat) {
    BreachRun(inputs, n, k) && (k < n ==> !inputs[n - k - 1].Breached?)
  }

  /** While firing, the clears counted are those since the last breach. */
  ghost predicate IsClearStreak(inputs: seq<Input>, n: nat, k: nat) {
    ClearRun(inputs, n, k) && k < n && inputs[n - k - 1].Breached?
  }

  lemma {:induction false} CountersAreStreaks(cfg: Config, inputs: seq<Input>, n: nat)
    requires Sane(cfg) && n <= |inputs|
    ensures IsBreachStreak(inputs, n, After(cfg, inputs, n).breaches)
    ensures After(cfg, inputs, n).firing ==> IsClearStreak(inputs, n, After(cfg, inputs, n).clears)
  {
    if n > 0 {
      CountersAreStreaks(cfg, inputs, n - 1);
    }
  }

  /** A fire comes only at the end of at least persistence consecutive breaches. */
  lemma FireIsEarned(cfg: Config, inputs: seq<Input>, i: nat)
    requires Sane(cfg) && i < |inputs|
    requires At(cfg, inputs, i).fire
    ensures BreachRun(inputs, i + 1, cfg.persistence)
  {
    CountersAreStreaks(cfg, inputs, i);
  }

  /** A recovery comes exactly at the recoveryPersistence-th consecutive clear after a breach. */
  lemma RecoveryIsEarned(cfg: Config, inputs: seq<Input>, i: nat)
    requires Sane(cfg) && i < |inputs|
    ensures At(cfg, inputs, i).recovered
       <==> After(cfg, inputs, i).firing && IsClearStreak(inputs, i + 1, cfg.recoveryPersistence)
  {
    CountersAreStreaks(cfg, inputs, i);
    ClearsStayLow(cfg, inputs, i);
    if After(cfg, inputs, i).firing {
      var k := After(cfg, inputs, i).clears;
      assert inputs[i].Cleared? ==> IsClearStreak(inputs, i + 1, k + 1);
      if IsClearStreak(inputs, i + 1, cfg.recoveryPersistence) {
      }
    }
  }

  lemma {:induction false} ClearsStayLow(cfg: Config, inputs: seq<Input>, n: nat)
    requires Sane(cfg) && n <= |inputs|
    ensures After(cfg, inputs, n).firing ==> After(cfg, inputs, n).clears < cfg.recoveryPersistence
  {
    if n > 0 {
      ClearsStayLow(cfg, inputs, n - 1);
    }
  }

  // ----- Episodes -------------------------------------------------------------------------

  /** A fire at j, with no recovery and no forgetting between j and n. */
  ghost predicate OpenSince(cfg: Config, inputs: seq<Input>, n: nat, j: nat) {
    && j < n <= |inputs| && At(cfg, inputs, j).fire
    && forall k :: j < k < n ==> !At(cfg, inputs, k).recovered && inputs[k] != Forgotten
  }

  /** What one input does to firing. */
  lemma FiringStep(cfg: Config, inputs: seq<Input>, i: nat)
    requires i < |inputs|
    ensures After(cfg, inputs, i + 1).firing
         == (At(cfg, inputs, i).fire || (After(cfg, inputs, i).firing && !At(cfg, inputs, i).recovered
                                         && inputs[i] != Forgotten))
    ensures At(cfg, inputs, i).fire ==>
        inputs[i].Breached? && After(cfg, inputs, i + 1).lastFired == Some(inputs[i].now)
    ensures !At(cfg, inputs, i).fire && inputs[i] != Forgotten ==>
        After(cfg, inputs, i + 1).lastFired == After(cfg, inputs, i).lastFired
  {
  }

  lemma {:induction false} FiringIffOpen(cfg: Config, inputs: seq<Input>, n: nat)
    requires Sane(cfg) && n <= |inputs|
    ensures After(cfg, inputs, n).firing <==> exists j :: OpenSince(cfg, inputs, n, j)
  {
    hide After, At;
    NothingIsBroken(cfg, inputs);
    if n > 0 {
      var m := n - 1;
      FiringIffOpen(cfg, inputs, m);
      FiringStep(cfg, inputs, m);
      if After(cfg, inputs, n).firing {
        if At(cfg, inputs, m).fire {
          assert OpenSince(cfg, inputs, n, m);
        } else {
          var j :| OpenSince(cfg, inputs, m, j);
          assert OpenSince(cfg, inputs, n, j);
        }
      }
      if j :| OpenSince(cfg, inputs, n, j) && j != m {
        assert OpenSince(cfg, inputs, m, j);
        assert !At(cfg, inputs, m).recovered && inputs[m] != Forgotten;
      }
    }
  }

  /** Every recovery ends an episode that a fire began, so between two recoveries there is a fire. */
  lemma RecoveriesAlternate(cfg: Config, inputs: seq<Input>, i: nat, m: nat)
    requires Sane(cfg) && i < m < |inputs|
    requires At(cfg, inputs, i).recovered && At(cfg, inputs, m).recovered
    ensures exists j :: i < j < m && OpenSince(cfg, inputs, m, j)
  {
    FiringIffOpen(cfg, inputs, m);
    var j :| OpenSince(cfg, inputs, m, j);
    assert j != i;
  }

  /** Any fire that is still open is no later than the last one recorded. */
  lemma {:induction false} LastFiredIsLatest(cfg: Config, inputs: seq<Input>, n: nat, j: nat)
    requires Sane(cfg) && cfg.cooldown >= 0
    requires OpenSince(cfg, inputs, n, j)
    ensures After(cfg, inputs, n).firing && After(cfg, inputs, n).lastFired.Some?
    ensures inputs[j].now <= After(cfg, inputs, n).lastFired.value
  {
    if j < n - 1 {
      assert OpenSince(cfg, inputs, n - 1, j);
      LastFiredIsLatest(cfg, inputs, n - 1, j);
    }
  }

  /** Two fires of one episode are at least the cooldown apart; with no cooldown there is only one. */
  lemma FiresAreApart(cfg: Config, inputs: seq<Input>, j: nat, m: nat)
    requires Sane(cfg) && cfg.cooldown >= 0 && m < |inputs|
    requires OpenSince(cfg, inputs, m, j) && At(cfg, inputs, m).fire
    ensures cfg.cooldown > 0 && inputs[m].now - inputs[j].now >= cfg.cooldown
  {
    LastFiredIsLatest(cfg, inputs, m, j);
  }

  lemma {:induction false} LastFiredIsOpen(cfg: Config, inputs: seq<Input>, n: nat) returns (j: nat)
    requires Sane(cfg) && n <= |inputs| && After(cfg, inputs, n).firing
    ensures OpenSince(cfg, inputs, n, j) && inputs[j].Breached?
    ensures After(cfg, inputs, n).lastFired == Some(inputs[j].now)
  {
    hide After, At;
    NothingIsBroken(cfg, inputs);
    FiringStep(cfg, inputs, n - 1);
    if At(cfg, inputs, n - 1).fire {
      j := n - 1;
    } else {
      j := LastFiredIsOpen(cfg, inputs, n - 1);
    }
  }

  /** The gate fires exactly on a long enough run of breaches whose episode has no earlier fire
      within the cooldown, or none at all when there is no cooldown. */
  lemma FiresIff(cfg: Config, inputs: seq<Input>, i: nat)
    requires Sane(cfg) && cfg.cooldown >= 0 && i < |inputs|
    ensures At(cfg, inputs, i).fire
       <==> BreachRun(inputs, i + 1, cfg.persistence)
            && forall j: nat :: OpenSince(cfg, inputs, i, j) ==>
                  cfg.cooldown > 0 && inputs[i].now - inputs[j].now >= cfg.cooldown
  {
    if At(cfg, inputs, i).fire {
      FireIsEarned(cfg, inputs, i);
      forall j: nat | OpenSince(cfg, inputs, i, j)
        ensures cfg.cooldown > 0 && inputs[i].now - inputs[j].now >= cfg.cooldown
      {
        FiresAreApart(cfg, inputs, j, i);
      }
    }
    if BreachRun(inputs, i + 1, cfg.persistence) {
      CountersAreStreaks(cfg, inputs, i);
      var k := After(cfg, inputs, i).breaches;
      assert k < i ==> !inputs[i - k - 1].Breached?;
      assert inputs[i].Breached? && k + 1 >= cfg.persistence;
      if After(cfg, inputs, i).firing {
        var j := LastFiredIsOpen(cfg, inputs, i);
      }
    }
  }

  /** Some run of persistence breaches is not yet followed by recoveryPersistence clears. */
  ghost predicate IsActive(cfg: Config, inputs: seq<Input>, n: nat) {
    exists j :: BrokenAt(cfg, inputs, n, j)
  }

  ghost predicate BrokenAt(cfg: Config, inputs: seq<Input>, n: nat, j: nat)
  {
    && j <= n <= |inputs| && cfg.persistence >= 1 && cfg.recoveryPersistence >= 1
    && BreachRun(inputs, j, cfg.persistence)
    && (forall k :: j < k <= n ==> !ClearRun(inputs, k, cfg.recoveryPersistence) || k - cfg.recoveryPersistence < j)
    && (forall k :: j <= k < n ==> inputs[k] != Forgotten)
  }

  /** The counters decide what the history says: a key fires exactly while some long enough run of
      breaches has not been followed by a long enough run of clears. */
  lemma {:induction false} FiringIffActive(cfg: Config, inputs: seq<Input>, n: nat)
    requires Sane(cfg) && n <= |inputs|
    ensures After(cfg, inputs, n).firing <==> IsActive(cfg, inputs, n)
  {
    hide After, At, BrokenAt;
    if n == 0 {
      NothingIsBroken(cfg, inputs);
    } else {
      var m := n - 1;
      FiringIffActive(cfg, inputs, m);
      if After(cfg, inputs, n).firing {
        StaysBroken(cfg, inputs, n);
      }
      if j :| BrokenAt(cfg, inputs, n, j) {
        BrokenFires(cfg, inputs, n, j);
      }
    }
  }

  lemma NothingIsBroken(cfg: Config, inputs: seq<Input>)
    ensures !After(cfg, inputs, 0).firing && !IsActive(cfg, inputs, 0)
  {
  }

  lemma StaysBroken(cfg: Config, inputs: seq<Input>, n: nat)
    requires Sane(cfg) && 0 < n <= |inputs|
    requires After(cfg, inputs, n).firing
    requires After(cfg, inputs, n - 1).firing ==> IsActive(cfg, inputs, n - 1)
    ensures IsActive(cfg, inputs, n)
  {
    hide After, At;
    FiringStep(cfg, inputs, n - 1);
    if At(cfg, inputs, n - 1).fire {
      FireIsEarned(cfg, inputs, n - 1);
      assert BrokenAt(cfg, inputs, n, n);
    } else {
      var j :| BrokenAt(cfg, inputs, n - 1, j);
      CountersAreStreaks(cfg, inputs, n);
      ClearsStayLow(cfg, inputs, n);
      var last := n - After(cfg, inputs, n).clears - 1;
      assert inputs[last].Breached?;
      assert BrokenAt(cfg, inputs, n, j);
    }
  }

  lemma BrokenFires(cfg: Config, inputs: seq<Input>, n: nat, j: nat)
    requires Sane(cfg) && 0 < n <= |inputs|
    requires BrokenAt(cfg, inputs, n, j)
    requires IsActive(cfg, inputs, n - 1) ==> After(cfg, inputs, n - 1).firing
    ensures After(cfg, inputs, n).firing
  {
    hide After, At;
    if j == n {
      LongStreakFires(cfg, inputs, n);
    } else {
      assert BrokenAt(cfg, inputs, n - 1, j);
      FiringStep(cfg, inputs, n - 1);
      RecoveryIsEarned(cfg, inputs, n - 1);
      assert inputs[j - 1].Breached?;
    }
  }

  lemma {:induction false} LongStreakFires(cfg: Config, inputs: seq<Input>, n: nat)
    requires Sane(cfg) && n <= |inputs|
    requires BreachRun(inputs, n, cfg.persistence)
    ensures After(cfg, inputs, n).firing
  {
    CountersAreStreaks(cfg, inputs, n);
    var k := After(cfg, inputs, n).breaches;
    assert k < n ==> !inputs[n - k - 1].Breached?;
    assert k >= cfg.persistence;
  }

  // ----- Durations ----------------------------------------------------------------------------

  /** Where the latest run of breaches began, at or before position n. */
  ghost predicate LatestStreakStart(inputs: seq<Input>, n: nat, i: nat) {
    && i < n <= |inputs| && inputs[i].Breached? && (i > 0 ==> !inputs[i - 1].Breached?)
    && forall k :: i < k < n && inputs[k].Breached? ==> inputs[k - 1].Breached?
  }

  lemma {:induction false} FirstBreachIsLatest(cfg: Config, inputs: seq<Input>, n: nat, i: nat)
    requires Sane(cfg) && LatestStreakStart(inputs, n, i)
    requires forall k :: i < k < n ==> inputs[k] != Forgotten
    ensures After(cfg, inputs, n).firstBreach == Some(inputs[i].now)
  {
    if i == n - 1 {
      CountersAreStreaks(cfg, inputs, i);
    } else {
      FirstBreachIsLatest(cfg, inputs, n - 1, i);
      CountersAreStreaks(cfg, inputs, n - 1);
    }
  }

  /** The duration a recovery reports runs from the latest streak of breaches, not from the one
      that began the episode. */
  lemma RecoveryDuration(cfg: Config, inputs: seq<Input>, m: nat, i: nat)
    requires Sane(cfg) && m < |inputs| && At(cfg, inputs, m).recovered
    requires LatestStreakStart(inputs, m, i) && forall k :: i < k < m ==> inputs[k] != Forgotten
    ensures At(cfg, inputs, m).duration == inputs[m].now - inputs[i].now
  {
    FirstBreachIsLatest(cfg, inputs, m, i);
  }

  /** What the decision on a breach says: how many there are in its streak, since when, whether a report was
      held back and whether the key fires now. */
  lemma BreachIsDescribed(cfg: Config, inputs: seq<Input>, i: nat, start: nat)
    requires Sane(cfg) && i < |inputs| && inputs[i].Breached?
    requires LatestStreakStart(inputs, i + 1, start) && forall k :: start < k <= i ==> inputs[k] != Forgotten
    ensures var d := At(cfg, inputs, i);
            && d.consecutive == i + 1 - start && d.duration == inputs[i].now - inputs[start].now && !d.recovered
            && (d.suppressed <==> i + 1 - start >= cfg.persistence && !d.fire)
            && (d.firing <==> IsActive(cfg, inputs, i + 1))
  {
    hide IsActive;
    FirstBreachIsLatest(cfg, inputs, i + 1, start);
    StreakIsUnbroken(inputs, i + 1, start);
    CountersAreStreaks(cfg, inputs, i + 1);
    FiringIffActive(cfg, inputs, i + 1);
  }

  lemma {:induction false} StreakIsUnbroken(inputs: seq<Input>, n: nat, start: nat)
    requires LatestStreakStart(inputs, n, start) && inputs[n - 1].Breached?
    ensures IsBreachStreak(inputs, n, n - start)
    decreases n
  {
    if n - 1 > start {
      assert inputs[n - 2].Breached?;
      StreakIsUnbroken(inputs, n - 1, start);
    }
  }

  /** k clears since the last breach, recovery or reset. */
  ghost predicate ClearsSince(cfg: Config, inputs: seq<Input>, n: nat, k: nat) {
    && ClearRun(inputs, n, k)
    && (k < n ==> !inputs[n - k - 1].Cleared? || At(cfg, inputs, n - k - 1).recovered)
    && forall j :: n - k <= j < n ==> !At(cfg, inputs, j).recovered
  }

  lemma {:induction false} ClearsAreCounted(cfg: Config, inputs: seq<Input>, n: nat)
    requires n <= |inputs|
    ensures ClearsSince(cfg, inputs, n, After(cfg, inputs, n).clears)
  {
    if n > 0 {
      ClearsAreCounted(cfg, inputs, n - 1);
    }
  }

  /** What the decision on a clear says. */
  lemma ClearIsDescribed(cfg: Config, inputs: seq<Input>, i: nat)
    requires Sane(cfg) && i < |inputs| && inputs[i].Cleared?
    ensures var d := At(cfg, inputs, i);
            && d.consecutive > 0 && ClearsSince(cfg, inputs, i, d.consecutive - 1)
            && !d.fire && !d.suppressed && (d.duration != 0 ==> d.recovered)
            && (d.firing <==> IsActive(cfg, inputs, i + 1))
  {
    hide IsActive;
    ClearsAreCounted(cfg, inputs, i);
    FiringIffActive(cfg, inputs, i + 1);
  }

  // ----- Forgetting ------------------------------------------------------------------------

  /** What callers act on: the counts and durations aside. */
  function Act(d: Decision): (bool, bool, bool, bool) {
    (d.fire, d.recovered, d.firing, d.suppressed)
  }

  function Continue(cfg: Config, st: KeyState, inputs: seq<Input>): seq<(bool, bool, bool, bool)>
    decreases |inputs|
  {
    if inputs == [] then []
    else
      var (next, d) := Respond(cfg, st, inputs[0]);
      [Act(d)] + Continue(cfg, next, inputs[1..])
  }

  /** Two states of one key that no caller can tell apart. */
  ghost predicate Alike(st: KeyState, other: KeyState) {
    && st.firing == other.firing && st.breaches == other.breaches
    && (st.firing ==> st.clears == other.clears && st.lastFired == other.lastFired)
  }

  lemma {:induction false} AlikeActAlike(cfg: Config, st: KeyState, other: KeyState, inputs: seq<Input>)
    requires Sane(cfg) && Alike(st, other)
    ensures Continue(cfg, st, inputs) == Continue(cfg, other, inputs)
    decreases |inputs|
  {
    if inputs != [] {
      AlikeActAlike(cfg, Respond(cfg, st, inputs[0]).0, Respond(cfg, other, inputs[0]).0, inputs[1..]);
    }
  }

  function Breaches(n: nat, now: int): seq<Input> {
    seq(n, i => Breached(now))
  }

  lemma {:induction false} FiresAtLast(cfg: Config, st: KeyState, n: nat, now: int)
    requires !st.firing && st.breaches + n == cfg.persistence && n > 0
    ensures |Continue(cfg, st, Breaches(n, now))| == n
    ensures Continue(cfg, st, Breaches(n, now))[n - 1].0
    decreases n
  {
    assert Breaches(n, now)[1..] == Breaches(n - 1, now);
    if n > 1 {
      FiresAtLast(cfg, Respond(cfg, st, Breached(now)).0, n - 1, now);
    }
  }

  lemma {:induction false} QuietBefore(cfg: Config, st: KeyState, n: nat, now: int)
    requires !st.firing && st.breaches + n < cfg.persistence
    ensures |Continue(cfg, st, Breaches(n, now))| == n
    ensures forall i :: 0 <= i < n ==> !Continue(cfg, st, Breaches(n, now))[i].0
    decreases n
  {
    if n > 0 {
      assert Breaches(n, now)[1..] == Breaches(n - 1, now);
      QuietBefore(cfg, Respond(cfg, st, Breached(now)).0, n - 1, now);
    }
  }

  /** Forgetting a key that is not firing, as Prune does, changes what callers see later exactly
      when the key is in the middle of a streak of breaches. */
  lemma ForgettingIsInvisibleIff(cfg: Config, st: KeyState)
    requires Sane(cfg) && !st.firing && st.breaches < cfg.persistence
    ensures st.breaches == 0 <==> forall inputs :: Continue(cfg, st, inputs) == Continue(cfg, FRESH, inputs)
  {
    if st.breaches == 0 {
      forall inputs
        ensures Continue(cfg, st, inputs) == Continue(cfg, FRESH, inputs)
      {
        AlikeActAlike(cfg, st, FRESH, inputs);
      }
    } else {
      var n := cfg.persistence - st.breaches;
      FiresAtLast(cfg, st, n, 0);
      QuietBefore(cfg, FRESH, n, 0);
      assert Continue(cfg, st, Breaches(n, 0)) != Continue(cfg, FRESH, Breaches(n, 0));
    }
  }

  /** A key breached at 10 and 20 was observed after the cutoff 15, yet it is stale, because its
      streak began before; forgotten, it does not fire at its third breach. */
  lemma PruneForgetsAStreak()
    ensures var cfg, inputs := Config(3, 1, 60), [Breached(10), Breached(20)];
            var st := After(cfg, inputs, 2);
            && IsStale(st, 15) && st.breaches == 2
            && OnBreach(cfg, st, 30).1.fire && !OnBreach(cfg, FRESH, 30).1.fire
  {
    var cfg, inputs := Config(3, 1, 60), [Breached(10), Breached(20)];
    assert After(cfg, inputs, 0) == FRESH;
    assert After(cfg, inputs, 1) == OnBreach(cfg, FRESH, 10).0;
  }

  // ----- The gate -----------------------------------------------------------------------------

  datatype Event = Observed(key: string, breached: bool, now: int) | Reset(key: string) | Pruned(before: int)

  function Lookup(states: map<string, KeyState>, key: string): KeyState {
    if key in states then states[key] else FRESH
  }

  /** Not firing, and neither fired nor began a streak since the cutoff. */
  predicate IsStale(st: KeyState, before: int) {
    && !st.firing
    && (st.lastFired.Some? ==> st.lastFired.value < before)
    && (st.firstBreach.Some? ==> st.firstBreach.value < before)
  }

  function InputOf(breached: bool, now: int): Input {
    if breached then Breached(now) else Cleared(now)
  }

  /** What one key sees of the gate's events; no other key has a part in it. */
  function Seen(cfg: Config, events: seq<Event>, key: string): seq<Input> {
    if events == [] then []
    else
      var before := Seen(cfg, events[..|events| - 1], key);
      match events[|events| - 1]
      case Observed(k, breached, now) => if k == key then before + [InputOf(breached, now)] else before
      case Reset(k) => if k == key then before + [Forgotten] else before
      case Pruned(cutoff) => if IsStale(After(cfg, before, |before|), cutoff) then before + [Forgotten] else before
  }

  /** What the map holds of every key is that key's own run. */
  ghost predicate KeysRunAlone(cfg: Config, events: seq<Event>, states: map<string, KeyState>) {
    forall key :: Lookup(states, key) == After(cfg, Seen(cfg, events, key), |Seen(cfg, events, key)|)
  }

  lemma {:induction false} AfterPrefix(cfg: Config, inputs: seq<Input>, more: seq<Input>, n: nat)
    requires n <= |inputs|
    ensures After(cfg, inputs + more, n) == After(cfg, inputs, n)
  {
    if n > 0 {
      AfterPrefix(cfg, inputs, more, n - 1);
    }
  }

  lemma OneMore(cfg: Config, inputs: seq<Input>, input: Input)
    ensures After(cfg, inputs + [input], |inputs| + 1) == Respond(cfg, After(cfg, inputs, |inputs|), input).0
    ensures At(cfg, inputs + [input], |inputs|) == Respond(cfg, After(cfg, inputs, |inputs|), input).1
  {
    AfterPrefix(cfg, inputs, [input], |inputs|);
  }

  /** The map after an event, key by key. */
  ghost predicate Moved(cfg: Config, was: map<string, KeyState>, e: Event, states: map<string, KeyState>) {
    forall key :: Lookup(states, key) == match e
      case Observed(k, breached, now) =>
        if k == key then Respond(cfg, Lookup(was, key), InputOf(breached, now)).0 else Lookup(was, key)
      case Reset(k) => if k == key then FRESH else Lookup(was, key)
      case Pruned(before) => if IsStale(Lookup(was, key), before) then FRESH else Lookup(was, key)
  }

  lemma MovesRunAlone(cfg: Config, events: seq<Event>, was: map<string, KeyState>, e: Event,
                      states: map<string, KeyState>)
    requires KeysRunAlone(cfg, events, was) && Moved(cfg, was, e, states)
    ensures KeysRunAlone(cfg, events + [e], states)
  {
    hide OnBreach, OnClear, IsStale, After;
    assert (events + [e])[..|events|] == events;
    forall key
      ensures Lookup(states, key) == After(cfg, Seen(cfg, events + [e], key), |Seen(cfg, events + [e], key)|)
    {
      var inputs := Seen(cfg, events, key);
      assert Lookup(was, key) == After(cfg, inputs, |inputs|);
      OneMore(cfg, inputs, Forgotten);
      if e.Observed? {
        OneMore(cfg, inputs, InputOf(e.breached, e.now));
      }
    }
  }

  class Gate {
    const cfg: Config
    var states: map<string, KeyState>
    ghost var events: seq<Event>

    ghost predicate Valid()
      reads this
    {
      Sane(cfg) && KeysRunAlone(cfg, events, states)
    }

    constructor (persistence: int, recoveryPersistence: int, cooldown: int)
      ensures Valid() && events == [] && states == map[]
      ensures cfg == Config(if persistence < 1 then 1 else persistence,
                            if recoveryPersistence < 1 then 1 else recoveryPersistence, cooldown)
    {
      cfg := Config(if persistence < 1 then 1 else persistence,
                    if recoveryPersistence < 1 then 1 else recoveryPersistence, cooldown);
      states, events := map[], [];
    }

    method Breach(key: string, now: int) returns (d: Decision)
      requires Valid()
      modifies this
      ensures Valid() && events == old(events) + [Observed(key, true, now)]
      ensures Seen(cfg, events, key) == Seen(cfg, old(events), key) + [Breached(now)]
      ensures d == At(cfg, Seen(cfg, events, key), |Seen(cfg, old(events), key)|)
    {
      hide KeysRunAlone, After;
      var st := Lookup(states, key);
      st := st.(clears := 0, breaches := st.breaches + 1);
      if st.breaches == 1 {
        st := st.(firstBreach := Some(now));
      }
      d := Decision(false, false, st.breaches, st.firing, Since(st.firstBreach, now), false);
      if st.breaches >= cfg.persistence {
        if st.firing && cfg.cooldown > 0 && Since(st.lastFired, now) < cfg.cooldown {
          d := d.(suppressed := true);
        } else if st.firing && cfg.cooldown == 0 {
          d := d.(suppressed := true);
        } else {
          st := st.(firing := true, lastFired := Some(now), firedCount := st.firedCount + 1);
          d := d.(fire := true, firing := true);
        }
      }
      Note(key, true, now, st, d);
    }

    method Clear(key: string, now: int) returns (d: Decision)
      requires Valid()
      modifies this
      ensures Valid() && events == old(events) + [Observed(key, false, now)]
      ensures Seen(cfg, events, key) == Seen(cfg, old(events), key) + [Cleared(now)]
      ensures d == At(cfg, Seen(cfg, events, key), |Seen(cfg, old(events), key)|)
    {
      hide KeysRunAlone, After;
      var st := Lookup(states, key);
      st := st.(breaches := 0, clears := st.clears + 1);
      d := Decision(false, false, st.clears, st.firing, 0, false);
      if st.firing && st.clears >= cfg.recoveryPersistence {
        d := d.(recovered := true, firing := false, duration := Since(st.firstBreach, now));
        st := st.(firing := false, clears := 0);
      }
      Note(key, false, now, st, d);
    }

    /** Stores the key's new state; d is what the caller is about to return. */
    method Note(key: string, breached: bool, now: int, st: KeyState, ghost d: Decision)
      requires Valid() && Respond(cfg, Lookup(states, key), InputOf(breached, now)) == (st, d)
      modifies this
      ensures Valid() && events == old(events) + [Observed(key, breached, now)]
      ensures Seen(cfg, events, key) == Seen(cfg, old(events), key) + [InputOf(breached, now)]
      ensures d == At(cfg, Seen(cfg, events, key), |Seen(cfg, old(events), key)|)
    {
      hide Respond, After, At;
      ghost var e := Observed(key, breached, now);
      MovesRunAlone(cfg, events, states, e, states[key := st]);
      OneMore(cfg, Seen(cfg, events, key), InputOf(breached, now));
      states := states[key := st];
      events := events + [e];
      assert events[..|events| - 1] == old(events);
    }

    method Observe(key: string, breached: bool, now: int) returns (d: Decision)
      requires Valid()
      modifies this
      ensures Valid() && events == old(events) + [Observed(key, breached, now)]
      ensures d == At(cfg, Seen(cfg, events, key), |Seen(cfg, old(events), key)|)
    {
      if breached {
        d := Breach(key, now);
      } else {
        d := Clear(key, now);
      }
    }

    /** Firing is what the key's history says. */
    method Firing(key: string) returns (firing: bool)
      requires Valid()
      ensures firing <==> IsActive(cfg, Seen(cfg, events, key), |Seen(cfg, events, key)|)
    {
      firing := key in states && states[key].firing;
      FiringIffActive(cfg, Seen(cfg, events, key), |Seen(cfg, events, key)|);
      assert Lookup(states, key).firing == firing;
    }

    method ResetKey(key: string)
      requires Valid()
      modifies this
      ensures Valid() && events == old(events) + [Reset(key)] && states == old(states) - {key}
    {
      hide After;
      MovesRunAlone(cfg, events, states, Reset(key), states - {key});
      states := states - {key};
      events := events + [Reset(key)];
    }

    /** Forgets what is stale, in whatever order the map is walked; never a key that is firing. */
    method Prune(before: int)
      requires Valid()
      modifies this
      ensures Valid() && events == old(events) + [Pruned(before)]
      ensures forall k :: k in states <==> k in old(states) && !IsStale(old(states)[k], before)
      ensures forall k :: k in states ==> states[k] == old(states)[k]
    {
      hide KeysRunAlone, After, IsStale;
      var todo := states.Keys;
      var kept: map<string, KeyState> := states;
      while todo != {}
        invariant todo <= states.Keys
        invariant forall k :: k in kept <==> k in states && (k in todo || !IsStale(states[k], before))
        invariant forall k :: k in kept ==> kept[k] == states[k]
        decreases |todo|
      {
        var k :| k in todo;
        todo := todo - {k};
        if Stale(states[k], before) {
          kept := kept - {k};
        }
      }
      MovesRunAlone(cfg, events, states, Pruned(before), kept);
      states := kept;
      events := events + [Pruned(before)];
    }
  }

  /** The scan's test: the later of the last fire and the start of the latest streak. */
  function Stale(st: KeyState, before: int): (stale: bool)
    ensures stale <==> IsStale(st, before)
  {
    if st.firing then false
    else
      var last := if st.firstBreach.Some? && (st.lastFired.None? || st.firstBreach.value > st.lastFired.value)
                  then st.firstBreach else st.lastFired;
      last.None? || last.value < before
  }
}
