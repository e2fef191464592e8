/** Sustained conditions: a metric at or above a floor for a minimum duration
    (SustainedRule in internal/anomaly/rules.go). */
module Sustained {
  import opened Wrappers

  datatype Config = Config(floor: real, minDuration: int, repeat: int)

  datatype Sample = Sample(value: real, now: int)

  /** A time that was never set is None. */
  datatype State = State(
    since: Option<int>, last: Option<int>, reported: Option<int>, peak: real, total: real, samples: nat)

  const FRESH := State(None, None, None, 0.0, 0.0, 0)

  datatype Finding = Finding(average: real, peak: real, duration: int, samples: nat, ended: bool)

  function Average(total: real, samples: nat): real {
    if samples == 0 then 0.0 else total / samples as real
  }

  function Elapsed(since: Option<int>, now: Option<int>): int {
    if since.Some? && now.Some? then now.value - since.value else 0
  }

  /** A sample below the floor ends the condition; the end is reported only if the start was. */
  function OnLow(st: State): (State, Option<Finding>) {
    if st.since.None? then (st, None)
    else (FRESH,
          if st.reported.None? then None
          else Some(Finding(Average(st.total, st.samples), st.peak, Elapsed(st.since, st.last), st.samples, true)))
  }

  function Folded(st: State, s: Sample): State {
    State(if st.since.None? then Some(s.now) else st.since, Some(s.now), st.reported,
          if s.value > st.peak then s.value else st.peak, st.total + s.value, st.samples + 1)
  }

  predicate IsDue(cfg: Config, st: State, now: int) {
    && Elapsed(st.since, Some(now)) >= cfg.minDuration
    && (st.reported.Some? ==> cfg.repeat > 0 && now - st.reported.value >= cfg.repeat)
  }

  function OnHigh(cfg: Config, st: State, s: Sample): (State, Option<Finding>) {
    var f := Folded(st, s);
    if IsDue(cfg, f, s.now)
    then (f.(reported := Some(s.now)),
          Some(Finding(Average(f.total, f.samples), f.peak, Elapsed(f.since, Some(s.now)), f.samples, false)))
    else (f, None)
  }

  function Respond(cfg: Config, st: State, s: Sample): (State, Option<Finding>) {
    if cfg.minDuration <= 0 then (st, None)
    else if s.value < cfg.floor then OnLow(st)
    else OnHigh(cfg, st, s)
  }

  /** The state of one dimension after its first n samples. */
  function After(cfg: Config, samples: seq<Sample>, n: nat): State
    requires n <= |samples|
  {
    if n == 0 then FRESH else Respond(cfg, After(cfg, samples, n - 1), samples[n - 1]).0
  }

  function At(cfg: Config, samples: seq<Sample>, i: nat): Option<Finding>
    requires i < |samples|
  {
    Respond(cfg, After(cfg, samples, i), samples[i]).1
  }

  // ----- Runs -------------------------------------------------------------------------------

  /** The k samples before position n are an unbroken run at or above the floor, and the longest. */
  ghost predicate IsRun(floor: real, samples: seq<Sample>, n: nat, k: nat) {
    && k <= n <= |samples| && (forall i :: n - k <= i < n ==> samples[i].value >= floor)
    && (k < n ==> samples[n - k - 1].value < floor)
  }

  function SumOf(samples: seq<Sample>, n: nat, k: nat): real
    requires k <= n <= |samples|
  {
    if k == 0 then 0.0 else SumOf(samples, n - 1, k - 1) + samples[n - 1].value
  }

  /** The largest of the k samples before position n, and of zero. */
  ghost predicate IsPeak(samples: seq<Sample>, n: nat, k: nat, peak: real) {
    && k <= n <= |samples| && peak >= 0.0
    && (forall i :: n - k <= i < n ==> samples[i].value <= peak)
    && (peak == 0.0 || exists i :: n - k <= i < n && samples[i].value == peak)
  }

  /** What the incremental state says of the run it stands in. */
  ghost predicate Describes(cfg: Config, samples: seq<Sample>, n: nat, st: State) {
    && IsRun(cfg.floor, samples, n, st.samples)
    && st.total == SumOf(samples, n, st.samples) && IsPeak(samples, n, st.samples, st.peak)
    && (if st.samples == 0 then st == FRESH
        else st.since == Some(samples[n - st.samples].now) && st.last == Some(samples[n - 1].now))
  }

  lemma {:induction false} StateDescribes(cfg: Config, samples: seq<Sample>, n: nat)
    requires n <= |samples| && cfg.minDuration > 0
    ensures Describes(cfg, samples, n, After(cfg, samples, n))
  {
    if n > 0 {
      StateDescribes(cfg, samples, n - 1);
      StepDescribes(cfg, samples, n - 1, After(cfg, samples, n - 1));
    }
  }

  lemma StepDescribes(cfg: Config, samples: seq<Sample>, i: nat, st: State)
    requires i < |samples| && cfg.minDuration > 0 && Describes(cfg, samples, i, st)
    ensures Describes(cfg, samples, i + 1, Respond(cfg, st, samples[i]).0)
    ensures samples[i].value >= cfg.floor ==> Describes(cfg, samples, i + 1, Folded(st, samples[i]))
  {
    if samples[i].value >= cfg.floor {
      var peak := Folded(st, samples[i]).peak;
      assert IsPeak(samples, i + 1, st.samples + 1, peak) by {
        if peak != 0.0 && peak != samples[i].value {
          var j :| i - st.samples <= j < i && samples[j].value == peak;
        }
      }
    }
  }

  lemma {:induction false} SumIsAtLeast(samples: seq<Sample>, n: nat, k: nat, floor: real)
    requires k <= n <= |samples|
    requires forall i :: n - k <= i < n ==> samples[i].value >= floor
    ensures SumOf(samples, n, k) >= floor * k as real
  {
    if k > 0 {
      SumIsAtLeast(samples, n - 1, k - 1, floor);
      assert floor * k as real == floor * (k - 1) as real + floor;
    }
  }

  lemma {:induction false} SumIsAtMost(samples: seq<Sample>, n: nat, k: nat, peak: real)
    requires k <= n <= |samples|
    requires forall i :: n - k <= i < n ==> samples[i].value <= peak
    ensures SumOf(samples, n, k) <= peak * k as real
  {
    if k > 0 {
      SumIsAtMost(samples, n - 1, k - 1, peak);
      assert peak * k as real == peak * (k - 1) as real + peak;
    }
  }

  lemma AverageOfSum(total: real, k: nat, floor: real, peak: real)
    requires k > 0 && floor * k as real <= total <= peak * k as real
    ensures Average(total, k) * k as real == total
    ensures floor <= Average(total, k) <= peak
  {
    var a := Average(total, k);
    if a < floor {
    }
    if a > peak {
    }
  }

  /** The figures of a finding are those of the run of samples before position n. */
  ghost predicate IsAbout(cfg: Config, samples: seq<Sample>, n: nat, f: Finding) {
    && 0 < f.samples && IsRun(cfg.floor, samples, n, f.samples)
    && f.average * f.samples as real == SumOf(samples, n, f.samples)
    && cfg.floor <= f.average <= f.peak && IsPeak(samples, n, f.samples, f.peak)
    && f.duration == samples[n - 1].now - samples[n - f.samples].now
  }

  lemma DescribedIsAbout(cfg: Config, samples: seq<Sample>, n: nat, st: State, f: Finding)
    requires Describes(cfg, samples, n, st) && st.samples > 0
    requires f == Finding(Average(st.total, st.samples), st.peak, Elapsed(st.since, st.last), st.samples, f.ended)
    ensures IsAbout(cfg, samples, n, f)
  {
    hide Average;
    var k := st.samples;
    SumIsAtLeast(samples, n, k, cfg.floor);
    SumIsAtMost(samples, n, k, st.peak);
    AverageOfSum(st.total, k, cfg.floor, st.peak);
  }

  predicate Starts(f: Option<Finding>) { f.Some? && !f.value.ended }

  predicate Ends(f: Option<Finding>) { f.Some? && f.value.ended }

  /** An ongoing report is about the whole unbroken run so far, which spans MinDuration. */
  lemma OngoingIsAboutTheRun(cfg: Config, samples: seq<Sample>, i: nat)
    requires i < |samples| && Starts(At(cfg, samples, i))
    ensures IsAbout(cfg, samples, i + 1, At(cfg, samples, i).value)
    ensures At(cfg, samples, i).value.duration >= cfg.minDuration > 0
  {
    hide Describes, IsAbout, Average;
    var st := After(cfg, samples, i);
    StateDescribes(cfg, samples, i);
    StepDescribes(cfg, samples, i, st);
    DescribedIsAbout(cfg, samples, i + 1, Folded(st, samples[i]), At(cfg, samples, i).value);
  }

  /** An end is about the whole run that the low sample broke. */
  lemma EndIsAboutTheRun(cfg: Config, samples: seq<Sample>, i: nat)
    requires i < |samples| && Ends(At(cfg, samples, i))
    ensures samples[i].value < cfg.floor && IsAbout(cfg, samples, i, At(cfg, samples, i).value)
  {
    hide IsAbout, Average;
    StateDescribes(cfg, samples, i);
    DescribedIsAbout(cfg, samples, i, After(cfg, samples, i), At(cfg, samples, i).value);
  }

  /** The reported peak is the run's maximum exactly when the run is not all negative. */
  lemma PeakIsMaximumIff(samples: seq<Sample>, n: nat, k: nat, peak: real)
    requires k > 0 && IsPeak(samples, n, k, peak)
    ensures (exists i :: n - k <= i < n && samples[i].value == peak)
       <==> (exists i :: n - k <= i < n && samples[i].value >= 0.0)
  {
  }

  /** Two samples of -2 over a floor of -5 are reported with a peak of zero. */
  lemma NegativeRunHasNoPeak()
    ensures var cfg, samples := Config(-5.0, 1, 0), [Sample(-2.0, 0), Sample(-2.0, 1)];
            Starts(At(cfg, samples, 1)) && At(cfg, samples, 1).value.peak == 0.0
  {
    var cfg, samples := Config(-5.0, 1, 0), [Sample(-2.0, 0), Sample(-2.0, 1)];
    assert After(cfg, samples, 0) == FRESH;
    assert After(cfg, samples, 1) == OnHigh(cfg, FRESH, samples[0]).0;
  }

  // ----- Reports of one run ---------------------------------------------------------------

  /** Sample j reported, in the run that the k samples before position n make. */
  ghost predicate ReportedIn(cfg: Config, samples: seq<Sample>, n: nat, j: nat) {
    && j < n <= |samples| && Starts(At(cfg, samples, j))
    && forall i :: j <= i < n ==> samples[i].value >= cfg.floor
  }

  /** What one sample does to the memo of the last report. */
  lemma ReportStep(cfg: Config, samples: seq<Sample>, i: nat)
    requires i < |samples| && cfg.minDuration > 0
    ensures After(cfg, samples, i + 1).reported
         == if samples[i].value < cfg.floor then None
            else if Starts(At(cfg, samples, i)) then Some(samples[i].now)
            else After(cfg, samples, i).reported
    ensures Starts(At(cfg, samples, i)) ==> samples[i].value >= cfg.floor
    ensures !Ends(At(cfg, samples, i)) || samples[i].value < cfg.floor
  {
    StateDescribes(cfg, samples, i);
  }

  lemma {:induction false} LatestReport(cfg: Config, samples: seq<Sample>, n: nat) returns (j: nat)
    requires n <= |samples| && cfg.minDuration > 0 && After(cfg, samples, n).reported.Some?
    ensures ReportedIn(cfg, samples, n, j) && After(cfg, samples, n).reported == Some(samples[j].now)
  {
    hide At;
    ReportStep(cfg, samples, n - 1);
    if Starts(At(cfg, samples, n - 1)) {
      j := n - 1;
    } else {
      j := LatestReport(cfg, samples, n - 1);
    }
  }

  lemma {:induction false} ReportIsRemembered(cfg: Config, samples: seq<Sample>, n: nat, j: nat)
    requires cfg.minDuration > 0 && ReportedIn(cfg, samples, n, j)
    ensures After(cfg, samples, n).reported.Some?
    ensures cfg.repeat > 0 ==> samples[j].now <= After(cfg, samples, n).reported.value
  {
    ReportStep(cfg, samples, n - 1);
    if j < n - 1 {
      assert ReportedIn(cfg, samples, n - 1, j);
      ReportIsRemembered(cfg, samples, n - 1, j);
    }
  }

  /** A dimension is reported exactly when its unbroken run spans MinDuration, and the run has no
      earlier report closer than Repeat, or none at all when Repeat is not positive. */
  lemma {:induction false} ReportsIff(cfg: Config, samples: seq<Sample>, i: nat, k: nat)
    requires i < |samples| && cfg.minDuration > 0 && IsRun(cfg.floor, samples, i + 1, k)
    ensures Starts(At(cfg, samples, i))
       <==> && k > 0 && samples[i].now - samples[i + 1 - k].now >= cfg.minDuration
            && forall j: nat :: ReportedIn(cfg, samples, i, j) && samples[i].value >= cfg.floor ==>
                 cfg.repeat > 0 && samples[i].now - samples[j].now >= cfg.repeat
  {
    hide After, At, SumOf, IsPeak;
    var st := After(cfg, samples, i);
    StateDescribes(cfg, samples, i);
    StartsWhenDue(cfg, samples, i);
    if samples[i].value >= cfg.floor {
      forall j: nat | ReportedIn(cfg, samples, i, j)
        ensures st.reported.Some? && (cfg.repeat > 0 ==> samples[j].now <= st.reported.value)
      {
        ReportIsRemembered(cfg, samples, i, j);
      }
      if st.reported.Some? {
        var j := LatestReport(cfg, samples, i);
      }
    }
  }

  lemma StartsWhenDue(cfg: Config, samples: seq<Sample>, i: nat)
    requires i < |samples| && cfg.minDuration > 0
    ensures Starts(At(cfg, samples, i))
       <==> samples[i].value >= cfg.floor && IsDue(cfg, Folded(After(cfg, samples, i), samples[i]), samples[i].now)
  {
  }

  /** Repeats within one run are at least Repeat apart; without Repeat there is only one report. */
  lemma RepeatsAreApart(cfg: Config, samples: seq<Sample>, j: nat, i: nat)
    requires cfg.minDuration > 0 && i < |samples| && Starts(At(cfg, samples, i)) && ReportedIn(cfg, samples, i, j)
    ensures cfg.repeat > 0 && samples[i].now - samples[j].now >= cfg.repeat
  {
    ReportIsRemembered(cfg, samples, i, j);
  }

  /** An end comes exactly at the low sample that breaks a reported run: once for every reported
      run, never for an unreported one. */
  lemma EndsIff(cfg: Config, samples: seq<Sample>, i: nat)
    requires cfg.minDuration > 0 && i < |samples|
    ensures Ends(At(cfg, samples, i))
       <==> samples[i].value < cfg.floor && exists j: nat :: ReportedIn(cfg, samples, i, j)
  {
    StateDescribes(cfg, samples, i);
    var st := After(cfg, samples, i);
    if st.reported.Some? {
      var j := LatestReport(cfg, samples, i);
    }
    if j: nat :| ReportedIn(cfg, samples, i, j) {
      ReportIsRemembered(cfg, samples, i, j);
    }
  }

  /** Two ends never come from the same report. */
  lemma EndsAreOfDifferentRuns(cfg: Config, samples: seq<Sample>, i: nat, m: nat, j: nat)
    requires cfg.minDuration > 0 && i < m < |samples| && Ends(At(cfg, samples, i))
    ensures !(ReportedIn(cfg, samples, i, j) && ReportedIn(cfg, samples, m, j))
  {
    EndsIff(cfg, samples, i);
  }

  lemma NothingWithoutMinDuration(cfg: Config, samples: seq<Sample>, i: nat)
    requires cfg.minDuration <= 0 && i < |samples|
    ensures At(cfg, samples, i) == None
  {
  }

  // ----- The rule ------------------------------------------------------------------------------

  function Lookup(state: map<string, State>, dimension: string): State {
    if dimension in state then state[dimension] else FRESH
  }

  function SamplesOf(seen: map<string, seq<Sample>>, dimension: string): seq<Sample> {
    if dimension in seen then seen[dimension] else []
  }

  lemma {:induction false} AfterPrefix(cfg: Config, samples: seq<Sample>, s: Sample, n: nat)
    requires n <= |samples|
    ensures After(cfg, samples + [s], n) == After(cfg, samples, n)
  {
    if n > 0 {
      AfterPrefix(cfg, samples, s, n - 1);
    }
  }

  class Rule {
    const cfg: Config
    var state: map<string, State>
    /** Every sample of every dimension. */
    ghost var seen: map<string, seq<Sample>>

    /** Each dimension's state is that of its own samples. */
    ghost predicate Valid()
      reads this
    {
      forall d :: Lookup(state, d) == After(cfg, SamplesOf(seen, d), |SamplesOf(seen, d)|)
    }

    constructor (floor: real, minDuration: int, repeat: int)
      ensures Valid() && seen == map[] && cfg == Config(floor, minDuration, repeat)
    {
      cfg := Config(floor, minDuration, repeat);
      state, seen := map[], map[];
    }

    method Observe(dimension: string, value: real, now: int) returns (f: Option<Finding>)
      requires Valid()
      modifies this
      ensures Valid()
      ensures seen == old(seen)[dimension := SamplesOf(old(seen), dimension) + [Sample(value, now)]]
      ensures f == At(cfg, SamplesOf(seen, dimension), |SamplesOf(old(seen), dimension)|)
    {
      hide Average;
      if cfg.minDuration <= 0 {
        Note(dimension, Sample(value, now), Lookup(state, dimension), None);
        return None;
      }
      var st := Lookup(state, dimension);
      f := None;
      if value < cfg.floor {
        if st.since.Some? {
          if st.reported.Some? {
            f := Some(Finding(Average(st.total, st.samples), st.peak, Elapsed(st.since, st.last), st.samples, true));
          }
          st := FRESH;
        }
      } else {
        if st.since.None? {
          st := st.(since := Some(now));
        }
        st := st.(last := Some(now), samples := st.samples + 1, total := st.total + value);
        if value > st.peak {
          st := st.(peak := value);
        }
        var elapsed := Elapsed(st.since, Some(now));
        if elapsed >= cfg.minDuration
            && (st.reported.None? || !(cfg.repeat <= 0 || now - st.reported.value < cfg.repeat)) {
          st := st.(reported := Some(now));
          f := Some(Finding(Average(st.total, st.samples), st.peak, elapsed, st.samples, false));
        }
      }
      Note(dimension, Sample(value, now), st, f);
      state := state[dimension := st];
    }

    /** Adds a sample to the history; next is the state that the dimension is about to have. */
    ghost method Note(dimension: string, s: Sample, next: State, f: Option<Finding>)
      requires Valid() && Respond(cfg, Lookup(state, dimension), s) == (next, f)
      modifies this`seen
      ensures seen == old(seen)[dimension := SamplesOf(old(seen), dimension) + [s]]
      ensures f == At(cfg, SamplesOf(seen, dimension), |SamplesOf(old(seen), dimension)|)
      ensures next == After(cfg, SamplesOf(seen, dimension), |SamplesOf(seen, dimension)|)
      ensures forall d :: d != dimension ==> Lookup(state, d) == After(cfg, SamplesOf(seen, d), |SamplesOf(seen, d)|)
    {
      hide Respond;
      var samples := SamplesOf(seen, dimension);
      assert Lookup(state, dimension) == After(cfg, samples, |samples|);
      AfterPrefix(cfg, samples, s, |samples|);
      seen := seen[dimension := samples + [s]];
    }

    /** Above the floor exactly when the last sample was, for as long as the unbroken run. */
    method Active(dimension: string) returns (duration: int, active: bool)
      requires Valid() && cfg.minDuration > 0
      ensures var samples := SamplesOf(seen, dimension);
              && (active <==> samples != [] && samples[|samples| - 1].value >= cfg.floor)
              && (active ==> exists k :: 0 < k && IsRun(cfg.floor, samples, |samples|, k)
                                       && duration == samples[|samples| - 1].now - samples[|samples| - k].now)
    {
      ghost var samples := SamplesOf(seen, dimension);
      StateDescribes(cfg, samples, |samples|);
      var st := Lookup(state, dimension);
      assert st == After(cfg, samples, |samples|);
      if dimension !in state || st.since.None? {
        return 0, false;
      }
      return Elapsed(st.since, st.last), true;
    }
  }
}
