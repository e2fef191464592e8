/** Write-back of baselines (internal/agent/monitor_anomaly.go): a flush takes, saves and prunes under
    three locks; samples, the retention delete and a crash may come between any two. */
module WriteBack {
  import opened Wrappers
  import opened Baselines
  import opened BaselineEngine

  // ----- Steps ----------------------------------------------------------------------------------

  /** How far the flush is: the rows it has taken and not saved, or saved and not pruned. */
  datatype Phase = Idle | Saving(rows: map<Key, Baseline>) | Saved

  /** Engine, flush and table; cutoff is the latest age limit the table was pruned to. */
  datatype State = State(
    cfg: Config, mem: map<Key, Baseline>, dirty: set<Key>, phase: Phase, table: map<Key, Baseline>, cutoff: int)

  datatype Step =
    | Sampled(key: Key, value: real, at: int)
    | Taken
    | SavedOk
    | SaveFailed
    | Swept(now: int)
    | TablePruned(olderThan: int)
    | Restarted(cfg: Config)

  /** The rows in flight. */
  function Flying(s: State): map<Key, Baseline> {
    if s.phase.Saving? then s.phase.rows else map[]
  }

  /** One flush at a time; nothing is saved, so nothing fails, when nothing had changed. */
  predicate Enabled(s: State, step: Step) {
    match step
    case Taken => s.phase.Idle?
    case SavedOk => s.phase.Saving?
    case SaveFailed => s.phase.Saving? && s.phase.rows != map[]
    case Swept(_) => s.phase.Saved?
    case _ => true
  }

  function Upserts(table: map<Key, Baseline>, rows: map<Key, Baseline>): map<Key, Baseline> {
    map k | k in table.Keys + rows.Keys :: if k in rows then Upserted(table, Row(k, rows[k])) else table[k]
  }

  function Changed(mem: map<Key, Baseline>, dirty: set<Key>): map<Key, Baseline> {
    map k | k in dirty && k in mem :: mem[k]
  }

  function Apply(s: State, step: Step): State {
    match step
    case Sampled(key, value, at) =>
      s.(mem := s.mem[key := Add(s.cfg, PriorTo(s.mem, key, value, at), value, at)], dirty := s.dirty + {key})
    case Taken => s.(dirty := {}, phase := Saving(Changed(s.mem, s.dirty)))
    case SavedOk => s.(table := Upserts(s.table, Flying(s)), phase := Saved)
    case SaveFailed => s.(phase := Idle)
    case Swept(now) =>
      var mem := Kept(s.mem, now - s.cfg.maxAge);
      s.(mem := mem, dirty := s.dirty * mem.Keys, phase := Idle)
    case TablePruned(olderThan) =>
      s.(table := Kept(s.table, olderThan), cutoff := if olderThan > s.cutoff then olderThan else s.cutoff)
    case Restarted(c) =>
      var cfg := Effective(c);
      s.(cfg := cfg, mem := map k | k in s.table :: Restored(cfg, s.table[k]), dirty := {}, phase := Idle)
  }

  function Start(cfg: Config, cutoff: int): State {
    State(Effective(cfg), map[], {}, Idle, map[], cutoff)
  }

  function Run(s: State, steps: seq<Step>): State {
    if steps == [] then s else Apply(Run(s, steps[..|steps| - 1]), steps[|steps| - 1])
  }

  predicate IsRun(s: State, steps: seq<Step>) {
    steps == [] || (IsRun(s, steps[..|steps| - 1]) && Enabled(Run(s, steps[..|steps| - 1]), steps[|steps| - 1]))
  }

  // ----- What is stored, in flight and lost ------------------------------------------------------

  /** Loading the stored row now would give back the baseline in memory, first_seen aside. */
  predicate StoredFor(s: State, k: Key)
    requires k in s.mem
  {
    k in s.table && s.mem[k] == Restored(s.cfg, s.table[k]).(firstSeen := s.mem[k].firstSeen)
  }

  /** A baseline that is neither awaiting a flush nor past the table's age limit. */
  predicate Settled(s: State, k: Key)
    requires k in s.mem
  {
    k !in s.dirty && s.mem[k].updatedAt >= s.cutoff
  }

  /** The keys that a failed save cleared and that had no sample and no restart since. */
  function Lost(s: State, steps: seq<Step>): set<Key> {
    if steps == [] then {}
    else LostAfter(Run(s, steps[..|steps| - 1]), Lost(s, steps[..|steps| - 1]), steps[|steps| - 1])
  }

  function LostAfter(s: State, lost: set<Key>, step: Step): set<Key> {
    match step
    case Sampled(key, _, _) => lost - {key}
    case SaveFailed => lost + (Flying(s).Keys - s.dirty)
    case Restarted(_) => {}
    case _ => lost
  }

  /** Taken rows are in memory still; without a sample since they are what memory holds. */
  ghost predicate FlyingAgrees(s: State) {
    forall k :: k in Flying(s) ==> k in s.mem && (k !in s.dirty ==> s.mem[k] == Flying(s)[k])
  }

  /** Every settled key is stored, or equal to its row in flight, or lost by a failed save. */
  ghost predicate Accounted(s: State, lost: set<Key>) {
    forall k :: k in s.mem && Settled(s, k) ==> StoredFor(s, k) || k in Flying(s) || k in lost
  }

  ghost predicate WellKept(s: State) {
    && s.cfg.Valid() && s.dirty <= s.mem.Keys
    && forall k :: k in s.mem ==> Restored(s.cfg, s.mem[k]) == s.mem[k]
  }

  ghost predicate Inv(s: State, lost: set<Key>) {
    WellKept(s) && FlyingAgrees(s) && Accounted(s, lost)
  }

  lemma AddIsNewer(cfg: Config, b: Baseline, value: real, at: int)
    ensures var next := Add(cfg, b, value, at);
            Restored(cfg, next) == next && next.updatedAt == at && next.samples == b.samples + 1
  {
    hide Quotient;
  }

  lemma StepKeepsWellKept(s: State, step: Step)
    requires WellKept(s) && Enabled(s, step)
    ensures WellKept(Apply(s, step))
  {
    hide Add;
    if step.Sampled? {
      AddIsNewer(s.cfg, PriorTo(s.mem, step.key, step.value, step.at), step.value, step.at);
    }
  }

  lemma StepKeepsFlying(s: State, step: Step)
    requires s.dirty <= s.mem.Keys && FlyingAgrees(s) && Enabled(s, step)
    ensures FlyingAgrees(Apply(s, step))
  {
    hide Add, PriorTo;
  }

  lemma StepKeepsAccounted(s: State, lost: set<Key>, step: Step)
    requires Inv(s, lost) && Enabled(s, step)
    ensures Accounted(Apply(s, step), LostAfter(s, lost, step))
  {
    hide Add;
    var t := Apply(s, step);
    forall k | k in t.mem && Settled(t, k)
      ensures StoredFor(t, k) || k in Flying(t) || k in LostAfter(s, lost, step)
    {
      if !step.Restarted? && k in s.mem && k !in s.dirty && !step.Sampled? {
        assert Settled(s, k);
        assert s.mem[k] == Restored(s.cfg, s.mem[k]);
      }
    }
  }

  /** Over every interleaving of samples, flush parts, deletes and restarts, saves failing or not. */
  lemma {:induction false} RunIsAccounted(cfg: Config, cutoff: int, steps: seq<Step>)
    requires IsRun(Start(cfg, cutoff), steps)
    ensures Inv(Run(Start(cfg, cutoff), steps), Lost(Start(cfg, cutoff), steps))
  {
    hide WellKept, FlyingAgrees, Accounted, Apply, LostAfter, Enabled;
    var from := Start(cfg, cutoff);
    if steps == [] {
      StartIsAccounted(cfg, cutoff);
    } else {
      var init, last := steps[..|steps| - 1], steps[|steps| - 1];
      RunIsAccounted(cfg, cutoff, init);
      var s, lost := Run(from, init), Lost(from, init);
      StepKeepsWellKept(s, last);
      DirtyIsInMemory(s);
      StepKeepsFlying(s, last);
      StepKeepsAccounted(s, lost, last);
    }
  }

  lemma StartIsAccounted(cfg: Config, cutoff: int)
    ensures Inv(Start(cfg, cutoff), {})
  {
  }

  lemma DirtyIsInMemory(s: State)
    requires WellKept(s)
    ensures s.dirty <= s.mem.Keys
  {
  }

  /** A run from an empty start ends in this state, with these keys lost. */
  ghost predicate Ends(cfg: Config, cutoff: int, steps: seq<Step>, s: State, lost: set<Key>) {
    IsRun(Start(cfg, cutoff), steps) && s == Run(Start(cfg, cutoff), steps) && lost == Lost(Start(cfg, cutoff), steps)
  }

  /** Write-back coherence: after any run a settled key is stored, or its row in flight is what memory
      holds, unless a failed save lost it. */
  lemma {:induction false} SettledIsStored(
    cfg: Config, cutoff: int, steps: seq<Step>, s: State, lost: set<Key>, k: Key)
    requires Ends(cfg, cutoff, steps, s, lost) && k in s.mem && Settled(s, k) && k !in lost
    ensures StoredFor(s, k) || (k in Flying(s) && s.mem[k] == Flying(s)[k])
  {
    hide Run, Lost, IsRun;
    RunIsAccounted(cfg, cutoff, steps);
  }

  // ----- Exactly what is stored -----------------------------------------------------------------

  function TimeOf(step: Step): Option<int> {
    match step
    case Sampled(_, _, at) => Some(at)
    case Swept(now) => Some(now)
    case _ => None
  }

  /** The time of the latest sample or sweep. */
  function Clock(start: int, steps: seq<Step>): int {
    if steps == [] then start
    else match TimeOf(steps[|steps| - 1]) case None => Clock(start, steps[..|steps| - 1]) case Some(t) => t
  }

  /** Samples and sweeps come in time order. */
  predicate InTimeOrder(start: int, steps: seq<Step>) {
    if steps == [] then true
    else
      var init, t := steps[..|steps| - 1], TimeOf(steps[|steps| - 1]);
      InTimeOrder(start, init) && (t.Some? ==> Clock(start, init) <= t.value)
  }

  /** An earlier version of a baseline: touched before, or as late with fewer samples. */
  predicate Before(b: Baseline, c: Baseline) {
    b.updatedAt < c.updatedAt || (b.updatedAt == c.updatedAt && b.samples < c.samples)
  }

  predicate NotAfter(b: Baseline, c: Baseline) {
    b.updatedAt < c.updatedAt || (b.updatedAt == c.updatedAt && b.samples <= c.samples)
  }

  /** What is changed, in flight or lost is ahead of its stored row. */
  predicate Ahead(s: State, lost: set<Key>, k: Key) {
    k in s.dirty || k in Flying(s) || k in lost
  }

  ghost predicate Versions(s: State, lost: set<Key>, clock: int) {
    && s.cfg.Valid()
    && (forall k :: k in s.mem ==> s.mem[k].updatedAt <= clock)
    && (forall k :: k in s.table && k in s.mem ==> NotAfter(s.table[k], s.mem[k]))
    && (forall k :: k in s.table && k in s.mem && Ahead(s, lost, k) ==> Before(s.table[k], s.mem[k]))
    && (forall k :: k in s.table && k !in s.mem ==> s.table[k].updatedAt < clock)
  }

  ghost predicate FlyingVersions(s: State, lost: set<Key>) {
    && (forall k :: k in Flying(s) ==> k in s.mem && NotAfter(Flying(s)[k], s.mem[k]))
    && (forall k :: k in Flying(s) && k in s.dirty ==> Before(Flying(s)[k], s.mem[k]))
    && (forall k :: k in lost ==> k !in s.dirty && k !in Flying(s))
  }

  function ClockAfter(clock: int, step: Step): int {
    match TimeOf(step) case None => clock case Some(t) => t
  }

  lemma StepKeepsVersions(s: State, lost: set<Key>, clock: int, step: Step)
    requires Versions(s, lost, clock) && FlyingVersions(s, lost) && Enabled(s, step)
    requires clock <= ClockAfter(clock, step)
    ensures Versions(Apply(s, step), LostAfter(s, lost, step), ClockAfter(clock, step))
  {
    hide Add;
    if step.Sampled? {
      SampleKeepsVersions(s, lost, clock, step.key, step.value, step.at);
    } else if step.Restarted? {
    }
  }

  lemma SampleKeepsVersions(s: State, lost: set<Key>, clock: int, key: Key, value: real, at: int)
    requires Versions(s, lost, clock) && clock <= at
    ensures Versions(Apply(s, Sampled(key, value, at)), lost - {key}, at)
  {
    hide Add;
    AddIsNewer(s.cfg, PriorTo(s.mem, key, value, at), value, at);
  }

  lemma StepKeepsFlyingVersions(s: State, lost: set<Key>, clock: int, step: Step)
    requires Versions(s, lost, clock) && FlyingVersions(s, lost) && Enabled(s, step)
    requires clock <= ClockAfter(clock, step)
    ensures FlyingVersions(Apply(s, step), LostAfter(s, lost, step))
  {
    hide Add;
    if step.Sampled? {
      AddIsNewer(s.cfg, PriorTo(s.mem, step.key, step.value, step.at), step.value, step.at);
    }
  }

  lemma {:induction false} RunKeepsVersions(cfg: Config, cutoff: int, start: int, steps: seq<Step>)
    requires IsRun(Start(cfg, cutoff), steps) && InTimeOrder(start, steps)
    ensures Versions(Run(Start(cfg, cutoff), steps), Lost(Start(cfg, cutoff), steps), Clock(start, steps))
    ensures FlyingVersions(Run(Start(cfg, cutoff), steps), Lost(Start(cfg, cutoff), steps))
  {
    hide Versions, FlyingVersions, Apply, LostAfter, Enabled;
    var s := Start(cfg, cutoff);
    if steps == [] {
      StartHasVersions(cfg, cutoff, start);
    } else {
      var init, last := steps[..|steps| - 1], steps[|steps| - 1];
      RunKeepsVersions(cfg, cutoff, start, init);
      StepKeepsVersions(Run(s, init), Lost(s, init), Clock(start, init), last);
      StepKeepsFlyingVersions(Run(s, init), Lost(s, init), Clock(start, init), last);
    }
  }

  lemma StartHasVersions(cfg: Config, cutoff: int, start: int)
    ensures Versions(Start(cfg, cutoff), {}, start) && FlyingVersions(Start(cfg, cutoff), {})
  {
  }

  /** With samples and sweeps in time order a settled key is stored exactly when its row is not in
      flight and no failed save has lost it. */
  lemma {:induction false} SettledIsStoredIff(
    cfg: Config, cutoff: int, start: int, steps: seq<Step>, s: State, lost: set<Key>, k: Key)
    requires Ends(cfg, cutoff, steps, s, lost) && InTimeOrder(start, steps)
    requires k in s.mem && Settled(s, k)
    ensures StoredFor(s, k) <==> k !in Flying(s) && k !in lost
  {
    hide Run, Lost, IsRun, InTimeOrder, Clock;
    RunIsAccounted(cfg, cutoff, steps);
    RunKeepsVersions(cfg, cutoff, start, steps);
  }

  // ----- Restarts, saves and failures --------------------------------------------------------------

  /** A restart at any point of any run brings back every settled baseline that is neither in flight
      nor lost, as it was but for first_seen, with readiness derived from the configuration. */
  lemma {:induction false} RestartRestores(
    cfg: Config, cutoff: int, steps: seq<Step>, s: State, lost: set<Key>, k: Key)
    requires Ends(cfg, cutoff, steps, s, lost)
    requires k in s.mem && Settled(s, k) && k !in Flying(s) && k !in lost
    ensures BringsBack(s, k)
  {
    hide Run, Lost, IsRun, BringsBack;
    RunIsAccounted(cfg, cutoff, steps);
    StoredIsBroughtBack(s, k);
  }

  /** A restart now gives the baseline back. */
  ghost predicate BringsBack(s: State, k: Key)
    requires k in s.mem
  {
    var again := Apply(s, Restarted(s.cfg));
    && k in again.mem && again.mem[k] == s.mem[k].(firstSeen := again.mem[k].firstSeen)
    && again.mem[k].established == (s.mem[k].samples >= s.cfg.minObservations)
    && Settled(again, k)
  }

  lemma StoredIsBroughtBack(s: State, k: Key)
    requires s.cfg.Valid() && k in s.mem && Settled(s, k) && StoredFor(s, k)
    ensures BringsBack(s, k)
  {
  }

  /** Between a successful save and the sweep everything within the age limit is stored, but for what
      was sampled since it was taken, or lost by an earlier failure and not sampled since. */
  lemma {:induction false} SavingSettlesTheRest(
    cfg: Config, cutoff: int, steps: seq<Step>, s: State, lost: set<Key>, k: Key)
    requires Ends(cfg, cutoff, steps, s, lost) && s.phase.Saved? && k in s.mem && k !in lost
    ensures k in s.dirty || s.mem[k].updatedAt < s.cutoff || StoredFor(s, k)
  {
    hide Run, Lost, IsRun;
    RunIsAccounted(cfg, cutoff, steps);
  }

  ghost predicate AllStored(s: State) {
    forall k :: k in s.mem && Settled(s, k) ==> StoredFor(s, k)
  }

  lemma RunMore(s: State, steps: seq<Step>, step: Step)
    requires IsRun(s, steps) && Enabled(Run(s, steps), step)
    ensures IsRun(s, steps + [step]) && Run(s, steps + [step]) == Apply(Run(s, steps), step)
    ensures Lost(s, steps + [step]) == LostAfter(Run(s, steps), Lost(s, steps), step)
    ensures forall start :: InTimeOrder(start, steps) && TimeOf(step) == None ==> InTimeOrder(start, steps + [step])
  {
    assert (steps + [step])[..|steps|] == steps;
  }

  /** A flush whose save fails leaves everything stored exactly when, before it, nothing within the
      age limit had changed or was lost already. */
  lemma {:induction false} FailedFlushIsCoherentIff(
    cfg: Config, cutoff: int, start: int, steps: seq<Step>, s: State, lost: set<Key>)
    requires Ends(cfg, cutoff, steps, s, lost) && InTimeOrder(start, steps)
    requires s.phase.Idle? && s.dirty != {}
    ensures IsRun(Start(cfg, cutoff), steps + [Taken] + [SaveFailed])
    ensures AllStored(Run(Start(cfg, cutoff), steps + [Taken] + [SaveFailed])) <==>
            forall k :: k in s.mem && s.mem[k].updatedAt >= s.cutoff ==> k !in s.dirty && k !in lost
  {
    hide Run, Lost, IsRun, InTimeOrder, StoredFor;
    var from, all := Start(cfg, cutoff), steps + [Taken] + [SaveFailed];
    RunIsAccounted(cfg, cutoff, steps);
    RunMore(from, steps, Taken);
    var changed :| changed in s.dirty;
    assert changed in Flying(Run(from, steps + [Taken]));
    RunMore(from, steps + [Taken], SaveFailed);
    var t, gone := Run(from, all), Lost(from, all);
    forall k | k in t.mem && Settled(t, k)
      ensures StoredFor(t, k) <==> k !in s.dirty && k !in lost
    {
      SettledIsStoredIff(cfg, cutoff, start, all, t, gone, k);
    }
  }

  /** One sample and one failed save: the baseline is in memory, counts as saved, and is not. */
  lemma FailedSaveLosesASample(cfg: Config)
    ensures var steps := [Sampled(Key("latency_ms", "", "all"), 12.0, 5), Taken, SaveFailed];
            && IsRun(Start(cfg, 0), steps) && !AllStored(Run(Start(cfg, 0), steps))
            && Apply(Run(Start(cfg, 0), steps), Restarted(cfg)).mem == map[]
  {
    hide Add;
    var key := Key("latency_ms", "", "all");
    var from, one := Start(cfg, 0), Sampled(key, 12.0, 5);
    AddIsNewer(from.cfg, PriorTo(from.mem, key, 12.0, 5), 12.0, 5);
    assert [one, Taken, SaveFailed] == [] + [one] + [Taken] + [SaveFailed];
    RunMore(from, [], one);
    RunMore(from, [] + [one], Taken);
    assert key in Flying(Run(from, [] + [one] + [Taken]));
    RunMore(from, [] + [one] + [Taken], SaveFailed);
    var s := Run(from, [one, Taken, SaveFailed]);
    assert key in s.mem && Settled(s, key) && !StoredFor(s, key);
  }

  // ----- The monitor that joins them -----------------------------------------------------------------

  class AnomalyMonitor {
    const engine: Engine
    const db: BaselineTable
    /** The rows that the flush under way has taken. */
    var taken: seq<Row>
    ghost var phase: Phase
    /** The latest age limit the table was pruned to. */
    ghost var cutoff: int

    ghost function Now(): State
      reads this, engine, db
    {
      State(engine.cfg, engine.baselines, engine.dirty, phase, db.rows, cutoff)
    }

    ghost predicate Valid()
      reads this, engine
    {
      engine.Valid() && (phase.Saving? ==> RowsOf(taken, phase.rows.Keys, phase.rows))
    }

    constructor (engine: Engine, db: BaselineTable, ghost cutoff: int)
      requires engine.Valid()
      ensures this.engine == engine && this.db == db && this.cutoff == cutoff && phase == Idle && Valid()
    {
      this.engine, this.db, this.cutoff, this.taken, this.phase := engine, db, cutoff, [], Idle;
    }

    /** Persists what changed, then drops stale baselines; a failed save stops it half way. Other
        goroutines may come between its three parts. */
    method Flush(now: int, saveFails: bool) returns (ok: bool)
      requires Valid() && phase.Idle?
      modifies this, engine, db
      ensures Valid() && phase.Idle?
      ensures ok <==> !(saveFails && old(engine.dirty) != {})
      ensures var took := Apply(old(Now()), Taken);
              Now() == if ok then Apply(Apply(took, SavedOk), Swept(now)) else Apply(took, SaveFailed)
    {
      hide RowsOf, Upserts, Kept;
      Take();
      ok := Save(saveFails);
      if ok {
        Sweep(now);
      }
    }

    method Take()
      requires Valid() && phase.Idle?
      modifies this, engine
      ensures Valid() && phase.Saving? && phase.rows.Keys == old(engine.dirty)
      ensures Now() == Apply(old(Now()), Taken)
    {
      hide AllDescribed;
      ghost var before := Now();
      taken := engine.TakeDirty();
      phase := Saving(Changed(before.mem, before.dirty));
    }

    method Save(fails: bool) returns (ok: bool)
      requires Valid() && phase.Saving?
      modifies this, db
      ensures Valid() && (if ok then phase.Saved? else phase.Idle?)
      ensures ok <==> !(fails && old(phase.rows.Keys) != {})
      ensures Now() == Apply(old(Now()), if ok then SavedOk else SaveFailed)
    {
      hide RowsOf, Distinct, SavedBatch;
      ghost var before, rows := db.rows, phase.rows;
      RowsOfEmpty(taken, rows.Keys, rows);
      if |taken| > 0 {
        if fails {
          phase := Idle;
          return false;
        }
        db.Save(taken);
        SavedRows(taken, rows, before, db.rows);
      } else {
        assert Upserts(before, rows) == before;
      }
      phase := Saved;
      ok := true;
    }

    method Sweep(now: int)
      requires Valid() && phase.Saved?
      modifies this, engine
      ensures Valid() && phase.Idle?
      ensures Now() == Apply(old(Now()), Swept(now))
    {
      hide AllDescribed;
      var removed := engine.Prune(now);
      phase := Idle;
    }

    /** The retention task's DELETE on the baselines table. */
    method PruneTable(olderThan: int)
      requires Valid()
      modifies this, db
      ensures Valid() && Now() == Apply(old(Now()), TablePruned(olderThan))
    {
      var n := db.Prune(olderThan);
      cutoff := if olderThan > cutoff then olderThan else cutoff;
    }

    /** Fills a new engine from the table, as the agent does when it starts; past holds the samples
        that rows were built from, where it is known. */
    method Restore(ghost past: map<Key, seq<real>>)
      requires Valid() && phase.Idle? && engine.baselines == map[] && engine.dirty == {}
      modifies engine
      ensures Valid() && Now() == Apply(old(Now()), Restarted(engine.cfg))
      ensures old(engine.Described()) && TableDescribed(db.rows, past) ==> engine.Described()
    {
      hide RowDescribes, RowsDescribed, RowsOf, Distinct, Loaded, AllDescribed;
      var rows := db.LoadAll();
      if TableDescribed(db.rows, past) {
        TableRowsDescribed(rows, db.rows, past);
      }
      engine.Load(rows, past);
      LoadedAll(engine.cfg, engine.baselines, rows, db.rows);
    }
  }

  ghost predicate TableDescribed(table: map<Key, Baseline>, past: map<Key, seq<real>>) {
    forall k :: k in table ==> k in past && RowDescribes(table[k], past[k])
  }

  lemma TableRowsDescribed(rows: seq<Row>, table: map<Key, Baseline>, past: map<Key, seq<real>>)
    requires RowsOf(rows, table.Keys, table) && TableDescribed(table, past)
    ensures RowsDescribed(rows, past)
  {
    hide RowDescribes;
    forall i | 0 <= i < |rows|
      ensures rows[i].key in past && RowDescribes(rows[i].data, past[rows[i].key])
    {
      assert rows[i] in rows;
    }
  }

  lemma RowsOfEmpty(rows: seq<Row>, keys: set<Key>, bs: map<Key, Baseline>)
    requires RowsOf(rows, keys, bs)
    ensures |rows| == 0 <==> keys == {}
    ensures Distinct(rows)
  {
    if |rows| > 0 {
      assert rows[0] in rows;
    }
    forall k | k in keys ensures |rows| > 0 {
      assert HasRow(rows, k);
    }
  }

  lemma SavedRows(rows: seq<Row>, bs: map<Key, Baseline>, before: map<Key, Baseline>, after: map<Key, Baseline>)
    requires RowsOf(rows, bs.Keys, bs) && SavedBatch(before, after, rows)
    ensures after == Upserts(before, bs)
  {
    forall k
      ensures HasRow(rows, k) <==> k in bs
      ensures k in bs ==> k in after && after[k] == Upserted(before, Row(k, bs[k]))
    {
      if HasRow(rows, k) {
        var i :| 0 <= i < |rows| && rows[i].key == k;
        assert rows[i] in rows && rows[i] == Row(k, bs[k]);
      }
    }
  }

  lemma LoadedAll(cfg: Config, after: map<Key, Baseline>, rows: seq<Row>, table: map<Key, Baseline>)
    requires RowsOf(rows, table.Keys, table) && cfg.Valid()
    requires Loaded(cfg, map[], after, rows)
    ensures after == map k | k in table :: Restored(cfg, table[k])
  {
    hide Restored;
    forall k
      ensures LatestRow(rows, k) == if k in table then Some(table[k]) else None
    {
      if k in table {
        forall i | 0 <= i < |rows| && rows[i].key == k ensures rows[i].data == table[k] {
          assert rows[i] in rows;
        }
        LatestOfEqual(rows, k, table[k]);
      } else {
        NoLatest(rows, k);
      }
    }
  }

  lemma NoLatest(rows: seq<Row>, k: Key)
    requires forall r :: r in rows ==> r.key != k
    ensures LatestRow(rows, k) == None
  {
  }
}
