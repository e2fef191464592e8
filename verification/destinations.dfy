/** The destination analyzer (internal/destinations/analyzer.go): report memos, the learned port
    profile and per-process fanout, with what pruning may forget. */
module Destinations {
  import opened Wrappers
  import Memos

  /** The destination key is the observation's own; an address that is not valid is None. */
  datatype Observation = Observation(
    key: string, addr: Option<string>, port: int, process: string, internal: bool, bytesSent: int)

  /** What the store answers to an upsert. */
  datatype Answer = Failed | Known(isNew: bool, firstSeen: Option<int>, contacts: int)

  datatype Config = Config(
    start: int, learningPeriod: int, newWindow: int, rarePercentile: real, highVolumeBytes: int,
    fanoutWindow: int, fanoutThreshold: int, expectedPorts: set<int>, reportInternal: bool)

  datatype Kind = NewDestination | HighVolumeNew | RareDestination | UnexpectedPort

  datatype Finding = Finding(kind: Kind, obs: Observation)

  /** Contacts by address, and when the process was last reported. */
  datatype Tracker = Tracker(contacts: map<string, int>, reported: Option<int>)

  datatype State = State(
    profile: map<int, int>, trackers: map<string, Tracker>, reported: map<string, int>,
    threshold: real, refreshed: Option<int>)

  const INITIAL := State(map[], map[], map[], 0.0, None)

  const HOUR: int := 3_600_000_000
  const DAY: int := 24 * HOUR
  const REFRESH_EVERY: int := HOUR / 4

  predicate Learning(cfg: Config, now: int) {
    now - cfg.start < cfg.learningPeriod
  }

  /** Internal traffic and addresses that are not valid are skipped. */
  predicate Considered(cfg: Config, o: Observation) {
    o.addr.Some? && (o.internal ==> cfg.reportInternal)
  }

  function ProcessOf(o: Observation): string {
    if o.process == "" then "(unattributed)" else o.process
  }

  function Seen(profile: map<int, int>, port: int): int {
    if port in profile then profile[port] else 0
  }

  function WithPort(profile: map<int, int>, port: int): map<int, int> {
    if port <= 0 then profile else profile[port := Seen(profile, port) + 1]
  }

  predicate IsUnexpected(cfg: Config, profile: map<int, int>, port: int) {
    port > 0 && port !in cfg.expectedPorts && Seen(profile, port) < 5
  }

  function TrackerOf(trackers: map<string, Tracker>, process: string): Tracker {
    if process in trackers then trackers[process] else Tracker(map[], None)
  }

  function WithContact(trackers: map<string, Tracker>, process: string, addr: string, now: int): map<string, Tracker> {
    var t := TrackerOf(trackers, process);
    trackers[process := t.(contacts := t.contacts[addr := now])]
  }

  // ----- Findings of one observation ---------------------------------------------------------

  /** A question to the memo, asked only when its reason holds. */
  datatype Question = Question(kind: Kind, reason: bool, key: string, interval: int)

  function Questions(cfg: Config, st: State, o: Observation, a: Answer, now: int): seq<Question>
    requires a.Known?
  {
    [Question(NewDestination, a.isNew, o.key, cfg.newWindow),
     Question(HighVolumeNew,
              a.firstSeen.Some? && now - a.firstSeen.value <= cfg.newWindow && cfg.highVolumeBytes > 0
              && o.bytesSent >= cfg.highVolumeBytes, "volume:" + o.key, cfg.newWindow),
     Question(RareDestination,
              !a.isNew && st.threshold > 0.0 && a.contacts as real <= st.threshold, "rare:" + o.key, DAY),
     Question(UnexpectedPort, IsUnexpected(cfg, st.profile, o.port), "port:" + o.key, 6 * HOUR)]
  }

  function Memoed(memo: map<string, int>, q: Question, now: int): map<string, int> {
    if q.reason then Memos.Asked(memo, q.key, now, q.interval) else memo
  }

  predicate Passes(memo: map<string, int>, q: Question, now: int) {
    q.reason && Memos.Due(memo, q.key, now, q.interval)
  }

  /** The questions in order: the memo afterwards and the kinds reported. */
  function AskAll(memo: map<string, int>, questions: seq<Question>, now: int): (map<string, int>, seq<Kind>) {
    if questions == [] then (memo, [])
    else
      var (before, kinds) := AskAll(memo, questions[..|questions| - 1], now);
      var q := questions[|questions| - 1];
      (Memoed(before, q, now), if Passes(before, q, now) then kinds + [q.kind] else kinds)
  }

  function Recorded(st: State, o: Observation, now: int): State
    requires o.addr.Some?
  {
    st.(profile := WithPort(st.profile, o.port), trackers := WithContact(st.trackers, ProcessOf(o), o.addr.value, now))
  }

  /** One observation the store has answered. */
  function Taken(cfg: Config, st: State, o: Observation, a: Answer, now: int): (State, seq<Kind>)
    requires o.addr.Some? && a.Known?
  {
    var recorded := Recorded(st, o, now);
    if Learning(cfg, now) then (recorded, [])
    else
      var (memo, kinds) := AskAll(st.reported, Questions(cfg, recorded, o, a, now), now);
      (recorded.(reported := memo), kinds)
  }

  datatype Item = Item(obs: Observation, answer: Answer)

  function FindingsOf(kinds: seq<Kind>, o: Observation): seq<Finding> {
    seq(|kinds|, i requires 0 <= i < |kinds| => Finding(kinds[i], o))
  }

  /** How many items are looked at: those before the first store error. */
  function Reached(cfg: Config, batch: seq<Item>): (n: nat)
    ensures n <= |batch|
    ensures forall i :: 0 <= i < n && Considered(cfg, batch[i].obs) ==> batch[i].answer.Known?
    ensures n < |batch| ==> Considered(cfg, batch[n].obs) && batch[n].answer == Failed
  {
    if batch == [] || (Considered(cfg, batch[0].obs) && batch[0].answer == Failed) then 0
    else 1 + Reached(cfg, batch[1..])
  }

  /** The first n items of a batch, in order. */
  function Batched(cfg: Config, st: State, batch: seq<Item>, now: int, n: nat): (State, seq<Finding>)
    requires n <= |batch|
  {
    if n == 0 then (st, [])
    else
      var (before, findings) := Batched(cfg, st, batch, now, n - 1);
      var item := batch[n - 1];
      if !Considered(cfg, item.obs) || item.answer == Failed then (before, findings)
      else
        var (after, kinds) := Taken(cfg, before, item.obs, item.answer, now);
        (after, findings + FindingsOf(kinds, item.obs))
  }

  // ----- Fanout ------------------------------------------------------------------------------

  function Recent(contacts: map<string, int>, cutoff: int): map<string, int> {
    map addr | addr in contacts && contacts[addr] >= cutoff :: contacts[addr]
  }

  predicate Fans(cfg: Config, t: Tracker, now: int) {
    && |Recent(t.contacts, now - cfg.fanoutWindow)| >= cfg.fanoutThreshold
    && (t.reported.Some? ==> now - t.reported.value >= cfg.fanoutWindow)
  }

  function CheckedTracker(cfg: Config, t: Tracker, now: int): Tracker {
    Tracker(Recent(t.contacts, now - cfg.fanoutWindow), if Fans(cfg, t, now) then Some(now) else t.reported)
  }

  predicate Checks(cfg: Config, now: int) {
    cfg.fanoutThreshold > 0 && !Learning(cfg, now)
  }

  function Checked(cfg: Config, trackers: map<string, Tracker>, now: int): map<string, Tracker> {
    if Checks(cfg, now) then map p | p in trackers :: CheckedTracker(cfg, trackers[p], now) else trackers
  }

  /** The processes reported, with their distinct destinations; the report sorts them by name. */
  function Fanout(cfg: Config, trackers: map<string, Tracker>, now: int): map<string, nat> {
    if Checks(cfg, now)
    then map p | p in trackers && Fans(cfg, trackers[p], now) :: |Recent(trackers[p].contacts, now - cfg.fanoutWindow)|
    else map[]
  }

  // ----- Pruning -----------------------------------------------------------------------------

  predicate CanGo(cfg: Config, t: Tracker, now: int) {
    t.contacts == map[] && (t.reported.Some? ==> t.reported.value < now - 2 * cfg.fanoutWindow)
  }

  /** The profile is reset when it is too large; memos and trackers are dropped only if dropping. */
  function Pruned(cfg: Config, st: State, now: int, dropping: bool): State {
    State(if |st.profile| > 4096 then map[] else st.profile,
          if dropping then (map p | p in st.trackers && !CanGo(cfg, st.trackers[p], now) :: st.trackers[p])
          else st.trackers,
          if dropping then Memos.Dropped(st.reported, now, DAY) else st.reported,
          st.threshold, st.refreshed)
  }

  // ----- Calls -------------------------------------------------------------------------------

  /** The rarity threshold that a refresh would set is the call's own; 0 when there is too little
      history or an error. */
  datatype Call = Call(batch: seq<Item>, now: int, rarity: real)

  datatype Output = Output(findings: seq<Finding>, fanout: map<string, nat>, ok: bool)

  function Refreshed(cfg: Config, st: State, call: Call): State {
    if (st.refreshed.Some? ==> call.now - st.refreshed.value > REFRESH_EVERY) && cfg.rarePercentile > 0.0
    then st.(threshold := call.rarity, refreshed := Some(call.now))
    else st
  }

  function Observed(cfg: Config, st: State, call: Call, dropping: bool): (State, Output) {
    var n := Reached(cfg, call.batch);
    var (after, findings) := Batched(cfg, Refreshed(cfg, st, call), call.batch, call.now, n);
    if n < |call.batch| then (after, Output(findings, map[], false))
    else
      (Pruned(cfg, after.(trackers := Checked(cfg, after.trackers, call.now)), call.now, dropping),
       Output(findings, Fanout(cfg, after.trackers, call.now), true))
  }

  /** The state after the first n calls. */
  function After(cfg: Config, calls: seq<Call>, n: nat, dropping: bool): State
    requires n <= |calls|
  {
    if n == 0 then INITIAL else Observed(cfg, After(cfg, calls, n - 1, dropping), calls[n - 1], dropping).0
  }

  function OutputAt(cfg: Config, calls: seq<Call>, i: nat, dropping: bool): Output
    requires i < |calls|
  {
    Observed(cfg, After(cfg, calls, i, dropping), calls[i], dropping).1
  }

  // ----- Pruning is invisible ------------------------------------------------------------------

  /** The same contacts; a report that only one of the two remembers is too old to matter. */
  ghost predicate TrackerAgrees(t: Tracker, full: Tracker, clock: int, window: int) {
    && t.contacts == full.contacts
    && (full.reported.Some? ==> full.reported.value <= clock)
    && (t.reported == full.reported
        || (t.reported == None && full.reported.Some? && clock - full.reported.value >= window))
  }

  ghost predicate TrackersAgree(trackers: map<string, Tracker>, full: map<string, Tracker>, clock: int, window: int) {
    forall p :: TrackerAgrees(TrackerOf(trackers, p), TrackerOf(full, p), clock, window)
  }

  /** A pruned state and one that never forgets. */
  ghost predicate Alike(cfg: Config, pruned: State, full: State, clock: int) {
    && pruned.profile == full.profile && pruned.threshold == full.threshold && pruned.refreshed == full.refreshed
    && TrackersAgree(pruned.trackers, full.trackers, clock, cfg.fanoutWindow)
    && Memos.Agrees(pruned.reported, full.reported, clock, DAY)
  }

  lemma AlikeLater(cfg: Config, pruned: State, full: State, clock: int, now: int)
    requires Alike(cfg, pruned, full, clock) && clock <= now
    ensures Alike(cfg, pruned, full, now)
  {
  }

  ghost predicate ShortIntervals(questions: seq<Question>) {
    forall i :: 0 <= i < |questions| ==> questions[i].interval <= DAY + 1
  }

  lemma {:induction false} QuestionsAgree(memo: map<string, int>, full: map<string, int>, questions: seq<Question>,
                                          now: int)
    requires Memos.Agrees(memo, full, now, DAY) && ShortIntervals(questions)
    ensures AskAll(memo, questions, now).1 == AskAll(full, questions, now).1
    ensures Memos.Agrees(AskAll(memo, questions, now).0, AskAll(full, questions, now).0, now, DAY)
  {
    hide Memos.Agrees;
    if questions != [] {
      var n := |questions| - 1;
      var q := questions[n];
      QuestionsAgree(memo, full, questions[..n], now);
      var m, f := AskAll(memo, questions[..n], now).0, AskAll(full, questions[..n], now).0;
      Memos.StepAgrees(m, f, now, Memos.Ask(q.key, now, q.interval), DAY);
    }
  }

  lemma RecordingAgrees(cfg: Config, pruned: State, full: State, o: Observation, now: int)
    requires Alike(cfg, pruned, full, now) && o.addr.Some?
    ensures Alike(cfg, Recorded(pruned, o, now), Recorded(full, o, now), now)
  {
    hide Memos.Agrees;
    forall p
      ensures TrackerAgrees(TrackerOf(Recorded(pruned, o, now).trackers, p),
                            TrackerOf(Recorded(full, o, now).trackers, p), now, cfg.fanoutWindow)
    {
      assert TrackerAgrees(TrackerOf(pruned.trackers, p), TrackerOf(full.trackers, p), now, cfg.fanoutWindow);
    }
  }

  lemma TakingAgrees(cfg: Config, pruned: State, full: State, o: Observation, a: Answer, now: int)
    requires Alike(cfg, pruned, full, now) && o.addr.Some? && a.Known? && cfg.newWindow <= DAY + 1
    ensures Taken(cfg, pruned, o, a, now).1 == Taken(cfg, full, o, a, now).1
    ensures Alike(cfg, Taken(cfg, pruned, o, a, now).0, Taken(cfg, full, o, a, now).0, now)
  {
    hide AskAll, Memos.Agrees, TrackersAgree, Recorded;
    RecordingAgrees(cfg, pruned, full, o, now);
    var questions := Questions(cfg, Recorded(pruned, o, now), o, a, now);
    assert questions == Questions(cfg, Recorded(full, o, now), o, a, now);
    QuestionsAgree(pruned.reported, full.reported, questions, now);
  }

  lemma {:induction false} BatchesAgree(cfg: Config, pruned: State, full: State, batch: seq<Item>, now: int, n: nat)
    requires Alike(cfg, pruned, full, now) && n <= |batch| && cfg.newWindow <= DAY + 1
    ensures Batched(cfg, pruned, batch, now, n).1 == Batched(cfg, full, batch, now, n).1
    ensures Alike(cfg, Batched(cfg, pruned, batch, now, n).0, Batched(cfg, full, batch, now, n).0, now)
  {
    hide Alike, Taken, FindingsOf;
    if n > 0 {
      BatchesAgree(cfg, pruned, full, batch, now, n - 1);
      var item := batch[n - 1];
      if Considered(cfg, item.obs) && item.answer != Failed {
        TakingAgrees(cfg, Batched(cfg, pruned, batch, now, n - 1).0, Batched(cfg, full, batch, now, n - 1).0,
                     item.obs, item.answer, now);
      }
    }
  }

  lemma NothingRecent(cutoff: int)
    ensures Recent(map[], cutoff) == map[]
  {
  }

  lemma ChecksAgree(cfg: Config, trackers: map<string, Tracker>, full: map<string, Tracker>, now: int)
    requires TrackersAgree(trackers, full, now, cfg.fanoutWindow)
    ensures Fanout(cfg, trackers, now) == Fanout(cfg, full, now)
    ensures TrackersAgree(Checked(cfg, trackers, now), Checked(cfg, full, now), now, cfg.fanoutWindow)
  {
    hide Recent;
    if Checks(cfg, now) {
      NothingRecent(now - cfg.fanoutWindow);
      forall p
        ensures p in trackers && Fans(cfg, trackers[p], now) <==> p in full && Fans(cfg, full[p], now)
        ensures TrackerAgrees(TrackerOf(Checked(cfg, trackers, now), p), TrackerOf(Checked(cfg, full, now), p), now,
                              cfg.fanoutWindow)
      {
        assert TrackerAgrees(TrackerOf(trackers, p), TrackerOf(full, p), now, cfg.fanoutWindow);
      }
      forall p | p in trackers && p in full ensures trackers[p].contacts == full[p].contacts {
        assert TrackerAgrees(TrackerOf(trackers, p), TrackerOf(full, p), now, cfg.fanoutWindow);
      }
    }
  }

  lemma PruningAgrees(cfg: Config, pruned: State, full: State, now: int)
    requires Alike(cfg, pruned, full, now)
    ensures Alike(cfg, Pruned(cfg, pruned, now, true), Pruned(cfg, full, now, false), now)
  {
    var p', f' := Pruned(cfg, pruned, now, true), Pruned(cfg, full, now, false);
    forall p
      ensures TrackerAgrees(TrackerOf(p'.trackers, p), TrackerOf(f'.trackers, p), now, cfg.fanoutWindow)
    {
      assert TrackerAgrees(TrackerOf(pruned.trackers, p), TrackerOf(full.trackers, p), now, cfg.fanoutWindow);
    }
    Memos.StepAgrees(pruned.reported, full.reported, now, Memos.Drop(now), DAY);
  }

  lemma CallsAgree(cfg: Config, pruned: State, full: State, call: Call)
    requires Alike(cfg, pruned, full, call.now) && cfg.newWindow <= DAY + 1
    ensures Observed(cfg, pruned, call, true).1 == Observed(cfg, full, call, false).1
    ensures Alike(cfg, Observed(cfg, pruned, call, true).0, Observed(cfg, full, call, false).0, call.now)
  {
    hide Batched, TrackersAgree, Memos.Agrees, Checked, Fanout, Pruned;
    var n := Reached(cfg, call.batch);
    var p, f := Refreshed(cfg, pruned, call), Refreshed(cfg, full, call);
    assert Alike(cfg, p, f, call.now);
    BatchesAgree(cfg, p, f, call.batch, call.now, n);
    p, f := Batched(cfg, p, call.batch, call.now, n).0, Batched(cfg, f, call.batch, call.now, n).0;
    ChecksAgree(cfg, p.trackers, f.trackers, call.now);
    PruningAgrees(cfg, p.(trackers := Checked(cfg, p.trackers, call.now)),
                  f.(trackers := Checked(cfg, f.trackers, call.now)), call.now);
  }

  ghost predicate InTimeOrder(calls: seq<Call>) {
    forall i, j :: 0 <= i <= j < |calls| ==> calls[i].now <= calls[j].now
  }

  /** What prune drops never shows: every call of every run reports the same findings and the same
      fanout as an analyzer that forgets nothing. */
  lemma {:induction false} PruningIsInvisible(cfg: Config, calls: seq<Call>, n: nat)
    requires InTimeOrder(calls) && n <= |calls| && cfg.newWindow <= DAY + 1
    ensures forall i :: 0 <= i < n ==> OutputAt(cfg, calls, i, true) == OutputAt(cfg, calls, i, false)
    ensures n > 0 ==> Alike(cfg, After(cfg, calls, n, true), After(cfg, calls, n, false), calls[n - 1].now)
  {
    hide Alike, Observed;
    if n > 0 {
      PruningIsInvisible(cfg, calls, n - 1);
      var p, f := After(cfg, calls, n - 1, true), After(cfg, calls, n - 1, false);
      if n == 1 {
        InitialIsAlike(cfg, calls[0].now);
      } else {
        assert calls[n - 2].now <= calls[n - 1].now;
        AlikeLater(cfg, p, f, calls[n - 2].now, calls[n - 1].now);
      }
      CallsAgree(cfg, p, f, calls[n - 1]);
    }
  }

  lemma InitialIsAlike(cfg: Config, now: int)
    ensures Alike(cfg, INITIAL, INITIAL, now)
  {
  }

  // ----- Exactly when it is invisible ---------------------------------------------------------

  ghost predicate PruningNeverShows(cfg: Config) {
    forall calls, i :: InTimeOrder(calls) && 0 <= i < |calls| ==>
        OutputAt(cfg, calls, i, true) == OutputAt(cfg, calls, i, false)
  }

  const SOME_DESTINATION := Observation("tcp|192.0.2.1|0", Some("192.0.2.1"), 0, "p", false, 0)

  /** A destination that is new twice, just over a day apart, as after its row was deleted. */
  function NewTwice(cfg: Config): seq<Call> {
    var t := cfg.start + cfg.learningPeriod;
    var batch := [Item(SOME_DESTINATION, Known(true, None, 1))];
    [Call(batch, t, 0.0), Call([], t + DAY + 1, 0.0), Call(batch, t + DAY + 1, 0.0)]
  }

  lemma NewIsAsked(cfg: Config, st: State, now: int)
    requires now >= cfg.start + cfg.learningPeriod
    ensures var (after, kinds) := Taken(cfg, st, SOME_DESTINATION, Known(true, None, 1), now);
            && kinds == (if Memos.Due(st.reported, SOME_DESTINATION.key, now, cfg.newWindow) then [NewDestination]
                         else [])
            && after.reported == Memos.Asked(st.reported, SOME_DESTINATION.key, now, cfg.newWindow)
  {
    var o := SOME_DESTINATION;
    var recorded := Recorded(st, o, now);
    var qs := Questions(cfg, recorded, o, Known(true, None, 1), now);
    assert !qs[1].reason && !qs[2].reason && !qs[3].reason;
    assert qs[..3][..2] == qs[..2] && qs[..2][..1] == qs[..1] && qs[..1][..0] == [];
    var q := qs[0];
    assert AskAll(st.reported, [], now) == (st.reported, []) && qs[..1] == [q] && [q][..0] == [];
    assert [] + [q.kind] == [q.kind];
    assert AskAll(st.reported, [q], now)
        == (Memoed(st.reported, q, now), if Passes(st.reported, q, now) then [q.kind] else []);
    assert AskAll(st.reported, qs[..1], now)
        == (Memoed(st.reported, q, now), if Passes(st.reported, q, now) then [q.kind] else []);
    assert AskAll(st.reported, qs[..2], now) == AskAll(st.reported, qs[..1], now);
    assert AskAll(st.reported, qs[..3], now) == AskAll(st.reported, qs[..2], now);
  }

  /** What one call does to the memo and how many findings it has. */
  lemma NewCall(cfg: Config, st: State, now: int, dropping: bool)
    requires now >= cfg.start + cfg.learningPeriod
    ensures var (after, out) :=
        Observed(cfg, st, Call([Item(SOME_DESTINATION, Known(true, None, 1))], now, 0.0), dropping);
            var memo := Memos.Asked(st.reported, SOME_DESTINATION.key, now, cfg.newWindow);
            && after.reported == (if dropping then Memos.Dropped(memo, now, DAY) else memo)
            && |out.findings| == if Memos.Due(st.reported, SOME_DESTINATION.key, now, cfg.newWindow) then 1 else 0
  {
    hide Taken;
    var call := Call([Item(SOME_DESTINATION, Known(true, None, 1))], now, 0.0);
    var start := Refreshed(cfg, st, call);
    assert Reached(cfg, call.batch) == 1;
    assert Batched(cfg, start, call.batch, now, 0) == (start, []);
    NewIsAsked(cfg, start, now);
    var (after, kinds) := Taken(cfg, start, SOME_DESTINATION, Known(true, None, 1), now);
    assert Batched(cfg, start, call.batch, now, 1) == (after, [] + FindingsOf(kinds, SOME_DESTINATION));
  }

  lemma LongNewWindowShows(cfg: Config)
    requires cfg.newWindow > DAY + 1
    ensures InTimeOrder(NewTwice(cfg))
    ensures OutputAt(cfg, NewTwice(cfg), 2, true) != OutputAt(cfg, NewTwice(cfg), 2, false)
  {
    hide Observed, Memos.Dropped;
    var calls := NewTwice(cfg);
    var key := SOME_DESTINATION.key;
    var t := calls[0].now;
    forall dropping: bool
      ensures |OutputAt(cfg, calls, 2, dropping).findings| == if dropping then 1 else 0
    {
      assert After(cfg, calls, 0, dropping) == INITIAL;
      NewCall(cfg, INITIAL, t, dropping);
      var first := After(cfg, calls, 1, dropping);
      assert first == Observed(cfg, INITIAL, calls[0], dropping).0;
      EmptyCall(cfg, first, t + DAY + 1, dropping);
      var second := After(cfg, calls, 2, dropping);
      assert second == Observed(cfg, first, calls[1], dropping).0;
      NewCall(cfg, second, t + DAY + 1, dropping);
      DroppedByAge(map[key := t], t, t + DAY + 1);
    }
  }

  lemma DroppedByAge(memo: map<string, int>, t: int, now: int)
    requires memo == map[SOME_DESTINATION.key := t] && now == t + DAY + 1
    ensures Memos.Dropped(memo, t, DAY) == memo && Memos.Dropped(memo, now, DAY) == map[]
  {
  }

  lemma EmptyCall(cfg: Config, st: State, now: int, dropping: bool)
    ensures Observed(cfg, st, Call([], now, 0.0), dropping).0.reported
         == if dropping then Memos.Dropped(st.reported, now, DAY) else st.reported
  {
  }

  /** Pruning never shows exactly when a destination counts as new for no longer than the day (and
      one tick) for which memos are kept. */
  lemma PruningNeverShowsIff(cfg: Config)
    ensures PruningNeverShows(cfg) <==> cfg.newWindow <= DAY + 1
  {
    hide OutputAt;
    if cfg.newWindow <= DAY + 1 {
      forall calls, i | InTimeOrder(calls) && 0 <= i < |calls|
        ensures OutputAt(cfg, calls, i, true) == OutputAt(cfg, calls, i, false)
      {
        PruningIsInvisible(cfg, calls, |calls|);
      }
    } else {
      LongNewWindowShows(cfg);
    }
  }

  // ----- Fanout against the whole history -------------------------------------------------------

  datatype Contact = Contact(process: string, addr: string, time: int)

  /** An observation that is recorded: of a valid address, internal only where that is wanted, and
      answered by the store. */
  predicate Counts(cfg: Config, item: Item) {
    item.obs.addr.Some? && (!item.obs.internal || cfg.reportInternal) && item.answer.Known?
  }

  function ContactOf(cfg: Config, item: Item, now: int): seq<Contact> {
    if Counts(cfg, item)
    then [Contact(if item.obs.process == "" then "(unattributed)" else item.obs.process, item.obs.addr.value, now)]
    else []
  }

  function ContactsOf(cfg: Config, batch: seq<Item>, now: int, n: nat): seq<Contact>
    requires n <= |batch|
  {
    if n == 0 then [] else ContactsOf(cfg, batch, now, n - 1) + ContactOf(cfg, batch[n - 1], now)
  }

  /** Every contact recorded by the first n calls. */
  function Log(cfg: Config, calls: seq<Call>, n: nat): seq<Contact>
    requires n <= |calls|
  {
    if n == 0 then []
    else
      var call := calls[n - 1];
      Log(cfg, calls, n - 1) + ContactsOf(cfg, call.batch, call.now, Reached(cfg, call.batch))
  }

  /** The distinct destinations of a process in the window. */
  ghost function Distinct(log: seq<Contact>, process: string, cutoff: int): set<string> {
    set c | c in log && c.process == process && c.time >= cutoff :: c.addr
  }

  /** A tracker has the latest contact of each address, except of those that are too old. */
  ghost predicate Knows(log: seq<Contact>, contacts: map<string, int>, process: string, clock: int, window: int) {
    && (forall a :: a in contacts ==> Contact(process, a, contacts[a]) in log)
    && (forall c :: c in log && c.process == process ==>
          if c.addr in contacts then c.time <= contacts[c.addr] else c.time < clock - window)
  }

  ghost predicate AllKnown(log: seq<Contact>, trackers: map<string, Tracker>, clock: int, window: int) {
    && (forall p :: Knows(log, TrackerOf(trackers, p).contacts, p, clock, window))
    && (forall c :: c in log ==> c.time <= clock)
  }

  lemma RecentIsDistinct(log: seq<Contact>, contacts: map<string, int>, process: string, now: int, window: int)
    requires Knows(log, contacts, process, now, window)
    ensures Recent(contacts, now - window).Keys == Distinct(log, process, now - window)
    ensures Knows(log, Recent(contacts, now - window), process, now, window)
  {
    var recent := Recent(contacts, now - window);
    forall a ensures a in recent <==> a in Distinct(log, process, now - window) {
      if a in recent {
        assert Contact(process, a, contacts[a]) in log;
      }
    }
  }

  lemma ContactIsKnown(log: seq<Contact>, trackers: map<string, Tracker>, process: string, addr: string, now: int,
                       window: int)
    requires AllKnown(log, trackers, now, window)
    ensures AllKnown(log + [Contact(process, addr, now)], WithContact(trackers, process, addr, now), now, window)
  {
    var log', trackers' := log + [Contact(process, addr, now)], WithContact(trackers, process, addr, now);
    forall p ensures Knows(log', TrackerOf(trackers', p).contacts, p, now, window) {
      assert Knows(log, TrackerOf(trackers, p).contacts, p, now, window);
    }
  }

  /** Which reports of a process a tracker remembers. */
  ghost predicate SameReports(trackers: map<string, Tracker>, other: map<string, Tracker>) {
    forall p :: TrackerOf(trackers, p).reported == TrackerOf(other, p).reported
  }

  lemma {:induction false} BatchIsKnown(cfg: Config, log: seq<Contact>, st: State, batch: seq<Item>, now: int, n: nat)
    requires AllKnown(log, st.trackers, now, cfg.fanoutWindow) && n <= |batch|
    ensures AllKnown(log + ContactsOf(cfg, batch, now, n), Batched(cfg, st, batch, now, n).0.trackers, now,
                     cfg.fanoutWindow)
    ensures SameReports(st.trackers, Batched(cfg, st, batch, now, n).0.trackers)
  {
    hide AllKnown, AskAll, Questions;
    if n == 0 {
      assert log + [] == log;
    } else {
      BatchIsKnown(cfg, log, st, batch, now, n - 1);
      var item := batch[n - 1];
      var before := log + ContactsOf(cfg, batch, now, n - 1);
      assert log + ContactsOf(cfg, batch, now, n) == before + ContactOf(cfg, item, now);
      if Considered(cfg, item.obs) && item.answer.Known? {
        ContactIsKnown(before, Batched(cfg, st, batch, now, n - 1).0.trackers, ProcessOf(item.obs),
                       item.obs.addr.value, now, cfg.fanoutWindow);
      } else {
        assert before + [] == before;
      }
    }
  }

  lemma CheckingKnows(cfg: Config, log: seq<Contact>, trackers: map<string, Tracker>, now: int)
    requires AllKnown(log, trackers, now, cfg.fanoutWindow)
    ensures AllKnown(log, Checked(cfg, trackers, now), now, cfg.fanoutWindow)
  {
    hide Recent, Distinct;
    NothingRecent(now - cfg.fanoutWindow);
    forall p ensures Knows(log, TrackerOf(Checked(cfg, trackers, now), p).contacts, p, now, cfg.fanoutWindow) {
      RecentIsDistinct(log, TrackerOf(trackers, p).contacts, p, now, cfg.fanoutWindow);
    }
  }

  lemma PruningKnows(cfg: Config, log: seq<Contact>, st: State, now: int, dropping: bool)
    requires AllKnown(log, st.trackers, now, cfg.fanoutWindow)
    ensures AllKnown(log, Pruned(cfg, st, now, dropping).trackers, now, cfg.fanoutWindow)
  {
    forall p ensures TrackerOf(Pruned(cfg, st, now, dropping).trackers, p).contacts
        == TrackerOf(st.trackers, p).contacts {
    }
  }

  ghost predicate FansAt(cfg: Config, calls: seq<Call>, i: nat, dropping: bool, process: string)
    requires i < |calls|
  {
    process in OutputAt(cfg, calls, i, dropping).fanout
  }

  /** The memo of the last fanout report: nothing later, and nothing forgotten that still counts. */
  ghost predicate Remembers(cfg: Config, calls: seq<Call>, n: nat, dropping: bool, process: string,
                            reported: Option<int>, clock: int)
    requires n <= |calls|
  {
    && (reported.Some? ==>
        exists j :: 0 <= j < n && FansAt(cfg, calls, j, dropping, process) && calls[j].now == reported.value)
    && (forall j :: 0 <= j < n && FansAt(cfg, calls, j, dropping, process) ==>
          (reported.Some? && calls[j].now <= reported.value) || clock - calls[j].now >= cfg.fanoutWindow)
  }

  lemma {:induction false} HistoryIsKnown(cfg: Config, calls: seq<Call>, n: nat, dropping: bool)
    requires InTimeOrder(calls) && n <= |calls|
    ensures n > 0 ==> AllKnown(Log(cfg, calls, n), After(cfg, calls, n, dropping).trackers, calls[n - 1].now,
                               cfg.fanoutWindow)
  {
    hide AllKnown, Batched, Checked, Pruned;
    if n > 0 {
      var call := calls[n - 1];
      var st := After(cfg, calls, n - 1, dropping);
      HistoryIsKnown(cfg, calls, n - 1, dropping);
      KnownBefore(cfg, calls, n - 1, dropping);
      var k := Reached(cfg, call.batch);
      var before := Refreshed(cfg, st, call);
      BatchIsKnown(cfg, Log(cfg, calls, n - 1), before, call.batch, call.now, k);
      var after := Batched(cfg, before, call.batch, call.now, k).0;
      CheckingKnows(cfg, Log(cfg, calls, n), after.trackers, call.now);
      PruningKnows(cfg, Log(cfg, calls, n), after.(trackers := Checked(cfg, after.trackers, call.now)), call.now,
                   dropping);
    }
  }

  /** The same facts when the next call arrives. */
  lemma KnownBefore(cfg: Config, calls: seq<Call>, n: nat, dropping: bool)
    requires InTimeOrder(calls) && n < |calls|
    requires n > 0 ==> AllKnown(Log(cfg, calls, n), After(cfg, calls, n, dropping).trackers, calls[n - 1].now,
                                cfg.fanoutWindow)
    ensures AllKnown(Log(cfg, calls, n), After(cfg, calls, n, dropping).trackers, calls[n].now, cfg.fanoutWindow)
  {
    if n > 0 {
    }
  }

  lemma FanoutIsDistinct(cfg: Config, log: seq<Contact>, trackers: map<string, Tracker>, now: int, p: string)
    requires AllKnown(log, trackers, now, cfg.fanoutWindow)
    ensures var distinct := Distinct(log, p, now - cfg.fanoutWindow);
            var reported := TrackerOf(trackers, p).reported;
            && (p in Fanout(cfg, trackers, now) <==> Checks(cfg, now) && |distinct| >= cfg.fanoutThreshold
                                                      && (reported.Some? ==> now - reported.value >= cfg.fanoutWindow))
            && (p in Fanout(cfg, trackers, now) ==> Fanout(cfg, trackers, now)[p] == |distinct| > 0)
  {
    hide Recent, Distinct;
    NothingRecent(now - cfg.fanoutWindow);
    var contacts := TrackerOf(trackers, p).contacts;
    RecentIsDistinct(log, contacts, p, now, cfg.fanoutWindow);
    assert |Recent(contacts, now - cfg.fanoutWindow)| == |Recent(contacts, now - cfg.fanoutWindow).Keys|;
  }

  lemma CheckingRemembers(cfg: Config, trackers: map<string, Tracker>, now: int, p: string)
    ensures TrackerOf(Checked(cfg, trackers, now), p).reported
         == if p in Fanout(cfg, trackers, now) then Some(now) else TrackerOf(trackers, p).reported
    ensures p in Fanout(cfg, trackers, now) ==> TrackerOf(Checked(cfg, trackers, now), p).contacts != map[]
  {
    hide Recent;
  }

  /** What one call reports of a process, and what its tracker remembers of reports. */
  lemma FanoutOfCall(cfg: Config, log: seq<Contact>, st: State, call: Call, dropping: bool, p: string)
    requires AllKnown(log, st.trackers, call.now, cfg.fanoutWindow)
    ensures var (after, out) := Observed(cfg, st, call, dropping);
            var distinct := Distinct(log + ContactsOf(cfg, call.batch, call.now, Reached(cfg, call.batch)), p,
                                     call.now - cfg.fanoutWindow);
            var was, later := TrackerOf(st.trackers, p).reported, TrackerOf(after.trackers, p).reported;
            && (p in out.fanout <==> out.ok && Checks(cfg, call.now) && |distinct| >= cfg.fanoutThreshold
                                     && (was.Some? ==> call.now - was.value >= cfg.fanoutWindow))
            && (p in out.fanout ==> out.fanout[p] == |distinct| && later == Some(call.now))
            && (p !in out.fanout && later != was ==>
                later == None && was.Some? && was.value < call.now - 2 * cfg.fanoutWindow)
  {
    hide Batched, AllKnown, Distinct, Checked, Fanout;
    var n := Reached(cfg, call.batch);
    var before := Refreshed(cfg, st, call);
    BatchIsKnown(cfg, log, before, call.batch, call.now, n);
    var after := Batched(cfg, before, call.batch, call.now, n).0;
    var all := log + ContactsOf(cfg, call.batch, call.now, n);
    assert AllKnown(all, after.trackers, call.now, cfg.fanoutWindow);
    FanoutIsDistinct(cfg, all, after.trackers, call.now, p);
    CheckingRemembers(cfg, after.trackers, call.now, p);
  }

  lemma {:induction false} ReportsAreRemembered(cfg: Config, calls: seq<Call>, n: nat, dropping: bool, p: string)
    requires InTimeOrder(calls) && n <= |calls|
    ensures n > 0 ==> Remembers(cfg, calls, n, dropping, p,
                                TrackerOf(After(cfg, calls, n, dropping).trackers, p).reported, calls[n - 1].now)
  {
    hide Observed, AllKnown, Remembers;
    if n > 0 {
      var m := n - 1;
      ReportsAreRemembered(cfg, calls, m, dropping, p);
      HistoryIsKnown(cfg, calls, m, dropping);
      KnownBefore(cfg, calls, m, dropping);
      FanoutOfCall(cfg, Log(cfg, calls, m), After(cfg, calls, m, dropping), calls[m], dropping, p);
      assert forall j :: 0 <= j < m ==> calls[j].now <= calls[m].now;
      MemoryStep(cfg, calls, m, dropping, p, TrackerOf(After(cfg, calls, m, dropping).trackers, p).reported,
                 TrackerOf(After(cfg, calls, n, dropping).trackers, p).reported);
    }
  }

  lemma MemoryStep(cfg: Config, calls: seq<Call>, m: nat, dropping: bool, p: string, was: Option<int>,
                   later: Option<int>)
    requires m < |calls| && forall j :: 0 <= j < m ==> calls[j].now <= calls[m].now
    requires if m > 0 then Remembers(cfg, calls, m, dropping, p, was, calls[m - 1].now) else was == None
    requires FansAt(cfg, calls, m, dropping, p) ==> later == Some(calls[m].now)
    requires !FansAt(cfg, calls, m, dropping, p) && later != was ==>
               later == None && was.Some? && was.value < calls[m].now - 2 * cfg.fanoutWindow
    ensures Remembers(cfg, calls, m + 1, dropping, p, later, calls[m].now)
  {
    hide FansAt;
    var now := calls[m].now;
    if later.Some? && !FansAt(cfg, calls, m, dropping, p) {
      var j :| 0 <= j < m && FansAt(cfg, calls, j, dropping, p) && calls[j].now == later.value;
      assert j < m + 1;
    }
    forall j | 0 <= j < m + 1 && FansAt(cfg, calls, j, dropping, p)
      ensures (later.Some? && calls[j].now <= later.value) || now - calls[j].now >= cfg.fanoutWindow
    {
      if j < m {
        assert calls[j].now <= now;
      }
    }
  }

  /** A process is reported exactly when the batch went through, learning is over, the whole
      history has contacts of it to enough distinct destinations in the window, and it was not
      reported less than a window ago; whatever was trimmed and pruned on the way. */
  lemma {:induction false} FanoutIff(cfg: Config, calls: seq<Call>, i: nat, dropping: bool, p: string)
    requires InTimeOrder(calls) && i < |calls|
    ensures var distinct := Distinct(Log(cfg, calls, i + 1), p, calls[i].now - cfg.fanoutWindow);
            && (FansAt(cfg, calls, i, dropping, p)
                <==> && OutputAt(cfg, calls, i, dropping).ok && cfg.fanoutThreshold > 0
                     && calls[i].now - cfg.start >= cfg.learningPeriod
                     && |distinct| >= cfg.fanoutThreshold
                     && forall j: nat :: j < i && FansAt(cfg, calls, j, dropping, p) ==>
                          calls[i].now - calls[j].now >= cfg.fanoutWindow)
            && (FansAt(cfg, calls, i, dropping, p) ==> OutputAt(cfg, calls, i, dropping).fanout[p] == |distinct|)
  {
    hide Observed, AllKnown, Distinct;
    HistoryIsKnown(cfg, calls, i, dropping);
    KnownBefore(cfg, calls, i, dropping);
    FanoutOfCall(cfg, Log(cfg, calls, i), After(cfg, calls, i, dropping), calls[i], dropping, p);
    ReportsAreRemembered(cfg, calls, i, dropping, p);
    if i > 0 {
      assert calls[i - 1].now <= calls[i].now;
    }
  }

  // ----- Findings against the whole history -----------------------------------------------------

  /** The positive ports of the first k observations of a batch. */
  function PortsIn(cfg: Config, batch: seq<Item>, k: nat): seq<int>
    requires k <= |batch|
  {
    if k == 0 then []
    else
      PortsIn(cfg, batch, k - 1)
      + if Counts(cfg, batch[k - 1]) && batch[k - 1].obs.port > 0 then [batch[k - 1].obs.port] else []
  }

  /** The ports observed since the profile was last reset: after a call that went through and left more
      than 4096 of them. */
  ghost function PortLog(cfg: Config, calls: seq<Call>, n: nat): seq<int>
    requires n <= |calls|
  {
    if n == 0 then []
    else
      var batch := calls[n - 1].batch;
      var log := PortLog(cfg, calls, n - 1) + PortsIn(cfg, batch, Reached(cfg, batch));
      if Reached(cfg, batch) == |batch| && |set p | p in log| > 4096 then [] else log
  }

  /** The profile counts each port as often as it was observed. */
  ghost predicate Profiles(profile: map<int, int>, log: seq<int>) {
    forall p :: (p in profile <==> p in log) && (p in profile ==> profile[p] == multiset(log)[p])
  }

  lemma PortIsCounted(profile: map<int, int>, log: seq<int>, port: int)
    requires Profiles(profile, log)
    ensures Profiles(WithPort(profile, port), log + if port > 0 then [port] else [])
  {
    if port > 0 {
      assert forall p :: p in log + [port] <==> p in log || p == port;
      assert port !in log ==> multiset(log)[port] == 0;
    } else {
      assert log + [] == log;
    }
  }

  lemma {:induction false} BatchIsProfiled(cfg: Config, log: seq<int>, st: State, batch: seq<Item>, now: int, n: nat)
    requires Profiles(st.profile, log) && n <= |batch|
    ensures Profiles(Batched(cfg, st, batch, now, n).0.profile, log + PortsIn(cfg, batch, n))
  {
    hide Profiles, AskAll, Questions, WithContact, WithPort;
    if n == 0 {
      assert log + [] == log;
    } else {
      BatchIsProfiled(cfg, log, st, batch, now, n - 1);
      var item := batch[n - 1];
      var before := log + PortsIn(cfg, batch, n - 1);
      if Counts(cfg, item) {
        PortIsCounted(Batched(cfg, st, batch, now, n - 1).0.profile, before, item.obs.port);
        assert log + PortsIn(cfg, batch, n) == before + if item.obs.port > 0 then [item.obs.port] else [];
      } else {
        assert log + PortsIn(cfg, batch, n) == before;
      }
    }
  }

  /** Over every run the profile holds, for each port, how often it was observed since the last reset. */
  lemma {:induction false} ProfileIsOfTheLog(cfg: Config, calls: seq<Call>, n: nat, dropping: bool)
    requires n <= |calls|
    ensures Profiles(After(cfg, calls, n, dropping).profile, PortLog(cfg, calls, n))
  {
    hide Batched, Checked, Fanout, Memos.Dropped, Profiles, PortsIn, Reached;
    NothingProfiled();
    if n > 0 {
      ProfileIsOfTheLog(cfg, calls, n - 1, dropping);
      var call := calls[n - 1];
      var k := Reached(cfg, call.batch);
      var st := Refreshed(cfg, After(cfg, calls, n - 1, dropping), call);
      BatchIsProfiled(cfg, PortLog(cfg, calls, n - 1), st, call.batch, call.now, k);
      ProfileSize(Batched(cfg, st, call.batch, call.now, k).0.profile,
                  PortLog(cfg, calls, n - 1) + PortsIn(cfg, call.batch, k));
    }
  }

  lemma NothingProfiled()
    ensures Profiles(map[], [])
  {
  }

  lemma ProfileSize(profile: map<int, int>, log: seq<int>)
    requires Profiles(profile, log)
    ensures |profile| == |set p | p in log|
  {
    var ports := set p | p in log;
    forall p ensures p in profile.Keys <==> p in ports {
      assert p in profile <==> p in log;
    }
    assert profile.Keys == ports && |profile| == |profile.Keys|;
  }

  /** The call that the rarity threshold in force after n calls is of, if any. */
  ghost function LastRefresh(cfg: Config, calls: seq<Call>, n: nat): (r: Option<nat>)
    requires n <= |calls|
    ensures r.Some? ==> r.value < n
  {
    if n == 0 then None
    else
      var last := LastRefresh(cfg, calls, n - 1);
      if cfg.rarePercentile > 0.0 && (last.Some? ==> calls[n - 1].now - calls[last.value].now > 900_000_000)
      then Some(n - 1) else last
  }

  ghost function Rarity(cfg: Config, calls: seq<Call>, n: nat): real
    requires n <= |calls|
  {
    match LastRefresh(cfg, calls, n) case None => 0.0 case Some(j) => calls[j].rarity
  }

  lemma {:induction false} BatchKeepsThreshold(cfg: Config, st: State, batch: seq<Item>, now: int, n: nat)
    requires n <= |batch|
    ensures var after := Batched(cfg, st, batch, now, n).0;
            after.threshold == st.threshold && after.refreshed == st.refreshed
  {
    hide AskAll, Questions, WithContact, WithPort;
    if n > 0 {
      BatchKeepsThreshold(cfg, st, batch, now, n - 1);
    }
  }

  lemma {:induction false} ThresholdIsRarity(cfg: Config, calls: seq<Call>, n: nat, dropping: bool)
    requires n <= |calls|
    ensures var st, last := After(cfg, calls, n, dropping), LastRefresh(cfg, calls, n);
            && st.threshold == Rarity(cfg, calls, n)
            && st.refreshed == match last case None => None case Some(j) => Some(calls[j].now)
  {
    hide Batched, Checked, Fanout, Memos.Dropped;
    if n > 0 {
      ThresholdIsRarity(cfg, calls, n - 1, dropping);
      var call := calls[n - 1];
      BatchKeepsThreshold(cfg, Refreshed(cfg, After(cfg, calls, n - 1, dropping), call), call.batch, call.now,
                          Reached(cfg, call.batch));
    }
  }

  // What has been reported, and when it may be again.

  datatype Report = Report(key: string, time: int)

  /** What a report of this kind is remembered by. */
  function MemoKey(kind: Kind, o: Observation): string {
    match kind
    case NewDestination => o.key
    case HighVolumeNew => "volume:" + o.key
    case RareDestination => "rare:" + o.key
    case UnexpectedPort => "port:" + o.key
  }

  /** How long it is not repeated, in microseconds. */
  function IntervalOf(cfg: Config, kind: Kind): int {
    match kind
    case NewDestination | HighVolumeNew => cfg.newWindow
    case RareDestination => 86_400_000_000
    case UnexpectedPort => 21_600_000_000
  }

  function ReportsOf(kinds: seq<Kind>, o: Observation, now: int): seq<Report> {
    seq(|kinds|, i requires 0 <= i < |kinds| => Report(MemoKey(kinds[i], o), now))
  }

  /** The state in which the k-th observation of a call is taken. */
  ghost function StateAt(cfg: Config, calls: seq<Call>, i: nat, k: nat, dropping: bool): State
    requires i < |calls| && k <= |calls[i].batch|
  {
    Batched(cfg, Refreshed(cfg, After(cfg, calls, i, dropping), calls[i]), calls[i].batch, calls[i].now, k).0
  }

  /** What is reported of it. */
  ghost function KindsAt(cfg: Config, calls: seq<Call>, i: nat, k: nat, dropping: bool): seq<Kind>
    requires i < |calls| && k < |calls[i].batch|
  {
    var item := calls[i].batch[k];
    if Counts(cfg, item) then Taken(cfg, StateAt(cfg, calls, i, k, dropping), item.obs, item.answer, calls[i].now).1
    else []
  }

  ghost predicate IsFindingOf(f: Finding, cfg: Config, calls: seq<Call>, i: nat, k: nat, dropping: bool)
    requires i < |calls| && k < |calls[i].batch|
  {
    f.obs == calls[i].batch[k].obs && f.kind in KindsAt(cfg, calls, i, k, dropping)
  }

  lemma {:induction false} FindingsOfBatch(cfg: Config, calls: seq<Call>, i: nat, n: nat, dropping: bool, f: Finding)
    requires i < |calls| && n <= |calls[i].batch|
    ensures f in Batched(cfg, Refreshed(cfg, After(cfg, calls, i, dropping), calls[i]), calls[i].batch, calls[i].now,
                         n).1
       <==> exists k: nat :: k < n && IsFindingOf(f, cfg, calls, i, k, dropping)
  {
    hide Taken, After, Refreshed, FindingsOf;
    if n > 0 {
      FindingsOfBatch(cfg, calls, i, n - 1, dropping, f);
      var item := calls[i].batch[n - 1];
      var st := Refreshed(cfg, After(cfg, calls, i, dropping), calls[i]);
      var kinds := KindsAt(cfg, calls, i, n - 1, dropping);
      var before := Batched(cfg, st, calls[i].batch, calls[i].now, n - 1).1;
      assert Batched(cfg, st, calls[i].batch, calls[i].now, n).1
          == if Counts(cfg, item) then before + FindingsOf(kinds, item.obs) else before;
      AreFindings(kinds, item.obs, f);
      AreFindings([], item.obs, f);
      assert IsFindingOf(f, cfg, calls, i, n - 1, dropping) <==> f in FindingsOf(kinds, item.obs);
    }
  }

  lemma AreFindings(kinds: seq<Kind>, o: Observation, f: Finding)
    ensures f in FindingsOf(kinds, o) <==> f.obs == o && f.kind in kinds
  {
    if f.obs == o && f.kind in kinds {
      var j :| 0 <= j < |kinds| && kinds[j] == f.kind;
      assert FindingsOf(kinds, o)[j] == f;
    }
  }

  /** A call reports what its observations give up to the first that the store does not answer. */
  lemma FindingsAreOfTheItems(cfg: Config, calls: seq<Call>, i: nat, dropping: bool)
    requires i < |calls|
    ensures var batch, out := calls[i].batch, OutputAt(cfg, calls, i, dropping);
            && (forall f :: f in out.findings <==>
                  exists k: nat :: k < Reached(cfg, batch) && IsFindingOf(f, cfg, calls, i, k, dropping))
            && (out.ok <==> Reached(cfg, batch) == |batch|)
  {
    hide Batched, Checked, Fanout, Pruned, IsFindingOf;
    forall f ensures f in OutputAt(cfg, calls, i, dropping).findings <==>
        exists k: nat :: k < Reached(cfg, calls[i].batch) && IsFindingOf(f, cfg, calls, i, k, dropping) {
      FindingsOfBatch(cfg, calls, i, Reached(cfg, calls[i].batch), dropping, f);
    }
  }

  /** What the first k observations of a call are reported with. */
  ghost function ReportsIn(cfg: Config, calls: seq<Call>, i: nat, k: nat, dropping: bool): seq<Report>
    requires i < |calls| && k <= |calls[i].batch|
  {
    if k == 0 then []
    else ReportsIn(cfg, calls, i, k - 1, dropping)
         + ReportsOf(KindsAt(cfg, calls, i, k - 1, dropping), calls[i].batch[k - 1].obs, calls[i].now)
  }

  /** Every report of the first n calls. */
  ghost function ReportLog(cfg: Config, calls: seq<Call>, n: nat, dropping: bool): seq<Report>
    requires n <= |calls|
  {
    if n == 0 then []
    else ReportLog(cfg, calls, n - 1, dropping)
         + ReportsIn(cfg, calls, n - 1, Reached(cfg, calls[n - 1].batch), dropping)
  }

  /** The memo has the latest report of each key, but for those dropped with age. */
  ghost predicate Remembering(memo: map<string, int>, log: seq<Report>, clock: int, dropping: bool) {
    forall r :: r in log ==>
      && r.time <= clock
      && ((r.key in memo && r.time <= memo[r.key]) || (dropping && clock - r.time > DAY))
  }

  ghost predicate OnlyReports(memo: map<string, int>, log: seq<Report>) {
    forall x :: x in memo ==> Report(x, memo[x]) in log
  }

  ghost predicate IsMemoOf(memo: map<string, int>, log: seq<Report>, clock: int, dropping: bool) {
    Remembering(memo, log, clock, dropping) && OnlyReports(memo, log)
  }

  /** A memo is due exactly when no report of its key is younger than the interval. */
  lemma DueIff(memo: map<string, int>, log: seq<Report>, now: int, dropping: bool, key: string, interval: int)
    requires IsMemoOf(memo, log, now, dropping) && (dropping ==> interval <= DAY + 1)
    ensures Memos.Due(memo, key, now, interval) <==> forall r :: r in log && r.key == key ==> now - r.time >= interval
  {
    if key in memo {
      assert Report(key, memo[key]) in log;
    }
  }

  lemma AskedIsRemembered(memo: map<string, int>, log: seq<Report>, now: int, dropping: bool, key: string,
                          interval: int)
    requires IsMemoOf(memo, log, now, dropping)
    ensures IsMemoOf(Memos.Asked(memo, key, now, interval),
                     if Memos.Due(memo, key, now, interval) then log + [Report(key, now)] else log, now, dropping)
  {
    assert forall r :: r in log + [Report(key, now)] <==> r in log || r == Report(key, now);
  }

  ghost predicate KeyedBy(questions: seq<Question>, o: Observation) {
    forall i :: 0 <= i < |questions| ==> questions[i].key == MemoKey(questions[i].kind, o)
  }

  ghost predicate AreDistinct(questions: seq<Question>) {
    forall i, j :: 0 <= i < j < |questions| ==>
      questions[i].key != questions[j].key && questions[i].kind != questions[j].kind
  }

  lemma {:induction false} AskingRemembers(memo: map<string, int>, log: seq<Report>, questions: seq<Question>,
                                           o: Observation, now: int, dropping: bool)
    requires IsMemoOf(memo, log, now, dropping) && KeyedBy(questions, o)
    ensures IsMemoOf(AskAll(memo, questions, now).0, log + ReportsOf(AskAll(memo, questions, now).1, o, now), now,
                     dropping)
  {
    hide IsMemoOf, MemoKey, Memos.Asked, Memos.Due;
    if questions == [] {
      assert log + ReportsOf([], o, now) == log;
    } else {
      var n := |questions| - 1;
      var q := questions[n];
      AskingRemembers(memo, log, questions[..n], o, now, dropping);
      var (before, kinds) := AskAll(memo, questions[..n], now);
      if q.reason {
        AskedIsRemembered(before, log + ReportsOf(kinds, o, now), now, dropping, q.key, q.interval);
        assert log + ReportsOf(kinds + [q.kind], o, now) == log + ReportsOf(kinds, o, now) + [Report(q.key, now)];
      }
    }
  }

  /** Questions with keys of their own do not come in each other's way. */
  lemma {:induction false} AskedIff(memo: map<string, int>, questions: seq<Question>, now: int, j: nat)
    requires AreDistinct(questions) && j < |questions|
    ensures questions[j].kind in AskAll(memo, questions, now).1 <==> Passes(memo, questions[j], now)
    decreases |questions|
  {
    hide Memos.Asked, Memos.Due;
    var n := |questions| - 1;
    var (before, kinds) := AskAll(memo, questions[..n], now);
    assert AskAll(memo, questions, now).1
        == if Passes(before, questions[n], now) then kinds + [questions[n].kind] else kinds;
    if j < n {
      AskedIff(memo, questions[..n], now, j);
    } else {
      OthersAreUntouched(memo, questions[..n], now, questions[n].key);
      KindsAreOfQuestions(memo, questions[..n], now);
      SameIsAsDue(memo, before, questions[n].key, now, questions[n].interval);
    }
  }

  lemma SameIsAsDue(memo: map<string, int>, other: map<string, int>, key: string, now: int, interval: int)
    requires key in memo <==> key in other
    requires key in memo ==> memo[key] == other[key]
    ensures Memos.Due(memo, key, now, interval) <==> Memos.Due(other, key, now, interval)
  {
  }

  lemma {:induction false} OthersAreUntouched(memo: map<string, int>, questions: seq<Question>, now: int, key: string)
    requires forall i :: 0 <= i < |questions| ==> questions[i].key != key
    ensures var after := AskAll(memo, questions, now).0;
            (key in memo <==> key in after) && (key in memo ==> after[key] == memo[key])
  {
    if questions != [] {
      OthersAreUntouched(memo, questions[..|questions| - 1], now, key);
    }
  }

  lemma {:induction false} KindsAreOfQuestions(memo: map<string, int>, questions: seq<Question>, now: int)
    ensures forall kind :: kind in AskAll(memo, questions, now).1 ==>
              exists i :: 0 <= i < |questions| && questions[i].kind == kind
  {
    hide Passes, Memoed;
    if questions != [] {
      var n := |questions| - 1;
      KindsAreOfQuestions(memo, questions[..n], now);
      forall kind | kind in AskAll(memo, questions, now).1
        ensures exists i :: 0 <= i < |questions| && questions[i].kind == kind
      {
        if kind in AskAll(memo, questions[..n], now).1 {
          var i :| 0 <= i < n && questions[..n][i].kind == kind;
          assert questions[i].kind == kind;
        } else {
          assert questions[n].kind == kind;
        }
      }
    }
  }

  lemma QuestionsAreDistinct(cfg: Config, st: State, o: Observation, a: Answer, now: int)
    requires a.Known?
    ensures AreDistinct(Questions(cfg, st, o, a, now)) && KeyedBy(Questions(cfg, st, o, a, now), o)
  {
    assert ("volume:" + o.key)[0] == 'v' && ("rare:" + o.key)[0] == 'r' && ("port:" + o.key)[0] == 'p';
    assert |"volume:" + o.key| > |o.key| && |"rare:" + o.key| > |o.key| && |"port:" + o.key| > |o.key|;
  }

  lemma {:induction false} BatchRemembers(cfg: Config, calls: seq<Call>, i: nat, k: nat, dropping: bool,
                                          log: seq<Report>)
    requires i < |calls| && k <= |calls[i].batch|
    requires IsMemoOf(After(cfg, calls, i, dropping).reported, log, calls[i].now, dropping)
    ensures IsMemoOf(StateAt(cfg, calls, i, k, dropping).reported, log + ReportsIn(cfg, calls, i, k, dropping),
                     calls[i].now, dropping)
  {
    hide IsMemoOf, After, AskAll, Questions, ReportsOf, WithPort, WithContact;
    if k == 0 {
      assert log + [] == log;
    } else {
      BatchRemembers(cfg, calls, i, k - 1, dropping, log);
      var item, st := calls[i].batch[k - 1], StateAt(cfg, calls, i, k - 1, dropping);
      var all := log + ReportsIn(cfg, calls, i, k - 1, dropping);
      NoReports(item.obs, calls[i].now);
      assert log + ReportsIn(cfg, calls, i, k, dropping)
          == all + ReportsOf(KindsAt(cfg, calls, i, k - 1, dropping), item.obs, calls[i].now);
      assert all + [] == all;
      if Counts(cfg, item) && !Learning(cfg, calls[i].now) {
        var recorded := Recorded(st, item.obs, calls[i].now);
        var questions := Questions(cfg, recorded, item.obs, item.answer, calls[i].now);
        QuestionsAreDistinct(cfg, recorded, item.obs, item.answer, calls[i].now);
        AskingRemembers(st.reported, all, questions, item.obs, calls[i].now, dropping);
      }
    }
  }

  lemma NoReports(o: Observation, now: int)
    ensures ReportsOf([], o, now) == []
  {
  }

  lemma {:induction false} RunRemembers(cfg: Config, calls: seq<Call>, n: nat, dropping: bool)
    requires InTimeOrder(calls) && n < |calls|
    ensures IsMemoOf(After(cfg, calls, n, dropping).reported, ReportLog(cfg, calls, n, dropping), calls[n].now,
                     dropping)
  {
    hide Batched, Checked, Fanout, ReportsIn, IsMemoOf, InTimeOrder;
    if n == 0 {
      NothingReported(calls[0].now, dropping);
    } else {
      var call := calls[n - 1];
      RunRemembers(cfg, calls, n - 1, dropping);
      BatchRemembers(cfg, calls, n - 1, Reached(cfg, call.batch), dropping, ReportLog(cfg, calls, n - 1, dropping));
      assert call.now <= calls[n].now by {
        TimesAreInOrder(calls, n);
      }
      LaterIsRemembered(StateAt(cfg, calls, n - 1, Reached(cfg, call.batch), dropping).reported,
                        ReportLog(cfg, calls, n, dropping), call.now, calls[n].now, dropping);
    }
  }

  lemma TimesAreInOrder(calls: seq<Call>, n: nat)
    requires InTimeOrder(calls) && 0 < n < |calls|
    ensures calls[n - 1].now <= calls[n].now
  {
  }

  lemma NothingReported(now: int, dropping: bool)
    ensures IsMemoOf(map[], [], now, dropping)
  {
  }

  lemma LaterIsRemembered(memo: map<string, int>, log: seq<Report>, clock: int, now: int, dropping: bool)
    requires IsMemoOf(memo, log, clock, dropping) && clock <= now
    ensures IsMemoOf(memo, log, now, dropping)
    ensures dropping ==> IsMemoOf(Memos.Dropped(memo, clock, DAY), log, now, dropping)
  {
  }

  /** Why an observation may be reported, from the store's answer and what was observed before. */
  ghost predicate HasReason(cfg: Config, calls: seq<Call>, i: nat, k: nat, kind: Kind)
    requires i < |calls| && k < |calls[i].batch| && calls[i].batch[k].answer.Known?
  {
    var o, a := calls[i].batch[k].obs, calls[i].batch[k].answer;
    match kind
    case NewDestination => a.isNew
    case HighVolumeNew =>
      && a.firstSeen.Some? && calls[i].now - a.firstSeen.value <= cfg.newWindow
      && 0 < cfg.highVolumeBytes <= o.bytesSent
    case RareDestination =>
      !a.isNew && Rarity(cfg, calls, i + 1) > 0.0 && a.contacts as real <= Rarity(cfg, calls, i + 1)
    case UnexpectedPort =>
      && o.port > 0 && o.port !in cfg.expectedPorts
      && multiset(PortLog(cfg, calls, i) + PortsIn(cfg, calls[i].batch, k + 1))[o.port] < 5
  }

  lemma SeenIsLogged(profile: map<int, int>, log: seq<int>, port: int)
    requires Profiles(profile, log)
    ensures Seen(profile, port) == multiset(log)[port]
  {
    if port !in log {
      assert port !in multiset(log);
    }
  }

  /** The port's count when the k-th observation of a call has been recorded. */
  lemma PortIsSeen(cfg: Config, calls: seq<Call>, i: nat, k: nat, dropping: bool)
    requires i < |calls| && k < |calls[i].batch| && Counts(cfg, calls[i].batch[k])
    ensures var o, log := calls[i].batch[k].obs, PortLog(cfg, calls, i) + PortsIn(cfg, calls[i].batch, k + 1);
            Seen(WithPort(StateAt(cfg, calls, i, k, dropping).profile, o.port), o.port) == multiset(log)[o.port]
  {
    hide Profiles, Batched, After, PortLog, WithPort, Seen;
    var log, port := PortLog(cfg, calls, i), calls[i].batch[k].obs.port;
    ProfileIsOfTheLog(cfg, calls, i, dropping);
    BatchIsProfiled(cfg, log, Refreshed(cfg, After(cfg, calls, i, dropping), calls[i]), calls[i].batch, calls[i].now,
                    k);
    PortIsCounted(StateAt(cfg, calls, i, k, dropping).profile, log + PortsIn(cfg, calls[i].batch, k), port);
    assert log + PortsIn(cfg, calls[i].batch, k + 1)
        == log + PortsIn(cfg, calls[i].batch, k) + if port > 0 then [port] else [];
    SeenIsLogged(WithPort(StateAt(cfg, calls, i, k, dropping).profile, port),
                 log + PortsIn(cfg, calls[i].batch, k + 1), port);
  }

  lemma ThresholdAt(cfg: Config, calls: seq<Call>, i: nat, k: nat, dropping: bool)
    requires i < |calls| && k <= |calls[i].batch|
    ensures StateAt(cfg, calls, i, k, dropping).threshold == Rarity(cfg, calls, i + 1)
  {
    hide Batched, After;
    ThresholdIsRarity(cfg, calls, i, dropping);
    BatchKeepsThreshold(cfg, Refreshed(cfg, After(cfg, calls, i, dropping), calls[i]), calls[i].batch, calls[i].now, k);
  }

  /** Its place among the questions. */
  function PlaceOf(kind: Kind): nat {
    match kind case NewDestination => 0 case HighVolumeNew => 1 case RareDestination => 2 case UnexpectedPort => 3
  }

  lemma ReasonsAreThose(cfg: Config, calls: seq<Call>, i: nat, k: nat, dropping: bool, kind: Kind, j: nat)
    requires i < |calls| && k < |calls[i].batch| && Counts(cfg, calls[i].batch[k])
    requires j == PlaceOf(kind)
    ensures var item, now := calls[i].batch[k], calls[i].now;
            var q := Questions(cfg, Recorded(StateAt(cfg, calls, i, k, dropping), item.obs, now), item.obs,
                               item.answer, now)[j];
            && q.kind == kind && q.key == MemoKey(kind, item.obs) && q.interval == IntervalOf(cfg, kind)
            && (q.reason <==> HasReason(cfg, calls, i, k, kind))
  {
    hide StateAt, PortLog, PortsIn, Rarity, WithPort, Seen, WithContact;
    PortIsSeen(cfg, calls, i, k, dropping);
    ThresholdAt(cfg, calls, i, k, dropping);
  }

  /** An observation is reported exactly when learning is over, the store's answer or the ports observed
      so far give the reason, and no report by the same key is younger than the interval. */
  lemma {:induction false} ReportedIff(cfg: Config, calls: seq<Call>, i: nat, k: nat, dropping: bool, kind: Kind)
    requires InTimeOrder(calls) && i < |calls| && k < |calls[i].batch| && Counts(cfg, calls[i].batch[k])
    requires dropping ==> cfg.newWindow <= DAY + 1
    ensures var before := ReportLog(cfg, calls, i, dropping) + ReportsIn(cfg, calls, i, k, dropping);
            kind in KindsAt(cfg, calls, i, k, dropping) <==>
              && calls[i].now - cfg.start >= cfg.learningPeriod && HasReason(cfg, calls, i, k, kind)
              && forall r :: r in before && r.key == MemoKey(kind, calls[i].batch[k].obs) ==>
                   calls[i].now - r.time >= IntervalOf(cfg, kind)
  {
    hide After, Batched, AskAll, Profiles, IsMemoOf, ReportLog, ReportsIn, PortLog, PortsIn, InTimeOrder, Memos.Due;
    var item, now := calls[i].batch[k], calls[i].now;
    var st := StateAt(cfg, calls, i, k, dropping);
    var questions := Questions(cfg, Recorded(st, item.obs, now), item.obs, item.answer, now);
    RunRemembers(cfg, calls, i, dropping);
    BatchRemembers(cfg, calls, i, k, dropping, ReportLog(cfg, calls, i, dropping));
    var before := ReportLog(cfg, calls, i, dropping) + ReportsIn(cfg, calls, i, k, dropping);
    var j := PlaceOf(kind);
    DueIff(st.reported, before, now, dropping, questions[j].key, questions[j].interval);
    ReasonsAreThose(cfg, calls, i, k, dropping, kind, j);
    QuestionsAreDistinct(cfg, Recorded(st, item.obs, now), item.obs, item.answer, now);
    AskedIff(st.reported, questions, now, j);
  }

  lemma {:induction false} CallsGrow(cfg: Config, calls: seq<Call>, call: Call, n: nat, dropping: bool)
    requires n <= |calls|
    ensures After(cfg, calls + [call], n, dropping) == After(cfg, calls, n, dropping)
  {
    hide Observed;
    if n > 0 {
      CallsGrow(cfg, calls, call, n - 1, dropping);
    }
  }

  // ----- The analyzer ---------------------------------------------------------------------------

  class Analyzer {
    const cfg: Config
    var profile: map<int, int>
    var trackers: map<string, Tracker>
    var reported: map<string, int>
    var threshold: real
    var refreshed: Option<int>
    /** Every call so far. */
    ghost var calls: seq<Call>

    ghost function View(): State
      reads this
    {
      State(profile, trackers, reported, threshold, refreshed)
    }

    ghost predicate Valid()
      reads this
    {
      View() == After(cfg, calls, |calls|, true)
    }

    constructor (cfg: Config)
      ensures Valid() && this.cfg == cfg && calls == [] && View() == INITIAL
    {
      this.cfg, calls := cfg, [];
      profile, trackers, reported, threshold, refreshed := map[], map[], map[], 0.0, None;
    }

    /** One call of Observe; the answers of the store come with the call. */
    method Observe(call: Call) returns (out: Output)
      requires Valid()
      modifies this
      ensures Valid() && calls == old(calls) + [call]
      ensures out == OutputAt(cfg, calls, |calls| - 1, true)
    {
      ghost var before := calls;
      out := Process(call);
      calls := calls + [call];
      CallsGrow(cfg, before, call, |before|, true);
    }

    method Process(call: Call) returns (out: Output)
      modifies this`profile, this`trackers, this`reported, this`threshold, this`refreshed
      ensures (View(), out) == Observed(cfg, old(View()), call, true)
    {
      hide Taken, Checked, Fanout, Pruned;
      if (refreshed.None? || call.now - refreshed.value > REFRESH_EVERY) && cfg.rarePercentile > 0.0 {
        threshold, refreshed := call.rarity, Some(call.now);
      }
      ghost var start := View();
      assert start == Refreshed(cfg, old(View()), call);
      var findings: seq<Finding> := [];
      for i := 0 to |call.batch|
        invariant (View(), findings) == Batched(cfg, start, call.batch, call.now, i)
        invariant forall j :: 0 <= j < i ==> !Considered(cfg, call.batch[j].obs) || call.batch[j].answer != Failed
      {
        var item := call.batch[i];
        if item.obs.addr.None? || (item.obs.internal && !cfg.reportInternal) {
          continue;
        }
        if item.answer == Failed {
          return Output(findings, map[], false);
        }
        var kinds := Take(item.obs, item.answer, call.now);
        findings := findings + FindingsOf(kinds, item.obs);
      }
      var fanout := CheckFanout(call.now);
      Prune(call.now);
      return Output(findings, fanout, true);
    }

    method Take(o: Observation, a: Answer, now: int) returns (kinds: seq<Kind>)
      requires o.addr.Some? && a.Known?
      modifies this`profile, this`trackers, this`reported
      ensures (View(), kinds) == Taken(cfg, old(View()), o, a, now)
      ensures profile == if o.port <= 0 then old(profile)
                         else if o.port in old(profile) then old(profile)[o.port := old(profile)[o.port] + 1]
                         else old(profile)[o.port := 1]
    {
      if o.port > 0 {
        profile := profile[o.port := Seen(profile, o.port) + 1];
      }
      var process := if o.process == "" then "(unattributed)" else o.process;
      var t := TrackerOf(trackers, process);
      trackers := trackers[process := t.(contacts := t.contacts[o.addr.value := now])];
      ghost var recorded := View();
      assert recorded == Recorded(old(View()), o, now);
      if now - cfg.start < cfg.learningPeriod {
        return [];
      }
      kinds := Consider(o, a, now);
    }

    /** The four questions in order; each asks the memo only if its reason holds. */
    method Consider(o: Observation, a: Answer, now: int) returns (kinds: seq<Kind>)
      requires a.Known?
      modifies this`reported
      ensures (reported, kinds) == AskAll(old(reported), Questions(cfg, View(), o, a, now), now)
    {
      ghost var memo := reported;
      kinds := [];
      var asked := Questions(cfg, State(profile, trackers, reported, threshold, refreshed), o, a, now);
      for i := 0 to |asked|
        invariant (reported, kinds) == AskAll(memo, asked[..i], now)
      {
        assert asked[..i + 1][..i] == asked[..i];
        var q := asked[i];
        if q.reason {
          var report := ShouldReport(q.key, now, q.interval);
          if report {
            kinds := kinds + [q.kind];
          }
        }
      }
      assert asked[..|asked|] == asked;
    }

    /** One report per key per interval. */
    method ShouldReport(key: string, now: int, interval: int) returns (report: bool)
      modifies this`reported
      ensures report <==> Memos.Due(old(reported), key, now, interval)
      ensures reported == Memos.Asked(old(reported), key, now, interval)
    {
      if key in reported && now - reported[key] < interval {
        return false;
      }
      reported := reported[key := now];
      return true;
    }

    /** Trims every tracker and reports the processes that fan out, in whatever order the map is walked. */
    method CheckFanout(now: int) returns (fanout: map<string, nat>)
      modifies this`trackers
      ensures trackers == Checked(cfg, old(trackers), now) && fanout == Fanout(cfg, old(trackers), now)
    {
      hide Recent, Fans, CheckedTracker;
      fanout := map[];
      if cfg.fanoutThreshold <= 0 || Learning(cfg, now) {
        return;
      }
      ghost var was := trackers;
      var todo := trackers.Keys;
      while todo != {}
        invariant todo <= was.Keys == trackers.Keys
        invariant forall p :: p in was ==> trackers[p] == if p in todo then was[p] else CheckedTracker(cfg, was[p], now)
        invariant forall p :: p in fanout <==> p in was && p !in todo && Fans(cfg, was[p], now)
        invariant forall p :: p in fanout ==> fanout[p] == |Recent(was[p].contacts, now - cfg.fanoutWindow)|
        decreases |todo|
      {
        var p :| p in todo;
        todo := todo - {p};
        var t, fans, count := CheckTracker(trackers[p], now);
        trackers := trackers[p := t];
        if fans {
          fanout := fanout[p := count];
        }
      }
    }

    method CheckTracker(was: Tracker, now: int) returns (t: Tracker, fans: bool, count: nat)
      ensures t == CheckedTracker(cfg, was, now) && fans == Fans(cfg, was, now)
      ensures count == |Recent(was.contacts, now - cfg.fanoutWindow)|
    {
      hide Recent;
      t := was.(contacts := Recent(was.contacts, now - cfg.fanoutWindow));
      count := |t.contacts|;
      fans := false;
      if count >= cfg.fanoutThreshold && !(t.reported.Some? && now - t.reported.value < cfg.fanoutWindow) {
        t := t.(reported := Some(now));
        fans := true;
      }
    }

    method Prune(now: int)
      modifies this`profile, this`trackers, this`reported
      ensures View() == Pruned(cfg, old(View()), now, true)
    {
      reported := Memos.Dropped(reported, now, DAY);
      var todo, kept := trackers.Keys, trackers;
      while todo != {}
        invariant todo <= trackers.Keys && trackers == old(trackers)
        invariant forall p :: p in kept <==> p in trackers && (p in todo || !CanGo(cfg, trackers[p], now))
        invariant forall p :: p in kept ==> kept[p] == trackers[p]
        invariant View() == old(View()).(reported := Memos.Dropped(old(reported), now, DAY))
        decreases |todo|
      {
        var p :| p in todo;
        todo := todo - {p};
        var t := trackers[p];
        if |t.contacts| == 0 && (t.reported.None? || t.reported.value < now - 2 * cfg.fanoutWindow) {
          kept := kept - {p};
        }
      }
      trackers := kept;
      if |profile| > 4096 {
        profile := map[];
      }
    }
  }
}
