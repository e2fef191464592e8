/** The correlation engine's sliding window and its view (internal/correlation/window.go). */
module Correlation {
  import opened Wrappers

  datatype Kind = Event | Sample

  /** A zero time is the missing time of a signal that was not stamped. */
  datatype Signal = Signal(time: Option<int>, kind: Kind, name: string, code: int, value: real, eventID: int)

  const MAX_SIGNALS: nat := 4096
  const DEFAULT_DURATION: int := 180_000_000

  // ----- Trimming ---------------------------------------------------------------------------

  /** The stamped time; an unstamped signal is stamped by Add. */
  function TimeOf(s: Signal): int {
    if s.time.Some? then s.time.value else 0
  }

  function Stamped(s: Signal, clock: int): (r: Signal)
    ensures r.time.Some?
  {
    if s.time.None? then s.(time := Some(clock)) else s
  }

  /** The signals not before the cutoff, in order. */
  function Within(signals: seq<Signal>, cutoff: int): seq<Signal> {
    Filter(NotBefore(cutoff), signals)
  }

  function NotBefore(cutoff: int): Signal -> bool {
    (s: Signal) => TimeOf(s) >= cutoff
  }

  function LastOf(signals: seq<Signal>, max: nat): seq<Signal> {
    if |signals| > max then signals[|signals| - max..] else signals
  }

  ghost predicate Ordered(signals: seq<Signal>) {
    forall i, j :: 0 <= i <= j < |signals| ==> TimeOf(signals[i]) <= TimeOf(signals[j])
  }

  lemma OrderedInit(signals: seq<Signal>)
    requires Ordered(signals) && signals != []
    ensures Ordered(signals[..|signals| - 1])
    ensures forall i :: 0 <= i < |signals| ==> TimeOf(signals[i]) <= TimeOf(signals[|signals| - 1])
  {
    hide TimeOf;
  }

  lemma OrderedFrom(signals: seq<Signal>, k: nat)
    requires Ordered(signals) && k <= |signals|
    ensures Ordered(signals[k..])
  {
    hide TimeOf;
  }

  /** In time order what is not before the cutoff is a tail. */
  lemma {:induction false} WithinIsTail(signals: seq<Signal>, cutoff: int, k: nat)
    requires Ordered(signals) && k <= |signals|
    requires forall i :: 0 <= i < k ==> TimeOf(signals[i]) < cutoff
    requires k < |signals| ==> TimeOf(signals[k]) >= cutoff
    ensures Within(signals, cutoff) == signals[k..]
  {
    hide Ordered, TimeOf;
    if signals != [] {
      var n := |signals| - 1;
      var init := signals[..n];
      OrderedInit(signals);
      if k == |signals| {
        WithinIsTail(init, cutoff, n);
      } else {
        if k < n {
          assert init[k] == signals[k];
        }
        WithinIsTail(init, cutoff, k);
        assert init[k..] + [signals[n]] == signals[k..];
      }
    }
  }

  lemma WithinTwice(signals: seq<Signal>, c: int, d: int)
    requires c <= d
    ensures Within(Within(signals, c), d) == Within(signals, d)
  {
    FilterTwice(NotBefore(c), NotBefore(d), signals);
  }

  lemma WithinAppend(signals: seq<Signal>, s: Signal, cutoff: int)
    ensures Within(signals + [s], cutoff)
         == if TimeOf(s) < cutoff then Within(signals, cutoff) else Within(signals, cutoff) + [s]
  {
    FilterAppend(NotBefore(cutoff), signals, s);
  }

  /** A tail of an ordered list filters to a tail of what the whole list filters to. */
  lemma TailsCommute(signals: seq<Signal>, cutoff: int, max: nat)
    requires Ordered(signals)
    ensures LastOf(Within(LastOf(signals, max), cutoff), max) == LastOf(Within(signals, cutoff), max)
  {
    hide Ordered, TimeOf, Within, LastOf, FirstWithin;
    var k := FirstWithin(signals, cutoff);
    var from := if |signals| > max then |signals| - max else 0;
    LastOfTail(signals, 0, max);
    WithinTail(signals, cutoff, 0);
    WithinTail(signals, cutoff, from);
    LastOfTail(signals, k, max);
    LastOfTail(signals, if k > from then k else from, max);
  }

  /** What a tail filters to is a tail again. */
  lemma WithinTail(signals: seq<Signal>, cutoff: int, from: nat)
    requires Ordered(signals) && from <= |signals|
    ensures signals[0..] == signals
    ensures var k := FirstWithin(signals, cutoff);
            Within(signals[from..], cutoff) == signals[if k > from then k else from..]
  {
    hide Ordered, TimeOf, Within, FirstWithin;
    var tail := signals[from..];
    OrderedFrom(signals, from);
    var kt := FirstWithin(tail, cutoff);
    WithinIsTail(tail, cutoff, kt);
    FirstOfTail(signals, cutoff, from);
  }

  lemma LastOfTail(signals: seq<Signal>, k: nat, max: nat)
    requires k <= |signals|
    ensures signals[0..] == signals
    ensures LastOf(signals[k..], max) == if |signals| - max > k then signals[|signals| - max..] else signals[k..]
  {
  }

  lemma FirstOfTail(signals: seq<Signal>, cutoff: int, from: nat)
    requires Ordered(signals) && from <= |signals|
    ensures var k := FirstWithin(signals, cutoff);
            from + FirstWithin(signals[from..], cutoff) == if k > from then k else from
  {
    hide TimeOf;
    var k := FirstWithin(signals, cutoff);
    var kt := FirstWithin(signals[from..], cutoff);
    assert forall i :: from <= i < |signals| ==> signals[i] == signals[from..][i - from];
  }

  /** Where the scan from the front stops. */
  function FirstWithin(signals: seq<Signal>, cutoff: int): (k: nat)
    ensures k <= |signals| && (k < |signals| ==> TimeOf(signals[k]) >= cutoff)
    ensures forall i :: 0 <= i < k ==> TimeOf(signals[i]) < cutoff
  {
    if signals == [] || TimeOf(signals[0]) >= cutoff then 0 else 1 + FirstWithin(signals[1..], cutoff)
  }

  /** What one trim leaves: the scan stops at the first signal in the window, then the newest max stay. */
  function Trimmed(signals: seq<Signal>, cutoff: int, max: nat): seq<Signal> {
    LastOf(signals[FirstWithin(signals, cutoff)..], max)
  }

  // ----- Runs of the window ---------------------------------------------------------------------

  datatype Call = Add(signal: Signal, clock: int) | Snapshot(now: int)

  /** The time a call trims at. */
  function TrimTime(c: Call): int {
    match c
    case Add(s, clock) => TimeOf(Stamped(s, clock))
    case Snapshot(now) => now
  }

  /** The signal a call adds, if any, as stamped. */
  function Came(c: Call): seq<Signal> {
    match c
    case Add(s, clock) => [Stamped(s, clock)]
    case Snapshot(_) => []
  }

  function Step(signals: seq<Signal>, c: Call, duration: int, max: nat): seq<Signal> {
    Trimmed(signals + Came(c), TrimTime(c) - duration, max)
  }

  function Run(calls: seq<Call>, duration: int, max: nat): seq<Signal> {
    if calls == [] then [] else Step(Run(calls[..|calls| - 1], duration, max), calls[|calls| - 1], duration, max)
  }

  /** Every signal ever added, as stamped. */
  function History(calls: seq<Call>): seq<Signal> {
    if calls == [] then [] else History(calls[..|calls| - 1]) + Came(calls[|calls| - 1])
  }

  ghost predicate InTimeOrder(calls: seq<Call>) {
    forall i, j :: 0 <= i <= j < |calls| ==> TrimTime(calls[i]) <= TrimTime(calls[j])
  }

  lemma {:induction false} HistoryIsOrdered(calls: seq<Call>)
    requires InTimeOrder(calls)
    ensures Ordered(History(calls))
    ensures calls != [] ==> forall i :: 0 <= i < |History(calls)| ==>
        TimeOf(History(calls)[i]) <= TrimTime(calls[|calls| - 1])
  {
    if calls != [] {
      var n := |calls| - 1;
      HistoryIsOrdered(calls[..n]);
      if n > 0 {
        assert TrimTime(calls[n - 1]) <= TrimTime(calls[n]);
      }
    }
  }

  /** When calls come in time order, the incrementally trimmed window is the last max of the
      whole history with a time in the window. */
  lemma {:induction false} OrderedWindowIsExact(calls: seq<Call>, duration: int, max: nat)
    requires InTimeOrder(calls) && calls != [] && duration >= 0
    ensures Run(calls, duration, max)
         == LastOf(Within(History(calls), TrimTime(calls[|calls| - 1]) - duration), max)
  {
    hide Within, LastOf, Trimmed, Ordered, TimeOf, Came;
    var n := |calls| - 1;
    var c := calls[n];
    var cutoff := TrimTime(c) - duration;
    var history := History(calls[..n]);
    HistoryIsOrdered(calls[..n]);
    HistoryIsOrdered(calls);
    if n == 0 {
      assert calls[..n] == [] && [] + Came(c) == Came(c);
      EmptyStep(c, duration, max);
    } else {
      var before := TrimTime(calls[n - 1]) - duration;
      assert TrimTime(calls[n - 1]) <= TrimTime(c);
      OrderedWindowIsExact(calls[..n], duration, max);
      CallIsExact(history, before, c, duration, max);
    }
  }

  lemma CallIsExact(history: seq<Signal>, before: int, c: Call, duration: int, max: nat)
    requires Ordered(history + Came(c)) && before <= TrimTime(c) - duration && duration >= 0
    ensures Step(LastOf(Within(history, before), max), c, duration, max)
         == LastOf(Within(history + Came(c), TrimTime(c) - duration), max)
  {
    hide Within, LastOf, Trimmed, Ordered, Stamped;
    match c
    case Add(s, clock) =>
      AddIsExact(history, before, TrimTime(c) - duration, Stamped(s, clock), max);
    case Snapshot(now) =>
      var kept := LastOf(Within(history, before), max);
      assert history + Came(c) == history && kept + Came(c) == kept;
      TrimIsExact(history, before, now - duration, max);
  }

  lemma EmptyStep(c: Call, duration: int, max: nat)
    requires duration >= 0
    ensures Step([], c, duration, max)
         == LastOf(Within(Came(c), TrimTime(c) - duration), max)
  {
    hide Trimmed, Within, TimeOf, LastOf;
    assert [] + Came(c) == Came(c);
    match c
    case Add(s, clock) =>
      OneIsWithin(Stamped(s, clock), TrimTime(c) - duration, max);
    case Snapshot(now) =>
      NothingIsWithin(now - duration, max);
  }

  lemma NothingIsWithin(cutoff: int, max: nat)
    ensures Trimmed([], cutoff, max) == LastOf(Within([], cutoff), max)
  {
  }

  lemma OneIsWithin(s: Signal, cutoff: int, max: nat)
    requires TimeOf(s) >= cutoff
    ensures Trimmed([s], cutoff, max) == LastOf(Within([s], cutoff), max)
  {
    hide LastOf, TimeOf;
    WithinAppend([], s, cutoff);
    assert [] + [s] == [s] && Within([], cutoff) == [];
  }

  lemma {:induction false} WithinKeepsOrder(signals: seq<Signal>, cutoff: int)
    requires Ordered(signals)
    ensures Ordered(Within(signals, cutoff))
  {
    WithinIsTail(signals, cutoff, FirstWithin(signals, cutoff));
  }

  lemma {:induction false} TrimIsExact(history: seq<Signal>, before: int, cutoff: int, max: nat)
    requires Ordered(history) && before <= cutoff
    ensures Trimmed(LastOf(Within(history, before), max), cutoff, max) == LastOf(Within(history, cutoff), max)
  {
    hide Within;
    var kept := Within(history, before);
    WithinKeepsOrder(history, before);
    TailsCommute(kept, cutoff, max);
    WithinTwice(history, before, cutoff);
    var tail := LastOf(kept, max);
    WithinIsTail(tail, cutoff, FirstWithin(tail, cutoff));
  }

  lemma AddIsExact(history: seq<Signal>, before: int, cutoff: int, s: Signal, max: nat)
    requires Ordered(history + [s]) && before <= cutoff <= TimeOf(s)
    ensures Trimmed(LastOf(Within(history, before), max) + [s], cutoff, max)
        == LastOf(Within(history + [s], cutoff), max)
  {
    hide Within;
    var kept := Within(history, before);
    WithinAppend(history, s, before);
    WithinKeepsOrder(history + [s], before);
    TailsCommute(kept + [s], cutoff, max + 1);
    WithinTwice(history + [s], before, cutoff);
    var tail := LastOf(kept, max) + [s];
    assert tail == LastOf(kept + [s], max + 1);
    WithinIsTail(tail, cutoff, FirstWithin(tail, cutoff));
    assert LastOf(LastOf(Within(kept + [s], cutoff), max + 1), max) == LastOf(Within(kept + [s], cutoff), max);
  }

  // ----- Arrivals in any order -----------------------------------------------------------------

  ghost predicate IsHighest(calls: seq<Call>, high: int) {
    && (forall c :: c in calls ==> TrimTime(c) <= high)
    && exists c :: c in calls && TrimTime(c) == high
  }

  /** What is missing of a history is a first part, short enough, and everything in it is either
      before the cutoff or has max newer arrivals behind it. */
  ghost predicate OnlyOldIsMissing(h: seq<Signal>, kept: seq<Signal>, cutoff: int, max: nat) {
    && |kept| <= |h| && kept == h[|h| - |kept|..] && |kept| <= max
    && forall i :: 0 <= i < |h| - |kept| ==> TimeOf(h[i]) < cutoff || i < |h| - max
  }

  /** Whatever the order of arrival, no signal within duration of the largest trim time is ever
      dropped by age. */
  lemma {:induction false} NothingRecentIsDropped(calls: seq<Call>, duration: int, max: nat, high: int)
    requires calls != [] ==> IsHighest(calls, high)
    ensures OnlyOldIsMissing(History(calls), Run(calls, duration, max), high - duration, max)
  {
    hide OnlyOldIsMissing, Trimmed, IsHighest, TimeOf, Came;
    if calls == [] {
      NothingMissing(high - duration, max);
    } else {
      var n := |calls| - 1;
      var c := calls[n];
      var lower := HighestBefore(calls, high);
      NothingRecentIsDropped(calls[..n], duration, max, lower);
      var h, kept := History(calls[..n]), Run(calls[..n], duration, max);
      TrimDropsAPrefix(h, kept, Came(c), lower - duration, TrimTime(c) - duration, high - duration, max);
    }
  }

  lemma NothingMissing(cutoff: int, max: nat)
    ensures OnlyOldIsMissing([], [], cutoff, max)
  {
  }

  lemma HighestBefore(calls: seq<Call>, high: int) returns (lower: int)
    requires calls != [] && IsHighest(calls, high)
    ensures TrimTime(calls[|calls| - 1]) <= high && lower <= high
    ensures |calls| > 1 ==> IsHighest(calls[..|calls| - 1], lower)
  {
    hide TrimTime;
    var init := calls[..|calls| - 1];
    assert calls == init + [calls[|calls| - 1]];
    assert calls[|calls| - 1] in calls;
    lower := Highest(init, high);
  }

  /** The highest trim time, of any that is not above high. */
  function Highest(calls: seq<Call>, high: int): (r: int)
    requires forall c :: c in calls ==> TrimTime(c) <= high
    ensures r <= high && (calls != [] ==> IsHighest(calls, r))
  {
    if calls == [] then high
    else
      var last := calls[|calls| - 1];
      assert calls == calls[..|calls| - 1] + [last];
      var r := Highest(calls[..|calls| - 1], high);
      if |calls| == 1 || TrimTime(last) >= r then TrimTime(last) else r
  }

  lemma TrimDropsAPrefix(h: seq<Signal>, kept: seq<Signal>, more: seq<Signal>, before: int, cutoff: int, high: int,
                         max: nat)
    requires OnlyOldIsMissing(h, kept, before, max) && before <= high && cutoff <= high
    ensures OnlyOldIsMissing(h + more, Trimmed(kept + more, cutoff, max), high, max)
  {
    hide TimeOf, Trimmed;
    var k := |h| - |kept|;
    var g := h + more;
    assert kept + more == g[k..];
    TrimLeavesATail(g[k..], cutoff, max);
    var t := Trimmed(g[k..], cutoff, max);
    var m := |g| - |t|;
    forall i | 0 <= i < m ensures TimeOf(g[i]) < high || i < |g| - max {
      if i < k {
        assert g[i] == h[i];
      } else {
        assert g[i] == g[k..][i - k];
      }
    }
  }

  lemma TrimLeavesATail(signals: seq<Signal>, cutoff: int, max: nat)
    ensures var t := Trimmed(signals, cutoff, max);
            var m := |signals| - |t|;
            && 0 <= m <= |signals| && t == signals[m..] && |t| <= max
            && forall i :: 0 <= i < m ==> TimeOf(signals[i]) < cutoff || i < |signals| - max
  {
    hide TimeOf;
    var f := FirstWithin(signals, cutoff);
    LastOfTail(signals, f, max);
  }

  ghost predicate IsOlder(s: Signal, cutoff: int) {
    s.time.Some? && s.time.value < cutoff
  }

  /** What one trim leaves of all signals: they go from the front while they are older than the cutoff, and
      then as many more as it takes to leave max. */
  ghost predicate IsTrim(kept: seq<Signal>, all: seq<Signal>, cutoff: int, max: nat) {
    && |kept| <= |all| && |kept| <= max
    && var gone := |all| - |kept|;
       && kept == all[gone..]
       && (forall i :: 0 <= i < gone ==> IsOlder(all[i], cutoff) || gone == |all| - max)
       && (kept != [] && IsOlder(kept[0], cutoff) ==> exists i :: 0 <= i < gone && !IsOlder(all[i], cutoff))
  }

  lemma TrimmedIsTrim(all: seq<Signal>, cutoff: int, max: nat)
    requires forall i :: 0 <= i < |all| ==> all[i].time.Some?
    ensures IsTrim(Trimmed(all, cutoff, max), all, cutoff, max)
  {
    var first := FirstWithin(all, cutoff);
    LastOfTail(all, first, max);
    var kept := Trimmed(all, cutoff, max);
    if kept != [] && IsOlder(kept[0], cutoff) {
      assert !IsOlder(all[first], cutoff);
    }
  }

  class Window {
    const duration: int
    var signals: seq<Signal>
    ghost var calls: seq<Call>

    ghost predicate Valid()
      reads this
    {
      && duration > 0 && signals == Run(calls, duration, MAX_SIGNALS)
      && forall i :: 0 <= i < |signals| ==> signals[i].time.Some?
    }

    constructor (duration: int)
      ensures Valid() && calls == []
      ensures this.duration == if duration > 0 then duration else 180_000_000
    {
      this.duration := if duration <= 0 then DEFAULT_DURATION else duration;
      signals, calls := [], [];
    }

    method AddSignal(s: Signal, clock: int)
      requires Valid()
      modifies this
      ensures Valid() && calls == old(calls) + [Add(s, clock)]
      ensures var at := if s.time.Some? then s.time.value else clock;
              IsTrim(signals, old(signals) + [s.(time := Some(at))], at - duration, 4096)
    {
      hide Trimmed, IsTrim;
      var stamped := Stamped(s, clock);
      signals := signals + [stamped];
      Trim(TimeOf(stamped));
      calls := calls + [Add(s, clock)];
      assert calls[..|calls| - 1] == old(calls);
    }

    method TakeSnapshot(now: int) returns (out: seq<Signal>)
      requires Valid()
      modifies this
      ensures Valid() && calls == old(calls) + [Snapshot(now)] && out == signals
      ensures IsTrim(out, old(signals), now - duration, 4096)
    {
      hide Trimmed, IsTrim;
      Trim(now);
      assert old(signals) + [] == old(signals);
      calls := calls + [Snapshot(now)];
      assert calls[..|calls| - 1] == old(calls);
      out := signals;
    }

    method Trim(now: int)
      requires forall i :: 0 <= i < |signals| ==> signals[i].time.Some?
      modifies this`signals
      ensures signals == Trimmed(old(signals), now - duration, MAX_SIGNALS)
      ensures IsTrim(signals, old(signals), now - duration, MAX_SIGNALS)
      ensures forall i :: 0 <= i < |signals| ==> signals[i].time.Some?
    {
      hide FirstWithin, TimeOf, IsTrim;
      TrimmedIsTrim(signals, now - duration, MAX_SIGNALS);
      var cutoff := now - duration;
      var first := 0;
      while first < |signals| && TimeOf(signals[first]) < cutoff
        invariant 0 <= first <= |signals|
        invariant forall i :: 0 <= i < first ==> TimeOf(signals[i]) < cutoff
      {
        first := first + 1;
      }
      if first > 0 {
        signals := signals[first..];
      }
      if |signals| > MAX_SIGNALS {
        signals := signals[|signals| - MAX_SIGNALS..];
      }
    }
  }

  // ----- The view -----------------------------------------------------------------------------

  predicate Matches(s: Signal, codes: seq<int>) {
    s.kind == Event && s.code in codes
  }

  function WithCode(signals: seq<Signal>, code: int): seq<Signal> {
    if signals == [] then []
    else WithCode(signals[..|signals| - 1], code)
         + if Matches(signals[|signals| - 1], [code]) then [signals[|signals| - 1]] else []
  }

  lemma {:induction false} WithCodeHas(signals: seq<Signal>, code: int, s: Signal)
    ensures s in WithCode(signals, code) <==> s in signals && Matches(s, [code])
  {
    if signals != [] {
      var n := |signals| - 1;
      WithCodeHas(signals[..n], code, s);
      assert signals == signals[..n] + [signals[n]];
    }
  }

  /** NewView's index by event code. */
  method NewView(signals: seq<Signal>) returns (byEventCode: map<int, seq<Signal>>)
    ensures forall code :: Listed(byEventCode, code) == WithCode(signals, code)
  {
    byEventCode := map[];
    for i := 0 to |signals|
      invariant forall code :: Listed(byEventCode, code) == WithCode(signals[..i], code)
    {
      var s := signals[i];
      assert signals[..i + 1][..i] == signals[..i];
      if s.kind == Event {
        byEventCode := byEventCode[s.code := Listed(byEventCode, s.code) + [s]];
      }
    }
    assert signals[..|signals|] == signals;
  }

  function Listed(byEventCode: map<int, seq<Signal>>, code: int): seq<Signal> {
    if code in byEventCode then byEventCode[code] else []
  }

  lemma NothingIsOrdered()
    ensures Ordered([])
  {
  }

  lemma InsertionKeepsOrder(sorted: seq<Signal>, k: nat, s: Signal)
    requires Ordered(sorted) && k <= |sorted|
    requires k > 0 ==> TimeOf(sorted[k - 1]) <= TimeOf(s)
    requires forall j :: k <= j < |sorted| ==> TimeOf(sorted[j]) > TimeOf(s)
    ensures Ordered(sorted[..k] + [s] + sorted[k..])
  {
    hide TimeOf;
    var r := sorted[..k] + [s] + sorted[k..];
    forall i, j | 0 <= i <= j < |r|
      ensures TimeOf(r[i]) <= TimeOf(r[j])
    {
      var i', j' := if i < k then i else i - 1, if j < k then j else j - 1;
      assert i != k ==> r[i] == sorted[i'];
      assert j != k ==> r[j] == sorted[j'];
      assert i < k ==> TimeOf(sorted[i]) <= TimeOf(sorted[k - 1]);
    }
  }

  lemma InsertionAddsOne(list: seq<Signal>, k: nat, s: Signal)
    requires k <= |list|
    ensures multiset(list[..k] + [s] + list[k..]) == multiset(list) + multiset{s}
  {
    assert list == list[..k] + list[k..];
  }

  method Insert(sorted: seq<Signal>, s: Signal) returns (r: seq<Signal>)
    requires Ordered(sorted)
    ensures Ordered(r) && multiset(r) == multiset(sorted) + multiset{s}
  {
    hide Ordered, TimeOf;
    var k := |sorted|;
    while k > 0 && TimeOf(sorted[k - 1]) > TimeOf(s)
      invariant 0 <= k <= |sorted|
      invariant forall j :: k <= j < |sorted| ==> TimeOf(sorted[j]) > TimeOf(s)
    {
      k := k - 1;
    }
    InsertionKeepsOrder(sorted, k, s);
    InsertionAddsOne(sorted, k, s);
    r := sorted[..k] + [s] + sorted[k..];
  }

  /** Some order by time; equal times may come out in any order. */
  method SortByTime(list: seq<Signal>) returns (sorted: seq<Signal>)
    ensures Ordered(sorted) && multiset(sorted) == multiset(list)
  {
    hide Ordered, TimeOf;
    NothingIsOrdered();
    sorted := [];
    for i := 0 to |list|
      invariant Ordered(sorted) && multiset(sorted) == multiset(list[..i])
    {
      assert list[..i + 1] == list[..i] + [list[i]];
      sorted := Insert(sorted, list[i]);
    }
    assert list[..|list|] == list;
  }

  /** Every signal of any of the codes, oldest first; a repeated code repeats its signals. */
  method EventsWithCodes(signals: seq<Signal>, codes: seq<int>) returns (out: seq<Signal>)
    ensures Ordered(out)
    ensures forall i, j :: 0 <= i < j < |out| && out[i].time.Some? && out[j].time.Some? ==>
              out[i].time.value <= out[j].time.value
    ensures forall s :: s in out <==> s in signals && s.kind == Event && s.code in codes
  {
    var byEventCode := NewView(signals);
    var all: seq<Signal> := [];
    for i := 0 to |codes|
      invariant forall s :: s in all <==> s in signals && Matches(s, codes[..i])
    {
      all := all + Listed(byEventCode, codes[i]);
      assert codes[..i + 1] == codes[..i] + [codes[i]];
      forall s ensures s in WithCode(signals, codes[i]) <==> s in signals && Matches(s, [codes[i]]) {
        WithCodeHas(signals, codes[i], s);
      }
    }
    assert codes[..|codes|] == codes;
    out := SortByTime(all);
    forall s ensures s in out <==> s in all {
      assert s in multiset(out) <==> s in multiset(all);
    }
  }

  lemma MatchesSays(codes: seq<int>)
    ensures forall s: Signal :: s.kind == Event && s.code in codes <==> Matches(s, codes)
  {
  }

  /** The id is that of a signal no later than any matching signal of the other id. */
  ghost predicate Precedes(signals: seq<Signal>, codes: seq<int>, id: int, other: int) {
    exists s :: s in signals && Matches(s, codes) && s.eventID == id
             && forall t :: t in signals && Matches(t, codes) && t.eventID == other ==> TimeOf(s) <= TimeOf(t)
  }

  ghost predicate IsMatched(signals: seq<Signal>, codes: seq<int>, id: int) {
    exists s :: s in signals && Matches(s, codes) && s.eventID == id
  }

  lemma EarlierPrecedes(signals: seq<Signal>, codes: seq<int>, list: seq<Signal>, k: nat, i: nat)
    requires Ordered(list) && k < i < |list|
    requires forall s :: s in list <==> s in signals && Matches(s, codes)
    requires forall j :: 0 <= j < i ==> list[j].eventID != list[i].eventID
    ensures Precedes(signals, codes, list[k].eventID, list[i].eventID)
  {
    hide Matches, TimeOf;
    var id := list[i].eventID;
    assert list[k] in list;
    forall t | t in signals && Matches(t, codes) && t.eventID == id
      ensures TimeOf(list[k]) <= TimeOf(t)
    {
      var m :| 0 <= m < |list| && list[m] == t;
      assert m >= i;
    }
  }

  /** Each nonzero id of a matching event once, those seen earliest first, whatever the sort
      does with equal times and however often a code is asked for. */
  method EventIDs(signals: seq<Signal>, codes: seq<int>) returns (out: seq<int>)
    ensures forall i, j :: 0 <= i < j < |out| ==> out[i] != out[j]
    ensures forall id :: id in out <==>
              id != 0 && exists s :: s in signals && s.kind == Event && s.code in codes && s.eventID == id
    ensures forall i, j :: 0 <= i < j < |out| ==> Precedes(signals, codes, out[i], out[j])
  {
    hide Matches, TimeOf, Ordered, Precedes;
    var list := EventsWithCodes(signals, codes);
    MatchesSays(codes);
    out := [];
    var seen: set<int> := {};
    for i := 0 to |list|
      invariant forall j, k :: 0 <= j < k < |out| ==> out[j] != out[k]
      invariant forall id :: id in out <==> id in seen
      invariant forall id :: id in seen <==> id != 0 && exists j :: 0 <= j < i && list[j].eventID == id
      invariant forall j, k :: 0 <= j < k < |out| ==> Precedes(signals, codes, out[j], out[k])
    {
      var s := list[i];
      if s.eventID != 0 && s.eventID !in seen {
        forall j | 0 <= j < |out| ensures Precedes(signals, codes, out[j], s.eventID) {
          assert out[j] in out;
          var k :| 0 <= k < i && list[k].eventID == out[j];
          EarlierPrecedes(signals, codes, list, k, i);
        }
        seen := seen + {s.eventID};
        out := out + [s.eventID];
      }
    }
    forall id ensures (exists j :: 0 <= j < |list| && list[j].eventID == id) <==> IsMatched(signals, codes, id) {
      if j :| 0 <= j < |list| && list[j].eventID == id {
        assert list[j] in list;
      }
    }
  }
}
