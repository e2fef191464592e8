/** Retention and roll-up (internal/database/retention.go).

    Raw rows move into hourly aggregates and are then deleted. A row of a plain table is
    modelled by the timestamp its rule compares. What now.AddDate(0, 0, -days) is, in whatever
    calendar, is the parameter ago. */
module Retention {
  import opened Wrappers
  import O = Outages

  datatype Row = Row(ts: int, metric: string, target: string, value: real, ok: bool)
  datatype Key = Key(bucket: int, metric: string, target: string)
  datatype Agg = Agg(samples: nat, sum: real, sumsq: real, min: real, max: real)

  const HOUR_MICROS: int := 3_600_000_000

  /** SQLite's integer division truncates toward zero. */
  function HourOf(ts: int): int {
    if ts >= 0 then ts / HOUR_MICROS * HOUR_MICROS else -(-ts / HOUR_MICROS * HOUR_MICROS)
  }

  function KeyOf(row: Row): Key {
    Key(HourOf(row.ts), row.metric, row.target)
  }

  function Single(v: real): Agg {
    Agg(1, v, v * v, v, v)
  }

  function Least(x: real, y: real): real { if x <= y then x else y }

  function Greatest(x: real, y: real): real { if x >= y then x else y }

  /** Two aggregates merged: the ON CONFLICT clause. */
  function Merge(a: Agg, b: Agg): Agg {
    Agg(a.samples + b.samples, a.sum + b.sum, a.sumsq + b.sumsq, Least(a.min, b.min), Greatest(a.max, b.max))
  }

  function Combine(a: Option<Agg>, b: Option<Agg>): Option<Agg> {
    if a.None? then b else if b.None? then a else Some(Merge(a.value, b.value))
  }

  lemma CombineAssociative(a: Option<Agg>, b: Option<Agg>, c: Option<Agg>)
    ensures Combine(Combine(a, b), c) == Combine(a, Combine(b, c))
  {
  }

  lemma CombineCommutative(a: Option<Agg>, b: Option<Agg>)
    ensures Combine(a, b) == Combine(b, a) && Combine(a, None) == a
  {
  }

  /** The aggregate of a key's ok rows. */
  function Total(rows: seq<Row>, key: Key): Option<Agg> {
    if rows == [] then None
    else
      var row := rows[|rows| - 1];
      Combine(Total(rows[..|rows| - 1], key), if row.ok && KeyOf(row) == key then Some(Single(row.value)) else None)
  }

  function Before(rows: seq<Row>, cut: int): seq<Row> {
    Filter((row: Row) => row.ts < cut, rows)
  }

  function Since(rows: seq<Row>, cut: int): seq<Row> {
    Filter((row: Row) => row.ts >= cut, rows)
  }

  lemma TotalAppend(rows: seq<Row>, row: Row, key: Key)
    ensures Total(rows + [row], key)
         == Combine(Total(rows, key), if row.ok && KeyOf(row) == key then Some(Single(row.value)) else None)
  {
    assert (rows + [row])[..|rows|] == rows;
  }

  lemma {:induction false} TotalConcat(a: seq<Row>, b: seq<Row>, key: Key)
    ensures Total(a + b, key) == Combine(Total(a, key), Total(b, key))
  {
    hide Combine, KeyOf;
    if b == [] {
      assert a + b == a;
      CombineCommutative(Total(a, key), None);
    } else {
      var n := |b| - 1;
      var one := if b[n].ok && KeyOf(b[n]) == key then Some(Single(b[n].value)) else None;
      TotalConcat(a, b[..n], key);
      assert a + b == a + b[..n] + [b[n]];
      TotalAppend(a + b[..n], b[n], key);
      CombineAssociative(Total(a, key), Total(b[..n], key), one);
    }
  }

  /** A cutoff, even one inside an hour, splits every key's total in two parts that add up. */
  lemma {:induction false} TotalSplits(rows: seq<Row>, cut: int, key: Key)
    ensures Combine(Total(Before(rows, cut), key), Total(Since(rows, cut), key)) == Total(rows, key)
  {
    hide Combine;
    if rows == [] {
      CombineCommutative(None, None);
    } else {
      var n := |rows| - 1;
      var row := rows[n];
      TotalSplits(rows[..n], cut, key);
      var early := Total(Before(rows[..n], cut), key);
      var late := Total(Since(rows[..n], cut), key);
      var one := if row.ok && KeyOf(row) == key then Some(Single(row.value)) else None;
      assert Before(rows[..n], cut) + [] == Before(rows[..n], cut)
          && Since(rows[..n], cut) + [] == Since(rows[..n], cut);
      if row.ts < cut {
        TotalAppend(Before(rows[..n], cut), row, key);
        CombineAssociative(early, one, late);
        CombineCommutative(one, late);
        CombineAssociative(early, late, one);
      } else {
        TotalAppend(Since(rows[..n], cut), row, key);
        CombineAssociative(early, late, one);
      }
    }
  }

  // ----- What an aggregate is of --------------------------------------------------------------

  /** The hour at a bucket: [bucket, bucket + 1h) from 1970 on. Before, the division rounds up, and the
      bucket 0 gets two hours. */
  predicate InHour(bucket: int, ts: int) {
    && bucket % 3_600_000_000 == 0
    && (bucket >= 0 && 0 <= ts ==> bucket <= ts < bucket + 3_600_000_000)
    && (bucket <= 0 && ts < 0 ==> bucket - 3_600_000_000 < ts <= bucket)
    && (bucket > 0 ==> 0 <= ts) && (bucket < 0 ==> ts < 0)
  }

  lemma HourIff(bucket: int, ts: int)
    ensures HourOf(ts) == bucket <==> InHour(bucket, ts)
  {
    var n := if ts >= 0 then ts / HOUR_MICROS else -ts / HOUR_MICROS;
    assert HourOf(ts) == (if ts >= 0 then n else -n) * HOUR_MICROS;
    if InHour(bucket, ts) {
      assert bucket == bucket / HOUR_MICROS * HOUR_MICROS;
    }
  }

  /** The values of the ok rows with the key's metric and target in its hour. */
  function ValuesOf(rows: seq<Row>, key: Key): seq<real> {
    if rows == [] then []
    else
      var row := rows[|rows| - 1];
      ValuesOf(rows[..|rows| - 1], key)
      + if row.ok && row.metric == key.metric && row.target == key.target && InHour(key.bucket, row.ts)
        then [row.value] else []
  }

  function Sum(vs: seq<real>): real {
    if vs == [] then 0.0 else Sum(vs[..|vs| - 1]) + vs[|vs| - 1]
  }

  function SumOfSquares(vs: seq<real>): real {
    if vs == [] then 0.0 else SumOfSquares(vs[..|vs| - 1]) + vs[|vs| - 1] * vs[|vs| - 1]
  }

  /** The aggregate of some values, and there is none exactly when there are no values. */
  ghost predicate IsOver(part: Option<Agg>, vs: seq<real>) {
    match part
    case None => vs == []
    case Some(agg) =>
      && agg.samples == |vs| > 0
      && agg.sum == Sum(vs) && agg.sumsq == SumOfSquares(vs)
      && agg.min in vs && (forall v :: v in vs ==> agg.min <= v)
      && agg.max in vs && (forall v :: v in vs ==> v <= agg.max)
  }

  lemma {:induction false} SumsConcat(xs: seq<real>, ys: seq<real>)
    ensures Sum(xs + ys) == Sum(xs) + Sum(ys) && SumOfSquares(xs + ys) == SumOfSquares(xs) + SumOfSquares(ys)
  {
    if ys == [] {
      assert xs + ys == xs;
    } else {
      var n := |ys| - 1;
      SumsConcat(xs, ys[..n]);
      assert (xs + ys)[..|xs| + n] == xs + ys[..n];
    }
  }

  /** Merging aggregates is aggregating all the values. */
  lemma CombinedIsOver(a: Option<Agg>, b: Option<Agg>, xs: seq<real>, ys: seq<real>)
    requires IsOver(a, xs) && IsOver(b, ys)
    ensures IsOver(Combine(a, b), xs + ys)
  {
    hide Sum, SumOfSquares;
    SumsConcat(xs, ys);
    if a.None? || b.None? {
      assert xs + ys == if a.None? then ys else xs;
    } else {
      assert forall v :: v in xs + ys <==> v in xs || v in ys;
    }
  }

  lemma {:induction false} TotalIsOver(rows: seq<Row>, key: Key)
    ensures IsOver(Total(rows, key), ValuesOf(rows, key))
  {
    hide HourOf, InHour, Combine;
    if rows != [] {
      var n := |rows| - 1;
      var row := rows[n];
      TotalIsOver(rows[..n], key);
      HourIff(key.bucket, row.ts);
      if row.ok && KeyOf(row) == key {
        SumsConcat([], [row.value]);
        CombinedIsOver(Total(rows[..n], key), Some(Single(row.value)), ValuesOf(rows[..n], key), [row.value]);
      } else {
        CombinedIsOver(Total(rows[..n], key), None, ValuesOf(rows[..n], key), []);
      }
    }
  }

  lemma {:induction false} ValuesConcat(a: seq<Row>, b: seq<Row>, key: Key)
    ensures ValuesOf(a + b, key) == ValuesOf(a, key) + ValuesOf(b, key)
  {
    hide InHour;
    if b == [] {
      assert a + b == a;
    } else {
      var n := |b| - 1;
      ValuesConcat(a, b[..n], key);
      assert (a + b)[..|a| + n] == a + b[..n];
    }
  }

  lemma SplitAppend(rows: seq<Row>, row: Row, cut: int)
    ensures Before(rows + [row], cut) == if row.ts < cut then Before(rows, cut) + [row] else Before(rows, cut)
    ensures Since(rows + [row], cut) == if row.ts < cut then Since(rows, cut) else Since(rows, cut) + [row]
  {
    FilterAppend((r: Row) => r.ts < cut, rows, row);
    FilterAppend((r: Row) => r.ts >= cut, rows, row);
  }

  lemma NothingToSplit(cut: int, key: Key)
    ensures Before([], cut) == [] == Since([], cut) && ValuesOf([], key) == []
  {
  }

  lemma OneMoreSplit(rows: seq<Row>, row: Row, cut: int, key: Key)
    requires multiset(ValuesOf(Before(rows, cut), key)) + multiset(ValuesOf(Since(rows, cut), key))
          == multiset(ValuesOf(rows, key))
    ensures multiset(ValuesOf(Before(rows + [row], cut), key)) + multiset(ValuesOf(Since(rows + [row], cut), key))
         == multiset(ValuesOf(rows + [row], key))
  {
    hide ValuesOf, Before, Since;
    SplitAppend(rows, row, cut);
    ValuesConcat(rows, [row], key);
    ValuesConcat(if row.ts < cut then Before(rows, cut) else Since(rows, cut), [row], key);
  }

  lemma {:induction false} ValuesSplit(rows: seq<Row>, cut: int, key: Key)
    ensures multiset(ValuesOf(Before(rows, cut), key)) + multiset(ValuesOf(Since(rows, cut), key))
         == multiset(ValuesOf(rows, key))
  {
    hide ValuesOf, Before, Since;
    if rows == [] {
      NothingToSplit(cut, key);
    } else {
      ValuesSplit(rows[..|rows| - 1], cut, key);
      OneMoreSplit(rows[..|rows| - 1], rows[|rows| - 1], cut, key);
      assert rows == rows[..|rows| - 1] + [rows[|rows| - 1]];
    }
  }

  // ----- The tables -----------------------------------------------------------------------

  datatype Table = Events | Measurements | SpeedTests | InterfaceSamples | WifiSamples | DestinationSamples
    | Connections | Destinations | RoutePaths | ThreatMatches | PublicIPHistory | MeasurementHourly | ConfigMeta
    | Outages

  datatype Store = Store(
    raw: seq<Row>,
    hourly: map<Key, Agg>,
    plain: map<Table, seq<int>>,
    outages: O.Table)

  datatype Config = Config(
    downsample: bool,
    eventsDays: int, measurementsDays: int, speedTestsDays: int, trafficDays: int, connectionsDays: int,
    destinationsDays: int, outagesDays: int, aggregatesDays: int)

  datatype Rule = Rule(table: Table, days: int)

  function Rules(cfg: Config): seq<Rule> {
    [Rule(Events, cfg.eventsDays),
     Rule(Measurements, cfg.measurementsDays),
     Rule(SpeedTests, cfg.speedTestsDays),
     Rule(InterfaceSamples, cfg.trafficDays),
     Rule(WifiSamples, cfg.trafficDays),
     Rule(DestinationSamples, cfg.trafficDays),
     Rule(Connections, cfg.connectionsDays),
     Rule(Destinations, cfg.destinationsDays),
     Rule(RoutePaths, cfg.measurementsDays),
     Rule(ThreatMatches, cfg.eventsDays),
     Rule(PublicIPHistory, cfg.outagesDays),
     Rule(MeasurementHourly, cfg.aggregatesDays),
     Rule(ConfigMeta, cfg.eventsDays)]
  }

  function At(hourly: map<Key, Agg>, key: Key): Option<Agg> {
    if key in hourly then Some(hourly[key]) else None
  }

  /** The keys of the ok rows. */
  function Groups(rows: seq<Row>): set<Key> {
    set row | row in rows && row.ok :: KeyOf(row)
  }

  lemma {:induction false} GroupsHaveTotals(rows: seq<Row>, key: Key)
    ensures key in Groups(rows) <==> Total(rows, key).Some?
  {
    if rows != [] {
      var n := |rows| - 1;
      GroupsHaveTotals(rows[..n], key);
      assert rows == rows[..n] + [rows[n]];
    }
  }

  /** The hourly table holds, for every key, what it held and the rows' total. */
  ghost predicate RolledUp(was: map<Key, Agg>, rows: seq<Row>, hourly: map<Key, Agg>) {
    forall key :: At(hourly, key) == Combine(At(was, key), Total(rows, key))
  }

  function After(times: seq<int>, cut: int): seq<int> {
    Filter(t => t >= cut, times)
  }

  function Times(plain: map<Table, seq<int>>, table: Table): seq<int> {
    if table in plain then plain[table] else []
  }

  function RecentHours(hourly: map<Key, Agg>, cut: int): map<Key, Agg> {
    map key | key in hourly && key.bucket >= cut :: hourly[key]
  }

  /** A table after the rows before its cutoff are deleted. */
  function Deleted(s: Store, table: Table, cut: int): Store {
    match table
    case Measurements => s.(raw := Since(s.raw, cut))
    case MeasurementHourly => s.(hourly := RecentHours(s.hourly, cut))
    case Outages => s.(outages := O.Expired(s.outages, cut))
    case _ => s.(plain := s.plain[table := After(Times(s.plain, table), cut)])
  }

  /** The rows of one table are those that are not before the cutoff; of the outages, unresolved ones stay. */
  ghost predicate IsCut(s: Store, t: Store, table: Table, cut: int) {
    match table
    case Measurements => IsKept(s.raw, t.raw, (row: Row) => row.ts >= cut)
    case MeasurementHourly =>
      && (forall key :: key in t.hourly <==> key in s.hourly && key.bucket >= cut)
      && forall key :: key in t.hourly ==> t.hourly[key] == s.hourly[key]
    case Outages =>
      && t.outages == s.outages.(rows := t.outages.rows)
      && (forall id :: id in t.outages.rows
                  <==> id in s.outages.rows && (s.outages.rows[id].start >= cut || !s.outages.rows[id].resolved))
      && forall id :: id in t.outages.rows ==> t.outages.rows[id] == s.outages.rows[id]
    case _ =>
      IsKept(if table in s.plain then s.plain[table] else [], if table in t.plain then t.plain[table] else [],
             ts => ts >= cut)
  }

  /** The rows of one table before the cutoff are gone, and nothing else. */
  ghost predicate IsDeleted(s: Store, t: Store, table: Table, cut: int) {
    && IsCut(s, t, table, cut)
    && (table != Measurements ==> t.raw == s.raw)
    && (table != MeasurementHourly ==> t.hourly == s.hourly)
    && (table != Outages ==> t.outages == s.outages)
    && forall other :: other in s.plain && other != table ==> other in t.plain && t.plain[other] == s.plain[other]
  }

  lemma DeletesTheOld(s: Store, table: Table, cut: int)
    ensures IsDeleted(s, Deleted(s, table, cut), table, cut)
  {
    hide Filter, IsKept;
    FilterKeeps((row: Row) => row.ts >= cut, s.raw);
    FilterKeeps(ts => ts >= cut, Times(s.plain, table));
  }

  function RowsIn(s: Store, table: Table): nat {
    match table
    case Measurements => |s.raw|
    case MeasurementHourly => |s.hourly|
    case Outages => |s.outages.rows|
    case _ => |Times(s.plain, table)|
  }

  /** The first n rules, applied in order. */
  function Swept(s: Store, rules: seq<Rule>, ago: int -> int): Store {
    if rules == [] then s
    else
      var rule := rules[|rules| - 1];
      var before := Swept(s, rules[..|rules| - 1], ago);
      if rule.days <= 0 then before else Deleted(before, rule.table, ago(rule.days))
  }

  /** All statements of one run in order, the outages last. */
  function Statements(cfg: Config): seq<Rule> {
    Rules(cfg) + [Rule(Outages, cfg.outagesDays)]
  }

  lemma {:induction false} SweptAppend(s: Store, rules: seq<Rule>, rule: Rule, ago: int -> int)
    ensures Swept(s, rules + [rule], ago)
         == (var before := Swept(s, rules, ago);
             if rule.days <= 0 then before else Deleted(before, rule.table, ago(rule.days)))
  {
    assert (rules + [rule])[..|rules|] == rules;
  }

  predicate OneRulePerTable(rules: seq<Rule>) {
    forall i, j :: 0 <= i < j < |rules| ==> rules[i].table != rules[j].table
  }

  /** The cutoff that the rules apply to a table, if any does. */
  function CutFor(rules: seq<Rule>, table: Table, ago: int -> int): Option<int> {
    if rules == [] then None
    else
      var rule := rules[|rules| - 1];
      if rule.table == table && rule.days > 0 then Some(ago(rule.days)) else CutFor(rules[..|rules| - 1], table, ago)
  }

  function Cut(s: Store, table: Table, cutoff: Option<int>): Store {
    match cutoff
    case None => s
    case Some(cut) => Deleted(s, table, cut)
  }

  lemma {:induction false} NoRuleNoCut(rules: seq<Rule>, table: Table, ago: int -> int)
    requires forall i :: 0 <= i < |rules| ==> rules[i].table != table
    ensures CutFor(rules, table, ago) == None
  {
    if rules != [] {
      NoRuleNoCut(rules[..|rules| - 1], table, ago);
    }
  }

  /** Every table is cut once, at its own rule's cutoff, or left alone. */
  lemma {:induction false} EachTableIsCutOnce(s: Store, rules: seq<Rule>, ago: int -> int, table: Table)
    requires OneRulePerTable(rules)
    ensures Same(Swept(s, rules, ago), Cut(s, table, CutFor(rules, table, ago)), table)
  {
    hide Same, Deleted;
    SameStore(s, table);
    if rules != [] {
      var n := |rules| - 1;
      var rule := rules[n];
      var before := Swept(s, rules[..n], ago);
      EachTableIsCutOnce(s, rules[..n], ago, table);
      if rule.days > 0 {
        if rule.table == table {
          NoRuleNoCut(rules[..n], table, ago);
          DeletingAgrees(before, s, table, ago(rule.days));
        } else {
          DeletingElsewhere(before, rule.table, ago(rule.days), table);
          SameIsTransitive(Deleted(before, rule.table, ago(rule.days)), before,
                           Cut(s, table, CutFor(rules[..n], table, ago)), table);
        }
      }
    }
  }

  lemma SameStore(s: Store, table: Table)
    ensures Same(s, s, table)
  {
  }

  lemma SameIsTransitive(s: Store, t: Store, u: Store, table: Table)
    requires Same(s, t, table) && Same(t, u, table)
    ensures Same(s, u, table)
  {
  }

  lemma DeletingElsewhere(s: Store, table: Table, cut: int, other: Table)
    requires table != other
    ensures Same(Deleted(s, table, cut), s, other)
  {
  }

  lemma DeletingAgrees(s: Store, t: Store, table: Table, cut: int)
    requires Same(s, t, table)
    ensures Same(Deleted(s, table, cut), Deleted(t, table, cut), table)
  {
  }

  /** Two stores agree on one table. */
  predicate Same(s: Store, t: Store, table: Table) {
    match table
    case Measurements => s.raw == t.raw
    case MeasurementHourly => s.hourly == t.hourly
    case Outages => s.outages == t.outages
    case _ => Times(s.plain, table) == Times(t.plain, table)
  }

  lemma {:induction false} CutByOwnRule(rules: seq<Rule>, i: nat, ago: int -> int)
    requires OneRulePerTable(rules) && i < |rules|
    ensures CutFor(rules, rules[i].table, ago) == if rules[i].days > 0 then Some(ago(rules[i].days)) else None
  {
    var n := |rules| - 1;
    if i < n {
      CutByOwnRule(rules[..n], i, ago);
    } else {
      NoRuleNoCut(rules[..n], rules[i].table, ago);
    }
  }

  /** How many days the configuration keeps a table's rows. */
  function DaysFor(cfg: Config, table: Table): int {
    match table
    case Events | ThreatMatches | ConfigMeta => cfg.eventsDays
    case Measurements | RoutePaths => cfg.measurementsDays
    case InterfaceSamples | WifiSamples | DestinationSamples => cfg.trafficDays
    case SpeedTests => cfg.speedTestsDays
    case Connections => cfg.connectionsDays
    case Destinations => cfg.destinationsDays
    case MeasurementHourly => cfg.aggregatesDays
    case PublicIPHistory | Outages => cfg.outagesDays
  }

  lemma CutFollowsDays(cfg: Config, table: Table, ago: int -> int)
    ensures CutFor(Statements(cfg), table, ago)
         == if DaysFor(cfg, table) > 0 then Some(ago(DaysFor(cfg, table))) else None
  {
    hide CutFor;
    StatementsInOrder(cfg);
    var i := match table
      case Events => 0 case Measurements => 1 case SpeedTests => 2 case InterfaceSamples => 3
      case WifiSamples => 4 case DestinationSamples => 5 case Connections => 6 case Destinations => 7
      case RoutePaths => 8 case ThreatMatches => 9 case PublicIPHistory => 10 case MeasurementHourly => 11
      case ConfigMeta => 12 case Outages => 13;
    assert Statements(cfg)[i] == Rule(table, DaysFor(cfg, table));
    CutByOwnRule(Statements(cfg), i, ago);
  }

  // ----- Conservation ---------------------------------------------------------------------

  function Grown(was: map<Key, Agg>, rows: seq<Row>, key: Key): Agg
    requires key in was.Keys + Groups(rows)
  {
    GroupsHaveTotals(rows, key);
    Combine(At(was, key), Total(rows, key)).value
  }

  /** INSERT … SELECT … GROUP BY … ON CONFLICT: the only table that RolledUp allows. */
  function RollUp(was: map<Key, Agg>, rows: seq<Row>): (hourly: map<Key, Agg>)
    ensures RolledUp(was, rows, hourly)
  {
    var hourly := map key | key in was.Keys + Groups(rows) :: Grown(was, rows, key);
    assert RolledUp(was, rows, hourly) by {
      forall key ensures At(hourly, key) == Combine(At(was, key), Total(rows, key)) {
        GroupsHaveTotals(rows, key);
      }
    }
    hourly
  }

  lemma RolledUpIsUnique(was: map<Key, Agg>, rows: seq<Row>, hourly: map<Key, Agg>, other: map<Key, Agg>)
    requires RolledUp(was, rows, hourly) && RolledUp(was, rows, other)
    ensures hourly == other
  {
    hide Combine, Total;
    forall key
      ensures key in hourly <==> key in other
      ensures key in hourly && key in other ==> hourly[key] == other[key]
    {
      assert At(hourly, key) == At(other, key);
    }
  }

  /** The index of the roll-up statement, which comes before the others. */
  const ROLL_UP: int := -1

  /** The run rolls up, and that statement does not fail. */
  predicate RollsUp(cfg: Config, fails: int) {
    cfg.downsample && fails != ROLL_UP
  }

  function Downsampled(s: Store, cfg: Config, ago: int -> int, fails: int): Store {
    if RollsUp(cfg, fails)
    then s.(hourly := RollUp(s.hourly, Before(s.raw, ago(cfg.measurementsDays))))
    else s
  }

  /** How many statements after the roll-up ran, if the one at index fails does; one that is switched
      off cannot fail. */
  function Reached(cfg: Config, fails: int): (n: nat)
    ensures n <= |Statements(cfg)|
  {
    if cfg.downsample && fails == ROLL_UP then 0
    else if 0 <= fails < |Statements(cfg)| && Statements(cfg)[fails].days > 0 then fails
    else |Statements(cfg)|
  }

  function Pruned(s: Store, cfg: Config, ago: int -> int, fails: int): Store {
    Swept(Downsampled(s, cfg, ago, fails), Statements(cfg)[..Reached(cfg, fails)], ago)
  }

  /** What hourly table and raw rows hold of a key together. */
  function Balance(s: Store, key: Key): Option<Agg> {
    Combine(At(s.hourly, key), Total(s.raw, key))
  }

  predicate RawIsCut(cfg: Config, fails: int) {
    cfg.measurementsDays > 0 && Reached(cfg, fails) > 1
  }

  predicate HourlyIsCut(cfg: Config, fails: int) {
    cfg.aggregatesDays > 0 && Reached(cfg, fails) > 11
  }

  /** This run does not delete the key's hourly row by age. */
  predicate Alive(cfg: Config, ago: int -> int, fails: int, key: Key) {
    HourlyIsCut(cfg, fails) ==> key.bucket >= ago(cfg.aggregatesDays)
  }

  lemma StatementsInOrder(cfg: Config)
    ensures |Statements(cfg)| == 14 && OneRulePerTable(Statements(cfg))
    ensures Statements(cfg)[..13] == Rules(cfg) && Statements(cfg)[13] == Rule(Outages, cfg.outagesDays)
    ensures Statements(cfg)[1] == Rule(Measurements, cfg.measurementsDays)
    ensures Statements(cfg)[11] == Rule(MeasurementHourly, cfg.aggregatesDays)
  {
  }

  /** What one run does to the two measurement tables. */
  lemma PrunedTables(s: Store, cfg: Config, ago: int -> int, fails: int)
    ensures var mid := Downsampled(s, cfg, ago, fails);
            && Pruned(s, cfg, ago, fails).raw
                  == (if RawIsCut(cfg, fails) then Since(s.raw, ago(cfg.measurementsDays)) else s.raw)
            && Pruned(s, cfg, ago, fails).hourly
               == (if HourlyIsCut(cfg, fails) then RecentHours(mid.hourly, ago(cfg.aggregatesDays)) else mid.hourly)
  {
    hide Since, RecentHours, Swept, RollUp, CutFor, Reached, Statements;
    StatementsInOrder(cfg);
    var n := Reached(cfg, fails);
    var rules := Statements(cfg)[..n];
    EachTableIsCutOnce(Downsampled(s, cfg, ago, fails), rules, ago, Measurements);
    EachTableIsCutOnce(Downsampled(s, cfg, ago, fails), rules, ago, MeasurementHourly);
    if n > 1 {
      CutByOwnRule(rules, 1, ago);
    } else {
      NoRuleNoCut(rules, Measurements, ago);
    }
    if n > 11 {
      CutByOwnRule(rules, 11, ago);
    } else {
      NoRuleNoCut(rules, MeasurementHourly, ago);
    }
  }

  /** A run that no statement stops leaves every table without its rows before that table's own cutoff, or
      as it was where the days are not positive. */
  lemma CompleteRunCutsEveryTable(s: Store, cfg: Config, ago: int -> int, fails: int, table: Table)
    requires Reached(cfg, fails) == |Statements(cfg)|
    ensures DaysFor(cfg, table) > 0 ==>
              IsCut(Downsampled(s, cfg, ago, fails), Pruned(s, cfg, ago, fails), table, ago(DaysFor(cfg, table)))
    ensures DaysFor(cfg, table) <= 0 ==> Same(Pruned(s, cfg, ago, fails), Downsampled(s, cfg, ago, fails), table)
  {
    hide Swept, Deleted, Reached, Statements, Downsampled, CutFor;
    var mid := Downsampled(s, cfg, ago, fails);
    StatementsInOrder(cfg);
    assert Statements(cfg)[..|Statements(cfg)|] == Statements(cfg);
    EachTableIsCutOnce(mid, Statements(cfg), ago, table);
    CutFollowsDays(cfg, table, ago);
    DeletesTheOld(mid, table, ago(DaysFor(cfg, table)));
  }

  function Samples(part: Option<Agg>): nat {
    if part.None? then 0 else part.value.samples
  }

  lemma {:induction false} TotalsHaveSamples(rows: seq<Row>, key: Key)
    ensures Samples(Total(rows, key)) == 0 <==> Total(rows, key) == None
  {
    if rows != [] {
      TotalsHaveSamples(rows[..|rows| - 1], key);
    }
  }

  /** The run rolls rows up exactly when it deletes them. */
  predicate Matched(cfg: Config, fails: int) {
    RollsUp(cfg, fails) <==> RawIsCut(cfg, fails)
  }

  /** A run keeps what the database holds of a key exactly when it both rolls up and deletes, or
      neither, or the key has no ok row before the cutoff. Rolling up alone counts twice
      (measurementsDays <= 0, or a statement in between fails); deleting alone loses. */
  lemma BalanceIsKeptIff(s: Store, cfg: Config, ago: int -> int, fails: int, key: Key)
    requires Alive(cfg, ago, fails, key)
    ensures Balance(Pruned(s, cfg, ago, fails), key) == Balance(s, key)
       <==> Matched(cfg, fails) || Total(Before(s.raw, ago(cfg.measurementsDays)), key) == None
  {
    hide Total, Before, Since, Pruned, Reached, RollUp;
    PrunedTables(s, cfg, ago, fails);
    var cut := ago(cfg.measurementsDays);
    var early, late := Total(Before(s.raw, cut), key), Total(Since(s.raw, cut), key);
    var hour := At(s.hourly, key);
    TotalSplits(s.raw, cut, key);
    TotalsHaveSamples(Before(s.raw, cut), key);
    CombineAssociative(hour, early, late);
    assert At(Pruned(s, cfg, ago, fails).hourly, key) == if RollsUp(cfg, fails) then Combine(hour, early) else hour;
  }

  lemma RollUpAlone(was: map<Key, Agg>, rows: seq<Row>, key: Key)
    ensures At(RollUp(RollUp(was, rows), rows), key) == At(RollUp(was, rows), key) <==> Total(rows, key) == None
  {
    TotalsHaveSamples(rows, key);
  }

  // ----- Runs -----------------------------------------------------------------------------

  datatype Event =
    | Insert(rows: seq<Row>)
    | Prune(cfg: Config, ago: int -> int, fails: int)

  datatype History = History(store: Store, inserted: seq<Row>)

  const EMPTY := History(Store([], map[], map[], O.Table(map[], 1)), [])

  function Run(events: seq<Event>): History {
    if events == [] then EMPTY
    else
      var h := Run(events[..|events| - 1]);
      match events[|events| - 1]
      case Insert(rows) => History(h.store.(raw := h.store.raw + rows), h.inserted + rows)
      case Prune(cfg, ago, fails) => h.(store := Pruned(h.store, cfg, ago, fails))
  }

  /** The hourly row is over exactly those of the values that the raw rows no longer hold. */
  ghost predicate Holds(s: Store, key: Key, vs: seq<real>) {
    exists xs :: IsOver(At(s.hourly, key), xs) && multiset(xs) + multiset(ValuesOf(s.raw, key)) == multiset(vs)
  }

  lemma PruneKeepsValues(s: Store, cfg: Config, ago: int -> int, fails: int, key: Key, vs: seq<real>)
    requires Alive(cfg, ago, fails, key) && Matched(cfg, fails) && Holds(s, key, vs)
    ensures Holds(Pruned(s, cfg, ago, fails), key, vs)
  {
    hide Total, Before, Since, Pruned, Reached, RollUp, IsOver, Combine, ValuesOf;
    PrunedTables(s, cfg, ago, fails);
    var xs :| IsOver(At(s.hourly, key), xs) && multiset(xs) + multiset(ValuesOf(s.raw, key)) == multiset(vs);
    var t := Pruned(s, cfg, ago, fails);
    if RollsUp(cfg, fails) {
      var early := Before(s.raw, ago(cfg.measurementsDays));
      TotalIsOver(early, key);
      CombinedIsOver(At(s.hourly, key), Total(early, key), xs, ValuesOf(early, key));
      ValuesSplit(s.raw, ago(cfg.measurementsDays), key);
      assert IsOver(At(t.hourly, key), xs + ValuesOf(early, key));
    } else {
      assert IsOver(At(t.hourly, key), xs);
    }
  }

  lemma InsertKeepsValues(s: Store, rows: seq<Row>, key: Key, vs: seq<real>)
    requires Holds(s, key, vs)
    ensures Holds(s.(raw := s.raw + rows), key, vs + ValuesOf(rows, key))
  {
    hide IsOver, ValuesOf;
    var xs :| IsOver(At(s.hourly, key), xs) && multiset(xs) + multiset(ValuesOf(s.raw, key)) == multiset(vs);
    ValuesConcat(s.raw, rows, key);
    assert IsOver(At(s.(raw := s.raw + rows).hourly, key), xs);
  }

  /** No sample of a key is lost or counted twice, whatever is inserted when, and wherever the
      cutoffs fall: hourly row and raw rows together are the aggregate of all ever inserted. */
  lemma {:induction false} SamplesAreConserved(events: seq<Event>, key: Key)
    requires forall e :: e in events && e.Prune? ==> Matched(e.cfg, e.fails) && Alive(e.cfg, e.ago, e.fails, key)
    ensures Balance(Run(events).store, key) == Total(Run(events).inserted, key)
    ensures Holds(Run(events).store, key, ValuesOf(Run(events).inserted, key))
  {
    hide Total, Pruned, Matched, Alive, Holds, ValuesOf;
    if events == [] {
      EmptyHolds(key);
    } else {
      var n := |events| - 1;
      SamplesAreConserved(events[..n], key);
      var h := Run(events[..n]);
      match events[n]
      case Insert(rows) =>
        TotalConcat(h.store.raw, rows, key);
        TotalConcat(h.inserted, rows, key);
        CombineAssociative(At(h.store.hourly, key), Total(h.store.raw, key), Total(rows, key));
        InsertKeepsValues(h.store, rows, key, ValuesOf(h.inserted, key));
        ValuesConcat(h.inserted, rows, key);
      case Prune(cfg, ago, fails) =>
        assert events[n] in events;
        BalanceIsKeptIff(h.store, cfg, ago, fails, key);
        PruneKeepsValues(h.store, cfg, ago, fails, key, ValuesOf(h.inserted, key));
    }
  }

  lemma EmptyHolds(key: Key)
    ensures Holds(EMPTY.store, key, ValuesOf(EMPTY.inserted, key))
  {
    assert IsOver(At(EMPTY.store.hourly, key), []);
  }

  lemma NothingBefore(cut: int)
    ensures Before([], cut) == [] && forall key :: Total([], key) == None
  {
  }

  // ----- The database ----------------------------------------------------------------------

  /** RowsAffected of each table's delete. */
  datatype PruneResult = PruneResult(rowsDeleted: int, rowsRolledUp: int, byTable: map<Table, int>)

  function Affected(byTable: map<Table, int>, table: Table): int {
    if table in byTable then byTable[table] else 0
  }

  function AllRows(s: Store): int {
    RowsIn(s, Events) + RowsIn(s, Measurements) + RowsIn(s, SpeedTests) + RowsIn(s, InterfaceSamples)
    + RowsIn(s, WifiSamples) + RowsIn(s, DestinationSamples) + RowsIn(s, Connections) + RowsIn(s, Destinations)
    + RowsIn(s, RoutePaths) + RowsIn(s, ThreatMatches) + RowsIn(s, PublicIPHistory) + RowsIn(s, MeasurementHourly)
    + RowsIn(s, ConfigMeta) + RowsIn(s, Outages)
  }

  lemma DeletingCountsElsewhere(s: Store, table: Table, cut: int, other: Table)
    requires other != table
    ensures RowsIn(Deleted(s, table, cut), other) == RowsIn(s, other)
  {
    hide Since, RecentHours, After;
  }

  lemma DeletingCounts(s: Store, table: Table, cut: int)
    ensures AllRows(s) - AllRows(Deleted(s, table, cut)) == RowsIn(s, table) - RowsIn(Deleted(s, table, cut), table)
    ensures forall other :: other != table ==> RowsIn(Deleted(s, table, cut), other) == RowsIn(s, other)
  {
    hide RowsIn, Deleted;
    forall other | other != table ensures RowsIn(Deleted(s, table, cut), other) == RowsIn(s, other) {
      DeletingCountsElsewhere(s, table, cut, other);
    }
  }

  /** What a run reports is what disappeared, in all and table by table. */
  ghost predicate Accounted(res: PruneResult, s: Store, t: Store) {
    && res.rowsDeleted == AllRows(s) - AllRows(t)
    && forall table :: Affected(res.byTable, table) == RowsIn(s, table) - RowsIn(t, table)
  }

  class Database {
    var raw: seq<Row>
    var hourly: map<Key, Agg>
    var plain: map<Table, seq<int>>
    var outages: O.Table
    ghost var events: seq<Event>

    ghost function View(): Store
      reads this
    {
      Store(raw, hourly, plain, outages)
    }

    /** The tables are what the inserts and retention runs so far have made of them. */
    ghost predicate Valid()
      reads this
    {
      View() == Run(events).store
    }

    constructor ()
      ensures Valid() && events == []
    {
      raw, hourly, plain, outages, events := [], map[], map[], O.Table(map[], 1), [];
    }

    method InsertMeasurements(rows: seq<Row>)
      requires Valid()
      modifies this
      ensures Valid() && events == old(events) + [Insert(rows)]
    {
      raw := raw + rows;
      events := events + [Insert(rows)];
      assert events[..|events| - 1] == old(events);
    }

    /** GROUP BY: one aggregate for each key of the ok rows before the cutoff. */
    method GroupBy(cut: int) returns (groups: map<Key, Agg>)
      ensures forall key :: At(groups, key) == Total(Before(raw, cut), key)
      ensures forall key :: IsOver(At(groups, key), ValuesOf(Before(raw, cut), key))
    {
      hide Total, Before, IsOver, ValuesOf;
      NothingBefore(cut);
      groups := map[];
      for i := 0 to |raw|
        invariant forall key :: At(groups, key) == Total(Before(raw[..i], cut), key)
      {
        var row := raw[i];
        assert raw[..i + 1] == raw[..i] + [row];
        SplitAppend(raw[..i], row, cut);
        if row.ts < cut && row.ok {
          groups := groups[KeyOf(row) := match At(groups, KeyOf(row))
                                         case None => Single(row.value)
                                         case Some(agg) => Merge(agg, Single(row.value))];
        }
        forall key ensures At(groups, key) == Total(Before(raw[..i + 1], cut), key) {
          if row.ts < cut {
            TotalAppend(Before(raw[..i], cut), row, key);
          }
        }
      }
      assert raw[..|raw|] == raw;
      forall key ensures IsOver(At(groups, key), ValuesOf(Before(raw, cut), key)) {
        TotalIsOver(Before(raw, cut), key);
      }
    }

    /** Every hourly row then is over the values it was over and those of the old rows, as many times as
        this is done. */
    method Downsample(cut: int) returns (n: nat)
      modifies this`hourly
      ensures hourly == RollUp(old(hourly), Before(raw, cut))
      ensures forall key, xs :: IsOver(At(old(hourly), key), xs)
                            ==> IsOver(At(hourly, key), xs + ValuesOf(Before(raw, cut), key))
      ensures n == |Groups(Before(raw, cut))|
    {
      hide Total, Before, Combine, IsOver, ValuesOf;
      var groups := GroupBy(cut);
      ghost var rows := Before(raw, cut);
      forall key ensures key in groups <==> key in Groups(rows) {
        GroupsHaveTotals(rows, key);
        assert At(groups, key) == Total(rows, key);
      }
      assert groups.Keys == Groups(rows);
      n := |groups|;
      Upsert(groups);
      forall key ensures At(hourly, key) == Combine(At(old(hourly), key), Total(rows, key)) {
        assert At(groups, key) == Total(rows, key);
      }
      RolledUpIsUnique(old(hourly), rows, hourly, RollUp(old(hourly), rows));
    }

    /** ON CONFLICT DO UPDATE, for the groups in any order. */
    method Upsert(groups: map<Key, Agg>)
      modifies this`hourly
      ensures forall key :: At(hourly, key) == Combine(At(old(hourly), key), At(groups, key))
      ensures forall key, xs, ys :: IsOver(At(old(hourly), key), xs) && IsOver(At(groups, key), ys)
                                ==> IsOver(At(hourly, key), xs + ys)
    {
      hide IsOver;
      var todo := groups.Keys;
      while todo != {}
        invariant todo <= groups.Keys
        invariant forall key :: At(hourly, key) == Upserted(old(hourly), groups, todo, key)
        decreases |todo|
      {
        var key :| key in todo;
        todo := todo - {key};
        var merged := match At(hourly, key) case None => groups[key] case Some(agg) => Merge(agg, groups[key]);
        ghost var was := hourly;
        hourly := hourly[key := merged];
        forall k ensures At(hourly, k) == Upserted(old(hourly), groups, todo, k) {
          assert At(was, k) == Upserted(old(hourly), groups, todo + {key}, k);
        }
      }
      forall key, xs, ys | IsOver(At(old(hourly), key), xs) && IsOver(At(groups, key), ys)
        ensures IsOver(At(hourly, key), xs + ys)
      {
        CombinedIsOver(At(old(hourly), key), At(groups, key), xs, ys);
      }
    }

    method Delete(table: Table, cut: int) returns (n: int)
      modifies this
      ensures events == old(events)
      ensures View() == Deleted(old(View()), table, cut)
      ensures IsDeleted(old(View()), View(), table, cut)
      ensures n == RowsIn(old(View()), table) - RowsIn(View(), table)
    {
      DeletesTheOld(View(), table, cut);
      match table
      case Measurements =>
        n := |raw|;
        raw := Since(raw, cut);
        n := n - |raw|;
      case MeasurementHourly =>
        n := |hourly|;
        hourly := RecentHours(hourly, cut);
        n := n - |hourly|;
      case Outages =>
        n := |outages.rows|;
        outages := O.Expired(outages, cut);
        n := n - |outages.rows|;
      case _ =>
        n := |Times(plain, table)|;
        plain := plain[table := After(Times(plain, table), cut)];
        n := n - |Times(plain, table)|;
    }

    /** One retention run; fails is the index of the statement that fails, if there is one. */
    method Prune(cfg: Config, ago: int -> int, fails: int) returns (res: PruneResult, ok: bool)
      requires Valid()
      modifies this
      ensures Valid() && events == old(events) + [Event.Prune(cfg, ago, fails)]
      ensures ok <==> Reached(cfg, fails) == |Statements(cfg)|
      ensures Accounted(res, Downsampled(old(View()), cfg, ago, fails), View())
      ensures res.rowsRolledUp
          == if RollsUp(cfg, fails) then |Groups(Before(old(raw), ago(cfg.measurementsDays)))| else 0
    {
      hide Swept, Deleted, Accounted, Statements, Run;
      StatementsInOrder(cfg);
      res := PruneResult(0, 0, map[]);
      ok := !(cfg.downsample && fails == ROLL_UP);
      ghost var was := View();
      if ok && cfg.downsample {
        var n := Downsample(ago(cfg.measurementsDays));
        res := res.(rowsRolledUp := n);
      }
      ghost var start := View();
      assert start == Downsampled(was, cfg, ago, fails);
      NothingIsSwept(res, start, ago);
      if ok {
        res, ok := Sweep(cfg, ago, fails, res);
      } else {
        assert Statements(cfg)[..0] == [];
      }
      events := events + [Event.Prune(cfg, ago, fails)];
      PrunedRun(old(events), cfg, ago, fails);
    }

    /** The deleting statements in order. */
    method Sweep(cfg: Config, ago: int -> int, fails: int, begun: PruneResult) returns (res: PruneResult, ok: bool)
      requires begun.rowsDeleted == 0 && begun.byTable == map[] && !(cfg.downsample && fails == ROLL_UP)
      modifies this
      ensures events == old(events)
      ensures View() == Swept(old(View()), Statements(cfg)[..Reached(cfg, fails)], ago)
      ensures ok <==> Reached(cfg, fails) == |Statements(cfg)|
      ensures Accounted(res, old(View()), View()) && res.rowsRolledUp == begun.rowsRolledUp
    {
      hide Swept, Deleted, IsDeleted, Accounted, Statements, RowsIn;
      StatementsInOrder(cfg);
      res := begun;
      ghost var start := View();
      NothingIsSwept(res, start, ago);
      var rules := Statements(cfg);
      for i := 0 to |rules|
        invariant Reached(cfg, fails) >= i && events == old(events)
        invariant View() == Swept(start, rules[..i], ago)
        invariant Accounted(res, start, View()) && res.rowsRolledUp == begun.rowsRolledUp
        invariant forall j :: i <= j < |rules| ==> rules[j].table !in res.byTable
      {
        SweptAppend(start, rules[..i], rules[i], ago);
        assert rules[..i + 1] == rules[..i] + [rules[i]];
        if rules[i].days > 0 {
          if i == fails {
            return res, false;
          }
          ghost var before := View();
          var n := Delete(rules[i].table, ago(rules[i].days));
          OneMoreIsAccounted(res, start, before, View(), rules[i].table, ago(rules[i].days));
          res := res.(rowsDeleted := res.rowsDeleted + n, byTable := res.byTable[rules[i].table := n]);
        }
      }
      assert rules[..|rules|] == rules;
      ok := true;
    }
  }

  /** What the table holds of a key while some groups are still to do. */
  function Upserted(was: map<Key, Agg>, groups: map<Key, Agg>, todo: set<Key>, key: Key): Option<Agg> {
    if key in groups && key !in todo then Combine(At(was, key), At(groups, key)) else At(was, key)
  }

  lemma PrunedRun(events: seq<Event>, cfg: Config, ago: int -> int, fails: int)
    ensures Run(events + [Event.Prune(cfg, ago, fails)]).store == Pruned(Run(events).store, cfg, ago, fails)
  {
    assert (events + [Event.Prune(cfg, ago, fails)])[..|events|] == events;
  }

  lemma NothingIsSwept(res: PruneResult, s: Store, ago: int -> int)
    requires res.rowsDeleted == 0 && res.byTable == map[]
    ensures Accounted(res, s, s) && Swept(s, [], ago) == s
  {
  }

  lemma OneMoreIsAccounted(res: PruneResult, s: Store, t: Store, u: Store, table: Table, cut: int)
    requires Accounted(res, s, t) && u == Deleted(t, table, cut) && table !in res.byTable
    ensures var n := RowsIn(t, table) - RowsIn(u, table);
            Accounted(res.(rowsDeleted := res.rowsDeleted + n, byTable := res.byTable[table := n]), s, u)
  {
    hide AllRows, RowsIn, Deleted;
    DeletingCounts(t, table, cut);
  }
}
