/** Lateral-movement detection over a sliding window (internal/lateral/detector.go).

    Attempts are kept incrementally, with an index of the ports tried on each host; both are
    shown to be functions of the whole history of accepted observations. Times are ticks. */
module Lateral {
  import opened Wrappers
  import Memos

  datatype Attempt = Attempt(at: int, host: string, port: int, failed: bool)

  datatype Process = Process(pid: int, exe: string, user: string, attempts: seq<Attempt>,
                             perHost: map<string, map<int, int>>)

  /** host is None when the address is not valid. */
  datatype Observation = Observation(at: int, host: Option<string>, port: int, process: string, pid: int,
                                     exe: string, user: string, failed: bool)

  datatype Config = Config(window: int, hostSweep: int, portScan: int, failures: int, adminPorts: set<int>,
                           adminSweep: int, cooldown: int)

  const MINUTE := 60_000_000

  function Effective(c: Config): (r: Config)
    ensures r.window > 0 && r.cooldown > 0
    ensures r.hostSweep >= 2 && r.portScan >= 2 && r.failures >= 2 && r.adminSweep >= 2
  {
    Config(if c.window <= 0 then 2 * MINUTE else c.window,
           if c.hostSweep < 2 then 20 else c.hostSweep,
           if c.portScan < 2 then 15 else c.portScan,
           if c.failures < 2 then 25 else c.failures,
           c.adminPorts,
           if c.adminSweep < 2 then 5 else c.adminSweep,
           if c.cooldown <= 0 then 10 * MINUTE else c.cooldown)
  }

  // ----- The window as a function of a history ---------------------------------------------

  /** The attempts after the cutoff, in order. */
  function InWindow(xs: seq<Attempt>, cutoff: int): seq<Attempt> {
    Filter(LaterThan(cutoff), xs)
  }

  function LaterThan(cutoff: int): Attempt -> bool {
    (a: Attempt) => a.at > cutoff
  }

  /** The time of the attempt on a host and port that arrived last. */
  function LastTime(xs: seq<Attempt>, host: string, port: int): Option<int> {
    if xs == [] then None
    else
      var a := xs[|xs| - 1];
      if a.host == host && a.port == port then Some(a.at) else LastTime(xs[..|xs| - 1], host, port)
  }

  function Clip(t: Option<int>, cutoff: int): Option<int> {
    if t.Some? && t.value > cutoff then t else None
  }

  function At(perHost: map<string, map<int, int>>, host: string, port: int): Option<int> {
    if host in perHost && port in perHost[host] then Some(perHost[host][port]) else None
  }

  ghost predicate NoEmpty(perHost: map<string, map<int, int>>) {
    forall h :: h in perHost ==> perHost[h] != map[]
  }

  /** The index holds, for each host and port, the attempt that arrived last if it is in the window. */
  ghost predicate Indexed(perHost: map<string, map<int, int>>, xs: seq<Attempt>, cutoff: int) {
    forall h, p :: At(perHost, h, p) == Clip(LastTime(xs, h, p), cutoff)
  }

  ghost predicate Holds(p: Process, xs: seq<Attempt>, cutoff: int) {
    p.attempts == InWindow(xs, cutoff) && Indexed(p.perHost, xs, cutoff) && NoEmpty(p.perHost)
  }

  /** The same, up to entries that the next trim at or after the cutoff removes. */
  ghost predicate Pending(p: Process, xs: seq<Attempt>, cutoff: int) {
    && InWindow(p.attempts, cutoff) == InWindow(xs, cutoff)
    && (forall h, q :: Clip(At(p.perHost, h, q), cutoff) == Clip(LastTime(xs, h, q), cutoff))
    && NoEmpty(p.perHost)
  }

  lemma WindowTwice(xs: seq<Attempt>, c: int, d: int)
    requires c <= d
    ensures InWindow(InWindow(xs, c), d) == InWindow(xs, d)
  {
    FilterTwice(LaterThan(c), LaterThan(d), xs);
  }

  lemma {:induction false} InWindowMember(xs: seq<Attempt>, c: int, a: Attempt)
    ensures a in InWindow(xs, c) <==> a in xs && a.at > c
  {
    if xs != [] {
      var n := |xs| - 1;
      InWindowMember(xs[..n], c, a);
      assert a in xs <==> a in xs[..n] || a == xs[n];
    }
  }

  lemma {:induction false} LastTimeIsSome(xs: seq<Attempt>, host: string, port: int)
    ensures LastTime(xs, host, port).Some? <==> exists a :: a in xs && a.host == host && a.port == port
    ensures LastTime(xs, host, port).Some? ==>
            exists a :: a in xs && a.host == host && a.port == port && a.at == LastTime(xs, host, port).value
  {
    if xs != [] {
      var n := |xs| - 1;
      LastTimeIsSome(xs[..n], host, port);
      assert xs[n] in xs;
      assert forall a :: a in xs <==> a in xs[..n] || a == xs[n];
    }
  }

  // ----- Accepting observations ---------------------------------------------------------------

  function NameOf(o: Observation): string {
    if o.process == "" then "(unattributed)" else o.process
  }

  predicate Accepts(allowed: string -> bool, o: Observation) {
    o.host.Some? && o.port > 0 && !allowed(o.process)
  }

  function AttemptOf(o: Observation): Attempt
    requires o.host.Some?
  {
    Attempt(o.at, o.host.value, o.port, o.failed)
  }

  const NEW_PROCESS := Process(0, "", "", [], map[])

  function Folded(p: Process, o: Observation): Process
    requires o.host.Some?
  {
    var host := o.host.value;
    var ports := if host in p.perHost then p.perHost[host] else map[];
    Process(if o.pid > 0 then o.pid else p.pid,
            if o.exe != "" then o.exe else p.exe,
            if o.user != "" then o.user else p.user,
            p.attempts + [AttemptOf(o)],
            p.perHost[host := ports[o.port := o.at]])
  }

  lemma FoldedIsPending(p: Process, o: Observation, xs: seq<Attempt>, c: int)
    requires o.host.Some? && Pending(p, xs, c)
    ensures Pending(Folded(p, o), xs + [AttemptOf(o)], c)
  {
    hide Folded;
    FoldedAttempts(p, o);
    AtFolded(p, o, "", 0);
    var a, q := AttemptOf(o), Folded(p, o);
    WindowAppend(p.attempts, a, c);
    WindowAppend(xs, a, c);
    forall h, port
      ensures Clip(At(q.perHost, h, port), c) == Clip(LastTime(xs + [a], h, port), c)
    {
      assert Clip(At(p.perHost, h, port), c) == Clip(LastTime(xs, h, port), c);
      LastTimeAppend(xs, a, h, port);
      AtFolded(p, o, h, port);
    }
  }

  lemma FoldedAttempts(p: Process, o: Observation)
    requires o.host.Some?
    ensures Folded(p, o).attempts == p.attempts + [AttemptOf(o)]
  {
  }

  lemma WindowAppend(xs: seq<Attempt>, a: Attempt, c: int)
    ensures InWindow(xs + [a], c) == if a.at > c then InWindow(xs, c) + [a] else InWindow(xs, c)
  {
    FilterAppend(LaterThan(c), xs, a);
  }

  lemma LastTimeAppend(xs: seq<Attempt>, a: Attempt, h: string, port: int)
    ensures LastTime(xs + [a], h, port) == if a.host == h && a.port == port then Some(a.at) else LastTime(xs, h, port)
  {
    assert (xs + [a])[..|xs|] == xs;
  }

  lemma AtFolded(p: Process, o: Observation, h: string, port: int)
    requires o.host.Some?
    ensures At(Folded(p, o).perHost, h, port)
        == if o.host.value == h && o.port == port then Some(o.at) else At(p.perHost, h, port)
    ensures NoEmpty(p.perHost) ==> NoEmpty(Folded(p, o).perHost)
  {
    var ports := if o.host.value in p.perHost then p.perHost[o.host.value] else map[];
    assert o.port in ports[o.port := o.at];
  }

  lemma HoldsIsPending(p: Process, xs: seq<Attempt>, c: int)
    requires Holds(p, xs, c)
    ensures Pending(p, xs, c)
  {
    WindowTwice(xs, c, c);
    forall h, q
      ensures Clip(At(p.perHost, h, q), c) == Clip(LastTime(xs, h, q), c)
    {
      assert At(p.perHost, h, q) == Clip(LastTime(xs, h, q), c);
    }
  }

  /** Nothing in the window leaves nothing in the index. */
  lemma EmptyHolds(xs: seq<Attempt>, c: int)
    requires InWindow(xs, c) == []
    ensures Holds(NEW_PROCESS, xs, c)
  {
    forall h, p
      ensures Clip(LastTime(xs, h, p), c) == None
    {
      LastTimeIsSome(xs, h, p);
      if LastTime(xs, h, p).Some? {
        var a :| a in xs && a.host == h && a.port == p && a.at == LastTime(xs, h, p).value;
        InWindowMember(xs, c, a);
      }
    }
  }

  // ----- Trimming -------------------------------------------------------------------------------

  /** The compacting loop of trim. */
  method CompactAttempts(attempts: seq<Attempt>, cutoff: int) returns (kept: seq<Attempt>)
    ensures kept == InWindow(attempts, cutoff)
  {
    kept := [];
    for i := 0 to |attempts|
      invariant kept == InWindow(attempts[..i], cutoff)
    {
      assert attempts[..i + 1][..i] == attempts[..i];
      if attempts[i].at > cutoff {
        kept := kept + [attempts[i]];
      }
    }
    assert attempts[..|attempts|] == attempts;
  }

  method TrimPorts(ports: map<int, int>, cutoff: int) returns (left: map<int, int>)
    ensures PortsTrimmed(left, ports, cutoff)
  {
    left := ports;
    var todo := ports.Keys;
    while todo != {}
      invariant todo <= left.Keys <= ports.Keys
      invariant forall p :: p in left ==> left[p] == ports[p]
      invariant forall p :: p in ports ==> (p in left <==> p in todo || ports[p] > cutoff)
      decreases |todo|
    {
      HasMember(todo);
      var p :| p in todo;
      todo := todo - {p};
      if left[p] <= cutoff {
        left := left - {p};
      }
    }
  }

  /** What is left of one host's ports: those last tried after the cutoff. */
  ghost predicate PortsTrimmed(left: map<int, int>, ports: map<int, int>, cutoff: int) {
    && (forall p :: p in left ==> p in ports && left[p] == ports[p])
    && (forall p :: p in ports ==> (p in left <==> ports[p] > cutoff))
  }

  method TrimHosts(perHost: map<string, map<int, int>>, cutoff: int) returns (left: map<string, map<int, int>>)
    ensures NoEmpty(left)
    ensures forall h, p :: At(left, h, p) == Clip(At(perHost, h, p), cutoff)
  {
    left := perHost;
    var todo := perHost.Keys;
    while todo != {}
      invariant todo <= left.Keys <= perHost.Keys
      invariant forall h :: h in todo ==> left[h] == perHost[h]
      invariant forall h :: h in perHost && h !in todo ==> HostTrimmed(left, h, perHost[h], cutoff)
      decreases |todo|
    {
      var h :| h in todo;
      todo := todo - {h};
      var ports := TrimPorts(left[h], cutoff);
      if |ports| == 0 {
        assert forall p :: p !in ports;
        left := left - {h};
      } else {
        left := left[h := ports];
      }
    }
    forall h, p
      ensures At(left, h, p) == Clip(At(perHost, h, p), cutoff)
    {
      assert h in perHost ==> HostTrimmed(left, h, perHost[h], cutoff);
    }
    forall h | h in left ensures left[h] != map[] {
      assert HostTrimmed(left, h, perHost[h], cutoff);
    }
  }

  /** A host goes with its last port. */
  ghost predicate HostTrimmed(left: map<string, map<int, int>>, h: string, ports: map<int, int>, cutoff: int) {
    if h in left then left[h] != map[] && PortsTrimmed(left[h], ports, cutoff)
    else forall p :: p in ports ==> ports[p] <= cutoff
  }

  method TrimProcess(p: Process, cutoff: int, ghost xs: seq<Attempt>, ghost before: int) returns (r: Process)
    requires Pending(p, xs, before) && before <= cutoff
    ensures Holds(r, xs, cutoff)
    ensures r.pid == p.pid && r.exe == p.exe && r.user == p.user
  {
    var attempts := CompactAttempts(p.attempts, cutoff);
    var perHost := TrimHosts(p.perHost, cutoff);
    WindowTwice(p.attempts, before, cutoff);
    WindowTwice(xs, before, cutoff);
    forall h, q
      ensures At(perHost, h, q) == Clip(LastTime(xs, h, q), cutoff)
    {
      assert Clip(At(p.perHost, h, q), before) == Clip(LastTime(xs, h, q), before);
    }
    r := p.(attempts := attempts, perHost := perHost);
  }

  // ----- The index against the true distinct ports -----------------------------------------------

  function PortsOn(xs: seq<Attempt>, host: string): set<int> {
    set a | a in xs && a.host == host :: a.port
  }

  function PortCount(p: Process, host: string): nat {
    if host in p.perHost then |p.perHost[host]| else 0
  }

  ghost predicate Ordered(xs: seq<Attempt>) {
    forall i, j :: 0 <= i <= j < |xs| ==> xs[i].at <= xs[j].at
  }

  /** No attempt in the window is shadowed by an older one on its host and port that arrived later. */
  ghost predicate Unshadowed(xs: seq<Attempt>, cutoff: int) {
    forall a :: a in xs && a.at > cutoff ==> Clip(LastTime(xs, a.host, a.port), cutoff).Some?
  }

  lemma {:induction false} OrderedIsUnshadowed(xs: seq<Attempt>, cutoff: int)
    requires Ordered(xs)
    ensures Unshadowed(xs, cutoff)
  {
    forall a | a in xs && a.at > cutoff
      ensures Clip(LastTime(xs, a.host, a.port), cutoff).Some?
    {
      OrderedLast(xs, a);
    }
  }

  lemma {:induction false} OrderedLast(xs: seq<Attempt>, a: Attempt)
    requires Ordered(xs) && a in xs
    ensures LastTime(xs, a.host, a.port).Some? && LastTime(xs, a.host, a.port).value >= a.at
  {
    var n := |xs| - 1;
    if xs[n].host == a.host && xs[n].port == a.port {
      var i :| 0 <= i <= n && xs[i] == a;
      assert xs[i].at <= xs[n].at;
    } else {
      assert a in xs[..n];
      OrderedLast(xs[..n], a);
    }
  }

  lemma KnownIsTried(p: Process, xs: seq<Attempt>, cutoff: int, h: string)
    requires Holds(p, xs, cutoff)
    ensures Known(p, h) <= PortsOn(p.attempts, h)
    ensures PortCount(p, h) <= |PortsOn(p.attempts, h)|
    ensures PortCount(p, h) == |PortsOn(p.attempts, h)| <==> Known(p, h) == PortsOn(p.attempts, h)
  {
    forall q | q in Known(p, h)
      ensures q in PortsOn(p.attempts, h)
    {
      assert At(p.perHost, h, q).Some?;
      LastTimeIsSome(xs, h, q);
      var a :| a in xs && a.host == h && a.port == q && a.at == LastTime(xs, h, q).value;
      InWindowMember(xs, cutoff, a);
    }
    SubsetSize(Known(p, h), PortsOn(p.attempts, h));
  }

  /** The count that decides a scan is the true number of distinct ports in the window, for
      every host, exactly when no attempt in the window is shadowed. */
  lemma PortCountIsTrueIff(p: Process, xs: seq<Attempt>, cutoff: int)
    requires Holds(p, xs, cutoff)
    ensures (forall h :: PortCount(p, h) == |PortsOn(p.attempts, h)|) <==> Unshadowed(xs, cutoff)
  {
    if Unshadowed(xs, cutoff) {
      forall h
        ensures PortCount(p, h) == |PortsOn(p.attempts, h)|
      {
        TriedIsKnown(p, xs, cutoff, h);
        KnownIsTried(p, xs, cutoff, h);
      }
    }
    if forall h :: PortCount(p, h) == |PortsOn(p.attempts, h)| {
      forall a | a in xs && a.at > cutoff
        ensures Clip(LastTime(xs, a.host, a.port), cutoff).Some?
      {
        InWindowMember(xs, cutoff, a);
        KnownIsTried(p, xs, cutoff, a.host);
        assert PortCount(p, a.host) == |PortsOn(p.attempts, a.host)|;
        assert a.port in Known(p, a.host);
        assert At(p.perHost, a.host, a.port).Some?;
      }
    }
  }

  lemma TriedIsKnown(p: Process, xs: seq<Attempt>, cutoff: int, h: string)
    requires Holds(p, xs, cutoff) && Unshadowed(xs, cutoff)
    ensures PortsOn(p.attempts, h) <= Known(p, h)
  {
    forall q | q in PortsOn(p.attempts, h)
      ensures q in Known(p, h)
    {
      var a :| a in p.attempts && a.host == h && a.port == q;
      InWindowMember(xs, cutoff, a);
      assert At(p.perHost, h, q).Some?;
    }
  }

  function Known(p: Process, host: string): (s: set<int>)
    ensures |s| == PortCount(p, host)
  {
    if host in p.perHost then p.perHost[host].Keys else {}
  }

  lemma SubsetSize<A>(a: set<A>, b: set<A>)
    requires a <= b
    ensures |a| <= |b| && (|a| == |b| <==> a == b)
  {
    assert b == a + (b - a);
    if |a| == |b| {
      assert b - a == {};
    }
  }

  /** Out of order the index can miss a port: the later arrival is older and hides the newer one. */
  lemma LateArrivalHidesAPort()
    ensures var xs := [Attempt(100, "10.0.0.9", 22, true), Attempt(5, "10.0.0.9", 22, true)];
            !Unshadowed(xs, 50) && InWindow(xs, 50) == [xs[0]]
  {
    var xs := [Attempt(100, "10.0.0.9", 22, true), Attempt(5, "10.0.0.9", 22, true)];
    assert xs[0] in xs && xs[0].at > 50;
    assert LastTime(xs, "10.0.0.9", 22) == Some(5);
    assert xs == [] + [xs[0]] + [xs[1]];
    WindowAppend([], xs[0], 50);
    WindowAppend([] + [xs[0]], xs[1], 50);
    assert InWindow([], 50) == [];
  }

  // ----- Thresholds -------------------------------------------------------------------------------

  datatype Kind = HostSweep | AdminSweep | PortScan | RepeatedFailures

  /** The key of a report memo; host is empty except for port scans. */
  datatype ReportKey = ReportKey(kind: Kind, process: string, host: string)

  datatype Finding = Finding(key: ReportKey, at: int, pid: int, exe: string, user: string,
                             attempts: nat, failed: nat, hosts: nat, ports: nat)

  function HostsOf(xs: seq<Attempt>): set<string> {
    set a | a in xs :: a.host
  }

  function PortsOf(xs: seq<Attempt>): set<int> {
    set a | a in xs :: a.port
  }

  function AdminHosts(xs: seq<Attempt>, admin: set<int>): set<string> {
    set a | a in xs && a.port in admin :: a.host
  }

  function FailedCount(xs: seq<Attempt>): nat {
    if xs == [] then 0 else FailedCount(xs[..|xs| - 1]) + if xs[|xs| - 1].failed then 1 else 0
  }

  /** What one pass over the attempts of a process counts. */
  datatype Summary = Summary(hosts: nat, ports: nat, adminHosts: nat, failed: nat)

  function SummaryOf(xs: seq<Attempt>, admin: set<int>): Summary {
    Summary(|HostsOf(xs)|, |PortsOf(xs)|, |AdminHosts(xs, admin)|, FailedCount(xs))
  }

  method Summarise(xs: seq<Attempt>, admin: set<int>) returns (s: Summary)
    ensures s == SummaryOf(xs, admin)
  {
    var hosts, ports, adminHosts, failed: nat := {}, {}, {}, 0;
    for i := 0 to |xs|
      invariant hosts == HostsOf(xs[..i]) && ports == PortsOf(xs[..i])
      invariant adminHosts == AdminHosts(xs[..i], admin) && failed == FailedCount(xs[..i])
    {
      var a := xs[i];
      OneMoreAttempt(xs[..i], a, admin);
      assert xs[..i + 1] == xs[..i] + [a];
      hosts := hosts + {a.host};
      ports := ports + {a.port};
      if a.failed {
        failed := failed + 1;
      }
      if a.port in admin {
        adminHosts := adminHosts + {a.host};
      }
    }
    assert xs[..|xs|] == xs;
    s := Summary(|hosts|, |ports|, |adminHosts|, failed);
  }

  lemma OneMoreAttempt(xs: seq<Attempt>, a: Attempt, admin: set<int>)
    ensures HostsOf(xs + [a]) == HostsOf(xs) + {a.host}
    ensures PortsOf(xs + [a]) == PortsOf(xs) + {a.port}
    ensures AdminHosts(xs + [a], admin) == AdminHosts(xs, admin) + if a.port in admin then {a.host} else {}
    ensures FailedCount(xs + [a]) == FailedCount(xs) + if a.failed then 1 else 0
  {
    var all := xs + [a];
    assert all[|xs|] == a && all[..|xs|] == xs;
    assert forall x :: x in all <==> x in xs || x == a;
  }

  /** The condition that a key reports holds of what is tracked. */
  ghost predicate Wanted(tracked: map<string, Process>, cfg: Config, k: ReportKey) {
    && k.process in tracked
    && var p := tracked[k.process];
       var s := SummaryOf(p.attempts, cfg.adminPorts);
       match k.kind
       case HostSweep => k.host == "" && s.hosts >= cfg.hostSweep
       case AdminSweep =>
         k.host == "" && s.adminHosts >= cfg.adminSweep && (s.failed > 0 || s.adminHosts >= cfg.adminSweep * 2)
       case PortScan => k.host in p.perHost && |p.perHost[k.host]| >= cfg.portScan
       case RepeatedFailures => k.host == "" && s.failed >= cfg.failures
  }

  ghost function FindingFor(p: Process, cfg: Config, k: ReportKey, now: int): Finding {
    var s := SummaryOf(p.attempts, cfg.adminPorts);
    Finding(k, now, p.pid, p.exe, p.user, |p.attempts|, s.failed,
            if k.kind == AdminSweep then s.adminHosts else s.hosts,
            if k.kind == PortScan then PortCount(p, k.host) else s.ports)
  }

  /** A finding is emitted for every condition met whose memo is due, and for nothing else. */
  ghost predicate Emits(findings: set<Finding>, tracked: map<string, Process>, cfg: Config,
                        memo: map<ReportKey, int>, now: int) {
    forall f :: f in findings <==>
      && Wanted(tracked, cfg, f.key)
      && Memos.Due(memo, f.key, now, cfg.cooldown)
      && f == FindingFor(tracked[f.key.process], cfg, f.key, now)
  }

  /** The memos after an evaluation: those reported are stamped. */
  ghost predicate Stamped(after: map<ReportKey, int>, tracked: map<string, Process>, cfg: Config,
                          memo: map<ReportKey, int>, now: int) {
    forall k ::
      && (k in after <==> k in memo || Wanted(tracked, cfg, k))
      && (k in after ==>
          after[k] == if Wanted(tracked, cfg, k) && Memos.Due(memo, k, now, cfg.cooldown) then now else memo[k])
  }

  ghost predicate StampedAndPruned(after: map<ReportKey, int>, tracked: map<string, Process>, cfg: Config,
                                   memo: map<ReportKey, int>, now: int) {
    exists m :: Stamped(m, tracked, cfg, memo, now) && after == Memos.Dropped(m, now, 4 * cfg.cooldown)
  }

  // ----- The detector -----------------------------------------------------------------------------

  /** Every process's state is the one its whole accepted history determines. */
  ghost predicate Refines(tracked: map<string, Process>, accepted: map<string, seq<Attempt>>, cutoff: int) {
    && (forall n :: n in tracked ==> n in accepted && Holds(tracked[n], accepted[n], cutoff))
    && (forall n :: n in accepted && n !in tracked ==> InWindow(accepted[n], cutoff) == [])
  }

  ghost predicate RefinesPending(tracked: map<string, Process>, accepted: map<string, seq<Attempt>>, cutoff: int) {
    && (forall n :: n in tracked ==> n in accepted && Pending(tracked[n], accepted[n], cutoff))
    && (forall n :: n in accepted && n !in tracked ==> InWindow(accepted[n], cutoff) == [])
  }

  /** The accepted history after a batch. */
  ghost function Extended(accepted: map<string, seq<Attempt>>, allowed: string -> bool,
                          obs: seq<Observation>): map<string, seq<Attempt>>
  {
    if obs == [] then accepted
    else
      var before, o := Extended(accepted, allowed, obs[..|obs| - 1]), obs[|obs| - 1];
      if Accepts(allowed, o) then
        before[NameOf(o) := PastOf(before, NameOf(o)) + [AttemptOf(o)]]
      else before
  }

  /** An observation that counts for a process; what no process is named for has a name of its own. */
  ghost predicate IsFrom(o: Observation, allowed: string -> bool, name: string) {
    o.host.Some? && o.port > 0 && !allowed(o.process) && name == if o.process == "" then "(unattributed)" else o.process
  }

  /** What a batch adds to the history of one process. */
  ghost function NewAttempts(obs: seq<Observation>, allowed: string -> bool, name: string): seq<Attempt> {
    if obs == [] then []
    else
      var o := obs[|obs| - 1];
      NewAttempts(obs[..|obs| - 1], allowed, name)
      + if IsFrom(o, allowed, name) then [Attempt(o.at, o.host.value, o.port, o.failed)] else []
  }

  function PastOf(accepted: map<string, seq<Attempt>>, name: string): seq<Attempt> {
    if name in accepted then accepted[name] else []
  }

  lemma {:induction false} ExtendedByName(accepted: map<string, seq<Attempt>>, allowed: string -> bool,
                                          obs: seq<Observation>, name: string)
    ensures PastOf(Extended(accepted, allowed, obs), name)
         == PastOf(accepted, name) + NewAttempts(obs, allowed, name)
  {
    if obs == [] {
      assert PastOf(accepted, name) + [] == PastOf(accepted, name);
    } else {
      ExtendedByName(accepted, allowed, obs[..|obs| - 1], name);
    }
  }

  /** The latest value that the observations of a process give for one of its attributes. */
  ghost function Latest<T>(obs: seq<Observation>, allowed: string -> bool, name: string,
                           given: Observation -> Option<T>, was: T): T
  {
    if obs == [] then was
    else
      var o := obs[|obs| - 1];
      if IsFrom(o, allowed, name) && given(o).Some? then given(o).value
      else Latest(obs[..|obs| - 1], allowed, name, given, was)
  }

  /** A process goes by the latest pid, executable and user that were known. */
  ghost predicate Identified(p: Process, was: Process, obs: seq<Observation>, allowed: string -> bool, name: string) {
    && p.pid == Latest(obs, allowed, name, (o: Observation) => if o.pid > 0 then Some(o.pid) else None, was.pid)
    && p.exe == Latest(obs, allowed, name, (o: Observation) => if o.exe != "" then Some(o.exe) else None, was.exe)
    && p.user == Latest(obs, allowed, name, (o: Observation) => if o.user != "" then Some(o.user) else None, was.user)
  }

  function ProcessIn(tracked: map<string, Process>, name: string): Process {
    if name in tracked then tracked[name] else NEW_PROCESS
  }

  ghost predicate AllIdentified(tracked: map<string, Process>, was: map<string, Process>, obs: seq<Observation>,
                                allowed: string -> bool) {
    forall n :: n in tracked ==>
      Identified(tracked[n], if n in was then was[n] else Process(0, "", "", [], map[]), obs, allowed, n)
  }

  /** The same before any process is dropped, for the names not tracked too. */
  ghost predicate Identifying(tracked: map<string, Process>, was: map<string, Process>, obs: seq<Observation>,
                              allowed: string -> bool) {
    forall n :: Identified(ProcessIn(tracked, n), ProcessIn(was, n), obs, allowed, n)
  }

  lemma NothingIdentified(tracked: map<string, Process>, allowed: string -> bool)
    ensures Identifying(tracked, tracked, [], allowed)
  {
  }

  lemma IdentifyingMore(tracked: map<string, Process>, was: map<string, Process>, obs: seq<Observation>,
                        allowed: string -> bool, i: nat)
    requires i < |obs| && Identifying(tracked, was, obs[..i], allowed)
    ensures var o := obs[i];
            Identifying(if Accepts(allowed, o) then tracked[NameOf(o) := Folded(ProcessIn(tracked, NameOf(o)), o)]
                        else tracked, was, obs[..i + 1], allowed)
  {
    hide Identified, Folded;
    var o := obs[i];
    assert obs[..i + 1] == obs[..i] + [o];
    var after := if Accepts(allowed, o) then tracked[NameOf(o) := Folded(ProcessIn(tracked, NameOf(o)), o)]
                 else tracked;
    forall n ensures Identified(ProcessIn(after, n), ProcessIn(was, n), obs[..i + 1], allowed, n) {
      assert Identified(ProcessIn(tracked, n), ProcessIn(was, n), obs[..i], allowed, n);
      IdentifiedStep(ProcessIn(tracked, n), ProcessIn(was, n), obs[..i], o, allowed, n);
    }
  }

  lemma IdentifiedStep(p: Process, was: Process, obs: seq<Observation>, o: Observation, allowed: string -> bool,
                       name: string)
    ensures Identified(p, was, obs, allowed, name) ==>
              Identified(if Accepts(allowed, o) && NameOf(o) == name then Folded(p, o) else p, was, obs + [o], allowed,
                         name)
  {
    assert (obs + [o])[..|obs|] == obs;
  }

  lemma TrimmedIsIdentified(tracked: map<string, Process>, folded: map<string, Process>, was: map<string, Process>,
                            obs: seq<Observation>, allowed: string -> bool)
    requires Identifying(folded, was, obs, allowed) && SameIdentities(tracked, folded)
    ensures AllIdentified(tracked, was, obs, allowed)
  {
    forall n | n in tracked
      ensures Identified(tracked[n], if n in was then was[n] else Process(0, "", "", [], map[]), obs, allowed, n)
    {
      assert Identified(ProcessIn(folded, n), ProcessIn(was, n), obs, allowed, n);
    }
  }

  ghost predicate SameIdentities(tracked: map<string, Process>, was: map<string, Process>) {
    forall n :: n in tracked ==>
      n in was && tracked[n].pid == was[n].pid && tracked[n].exe == was[n].exe && tracked[n].user == was[n].user
  }

  lemma SameAsItself(tracked: map<string, Process>)
    ensures SameIdentities(tracked, tracked)
  {
  }

  lemma TrimmedOne(tracked: map<string, Process>, was: map<string, Process>, name: string, p: Process)
    requires SameIdentities(tracked, was) && name in tracked
    requires p.pid == tracked[name].pid && p.exe == tracked[name].exe && p.user == tracked[name].user
    ensures SameIdentities(tracked - {name}, was) && SameIdentities(tracked[name := p], was)
  {
  }

  lemma AcceptOne(tracked: map<string, Process>, accepted: map<string, seq<Attempt>>, cutoff: int,
                  allowed: string -> bool, o: Observation)
    requires RefinesPending(tracked, accepted, cutoff) && Accepts(allowed, o)
    ensures var n := NameOf(o);
            RefinesPending(tracked[n := Folded(ProcessIn(tracked, n), o)],
                           accepted[n := PastOf(accepted, n) + [AttemptOf(o)]], cutoff)
  {
    hide Folded, Holds, Pending;
    var n := NameOf(o);
    var p, xs := ProcessIn(tracked, n), PastOf(accepted, n);
    if n !in tracked {
      EmptyHolds(xs, cutoff);
      HoldsIsPending(p, xs, cutoff);
    }
    FoldedIsPending(p, o, xs, cutoff);
  }

  class Detector {
    const cfg: Config
    const allowed: string -> bool
    var tracked: map<string, Process>
    var reported: map<ReportKey, int>
    /** Every observation ever accepted, per process, and the latest time passed to Observe. */
    ghost var accepted: map<string, seq<Attempt>>
    ghost var clock: int

    ghost predicate Valid()
      reads this
    {
      && cfg.window > 0 && cfg.cooldown > 0
      && cfg.hostSweep >= 2 && cfg.portScan >= 2 && cfg.failures >= 2 && cfg.adminSweep >= 2
      && Refines(tracked, accepted, clock - cfg.window)
    }

    constructor (c: Config, allowed: string -> bool, ghost start: int)
      ensures Valid() && cfg == Effective(c) && this.allowed == allowed && clock == start
      ensures cfg.window == (if c.window > 0 then c.window else 120_000_000)
      ensures cfg.hostSweep == (if c.hostSweep >= 2 then c.hostSweep else 20)
      ensures cfg.portScan == (if c.portScan >= 2 then c.portScan else 15)
      ensures cfg.failures == (if c.failures >= 2 then c.failures else 25)
      ensures cfg.adminSweep == (if c.adminSweep >= 2 then c.adminSweep else 5)
      ensures cfg.adminPorts == c.adminPorts
      ensures cfg.cooldown == (if c.cooldown > 0 then c.cooldown else 600_000_000)
      ensures tracked == map[] && reported == map[] && accepted == map[]
    {
      cfg, this.allowed := Effective(c), allowed;
      tracked, reported, accepted, clock := map[], map[], map[], start;
    }

    /** Folds a batch in; afterwards everything tracked is a function of the whole history. */
    method Observe(obs: seq<Observation>, now: int) returns (findings: set<Finding>)
      requires Valid() && clock <= now
      modifies this
      ensures Valid() && clock == now
      ensures forall n :: PastOf(accepted, n) == PastOf(old(accepted), n) + NewAttempts(obs, allowed, n)
      ensures AllIdentified(tracked, old(tracked), obs, allowed)
      ensures Emits(findings, tracked, cfg, old(reported), now)
      ensures StampedAndPruned(reported, tracked, cfg, old(reported), now)
      ensures (forall n :: n in accepted ==> Ordered(accepted[n])) ==>
                ReportsHistory(findings, accepted, cfg, old(reported), now)
    {
      hide Refines, RefinesPending, Emits, Stamped, ReportsHistory, Ordered, Identified;
      FoldIn(obs);
      forall n ensures PastOf(accepted, n) == PastOf(old(accepted), n) + NewAttempts(obs, allowed, n) {
        ExtendedByName(old(accepted), allowed, obs, n);
      }
      ghost var folded := tracked;
      Trim(now);
      TrimmedIsIdentified(tracked, folded, old(tracked), obs, allowed);
      findings := Evaluate(now);
      PruneReported(now);
      if forall n :: n in accepted ==> Ordered(accepted[n]) {
        EmittedReportsHistory(findings, tracked, accepted, cfg, old(reported), now);
      }
    }

    method FoldIn(obs: seq<Observation>)
      requires Valid()
      modifies this`tracked, this`accepted
      ensures RefinesPending(tracked, accepted, clock - cfg.window)
      ensures accepted == Extended(old(accepted), allowed, obs)
      ensures Identifying(tracked, old(tracked), obs, allowed)
    {
      hide Holds, Pending, Folded, Identifying, RefinesPending, NameOf, AttemptOf;
      NothingIdentified(tracked, allowed);
      RefinesIsPending(tracked, accepted, clock - cfg.window);
      for i := 0 to |obs|
        invariant RefinesPending(tracked, accepted, clock - cfg.window)
        invariant accepted == Extended(old(accepted), allowed, obs[..i])
        invariant Identifying(tracked, old(tracked), obs[..i], allowed)
      {
        var o := obs[i];
        IdentifyingMore(tracked, old(tracked), obs, allowed, i);
        assert obs[..i + 1][..i] == obs[..i];
        if o.host.None? || o.port <= 0 || allowed(o.process) {
          continue;
        }
        AcceptOne(tracked, accepted, clock - cfg.window, allowed, o);
        var name := NameOf(o);
        tracked := tracked[name := Folded(ProcessIn(tracked, name), o)];
        accepted := accepted[name := PastOf(accepted, name) + [AttemptOf(o)]];
      }
      assert obs[..|obs|] == obs;
    }

    method Trim(now: int)
      requires cfg.window > 0 && clock <= now
      requires RefinesPending(tracked, accepted, clock - cfg.window)
      modifies this`tracked, this`clock
      ensures clock == now && Refines(tracked, accepted, now - cfg.window)
      ensures SameIdentities(tracked, old(tracked))
    {
      hide Holds, Pending, RefinesPending, Trimming, Refines, SameIdentities;
      var cutoff := now - cfg.window;
      ghost var before := clock - cfg.window;
      var todo := tracked.Keys;
      TrimmingStarts(tracked, accepted, before, cutoff);
      SameAsItself(tracked);
      while todo != {}
        invariant clock == old(clock) && todo <= tracked.Keys
        invariant Trimming(tracked, todo, accepted, before, cutoff)
        invariant SameIdentities(tracked, old(tracked))
        decreases |todo|
      {
        var name :| name in todo;
        TrimmingAt(tracked, todo, accepted, before, cutoff, name);
        var p := TrimProcess(tracked[name], cutoff, accepted[name], before);
        TrimmingStep(tracked, todo, accepted, before, cutoff, name, p);
        TrimmedOne(tracked, old(tracked), name, p);
        todo := todo - {name};
        tracked := if |p.attempts| == 0 && |p.perHost| == 0 then tracked - {name} else tracked[name := p];
      }
      TrimmingEnds(tracked, accepted, before, cutoff);
      clock := now;
    }

    method Evaluate(now: int) returns (findings: set<Finding>)
      modifies this`reported
      ensures Emits(findings, tracked, cfg, old(reported), now)
      ensures Stamped(reported, tracked, cfg, old(reported), now)
    {
      hide Wanted, Asking;
      findings := {};
      ghost var asked: set<ReportKey> := {};
      var todo := tracked.Keys;
      NothingAsked(tracked, cfg, reported, now);
      while todo != {}
        invariant todo <= tracked.Keys
        invariant Asking(asked, findings, reported, tracked, cfg, old(reported), now)
        invariant forall k :: k in asked <==> Wanted(tracked, cfg, k) && k.process !in todo
        decreases |todo|
      {
        var name :| name in todo;
        todo := todo - {name};
        findings, asked := EvaluateProcess(name, now, findings, asked, old(reported));
      }
      AskedAll(asked, findings, reported, tracked, cfg, old(reported), now);
    }

    method EvaluateProcess(name: string, now: int, found: set<Finding>, ghost before: set<ReportKey>,
                           ghost memo: map<ReportKey, int>)
      returns (findings: set<Finding>, ghost asked: set<ReportKey>)
      requires name in tracked && Asking(before, found, reported, tracked, cfg, memo, now)
      requires forall k :: k in before ==> k.process != name
      modifies this`reported
      ensures Asking(asked, findings, reported, tracked, cfg, memo, now)
      ensures forall k :: k in asked <==> k in before || (Wanted(tracked, cfg, k) && k.process == name)
    {
      hide Asking;
      var p := tracked[name];
      var s := Summarise(p.attempts, cfg.adminPorts);
      var base := Finding(ReportKey(HostSweep, name, ""), now, p.pid, p.exe, p.user, |p.attempts|, s.failed, s.hosts,
                          s.ports);
      findings, asked := Consider(base, s.hosts >= cfg.hostSweep, now, found, before, memo);
      var suspicious := s.failed > 0 || s.adminHosts >= cfg.adminSweep * 2;
      findings, asked := Consider(base.(key := ReportKey(AdminSweep, name, ""), hosts := s.adminHosts),
                                  s.adminHosts >= cfg.adminSweep && suspicious, now, findings, asked, memo);
      findings, asked := EvaluatePorts(name, base, now, findings, asked, memo);
      findings, asked := Consider(base.(key := ReportKey(RepeatedFailures, name, "")), s.failed >= cfg.failures, now,
                                  findings, asked, memo);
    }

    method EvaluatePorts(name: string, base: Finding, now: int, found: set<Finding>, ghost before: set<ReportKey>,
                         ghost memo: map<ReportKey, int>)
      returns (findings: set<Finding>, ghost asked: set<ReportKey>)
      requires name in tracked && base == FindingFor(tracked[name], cfg, ReportKey(HostSweep, name, ""), now)
      requires name in tracked && Asking(before, found, reported, tracked, cfg, memo, now)
      requires forall k :: k in before ==> k.process != name || k.kind != PortScan
      modifies this`reported
      ensures Asking(asked, findings, reported, tracked, cfg, memo, now)
      ensures forall k :: k in asked <==>
          k in before || (Wanted(tracked, cfg, k) && k.process == name && k.kind == PortScan)
    {
      hide Asking;
      findings, asked := found, before;
      var p := tracked[name];
      var hosts := p.perHost.Keys;
      while hosts != {}
        invariant hosts <= p.perHost.Keys
        invariant Asking(asked, findings, reported, tracked, cfg, memo, now)
        invariant forall k :: k in asked <==>
            k in before || (Wanted(tracked, cfg, k) && IsScanOf(k, name) && k.host !in hosts)
        decreases |hosts|
      {
        var host :| host in hosts;
        hosts := hosts - {host};
        var ports := |p.perHost[host]|;
        findings, asked := Consider(base.(key := ReportKey(PortScan, name, host), ports := ports),
                                    ports >= cfg.portScan, now, findings, asked, memo);
      }
    }

    /** One threshold: shouldReport is asked only when the condition is met. */
    method Consider(f: Finding, met: bool, now: int, found: set<Finding>, ghost before: set<ReportKey>,
                    ghost memo: map<ReportKey, int>)
      returns (findings: set<Finding>, ghost asked: set<ReportKey>)
      requires f.key.process in tracked && f.key !in before && (met <==> Wanted(tracked, cfg, f.key))
      requires f == FindingFor(tracked[f.key.process], cfg, f.key, now)
      requires Asking(before, found, reported, tracked, cfg, memo, now)
      modifies this`reported
      ensures Asking(asked, findings, reported, tracked, cfg, memo, now)
      ensures asked == if met then before + {f.key} else before
    {
      hide Wanted;
      findings, asked := found, before;
      if met {
        asked := before + {f.key};
        var due := ShouldReport(f.key, now);
        if due {
          findings := found + {f};
        }
      }
    }

    method ShouldReport(k: ReportKey, now: int) returns (due: bool)
      modifies this`reported
      ensures due == Memos.Due(old(reported), k, now, cfg.cooldown)
      ensures reported == Memos.Asked(old(reported), k, now, cfg.cooldown)
    {
      if k in reported && now - reported[k] < cfg.cooldown {
        return false;
      }
      reported := reported[k := now];
      return true;
    }

    method PruneReported(now: int)
      modifies this`reported
      ensures reported == Memos.Dropped(old(reported), now, 4 * cfg.cooldown)
    {
      reported := map k | k in reported && reported[k] >= now - 4 * cfg.cooldown :: reported[k];
    }
  }

  predicate IsScanOf(k: ReportKey, name: string) {
    k.process == name && k.kind == PortScan
  }

  lemma RefinesIsPending(tracked: map<string, Process>, accepted: map<string, seq<Attempt>>, cutoff: int)
    requires Refines(tracked, accepted, cutoff)
    ensures RefinesPending(tracked, accepted, cutoff)
  {
    hide Holds, Pending;
    forall n | n in tracked
      ensures n in accepted && Pending(tracked[n], accepted[n], cutoff)
    {
      HoldsIsPending(tracked[n], accepted[n], cutoff);
    }
  }

  /** Part way through a trim: the processes still to do are as they were folded. */
  ghost predicate Trimming(tracked: map<string, Process>, todo: set<string>, accepted: map<string, seq<Attempt>>,
                           before: int, cutoff: int) {
    && (forall n :: n in tracked ==> n in accepted)
    && (forall n :: n in tracked && n in todo ==> Pending(tracked[n], accepted[n], before))
    && (forall n :: n in tracked && n !in todo ==> Holds(tracked[n], accepted[n], cutoff))
    && (forall n :: n in accepted && n !in tracked ==> InWindow(accepted[n], cutoff) == [])
  }

  lemma TrimmingStarts(tracked: map<string, Process>, accepted: map<string, seq<Attempt>>, before: int, cutoff: int)
    requires RefinesPending(tracked, accepted, before) && before <= cutoff
    ensures Trimming(tracked, tracked.Keys, accepted, before, cutoff)
  {
    hide Holds, Pending;
    forall n | n in accepted && n !in tracked
      ensures InWindow(accepted[n], cutoff) == []
    {
      WindowTwice(accepted[n], before, cutoff);
    }
  }

  lemma TrimmingAt(tracked: map<string, Process>, todo: set<string>, accepted: map<string, seq<Attempt>>,
                   before: int, cutoff: int, name: string)
    requires Trimming(tracked, todo, accepted, before, cutoff) && name in todo && name in tracked
    ensures name in accepted && Pending(tracked[name], accepted[name], before)
  {
    hide Holds, Pending;
  }

  lemma TrimmingStep(tracked: map<string, Process>, todo: set<string>, accepted: map<string, seq<Attempt>>,
                     before: int, cutoff: int, name: string, p: Process)
    requires Trimming(tracked, todo, accepted, before, cutoff) && name in todo && name in tracked
    requires name in accepted && Holds(p, accepted[name], cutoff)
    ensures Trimming(if |p.attempts| == 0 && |p.perHost| == 0 then tracked - {name} else tracked[name := p],
                     todo - {name}, accepted, before, cutoff)
  {
    hide Pending;
  }

  lemma TrimmingEnds(tracked: map<string, Process>, accepted: map<string, seq<Attempt>>, before: int, cutoff: int)
    requires Trimming(tracked, {}, accepted, before, cutoff)
    ensures Refines(tracked, accepted, cutoff)
  {
    hide Holds, Pending;
  }

  /** The questions asked so far, with their effect on findings and memos. */
  ghost predicate Asking(asked: set<ReportKey>, findings: set<Finding>, after: map<ReportKey, int>,
                         tracked: map<string, Process>, cfg: Config, memo: map<ReportKey, int>, now: int) {
    && (forall k :: k in asked ==> k.process in tracked)
    && (forall k :: k in after <==> k in memo || k in asked)
    && (forall k :: k in after ==>
        after[k] == if k in asked && Memos.Due(memo, k, now, cfg.cooldown) then now else memo[k])
    && (forall f :: f in findings <==> f.key in asked && Memos.Due(memo, f.key, now, cfg.cooldown)
                                       && f == FindingFor(tracked[f.key.process], cfg, f.key, now))
  }

  lemma NothingAsked(tracked: map<string, Process>, cfg: Config, memo: map<ReportKey, int>, now: int)
    ensures Asking({}, {}, memo, tracked, cfg, memo, now)
    ensures forall k :: Wanted(tracked, cfg, k) ==> k.process in tracked.Keys
  {
  }

  lemma AskedAll(asked: set<ReportKey>, findings: set<Finding>, after: map<ReportKey, int>,
                 tracked: map<string, Process>, cfg: Config, memo: map<ReportKey, int>, now: int)
    requires Asking(asked, findings, after, tracked, cfg, memo, now)
    requires forall k :: k in asked <==> Wanted(tracked, cfg, k)
    ensures Emits(findings, tracked, cfg, memo, now) && Stamped(after, tracked, cfg, memo, now)
  {
    hide Wanted;
  }

  // ----- Findings as a function of the whole history ------------------------------------------------

  /** A condition on the accepted history of one process, with nothing incremental in it. */
  ghost predicate MetByHistory(cfg: Config, k: ReportKey, xs: seq<Attempt>, cutoff: int) {
    var w := InWindow(xs, cutoff);
    match k.kind
    case HostSweep => k.host == "" && |HostsOf(w)| >= cfg.hostSweep
    case AdminSweep =>
      && k.host == "" && |AdminHosts(w, cfg.adminPorts)| >= cfg.adminSweep
      && ((exists a :: a in w && a.failed) || |AdminHosts(w, cfg.adminPorts)| >= 2 * cfg.adminSweep)
    case PortScan => |PortsOn(w, k.host)| >= cfg.portScan
    case RepeatedFailures => k.host == "" && FailedCount(w) >= cfg.failures
  }

  /** The figures that a finding carries are those of the window. */
  ghost predicate Tells(f: Finding, cfg: Config, xs: seq<Attempt>, now: int) {
    var w := InWindow(xs, now - cfg.window);
    && f.at == now && f.attempts == |w| && f.failed == FailedCount(w)
    && f.hosts == (if f.key.kind == AdminSweep then |AdminHosts(w, cfg.adminPorts)| else |HostsOf(w)|)
    && f.ports == (if f.key.kind == PortScan then |PortsOn(w, f.key.host)| else |PortsOf(w)|)
  }

  /** One finding for each condition that the history meets and whose memo is due. */
  ghost predicate ReportsHistory(findings: set<Finding>, accepted: map<string, seq<Attempt>>, cfg: Config,
                                 memo: map<ReportKey, int>, now: int) {
    && (forall f :: f in findings ==>
          f.key.process in accepted && Tells(f, cfg, accepted[f.key.process], now)
          && (forall g :: g in findings && g.key == f.key ==> g == f))
    && (forall k :: (exists f :: f in findings && f.key == k) <==>
          && k.process in accepted && MetByHistory(cfg, k, accepted[k.process], now - cfg.window)
          && (k in memo ==> now - memo[k] >= cfg.cooldown))
  }

  lemma {:induction false} SomeFailed(xs: seq<Attempt>)
    ensures FailedCount(xs) > 0 <==> exists a :: a in xs && a.failed
  {
    if xs != [] {
      var n := |xs| - 1;
      SomeFailed(xs[..n]);
      assert xs[n] in xs && forall a :: a in xs <==> a in xs[..n] || a == xs[n];
    }
  }

  /** With observations in time order, what is reported depends on the history alone: the kept
      attempts, the index and the dropped processes leave no trace in it. */
  lemma WantedIsMetByHistory(tracked: map<string, Process>, accepted: map<string, seq<Attempt>>, cutoff: int,
                             cfg: Config, k: ReportKey)
    requires Refines(tracked, accepted, cutoff)
    requires cfg.hostSweep > 0 && cfg.adminSweep > 0 && cfg.portScan > 0 && cfg.failures > 0
    requires forall n :: n in accepted ==> Ordered(accepted[n])
    ensures Wanted(tracked, cfg, k) <==> k.process in accepted && MetByHistory(cfg, k, accepted[k.process], cutoff)
  {
    hide Ordered, Holds, FailedCount, HostsOf, AdminHosts, PortsOn, PortsOf, InWindow;
    NothingCounted(cfg);
    if k.process in tracked {
      SomeFailed(tracked[k.process].attempts);
      HoldsTheWindow(tracked[k.process], accepted[k.process], cutoff, k.host);
    } else {
      SomeFailed([]);
    }
  }

  lemma HoldsTheWindow(p: Process, xs: seq<Attempt>, cutoff: int, host: string)
    requires Holds(p, xs, cutoff) && Ordered(xs)
    ensures p.attempts == InWindow(xs, cutoff) && PortCount(p, host) == |PortsOn(p.attempts, host)|
  {
    OrderedIsUnshadowed(xs, cutoff);
    TriedIsKnown(p, xs, cutoff, host);
    KnownIsTried(p, xs, cutoff, host);
  }

  lemma FindingTells(p: Process, cfg: Config, k: ReportKey, xs: seq<Attempt>, now: int)
    requires Holds(p, xs, now - cfg.window) && Ordered(xs)
    ensures Tells(FindingFor(p, cfg, k, now), cfg, xs, now)
  {
    hide Holds, Ordered;
    HoldsTheWindow(p, xs, now - cfg.window, k.host);
  }

  lemma EmittedReportsHistory(findings: set<Finding>, tracked: map<string, Process>,
                              accepted: map<string, seq<Attempt>>, cfg: Config, memo: map<ReportKey, int>, now: int)
    requires Emits(findings, tracked, cfg, memo, now) && Refines(tracked, accepted, now - cfg.window)
    requires cfg.hostSweep > 0 && cfg.adminSweep > 0 && cfg.portScan > 0 && cfg.failures > 0
    requires forall n :: n in accepted ==> Ordered(accepted[n])
    ensures ReportsHistory(findings, accepted, cfg, memo, now)
  {
    hide Wanted, MetByHistory, Tells, Holds, Ordered, FindingFor;
    forall f | f in findings
      ensures f.key.process in accepted && Tells(f, cfg, accepted[f.key.process], now)
    {
      assert Wanted(tracked, cfg, f.key);
      WantedIsMetByHistory(tracked, accepted, now - cfg.window, cfg, f.key);
      WantedIsTracked(tracked, cfg, f.key);
      FindingTells(tracked[f.key.process], cfg, f.key, accepted[f.key.process], now);
    }
    forall k
      ensures (exists f :: f in findings && f.key == k) <==>
        && k.process in accepted && MetByHistory(cfg, k, accepted[k.process], now - cfg.window)
        && (k in memo ==> now - memo[k] >= cfg.cooldown)
    {
      WantedIsMetByHistory(tracked, accepted, now - cfg.window, cfg, k);
      if Wanted(tracked, cfg, k) && Memos.Due(memo, k, now, cfg.cooldown) {
        EmittedOnce(findings, tracked, cfg, memo, now, k);
      }
    }
  }

  lemma WantedIsTracked(tracked: map<string, Process>, cfg: Config, k: ReportKey)
    requires Wanted(tracked, cfg, k)
    ensures k.process in tracked
  {
  }

  lemma NothingCounted(cfg: Config)
    ensures HostsOf([]) == {} && PortsOf([]) == {} && AdminHosts([], cfg.adminPorts) == {} && FailedCount([]) == 0
    ensures forall h :: PortsOn([], h) == {}
  {
  }

  // ----- Memo pruning is invisible ---------------------------------------------------------------------

  /** One call of Observe as the memos see it: the keys whose conditions are met. */
  datatype Call = Call(wanted: set<ReportKey>, now: int)

  function Reported(memo: map<ReportKey, int>, c: Call, cooldown: int): set<ReportKey> {
    set k | k in c.wanted && Memos.Due(memo, k, c.now, cooldown)
  }

  function Remembered(memo: map<ReportKey, int>, c: Call, cooldown: int, pruning: bool): map<ReportKey, int> {
    var stamped := map k | k in memo.Keys + c.wanted ::
      if k in Reported(memo, c, cooldown) || k !in memo then c.now else memo[k];
    if pruning then Memos.Dropped(stamped, c.now, 4 * cooldown) else stamped
  }

  function MemoAfter(calls: seq<Call>, cooldown: int, pruning: bool): map<ReportKey, int> {
    if calls == [] then map[]
    else Remembered(MemoAfter(calls[..|calls| - 1], cooldown, pruning), calls[|calls| - 1], cooldown, pruning)
  }

  /** The keys each call reports, in order. */
  function ReportedBy(calls: seq<Call>, cooldown: int, pruning: bool): seq<set<ReportKey>> {
    if calls == [] then []
    else ReportedBy(calls[..|calls| - 1], cooldown, pruning)
         + [Reported(MemoAfter(calls[..|calls| - 1], cooldown, pruning), calls[|calls| - 1], cooldown)]
  }

  /** What one Observe emits and remembers is one call on the memos alone. */
  lemma ObserveIsOneCall(findings: set<Finding>, after: map<ReportKey, int>, tracked: map<string, Process>, cfg: Config,
                         memo: map<ReportKey, int>, wanted: set<ReportKey>, now: int)
    requires Emits(findings, tracked, cfg, memo, now) && StampedAndPruned(after, tracked, cfg, memo, now)
    requires forall k :: k in wanted <==> Wanted(tracked, cfg, k)
    ensures after == Remembered(memo, Call(wanted, now), cfg.cooldown, true)
    ensures (set f | f in findings :: f.key) == Reported(memo, Call(wanted, now), cfg.cooldown)
  {
    hide Wanted, FindingFor;
    var c := Call(wanted, now);
    var m :| Stamped(m, tracked, cfg, memo, now) && after == Memos.Dropped(m, now, 4 * cfg.cooldown);
    assert m == map k | k in memo.Keys + wanted ::
      if k in Reported(memo, c, cfg.cooldown) || k !in memo then now else memo[k];
    forall k | k in Reported(memo, c, cfg.cooldown)
      ensures k in set f | f in findings :: f.key
    {
      assert Wanted(tracked, cfg, k);
      EmittedOnce(findings, tracked, cfg, memo, now, k);
    }
  }

  lemma EmittedOnce(findings: set<Finding>, tracked: map<string, Process>, cfg: Config, memo: map<ReportKey, int>,
                    now: int, k: ReportKey)
    requires Emits(findings, tracked, cfg, memo, now) && Wanted(tracked, cfg, k)
        && Memos.Due(memo, k, now, cfg.cooldown)
    ensures k in set f | f in findings :: f.key
    ensures exists f :: f in findings && f.key == k
  {
    var f := FindingFor(tracked[k.process], cfg, k, now);
    assert f.key == k && f in findings;
  }

  /** Over every run with nondecreasing times, the detector reports the same with and without pruneReported. */
  lemma {:induction false} PruningIsInvisible(calls: seq<Call>, cooldown: int)
    requires cooldown > 0
    requires forall i, j :: 0 <= i <= j < |calls| ==> calls[i].now <= calls[j].now
    ensures ReportedBy(calls, cooldown, true) == ReportedBy(calls, cooldown, false)
    ensures calls != [] ==>
        Memos.Agrees(MemoAfter(calls, cooldown, true), MemoAfter(calls, cooldown, false), calls[|calls| - 1].now,
                     cooldown)
  {
    hide Memos.Agrees, Reported, Remembered;
    if calls != [] {
      var n := |calls| - 1;
      PruningIsInvisible(calls[..n], cooldown);
      var pruned, full := MemoAfter(calls[..n], cooldown, true), MemoAfter(calls[..n], cooldown, false);
      NothingToAgree(calls[n].now, cooldown);
      CallAgrees(pruned, full, if n == 0 then calls[n].now else calls[n - 1].now, calls[n], cooldown);
    }
  }

  lemma NothingToAgree(now: int, cooldown: int)
    ensures Memos.Agrees<ReportKey>(map[], map[], now, cooldown)
  {
  }

  lemma CallAgrees(pruned: map<ReportKey, int>, full: map<ReportKey, int>, clock: int, c: Call, cooldown: int)
    requires cooldown > 0 && Memos.Agrees(pruned, full, clock, cooldown) && clock <= c.now
    ensures Reported(pruned, c, cooldown) == Reported(full, c, cooldown)
    ensures Memos.Agrees(Remembered(pruned, c, cooldown, true), Remembered(full, c, cooldown, false), c.now, cooldown)
  {
    assert Reported(pruned, c, cooldown) == Reported(full, c, cooldown);
  }

  lemma {:induction false} ReportedByAt(calls: seq<Call>, cooldown: int, pruning: bool, i: nat)
    requires i < |calls|
    ensures |ReportedBy(calls, cooldown, pruning)| == |calls|
    ensures ReportedBy(calls, cooldown, pruning)[i]
         == Reported(MemoAfter(calls[..i], cooldown, pruning), calls[i], cooldown)
    decreases |calls|
  {
    hide MemoAfter, Reported;
    var n := |calls| - 1;
    if n > 0 {
      ReportedByAt(calls[..n], cooldown, pruning, if i < n then i else n - 1);
    }
    assert calls[..n][..if i < n then i else n] == calls[..i];
  }

  ghost predicate IsReported(calls: seq<Call>, cooldown: int, j: nat, k: ReportKey)
    requires j < |calls|
  {
    k in Reported(MemoAfter(calls[..j], cooldown, false), calls[j], cooldown)
  }

  /** What is remembered of a key is its latest report. */
  lemma {:induction false} MemoIsLatest(calls: seq<Call>, cooldown: int, n: nat, k: ReportKey)
    requires n <= |calls| && forall i, j :: 0 <= i <= j < |calls| ==> calls[i].now <= calls[j].now
    ensures var memo := MemoAfter(calls[..n], cooldown, false);
            && (k in memo ==> exists j: nat :: j < n && IsReported(calls, cooldown, j, k) && calls[j].now == memo[k])
            && (forall j: nat :: j < n && IsReported(calls, cooldown, j, k) ==> k in memo && calls[j].now <= memo[k])
  {
    if n > 0 {
      MemoIsLatest(calls, cooldown, n - 1, k);
      assert calls[..n][..n - 1] == calls[..n - 1];
      var before, memo := MemoAfter(calls[..n - 1], cooldown, false), MemoAfter(calls[..n], cooldown, false);
      assert memo == Remembered(before, calls[n - 1], cooldown, false);
      if k in memo && !IsReported(calls, cooldown, n - 1, k) {
        var j: nat :| j < n - 1 && IsReported(calls, cooldown, j, k) && calls[j].now == before[k];
        assert j < n;
      }
    }
  }

  /** Over every run a key is reported exactly when its condition is met and its last report is a cooldown
      ago or more, whatever pruneReported has dropped. */
  lemma ReportedIff(calls: seq<Call>, cooldown: int, pruning: bool, i: nat, k: ReportKey)
    requires cooldown > 0 && i < |calls|
    requires forall i, j :: 0 <= i <= j < |calls| ==> calls[i].now <= calls[j].now
    ensures var told := ReportedBy(calls, cooldown, pruning);
            && |told| == |calls|
            && (k in told[i] <==>
                  && k in calls[i].wanted
                  && forall j: nat :: j < i && k in told[j] ==> calls[i].now - calls[j].now >= cooldown)
  {
    hide MemoAfter;
    PruningIsInvisible(calls, cooldown);
    MemoIsLatest(calls, cooldown, i, k);
    forall j: nat | j < |calls|
      ensures |ReportedBy(calls, cooldown, false)| == |calls|
      ensures k in ReportedBy(calls, cooldown, false)[j] <==> IsReported(calls, cooldown, j, k)
    {
      ReportedByAt(calls, cooldown, false, j);
    }
  }
}
