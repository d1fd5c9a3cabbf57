/**
 * The main window as a supervisor of running tunnels. It keeps three registries keyed
 * by tunnel id (in-process runners, managed processes and detached pids), chooses the
 * backend a start uses, shows a status for each tunnel, and keeps the runs ledger in step
 * when tunnels stop, finish or die. Widgets, dialogs, timers and the log viewer are not
 * modelled: a dialog's answer is a parameter, and the message boxes shown are recorded
 * as notices.
 */
module MainWindow {
  import opened Wrappers
  import opened Text
  import opened Models
  import opened Db
  import SshBuilder
  import SR = SshTunnelRunner
  import PM = ProcessManager

  // ---------------------------------------------------------------------------
  // The endpoint column

  /** The table's endpoint text: the forwarded ports of a local, remote or dynamic tunnel. */
  function EndpointSummary(t: Tunnel): (s: string)
    ensures t.tunnelType == Local ==>
      s == "localhost:" + IntToString(t.localPort) + " \U{2192} " + t.remoteHost + ":" + IntToString(t.remotePort)
    ensures t.tunnelType == Remote ==>
      s == "remote:" + IntToString(t.remotePort) + " \U{2190} " + t.remoteHost + ":" + IntToString(t.localPort)
    ensures t.tunnelType == Dynamic ==> s == "SOCKS5 localhost:" + IntToString(t.socksPort)
  {
    if t.tunnelType == Local then
      "localhost:" + IntToString(t.localPort) + " \U{2192} " + t.remoteHost + ":" + IntToString(t.remotePort)
    else if t.tunnelType == Remote then
      "remote:" + IntToString(t.remotePort) + " \U{2190} " + t.remoteHost + ":" + IntToString(t.localPort)
    else if t.tunnelType == Dynamic then
      "SOCKS5 localhost:" + IntToString(t.socksPort)
    else
      ""
  }

  /** A tunnel shows an endpoint exactly when ssh can be given a forwarding option for it. */
  lemma EndpointShownIffForwardable(t: Tunnel)
    ensures EndpointSummary(t) != [] <==> SshBuilder.ForwardArgs(t).Ok?
    ensures EndpointSummary(t) != [] <==> KnownType(t.tunnelType)
  {
    if t.tunnelType == Local {
      assert EndpointSummary(t)[0] == 'l';
    } else if t.tunnelType == Remote {
      assert EndpointSummary(t)[0] == 'r';
    } else if t.tunnelType == Dynamic {
      assert EndpointSummary(t)[0] == 'S';
    }
  }

  // ---------------------------------------------------------------------------
  // Closing runs in the ledger

  /** The stamp a run is given: UTC time in ISO format with a Z. */
  function Stamp(utcNow: string): string
  {
    utcNow + "Z"
  }

  /** The run a start records: open, with no exit code and no error. */
  function NewRun(tunnelId: int, startedAt: string, pid: Option<int>, mode: string, logPath: Option<string>): Run
  {
    Run(None, tunnelId, startedAt, None, pid, mode, None, logPath, None)
  }

  /** A log path as it is stored in the runs table. */
  function PathText(p: PM.Path): string
  {
    p.dir + "/" + p.name
  }

  /** The run `id` is the latest run (among ids 1..n) of one of the tunnels `tids`. */
  predicate LatestOf(runs: map<int, RunRow>, n: int, tids: set<int>, id: int)
    requires id in runs
  {
    runs[id].tunnelId in tids && LatestRunIn(runs, runs[id].tunnelId, n) == Some(id)
  }

  /** The runs after the latest run of each tunnel in `tids` is closed at `stoppedAt` with `code`. */
  function CloseLatest(runs: map<int, RunRow>, n: int, tids: set<int>, stoppedAt: string, code: Option<int>): (r: map<int, RunRow>)
    ensures r.Keys == runs.Keys
    ensures forall id :: id in runs ==>
      r[id].tunnelId == runs[id].tunnelId && r[id].startedAt == runs[id].startedAt
      && r[id].pid == runs[id].pid && r[id].mode == runs[id].mode && r[id].logPath == runs[id].logPath
    ensures forall id :: id in runs && runs[id].tunnelId !in tids ==> r[id] == runs[id]
  {
    map id | id in runs ::
      if LatestOf(runs, n, tids, id) then runs[id].(stoppedAt := Some(stoppedAt), exitCode := code) else runs[id]
  }

  /** Which run is latest depends only on the tunnel ids and start times of the runs. */
  lemma {:induction false} LatestRunInFrame(m1: map<int, RunRow>, m2: map<int, RunRow>, tunnelId: int, n: int)
    requires m1.Keys == m2.Keys
    requires forall id :: id in m1 ==> m2[id].tunnelId == m1[id].tunnelId && m2[id].startedAt == m1[id].startedAt
    ensures LatestRunIn(m1, tunnelId, n) == LatestRunIn(m2, tunnelId, n)
    decreases n
  {
    if n >= 1 {
      LatestRunInFrame(m1, m2, tunnelId, n - 1);
    }
  }

  /**
   * Closing keeps the latest run of every tunnel the latest one, and that run of each
   * closed tunnel now has the stop time and the code; other tunnels' runs are untouched.
   */
  lemma CloseLatestEffect(runs: map<int, RunRow>, n: int, tids: set<int>, stoppedAt: string, code: Option<int>, tunnelId: int)
    ensures var c := CloseLatest(runs, n, tids, stoppedAt, code);
      var l := LatestRunIn(c, tunnelId, n);
      l == LatestRunIn(runs, tunnelId, n)
      && (l.Some? && tunnelId in tids ==> c[l.value].stoppedAt == Some(stoppedAt) && c[l.value].exitCode == code)
      && (l.Some? && tunnelId !in tids ==> c[l.value] == runs[l.value])
  {
    LatestRunInFrame(runs, CloseLatest(runs, n, tids, stoppedAt, code), tunnelId, n);
  }

  /** Nothing is closed for no tunnel. */
  lemma CloseLatestNone(runs: map<int, RunRow>, n: int, stoppedAt: string, code: Option<int>)
    ensures CloseLatest(runs, n, {}, stoppedAt, code) == runs
  {
  }

  /** Closing for one set of tunnels and then another is closing for both at once. */
  lemma CloseLatestUnion(runs: map<int, RunRow>, n: int, d: set<int>, e: set<int>, stoppedAt: string, code: Option<int>)
    ensures CloseLatest(CloseLatest(runs, n, d, stoppedAt, code), n, e, stoppedAt, code)
         == CloseLatest(runs, n, d + e, stoppedAt, code)
  {
    var c := CloseLatest(runs, n, d, stoppedAt, code);
    forall id | id in runs
      ensures LatestOf(c, n, e, id) == LatestOf(runs, n, e, id)
    {
      LatestRunInFrame(runs, c, runs[id].tunnelId, n);
    }
  }

  /** Closing the latest run of one tunnel updates that one row, if the tunnel has a run. */
  lemma CloseLatestSingle(runs: map<int, RunRow>, n: int, tunnelId: int, stoppedAt: string, code: Option<int>)
    ensures LatestRunIn(runs, tunnelId, n).None? ==> CloseLatest(runs, n, {tunnelId}, stoppedAt, code) == runs
    ensures var l := LatestRunIn(runs, tunnelId, n);
      l.Some? ==> CloseLatest(runs, n, {tunnelId}, stoppedAt, code)
                  == runs[l.value := runs[l.value].(stoppedAt := Some(stoppedAt), exitCode := code)]
  {
  }

  // ---------------------------------------------------------------------------
  // Statuses, backends, notices

  datatype Kind = Running | Stopped | Error

  /** The status pill of a tunnel: its text and its kind. */
  datatype Status = Status(text: string, kind: Kind)

  /** The exit code a latest run reports as a failure: a recorded, non-zero one. */
  function FailedExit(run: Option<Run>): (r: Option<int>)
    ensures r.Some? <==> run.Some? && run.value.exitCode.Some? && run.value.exitCode.value != 0
    ensures r.Some? ==> r == run.value.exitCode && r.value != 0
  {
    if run.Some? && run.value.exitCode.Some? && run.value.exitCode.value != 0 then run.value.exitCode else None
  }

  /** The three ways of running a tunnel. */
  datatype Backend = InProcess | Background | Managed

  /** The ssh client is needed unless the tunnel is local and not run in the background. */
  predicate NeedsSsh(t: Tunnel, background: bool)
  {
    t.tunnelType != Local || background
  }

  /** The backend a start uses: in-process for a local tunnel in the foreground, else detached or managed. */
  function BackendFor(t: Tunnel, background: bool): (b: Backend)
    ensures b == InProcess <==> !NeedsSsh(t, background)
    ensures b == InProcess ==> t.tunnelType == Local
    ensures b == Background <==> background
    ensures b == Managed <==> !background && t.tunnelType != Local
  {
    if t.tunnelType == Local && !background then InProcess
    else if background then Background
    else Managed
  }

  /** find_ssh found the client: a non-empty path. */
  predicate Found(sshPath: Option<string>)
  {
    sshPath.Some? && sshPath.value != []
  }

  /** A detached start goes through: the command builds, the log opens and the child is spawned. */
  predicate DetachedWorks(h: Host, t: Tunnel, sshPath: Option<string>, env: Env)
  {
    SshBuilder.BuildFullCommand(sshPath, h, t).Ok? && env.openOk && env.spawn.Spawned?
  }

  /** A managed start goes through: the command builds, the log opens and the child starts. */
  predicate ManagedWorks(h: Host, t: Tunnel, sshPath: Option<string>, env: Env)
  {
    SshBuilder.BuildFullCommand(sshPath, h, t).Ok? && env.openOk && env.launched
  }

  /** The message boxes the window shows. */
  datatype Notice = PasswordRequired | SetupNeeded | StartFailed(message: string) | ExitedEarly

  /** The answer to a close request. */
  datatype CloseAnswer = Exit | Tray | Cancel

  /** What the operating system, the clock and the SSH library answer during a start. */
  datatype Env = Env(
    libraryInstalled: bool,
    logsDir: string,
    tempDir: string,
    clockBefore: PM.DateTime,
    clock: PM.DateTime,
    openOk: bool,
    openError: string,
    passWriteOk: bool,
    launched: bool,
    errorString: string,
    pid: int,
    lineWriteOk: bool,
    spawn: PM.Spawn)

  /** The registries, as one value. */
  datatype Registries = Registries(
    runners: map<int, SR.Runner>,
    managed: map<int, PM.ManagedProcess>,
    detached: map<int, int>,
    logPaths: map<int, PM.Path>,
    background: map<int, bool>)

  /** The pids of the detached tunnels in `order` that no managed process shadows, in that order. */
  function KilledOnExit(order: seq<int>, managed: set<int>, detached: map<int, int>): (r: seq<int>)
    ensures |r| <= |order|
    ensures forall pid :: pid in r <==> exists tid :: tid in order && tid !in managed && tid in detached && detached[tid] == pid
  {
    if order == [] then []
    else
      var last := order[|order| - 1];
      var rest := KilledOnExit(order[..|order| - 1], managed, detached);
      assert forall tid :: tid in order[..|order| - 1] ==> tid in order;
      assert forall tid :: tid in order ==> tid == last || tid in order[..|order| - 1];
      if last !in managed && last in detached then rest + [detached[last]] else rest
  }

  /** The ids among the first `i` of `order`. */
  ghost function Visited(order: seq<int>, i: int): set<int>
    requires 0 <= i <= |order|
  {
    set tid | tid in order[..i]
  }

  /** Visiting one more id adds it, and it was not visited before. */
  lemma VisitedStep<V>(order: seq<int>, i: int, m: map<int, V>)
    requires Enumerates(order, m) && 0 <= i < |order|
    ensures Visited(order, i + 1) == Visited(order, i) + {order[i]}
    ensures order[i] !in Visited(order, i) && order[i] in m
  {
    var x := order[i];
    assert order[..i + 1] == order[..i] + [x];
    forall j | 0 <= j < i ensures order[..i][j] != x { }
    assert x !in order[..i];
    assert x in order;
    assert x in m;
    forall tid | tid in Visited(order, i + 1) ensures tid in Visited(order, i) + {x} {
      assert tid in order[..i] + [x];
    }
    forall tid | tid in Visited(order, i) + {x} ensures tid in Visited(order, i + 1) {
      assert tid in order[..i] + [x];
    }
  }

  /** Visiting all of an enumeration visits exactly the keys it enumerates. */
  lemma VisitedAll<V>(order: seq<int>, m: map<int, V>)
    requires Enumerates(order, m)
    ensures Visited(order, |order|) == m.Keys
  {
    assert order[..|order|] == order;
    forall tid | tid in m.Keys ensures tid in Visited(order, |order|) {
      assert tid in order;
    }
    forall tid | tid in Visited(order, |order|) ensures tid in m.Keys {
      assert tid in order;
    }
  }

  /** `order` lists the keys of `m`, each once. */
  ghost predicate Enumerates<V>(order: seq<int>, m: map<int, V>)
  {
    (forall tid :: tid in order <==> tid in m)
    && (forall i, j :: 0 <= i < j < |order| ==> order[i] != order[j])
  }

  // ---------------------------------------------------------------------------
  // Stopping tunnels that have no runner, on values

  /** What stopping needs of a managed process: whether its child runs, its run and its log path. */
  datatype Entry = Entry(running: bool, runId: int, logPath: Option<PM.Path>)

  /** The managed and detached registries, the runs, the kept log paths and the killed pids. */
  datatype StopView = StopView(managed: map<int, Entry>, detached: map<int, int>, runs: map<int, RunRow>,
                               logPaths: map<int, PM.Path>, killed: seq<int>)

  /** update_run_stopped: the run, if it exists, gets the stop time and the code. */
  function RunStopped(runs: map<int, RunRow>, runId: int, stoppedAt: string, code: Option<int>): map<int, RunRow>
  {
    if runId in runs then runs[runId := runs[runId].(stoppedAt := Some(stoppedAt), exitCode := code)] else runs
  }

  /** The wait in stop sees the managed process finish: its child was running and exits in time. */
  predicate Finishes(e: Entry, w: PM.StopWait)
  {
    e.running && PM.FinishesOnStop(w)
  }

  /**
   * _on_stop_tunnel for a tunnel without a runner, the runs' ids being 1..n. A managed
   * process is stopped; when the wait sees it finish, _on_managed_finished runs at once:
   * the process is dropped, its log path kept and its run recorded as stopped with its
   * code. Otherwise a detached process tree is killed, dropped and its latest run closed.
   */
  function StopStep(v: StopView, tid: int, w: PM.StopWait, n: int, stamp: string): (r: StopView)
    ensures r.managed.Keys <= v.managed.Keys && r.detached.Keys <= v.detached.Keys && v.killed <= r.killed
    ensures tid !in r.detached || tid in v.managed
  {
    if tid in v.managed then
      var e := v.managed[tid];
      if Finishes(e, w) then
        v.(managed := v.managed - {tid},
           logPaths := if e.logPath.Some? then v.logPaths[tid := e.logPath.value] else v.logPaths,
           runs := RunStopped(v.runs, e.runId, stamp, Some(w.code)))
      else v
    else if tid in v.detached then
      v.(detached := v.detached - {tid}, killed := v.killed + [v.detached[tid]],
         runs := CloseLatest(v.runs, n, {tid}, stamp, None))
    else v
  }

  /** The first `i` tunnels of `order` stopped one after another, each with its own wait. */
  function StopEach(v: StopView, order: seq<int>, i: nat, waits: int -> PM.StopWait, n: int, stamp: string): (r: StopView)
    requires i <= |order|
    ensures r.managed.Keys <= v.managed.Keys && r.detached.Keys <= v.detached.Keys && v.killed <= r.killed
  {
    if i == 0 then v
    else StopStep(StopEach(v, order, i - 1, waits, n, stamp), order[i - 1], waits(order[i - 1]), n, stamp)
  }

  /** The managed entries left once the tunnels in `stopped` have been stopped: those whose process did not finish. */
  ghost function ManagedLeft(m: map<int, Entry>, stopped: set<int>, waits: int -> PM.StopWait): map<int, Entry>
  {
    map tid | tid in m && !(tid in stopped && Finishes(m[tid], waits(tid))) :: m[tid]
  }

  /** The managed tunnel `tid`, among `stopped`, finished and leaves a log path behind. */
  ghost predicate LeavesLog(m: map<int, Entry>, stopped: set<int>, waits: int -> PM.StopWait, tid: int)
  {
    tid in stopped && tid in m && Finishes(m[tid], waits(tid)) && m[tid].logPath.Some?
  }

  /** The kept log paths once the tunnels in `stopped` have been stopped: each finished process's path is kept. */
  ghost function LogsKept(logs: map<int, PM.Path>, m: map<int, Entry>, stopped: set<int>, waits: int -> PM.StopWait)
    : map<int, PM.Path>
  {
    map tid | tid in logs.Keys + m.Keys && (tid in logs || LeavesLog(m, stopped, waits, tid)) ::
      if LeavesLog(m, stopped, waits, tid) then m[tid].logPath.value else logs[tid]
  }

  /** No two positions of `order` hold the same tunnel. */
  ghost predicate Distinct(order: seq<int>)
  {
    forall i, j :: 0 <= i < j < |order| ==> order[i] != order[j]
  }

  /**
   * Stopping the first `i` of a list of distinct tunnels: a managed process is dropped
   * exactly when it finished, a detached tunnel is killed and dropped exactly when no
   * managed process was registered for it, and each finished process's log path is kept.
   */
  lemma {:induction false} StopEachEffect(v: StopView, order: seq<int>, i: nat, waits: int -> PM.StopWait, n: int, stamp: string)
    requires Distinct(order) && i <= |order|
    ensures var r := StopEach(v, order, i, waits, n, stamp);
      r.managed == ManagedLeft(v.managed, Visited(order, i), waits)
      && r.detached == ShadowedAfter(order, i, v.detached, v.managed.Keys)
      && r.killed == v.killed + KilledOnExit(order[..i], v.managed.Keys, v.detached)
      && r.logPaths == LogsKept(v.logPaths, v.managed, Visited(order, i), waits)
  {
    if i == 0 {
      assert order[..0] == [];
      assert Visited(order, 0) == {};
      assert ManagedLeft(v.managed, {}, waits) == v.managed;
      assert LogsKept(v.logPaths, v.managed, {}, waits) == v.logPaths;
    } else {
      StopEachEffect(v, order, i - 1, waits, n, stamp);
      StopEachStep(v, order, i - 1, waits, n, stamp);
    }
  }

  /** One more tunnel of the list, given the effect of the ones before it. */
  lemma StopEachStep(v: StopView, order: seq<int>, i: nat, waits: int -> PM.StopWait, n: int, stamp: string)
    requires Distinct(order) && i < |order|
    requires var u := StopEach(v, order, i, waits, n, stamp);
      u.managed == ManagedLeft(v.managed, Visited(order, i), waits)
      && u.detached == ShadowedAfter(order, i, v.detached, v.managed.Keys)
      && u.killed == v.killed + KilledOnExit(order[..i], v.managed.Keys, v.detached)
      && u.logPaths == LogsKept(v.logPaths, v.managed, Visited(order, i), waits)
    ensures var r := StopEach(v, order, i + 1, waits, n, stamp);
      r.managed == ManagedLeft(v.managed, Visited(order, i + 1), waits)
      && r.detached == ShadowedAfter(order, i + 1, v.detached, v.managed.Keys)
      && r.killed == v.killed + KilledOnExit(order[..i + 1], v.managed.Keys, v.detached)
      && r.logPaths == LogsKept(v.logPaths, v.managed, Visited(order, i + 1), waits)
  {
    var tid := order[i];
    var u := StopEach(v, order, i, waits, n, stamp);
    var visited := Visited(order, i);
    NextVisited(order, i);
    StepManaged(v.managed, visited, tid, waits);
    StepLogs(v.logPaths, v.managed, visited, tid, waits);
    StepShadowed(order, i, v.detached, v.managed.Keys);
    StepKilled(order, i, v.managed.Keys, v.detached);
    assert StopEach(v, order, i + 1, waits, n, stamp) == StopStep(u, tid, waits(tid), n, stamp);
  }

  /** The next tunnel of a list of distinct tunnels has not been visited yet. */
  lemma NextVisited(order: seq<int>, i: nat)
    requires Distinct(order) && i < |order|
    ensures order[i] !in Visited(order, i) && order[i] !in order[..i]
    ensures Visited(order, i + 1) == Visited(order, i) + {order[i]}
  {
    var tid := order[i];
    assert tid !in order[..i] by {
      forall j | 0 <= j < i ensures order[..i][j] != tid { }
    }
    assert order[..i + 1] == order[..i] + [tid];
    forall t ensures t in Visited(order, i + 1) <==> t in Visited(order, i) + {tid} {
      assert t in order[..i + 1] <==> t in order[..i] || t == tid;
    }
  }

  /** Stopping one more managed tunnel drops its entry exactly when its process finishes. */
  lemma StepManaged(m: map<int, Entry>, visited: set<int>, tid: int, waits: int -> PM.StopWait)
    requires tid !in visited
    ensures var u := ManagedLeft(m, visited, waits);
      (tid in u <==> tid in m) && (tid in u ==> u[tid] == m[tid])
      && ManagedLeft(m, visited + {tid}, waits) == if tid in u && Finishes(u[tid], waits(tid)) then u - {tid} else u
  {
  }

  /** Stopping one more managed tunnel keeps its log path exactly when its process finishes. */
  lemma StepLogs(logs: map<int, PM.Path>, m: map<int, Entry>, visited: set<int>, tid: int, waits: int -> PM.StopWait)
    requires tid !in visited
    ensures var u := LogsKept(logs, m, visited, waits);
      LogsKept(logs, m, visited + {tid}, waits)
        == if tid in m && Finishes(m[tid], waits(tid)) && m[tid].logPath.Some? then u[tid := m[tid].logPath.value] else u
  {
  }

  /** Visiting one more detached tunnel drops it unless a managed process shadows it. */
  lemma StepShadowed(order: seq<int>, i: nat, d: map<int, int>, managed: set<int>)
    requires Distinct(order) && i < |order|
    ensures var u := ShadowedAfter(order, i, d, managed);
      (order[i] in u <==> order[i] in d) && (order[i] in u ==> u[order[i]] == d[order[i]])
      && ShadowedAfter(order, i + 1, d, managed) == if order[i] in d && order[i] !in managed then u - {order[i]} else u
  {
    NextVisited(order, i);
    assert forall t :: t in order[..i + 1] <==> t in order[..i] || t == order[i] by {
      assert order[..i + 1] == order[..i] + [order[i]];
    }
  }

  /** Visiting one more detached tunnel kills it unless a managed process shadows it. */
  lemma StepKilled(order: seq<int>, i: nat, managed: set<int>, d: map<int, int>)
    requires i < |order|
    ensures KilledOnExit(order[..i + 1], managed, d)
         == KilledOnExit(order[..i], managed, d) + (if order[i] !in managed && order[i] in d then [d[order[i]]] else [])
  {
    assert order[..i + 1][..i] == order[..i];
  }

  /**
   * Stopping the first `i` of a list of distinct tunnels when none of their managed
   * processes finishes: the latest run of each killed detached tunnel is closed, no other.
   */
  lemma {:induction false} StopEachLedger(v: StopView, order: seq<int>, i: nat, waits: int -> PM.StopWait, n: int, stamp: string)
    requires Distinct(order) && i <= |order|
    requires forall k :: 0 <= k < i && order[k] in v.managed ==> !Finishes(v.managed[order[k]], waits(order[k]))
    ensures StopEach(v, order, i, waits, n, stamp).runs
         == CloseLatest(v.runs, n, (Visited(order, i) * v.detached.Keys) - v.managed.Keys, stamp, None)
  {
    if i == 0 {
      assert Visited(order, 0) == {};
      CloseLatestNone(v.runs, n, stamp, None);
    } else {
      StopEachLedger(v, order, i - 1, waits, n, stamp);
      StopEachEffect(v, order, i - 1, waits, n, stamp);
      LedgerStep(v, order, i - 1, waits, n, stamp);
    }
  }

  /** One more tunnel for StopEachLedger. */
  lemma LedgerStep(v: StopView, order: seq<int>, i: nat, waits: int -> PM.StopWait, n: int, stamp: string)
    requires Distinct(order) && i < |order|
    requires order[i] in v.managed ==> !Finishes(v.managed[order[i]], waits(order[i]))
    requires var u := StopEach(v, order, i, waits, n, stamp);
      u.managed == ManagedLeft(v.managed, Visited(order, i), waits)
      && u.detached == ShadowedAfter(order, i, v.detached, v.managed.Keys)
      && u.runs == CloseLatest(v.runs, n, (Visited(order, i) * v.detached.Keys) - v.managed.Keys, stamp, None)
    ensures StopEach(v, order, i + 1, waits, n, stamp).runs
         == CloseLatest(v.runs, n, (Visited(order, i + 1) * v.detached.Keys) - v.managed.Keys, stamp, None)
  {
    var tid := order[i];
    var u := StopEach(v, order, i, waits, n, stamp);
    var before := (Visited(order, i) * v.detached.Keys) - v.managed.Keys;
    NextVisited(order, i);
    StepManaged(v.managed, Visited(order, i), tid, waits);
    StepShadowed(order, i, v.detached, v.managed.Keys);
    assert StopEach(v, order, i + 1, waits, n, stamp) == StopStep(u, tid, waits(tid), n, stamp);
    if tid !in v.managed && tid in v.detached {
      assert (Visited(order, i + 1) * v.detached.Keys) - v.managed.Keys == before + {tid};
      CloseLatestUnion(v.runs, n, before, {tid}, stamp, None);
    } else {
      assert (Visited(order, i + 1) * v.detached.Keys) - v.managed.Keys == before;
    }
  }

  /**
   * The second and third loops of an exit on values, the runs' ids being 1..n: every
   * managed tunnel is stopped with its wait in `waits2`, then every detached one with
   * its wait in `waits3`.
   */
  function ExitOutside(v: StopView, managedOrder: seq<int>, detachedOrder: seq<int>,
                       waits2: int -> PM.StopWait, waits3: int -> PM.StopWait, n: int, stamp: string): (r: StopView)
    ensures r.managed.Keys <= v.managed.Keys && r.detached.Keys <= v.detached.Keys && v.killed <= r.killed
  {
    var v2 := StopEach(v, managedOrder, |managedOrder|, waits2, n, stamp);
    StopEach(v2, detachedOrder, |detachedOrder|, waits3, n, stamp)
  }

  /**
   * What the exit's second and third loops leave. The managed processes left after the
   * second loop are those that did not finish in its wait; a detached tunnel is killed,
   * dropped and its latest run closed exactly when none of those shadows it; a shadowing
   * process is stopped once more; each finished process's log path is kept. When no
   * managed process finishes, the runs closed are exactly those of the killed tunnels.
   */
  lemma ExitOutsideEffect(v: StopView, managedOrder: seq<int>, detachedOrder: seq<int>,
                          waits2: int -> PM.StopWait, waits3: int -> PM.StopWait, n: int, stamp: string)
    requires Enumerates(managedOrder, v.managed) && Enumerates(detachedOrder, v.detached)
    ensures var r := ExitOutside(v, managedOrder, detachedOrder, waits2, waits3, n, stamp);
      var left := ManagedLeft(v.managed, v.managed.Keys, waits2);
      r.managed == ManagedLeft(left, v.detached.Keys, waits3)
      && r.detached == (map tid | tid in v.detached && tid in left :: v.detached[tid])
      && r.killed == v.killed + KilledOnExit(detachedOrder, left.Keys, v.detached)
      && r.logPaths == LogsKept(LogsKept(v.logPaths, v.managed, v.managed.Keys, waits2), left, v.detached.Keys, waits3)
    ensures (forall tid :: tid in v.managed ==> !Finishes(v.managed[tid], waits2(tid)) && !Finishes(v.managed[tid], waits3(tid))) ==>
      ExitOutside(v, managedOrder, detachedOrder, waits2, waits3, n, stamp).runs
        == CloseLatest(v.runs, n, v.detached.Keys - v.managed.Keys, stamp, None)
  {
    var v2 := StopEach(v, managedOrder, |managedOrder|, waits2, n, stamp);
    ManagedRound(v, managedOrder, waits2, n, stamp);
    DetachedRound(v2, detachedOrder, waits3, n, stamp);
    if forall tid :: tid in v.managed ==> !Finishes(v.managed[tid], waits2(tid)) && !Finishes(v.managed[tid], waits3(tid)) {
      assert v2.managed == v.managed;
    }
  }

  /** The exit's second loop: every managed tunnel stopped; nothing detached is touched. */
  lemma ManagedRound(v: StopView, order: seq<int>, waits: int -> PM.StopWait, n: int, stamp: string)
    requires Enumerates(order, v.managed)
    ensures var r := StopEach(v, order, |order|, waits, n, stamp);
      r.managed == ManagedLeft(v.managed, v.managed.Keys, waits)
      && r.detached == v.detached && r.killed == v.killed
      && r.logPaths == LogsKept(v.logPaths, v.managed, v.managed.Keys, waits)
    ensures (forall tid :: tid in v.managed ==> !Finishes(v.managed[tid], waits(tid))) ==>
      StopEach(v, order, |order|, waits, n, stamp).runs == v.runs
      && ManagedLeft(v.managed, v.managed.Keys, waits) == v.managed
  {
    var r := StopEach(v, order, |order|, waits, n, stamp);
    StopEachEffect(v, order, |order|, waits, n, stamp);
    VisitedAll(order, v.managed);
    assert order[..|order|] == order;
    assert r.detached == v.detached by {
      assert forall tid :: tid in v.detached ==> tid in v.managed || tid !in order;
    }
    NoneKilled(order, v.managed.Keys, v.detached);
    if forall tid :: tid in v.managed ==> !Finishes(v.managed[tid], waits(tid)) {
      ManagedRoundQuiet(v, order, waits, n, stamp);
    }
  }

  /** The exit's second loop when no managed process finishes: no run changes. */
  lemma ManagedRoundQuiet(v: StopView, order: seq<int>, waits: int -> PM.StopWait, n: int, stamp: string)
    requires Enumerates(order, v.managed)
    requires forall tid :: tid in v.managed ==> !Finishes(v.managed[tid], waits(tid))
    ensures StopEach(v, order, |order|, waits, n, stamp).runs == v.runs
  {
    assert forall k :: 0 <= k < |order| && order[k] in v.managed ==> !Finishes(v.managed[order[k]], waits(order[k])) by {
      forall k | 0 <= k < |order| && order[k] in v.managed
        ensures !Finishes(v.managed[order[k]], waits(order[k]))
      {
        var tid := order[k];
      }
    }
    StopEachLedger(v, order, |order|, waits, n, stamp);
    VisitedAll(order, v.managed);
    assert (Visited(order, |order|) * v.detached.Keys) - v.managed.Keys == {};
    CloseLatestNone(v.runs, n, stamp, None);
  }

  /** Tunnels that all have a managed process kill nothing. */
  lemma {:induction false} NoneKilled(order: seq<int>, managed: set<int>, d: map<int, int>)
    requires forall tid :: tid in order ==> tid in managed
    ensures KilledOnExit(order, managed, d) == []
  {
    if order != [] {
      assert order[|order| - 1] in order;
      assert forall tid :: tid in order[..|order| - 1] ==> tid in order;
      NoneKilled(order[..|order| - 1], managed, d);
    }
  }

  /** The exit's third loop: every detached tunnel stopped, through its managed process if one shadows it. */
  lemma DetachedRound(v: StopView, order: seq<int>, waits: int -> PM.StopWait, n: int, stamp: string)
    requires Enumerates(order, v.detached)
    ensures var r := StopEach(v, order, |order|, waits, n, stamp);
      r.managed == ManagedLeft(v.managed, v.detached.Keys, waits)
      && r.detached == (map tid | tid in v.detached && tid in v.managed :: v.detached[tid])
      && r.killed == v.killed + KilledOnExit(order, v.managed.Keys, v.detached)
      && r.logPaths == LogsKept(v.logPaths, v.managed, v.detached.Keys, waits)
    ensures (forall tid :: tid in v.managed ==> !Finishes(v.managed[tid], waits(tid))) ==>
      StopEach(v, order, |order|, waits, n, stamp).runs == CloseLatest(v.runs, n, v.detached.Keys - v.managed.Keys, stamp, None)
  {
    StopEachEffect(v, order, |order|, waits, n, stamp);
    VisitedAll(order, v.detached);
    ShadowedAll(order, v.detached, v.managed.Keys);
    assert order[..|order|] == order;
    if forall tid :: tid in v.managed ==> !Finishes(v.managed[tid], waits(tid)) {
      StopEachLedger(v, order, |order|, waits, n, stamp);
      assert (Visited(order, |order|) * v.detached.Keys) - v.managed.Keys == v.detached.Keys - v.managed.Keys;
    }
  }

  // ---------------------------------------------------------------------------
  // The supervisor

  class Supervisor {
    const store: Store
    const disk: PM.Disk
    var currentHost: Option<Host>
    var runners: map<int, SR.Runner>
    var managed: map<int, PM.ManagedProcess>
    var detached: map<int, int>
    var logPaths: map<int, PM.Path>
    var background: map<int, bool>
    var notices: seq<Notice>
    /** The pids handed to kill_process_tree. */
    var killed: seq<int>

    /** The ledger is well formed, every managed process is consistent and registered under its own tunnel. */
    ghost predicate Valid()
      reads this, store, managed.Values
    {
      store.Valid() && (forall p :: p in managed.Values ==> p.Valid())
      && forall tid :: tid in managed ==> managed[tid].tunnelId == tid
    }

    function Registry(): Registries
      reads this
    {
      Registries(runners, managed, detached, logPaths, background)
    }

    /** The managed registry as values. */
    ghost function Entries(): map<int, Entry>
      reads this, managed.Values
    {
      map tid | tid in managed :: Entry(managed[tid].IsRunning(), managed[tid].runId, managed[tid].logPath)
    }

    /** Everything stopping a tunnel without a runner reads and changes, as one value. */
    ghost function View(): StopView
      reads this, store, managed.Values
    {
      StopView(Entries(), detached, store.runs, logPaths, killed)
    }

    /** The tunnel and its host, when both exist. */
    function Lookup(tid: int): (r: Option<(Host, Tunnel)>)
      reads this, store
      ensures r.Some? <==> store.GetTunnel(tid).Some? && store.GetHost(store.GetTunnel(tid).value.hostId).Some?
      ensures r.Some? ==> r.value.1 == store.GetTunnel(tid).value && r.value.0 == store.GetHost(r.value.1.hostId).value
    {
      match store.GetTunnel(tid)
      case None => None
      case Some(t) =>
        match store.GetHost(t.hostId)
        case None => None
        case Some(h) => Some((h, t))
    }

    /** `_run_in_background.get(tid, False)`. */
    function InBackground(tid: int): bool
      reads this
    {
      tid in background && background[tid]
    }

    /** A new window: nothing registered, no host selected. */
    constructor (store: Store, disk: PM.Disk)
      requires store.Valid()
      ensures this.store == store && this.disk == disk && Valid()
      ensures currentHost == None && runners == map[] && managed == map[] && detached == map[]
      ensures logPaths == map[] && background == map[] && notices == [] && killed == []
    {
      this.store := store;
      this.disk := disk;
      currentHost := None;
      runners, managed, detached := map[], map[], map[];
      logPaths, background := map[], map[];
      notices, killed := [], [];
    }

    /** A host is selected in the list (or none is): the current host is read from the database. */
    method SelectHost(hostId: Option<int>)
      modifies this
      ensures currentHost == (if hostId.None? then None else store.GetHost(hostId.value))
      ensures hostId.Some? ==> (currentHost.Some? <==> hostId.value in store.hosts)
      ensures Registry() == old(Registry()) && notices == old(notices) && killed == old(killed)
    {
      if hostId.None? {
        currentHost := None;
      } else {
        currentHost := store.GetHost(hostId.value);
      }
    }

    /** The per-tunnel background toggle. */
    method SetRunInBackground(tid: int, value: bool)
      modifies this
      ensures InBackground(tid) == value
      ensures forall other :: other != tid ==> InBackground(other) == old(InBackground(other))
      ensures background == old(background)[tid := value]
      ensures runners == old(runners) && managed == old(managed) && detached == old(detached) && logPaths == old(logPaths)
      ensures currentHost == old(currentHost) && notices == old(notices) && killed == old(killed)
    {
      background := background[tid := value];
    }

    /**
     * _on_start_tunnel. Nothing happens for a missing tunnel or host or a cancelled password
     * dialog; an empty password and a missing ssh client (needed unless the tunnel is local
     * and in the foreground) only warn. Otherwise the tunnel runs in process, detached or
     * managed; an unknown tunnel type's error escapes.
     */
    method StartTunnel(tid: int, password: Option<string>, sshPath: Option<string>, utcNow: string, env: Env)
      returns (r: Result<()>)
      requires Valid()
      modifies this, store, disk
      ensures Valid()
      ensures old(Lookup(tid)).None? || password.None? ==>
        r == Ok(()) && Registry() == old(Registry()) && notices == old(notices)
        && unchanged(store) && unchanged(disk)
      ensures old(Lookup(tid)).Some? && password == Some([]) ==>
        r == Ok(()) && Registry() == old(Registry()) && notices == old(notices) + [PasswordRequired]
        && unchanged(store) && unchanged(disk)
      ensures var lt := old(Lookup(tid));
        lt.Some? && PM.Given(password) && NeedsSsh(lt.value.1, old(InBackground(tid))) && !Found(sshPath) ==>
          r == Ok(()) && Registry() == old(Registry()) && notices == old(notices) + [SetupNeeded]
          && unchanged(store) && unchanged(disk)
      ensures var lt := old(Lookup(tid));
        lt.Some? && PM.Given(password) && BackendFor(lt.value.1, old(InBackground(tid))) == InProcess ==>
          r == Ok(()) && managed == old(managed) && detached == old(detached) && notices == old(notices)
          && (tid in runners <==> env.libraryInstalled)
          && store.runSeq == old(store.runSeq) + 1 && store.runSeq in store.runs && store.runs[store.runSeq].mode == "managed"
      ensures var lt := old(Lookup(tid));
        lt.Some? && PM.Given(password) && Found(sshPath) && BackendFor(lt.value.1, old(InBackground(tid))) == Background ==>
          runners == old(runners) && managed == old(managed)
          && (DetachedWorks(lt.value.0, lt.value.1, sshPath, env) ==>
                r == Ok(()) && detached == old(detached)[tid := env.spawn.pid]
                && store.runSeq == old(store.runSeq) + 1 && store.runSeq in store.runs && store.runs[store.runSeq].mode == "detached")
          && (!DetachedWorks(lt.value.0, lt.value.1, sshPath, env) ==>
                detached == old(detached) && store.runs == old(store.runs))
      ensures var lt := old(Lookup(tid));
        lt.Some? && PM.Given(password) && Found(sshPath) && BackendFor(lt.value.1, old(InBackground(tid))) == Managed ==>
          runners == old(runners) && detached == old(detached) && notices == old(notices)
          && store.runSeq == old(store.runSeq) + 1 && store.runSeq in store.runs && store.runs[store.runSeq].mode == "managed"
          && (tid in managed <==> ManagedWorks(lt.value.0, lt.value.1, sshPath, env) || r.Raised?)
      ensures store.hosts == old(store.hosts) && store.tunnels == old(store.tunnels)
      ensures background == old(background) && currentHost == old(currentHost) && killed == old(killed)
    {
      var lt := Lookup(tid);
      if lt.None? || password.None? {
        return Ok(());
      }
      var h, t := lt.value.0, lt.value.1;
      if password.value == [] {
        notices := notices + [PasswordRequired];
        return Ok(());
      }
      var bg := InBackground(tid);
      if NeedsSsh(t, bg) && !Found(sshPath) {
        notices := notices + [SetupNeeded];
        return Ok(());
      }
      if t.tunnelType == Local && !bg {
        StartInProcess(tid, h, t, password.value, utcNow, env.libraryInstalled);
        r := Ok(());
      } else if bg {
        r := StartInBackground(tid, h, t, password.value, sshPath, utcNow, env);
      } else {
        r := StartManaged(tid, h, t, password.value, sshPath, utcNow, env);
      }
    }

    /**
     * _start_local_tunnel_sshtunnel: a run is recorded, a runner registered and started; a
     * runner that does not start (the library is missing) is dropped again.
     */
    method StartInProcess(tid: int, h: Host, t: Tunnel, password: string, utcNow: string, libraryInstalled: bool)
      requires Valid() && t.tunnelType == Local
      modifies this, store
      ensures Valid()
      ensures store.runSeq == old(store.runSeq) + 1
      ensures store.runs == old(store.runs)[store.runSeq := RunValues(NewRun(tid, Stamp(utcNow), None, "managed", None))]
      ensures store.hosts == old(store.hosts) && store.tunnels == old(store.tunnels)
      ensures libraryInstalled ==>
        tid in runners && fresh(runners[tid]) && runners == old(runners)[tid := runners[tid]]
        && runners[tid].tunnelId == tid && runners[tid].host == h && runners[tid].tunnel == t
        && runners[tid].worker == Some(SR.Config(h, t, password)) && !runners[tid].IsRunning()
      ensures !libraryInstalled ==> runners == old(runners) - {tid}
      ensures managed == old(managed) && detached == old(detached) && logPaths == old(logPaths) && background == old(background)
      ensures currentHost == old(currentHost) && notices == old(notices) && killed == old(killed)
    {
      var runId := store.InsertRun(NewRun(tid, Stamp(utcNow), None, "managed", None));
      var runner := new SR.Runner(tid, h, t);
      runners := runners[tid := runner];
      var ok := runner.Start(password, libraryInstalled);
      if !ok {
        runners := runners - {tid};
      }
    }

    /**
     * The detached branch of _on_start_tunnel: a start that reports an error only warns;
     * otherwise a detached run is recorded with the pid and log path, and the pid registered.
     */
    method StartInBackground(tid: int, h: Host, t: Tunnel, password: string, sshPath: Option<string>, utcNow: string, env: Env)
      returns (r: Result<()>)
      requires Valid() && Found(sshPath) && password != []
      modifies this, store, disk
      ensures Valid()
      ensures var cmd := SshBuilder.BuildFullCommand(sshPath, h, t);
        cmd.Raised? ==> r == Raised(cmd.exc) && notices == old(notices) && disk.files == old(disk.files)
      ensures var cmd := SshBuilder.BuildFullCommand(sshPath, h, t);
        cmd.Ok? && !env.openOk ==>
          r == Ok(()) && notices == old(notices) + [StartFailed("Failed to open log file: " + env.openError)]
          && disk.files == old(disk.files)
      ensures var cmd := SshBuilder.BuildFullCommand(sshPath, h, t);
        var log := PM.LogPathForTunnel(env.logsDir, tid, env.clock);
        cmd.Ok? && env.openOk && !env.spawn.Spawned? ==>
          r == Ok(()) && notices == old(notices) + [StartFailed(env.spawn.error)]
          && disk.files == PM.WithPassword(old(disk.files)[log := []], env.tempDir, Some(password), env.passWriteOk) - {log}
      ensures !DetachedWorks(h, t, sshPath, env) ==>
        detached == old(detached) && logPaths == old(logPaths)
        && store.runs == old(store.runs) && store.runSeq == old(store.runSeq)
      ensures var log := PM.LogPathForTunnel(env.logsDir, tid, env.clock);
        DetachedWorks(h, t, sshPath, env) ==>
          r == Ok(()) && notices == old(notices)
          && detached == old(detached)[tid := env.spawn.pid] && logPaths == old(logPaths)[tid := log]
          && store.runSeq == old(store.runSeq) + 1
          && store.runs == old(store.runs)[store.runSeq :=
               RunValues(NewRun(tid, Stamp(utcNow), Some(env.spawn.pid), "detached", Some(PathText(log))))]
          && disk.files == PM.WithPassword(old(disk.files)[log := []], env.tempDir, Some(password), env.passWriteOk)
                             [log := "Started detached PID " + IntToString(env.spawn.pid) + "\n"]
      ensures store.hosts == old(store.hosts) && store.tunnels == old(store.tunnels)
      ensures runners == old(runners) && managed == old(managed) && background == old(background)
      ensures currentHost == old(currentHost) && killed == old(killed)
    {
      var res := SpawnDetached(tid, h, t, password, sshPath, disk, env);
      if res.Raised? {
        return Raised(res.exc);
      }
      var d := res.value;
      if d.error.Some? && d.error.value != [] {
        notices := notices + [StartFailed(d.error.value)];
        return Ok(());
      }
      RecordDetached(tid, d.pid.value, d.logPath, utcNow);
      return Ok(());
    }

    /** A spawned detached child gets a run row, a registry entry and, if it has one, its log path. */
    method RecordDetached(tid: int, pid: int, logPath: Option<PM.Path>, utcNow: string)
      requires Valid()
      modifies this, store
      ensures Valid()
      ensures store.runSeq == old(store.runSeq) + 1
      ensures store.runs == old(store.runs)[store.runSeq :=
                RunValues(NewRun(tid, Stamp(utcNow), Some(pid), "detached",
                                 if logPath.Some? then Some(PathText(logPath.value)) else None))]
      ensures store.hosts == old(store.hosts) && store.tunnels == old(store.tunnels)
      ensures detached == old(detached)[tid := pid]
      ensures logPaths == if logPath.Some? then old(logPaths)[tid := logPath.value] else old(logPaths)
      ensures runners == old(runners) && managed == old(managed) && background == old(background)
      ensures currentHost == old(currentHost) && notices == old(notices) && killed == old(killed)
    {
      var runId := store.InsertRun(NewRun(tid, Stamp(utcNow), Some(pid), "detached",
                                          if logPath.Some? then Some(PathText(logPath.value)) else None));
      detached := detached[tid := pid];
      if logPath.Some? {
        logPaths := logPaths[tid := logPath.value];
      }
    }

    /**
     * The managed branch of _on_start_tunnel: a run is recorded and a managed process
     * registered under a provisional log path; a started process's own log path replaces it
     * and is stored with the run; a process that does not start is dropped again.
     */
    method StartManaged(tid: int, h: Host, t: Tunnel, password: string, sshPath: Option<string>, utcNow: string, env: Env)
      returns (r: Result<()>)
      requires Valid() && Found(sshPath)
      modifies this, store, disk
      ensures Valid()
      ensures store.runSeq == old(store.runSeq) + 1
      ensures store.hosts == old(store.hosts) && store.tunnels == old(store.tunnels)
      ensures tid in managed ==>
        fresh(managed[tid]) && managed == old(managed)[tid := managed[tid]]
        && managed[tid].tunnelId == tid && managed[tid].host == h && managed[tid].tunnel == t
        && managed[tid].runId == store.runSeq
      ensures var cmd := SshBuilder.BuildFullCommand(sshPath, h, t);
        var log := PM.LogPathForTunnel(env.logsDir, tid, env.clock);
        var run := NewRun(tid, Stamp(utcNow), None, "managed", None);
        (ManagedWorks(h, t, sshPath, env) ==>
           r == Ok(()) && tid in managed && managed[tid].IsRunning() && logPaths == old(logPaths)[tid := log]
           && store.runs == old(store.runs)[store.runSeq := RunValues(run.(logPath := Some(PathText(log))))])
        && (cmd.Raised? ==>
              r == Raised(cmd.exc) && tid in managed && !managed[tid].IsRunning()
              && logPaths == old(logPaths)[tid := PM.LogPathForTunnel(env.logsDir, tid, env.clockBefore)]
              && store.runs == old(store.runs)[store.runSeq := RunValues(run)])
        && (cmd.Ok? && !ManagedWorks(h, t, sshPath, env) ==>
              r == Ok(()) && managed == old(managed) - {tid}
              && logPaths == old(logPaths)[tid := PM.LogPathForTunnel(env.logsDir, tid, env.clockBefore)]
              && store.runs == old(store.runs)[store.runSeq := RunValues(run)])
      ensures var cmd := SshBuilder.BuildFullCommand(sshPath, h, t);
        var log := PM.LogPathForTunnel(env.logsDir, tid, env.clock);
        (cmd.Raised? || !env.openOk ==> disk.files == old(disk.files))
        && (cmd.Ok? && env.openOk ==>
              disk.files == PM.WithPassword(old(disk.files)[log := []], env.tempDir, Some(password), env.passWriteOk)
                              [log := PM.LaunchLog(env.launched, env.pid, env.errorString, env.lineWriteOk)])
      ensures runners == old(runners) && detached == old(detached) && background == old(background)
      ensures currentHost == old(currentHost) && notices == old(notices) && killed == old(killed)
    {
      ghost var runs0, paths0, procs0 := store.runs, logPaths, managed;
      var proc := RegisterManaged(tid, h, t, utcNow, env);
      ghost var runs1, paths1 := store.runs, logPaths;
      r := LaunchManaged(tid, proc, password, sshPath, env);
      UpdatedTwice(runs0, store.runSeq, runs1[store.runSeq], store.runs[store.runSeq]);
      UpdatedTwice(paths0, tid, paths1[tid], logPaths[tid]);
      UpdatedThenRemoved(procs0, tid, proc);
    }

    /** The managed branch up to the start: the run is recorded and the process registered under a provisional log path. */
    method RegisterManaged(tid: int, h: Host, t: Tunnel, utcNow: string, env: Env) returns (proc: PM.ManagedProcess)
      requires Valid()
      modifies this, store
      ensures Valid() && fresh(proc)
      ensures proc.Valid() && proc.process.None? && proc.logPath.None? && !proc.logOpen
      ensures proc.tunnelId == tid && proc.host == h && proc.tunnel == t && proc.runId == store.runSeq
      ensures store.runSeq == old(store.runSeq) + 1
      ensures store.runs == old(store.runs)[store.runSeq := RunValues(NewRun(tid, Stamp(utcNow), None, "managed", None))]
      ensures store.hosts == old(store.hosts) && store.tunnels == old(store.tunnels)
      ensures managed == old(managed)[tid := proc]
      ensures logPaths == old(logPaths)[tid := PM.LogPathForTunnel(env.logsDir, tid, env.clockBefore)]
      ensures runners == old(runners) && detached == old(detached) && background == old(background)
      ensures currentHost == old(currentHost) && notices == old(notices) && killed == old(killed)
    {
      var runId := store.InsertRun(NewRun(tid, Stamp(utcNow), None, "managed", None));
      proc := new PM.ManagedProcess(tid, h, t, runId);
      managed := managed[tid := proc];
      logPaths := logPaths[tid := PM.LogPathForTunnel(env.logsDir, tid, env.clockBefore)];
    }

    /**
     * The managed branch after the start: a started process's own log path replaces the
     * provisional one and is stored with its run; a process that did not start is dropped.
     */
    method SettleManaged(tid: int, proc: PM.ManagedProcess, started: Result<bool>) returns (r: Result<()>)
      requires Valid() && tid in managed && managed[tid] == proc
      modifies this, store
      ensures Valid()
      ensures started.Raised? ==>
        r == Raised(started.exc) && managed == old(managed) && logPaths == old(logPaths) && store.runs == old(store.runs)
      ensures started == Ok(true) && proc.logPath.Some? ==>
        r == Ok(()) && managed == old(managed) && logPaths == old(logPaths)[tid := proc.logPath.value]
        && (proc.runId in old(store.runs) ==>
              store.runs == old(store.runs)[proc.runId := old(store.runs)[proc.runId].(logPath := Some(PathText(proc.logPath.value)))])
        && (proc.runId !in old(store.runs) ==> store.runs == old(store.runs))
      ensures started == Ok(true) && proc.logPath.None? ==>
        r == Ok(()) && managed == old(managed) && logPaths == old(logPaths) && store.runs == old(store.runs)
      ensures started == Ok(false) ==>
        r == Ok(()) && managed == old(managed) - {tid} && logPaths == old(logPaths) && store.runs == old(store.runs)
      ensures store.hosts == old(store.hosts) && store.tunnels == old(store.tunnels) && store.runSeq == old(store.runSeq)
      ensures runners == old(runners) && detached == old(detached) && background == old(background)
      ensures currentHost == old(currentHost) && notices == old(notices) && killed == old(killed)
    {
      if started.Raised? {
        return Raised(started.exc);
      }
      if started.value {
        if proc.logPath.Some? {
          logPaths := logPaths[tid := proc.logPath.value];
          store.UpdateRunLogPath(proc.runId, PathText(proc.logPath.value));
        }
      } else {
        managed := managed - {tid};
      }
      return Ok(());
    }

    /** The managed branch from the start on: the process is started, then settled. */
    method LaunchManaged(tid: int, proc: PM.ManagedProcess, password: string, sshPath: Option<string>, env: Env)
      returns (r: Result<()>)
      requires Valid() && tid in managed && managed[tid] == proc && Found(sshPath)
      requires proc.process.None? && proc.logPath.None? && !proc.logOpen && proc.runId in store.runs
      modifies this, store, proc, disk
      ensures Valid()
      ensures var cmd := SshBuilder.BuildFullCommand(sshPath, proc.host, proc.tunnel);
        var log := PM.LogPathForTunnel(env.logsDir, proc.tunnelId, env.clock);
        var works := ManagedWorks(proc.host, proc.tunnel, sshPath, env);
        (works ==>
           r == Ok(()) && managed == old(managed) && proc.IsRunning() && logPaths == old(logPaths)[tid := log]
           && store.runs == old(store.runs)[proc.runId := old(store.runs)[proc.runId].(logPath := Some(PathText(log)))])
        && (cmd.Raised? ==>
              r == Raised(cmd.exc) && managed == old(managed) && !proc.IsRunning()
              && logPaths == old(logPaths) && store.runs == old(store.runs))
        && (cmd.Ok? && !works ==>
              r == Ok(()) && managed == old(managed) - {tid} && logPaths == old(logPaths) && store.runs == old(store.runs))
        && (cmd.Raised? || !env.openOk ==> disk.files == old(disk.files))
        && (cmd.Ok? && env.openOk ==>
              disk.files == PM.WithPassword(old(disk.files)[log := []], env.tempDir, Some(password), env.passWriteOk)
                              [log := PM.LaunchLog(env.launched, env.pid, env.errorString, env.lineWriteOk)])
      ensures store.hosts == old(store.hosts) && store.tunnels == old(store.tunnels) && store.runSeq == old(store.runSeq)
      ensures runners == old(runners) && detached == old(detached) && background == old(background)
      ensures currentHost == old(currentHost) && notices == old(notices) && killed == old(killed)
    {
      var started := StartProcess(proc, password, sshPath, disk, env);
      r := SettleManaged(tid, proc, started);
    }

    /** Closes the latest run of the tunnel, if it has one. */
    method CloseLatestRun(tid: int, stoppedAt: string, code: Option<int>)
      requires store.Valid()
      modifies store
      ensures store.Valid()
      ensures store.runs == CloseLatest(old(store.runs), store.runSeq, {tid}, stoppedAt, code)
      ensures store.hosts == old(store.hosts) && store.tunnels == old(store.tunnels)
      ensures store.hostSeq == old(store.hostSeq) && store.tunnelSeq == old(store.tunnelSeq) && store.runSeq == old(store.runSeq)
    {
      CloseLatestSingle(store.runs, store.runSeq, tid, stoppedAt, code);
      var run := store.GetLatestRun(tid);
      if run.Some? {
        store.UpdateRunStopped(run.value.id.value, stoppedAt, code);
      }
    }

    /** An in-process runner is registered for the tunnel and its forwarder is active. */
    predicate RunnerLive(tid: int)
      reads this, runners.Values
    {
      tid in runners && runners[tid].IsRunning()
    }

    /** A managed process is registered for the tunnel and its child is running. */
    predicate ManagedLive(tid: int)
      reads this, managed.Values
    {
      tid in managed && managed[tid].IsRunning()
    }

    /**
     * _get_tunnel_status: a live runner, then a live managed process, then a tracked
     * detached pid decide the status; only an untracked tunnel shows its last run's failure.
     */
    function TunnelStatus(tid: int, alive: int -> bool): (s: Status)
      reads this, store, runners.Values, managed.Values
      requires store.Valid()
      ensures s.kind == Running <==> RunnerLive(tid) || ManagedLive(tid) || (tid in detached && alive(detached[tid]))
      ensures s.kind == Error <==>
        !RunnerLive(tid) && !ManagedLive(tid) && tid !in detached && FailedExit(store.GetLatestRun(tid)).Some?
      ensures RunnerLive(tid) ==> s.text == "Running"
      ensures !RunnerLive(tid) && ManagedLive(tid) ==>
        s.text == "Running (PID " + IntToString(managed[tid].Pid().value) + ")"
      ensures !RunnerLive(tid) && !ManagedLive(tid) && tid in detached && alive(detached[tid]) ==>
        s.text == "Running (PID " + IntToString(detached[tid]) + ")"
      ensures s.kind == Error ==> s.text == "Exit " + IntToString(FailedExit(store.GetLatestRun(tid)).value)
      ensures s.kind == Stopped ==> s.text == "Stopped"
    {
      if RunnerLive(tid) then Status("Running", Running)
      else if ManagedLive(tid) then Status("Running (PID " + IntToString(managed[tid].Pid().value) + ")", Running)
      else if tid in detached then
        if alive(detached[tid]) then Status("Running (PID " + IntToString(detached[tid]) + ")", Running)
        else Status("Stopped", Stopped)
      else
        match FailedExit(store.GetLatestRun(tid))
        case Some(code) => Status("Exit " + IntToString(code), Error)
        case None => Status("Stopped", Stopped)
    }

    /**
     * _on_stop_tunnel: the first registry holding the tunnel decides. A runner is stopped and
     * dropped and the latest run closed. A managed process is asked to stop, and when the
     * wait sees it finish its finished event is handled at once. A detached process tree is
     * killed, dropped and the latest run closed. Without a runner this is StopStep.
     */
    method StopTunnel(tid: int, utcNow: string, w: PM.StopWait)
      requires Valid()
      modifies this, store, disk
      modifies if tid in runners then {runners[tid]} else {}
      modifies if tid !in runners && tid in managed then {managed[tid]} else {}
      ensures Valid()
      ensures old(tid in runners) ==>
        runners == old(runners) - {tid} && old(runners[tid]).stopRequested && !old(runners[tid]).IsRunning()
        && View() == old(View()).(runs := CloseLatest(old(store.runs), store.runSeq, {tid}, Stamp(utcNow), None))
      ensures old(tid !in runners) ==>
        runners == old(runners) && View() == StopStep(old(View()), tid, w, store.runSeq, Stamp(utcNow))
      ensures var finishes := old(tid !in runners && tid in managed && managed[tid].IsRunning()) && PM.FinishesOnStop(w);
        managed == (if finishes then old(managed) - {tid} else old(managed))
        && (finishes ==>
              old(managed[tid]).finished == old(managed[tid].finished) + [(tid, w.code, old(managed[tid]).runId)]
              && !old(managed[tid]).logOpen && !old(managed[tid]).IsRunning()
              && disk.files == if old(managed[tid].passFile).Some? && w.unlinkOk then old(disk.files) - {old(managed[tid].passFile).value}
                               else old(disk.files))
        && (!finishes ==> disk.files == old(disk.files))
      ensures forall t :: t in managed ==> managed[t].process == old(managed[t].process)
      ensures old(tid !in runners && tid in managed) ==>
        old(managed[tid]).signals == old(managed[tid].signals)
          + (if old(managed[tid].IsRunning()) then [PM.Terminate] + (if w.exitedInTime then [] else [PM.Kill]) else [])
      ensures store.hosts == old(store.hosts) && store.tunnels == old(store.tunnels)
      ensures store.hostSeq == old(store.hostSeq) && store.tunnelSeq == old(store.tunnelSeq) && store.runSeq == old(store.runSeq)
      ensures background == old(background) && currentHost == old(currentHost) && notices == old(notices)
    {
      if tid in runners {
        ghost var e0 := Entries();
        runners[tid].Stop();
        runners := runners - {tid};
        CloseLatestRun(tid, Stamp(utcNow), None);
        assert Entries() == e0;
      } else if tid in managed {
        StopManaged(tid, utcNow, w);
      } else if tid in detached {
        killed := killed + [detached[tid]];
        detached := detached - {tid};
        CloseLatestRun(tid, Stamp(utcNow), None);
      }
    }

    /** The managed branch of _on_stop_tunnel. */
    method StopManaged(tid: int, utcNow: string, w: PM.StopWait)
      requires Valid() && tid !in runners && tid in managed
      modifies this, store, disk, managed[tid]
      ensures Valid() && runners == old(runners)
      ensures View() == StopStep(old(View()), tid, w, store.runSeq, Stamp(utcNow))
      ensures var finishes := old(managed[tid].IsRunning()) && PM.FinishesOnStop(w);
        managed == (if finishes then old(managed) - {tid} else old(managed))
        && (finishes ==>
              old(managed[tid]).finished == old(managed[tid].finished) + [(tid, w.code, old(managed[tid]).runId)]
              && !old(managed[tid]).logOpen && !old(managed[tid]).IsRunning()
              && disk.files == if old(managed[tid].passFile).Some? && w.unlinkOk then old(disk.files) - {old(managed[tid].passFile).value}
                               else old(disk.files))
        && (!finishes ==> disk.files == old(disk.files))
      ensures forall t :: t in managed ==> managed[t].process == old(managed[t].process)
      ensures old(managed[tid]).signals == old(managed[tid].signals)
          + (if old(managed[tid].IsRunning()) then [PM.Terminate] + (if w.exitedInTime then [] else [PM.Kill]) else [])
      ensures store.hosts == old(store.hosts) && store.tunnels == old(store.tunnels)
      ensures store.hostSeq == old(store.hostSeq) && store.tunnelSeq == old(store.tunnelSeq) && store.runSeq == old(store.runSeq)
      ensures background == old(background) && currentHost == old(currentHost) && notices == old(notices)
    {
      var p := managed[tid];
      ghost var e0 := Entries();
      assert forall t :: t in managed && t != tid ==> managed[t] != p;
      var done := p.Stop(w, disk);
      if done {
        OnManagedFinished(p.tunnelId, w.code, p.runId, utcNow);
        assert Entries() == e0 - {tid};
      } else {
        assert Entries() == e0;
      }
    }

    /** _on_sshtunnel_finished: the runner is dropped and the latest run closed with the worker's code. */
    method OnRunnerFinished(tid: int, exitCode: int, utcNow: string)
      requires Valid()
      modifies this, store
      ensures Valid()
      ensures runners == old(runners) - {tid}
      ensures store.runs == CloseLatest(old(store.runs), store.runSeq, {tid}, Stamp(utcNow), Some(exitCode))
      ensures store.hosts == old(store.hosts) && store.tunnels == old(store.tunnels)
      ensures store.hostSeq == old(store.hostSeq) && store.tunnelSeq == old(store.tunnelSeq) && store.runSeq == old(store.runSeq)
      ensures managed == old(managed) && detached == old(detached) && logPaths == old(logPaths) && background == old(background)
      ensures currentHost == old(currentHost) && notices == old(notices) && killed == old(killed)
    {
      runners := runners - {tid};
      CloseLatestRun(tid, Stamp(utcNow), Some(exitCode));
    }

    /**
     * _on_managed_finished: whatever managed process is registered for the tunnel is dropped,
     * its log path kept, and the run the finished process belongs to is closed with its code.
     */
    method OnManagedFinished(tid: int, exitCode: int, runId: int, utcNow: string)
      requires Valid()
      modifies this, store
      ensures Valid()
      ensures managed == old(managed) - {tid}
      ensures logPaths == if old(tid in managed && managed[tid].logPath.Some?)
                          then old(logPaths)[tid := old(managed[tid].logPath.value)] else old(logPaths)
      ensures runId in old(store.runs) ==>
        store.runs == old(store.runs)[runId := old(store.runs)[runId].(stoppedAt := Some(Stamp(utcNow)), exitCode := Some(exitCode))]
      ensures runId !in old(store.runs) ==> store.runs == old(store.runs)
      ensures store.hosts == old(store.hosts) && store.tunnels == old(store.tunnels)
      ensures store.hostSeq == old(store.hostSeq) && store.tunnelSeq == old(store.tunnelSeq) && store.runSeq == old(store.runSeq)
      ensures runners == old(runners) && detached == old(detached) && background == old(background)
      ensures currentHost == old(currentHost) && notices == old(notices) && killed == old(killed)
    {
      if tid in managed {
        var proc := managed[tid];
        managed := managed - {tid};
        if proc.logPath.Some? {
          logPaths := logPaths[tid := proc.logPath.value];
        }
      }
      store.UpdateRunStopped(runId, Stamp(utcNow), Some(exitCode));
    }

    /**
     * _verify_tunnel_started, some time after a start: a detached pid (a non-zero one) that
     * is no longer alive is dropped, the latest run closed and the user warned. For a managed
     * start there is only a table refresh.
     */
    method VerifyTunnelStarted(tid: int, detachedPid: Option<int>, isDetached: bool, alive: int -> bool, utcNow: string)
      requires Valid()
      modifies this, store
      ensures Valid()
      ensures var dead := isDetached && detachedPid.Some? && detachedPid.value != 0 && !alive(detachedPid.value);
        (dead ==> detached == old(detached) - {tid} && notices == old(notices) + [ExitedEarly]
                  && store.runs == CloseLatest(old(store.runs), store.runSeq, {tid}, Stamp(utcNow), None))
        && (!dead ==> detached == old(detached) && notices == old(notices) && store.runs == old(store.runs))
      ensures store.hosts == old(store.hosts) && store.tunnels == old(store.tunnels)
      ensures store.hostSeq == old(store.hostSeq) && store.tunnelSeq == old(store.tunnelSeq) && store.runSeq == old(store.runSeq)
      ensures runners == old(runners) && managed == old(managed) && logPaths == old(logPaths) && background == old(background)
      ensures currentHost == old(currentHost) && killed == old(killed)
    {
      if isDetached && detachedPid.Some? && detachedPid.value != 0 {
        if !alive(detachedPid.value) {
          detached := detached - {tid};
          CloseLatestRun(tid, Stamp(utcNow), None);
          notices := notices + [ExitedEarly];
        }
      }
    }

    /**
     * _refresh_tunnel_statuses, with `order` the order the detached registry lists its keys in.
     * With a host selected, every detached pid is probed once: a dead one is dropped and its
     * tunnel's latest run closed. The table is redrawn (`changed`) when runners exist or a pid died.
     */
    method RefreshTunnelStatuses(order: seq<int>, alive: int -> bool, utcNow: string) returns (changed: bool)
      requires Valid()
      requires Enumerates(order, detached)
      modifies this, store
      ensures Valid()
      ensures old(currentHost).None? ==> !changed && detached == old(detached) && store.runs == old(store.runs)
      ensures old(currentHost).Some? ==>
        detached == (map tid | tid in old(detached) && alive(old(detached)[tid]) :: old(detached)[tid])
        && store.runs == CloseLatest(old(store.runs), store.runSeq,
                                     (set tid | tid in old(detached) && !alive(old(detached)[tid])), Stamp(utcNow), None)
        && (changed <==> old(runners) != map[] || exists tid :: tid in old(detached) && !alive(old(detached)[tid]))
      ensures old(currentHost).Some? ==> forall tid :: tid in detached ==> alive(detached[tid])
      ensures store.hosts == old(store.hosts) && store.tunnels == old(store.tunnels)
      ensures store.hostSeq == old(store.hostSeq) && store.tunnelSeq == old(store.tunnelSeq) && store.runSeq == old(store.runSeq)
      ensures runners == old(runners) && managed == old(managed) && logPaths == old(logPaths) && background == old(background)
      ensures currentHost == old(currentHost) && notices == old(notices) && killed == old(killed)
    {
      if currentHost.None? {
        return false;
      }
      changed := runners != map[];
      ghost var d0 := detached;
      ghost var r0 := store.runs;
      ghost var n := store.runSeq;
      CloseLatestNone(r0, n, Stamp(utcNow), None);
      for i := 0 to |order|
        invariant Valid()
        invariant detached == KeptAfter(order, i, d0, alive)
        invariant store.runs == CloseLatest(r0, n, DeadAmong(order, i, d0, alive), Stamp(utcNow), None)
        invariant changed <==> runners != map[] || DeadAmong(order, i, d0, alive) != {}
        invariant store.hosts == old(store.hosts) && store.tunnels == old(store.tunnels)
        invariant store.hostSeq == old(store.hostSeq) && store.tunnelSeq == old(store.tunnelSeq) && store.runSeq == n
        invariant runners == old(runners) && managed == old(managed) && logPaths == old(logPaths) && background == old(background)
        invariant currentHost == old(currentHost) && notices == old(notices) && killed == old(killed)
      {
        var died := RefreshStep(order, i, alive, utcNow, d0, r0, n);
        if died {
          changed := true;
        }
      }
      RefreshDone(order, d0, alive);
    }

    /** One probe of the reaping loop. */
    method RefreshStep(order: seq<int>, i: int, alive: int -> bool, utcNow: string,
                       ghost d0: map<int, int>, ghost r0: map<int, RunRow>, ghost n: int) returns (died: bool)
      requires Valid() && Enumerates(order, d0) && 0 <= i < |order| && store.runSeq == n
      requires detached == KeptAfter(order, i, d0, alive)
      requires store.runs == CloseLatest(r0, n, DeadAmong(order, i, d0, alive), Stamp(utcNow), None)
      modifies this, store
      ensures Valid() && store.runSeq == n
      ensures detached == KeptAfter(order, i + 1, d0, alive)
      ensures store.runs == CloseLatest(r0, n, DeadAmong(order, i + 1, d0, alive), Stamp(utcNow), None)
      ensures died ==> DeadAmong(order, i + 1, d0, alive) != {}
      ensures !died ==> DeadAmong(order, i + 1, d0, alive) == DeadAmong(order, i, d0, alive)
      ensures store.hosts == old(store.hosts) && store.tunnels == old(store.tunnels)
      ensures store.hostSeq == old(store.hostSeq) && store.tunnelSeq == old(store.tunnelSeq)
      ensures runners == old(runners) && managed == old(managed) && logPaths == old(logPaths) && background == old(background)
      ensures currentHost == old(currentHost) && notices == old(notices) && killed == old(killed)
    {
      var tid := order[i];
      ProbeStep(order, i, d0, alive);
      var pid := detached[tid];
      died := !alive(pid);
      if died {
        detached := detached - {tid};
        CloseLatestRun(tid, Stamp(utcNow), None);
        CloseLatestUnion(r0, n, DeadAmong(order, i, d0, alive), {tid}, Stamp(utcNow), None);
      }
    }

    /** Each managed tunnel's signals and child, as they are now. */
    ghost function Snapshot(): map<int, (seq<PM.Signal>, Option<PM.Child>)>
      reads this, managed.Values
    {
      map tid | tid in managed :: (managed[tid].signals, managed[tid].process)
    }

    /**
     * The window is closing. With nothing running outside the window it simply exits.
     * Otherwise the user chooses (1 exit, 2 tray, anything else cancel); exiting stops
     * every in-process tunnel, then every managed process, then every detached tunnel,
     * each through the stop handler, in the registries' own order. `waits2` and `waits3`
     * say how each managed child answers the stop of the second and of the third loop.
     */
    method HandleCloseRequest(choice: int, runnerOrder: seq<int>, managedOrder: seq<int>, detachedOrder: seq<int>,
                              utcNow: string, waits2: int -> PM.StopWait, waits3: int -> PM.StopWait)
      returns (answer: CloseAnswer)
      requires Valid()
      requires Enumerates(runnerOrder, runners) && Enumerates(managedOrder, managed) && Enumerates(detachedOrder, detached)
      modifies this, store, disk, runners.Values, managed.Values
      ensures Valid()
      ensures old(managed == map[] && detached == map[]) ==> answer == Exit
      ensures old(managed != map[] || detached != map[]) ==>
        (answer == Exit <==> choice == 1) && (answer == Tray <==> choice == 2) && (answer == Cancel <==> choice != 1 && choice != 2)
      ensures answer == Exit && old(managed != map[] || detached != map[]) ==>
        var left := ManagedLeft(old(Entries()), old(managed).Keys, waits2);
        runners == map[]
        && (forall tid :: tid in old(runners) ==> old(runners)[tid].stopRequested && !old(runners)[tid].IsRunning())
        && View() == ExitOutside(old(View()).(runs := CloseLatest(old(store.runs), store.runSeq, old(runners).Keys, Stamp(utcNow), None)),
                                 managedOrder, detachedOrder, waits2, waits3, store.runSeq, Stamp(utcNow))
        && Entries() == ManagedLeft(left, old(detached).Keys, waits3)
        && detached == (map tid | tid in old(detached) && tid in left :: old(detached)[tid])
        && killed == old(killed) + KilledOnExit(detachedOrder, left.Keys, old(detached))
        && (forall tid :: tid in old(managed) && old(managed[tid].IsRunning()) ==>
              old(managed[tid].signals) + [PM.Terminate] <= old(managed)[tid].signals)
      ensures answer != Exit || old(managed == map[] && detached == map[]) ==>
        runners == old(runners) && View() == old(View()) && managed == old(managed)
        && unchanged(runners.Values) && unchanged(managed.Values) && unchanged(disk)
      ensures store.hosts == old(store.hosts) && store.tunnels == old(store.tunnels)
      ensures store.hostSeq == old(store.hostSeq) && store.tunnelSeq == old(store.tunnelSeq) && store.runSeq == old(store.runSeq)
      ensures background == old(background) && currentHost == old(currentHost) && notices == old(notices)
    {
      if managed == map[] && detached == map[] {
        return Exit;
      }
      if choice == 1 {
        ghost var v0, r0 := View(), runners;
        assert v0.managed.Keys == managed.Keys;
        ExitAll(runnerOrder, managedOrder, detachedOrder, utcNow, waits2, waits3);
        ghost var v1 := v0.(runs := CloseLatest(v0.runs, store.runSeq, r0.Keys, Stamp(utcNow), None));
        ExitOutsideEffect(v1, managedOrder, detachedOrder, waits2, waits3, store.runSeq, Stamp(utcNow));
        ghost var left := ManagedLeft(v0.managed, v0.managed.Keys, waits2);
        assert killed == View().killed == v0.killed + KilledOnExit(detachedOrder, left.Keys, v0.detached);
        return Exit;
      }
      if choice == 2 {
        return Tray;
      }
      return Cancel;
    }

    /** Exit was chosen: the three stop loops. */
    method ExitAll(runnerOrder: seq<int>, managedOrder: seq<int>, detachedOrder: seq<int>,
                   utcNow: string, waits2: int -> PM.StopWait, waits3: int -> PM.StopWait)
      requires Valid()
      requires Enumerates(runnerOrder, runners) && Enumerates(managedOrder, managed) && Enumerates(detachedOrder, detached)
      modifies this, store, disk, runners.Values, managed.Values
      ensures Valid() && runners == map[]
      ensures forall tid :: tid in old(runners) ==> old(runners)[tid].stopRequested && !old(runners)[tid].IsRunning()
      ensures View() == ExitOutside(old(View()).(runs := CloseLatest(old(store.runs), store.runSeq, old(runners).Keys, Stamp(utcNow), None)),
                                    managedOrder, detachedOrder, waits2, waits3, store.runSeq, Stamp(utcNow))
      ensures forall tid :: tid in old(managed) && old(managed[tid].IsRunning()) ==>
        old(managed[tid].signals) + [PM.Terminate] <= old(managed)[tid].signals
      ensures store.hosts == old(store.hosts) && store.tunnels == old(store.tunnels)
      ensures store.hostSeq == old(store.hostSeq) && store.tunnelSeq == old(store.tunnelSeq) && store.runSeq == old(store.runSeq)
      ensures background == old(background) && currentHost == old(currentHost) && notices == old(notices)
    {
      ghost var v0, r0 := View(), runners;
      StopRunners(runnerOrder, utcNow);
      assert View() == v0.(runs := CloseLatest(v0.runs, store.runSeq, r0.Keys, Stamp(utcNow), None));
      StopOutside(managedOrder, detachedOrder, utcNow, waits2, waits3);
    }

    /** The second and third loops of an exit, once no in-process tunnel is left. */
    method StopOutside(managedOrder: seq<int>, detachedOrder: seq<int>,
                       utcNow: string, waits2: int -> PM.StopWait, waits3: int -> PM.StopWait)
      requires Valid() && runners == map[]
      requires Enumerates(managedOrder, managed) && Distinct(detachedOrder)
      modifies this, store, disk, managed.Values
      ensures Valid() && runners == map[]
      ensures View() == ExitOutside(old(View()), managedOrder, detachedOrder, waits2, waits3, store.runSeq, Stamp(utcNow))
      ensures forall tid :: tid in old(managed) && old(managed[tid].IsRunning()) ==>
        old(managed[tid].signals) + [PM.Terminate] <= old(managed)[tid].signals
      ensures store.hosts == old(store.hosts) && store.tunnels == old(store.tunnels)
      ensures store.hostSeq == old(store.hostSeq) && store.tunnelSeq == old(store.tunnelSeq) && store.runSeq == old(store.runSeq)
      ensures background == old(background) && currentHost == old(currentHost) && notices == old(notices)
    {
      ghost var s0, m0 := Snapshot(), managed;
      StopAllOf(managedOrder, utcNow, waits2, m0, s0, {});
      StopAllOf(detachedOrder, utcNow, waits3, m0, s0, set tid | tid in managedOrder);
    }

    /** The first loop of an exit: every in-process tunnel is stopped and its latest run closed. */
    method StopRunners(order: seq<int>, utcNow: string)
      requires Valid() && Enumerates(order, runners)
      modifies this, store, disk, runners.Values
      ensures Valid() && runners == map[]
      ensures forall tid :: tid in old(runners) ==> old(runners)[tid].stopRequested && !old(runners)[tid].IsRunning()
      ensures View() == old(View()).(runs := CloseLatest(old(store.runs), store.runSeq, old(runners).Keys, Stamp(utcNow), None))
      ensures managed == old(managed) && disk.files == old(disk.files)
      ensures store.hosts == old(store.hosts) && store.tunnels == old(store.tunnels)
      ensures store.hostSeq == old(store.hostSeq) && store.tunnelSeq == old(store.tunnelSeq) && store.runSeq == old(store.runSeq)
      ensures background == old(background) && currentHost == old(currentHost) && notices == old(notices)
    {
      ghost var R0, r0, n, v0 := runners, store.runs, store.runSeq, View();
      CloseLatestNone(r0, n, Stamp(utcNow), None);
      assert R0 - Visited(order, 0) == R0;
      for i := 0 to |order|
        invariant Valid()
        invariant runners == R0 - Visited(order, i)
        invariant forall tid :: tid in Visited(order, i) ==> tid in R0 && R0[tid].stopRequested && !R0[tid].IsRunning()
        invariant View() == v0.(runs := CloseLatest(r0, n, Visited(order, i), Stamp(utcNow), None))
        invariant managed == old(managed) && disk.files == old(disk.files)
        invariant store.hosts == old(store.hosts) && store.tunnels == old(store.tunnels)
        invariant store.hostSeq == old(store.hostSeq) && store.tunnelSeq == old(store.tunnelSeq) && store.runSeq == n
        invariant background == old(background) && currentHost == old(currentHost) && notices == old(notices)
      {
        VisitedStep(order, i, R0);
        // A runner's stop does not wait on a child: the wait given is never consulted.
        StopTunnel(order[i], utcNow, PM.StopWait(false, false, 0, true));
        CloseLatestUnion(r0, n, Visited(order, i), {order[i]}, Stamp(utcNow), None);
      }
      VisitedAll(order, R0);
      assert runners == map[];
    }

    /**
     * The second or the third loop of an exit, once no in-process tunnel is left: every
     * tunnel of `order` goes through the stop handler with its own wait. Against the
     * registry `m0` and its signals and children `s0` as the exit found them, with the
     * tunnels of `done` already stopped: each managed process gets only stop requests, a
     * terminate first if it was running, and the ones still registered keep their child.
     */
    method StopAllOf(order: seq<int>, utcNow: string, waits: int -> PM.StopWait, ghost m0: map<int, PM.ManagedProcess>,
                     ghost s0: map<int, (seq<PM.Signal>, Option<PM.Child>)>, ghost done: set<int>)
      requires Valid() && runners == map[]
      requires forall t :: t in m0 ==> m0[t].tunnelId == t && t in s0
      requires forall t :: t in managed ==> t in m0 && managed[t] == m0[t] && managed[t].process == s0[t].1
      requires forall t :: t in m0 && t !in done ==> t in managed
      requires forall t :: t in m0 ==> Signalled(s0[t].0, m0[t].signals, Live(s0[t].1))
      requires forall t :: t in m0 && t in done && Live(s0[t].1) ==> s0[t].0 + [PM.Terminate] <= m0[t].signals
      modifies this, store, disk, m0.Values
      ensures Valid() && runners == old(runners)
      ensures View() == StopEach(old(View()), order, |order|, waits, store.runSeq, Stamp(utcNow))
      ensures forall t :: t in managed ==> t in m0 && managed[t] == m0[t] && managed[t].process == s0[t].1
      ensures forall t :: t in m0 && t !in done && t !in order ==> t in managed
      ensures forall t :: t in m0 ==> Signalled(s0[t].0, m0[t].signals, Live(s0[t].1))
      ensures forall t :: t in m0 && (t in done || t in order) && Live(s0[t].1) ==> s0[t].0 + [PM.Terminate] <= m0[t].signals
      ensures store.hosts == old(store.hosts) && store.tunnels == old(store.tunnels)
      ensures store.hostSeq == old(store.hostSeq) && store.tunnelSeq == old(store.tunnelSeq) && store.runSeq == old(store.runSeq)
      ensures background == old(background) && currentHost == old(currentHost) && notices == old(notices)
    {
      ghost var v0, n, seen := View(), store.runSeq, done;
      for i := 0 to |order|
        invariant Valid() && runners == old(runners)
        invariant View() == StopEach(v0, order, i, waits, n, Stamp(utcNow))
        invariant forall k :: 0 <= k < i ==> order[k] in seen
        invariant done <= seen && forall t :: t in seen ==> t in done || t in order
        invariant forall t :: t in managed ==> t in m0 && managed[t] == m0[t] && managed[t].process == s0[t].1
        invariant forall t :: t in m0 && t !in seen ==> t in managed
        invariant forall t :: t in m0 ==> Signalled(s0[t].0, m0[t].signals, Live(s0[t].1))
        invariant forall t :: t in m0 && t in seen && Live(s0[t].1) ==> s0[t].0 + [PM.Terminate] <= m0[t].signals
        invariant store.hosts == old(store.hosts) && store.tunnels == old(store.tunnels)
        invariant store.hostSeq == old(store.hostSeq) && store.tunnelSeq == old(store.tunnelSeq) && store.runSeq == n
        invariant background == old(background) && currentHost == old(currentHost) && notices == old(notices)
      {
        StopNext(order, i, utcNow, waits, m0, s0, seen, v0, n);
        SeenStep(order, i, seen);
        seen := seen + {order[i]};
      }
    }

    /** The body of StopAllOf's loop: the `i`-th tunnel goes through the stop handler. */
    method StopNext(order: seq<int>, i: nat, utcNow: string, waits: int -> PM.StopWait, ghost m0: map<int, PM.ManagedProcess>,
                    ghost s0: map<int, (seq<PM.Signal>, Option<PM.Child>)>, ghost seen: set<int>, ghost v0: StopView, ghost n: int)
      requires i < |order| && Valid() && runners == map[] && store.runSeq == n
      requires View() == StopEach(v0, order, i, waits, n, Stamp(utcNow))
      requires forall t :: t in m0 ==> m0[t].tunnelId == t && t in s0
      requires forall t :: t in managed ==> t in m0 && managed[t] == m0[t] && managed[t].process == s0[t].1
      requires forall t :: t in m0 && t !in seen ==> t in managed
      requires forall t :: t in m0 ==> Signalled(s0[t].0, m0[t].signals, Live(s0[t].1))
      requires forall t :: t in m0 && t in seen && Live(s0[t].1) ==> s0[t].0 + [PM.Terminate] <= m0[t].signals
      modifies this, store, disk, m0.Values
      ensures Valid() && runners == old(runners)
      ensures View() == StopEach(v0, order, i + 1, waits, n, Stamp(utcNow))
      ensures forall t :: t in managed ==> t in m0 && managed[t] == m0[t] && managed[t].process == s0[t].1
      ensures forall t :: t in m0 && t !in seen + {order[i]} ==> t in managed
      ensures forall t :: t in m0 ==> Signalled(s0[t].0, m0[t].signals, Live(s0[t].1))
      ensures forall t :: t in m0 && t in seen + {order[i]} && Live(s0[t].1) ==> s0[t].0 + [PM.Terminate] <= m0[t].signals
      ensures store.hosts == old(store.hosts) && store.tunnels == old(store.tunnels)
      ensures store.hostSeq == old(store.hostSeq) && store.tunnelSeq == old(store.tunnelSeq) && store.runSeq == n
      ensures background == old(background) && currentHost == old(currentHost) && notices == old(notices)
    {
      StopOne(order[i], utcNow, waits(order[i]), m0, s0, seen);
    }

    /** One turn of StopAllOf: the stop handler on one tunnel, keeping the loop's account of the signals. */
    method StopOne(tid: int, utcNow: string, w: PM.StopWait, ghost m0: map<int, PM.ManagedProcess>,
                   ghost s0: map<int, (seq<PM.Signal>, Option<PM.Child>)>, ghost done: set<int>)
      requires Valid() && runners == map[]
      requires forall t :: t in m0 ==> m0[t].tunnelId == t && t in s0
      requires forall t :: t in managed ==> t in m0 && managed[t] == m0[t] && managed[t].process == s0[t].1
      requires forall t :: t in m0 && t !in done ==> t in managed
      requires forall t :: t in m0 ==> Signalled(s0[t].0, m0[t].signals, Live(s0[t].1))
      requires forall t :: t in m0 && t in done && Live(s0[t].1) ==> s0[t].0 + [PM.Terminate] <= m0[t].signals
      modifies this, store, disk, if tid in managed then {managed[tid]} else {}
      ensures Valid() && runners == old(runners)
      ensures View() == StopStep(old(View()), tid, w, store.runSeq, Stamp(utcNow))
      ensures forall t :: t in managed ==> t in m0 && managed[t] == m0[t] && managed[t].process == s0[t].1
      ensures forall t :: t in m0 && t !in done + {tid} ==> t in managed
      ensures forall t :: t in m0 ==> Signalled(s0[t].0, m0[t].signals, Live(s0[t].1))
      ensures forall t :: t in m0 && t in done + {tid} && Live(s0[t].1) ==> s0[t].0 + [PM.Terminate] <= m0[t].signals
      ensures store.hosts == old(store.hosts) && store.tunnels == old(store.tunnels)
      ensures store.hostSeq == old(store.hostSeq) && store.tunnelSeq == old(store.tunnelSeq) && store.runSeq == old(store.runSeq)
      ensures background == old(background) && currentHost == old(currentHost) && notices == old(notices)
    {
      if tid in managed {
        StopOneManaged(tid, utcNow, w, m0, s0, done);
      } else {
        StopTunnel(tid, utcNow, w);
      }
    }

    /** StopOne for a tunnel that still has a managed process. */
    method StopOneManaged(tid: int, utcNow: string, w: PM.StopWait, ghost m0: map<int, PM.ManagedProcess>,
                          ghost s0: map<int, (seq<PM.Signal>, Option<PM.Child>)>, ghost done: set<int>)
      requires Valid() && runners == map[] && tid in managed
      requires forall t :: t in m0 ==> m0[t].tunnelId == t && t in s0
      requires forall t :: t in managed ==> t in m0 && managed[t] == m0[t] && managed[t].process == s0[t].1
      requires forall t :: t in m0 ==> Signalled(s0[t].0, m0[t].signals, Live(s0[t].1))
      requires forall t :: t in m0 && t in done && Live(s0[t].1) ==> s0[t].0 + [PM.Terminate] <= m0[t].signals
      modifies this, store, disk, managed[tid]
      ensures Valid() && runners == old(runners)
      ensures View() == StopStep(old(View()), tid, w, store.runSeq, Stamp(utcNow))
      ensures managed == old(managed) || managed == old(managed) - {tid}
      ensures forall t :: t in managed ==> managed[t].process == s0[t].1
      ensures forall t :: t in m0 ==> Signalled(s0[t].0, m0[t].signals, Live(s0[t].1))
      ensures forall t :: t in m0 && t in done + {tid} && Live(s0[t].1) ==> s0[t].0 + [PM.Terminate] <= m0[t].signals
      ensures store.hosts == old(store.hosts) && store.tunnels == old(store.tunnels)
      ensures store.hostSeq == old(store.hostSeq) && store.tunnelSeq == old(store.tunnelSeq) && store.runSeq == old(store.runSeq)
      ensures background == old(background) && currentHost == old(currentHost) && notices == old(notices)
    {
      var p := managed[tid];
      ghost var sig := map t | t in m0 :: m0[t].signals;
      assert forall t :: t in m0 && t != tid ==> m0[t] != p;
      StopTunnel(tid, utcNow, w);
      assert p.signals == sig[tid] + (if Live(s0[tid].1) then [PM.Terminate] + (if w.exitedInTime then [] else [PM.Kill]) else []);
      ghost var sig2 := map t | t in m0 :: m0[t].signals;
      assert forall t :: t in m0 && t != tid ==> sig2[t] == sig[t];
      SignalsStep(s0, sig, sig2, tid, done, true, w);
      forall t | t in m0 ensures m0[t].signals == sig2[t] { }
    }
  }

  /**
   * start, for a managed process just created and with the ssh client found: an unknown
   * tunnel type's error escapes; otherwise start answers whether the child runs.
   */
  method StartProcess(proc: PM.ManagedProcess, password: string, sshPath: Option<string>, disk: PM.Disk, env: Env)
    returns (started: Result<bool>)
    requires proc.Valid() && proc.process.None? && proc.logPath.None? && !proc.logOpen
    requires Found(sshPath)
    modifies proc, disk
    ensures proc.Valid()
    ensures proc.IsRunning() <==> ManagedWorks(proc.host, proc.tunnel, sshPath, env)
    ensures var cmd := SshBuilder.BuildFullCommand(sshPath, proc.host, proc.tunnel);
      var log := PM.LogPathForTunnel(env.logsDir, proc.tunnelId, env.clock);
      (cmd.Raised? ==> started == Raised(cmd.exc) && proc.logPath.None? && disk.files == old(disk.files))
      && (cmd.Ok? ==> started == Ok(ManagedWorks(proc.host, proc.tunnel, sshPath, env)) && proc.logPath == Some(log))
      && (cmd.Ok? && !env.openOk ==> disk.files == old(disk.files))
      && (cmd.Ok? && env.openOk ==>
            disk.files == PM.WithPassword(old(disk.files)[log := []], env.tempDir, Some(password), env.passWriteOk)
                            [log := PM.LaunchLog(env.launched, env.pid, env.errorString, env.lineWriteOk)])
  {
    started := proc.Start(Some(password), sshPath, env.logsDir, env.clock, env.tempDir, disk,
                          env.openOk, env.openError, env.passWriteOk, env.launched, env.errorString, env.pid,
                          env.lineWriteOk);
  }

  /**
   * The detached start as the window calls it: with the password the user typed, once
   * ssh is known to be on the path, so a command that cannot be built raises.
   */
  method SpawnDetached(tid: int, h: Host, t: Tunnel, password: string, sshPath: Option<string>, disk: PM.Disk, env: Env)
    returns (res: Result<PM.Detached>)
    requires Found(sshPath)
    modifies disk
    ensures var cmd := SshBuilder.BuildFullCommand(sshPath, h, t);
      (res.Raised? <==> cmd.Raised?) && (cmd.Raised? ==> res == Raised(cmd.exc) && disk.files == old(disk.files))
    ensures res.Ok? ==> (res.value.error.None? <==> DetachedWorks(h, t, sshPath, env))
    ensures res.Ok? && res.value.error.Some? ==> res.value.error.value != []
    ensures var cmd := SshBuilder.BuildFullCommand(sshPath, h, t);
      cmd.Ok? && !env.openOk ==>
        res == Ok(PM.Detached(None, None, Some("Failed to open log file: " + env.openError))) && disk.files == old(disk.files)
    ensures var cmd := SshBuilder.BuildFullCommand(sshPath, h, t);
      var log := PM.LogPathForTunnel(env.logsDir, tid, env.clock);
      cmd.Ok? && env.openOk && !env.spawn.Spawned? ==>
        res == Ok(PM.Detached(None, None, Some(env.spawn.error)))
        && disk.files == PM.WithPassword(old(disk.files)[log := []], env.tempDir, Some(password), env.passWriteOk) - {log}
    ensures var log := PM.LogPathForTunnel(env.logsDir, tid, env.clock);
      DetachedWorks(h, t, sshPath, env) ==>
        res == Ok(PM.Detached(Some(env.spawn.pid), Some(log), None))
        && disk.files == PM.WithPassword(old(disk.files)[log := []], env.tempDir, Some(password), env.passWriteOk)
                           [log := "Started detached PID " + IntToString(env.spawn.pid) + "\n"]
  {
    res := PM.StartDetached(tid, h, t, Some(password), sshPath, env.logsDir, env.clock, env.tempDir, disk,
                            env.openOk, env.openError, env.passWriteOk, env.spawn);
  }

  /** Marking the next tunnel of a list as seen keeps every one before it seen. */
  lemma SeenStep(order: seq<int>, i: int, seen: set<int>)
    requires 0 <= i < |order| && forall k :: 0 <= k < i ==> order[k] in seen
    ensures forall k :: 0 <= k < i + 1 ==> order[k] in seen + {order[i]}
  {
  }

  /**
   * The signal account of one stop: only `tid`'s signals change, and only when it is
   * still registered, by the stop handler's terminate (and kill) if it was running.
   */
  lemma SignalsStep(s0: map<int, (seq<PM.Signal>, Option<PM.Child>)>, sig: map<int, seq<PM.Signal>>,
                    sig2: map<int, seq<PM.Signal>>, tid: int, done: set<int>, registered: bool, w: PM.StopWait)
    requires sig.Keys == sig2.Keys && forall t :: t in sig ==> t in s0
    requires forall t :: t in sig ==> Signalled(s0[t].0, sig[t], Live(s0[t].1))
    requires forall t :: t in sig && t in done && Live(s0[t].1) ==> s0[t].0 + [PM.Terminate] <= sig[t]
    requires forall t :: t in sig && t != tid ==> sig2[t] == sig[t]
    requires tid in sig ==> sig2[tid] == sig[tid] + (if registered && Live(s0[tid].1) then [PM.Terminate] + (if w.exitedInTime then [] else [PM.Kill]) else [])
    requires tid in sig && tid !in done ==> registered
    ensures forall t :: t in sig2 ==> Signalled(s0[t].0, sig2[t], Live(s0[t].1))
    ensures forall t :: t in sig2 && t in done + {tid} && Live(s0[t].1) ==> s0[t].0 + [PM.Terminate] <= sig2[t]
  {
    if tid in sig {
      SignalledAgain(s0[tid].0, sig[tid], sig2[tid], Live(s0[tid].1));
    }
  }

  /** The signals a managed process got: none, or, if it was running, a terminate first. */
  ghost predicate Signalled(before: seq<PM.Signal>, after: seq<PM.Signal>, running: bool)
  {
    after == before || (running && before + [PM.Terminate] <= after)
  }

  /** Two rounds of stop requests are one. */
  lemma SignalledAgain(a: seq<PM.Signal>, b: seq<PM.Signal>, c: seq<PM.Signal>, running: bool)
    requires Signalled(a, b, running) && Signalled(b, c, running)
    ensures Signalled(a, c, running)
    ensures a + [PM.Terminate] <= b ==> a + [PM.Terminate] <= c
  {
    if a + [PM.Terminate] <= b && b != c {
      assert c[..|b|] == b;
      assert c[..|a| + 1] == b[..|a| + 1];
    }
  }

  /** A child that is running. */
  ghost predicate Live(c: Option<PM.Child>)
  {
    c.Some? && c.value.running
  }

  /** Once every key has been stopped, only the shadowed detached entries are left. */
  lemma ShadowedAll(order: seq<int>, d: map<int, int>, managed: set<int>)
    requires Enumerates(order, d)
    ensures ShadowedAfter(order, |order|, d, managed) == map tid | tid in d && tid in managed :: d[tid]
  {
    assert order[..|order|] == order;
    assert forall tid :: tid in d ==> tid in order[..|order|];
  }

  /** The detached registry once the first `i` of `order` have been stopped, with the `managed` tunnels shadowing theirs. */
  ghost function ShadowedAfter(order: seq<int>, i: int, d: map<int, int>, managed: set<int>): map<int, int>
    requires 0 <= i <= |order|
  {
    map tid | tid in d && (tid in managed || tid !in order[..i]) :: d[tid]
  }

  /** A second update of the same key overrides the first. */
  lemma UpdatedTwice<K, V>(m: map<K, V>, k: K, a: V, b: V)
    ensures m[k := a][k := b] == m[k := b]
  {
  }

  /** Removing a key that was just updated removes the update too. */
  lemma UpdatedThenRemoved<K, V>(m: map<K, V>, k: K, v: V)
    ensures m[k := v] - {k} == m - {k}
  {
  }

  /** The tunnels among the first `i` of `order` whose detached pid is dead. */
  ghost function DeadAmong(order: seq<int>, i: int, d: map<int, int>, alive: int -> bool): set<int>
    requires 0 <= i <= |order|
  {
    set tid | tid in d && tid in order[..i] && !alive(d[tid])
  }

  /** The detached registry once the first `i` of `order` have been probed. */
  ghost function KeptAfter(order: seq<int>, i: int, d: map<int, int>, alive: int -> bool): map<int, int>
    requires 0 <= i <= |order|
  {
    map tid | tid in d && (tid !in order[..i] || alive(d[tid])) :: d[tid]
  }

  /** Probing the next key: it is still registered, and it is dropped and counted dead exactly when its pid is dead. */
  lemma ProbeStep(order: seq<int>, i: int, d: map<int, int>, alive: int -> bool)
    requires Enumerates(order, d) && 0 <= i < |order|
    ensures order[i] in KeptAfter(order, i, d, alive) && KeptAfter(order, i, d, alive)[order[i]] == d[order[i]]
    ensures KeptAfter(order, i + 1, d, alive)
            == if alive(d[order[i]]) then KeptAfter(order, i, d, alive) else KeptAfter(order, i, d, alive) - {order[i]}
    ensures DeadAmong(order, i + 1, d, alive)
            == if alive(d[order[i]]) then DeadAmong(order, i, d, alive) else DeadAmong(order, i, d, alive) + {order[i]}
  {
    var tid := order[i];
    assert order[..i + 1] == order[..i] + [tid];
    assert tid !in order[..i] by {
      forall j | 0 <= j < i ensures order[..i][j] != tid { }
    }
    assert tid in d;
  }

  /** Once every key has been probed, exactly the dead pids are gone. */
  lemma RefreshDone(order: seq<int>, d: map<int, int>, alive: int -> bool)
    requires Enumerates(order, d)
    ensures DeadAmong(order, |order|, d, alive) == set tid | tid in d && !alive(d[tid])
    ensures KeptAfter(order, |order|, d, alive) == map tid | tid in d && alive(d[tid]) :: d[tid]
    ensures DeadAmong(order, |order|, d, alive) != {} <==> exists tid :: tid in d && !alive(d[tid])
  {
    assert order[..|order|] == order;
    assert forall tid :: tid in d ==> tid in order[..|order|];
    if exists tid :: tid in d && !alive(d[tid]) {
      var tid :| tid in d && !alive(d[tid]);
      assert tid in DeadAmong(order, |order|, d, alive);
    }
  }
}
