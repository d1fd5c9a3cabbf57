/**
 * The configuration store and run ledger: three tables (hosts, tunnels, runs) with
 * AUTOINCREMENT ids. A row keeps the NULLs the writer stores; reading a row back
 * turns them into "" and 0 again. Queries are functions of the tables; the writers
 * are methods of the Store class, one per statement.
 */
module Db {
  import opened Wrappers
  import opened Text
  import opened Models

  // ---------------------------------------------------------------------------
  // Rows as stored

  datatype HostRow = HostRow(
    name: string,
    username: string,
    hostname: string,
    port: int,
    identityFile: Option<string>,
    extraArgs: Option<string>,
    keepaliveInterval: Option<int>,
    keepaliveCountmax: Option<int>,
    createdAt: Option<string>,
    updatedAt: Option<string>)

  datatype TunnelRow = TunnelRow(
    hostId: int,
    name: string,
    tunnelType: string,
    localBind: Option<string>,
    localPort: Option<int>,
    remoteHost: Option<string>,
    remotePort: Option<int>,
    remoteBind: Option<string>,
    socksPort: Option<int>,
    openTerminal: int,
    createdAt: Option<string>,
    updatedAt: Option<string>)

  datatype RunRow = RunRow(
    tunnelId: int,
    startedAt: string,
    stoppedAt: Option<string>,
    pid: Option<int>,
    mode: string,
    exitCode: Option<int>,
    logPath: Option<string>,
    lastError: Option<string>)

  /** `s or None`: the empty text is stored as NULL. */
  function OrNull(s: string): (r: Option<string>)
    ensures r.None? <==> s == []
    ensures r.Some? ==> r.value == s
  {
    if s == [] then None else Some(s)
  }

  /** The values a host is written with; blank texts become NULL. */
  function HostValues(h: Host, createdAt: Option<string>, updatedAt: string): HostRow
  {
    HostRow(h.name, h.username, h.hostname, h.port, OrNull(h.identityFile), OrNull(h.extraArgs),
            Some(h.keepaliveInterval), Some(h.keepaliveCountmax), createdAt, Some(updatedAt))
  }

  /** _row_to_host: NULL texts read as "", NULL numbers as 0. */
  function RowToHost(id: int, row: HostRow): (h: Host)
    ensures h.id == Some(id) && h.name == row.name && h.hostname == row.hostname
    ensures h.identityFile == row.identityFile.GetOr("") && h.extraArgs == row.extraArgs.GetOr("")
    ensures h.keepaliveInterval == row.keepaliveInterval.GetOr(0)
    ensures h.keepaliveCountmax == row.keepaliveCountmax.GetOr(0)
    ensures h.username == row.username && h.port == row.port
    ensures h.createdAt == row.createdAt && h.updatedAt == row.updatedAt
  {
    Host(Some(id), row.name, row.username, row.hostname, row.port,
         row.identityFile.GetOr(""), row.extraArgs.GetOr(""),
         row.keepaliveInterval.GetOr(0), row.keepaliveCountmax.GetOr(0),
         row.createdAt, row.updatedAt)
  }

  /** Writing a host and reading it back gives the same configuration, with the new id and the timestamps. */
  lemma HostRoundTrip(h: Host, id: int, createdAt: Option<string>, updatedAt: string)
    ensures RowToHost(id, HostValues(h, createdAt, updatedAt))
         == h.(id := Some(id), createdAt := createdAt, updatedAt := Some(updatedAt))
  {
  }

  /** The values a tunnel is written with; blank addresses become NULL and the flag 1 or 0. */
  function TunnelValues(t: Tunnel, hostId: int, createdAt: Option<string>, updatedAt: string): TunnelRow
  {
    TunnelRow(hostId, t.name, t.tunnelType, OrNull(t.localBind), Some(t.localPort), OrNull(t.remoteHost),
              Some(t.remotePort), OrNull(t.remoteBind), Some(t.socksPort), if t.openTerminal then 1 else 0,
              createdAt, Some(updatedAt))
  }

  /** _row_to_tunnel: NULL texts read as "", NULL ports as 0, and the flag as "not 0". */
  function RowToTunnel(id: int, row: TunnelRow): (t: Tunnel)
    ensures t.id == Some(id) && t.hostId == row.hostId && t.name == row.name && t.tunnelType == row.tunnelType
    ensures t.localBind == row.localBind.GetOr("") && t.remoteHost == row.remoteHost.GetOr("")
    ensures t.remoteBind == row.remoteBind.GetOr("")
    ensures t.openTerminal <==> row.openTerminal != 0
    ensures t.localPort == row.localPort.GetOr(0) && t.remotePort == row.remotePort.GetOr(0)
    ensures t.socksPort == row.socksPort.GetOr(0)
    ensures t.createdAt == row.createdAt && t.updatedAt == row.updatedAt
  {
    Tunnel(Some(id), row.hostId, row.name, row.tunnelType,
           row.localBind.GetOr(""), row.localPort.GetOr(0), row.remoteHost.GetOr(""), row.remotePort.GetOr(0),
           row.remoteBind.GetOr(""), row.socksPort.GetOr(0), row.openTerminal != 0,
           row.createdAt, row.updatedAt)
  }

  /** Writing a tunnel and reading it back gives the same configuration, with the new id and the timestamps. */
  lemma TunnelRoundTrip(t: Tunnel, id: int, createdAt: Option<string>, updatedAt: string)
    ensures RowToTunnel(id, TunnelValues(t, t.hostId, createdAt, updatedAt))
         == t.(id := Some(id), createdAt := createdAt, updatedAt := Some(updatedAt))
  {
  }

  function RunValues(r: Run): RunRow
  {
    RunRow(r.tunnelId, r.startedAt, r.stoppedAt, r.pid, r.mode, r.exitCode, r.logPath, r.lastError)
  }

  function RowToRun(id: int, row: RunRow): (r: Run)
    ensures r.id == Some(id) && r.tunnelId == row.tunnelId && r.startedAt == row.startedAt
  {
    Run(Some(id), row.tunnelId, row.startedAt, row.stoppedAt, row.pid, row.mode, row.exitCode, row.logPath, row.lastError)
  }

  /** A run is stored exactly as given and read back with its new id. */
  lemma RunRoundTrip(r: Run, id: int)
    ensures RowToRun(id, RunValues(r)) == r.(id := Some(id))
  {
  }

  // ---------------------------------------------------------------------------
  // Selecting and ordering rows

  /** The ids 1..n that are rows of `m` and satisfy `keep`, in increasing order. */
  function SelectIds<R>(m: map<int, R>, keep: R -> bool, n: int): (ids: seq<int>)
    ensures forall k :: 0 <= k < |ids| ==> 1 <= ids[k] <= n && ids[k] in m && keep(m[ids[k]])
    ensures forall id :: 1 <= id <= n && id in m && keep(m[id]) ==> id in ids
    ensures forall i, j :: 0 <= i < j < |ids| ==> ids[i] < ids[j]
    decreases n
  {
    if n < 1 then []
    else SelectIds(m, keep, n - 1) + (if n in m && keep(m[n]) then [n] else [])
  }

  /** Ordered by key, every pair of positions. */
  predicate SortedBy<T>(xs: seq<T>, key: T -> string)
  {
    forall i, j :: 0 <= i < j < |xs| ==> LexLe(key(xs[i]), key(xs[j]))
  }

  /** x put before the first element whose key is not smaller. */
  function InsertByKey<T>(x: T, ys: seq<T>, key: T -> string): (r: seq<T>)
    ensures multiset(r) == multiset(ys) + multiset{x}
    ensures r[0] == x || (ys != [] && r[0] == ys[0])
  {
    if ys == [] then [x]
    else if LexLe(key(x), key(ys[0])) then [x] + ys
    else
      assert ys == [ys[0]] + ys[1..];
      [ys[0]] + InsertByKey(x, ys[1..], key)
  }

  /** Putting in front an element whose key is not above the first one keeps a sequence ordered. */
  lemma ConsSorted<T>(x: T, ys: seq<T>, key: T -> string)
    requires SortedBy(ys, key)
    requires ys != [] ==> LexLe(key(x), key(ys[0]))
    ensures SortedBy([x] + ys, key)
  {
    var r := [x] + ys;
    forall i, j | 0 <= i < j < |r|
      ensures LexLe(key(r[i]), key(r[j]))
    {
      if i == 0 && j > 1 {
        LexLeTransitive(key(x), key(ys[0]), key(ys[j - 1]));
      }
    }
  }

  lemma {:induction false} InsertByKeySorted<T>(x: T, ys: seq<T>, key: T -> string)
    requires SortedBy(ys, key)
    ensures SortedBy(InsertByKey(x, ys, key), key)
  {
    if ys == [] {
    } else if LexLe(key(x), key(ys[0])) {
      ConsSorted(x, ys, key);
    } else {
      var tail := InsertByKey(x, ys[1..], key);
      assert SortedBy(ys[1..], key) by {
        forall i, j | 0 <= i < j < |ys[1..]|
          ensures LexLe(key(ys[1..][i]), key(ys[1..][j]))
        {
          assert ys[1..][i] == ys[i + 1] && ys[1..][j] == ys[j + 1];
        }
      }
      InsertByKeySorted(x, ys[1..], key);
      LexLeTotal(key(x), key(ys[0]));
      assert |ys| > 1 ==> LexLe(key(ys[0]), key(ys[1]));
      ConsSorted(ys[0], tail, key);
    }
  }

  /** Insertion sort by key; equal keys keep no particular order. */
  function SortByKey<T>(xs: seq<T>, key: T -> string): (r: seq<T>)
    ensures multiset(r) == multiset(xs)
  {
    if xs == [] then [] else
      assert xs == [xs[0]] + xs[1..];
      InsertByKey(xs[0], SortByKey(xs[1..], key), key)
  }

  lemma {:induction false} SortByKeySorted<T>(xs: seq<T>, key: T -> string)
    ensures SortedBy(SortByKey(xs, key), key)
  {
    if xs != [] {
      SortByKeySorted(xs[1..], key);
      InsertByKeySorted(xs[0], SortByKey(xs[1..], key), key);
    }
  }
  // ---------------------------------------------------------------------------
  // LIKE

  /** SQLite folds the case of ASCII letters only. */
  function Lower(c: char): char
  {
    if 'A' <= c <= 'Z' then (c as int + 32) as char else c
  }

  /** SQL LIKE: '%' matches any run of characters, '_' any one character, others match ignoring ASCII case. */
  predicate LikeMatch(p: string, s: string)
    decreases |p| + |s|
  {
    if p == [] then s == []
    else if p[0] == '%' then LikeMatch(p[1..], s) || (s != [] && LikeMatch(p, s[1..]))
    else if p[0] == '_' then s != [] && LikeMatch(p[1..], s[1..])
    else s != [] && Lower(p[0]) == Lower(s[0]) && LikeMatch(p[1..], s[1..])
  }

  /** A search text without the wildcards '%' and '_'. */
  predicate Literal(q: string)
  {
    forall i :: 0 <= i < |q| ==> q[i] != '%' && q[i] != '_'
  }

  /** q occurs in s at position i, ignoring ASCII case. */
  predicate OccursAt(q: string, s: string, i: int)
  {
    0 <= i && i + |q| <= |s| && forall k :: 0 <= k < |q| ==> Lower(q[k]) == Lower(s[i + k])
  }

  lemma {:induction false} LikeAnything(s: string)
    ensures LikeMatch("%", s)
    decreases |s|
  {
    if s != [] {
      LikeAnything(s[1..]);
    }
  }

  /** A literal followed by '%' matches exactly the texts that start with it. */
  lemma {:induction false} LikePrefix(q: string, s: string)
    requires Literal(q)
    ensures LikeMatch(q + "%", s) <==> OccursAt(q, s, 0)
    decreases |q|
  {
    if q == [] {
      assert [] + "%" == "%";
      LikeAnything(s);
    } else {
      assert (q + "%")[0] == q[0] && (q + "%")[1..] == q[1..] + "%";
      if s != [] {
        LikePrefix(q[1..], s[1..]);
        if OccursAt(q[1..], s[1..], 0) && Lower(q[0]) == Lower(s[0]) {
          forall k | 0 <= k < |q|
            ensures Lower(q[k]) == Lower(s[k])
          {
            if k > 0 {
              assert q[k] == q[1..][k - 1] && s[k] == s[1..][k - 1];
            }
          }
        }
        if OccursAt(q, s, 0) {
          forall k | 0 <= k < |q| - 1
            ensures Lower(q[1..][k]) == Lower(s[1..][k])
          {
            assert q[1..][k] == q[k + 1] && s[1..][k] == s[k + 1];
          }
        }
      }
    }
  }

  /** A leading '%' tries the rest of the pattern at every position. */
  lemma {:induction false} LikeSkip(p: string, s: string)
    ensures LikeMatch("%" + p, s) <==> exists i :: 0 <= i <= |s| && LikeMatch(p, s[i..])
    decreases |s|
  {
    var pp := "%" + p;
    assert pp[0] == '%' && pp[1..] == p;
    assert s[0..] == s;
    if s != [] {
      LikeSkip(p, s[1..]);
      if exists i :: 0 <= i <= |s[1..]| && LikeMatch(p, s[1..][i..]) {
        var i :| 0 <= i <= |s[1..]| && LikeMatch(p, s[1..][i..]);
        assert s[1..][i..] == s[i + 1..];
      }
      if exists i :: 0 <= i <= |s| && LikeMatch(p, s[i..]) {
        var i :| 0 <= i <= |s| && LikeMatch(p, s[i..]);
        if i > 0 {
          assert s[1..][i - 1..] == s[i..];
        }
      }
    }
  }

  /**
   * The search pattern "%q%" of a text without wildcards matches exactly the texts
   * that contain q, ignoring ASCII case.
   */
  lemma LikeContains(q: string, s: string)
    requires Literal(q)
    ensures LikeMatch("%" + q + "%", s) <==> exists i :: OccursAt(q, s, i)
  {
    assert "%" + q + "%" == "%" + (q + "%");
    LikeSkip(q + "%", s);
    forall i | 0 <= i <= |s|
      ensures LikeMatch(q + "%", s[i..]) <==> OccursAt(q, s, i)
    {
      LikePrefix(q, s[i..]);
      if OccursAt(q, s[i..], 0) {
        forall k | 0 <= k < |q|
          ensures Lower(q[k]) == Lower(s[i + k])
        {
          assert s[i..][k] == s[i + k];
        }
      }
      if OccursAt(q, s, i) {
        forall k | 0 <= k < |q|
          ensures Lower(q[k]) == Lower(s[i..][k])
        {
          assert s[i..][k] == s[i + k];
        }
      }
    }
  }

  // ---------------------------------------------------------------------------
  // Queries over the tables

  /**
   * SELECT … WHERE keep ORDER BY key over the ids 1..n: the rows that pass, read
   * into records and sorted by the key.
   */
  function Listing<R, T>(m: map<int, R>, keep: R -> bool, n: int, read: (int, R) -> T, key: T -> string): seq<T>
  {
    SortByKey(ReadRows(m, SelectIds(m, keep, n), read), key)
  }

  /** The records of the rows with the given ids, in the same order. */
  function ReadRows<R, T>(m: map<int, R>, ids: seq<int>, read: (int, R) -> T): (rows: seq<T>)
    requires forall k :: 0 <= k < |ids| ==> ids[k] in m
    ensures |rows| == |ids|
    ensures forall k :: 0 <= k < |ids| ==> rows[k] == read(ids[k], m[ids[k]])
  {
    if ids == [] then [] else [read(ids[0], m[ids[0]])] + ReadRows(m, ids[1..], read)
  }

  lemma ListingSorted<R, T>(m: map<int, R>, keep: R -> bool, n: int, read: (int, R) -> T, key: T -> string)
    ensures SortedBy(Listing(m, keep, n, read, key), key)
  {
    SortByKeySorted(ReadRows(m, SelectIds(m, keep, n), read), key);
  }

  lemma ListingSound<R, T>(m: map<int, R>, keep: R -> bool, n: int, read: (int, R) -> T, key: T -> string)
    ensures forall x :: x in Listing(m, keep, n, read, key) ==>
      exists id :: 1 <= id <= n && id in m && keep(m[id]) && x == read(id, m[id])
  {
    var ids := SelectIds(m, keep, n);
    var rows := ReadRows(m, ids, read);
    forall x | x in Listing(m, keep, n, read, key)
      ensures exists id :: 1 <= id <= n && id in m && keep(m[id]) && x == read(id, m[id])
    {
      assert x in multiset(rows);
      var k :| 0 <= k < |rows| && rows[k] == x;
      assert x == read(ids[k], m[ids[k]]);
    }
  }

  lemma ListingComplete<R, T>(m: map<int, R>, keep: R -> bool, n: int, read: (int, R) -> T, key: T -> string)
    ensures forall id :: 1 <= id <= n && id in m && keep(m[id]) ==> read(id, m[id]) in Listing(m, keep, n, read, key)
  {
    var ids := SelectIds(m, keep, n);
    var rows := ReadRows(m, ids, read);
    forall id | 1 <= id <= n && id in m && keep(m[id])
      ensures read(id, m[id]) in Listing(m, keep, n, read, key)
    {
      var k :| 0 <= k < |ids| && ids[k] == id;
      assert rows[k] == read(id, m[id]);
      assert read(id, m[id]) in multiset(rows);
    }
  }

  /** When a record tells its id, no row is listed twice. */
  lemma ListingOnce<R, T>(m: map<int, R>, keep: R -> bool, n: int, read: (int, R) -> T, key: T -> string, idOf: T -> int)
    requires forall id, row :: idOf(read(id, row)) == id
    ensures forall x :: multiset(Listing(m, keep, n, read, key))[x] <= 1
  {
    var ids := SelectIds(m, keep, n);
    var rows := ReadRows(m, ids, read);
    forall i, j | 0 <= i < j < |rows|
      ensures idOf(rows[i]) != idOf(rows[j])
    {
      assert idOf(rows[i]) == ids[i] && idOf(rows[j]) == ids[j];
    }
    DistinctIdsOnce(rows, idOf);
  }

  /** Elements whose ids are pairwise distinct occur once each. */
  lemma {:induction false} DistinctIdsOnce<T>(xs: seq<T>, idOf: T -> int)
    requires forall i, j :: 0 <= i < j < |xs| ==> idOf(xs[i]) != idOf(xs[j])
    ensures forall x :: multiset(xs)[x] <= 1
  {
    if xs != [] {
      var init := xs[..|xs| - 1];
      DistinctIdsOnce(init, idOf);
      assert xs == init + [xs[|xs| - 1]];
      forall k | 0 <= k < |init|
        ensures init[k] != xs[|xs| - 1]
      {
        assert idOf(xs[k]) != idOf(xs[|xs| - 1]);
      }
    }
  }

  function HostName(h: Host): string { h.name }
  function TunnelName(t: Tunnel): string { t.name }
  function HostIdOf(h: Host): int { h.id.GetOr(0) }
  function TunnelIdOf(t: Tunnel): int { t.id.GetOr(0) }

  /** list_hosts' filter: name LIKE '%search%' OR hostname LIKE '%search%', with the search as typed. */
  predicate HostMatches(row: HostRow, search: string)
  {
    LikeMatch("%" + search + "%", row.name) || LikeMatch("%" + search + "%", row.hostname)
  }

  /** The rows a host listing selects: all of them for a blank search. */
  predicate HostSelected(row: HostRow, search: string)
  {
    IsBlank(search) || HostMatches(row, search)
  }

  /** list_hosts over the ids 1..n: every selected host exactly once, nothing else, ordered by name. */
  function ListHostsIn(m: map<int, HostRow>, search: string, n: int): (r: seq<Host>)
    ensures SortedBy(r, HostName)
    ensures forall h :: h in r ==>
      (h.id.Some? && 1 <= h.id.value <= n && h.id.value in m
       && HostSelected(m[h.id.value], search) && h == RowToHost(h.id.value, m[h.id.value]))
    ensures forall id :: 1 <= id <= n && id in m && HostSelected(m[id], search) ==> RowToHost(id, m[id]) in r
    ensures forall h :: multiset(r)[h] <= 1
  {
    var keep := (row: HostRow) => HostSelected(row, search);
    ListingSound(m, keep, n, RowToHost, HostName);
    ListingComplete(m, keep, n, RowToHost, HostName);
    ListingOnce(m, keep, n, RowToHost, HostName, HostIdOf);
    ListingSorted(m, keep, n, RowToHost, HostName);
    Listing(m, keep, n, RowToHost, HostName)
  }

  /** list_tunnels over the ids 1..n: every tunnel of the host exactly once, nothing else, ordered by name. */
  function ListTunnelsIn(m: map<int, TunnelRow>, hostId: int, n: int): (r: seq<Tunnel>)
    ensures SortedBy(r, TunnelName)
    ensures forall t :: t in r ==>
      (t.id.Some? && 1 <= t.id.value <= n && t.id.value in m
       && t.hostId == hostId && t == RowToTunnel(t.id.value, m[t.id.value]))
    ensures forall id :: 1 <= id <= n && id in m && m[id].hostId == hostId ==> RowToTunnel(id, m[id]) in r
    ensures forall t :: multiset(r)[t] <= 1
  {
    var keep := (row: TunnelRow) => row.hostId == hostId;
    ListingSound(m, keep, n, RowToTunnel, TunnelName);
    ListingComplete(m, keep, n, RowToTunnel, TunnelName);
    ListingOnce(m, keep, n, RowToTunnel, TunnelName, TunnelIdOf);
    ListingSorted(m, keep, n, RowToTunnel, TunnelName);
    Listing(m, keep, n, RowToTunnel, TunnelName)
  }

  /**
   * get_latest_run over the ids 1..n: a run of the tunnel, if it has any; of several
   * with the same started_at the model keeps the smallest id.
   */
  function LatestRunIn(m: map<int, RunRow>, tunnelId: int, n: int): (r: Option<int>)
    ensures r.Some? ==> 1 <= r.value <= n && r.value in m && m[r.value].tunnelId == tunnelId
    decreases n
  {
    if n < 1 then None
    else
      var best := LatestRunIn(m, tunnelId, n - 1);
      if n in m && m[n].tunnelId == tunnelId && (best.None? || !LexLe(m[n].startedAt, m[best.value].startedAt))
      then Some(n)
      else best
  }

  /** ORDER BY started_at DESC LIMIT 1: nothing only when the tunnel has no run, else a latest one. */
  lemma {:induction false} LatestRunInSpec(m: map<int, RunRow>, tunnelId: int, n: int)
    ensures var r := LatestRunIn(m, tunnelId, n);
      (r.None? <==> forall id :: 1 <= id <= n && id in m ==> m[id].tunnelId != tunnelId)
      && (r.Some? ==> forall id :: 1 <= id <= n && id in m && m[id].tunnelId == tunnelId ==>
            LexLe(m[id].startedAt, m[r.value].startedAt))
    decreases n
  {
    if n >= 1 {
      LatestRunInSpec(m, tunnelId, n - 1);
      var best := LatestRunIn(m, tunnelId, n - 1);
      if n in m && m[n].tunnelId == tunnelId {
        LexLeReflexive(m[n].startedAt);
        if best.Some? {
          LexLeTotal(m[n].startedAt, m[best.value].startedAt);
          forall id | 1 <= id <= n - 1 && id in m && m[id].tunnelId == tunnelId
            ensures LexLe(m[id].startedAt, m[LatestRunIn(m, tunnelId, n).value].startedAt)
          {
            if !LexLe(m[n].startedAt, m[best.value].startedAt) {
              LexLeTransitive(m[id].startedAt, m[best.value].startedAt, m[n].startedAt);
            }
          }
        }
      }
    }
  }

  lemma {:induction false} LexLeReflexive(a: string)
    ensures LexLe(a, a)
    decreases |a|
  {
    if a != [] {
      LexLeReflexive(a[1..]);
    }
  }

  // ---------------------------------------------------------------------------
  // The database

  class Store {
    var hosts: map<int, HostRow>
    var tunnels: map<int, TunnelRow>
    var runs: map<int, RunRow>
    /** The largest id each table has ever handed out (SQLite's sqlite_sequence). */
    var hostSeq: nat
    var tunnelSeq: nat
    var runSeq: nat

    /** Every id in use was handed out by its table's sequence. */
    ghost predicate Valid()
      reads this
    {
      (forall id :: id in hosts ==> 1 <= id <= hostSeq)
      && (forall id :: id in tunnels ==> 1 <= id <= tunnelSeq)
      && (forall id :: id in runs ==> 1 <= id <= runSeq)
    }

    /** init_db on a new database file: three empty tables. */
    constructor ()
      ensures Valid()
      ensures hosts == map[] && tunnels == map[] && runs == map[]
      ensures hostSeq == 0 && tunnelSeq == 0 && runSeq == 0
    {
      hosts, tunnels, runs := map[], map[], map[];
      hostSeq, tunnelSeq, runSeq := 0, 0, 0;
    }

    // Hosts

    /** list_hosts: a blank search lists every host; otherwise name or hostname must match '%search%'. */
    function ListHosts(search: string): (r: seq<Host>)
      reads this
      ensures SortedBy(r, HostName)
      ensures forall h :: h in r ==>
        h.id.Some? && h.id.value in hosts && HostSelected(hosts[h.id.value], search) && h == RowToHost(h.id.value, hosts[h.id.value])
      ensures Valid() ==> forall id :: id in hosts && HostSelected(hosts[id], search) ==> RowToHost(id, hosts[id]) in r
      ensures forall h :: multiset(r)[h] <= 1
    {
      ListHostsIn(hosts, search, hostSeq)
    }

    /** get_host. */
    function GetHost(id: int): (r: Option<Host>)
      reads this
      ensures r.Some? <==> id in hosts
      ensures r.Some? ==> r.value == RowToHost(id, hosts[id]) && r.value.id == Some(id)
    {
      if id in hosts then Some(RowToHost(id, hosts[id])) else None
    }

    /** insert_host: a new row under an id never used before; `created` and `updated` are two clock readings. */
    method InsertHost(h: Host, created: string, updated: string) returns (id: int)
      requires Valid()
      modifies this
      ensures Valid()
      ensures id == old(hostSeq) + 1 && id !in old(hosts)
      ensures hosts == old(hosts)[id := HostValues(h, Some(created), updated)] && hostSeq == id
      ensures tunnels == old(tunnels) && runs == old(runs) && tunnelSeq == old(tunnelSeq) && runSeq == old(runSeq)
      ensures GetHost(id) == Some(h.(id := Some(id), createdAt := Some(created), updatedAt := Some(updated)))
    {
      id := hostSeq + 1;
      hostSeq := id;
      hosts := hosts[id := HostValues(h, Some(created), updated)];
      HostRoundTrip(h, id, Some(created), updated);
    }

    /**
     * update_host: refused for a host without id; otherwise the row with that id, if any,
     * gets the host's configuration and the new updated_at, and keeps its created_at.
     */
    method UpdateHost(h: Host, now: string) returns (r: Result<()>)
      requires Valid()
      modifies this
      ensures Valid()
      ensures h.id.None? ==> r == Raised(ValueError("Host must have id to update")) && hosts == old(hosts)
      ensures h.id.Some? ==> r == Ok(())
      ensures h.id.Some? && h.id.value in old(hosts) ==>
        hosts == old(hosts)[h.id.value := HostValues(h, old(hosts)[h.id.value].createdAt, now)]
      ensures h.id.Some? && h.id.value !in old(hosts) ==> hosts == old(hosts)
      ensures tunnels == old(tunnels) && runs == old(runs)
      ensures hostSeq == old(hostSeq) && tunnelSeq == old(tunnelSeq) && runSeq == old(runSeq)
    {
      if h.id.None? {
        return Raised(ValueError("Host must have id to update"));
      }
      var id := h.id.value;
      if id in hosts {
        hosts := hosts[id := HostValues(h, hosts[id].createdAt, now)];
      }
      return Ok(());
    }

    /** delete_host: the row goes; its tunnels stay, since foreign keys are never switched on. */
    method DeleteHost(id: int)
      requires Valid()
      modifies this
      ensures Valid()
      ensures hosts == old(hosts) - {id}
      ensures tunnels == old(tunnels) && runs == old(runs)
      ensures hostSeq == old(hostSeq) && tunnelSeq == old(tunnelSeq) && runSeq == old(runSeq)
    {
      hosts := hosts - {id};
    }

    // Tunnels

    /** list_tunnels: the tunnels of one host, ordered by name. */
    function ListTunnels(hostId: int): (r: seq<Tunnel>)
      reads this
      ensures SortedBy(r, TunnelName)
      ensures forall t :: t in r ==>
        t.id.Some? && t.id.value in tunnels && t.hostId == hostId && t == RowToTunnel(t.id.value, tunnels[t.id.value])
      ensures Valid() ==> forall id :: id in tunnels && tunnels[id].hostId == hostId ==> RowToTunnel(id, tunnels[id]) in r
      ensures forall t :: multiset(r)[t] <= 1
    {
      ListTunnelsIn(tunnels, hostId, tunnelSeq)
    }

    function GetTunnel(id: int): (r: Option<Tunnel>)
      reads this
      ensures r.Some? <==> id in tunnels
      ensures r.Some? ==> r.value == RowToTunnel(id, tunnels[id]) && r.value.id == Some(id)
    {
      if id in tunnels then Some(RowToTunnel(id, tunnels[id])) else None
    }

    method InsertTunnel(t: Tunnel, created: string, updated: string) returns (id: int)
      requires Valid()
      modifies this
      ensures Valid()
      ensures id == old(tunnelSeq) + 1 && id !in old(tunnels)
      ensures tunnels == old(tunnels)[id := TunnelValues(t, t.hostId, Some(created), updated)] && tunnelSeq == id
      ensures hosts == old(hosts) && runs == old(runs) && hostSeq == old(hostSeq) && runSeq == old(runSeq)
      ensures GetTunnel(id) == Some(t.(id := Some(id), createdAt := Some(created), updatedAt := Some(updated)))
    {
      id := tunnelSeq + 1;
      tunnelSeq := id;
      tunnels := tunnels[id := TunnelValues(t, t.hostId, Some(created), updated)];
      TunnelRoundTrip(t, id, Some(created), updated);
    }

    /**
     * update_tunnel: refused for a tunnel without id; otherwise the row keeps its host and
     * created_at and takes every other configuration field and the new updated_at.
     */
    method UpdateTunnel(t: Tunnel, now: string) returns (r: Result<()>)
      requires Valid()
      modifies this
      ensures Valid()
      ensures t.id.None? ==> r == Raised(ValueError("Tunnel must have id to update")) && tunnels == old(tunnels)
      ensures t.id.Some? ==> r == Ok(())
      ensures t.id.Some? && t.id.value in old(tunnels) ==>
        var row := old(tunnels)[t.id.value];
        tunnels == old(tunnels)[t.id.value := TunnelValues(t, row.hostId, row.createdAt, now)]
      ensures t.id.Some? && t.id.value !in old(tunnels) ==> tunnels == old(tunnels)
      ensures hosts == old(hosts) && runs == old(runs)
      ensures hostSeq == old(hostSeq) && tunnelSeq == old(tunnelSeq) && runSeq == old(runSeq)
    {
      if t.id.None? {
        return Raised(ValueError("Tunnel must have id to update"));
      }
      var id := t.id.value;
      if id in tunnels {
        tunnels := tunnels[id := TunnelValues(t, tunnels[id].hostId, tunnels[id].createdAt, now)];
      }
      return Ok(());
    }

    /** delete_tunnel: the row goes; its runs stay. */
    method DeleteTunnel(id: int)
      requires Valid()
      modifies this
      ensures Valid()
      ensures tunnels == old(tunnels) - {id}
      ensures hosts == old(hosts) && runs == old(runs)
      ensures hostSeq == old(hostSeq) && tunnelSeq == old(tunnelSeq) && runSeq == old(runSeq)
    {
      tunnels := tunnels - {id};
    }

    // Runs

    method InsertRun(r: Run) returns (id: int)
      requires Valid()
      modifies this
      ensures Valid()
      ensures id == old(runSeq) + 1 && id !in old(runs)
      ensures runs == old(runs)[id := RunValues(r)] && runSeq == id
      ensures hosts == old(hosts) && tunnels == old(tunnels) && hostSeq == old(hostSeq) && tunnelSeq == old(tunnelSeq)
    {
      id := runSeq + 1;
      runSeq := id;
      runs := runs[id := RunValues(r)];
    }

    /** update_run_stopped: only stopped_at and exit_code of that run change. */
    method UpdateRunStopped(runId: int, stoppedAt: string, exitCode: Option<int>)
      requires Valid()
      modifies this
      ensures Valid()
      ensures runId in old(runs) ==>
        runs == old(runs)[runId := old(runs)[runId].(stoppedAt := Some(stoppedAt), exitCode := exitCode)]
      ensures runId !in old(runs) ==> runs == old(runs)
      ensures hosts == old(hosts) && tunnels == old(tunnels)
      ensures hostSeq == old(hostSeq) && tunnelSeq == old(tunnelSeq) && runSeq == old(runSeq)
    {
      if runId in runs {
        runs := runs[runId := runs[runId].(stoppedAt := Some(stoppedAt), exitCode := exitCode)];
      }
    }

    /** update_run_log_path: only log_path of that run changes. */
    method UpdateRunLogPath(runId: int, logPath: string)
      requires Valid()
      modifies this
      ensures Valid()
      ensures runId in old(runs) ==> runs == old(runs)[runId := old(runs)[runId].(logPath := Some(logPath))]
      ensures runId !in old(runs) ==> runs == old(runs)
      ensures hosts == old(hosts) && tunnels == old(tunnels)
      ensures hostSeq == old(hostSeq) && tunnelSeq == old(tunnelSeq) && runSeq == old(runSeq)
    {
      if runId in runs {
        runs := runs[runId := runs[runId].(logPath := Some(logPath))];
      }
    }

    /** get_latest_run: none for a tunnel without runs, else a run of it with the greatest started_at. */
    function GetLatestRun(tunnelId: int): (r: Option<Run>)
      reads this
      requires Valid()
      ensures r.None? <==> forall id :: id in runs ==> runs[id].tunnelId != tunnelId
      ensures r.Some? ==>
        (r.value.id.Some? && r.value.id.value in runs
         && r.value == RowToRun(r.value.id.value, runs[r.value.id.value]) && r.value.tunnelId == tunnelId)
      ensures r.Some? ==> forall id :: id in runs && runs[id].tunnelId == tunnelId ==>
        LexLe(runs[id].startedAt, r.value.startedAt)
    {
      LatestRunInSpec(runs, tunnelId, runSeq);
      match LatestRunIn(runs, tunnelId, runSeq)
      case None => None
      case Some(id) => Some(RowToRun(id, runs[id]))
    }
  }
}
