/**
 * The two ssh-client backends: a managed child process whose output is streamed
 * line by line into the log, and a detached process that outlives the application.
 * The operating system is represented by oracle parameters (whether a file opens,
 * whether the process launched, its pid) and by a Disk holding the files written.
 */
module ProcessManager {
  import opened Wrappers
  import opened Text
  import opened Models
  import SshBuilder

  // ---------------------------------------------------------------------------
  // Files

  datatype Path = Path(dir: string, name: string)

  /** The local time datetime.now() reads; fields in their usual ranges when Valid. */
  datatype DateTime = DateTime(year: nat, month: nat, day: nat, hour: nat, minute: nat, second: nat)

  predicate ValidDateTime(t: DateTime)
  {
    1 <= t.year <= 9999 && 1 <= t.month <= 12 && 1 <= t.day <= 31
    && t.hour < 24 && t.minute < 60 && t.second < 60
  }

  /** strftime("%Y%m%d_%H%M%S"). */
  function Timestamp(t: DateTime): (s: string)
    ensures |s| == 15 && s[8] == '_'
  {
    Digits(t.year, 4) + Digits(t.month, 2) + Digits(t.day, 2) + "_"
      + Digits(t.hour, 2) + Digits(t.minute, 2) + Digits(t.second, 2)
  }

  /** Every field of a valid time can be read back from its timestamp. */
  lemma TimestampRoundTrip(t: DateTime)
    requires ValidDateTime(t)
    ensures var s := Timestamp(t);
      ParseNat(s[0..4]) == t.year && ParseNat(s[4..6]) == t.month && ParseNat(s[6..8]) == t.day
      && ParseNat(s[9..11]) == t.hour && ParseNat(s[11..13]) == t.minute && ParseNat(s[13..15]) == t.second
  {
    var s := Timestamp(t);
    assert Pow10(2) == 100 && Pow10(4) == 10000;
    assert s[0..4] == Digits(t.year, 4) && s[4..6] == Digits(t.month, 2) && s[6..8] == Digits(t.day, 2);
    assert s[9..11] == Digits(t.hour, 2) && s[11..13] == Digits(t.minute, 2) && s[13..15] == Digits(t.second, 2);
    ParseNatOfDigits(t.year, 4);
    ParseNatOfDigits(t.month, 2);
    ParseNatOfDigits(t.day, 2);
    ParseNatOfDigits(t.hour, 2);
    ParseNatOfDigits(t.minute, 2);
    ParseNatOfDigits(t.second, 2);
  }

  /** The name of a run's log: tunnel_<id>_<YYYYmmdd_HHMMSS>.log. */
  function LogFileName(tunnelId: int, now: DateTime): string
  {
    "tunnel_" + IntToString(tunnelId) + "_" + Timestamp(now) + ".log"
  }

  /** _log_path_for_tunnel: the log of a run started at `now`, in the logs directory. */
  function LogPathForTunnel(logsDir: string, tunnelId: int, now: DateTime): (p: Path)
    ensures p.dir == logsDir
  {
    Path(logsDir, LogFileName(tunnelId, now))
  }

  lemma LogFileNameParts(tunnelId: int, now: DateTime)
    ensures var s := LogFileName(tunnelId, now);
      var n := |IntToString(tunnelId)|;
      |s| == n + 27 && s[7..7 + n] == IntToString(tunnelId) && s[8 + n..23 + n] == Timestamp(now)
  {
    var id, stamp := IntToString(tunnelId), Timestamp(now);
    var head := "tunnel_" + id + "_";
    assert LogFileName(tunnelId, now) == head + stamp + ".log";
    assert head[7..7 + |id|] == id;
    assert (head + stamp + ".log")[..|head|] == head;
    assert (head + stamp + ".log")[|head|..|head| + 15] == stamp;
  }

  /** Two runs get the same log name only for the same tunnel in the same second. */
  lemma LogFileNameInjective(i: int, t: DateTime, j: int, u: DateTime)
    requires ValidDateTime(t) && ValidDateTime(u)
    requires LogFileName(i, t) == LogFileName(j, u)
    ensures i == j && t == u
  {
    var s := LogFileName(i, t);
    LogFileNameParts(i, t);
    LogFileNameParts(j, u);
    var n := |IntToString(i)|;
    assert IntToString(i) == s[7..7 + n] == IntToString(j);
    IntToStringInjective(i, j);
    assert Timestamp(t) == s[8 + n..23 + n] == Timestamp(u);
    TimestampRoundTrip(t);
    TimestampRoundTrip(u);
  }

  /** The askpass helper's password file, in the temporary directory. */
  function PasswordFile(tempDir: string): Path
  {
    Path(tempDir, "portpilot_ssh_pass.txt")
  }

  /** A run's log never overwrites the password file. */
  lemma LogIsNotPasswordFile(logsDir: string, tempDir: string, tunnelId: int, now: DateTime)
    ensures LogPathForTunnel(logsDir, tunnelId, now) != PasswordFile(tempDir)
  {
    assert LogFileName(tunnelId, now)[0] == 't';
    assert PasswordFile(tempDir).name[0] == 'p';
  }

  /** Text appended to a file; an empty append leaves the file table as it is. */
  function Append(files: map<Path, string>, p: Path, text: string): (r: map<Path, string>)
    ensures text != [] ==> r == files[p := (if p in files then files[p] else []) + text]
    ensures text == [] ==> r == files
  {
    if text == [] then files else files[p := (if p in files then files[p] else []) + text]
  }

  lemma AppendTwice(files: map<Path, string>, p: Path, a: string, b: string)
    ensures Append(Append(files, p, a), p, b) == Append(files, p, a + b)
  {
    if a != [] && b != [] {
      var f := if p in files then files[p] else [];
      assert (f + a) + b == f + (a + b);
    } else if a == [] {
      assert a + b == b;
    } else {
      assert a + b == a;
    }
  }

  /** The files the model writes: logs and the password file, with their contents. */
  class Disk {
    var files: map<Path, string>

    constructor (files: map<Path, string>)
      ensures this.files == files
    {
      this.files := files;
    }

    /** open(p, "w"): the file exists and is empty, or opening failed (`ok` false). */
    method Create(p: Path, ok: bool)
      modifies this
      ensures files == if ok then old(files)[p := []] else old(files)
    {
      if ok {
        files := files[p := []];
      }
    }

    /** _write_password_for_askpass: the file's path, or nothing when writing failed. */
    method WritePasswordForAskpass(tempDir: string, password: string, ok: bool) returns (p: Option<Path>)
      modifies this
      ensures p.Some? <==> ok
      ensures ok ==> p == Some(PasswordFile(tempDir)) && files == old(files)[PasswordFile(tempDir) := password]
      ensures !ok ==> files == old(files)
    {
      if !ok {
        return None;
      }
      files := files[PasswordFile(tempDir) := password];
      return Some(PasswordFile(tempDir));
    }

    /**
     * _delete_password_file: gone, whether or not it existed, when the unlink works (`ok`);
     * a failed unlink is ignored and leaves the file in place.
     */
    method DeletePasswordFile(tempDir: string, ok: bool)
      modifies this
      ensures files == if ok then old(files) - {PasswordFile(tempDir)} else old(files)
    {
      if ok {
        files := files - {PasswordFile(tempDir)};
      }
    }
  }

  // ---------------------------------------------------------------------------
  // Output lines

  /** What a sequence of emitted lines adds to a log: each line and a newline. */
  function LogText(lines: seq<string>): string
  {
    if lines == [] then [] else LogText(lines[..|lines| - 1]) + lines[|lines| - 1] + "\n"
  }

  /** The lines one line of output contributes: none when it is whitespace-only. */
  function Kept(line: string): (r: seq<string>)
    ensures r == NonBlank([line])
  {
    if IsBlank(line) then [] else [line]
  }

  /** One more line of a chunk: it is kept, and written to the log with its newline, exactly when it is not blank. */
  lemma OutputStep(lines: seq<string>, i: int)
    requires 0 <= i < |lines|
    ensures NonBlank(lines[..i + 1]) == NonBlank(lines[..i]) + Kept(lines[i])
    ensures LogText(NonBlank(lines[..i + 1])) == LogText(NonBlank(lines[..i])) + LogText(Kept(lines[i]))
  {
    var init := lines[..i + 1][..i];
    assert init == lines[..i];
    var kept := NonBlank(lines[..i]);
    if IsBlank(lines[i]) {
      assert NonBlank(lines[..i + 1]) == kept + [] == kept;
      assert Kept(lines[i]) == [];
      assert LogText(kept) + LogText([]) == LogText(kept);
    } else {
      assert NonBlank(lines[..i + 1]) == kept + [lines[i]];
      assert (kept + [lines[i]])[..|kept|] == kept;
      assert LogText([lines[i]]) == LogText([]) + lines[i] + "\n";
    }
  }

  /**
   * What the loop of the output handlers appends to an open log: each line that is not
   * whitespace-only and whose write works (`writeOk(k)` for the line at position k), with
   * its newline, in order.
   */
  function Written(lines: seq<string>, writeOk: int -> bool): string
  {
    if lines == [] then []
    else
      var k := |lines| - 1;
      Written(lines[..k], writeOk) + (if writeOk(k) then LogText(Kept(lines[k])) else [])
  }

  /** One more line of a chunk adds its text exactly when it is kept and its write works. */
  lemma WrittenStep(lines: seq<string>, i: int, writeOk: int -> bool)
    requires 0 <= i < |lines|
    ensures Written(lines[..i + 1], writeOk) == Written(lines[..i], writeOk) + (if writeOk(i) then LogText(Kept(lines[i])) else [])
  {
    assert lines[..i + 1][..i] == lines[..i];
  }

  /** When every write works, the log gets exactly the kept lines, each with its newline. */
  lemma {:induction false} WrittenAllOk(lines: seq<string>, writeOk: int -> bool)
    requires forall k :: 0 <= k < |lines| ==> writeOk(k)
    ensures Written(lines, writeOk) == LogText(NonBlank(lines))
  {
    if lines != [] {
      var k := |lines| - 1;
      WrittenAllOk(lines[..k], writeOk);
      assert lines[..k + 1] == lines;
      OutputStep(lines, k);
    }
  }

  /** When no write works, nothing reaches the log. */
  lemma {:induction false} WrittenNoneOk(lines: seq<string>, writeOk: int -> bool)
    requires forall k :: 0 <= k < |lines| ==> !writeOk(k)
    ensures Written(lines, writeOk) == []
  {
    if lines != [] {
      WrittenNoneOk(lines[..|lines| - 1], writeOk);
    }
  }

  /**
   * The lines one output chunk turns into: split at line boundaries, whitespace-only
   * lines dropped. None is blank or holds a line break, and together they keep every
   * visible character of the chunk, in order.
   */
  lemma OutputLines(data: string)
    ensures var ls := NonBlank(SplitLines(data));
      (forall k :: 0 <= k < |ls| ==> !IsBlank(ls[k]) && NoBreak(ls[k]))
      && RemoveSpaces(Flatten(ls)) == RemoveSpaces(data)
  {
    NonBlankIsSubset(SplitLines(data));
    NonBlankKeepsVisible(SplitLines(data));
    SplitLinesDropsOnlyBreaks(data);
    RemoveBreaksKeepsVisible(data);
  }

  lemma {:induction false} NonBlankIsSubset(ls: seq<string>)
    ensures forall k :: 0 <= k < |NonBlank(ls)| ==> !IsBlank(NonBlank(ls)[k]) && NonBlank(ls)[k] in ls
  {
    if ls != [] {
      NonBlankIsSubset(ls[..|ls| - 1]);
    }
  }

  // ---------------------------------------------------------------------------
  // The managed process

  /** The child QProcess: what was launched, with or without askpass, and its state. */
  datatype Child = Child(program: string, arguments: seq<string>, askpass: bool, pid: int, running: bool)

  datatype Signal = Terminate | Kill

  /**
   * How a child answers stop: whether it exits within the grace period after terminate,
   * whether it exits within the wait after kill, and the exit code it finishes with; and
   * whether the unlink of the password file in the finish handler works.
   */
  datatype StopWait = StopWait(exitedInTime: bool, diedAfterKill: bool, code: int, unlinkOk: bool)

  /** The wait in stop sees the child finish. */
  predicate FinishesOnStop(w: StopWait)
  {
    w.exitedInTime || w.diedAfterKill
  }

  /** `if password:` — None and the empty text do not count. */
  predicate Given(password: Option<string>)
  {
    password.Some? && password.value != []
  }

  class ManagedProcess {
    const tunnelId: int
    const host: Host
    const tunnel: Tunnel
    const runId: int
    var process: Option<Child>
    var logPath: Option<Path>
    /** The log file handle is open. */
    var logOpen: bool
    var passFile: Option<Path>
    /** Emitted log_line and finished_signal values, and the signals sent to the child. */
    var emitted: seq<string>
    var finished: seq<(int, int, int)>
    var signals: seq<Signal>

    /** An open log has a path. */
    ghost predicate Valid()
      reads this
    {
      logOpen ==> logPath.Some?
    }

    /** A new managed process: no child, no log, no password file. */
    constructor (tunnelId: int, host: Host, tunnel: Tunnel, runId: int)
      ensures Valid()
      ensures this.tunnelId == tunnelId && this.host == host && this.tunnel == tunnel && this.runId == runId
      ensures process == None && logPath == None && !logOpen && passFile == None
      ensures emitted == [] && finished == [] && signals == []
      ensures !IsRunning() && Pid() == None
    {
      this.tunnelId := tunnelId;
      this.host := host;
      this.tunnel := tunnel;
      this.runId := runId;
      process := None;
      logPath := None;
      logOpen := false;
      passFile := None;
      emitted, finished, signals := [], [], [];
    }

    /** is_running: a child exists and is not in the NotRunning state. */
    predicate IsRunning()
      reads this
      ensures process.None? ==> !IsRunning()
      ensures process.Some? ==> (IsRunning() <==> process.value.running)
    {
      process.Some? && process.value.running
    }

    /** pid: nothing without a child; Qt reports 0 for a child that is not running. */
    function Pid(): (r: Option<int>)
      reads this
      ensures r.None? <==> process.None?
      ensures r.Some? && !IsRunning() ==> r.value == 0
      ensures IsRunning() ==> r == Some(process.value.pid)
    {
      match process
      case None => None
      case Some(c) => Some(if c.running then c.pid else 0)
    }

    /** _emit: the line is signalled, and written to the log while it is open (a failed write is ignored). */
    method Emit(line: string, disk: Disk, writeOk: bool)
      requires Valid()
      modifies this, disk
      ensures Valid()
      ensures emitted == old(emitted) + [line]
      ensures disk.files == if logOpen && writeOk then Append(old(disk.files), logPath.value, line + "\n") else old(disk.files)
      ensures process == old(process) && logPath == old(logPath) && logOpen == old(logOpen)
      ensures passFile == old(passFile) && finished == old(finished) && signals == old(signals)
    {
      emitted := emitted + [line];
      if logOpen && writeOk {
        disk.files := Append(disk.files, logPath.value, line + "\n");
      }
    }

    /** One line of a chunk: emitted only when it is not whitespace-only. */
    method EmitIfVisible(line: string, disk: Disk, writeOk: bool)
      requires Valid()
      modifies this, disk
      ensures Valid()
      ensures emitted == old(emitted) + Kept(line)
      ensures disk.files == if logOpen && writeOk then Append(old(disk.files), logPath.value, LogText(Kept(line)))
                            else old(disk.files)
      ensures process == old(process) && logPath == old(logPath) && logOpen == old(logOpen)
      ensures passFile == old(passFile) && finished == old(finished) && signals == old(signals)
    {
      if !IsBlank(line) {
        Emit(line, disk, writeOk);
        assert Kept(line) == [line];
        assert LogText([line]) == LogText([]) + line + "\n" == line + "\n";
      } else {
        assert Kept(line) == [] && LogText([]) == [];
        assert old(emitted) + [] == old(emitted);
      }
    }

    /**
     * _on_stdout and _on_stderr: a chunk of output is split into lines and each line that
     * is not whitespace-only is emitted, in order. `writeOk(k)` says whether the log write
     * of the line at position k works; each failed write is ignored on its own.
     */
    method OnOutput(data: string, disk: Disk, writeOk: int -> bool)
      requires Valid()
      modifies this, disk
      ensures Valid()
      ensures emitted == old(emitted) + NonBlank(SplitLines(data))
      ensures disk.files == if logOpen then Append(old(disk.files), logPath.value, Written(SplitLines(data), writeOk))
                            else old(disk.files)
      ensures process == old(process) && logPath == old(logPath) && logOpen == old(logOpen)
      ensures passFile == old(passFile) && finished == old(finished) && signals == old(signals)
    {
      var lines := SplitLines(data);
      EmitLines(lines, disk, writeOk);
    }

    /** The loop of the output handlers: each line that is not whitespace-only is emitted, in order. */
    method EmitLines(lines: seq<string>, disk: Disk, writeOk: int -> bool)
      requires Valid()
      modifies this, disk
      ensures Valid()
      ensures process == old(process) && logPath == old(logPath) && logOpen == old(logOpen)
      ensures passFile == old(passFile) && finished == old(finished) && signals == old(signals)
      ensures emitted == old(emitted) + NonBlank(lines)
      ensures disk.files == if logOpen then Append(old(disk.files), logPath.value, Written(lines, writeOk))
                            else old(disk.files)
    {
      ghost var e0, f0 := emitted, disk.files;
      for i := 0 to |lines|
        invariant Valid()
        invariant process == old(process) && logPath == old(logPath) && logOpen == old(logOpen)
        invariant passFile == old(passFile) && finished == old(finished) && signals == old(signals)
        invariant emitted == e0 + NonBlank(lines[..i])
        invariant disk.files == if logOpen then Append(f0, logPath.value, Written(lines[..i], writeOk)) else f0
      {
        OutputStep(lines, i);
        WrittenStep(lines, i, writeOk);
        ghost var kept := NonBlank(lines[..i]);
        EmitIfVisible(lines[i], disk, writeOk(i));
        assert emitted == e0 + (kept + Kept(lines[i]));
        if logOpen {
          AppendTwice(f0, logPath.value, Written(lines[..i], writeOk), if writeOk(i) then LogText(Kept(lines[i])) else []);
        }
      }
      assert lines[..|lines|] == lines;
    }

    /**
     * _on_finished: the log is closed, the password file removed if it is still there and
     * the unlink works (`unlinkOk`; a failed unlink is ignored and leaves the file), and
     * (tunnel id, exit code, run id) is signalled. The child is no longer running.
     */
    method OnFinished(code: int, unlinkOk: bool, disk: Disk)
      requires Valid()
      modifies this, disk
      ensures Valid()
      ensures !logOpen && !IsRunning()
      ensures finished == old(finished) + [(tunnelId, code, runId)]
      ensures disk.files == if passFile.Some? && unlinkOk then old(disk.files) - {passFile.value} else old(disk.files)
      ensures process == if old(process).Some? then Some(old(process).value.(running := false)) else None
      ensures logPath == old(logPath) && passFile == old(passFile) && emitted == old(emitted) && signals == old(signals)
    {
      logOpen := false;
      if passFile.Some? && passFile.value in disk.files && unlinkOk {
        disk.files := disk.files - {passFile.value};
      }
      if process.Some? {
        process := Some(process.value.(running := false));
      }
      finished := finished + [(tunnelId, code, runId)];
    }

    /**
     * stop: nothing to do without a running child; otherwise terminate, and kill when the
     * child has not exited within the grace period. The wait delivers the child's finish
     * at once (_on_finished runs inside it, and `done` says the finish was signalled) when
     * the child exits within the grace period or within the wait after the kill.
     */
    method Stop(w: StopWait, disk: Disk) returns (done: bool)
      requires Valid()
      modifies this, disk
      ensures Valid()
      ensures done <==> old(IsRunning()) && FinishesOnStop(w)
      ensures signals == old(signals) + (if old(IsRunning()) then [Terminate] + (if w.exitedInTime then [] else [Kill]) else [])
      ensures done ==>
        !logOpen && !IsRunning() && process == Some(old(process).value.(running := false))
        && finished == old(finished) + [(tunnelId, w.code, runId)]
        && disk.files == if passFile.Some? && w.unlinkOk then old(disk.files) - {passFile.value} else old(disk.files)
      ensures !done ==>
        process == old(process) && logOpen == old(logOpen) && finished == old(finished) && disk.files == old(disk.files)
      ensures logPath == old(logPath) && passFile == old(passFile) && emitted == old(emitted)
    {
      done := false;
      if process.Some? && process.value.running {
        signals := signals + [Terminate];
        if !w.exitedInTime {
          signals := signals + [Kill];
        }
        if FinishesOnStop(w) {
          OnFinished(w.code, w.unlinkOk, disk);
          done := true;
        }
      }
    }

    /**
     * start. The command is built first: a missing ssh client is logged and start fails,
     * an unknown tunnel type propagates. Then the log is opened (a failure is logged and
     * start fails) and the child launched.
     */
    method Start(password: Option<string>, sshPath: Option<string>, logsDir: string, now: DateTime,
                 tempDir: string, disk: Disk, openOk: bool, openError: string, passWriteOk: bool,
                 launched: bool, errorString: string, pid: int, lineWriteOk: bool) returns (r: Result<bool>)
      requires Valid()
      modifies this, disk
      ensures Valid()
      ensures finished == old(finished) && signals == old(signals)
      ensures var cmd := SshBuilder.BuildFullCommand(sshPath, host, tunnel);
        cmd.Raised? && cmd.exc.ValueError? ==> r == Raised(cmd.exc) && unchanged(this) && disk.files == old(disk.files)
      ensures var cmd := SshBuilder.BuildFullCommand(sshPath, host, tunnel);
        cmd.Raised? && cmd.exc.FileNotFoundError? ==>
          r == Ok(false) && emitted == old(emitted) + ["Error: " + cmd.exc.msg]
          && process == old(process) && logPath == old(logPath) && logOpen == old(logOpen) && passFile == old(passFile)
          && disk.files == old(disk.files)
      ensures var cmd := SshBuilder.BuildFullCommand(sshPath, host, tunnel);
        cmd.Ok? ==> logPath == Some(LogPathForTunnel(logsDir, tunnelId, now))
      ensures var cmd := SshBuilder.BuildFullCommand(sshPath, host, tunnel);
        cmd.Ok? && !openOk ==>
          r == Ok(false) && emitted == old(emitted) + ["Failed to open log file: " + openError]
          && process == old(process) && logOpen == old(logOpen) && passFile == old(passFile)
          && disk.files == old(disk.files)
      ensures var cmd := SshBuilder.BuildFullCommand(sshPath, host, tunnel);
        var log := LogPathForTunnel(logsDir, tunnelId, now);
        cmd.Ok? && openOk ==>
          r == Ok(launched) && logOpen == launched
          && process == Some(Child(cmd.value[0], cmd.value[1..], Given(password) && passWriteOk, if launched then pid else 0, launched))
          && passFile == (if !Given(password) then old(passFile) else if passWriteOk then Some(PasswordFile(tempDir)) else None)
          && emitted == old(emitted) + [LaunchLine(launched, pid, errorString)]
          && disk.files == WithPassword(old(disk.files)[log := []], tempDir, password, passWriteOk)[log := LaunchLog(launched, pid, errorString, lineWriteOk)]
    {
      var cmd := SshBuilder.BuildFullCommand(sshPath, host, tunnel);
      if cmd.Raised? {
        if cmd.exc.ValueError? {
          return Raised(cmd.exc);
        }
        emitted := emitted + ["Error: " + cmd.exc.msg];
        return Ok(false);
      }
      var ok := OpenLogAndLaunch(cmd.value[0], cmd.value[1..], password, logsDir, now, tempDir, disk,
                                 openOk, openError, passWriteOk, launched, errorString, pid, lineWriteOk);
      return Ok(ok);
    }

    /** The part of start after the command is built: the log is opened, then the child launched. */
    method OpenLogAndLaunch(program: string, arguments: seq<string>, password: Option<string>, logsDir: string,
                            now: DateTime, tempDir: string, disk: Disk, openOk: bool, openError: string,
                            passWriteOk: bool, launched: bool, errorString: string, pid: int, lineWriteOk: bool)
      returns (ok: bool)
      requires Valid()
      modifies this, disk
      ensures Valid()
      ensures finished == old(finished) && signals == old(signals)
      ensures logPath == Some(LogPathForTunnel(logsDir, tunnelId, now))
      ensures !openOk ==>
        !ok && emitted == old(emitted) + ["Failed to open log file: " + openError]
        && process == old(process) && logOpen == old(logOpen) && passFile == old(passFile)
        && disk.files == old(disk.files)
      ensures var log := LogPathForTunnel(logsDir, tunnelId, now);
        openOk ==>
          ok == launched && logOpen == launched
          && process == Some(Child(program, arguments, Given(password) && passWriteOk, if launched then pid else 0, launched))
          && passFile == (if !Given(password) then old(passFile) else if passWriteOk then Some(PasswordFile(tempDir)) else None)
          && emitted == old(emitted) + [LaunchLine(launched, pid, errorString)]
          && disk.files == WithPassword(old(disk.files)[log := []], tempDir, password, passWriteOk)[log := LaunchLog(launched, pid, errorString, lineWriteOk)]
    {
      var path := LogPathForTunnel(logsDir, tunnelId, now);
      logPath := Some(path);
      if !openOk {
        emitted := emitted + ["Failed to open log file: " + openError];
        return false;
      }
      disk.Create(path, true);
      logOpen := true;
      LogIsNotPasswordFile(logsDir, tempDir, tunnelId, now);
      ok := Launch(program, arguments, password, tempDir, disk, passWriteOk, launched, errorString, pid, lineWriteOk);
    }

    /**
     * The rest of start, once the log is open: the password file is written when a password
     * is given (askpass is set only when that worked), and the child launched. A child that
     * does not start is logged and the log closed; otherwise its pid is logged. Either line
     * reaches the log only when its write works (`lineWriteOk`); a failed write is ignored.
     */
    method Launch(program: string, arguments: seq<string>, password: Option<string>, tempDir: string, disk: Disk,
                  passWriteOk: bool, launched: bool, errorString: string, pid: int, lineWriteOk: bool) returns (ok: bool)
      requires Valid() && logOpen
      requires logPath.value in disk.files && disk.files[logPath.value] == []
      requires logPath.value != PasswordFile(tempDir)
      modifies this, disk
      ensures Valid() && logPath == old(logPath)
      ensures ok == launched && logOpen == launched
      ensures process == Some(Child(program, arguments, Given(password) && passWriteOk, if launched then pid else 0, launched))
      ensures passFile == (if !Given(password) then old(passFile) else if passWriteOk then Some(PasswordFile(tempDir)) else None)
      ensures emitted == old(emitted) + [LaunchLine(launched, pid, errorString)]
      ensures disk.files == WithPassword(old(disk.files), tempDir, password, passWriteOk)[logPath.value := LaunchLog(launched, pid, errorString, lineWriteOk)]
      ensures finished == old(finished) && signals == old(signals)
    {
      var askpass := false;
      if Given(password) {
        passFile := disk.WritePasswordForAskpass(tempDir, password.value, passWriteOk);
        askpass := passFile.Some?;
      }
      assert disk.files == WithPassword(old(disk.files), tempDir, password, passWriteOk);
      assert disk.files[logPath.value] == [];
      var line := LaunchLine(launched, pid, errorString);
      assert [] + (line + "\n") == line + "\n";
      if !launched {
        process := Some(Child(program, arguments, askpass, 0, false));
        Emit(line, disk, lineWriteOk);
        logOpen := false;
        return false;
      }
      process := Some(Child(program, arguments, askpass, pid, true));
      Emit(line, disk, lineWriteOk);
      return true;
    }
  }

  /** The line start logs once the launch is decided. */
  function LaunchLine(launched: bool, pid: int, errorString: string): string
  {
    if launched then "Started PID " + IntToString(pid) else "Failed to start: " + errorString
  }

  /** What start leaves in the log it has just created: the launch line, when its write works. */
  function LaunchLog(launched: bool, pid: int, errorString: string, writeOk: bool): (text: string)
    ensures writeOk <==> text != []
    ensures writeOk ==> text == LaunchLine(launched, pid, errorString) + "\n"
  {
    if writeOk then LaunchLine(launched, pid, errorString) + "\n" else []
  }

  /** The files after the password file is written for askpass: only when a password is given and the write works. */
  function WithPassword(files: map<Path, string>, tempDir: string, password: Option<string>, ok: bool): map<Path, string>
  {
    if Given(password) && ok then files[PasswordFile(tempDir) := password.value] else files
  }

  // ---------------------------------------------------------------------------
  // The detached process

  /**
   * What happened when the detached child was spawned: its pid; the exception's (non-empty)
   * text when it could not be spawned; or its pid and the exception's text when it was
   * spawned but writing or flushing the line naming it into the log raised.
   */
  datatype Spawn = Spawned(pid: int) | SpawnFailed(error: Message) | LogWriteFailed(pid: int, error: Message)

  /** start_detached's triple (pid, log path, error). */
  datatype Detached = Detached(pid: Option<int>, logPath: Option<Path>, error: Option<string>)

  /**
   * start_detached: (pid, log path, no error) once the child is spawned and its pid line
   * written, (none, none, error) otherwise; the log holds one line naming the pid, or is
   * deleted when the spawn or that write failed. A child whose pid line could not be written
   * keeps running, and its pid is not returned. The password file is written whenever a
   * password is given, and a failed write is not noticed.
   */
  method StartDetached(tunnelId: int, host: Host, tunnel: Tunnel, password: Option<string>, sshPath: Option<string>,
                       logsDir: string, now: DateTime, tempDir: string, disk: Disk,
                       openOk: bool, openError: string, passWriteOk: bool, spawn: Spawn) returns (r: Result<Detached>)
    modifies disk
    ensures r.Ok? ==> (r.value.pid.Some? && r.value.logPath.Some? && r.value.error.None?)
                      || (r.value.pid.None? && r.value.logPath.None? && r.value.error.Some?)
    ensures r.Ok? && r.value.error.Some? ==> r.value.error.value != []
    ensures var cmd := SshBuilder.BuildFullCommand(sshPath, host, tunnel);
      cmd.Raised? && cmd.exc.ValueError? ==> r == Raised(cmd.exc) && disk.files == old(disk.files)
    ensures var cmd := SshBuilder.BuildFullCommand(sshPath, host, tunnel);
      cmd.Raised? && cmd.exc.FileNotFoundError? ==>
        r == Ok(Detached(None, None, Some(cmd.exc.msg))) && disk.files == old(disk.files)
    ensures var cmd := SshBuilder.BuildFullCommand(sshPath, host, tunnel);
      cmd.Ok? && !openOk ==>
        r == Ok(Detached(None, None, Some("Failed to open log file: " + openError))) && disk.files == old(disk.files)
    ensures var cmd := SshBuilder.BuildFullCommand(sshPath, host, tunnel);
      var log := LogPathForTunnel(logsDir, tunnelId, now);
      cmd.Ok? && openOk && spawn.Spawned? ==>
        r == Ok(Detached(Some(spawn.pid), Some(log), None))
        && disk.files == WithPassword(old(disk.files)[log := []], tempDir, password, passWriteOk)
                           [log := "Started detached PID " + IntToString(spawn.pid) + "\n"]
    ensures var cmd := SshBuilder.BuildFullCommand(sshPath, host, tunnel);
      var log := LogPathForTunnel(logsDir, tunnelId, now);
      cmd.Ok? && openOk && !spawn.Spawned? ==>
        r == Ok(Detached(None, None, Some(spawn.error)))
        && disk.files == WithPassword(old(disk.files)[log := []], tempDir, password, passWriteOk) - {log}
  {
    var cmd := SshBuilder.BuildFullCommand(sshPath, host, tunnel);
    if cmd.Raised? {
      if cmd.exc.ValueError? {
        return Raised(cmd.exc);
      }
      return Ok(Detached(None, None, Some(cmd.exc.msg)));
    }
    var log := LogPathForTunnel(logsDir, tunnelId, now);
    if !openOk {
      return Ok(Detached(None, None, Some("Failed to open log file: " + openError)));
    }
    disk.Create(log, true);
    if Given(password) {
      var _ := disk.WritePasswordForAskpass(tempDir, password.value, passWriteOk);
    }
    LogIsNotPasswordFile(logsDir, tempDir, tunnelId, now);
    assert disk.files[log] == [];
    match spawn
    case Spawned(pid) =>
      var line := "Started detached PID " + IntToString(pid) + "\n";
      assert [] + line == line;
      disk.files := Append(disk.files, log, line);
      return Ok(Detached(Some(pid), Some(log), None));
    case SpawnFailed(error) =>
      disk.files := disk.files - {log};
      return Ok(Detached(None, None, Some(error)));
    case LogWriteFailed(_, error) =>
      disk.files := disk.files - {log};
      return Ok(Detached(None, None, Some(error)));
  }
}
