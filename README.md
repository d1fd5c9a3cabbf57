# PortPilot tunnel supervision, modelled in Dafny

PortPilot is a desktop manager for SSH port forwards. It keeps hosts and
tunnels in a small database. It composes the OpenSSH command line for a tunnel,
and it runs the tunnel with one of three backends:

- an in-process forwarder, which supports password login for local (`-L`) forwards;
- a managed child process, whose output is streamed into a per-run log;
- a detached child process, which outlives the application.

The main window supervises what runs. It keeps three registries keyed by tunnel
id. It shows a status for each tunnel, and it keeps a ledger of runs in step
when tunnels stop, finish or die.

This project models that core, one Dafny module per source file:

| module | file | form |
|---|---|---|
| `Wrappers` | — | `Option` and `Result` (with the exception kinds the core raises) |
| `Text` | — | the Python string operations the core relies on: `strip`, `split`, `splitlines`, `str(int)`/`int(str)`, text order |
| `Models` | `src/portpilot/core/models.py` | records as datatypes; the default constructors as functions |
| `SshBuilder` | `src/portpilot/core/ssh_builder.py` | the argument vector as a function, and the appending builder as a method proved equal to it; client lookup; quoting |
| `Dialogs` | `src/portpilot/ui/dialogs.py` | validation, form loading, field visibility and the records a form yields, as functions |
| `Db` | `src/portpilot/core/db.py` | a `Store` class holding the three tables as maps, with AUTOINCREMENT counters; the queries are functions of the tables |
| `SshTunnelRunner` | `src/portpilot/core/sshtunnel_runner.py` | the forwarder configuration as a function; a `Runner` class with the stop flag and server state |
| `ProcessManager` | `src/portpilot/core/process_manager.py` | a `ManagedProcess` class moving through not started, started (log open) and finished (log closed); `StartDetached` as a method over a `Disk` |
| `MainWindow` | `src/portpilot/ui/main_window.py` | a `Supervisor` class holding the registries and the store; one method per handler; loops over the registries with their invariants |

The operating system, Qt, the clock and the SSH library enter as parameters:

- whether a file opens;
- whether a child starts, and its pid;
- whether a pid is alive;
- whether a child exits within the grace period;
- the current time;
- whether the SSH library can be imported;
- what the PATH lookup for `ssh.exe` answers;
- whether each write to a managed process's log works (the launch line, and each
  output line on its own).

Python dictionaries iterate their keys in insertion order. Where a loop walks a
registry, that order is a parameter (`order`), and the precondition
`Enumerates(order, m)` requires it to list every key of `m` exactly once.

Where the code and the design disagree, the model follows the code:

- Deleting a host does not delete its tunnels. The schema declares
  `ON DELETE CASCADE`, but foreign keys are never switched on for the connection.
- Choosing Exit on close does not leave detached tunnels running. It kills every
  detached tunnel for which no managed process is still registered once the managed
  loop is over, that is, whose managed process, if any, did not finish within its wait.
- A run can be closed twice. After an in-process stop, the stop handler closes
  the latest run with no code, and the worker's finish closes it again with its code.
- The backend depends only on the tunnel type and the background toggle. A local
  tunnel in the foreground always runs in process, whether the host has a key file or not.
- A port outside 1..65535 is refused only by the editors. The store accepts any port.
- Closing the window with nothing managed and nothing detached exits at once. It
  does not stop the in-process runners, although the design says shutdown stops
  every tracked runner.

## Model

| member | source | states |
|---|---|---|
| Text.Strip | src/portpilot/core/ssh_builder.py:60-62 | `str.strip()`: the result is empty exactly for blank text; otherwise it neither starts nor ends with whitespace; it is never longer than the input |
| Text.StripBoundsCut | src/portpilot/core/ssh_builder.py:60-62 | `str.strip()` keeps exactly the text between two bounds, and everything outside them is whitespace |
| Text.StripIsMiddle | src/portpilot/core/ssh_builder.py:60-62 | the result of `str.strip()` is a slice of the input with only whitespace before and after it |
| Text.StripUnchanged | src/portpilot/ui/dialogs.py:117-130 | stripping a trimmed text changes nothing, so `strip` is idempotent |
| Text.Split | src/portpilot/core/ssh_builder.py:95 | `str.split()`: every token is non-empty and holds no whitespace |
| Text.Gaps | src/portpilot/core/ssh_builder.py:95 | the whitespace runs of a text: one more than its tokens, all blank, those between two tokens non-empty |
| Text.SplitRejoins | src/portpilot/core/ssh_builder.py:95 | `str.split()` cuts only at whitespace: its tokens with the whitespace runs between them rebuild the text exactly |
| Text.SplitOfBlank | src/portpilot/core/ssh_builder.py:93-95 | a blank text has no tokens, so the guard before the extra-argument loop changes nothing |
| Text.SplitKeepsEveryVisibleChar | src/portpilot/core/ssh_builder.py:92-98 | the tokens put back together are exactly the text without its whitespace |
| Text.SplitLines | src/portpilot/core/process_manager.py:128-138 | `str.splitlines()`: no line holds a line break |
| Text.SplitLinesRejoins | src/portpilot/core/process_manager.py:128-138 | `str.splitlines()` cuts only at line boundaries: terminators it recognises (`\r\n` or one break character), one after every line but perhaps the last, rebuild the text with the lines |
| Text.SplitLinesDropsOnlyBreaks | src/portpilot/core/process_manager.py:128-138 | the lines put back together are exactly the text without its line terminators |
| Text.NonBlankKeepsVisible | src/portpilot/core/process_manager.py:130-132 | dropping whitespace-only lines loses no visible character |
| Text.IntToString | src/portpilot/core/ssh_builder.py:64-66 | `str(int)` is never empty |
| Text.IntToStringRoundTrip | src/portpilot/core/ssh_builder.py:64-66 | `int(str(i)) == i` for every integer, so the port can be read back from `-p` |
| Text.IntToStringInjective | src/portpilot/core/process_manager.py:27-31 | distinct integers have distinct decimal texts |
| Text.LexLeTotal | src/portpilot/core/db.py:85-89 | the text order used by `ORDER BY` is total |
| Text.LexLeTransitive | src/portpilot/core/db.py:85-89 | the text order used by `ORDER BY` is transitive |
| Models.DefaultHost | src/portpilot/core/models.py:23-37 | no id and no timestamps, empty texts, port 22 and keepalive off (0 and 0) |
| Models.DefaultLocal | src/portpilot/core/models.py:57-73 | a fresh local tunnel of the given host: loopback bind and remote host, no remote bind, all ports 0 |
| Models.DefaultRemote | src/portpilot/core/models.py:75-91 | a fresh remote tunnel bound on 0.0.0.0, other texts empty, all ports 0 |
| Models.DefaultDynamic | src/portpilot/core/models.py:93-109 | a fresh SOCKS tunnel on loopback port 1080, other ports 0 |
| SshBuilder.OrDefault | src/portpilot/core/ssh_builder.py:71-72 | `s.strip() or d`: the fallback for blank text, else the trimmed text, which is non-empty |
| SshBuilder.KeepaliveArgs | src/portpilot/core/ssh_builder.py:51-57 | no option iff the interval is not positive; otherwise `-o ServerAliveInterval=n`, followed by `-o ServerAliveCountMax=m` iff the count max is positive too |
| SshBuilder.IdentityArgs | src/portpilot/core/ssh_builder.py:59-62 | no option iff the identity file is blank; otherwise `-i` and the trimmed path, which is not empty |
| SshBuilder.PortArgs | src/portpilot/core/ssh_builder.py:64-66 | `-p` and a text from which the host's port reads back |
| SshBuilder.ForwardArgs | src/portpilot/core/ssh_builder.py:68-90 | an option exactly for the types local, remote and dynamic (`-L`, `-R` or `-D` and one specification); any other type raises `ValueError("Unknown tunnel type: …")` |
| SshBuilder.Vector | src/portpilot/core/ssh_builder.py:44-101 | `-N -o ExitOnForwardFailure=yes` first and `user@host` last, with every piece counted once in the length |
| SshBuilder.SshArgs | src/portpilot/core/ssh_builder.py:37-103 | a vector exactly for the three known types, otherwise the unknown-type error; a vector has at least 8 entries, begins `-N -o ExitOnForwardFailure=yes` and ends `user@host` |
| SshBuilder.AfterKeepalive | src/portpilot/core/ssh_builder.py:51-66 | the keepalive options sit right after the fixed prefix, and what follows them is never `-o` |
| SshBuilder.SshArgsKeepaliveInterval | src/portpilot/core/ssh_builder.py:52-54 | `-o ServerAliveInterval=n` follows the prefix iff the interval n is positive |
| SshBuilder.SshArgsKeepaliveCountMax | src/portpilot/core/ssh_builder.py:55-57 | `-o ServerAliveCountMax=m` follows iff both the interval and m are positive |
| SshBuilder.SshArgsIdentity | src/portpilot/core/ssh_builder.py:59-62 | `-i <trimmed path>` follows the keepalive options iff the identity file is not blank |
| SshBuilder.SshArgsPort | src/portpilot/core/ssh_builder.py:64-66 | `-p` always comes right before the forward option, and the host's port reads back from its value |
| SshBuilder.LocalForward | src/portpilot/core/ssh_builder.py:69-75 | a local tunnel gives `-L bind:local_port:remote_host:remote_port`, blank addresses becoming 127.0.0.1 |
| SshBuilder.RemoteForward | src/portpilot/core/ssh_builder.py:76-82 | a remote tunnel gives `-R bind:remote_port:host:local_port`, a blank bind becoming 0.0.0.0 and a blank host 127.0.0.1 |
| SshBuilder.DynamicForward | src/portpilot/core/ssh_builder.py:83-88 | a dynamic tunnel gives `-D bind:socks_port`, a blank bind becoming 127.0.0.1 |
| SshBuilder.ExtraArgsTokens | src/portpilot/core/ssh_builder.py:92-98 | between the forward option and `user@host` come the extra-argument tokens: none empty, none with whitespace, together every visible character in order, and with the whitespace runs between them they rebuild the extra-argument text exactly |
| SshBuilder.SshArgsIgnoresUnusedFields | src/portpilot/core/ssh_builder.py:68-88 | fields the tunnel's type does not use have no effect on the vector |
| SshBuilder.OrDefaultOfAddress | src/portpilot/core/ssh_builder.py:71 | a trimmed, non-empty address is used as it is |
| SshBuilder.DefaultLocalAgreesWithFallbacks | src/portpilot/core/ssh_builder.py:71-72 | a new local tunnel's addresses are the ones the builder falls back to for blank fields |
| SshBuilder.DefaultRemoteAgreesWithFallbacks | src/portpilot/core/ssh_builder.py:78 | a new remote tunnel's bind is the builder's fallback |
| SshBuilder.DefaultDynamicAgreesWithFallbacks | src/portpilot/core/ssh_builder.py:85 | a new SOCKS tunnel's bind is the builder's fallback |
| SshBuilder.BuildSshArgs | src/portpilot/core/ssh_builder.py:37-103 | appending option by option and token by token computes exactly the vector described above, or its error |
| SshBuilder.AppendHostOptions | src/portpilot/core/ssh_builder.py:51-66 | appends exactly the keepalive, identity and port options |
| SshBuilder.ForwardOption | src/portpilot/core/ssh_builder.py:68-90 | the forward option of the tunnel's type, or the unknown-type error |
| SshBuilder.AppendTokens | src/portpilot/core/ssh_builder.py:95-98 | the loop appends every token, in order; none is dropped by its strip-and-skip-empty step |
| SshBuilder.FindSsh | src/portpilot/core/ssh_builder.py:13-25 | the PATH answer when it is a non-empty path; else the first known location that is a file, in the listed order; else nothing; a found path is never empty |
| SshBuilder.FirstFile | src/portpilot/core/ssh_builder.py:19-25 | a found candidate is a listed file; nothing is found iff no candidate is a file |
| SshBuilder.BuildFullCommand | src/portpilot/core/ssh_builder.py:106-111 | a missing client raises `FileNotFoundError` before the tunnel is looked at; otherwise the client's path followed by exactly the argument vector, or the vector's error |
| SshBuilder.QuoteArg | src/portpilot/core/ssh_builder.py:28-34 | the result is wrapped in double quotes; the empty text gives `""` |
| SshBuilder.ReplacesAreEscape | src/portpilot/core/ssh_builder.py:33 | the two replacements together put a backslash before each backslash and each quote |
| SshBuilder.UnescapeEscape | src/portpilot/core/ssh_builder.py:33 | reading escaped text back gives the original |
| SshBuilder.QuoteArgRoundTrip | src/portpilot/core/ssh_builder.py:28-34 | quoting loses nothing for a reader that takes the character after every backslash literally (not the Windows reader; see Findings) |
| SshBuilder.QuoteArgDoublesLoneBackslash | src/portpilot/core/ssh_builder.py:28-34 | `_quote_arg("a\b")` is `"a\\b"`, which a Windows program reads back as `a\\b`, not as the argument |
| SshBuilder.QuoteArgForWindows | src/portpilot/core/ssh_builder.py:28-34 | the quoting the comment at line 32 describes: wrapped in double quotes, `""` for the empty text |
| SshBuilder.QuoteArgForWindowsRoundTrip | src/portpilot/core/ssh_builder.py:28-34 | a Windows program, reading by the backslash rules of CommandLineToArgvW (`ReadQuoted`), gets back exactly the argument from the corrected quoting, whatever backslashes and quotes it holds |
| SshBuilder.ReadEscaped | src/portpilot/core/ssh_builder.py:32-33 | the escaped text followed by the closing quote reads back as the text |
| Dialogs.ValidatePort | src/portpilot/ui/dialogs.py:26-27 | a port is valid exactly when it lies in 1..65535 |
| Dialogs.DigitGroupsAreNames | src/portpilot/ui/dialogs.py:35-38 | dotted digit groups use only characters of `[\w.-]` |
| Dialogs.Ipv4Subsumed | src/portpilot/ui/dialogs.py:35-39 | every text the IPv4 pattern accepts is accepted by the name pattern |
| Dialogs.ValidateHostname | src/portpilot/ui/dialogs.py:30-40 | true iff the trimmed text is non-empty and made only of letters, digits, `_`, `.` and `-`; so false for blank text |
| Dialogs.Clamp | src/portpilot/ui/dialogs.py:81-88 | a spin box keeps a value inside its range and moves one outside to the nearer bound |
| Dialogs.NewHostForm | src/portpilot/ui/dialogs.py:63-88 | the new-host editor: empty texts, port 22, keepalive disabled, count max 3 |
| Dialogs.LoadHostForm | src/portpilot/ui/dialogs.py:107-115 | the editor shows the host's texts as they are, its numbers clamped to the boxes, and a count max of 0 as 3 |
| Dialogs.GetHost | src/portpilot/ui/dialogs.py:117-130 | a host without id or timestamps, every text trimmed, the numbers as shown |
| Dialogs.EditHostUnchanged | src/portpilot/ui/dialogs.py:107-130 | opening a trimmed, in-range host and accepting it unchanged gives back its configuration |
| Dialogs.ValidateHost | src/portpilot/ui/dialogs.py:132-149 | accepted iff name and username are not blank, the hostname is valid and the port is 1..65535; each label shows its error exactly when its check fails, and a bad port overwrites the hostname label |
| Dialogs.AcceptedHost | src/portpilot/ui/dialogs.py:132-153 | an accepted form yields a host with a name, a user, a well-formed hostname and a port in 1..65535 |
| Dialogs.TypeIndex | src/portpilot/ui/dialogs.py:228-229 | the kind box row of a type; an unknown type shows as local |
| Dialogs.TypeOf | src/portpilot/ui/dialogs.py:262-269 | row 0 is local, row 1 remote, anything else dynamic; always a known type |
| Dialogs.OrText | src/portpilot/ui/dialogs.py:231-235 | `x or d` on text: the text unless it is empty |
| Dialogs.OrNumber | src/portpilot/ui/dialogs.py:232-236 | `x or d` on a number: the number unless it is 0 |
| Dialogs.LoadTunnelForm | src/portpilot/ui/dialogs.py:227-237 | empty addresses show their defaults; zero ports show 8080, 80 and 1080; numbers are clamped to 0..65535 |
| Dialogs.VisibleRows | src/portpilot/ui/dialogs.py:240-259 | the rows shown per type (local: local bind and port, remote host and port; remote: local port, host, remote port and bind, with the host row labelled "Local host:"; dynamic: local bind and SOCKS port) |
| Dialogs.GetTunnel | src/portpilot/ui/dialogs.py:261-285 | the type from the kind box; trimmed texts with blank addresses defaulted; id, host and timestamps kept from the tunnel edited |
| Dialogs.GetTunnelAddresses | src/portpilot/ui/dialogs.py:276-280 | no address of the resulting tunnel is blank, and each is trimmed |
| Dialogs.HiddenRowsDoNotMatter | src/portpilot/ui/dialogs.py:245-252 | the rows shown for a type are exactly the fields its ssh command reads: forms that differ only in hidden rows give the same arguments |
| Dialogs.EditTunnelUnchanged | src/portpilot/ui/dialogs.py:227-285 | opening a well-formed tunnel and accepting it unchanged gives it back |
| Dialogs.EditNewLocalTunnel | src/portpilot/ui/dialogs.py:231-236 | accepting a fresh local tunnel unchanged fills in ports 8080, 80 and 1080 and bind 0.0.0.0 |
| Dialogs.ValidateTunnel | src/portpilot/ui/dialogs.py:287-305 | accepted iff the name is not blank and the type's ports are valid: local and remote need both ports, dynamic only the SOCKS port |
| Dialogs.AcceptedTunnel | src/portpilot/ui/dialogs.py:287-309 | an accepted form yields a named tunnel of a known type whose forward uses only valid ports |
| Db.OrNull | src/portpilot/core/db.py:133-134 | `s or None`: the empty text is stored as NULL, any other text as itself |
| Db.RowToHost | src/portpilot/core/db.py:105-118 | NULL texts read back as "" and NULL numbers as 0 |
| Db.HostRoundTrip | src/portpilot/core/db.py:121-144 | writing a host and reading it back gives the same configuration, with the new id and the timestamps |
| Db.RowToTunnel | src/portpilot/core/db.py:204-219 | field by field: NULL texts read back as "", each NULL port (local, remote, SOCKS) as 0, and the flag as "not 0" |
| Db.TunnelRoundTrip | src/portpilot/core/db.py:222-247 | writing a tunnel and reading it back gives the same configuration, with the new id and the timestamps |
| Db.RowToRun | src/portpilot/core/db.py:343-353 | a run row is read field for field |
| Db.RunRoundTrip | src/portpilot/core/db.py:289-309 | a run is stored exactly as given and read back with its new id |
| Db.SortByKey | src/portpilot/core/db.py:89 | `ORDER BY` keeps exactly the rows selected (a permutation) |
| Db.SortByKeySorted | src/portpilot/core/db.py:89 | `ORDER BY` puts the rows in key order |
| Db.LikeAnything | src/portpilot/core/db.py:83-86 | the pattern `%` matches every text |
| Db.LikePrefix | src/portpilot/core/db.py:83-86 | a literal followed by `%` matches exactly the texts that start with it, ignoring ASCII case |
| Db.LikeSkip | src/portpilot/core/db.py:83-86 | a leading `%` tries the rest of the pattern at every position |
| Db.LikeContains | src/portpilot/core/db.py:83-86 | `%q%` for a search without wildcards matches exactly the texts containing q, ignoring ASCII case |
| Db.ListingSorted | src/portpilot/core/db.py:84-90 | a listing is ordered by its key |
| Db.ListingSound | src/portpilot/core/db.py:84-90 | everything listed is a selected row |
| Db.ListingComplete | src/portpilot/core/db.py:84-90 | every selected row is listed |
| Db.ListingOnce | src/portpilot/core/db.py:84-90 | no row is listed twice |
| Db.ListHostsIn | src/portpilot/core/db.py:80-90 | every host selected by the search exactly once and nothing else, ordered by name; a blank search selects all |
| Db.ListTunnelsIn | src/portpilot/core/db.py:185-191 | every tunnel of the host exactly once and nothing else, ordered by name |
| Db.Store.ListHosts | src/portpilot/core/db.py:80-90 | sorted by name; only hosts the search selects, each read back from its row; under the store invariant every selected host; none twice |
| Db.Store.ListTunnels | src/portpilot/core/db.py:185-191 | sorted by name; only tunnels of that host, each read back from its row; under the store invariant every one of them; none twice |
| Db.LatestRunIn | src/portpilot/core/db.py:333-341 | the answer, if any, is a run of that tunnel |
| Db.LatestRunInSpec | src/portpilot/core/db.py:333-353 | nothing only when the tunnel has no run; otherwise a run of it whose start time no other run of it exceeds |
| Db.Store.constructor | src/portpilot/core/db.py:18-66 | a new database: three empty tables and counters at 0 |
| Db.Store.GetHost | src/portpilot/core/db.py:95-102 | the host with that id, read back, or nothing when no row has it |
| Db.Store.InsertHost | src/portpilot/core/db.py:121-144 | a new row under an id never used before (the counter plus one); nothing else changes; reading it back gives the host with that id and its timestamps |
| Db.Store.UpdateHost | src/portpilot/core/db.py:147-171 | a host without id raises `ValueError` and changes nothing; otherwise only that row changes: configuration and updated_at replaced, created_at kept |
| Db.Store.DeleteHost | src/portpilot/core/db.py:174-180 | only that host row goes; its tunnels stay |
| Db.Store.GetTunnel | src/portpilot/core/db.py:194-201 | the tunnel with that id, read back, or nothing |
| Db.Store.InsertTunnel | src/portpilot/core/db.py:222-247 | a new row under a never-used id; nothing else changes; reading it back gives the tunnel |
| Db.Store.UpdateTunnel | src/portpilot/core/db.py:250-275 | a tunnel without id raises `ValueError`; otherwise only that row changes, keeping its host and created_at |
| Db.Store.DeleteTunnel | src/portpilot/core/db.py:278-284 | only that tunnel row goes; its runs stay |
| Db.Store.InsertRun | src/portpilot/core/db.py:289-309 | a new run row under a never-used id, stored exactly as given |
| Db.Store.UpdateRunStopped | src/portpilot/core/db.py:312-321 | only stopped_at and exit_code of that run change; a missing run changes nothing |
| Db.Store.UpdateRunLogPath | src/portpilot/core/db.py:324-330 | only log_path of that run changes |
| Db.Store.GetLatestRun | src/portpilot/core/db.py:333-355 | none iff the tunnel has no run; else a run of that tunnel with the greatest started_at |
| SshTunnelRunner.BindAddress | src/portpilot/core/sshtunnel_runner.py:43-44 | (trimmed host or 127.0.0.1, port) |
| SshTunnelRunner.Config | src/portpilot/core/sshtunnel_runner.py:43-58 | the server and user from the host; binds from the tunnel; a key file with the password as passphrase (none when empty) iff the identity file is not blank, else password login; keepalive only for a positive interval |
| SshTunnelRunner.SameForwardAsSshCommand | src/portpilot/core/sshtunnel_runner.py:43-50 | the library binds exactly the addresses ssh's `-L` option names for the same tunnel |
| SshTunnelRunner.SameOptionsAsSshCommand | src/portpilot/core/sshtunnel_runner.py:52-58 | the library uses the same key file as `-i`, and keeps the connection alive exactly when ssh gets keepalive options |
| SshTunnelRunner.ExitIndicator | src/portpilot/core/sshtunnel_runner.py:79 | the code the worker reports last is 0 exactly when a stop was requested, and 1 otherwise |
| SshTunnelRunner.Runner.IsRunning | src/portpilot/core/sshtunnel_runner.py:93-94 | true exactly when a forwarder exists and is active |
| SshTunnelRunner.Runner.constructor | src/portpilot/core/sshtunnel_runner.py:18-31 | a new runner is not running, has no stop request, no forwarder and no worker |
| SshTunnelRunner.Runner.Start | src/portpilot/core/sshtunnel_runner.py:33-83 | succeeds iff the tunnel is local and the library loads; a non-local tunnel or a missing library logs its message and creates no worker; on success the worker gets the configuration above |
| SshTunnelRunner.Runner.WorkerStarted | src/portpilot/core/sshtunnel_runner.py:62-65 | the forwarder exists, the started line is logged and the started signal emitted |
| SshTunnelRunner.Runner.WorkerEnded | src/portpilot/core/sshtunnel_runner.py:66-79 | afterwards nothing runs; an exception logs its error and signals code 1, and then the cleanup signals the exit indicator, which is 0 iff a stop was requested |
| SshTunnelRunner.Runner.Stop | src/portpilot/core/sshtunnel_runner.py:85-91 | always records the stop request and leaves nothing running, whether or not a forwarder exists |
| ProcessManager.Timestamp | src/portpilot/core/process_manager.py:30 | `%Y%m%d_%H%M%S` is 15 characters with `_` at position 8 |
| ProcessManager.TimestampRoundTrip | src/portpilot/core/process_manager.py:30 | every field of a valid time reads back from its timestamp |
| ProcessManager.LogPathForTunnel | src/portpilot/core/process_manager.py:27-31 | the log lies in the logs directory |
| ProcessManager.LogFileNameParts | src/portpilot/core/process_manager.py:31 | the name is `tunnel_<id>_<timestamp>.log` |
| ProcessManager.LogFileNameInjective | src/portpilot/core/process_manager.py:27-31 | two runs share a log name only for the same tunnel in the same second |
| ProcessManager.LogIsNotPasswordFile | src/portpilot/core/process_manager.py:27-45 | a run's log is never the askpass password file |
| ProcessManager.Append | src/portpilot/core/process_manager.py:122-124 | writing text adds it at the end of the file; an empty write changes nothing |
| ProcessManager.AppendTwice | src/portpilot/core/process_manager.py:119-126 | two writes are one write of both texts |
| ProcessManager.Disk.Create | src/portpilot/core/process_manager.py:88-93 | `open(p, "w")`: the file exists and is empty, or nothing changes when opening fails |
| ProcessManager.Disk.WritePasswordForAskpass | src/portpilot/core/process_manager.py:38-45 | the path iff the write worked, and then the file holds the password; otherwise nothing changes |
| ProcessManager.Disk.DeletePasswordFile | src/portpilot/core/process_manager.py:48-54 | when the unlink works, the password file is gone, whether or not it existed; a failed unlink is ignored and leaves every file as it was |
| ProcessManager.OutputLines | src/portpilot/core/process_manager.py:128-138 | the lines emitted for a chunk are neither blank nor hold a break, and together keep every visible character of the chunk |
| ProcessManager.NonBlankIsSubset | src/portpilot/core/process_manager.py:130-132 | only lines of the chunk are kept, and none of them is blank |
| ProcessManager.ManagedProcess.constructor | src/portpilot/core/process_manager.py:63-79 | no child, no log, no password file; not running and no pid |
| ProcessManager.ManagedProcess.IsRunning | src/portpilot/core/process_manager.py:166-167 | false without a child; with one, true exactly when the child is running |
| ProcessManager.ManagedProcess.Pid | src/portpilot/core/process_manager.py:161-167 | nothing iff there is no child; the child's pid while it runs; 0 for a child that is not running |
| ProcessManager.ManagedProcess.Emit | src/portpilot/core/process_manager.py:119-126 | the line is signalled, and `line + "\n"` is appended to the log only while it is open and the write works |
| ProcessManager.ManagedProcess.OnOutput | src/portpilot/core/process_manager.py:128-138 | exactly the non-blank lines of the chunk are signalled, in order; an open log gets each of them whose own write works, a failed write skipping only that line |
| ProcessManager.ManagedProcess.EmitLines | src/portpilot/core/process_manager.py:130-132 | the loop signals exactly the lines that are not whitespace-only, in order; an open log gets those whose write works, with their newlines, in order; nothing else changes |
| ProcessManager.Written | src/portpilot/core/process_manager.py:119-138 | the text the output loop appends to an open log: the kept lines whose write works, each with its newline |
| ProcessManager.WrittenStep | src/portpilot/core/process_manager.py:130-132 | one more line adds its text exactly when it is not whitespace-only and its write works |
| ProcessManager.WrittenAllOk | src/portpilot/core/process_manager.py:119-138 | when every write works, the log gets exactly the non-blank lines of the chunk, each followed by a newline |
| ProcessManager.WrittenNoneOk | src/portpilot/core/process_manager.py:119-138 | when no write works, the output loop adds nothing to the log |
| ProcessManager.ManagedProcess.EmitIfVisible | src/portpilot/core/process_manager.py:131-132 | a whitespace-only line is neither signalled nor written; any other line is emitted |
| ProcessManager.ManagedProcess.OnFinished | src/portpilot/core/process_manager.py:140-152 | the log is closed, the password file removed only when its unlink works (a failure is ignored and leaves it on disk), and (tunnel id, code, run id) signalled |
| ProcessManager.ManagedProcess.Stop | src/portpilot/core/process_manager.py:154-159 | nothing without a running child; else terminate, then kill only when the child has not exited in time; it answers true exactly when the wait sees a running child finish, and then the finished handling has run: log closed, password file removed only when its unlink works, (tunnel id, code, run id) signalled |
| ProcessManager.ManagedProcess.Start | src/portpilot/core/process_manager.py:81-117 | an unknown type raises; a missing client or a log that does not open is logged and gives false with no child; otherwise the child is launched, with askpass only when a password is given and its file was written, and start answers whether it runs; the log stays open iff it does, and holds the launch line exactly when that write works |
| ProcessManager.ManagedProcess.OpenLogAndLaunch | src/portpilot/core/process_manager.py:88-117 | the log path is always set; a log that does not open is logged and start fails with no child; otherwise the log is created and the launch follows, the launch line reaching it only when its write works |
| ProcessManager.ManagedProcess.Launch | src/portpilot/core/process_manager.py:95-117 | after the log opens: the password file, the child, and the one line signalled (its pid, or the failure), which reaches the new log only when its write works; a failed write leaves the log empty and is otherwise ignored |
| ProcessManager.LaunchLog | src/portpilot/core/process_manager.py:111-126 | the new log holds text exactly when the launch line's write works, and then it is that line with its newline |
| ProcessManager.StartDetached | src/portpilot/core/process_manager.py:170-221 | (pid, log, no error) or (none, none, a non-empty error); an unknown type raises; on success the log holds one line naming the pid; a failed spawn, or a pid line that cannot be written after the spawn, deletes the log and returns the error, the child in the latter case still running; the password file is written whenever a password is given |
| MainWindow.EndpointSummary | src/portpilot/ui/main_window.py:78-86 | the local, remote and dynamic endpoint formats |
| MainWindow.EndpointShownIffForwardable | src/portpilot/ui/main_window.py:78-86 | the summary is empty exactly for a tunnel type ssh cannot forward |
| MainWindow.CloseLatest | src/portpilot/ui/main_window.py:652-654 | closing the latest runs keeps every row's identity, tunnel, start, pid, mode and log, and leaves other tunnels' runs untouched |
| MainWindow.LatestRunInFrame | src/portpilot/core/db.py:337-338 | which run is latest depends only on the runs' tunnels and start times |
| MainWindow.CloseLatestEffect | src/portpilot/ui/main_window.py:652-654 | after closing, the latest run is still the latest, and it has the stop time and code |
| MainWindow.CloseLatestNone | src/portpilot/ui/main_window.py:780-781 | closing for no tunnel changes nothing |
| MainWindow.CloseLatestUnion | src/portpilot/ui/main_window.py:828-833 | closing for one set of tunnels and then another is closing for both at once |
| MainWindow.CloseLatestSingle | src/portpilot/ui/main_window.py:652-654 | for one tunnel, exactly its latest run's stop time and code change, if it has a run |
| MainWindow.FailedExit | src/portpilot/ui/main_window.py:441 | a failure code exactly when the latest run recorded a non-zero exit code |
| MainWindow.BackendFor | src/portpilot/ui/main_window.py:528-535 | in process iff local and in the foreground; detached iff in the background; managed otherwise |
| MainWindow.KilledOnExit | src/portpilot/ui/main_window.py:832-833 | the pids of the listed detached tunnels that have no managed process, each in list order; nothing else |
| MainWindow.VisitedAll | src/portpilot/ui/main_window.py:828-833 | walking a whole key list visits exactly the registry's keys |
| MainWindow.StopStep | src/portpilot/ui/main_window.py:648-665 | `_on_stop_tunnel` without a runner, on values (a managed process the wait sees finish is dropped with its run closed; else a detached tree is killed and dropped with its latest run closed): a stop never registers anything and only appends to the kills, and afterwards the tunnel is no longer detached unless a managed process shadows it |
| MainWindow.StopEach | src/portpilot/ui/main_window.py:828-833 | one stop loop on values: however many tunnels are stopped, the registries only shrink and the kills only grow |
| MainWindow.StopEachEffect | src/portpilot/ui/main_window.py:828-833 | after stopping part of a list: managed processes dropped exactly when they finished, detached tunnels killed and dropped exactly when no managed process was registered for them, and each finished process's log path kept |
| MainWindow.StopEachLedger | src/portpilot/ui/main_window.py:828-833 | when no listed managed process finishes, exactly the latest runs of the killed detached tunnels are closed |
| MainWindow.ExitOutside | src/portpilot/ui/main_window.py:830-833 | the managed loop then the detached loop of an exit, on values: the registries only shrink and the kills only grow |
| MainWindow.ExitOutsideEffect | src/portpilot/ui/main_window.py:830-833 | after both loops: the managed processes left are those that finished in neither wait; a detached tunnel is killed, dropped and its run closed exactly when no managed process was still registered for it after the managed loop; finished processes keep their log paths; when none finishes, exactly the runs of the unshadowed detached tunnels are closed |
| MainWindow.ManagedRound | src/portpilot/ui/main_window.py:830-831 | the managed loop drops exactly the processes that finish, keeps their log paths and kills nothing; when none finishes no run changes |
| MainWindow.ManagedRoundQuiet | src/portpilot/ui/main_window.py:830-831 | a managed loop in which nothing finishes leaves every run as it was |
| MainWindow.DetachedRound | src/portpilot/ui/main_window.py:832-833 | the detached loop: a tunnel with a managed process is only stopped through it; every other one is killed, dropped and, when nothing finishes, its latest run closed |
| MainWindow.NoneKilled | src/portpilot/ui/main_window.py:830-831 | tunnels that all have a managed process kill nothing |
| MainWindow.Supervisor.Lookup | src/portpilot/ui/main_window.py:517-520 | the tunnel and its host, exactly when both exist |
| MainWindow.Supervisor.constructor | src/portpilot/ui/main_window.py:99-106 | no host selected and every registry empty |
| MainWindow.Supervisor.SelectHost | src/portpilot/ui/main_window.py:341-351 | the current host is read from the store; it is set iff a host with that id exists |
| MainWindow.Supervisor.SetRunInBackground | src/portpilot/ui/main_window.py:445-446 | only that tunnel's toggle changes |
| MainWindow.Supervisor.StartTunnel | src/portpilot/ui/main_window.py:516-586 | nothing for a missing tunnel or host, or a cancelled dialog; an empty password or a missing client (when needed) only warns; otherwise the backend chosen by `BackendFor` runs, a run is recorded with its mode, and a failed managed or in-process start leaves no registry entry |
| MainWindow.Supervisor.StartInProcess | src/portpilot/ui/main_window.py:588-612 | a managed-mode run is recorded; the runner stays registered with the library's configuration iff it starts |
| MainWindow.Supervisor.StartInBackground | src/portpilot/ui/main_window.py:535-557 | a start with an error only warns and records nothing; a spawned child gets a detached run, a registry entry and its log path |
| MainWindow.Supervisor.RecordDetached | src/portpilot/ui/main_window.py:540-554 | a detached run with the pid and log, the pid registered, and the log path if there is one |
| MainWindow.Supervisor.StartManaged | src/portpilot/ui/main_window.py:558-586 | a managed run is recorded; a running process stays registered with its log path stored; a process that does not start is dropped; an unknown type's error escapes with the process still registered; the new log holds the launch line only when its write works |
| MainWindow.Supervisor.RegisterManaged | src/portpilot/ui/main_window.py:559-576 | the run is recorded and a new process registered under the provisional log path |
| MainWindow.Supervisor.SettleManaged | src/portpilot/ui/main_window.py:577-586 | a started process's log path replaces the provisional one and is stored with its run; one that did not start is dropped |
| MainWindow.Supervisor.LaunchManaged | src/portpilot/ui/main_window.py:575-586 | the process is started and settled, with the effects on the registry, the run and the disk in each case, the launch line reaching the new log only when its write works |
| MainWindow.Supervisor.CloseLatestRun | src/portpilot/ui/main_window.py:652-654 | the tunnel's latest run, if any, gets the stop time and code |
| MainWindow.Supervisor.TunnelStatus | src/portpilot/ui/main_window.py:425-443 | Running iff a live runner, a running managed process or a live tracked pid exists, in that order of precedence and with their texts; Error ("Exit n") only for an untracked tunnel whose latest run failed; otherwise Stopped |
| MainWindow.Supervisor.StopTunnel | src/portpilot/ui/main_window.py:648-665 | the first registry holding the tunnel decides: a runner is stopped and dropped and its run closed; a managed process gets terminate (and kill when it does not exit in time), and when the wait sees it finish, its finish is handled at once as `_on_managed_finished` does, the password file going only when its unlink works; a detached tree is killed and dropped and its run closed; without a runner the effect is `StopStep` |
| MainWindow.Supervisor.StopManaged | src/portpilot/ui/main_window.py:656-657 | the managed branch of the stop handler: the `StopStep` effect, the stop signals sent to the process, and its finish handled when the wait sees it, the password file removed only when its unlink works |
| MainWindow.Supervisor.OnRunnerFinished | src/portpilot/ui/main_window.py:618-625 | the runner is dropped and the latest run closed with the worker's code |
| MainWindow.Supervisor.OnManagedFinished | src/portpilot/ui/main_window.py:715-722 | the process is dropped, its log path kept, and its own run closed with the code |
| MainWindow.Supervisor.VerifyTunnelStarted | src/portpilot/ui/main_window.py:627-646 | a non-zero detached pid that is dead is dropped, its run closed and the user warned; otherwise nothing changes |
| MainWindow.Supervisor.RefreshTunnelStatuses | src/portpilot/ui/main_window.py:778-794 | with a host selected, exactly the dead pids are dropped and their runs closed, every pid left is alive, and the table is redrawn iff runners exist or a pid died; with no host, nothing happens |
| MainWindow.Supervisor.RefreshStep | src/portpilot/ui/main_window.py:785-792 | one probe keeps the loop invariant: the registry and ledger are those after probing one more pid |
| MainWindow.Supervisor.HandleCloseRequest | src/portpilot/ui/main_window.py:818-837 | Exit without asking when nothing runs outside the window; otherwise the answer follows the choice, and only Exit changes anything: runners stopped and dropped with their runs closed, every running managed process asked to terminate, managed processes that finish in a wait dropped with their runs closed, and a detached tunnel killed exactly when no managed process is still registered for it after the managed loop |
| MainWindow.Supervisor.ExitAll | src/portpilot/ui/main_window.py:827-834 | the three stop loops in order: runners stopped and their latest runs closed, then the effect `ExitOutside` describes |
| MainWindow.Supervisor.StopRunners | src/portpilot/ui/main_window.py:828-829 | every runner is stopped and dropped and its tunnel's latest run closed |
| MainWindow.Supervisor.StopOutside | src/portpilot/ui/main_window.py:830-833 | the managed loop then the detached loop, with no runner left: the new registries, kills, runs and log paths are `ExitOutside` of the old ones, and every managed process that was running has been asked to terminate |
| MainWindow.Supervisor.StopAllOf | src/portpilot/ui/main_window.py:830-833 | one stop loop over a list: the registries, runs and log paths are `StopEach` of the old ones, every listed running managed process has been asked to terminate, and nothing outside the list is dropped |
| MainWindow.Supervisor.StopNext | src/portpilot/ui/main_window.py:830-833 | one turn of that loop keeps its invariant: the effect of one more stop, and one more process asked to terminate |
| MainWindow.Supervisor.StopOne | src/portpilot/ui/main_window.py:648-665 | the stop handler for a tunnel with no runner: the `StopStep` effect, with the stop signals of a managed process recorded |
| MainWindow.Supervisor.StopOneManaged | src/portpilot/ui/main_window.py:656-657 | the same for a tunnel with a managed process: the `StopStep` effect and terminate sent to it if its child ran |
| MainWindow.StartProcess | src/portpilot/ui/main_window.py:577 | `proc.start(password)` with the client found: an unknown type raises, otherwise the answer is whether the child runs, and the new log holds the launch line exactly when its write works |
| MainWindow.SpawnDetached | src/portpilot/ui/main_window.py:536-539 | `start_detached` with the client found: no error exactly when the spawn works; an error is never empty |
| MainWindow.SignalledAgain | src/portpilot/core/process_manager.py:154-159 | two rounds of stop requests are one |
| MainWindow.ShadowedAll | src/portpilot/ui/main_window.py:832-833 | once every detached tunnel is visited, exactly those with a managed process are left, with their pids |
| MainWindow.RefreshDone | src/portpilot/ui/main_window.py:785-794 | once every pid is probed, exactly the dead pids are gone |

## Left out

- Text: `strip`, `split`, `splitlines` and the regex classes `\w` and `\d` are modelled over ASCII, not Unicode.
- Widgets, layouts, styling, the tray and the log viewer are not modelled. The viewer's `[Tunnel exited with code n]` line is left out too. Dialog answers are parameters.
- The password dialog is not modelled. Its answer is a parameter: none for cancel, or the text typed.
- Timers are not modelled: the periodic status timer, the delayed start check, the delayed password-file deletion and the delayed restart.
- Restart, start-all, stop-all, delete-tunnel and log display are not part of this model. They only chain the handlers that are modelled.
- The SQLite engine is not modelled. The tables are maps and the counters are sqlite_sequence. The settings paths are parameters, and so is the askpass helper's batch file.
- Process start, liveness, termination, file opening and log writes are not modelled. Their outcomes, and those of `kill_process_tree` and `is_process_alive`, are oracle answers.
- The waits inside `ManagedProcess.stop` are a parameter `StopWait` per call: whether the child exits within the 3-second wait, whether it dies within the 1-second wait after the kill, its exit code, and whether the finish handler's unlink of the password file works. Qt delivers `finished` from inside such a wait, so a child that the wait sees exit has `_on_finished` and the window's `_on_managed_finished` run before `stop` returns. A child that exits later is an ordinary `OnManagedFinished` event.
- The SSH library is not modelled, and neither is the worker thread's polling loop. The worker is modelled only by its start and end events. Stopping the forwarder is taken to make it inactive.
- `find_ssh`'s file probing is a parameter.
- `datetime.now()` and `datetime.utcnow()` are parameters. ISO formatting is not modelled: `Stamp` appends "Z" to the clock's text.
- A `Path` is rendered as directory, "/" and name when a run stores it.
- ProcessManager.StartDetached: a spawn error with an empty message is not modelled. The error text is a non-empty `Message`.
- Db.LatestRunIn: among runs with the same started_at, the model keeps the smallest id. SQLite does not fix that order, so the contracts claim only a run with the greatest started_at.
- Db.Store.ListHosts and Db.Store.ListTunnels: equal names keep no particular order.
- ProcessManager.StartDetached: the child's own output, which goes to the same log file, is not modelled. The contract states only the line the launcher writes.
- ProcessManager.StartDetached: a failed unlink of the log is not modelled. The log is always gone after a failure.
- Windows creation flags, the working directory and the environment of the detached spawn are not modelled. That spawn sets `SSH_ASKPASS` and `DISPLAY` whenever a password is given, even when the password file could not be written; only the password-file write is modelled.

## Findings

| source | as written | input that shows it | evidently intended | confidence | as-written member | corrected member |
|---|---|---|---|---|---|---|
| src/portpilot/core/ssh_builder.py:28-34 | `_quote_arg` doubles every backslash, although a Windows program halves only backslashes that precede a quote | `a\b` is quoted as `"a\\b"`, which a Windows program reads back as `a\\b` | quoting for a Windows program reads back as exactly the argument, as the comment at line 32 says (double backslashes only before a quote) | not executed; `_quote_arg` has no caller in the repository, so no command line is affected | SshBuilder.QuoteArgDoublesLoneBackslash | SshBuilder.QuoteArgForWindowsRoundTrip |
