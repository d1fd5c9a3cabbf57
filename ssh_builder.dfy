/**
 * The OpenSSH command line for a tunnel: the argument vector `ssh` is given
 * (a pure mapping from a host and a tunnel), the full command with the client's
 * path in front, the lookup of that client, and the Windows-style argument quoting.
 */
module SshBuilder {
  import opened Wrappers
  import opened Text
  import opened Models

  const SshExe := "ssh.exe"
  const Loopback := "127.0.0.1"
  const AllInterfaces := "0.0.0.0"
  /** Where OpenSSH for Windows is usually installed, in the order they are probed. */
  const KnownLocations := ["C:\\Windows\\System32\\OpenSSH\\ssh.exe", "C:\\Program Files\\OpenSSH\\ssh.exe"]
  const NotFoundMessage := "ssh.exe not found. Install OpenSSH for Windows."

  /** Every vector starts with: no remote command, and exit when a forward cannot be set up. */
  const FixedArgs := ["-N", "-o", "ExitOnForwardFailure=yes"]

  /** `s.strip() or d`: the trimmed text, or the fallback when nothing is left. */
  function OrDefault(s: string, d: string): (r: string)
    ensures IsBlank(s) ==> r == d
    ensures !IsBlank(s) ==> r == Strip(s) && r != []
  {
    var t := Strip(s);
    if t == [] then d else t
  }

  // ---------------------------------------------------------------------------
  // The argument vector, piece by piece

  /** The keepalive options: none, the interval, or the interval and the count-max, each only when positive. */
  function KeepaliveArgs(h: Host): (k: seq<string>)
    ensures |k| > 0 <==> h.keepaliveInterval > 0
    ensures h.keepaliveInterval > 0 ==> |k| >= 2 && k[0] == "-o" && k[1] == "ServerAliveInterval=" + IntToString(h.keepaliveInterval)
    ensures |k| > 2 <==> h.keepaliveInterval > 0 && h.keepaliveCountmax > 0
    ensures |k| > 2 ==> |k| == 4 && k[2] == "-o" && k[3] == "ServerAliveCountMax=" + IntToString(h.keepaliveCountmax)
    ensures |k| == 0 || |k| == 2 || |k| == 4
  {
    if h.keepaliveInterval > 0 then
      ["-o", "ServerAliveInterval=" + IntToString(h.keepaliveInterval)]
      + (if h.keepaliveCountmax > 0 then ["-o", "ServerAliveCountMax=" + IntToString(h.keepaliveCountmax)] else [])
    else []
  }

  /** The identity option: `-i` with the trimmed path, unless the identity file is blank. */
  function IdentityArgs(h: Host): (i: seq<string>)
    ensures i == [] <==> IsBlank(h.identityFile)
    ensures i != [] ==> |i| == 2 && i[0] == "-i" && i[1] == Strip(h.identityFile) && i[1] != []
  {
    if IsBlank(h.identityFile) then [] else ["-i", Strip(h.identityFile)]
  }

  /** The port option: `-p` and a decimal text the host's port reads back from. */
  function PortArgs(h: Host): (p: seq<string>)
    ensures |p| == 2 && p[0] == "-p" && ParseInt(p[1]) == Some(h.port)
  {
    IntToStringRoundTrip(h.port);
    ["-p", IntToString(h.port)]
  }

  /** The forwarding option: -L, -R or -D with its specification, or the error for any other type. */
  function ForwardArgs(t: Tunnel): (r: Result<seq<string>>)
    ensures r.Ok? <==> KnownType(t.tunnelType)
    ensures r.Ok? ==> |r.value| == 2
    ensures t.tunnelType == Local ==> r.value[0] == "-L"
    ensures t.tunnelType == Remote ==> r.value[0] == "-R"
    ensures t.tunnelType == Dynamic ==> r.value[0] == "-D"
    ensures r.Raised? ==> r.exc == ValueError("Unknown tunnel type: " + t.tunnelType)
  {
    if t.tunnelType == Local then
      Ok(["-L", OrDefault(t.localBind, Loopback) + ":" + IntToString(t.localPort) + ":"
                + OrDefault(t.remoteHost, Loopback) + ":" + IntToString(t.remotePort)])
    else if t.tunnelType == Remote then
      Ok(["-R", OrDefault(t.remoteBind, AllInterfaces) + ":" + IntToString(t.remotePort) + ":"
                + OrDefault(t.remoteHost, Loopback) + ":" + IntToString(t.localPort)])
    else if t.tunnelType == Dynamic then
      Ok(["-D", OrDefault(t.localBind, Loopback) + ":" + IntToString(t.socksPort)])
    else
      Raised(ValueError("Unknown tunnel type: " + t.tunnelType))
  }

  function Destination(h: Host): string
  {
    h.username + "@" + h.hostname
  }

  /** The vector around a forwarding option: the fixed prefix first, `user@host` last, every piece counted once. */
  function Vector(h: Host, fwd: seq<string>): (r: seq<string>)
    ensures |r| == 3 + |KeepaliveArgs(h)| + |IdentityArgs(h)| + 2 + |fwd| + |Split(h.extraArgs)| + 1
    ensures r[..3] == FixedArgs && r[|r| - 1] == Destination(h)
  {
    Pieces(FixedArgs, KeepaliveArgs(h), IdentityArgs(h), PortArgs(h), fwd, Split(h.extraArgs), Destination(h));
    FixedArgs + KeepaliveArgs(h) + IdentityArgs(h) + PortArgs(h) + fwd + Split(h.extraArgs) + [Destination(h)]
  }

  /**
   * build_ssh_args: a vector exactly for the three known tunnel types, beginning
   * `-N -o ExitOnForwardFailure=yes` and ending `user@host`; any other type raises ValueError.
   */
  function SshArgs(h: Host, t: Tunnel): (r: Result<seq<string>>)
    ensures r.Ok? <==> KnownType(t.tunnelType)
    ensures r.Raised? ==> r == Raised(ValueError("Unknown tunnel type: " + t.tunnelType))
    ensures r.Ok? ==> |r.value| >= 8 && r.value[..3] == FixedArgs && r.value[|r.value| - 1] == h.username + "@" + h.hostname
  {
    match ForwardArgs(t)
    case Ok(fwd) => Ok(Vector(h, fwd))
    case Raised(e) => Raised(e)
  }

  /** The position of the forwarding option in the vector. */
  function ForwardAt(h: Host): nat
  {
    3 + |KeepaliveArgs(h)| + |IdentityArgs(h)| + 2
  }

  // ---------------------------------------------------------------------------
  // What the vector promises

  /** Where each of seven pieces sits in their concatenation. */
  lemma Pieces<T>(a: seq<T>, b: seq<T>, c: seq<T>, d: seq<T>, e: seq<T>, f: seq<T>, g: T)
    ensures var r := a + b + c + d + e + f + [g];
      var i, j, k := |a|, |a| + |b|, |a| + |b| + |c|;
      var l, m := k + |d|, k + |d| + |e|;
      |r| == m + |f| + 1
      && r[..i] == a && r[i..j] == b && r[j..k] == c && r[k..l] == d
      && r[l..m] == e && r[m..|r| - 1] == f && r[|r| - 1] == g
  {
  }

  // Where the pieces of the vector sit, whatever the forwarding option is.

  lemma VectorKeepalive(h: Host, fwd: seq<string>)
    requires |fwd| == 2
    ensures var r, j := Vector(h, fwd), 3 + |KeepaliveArgs(h)|;
      j + 1 < |r| && r[3..j] == KeepaliveArgs(h)
  {
    Pieces(FixedArgs, KeepaliveArgs(h), IdentityArgs(h), PortArgs(h), fwd, Split(h.extraArgs), Destination(h));
  }

  lemma VectorIdentity(h: Host, fwd: seq<string>)
    requires |fwd| == 2
    ensures var r, j := Vector(h, fwd), 3 + |KeepaliveArgs(h)|;
      j + 1 < |r|
      && r[j] == (if IsBlank(h.identityFile) then "-p" else "-i")
      && (!IsBlank(h.identityFile) ==> r[j + 1] == Strip(h.identityFile))
  {
    var r, j, k := Vector(h, fwd), 3 + |KeepaliveArgs(h)|, ForwardAt(h);
    if IsBlank(h.identityFile) {
      assert k + 1 < |r| && r[k - 2..k] == PortArgs(h) by {
        Pieces(FixedArgs, KeepaliveArgs(h), IdentityArgs(h), PortArgs(h), fwd, Split(h.extraArgs), Destination(h));
      }
      assert r[j] == r[k - 2..k][0];
    } else {
      assert k + 1 < |r| && r[j..k - 2] == IdentityArgs(h) by {
        Pieces(FixedArgs, KeepaliveArgs(h), IdentityArgs(h), PortArgs(h), fwd, Split(h.extraArgs), Destination(h));
      }
      assert r[j] == r[j..k - 2][0] && r[j + 1] == r[j..k - 2][1];
    }
  }

  lemma VectorPort(h: Host, fwd: seq<string>)
    requires |fwd| == 2
    ensures var r, k := Vector(h, fwd), ForwardAt(h);
      k + 1 < |r| && r[k - 2] == "-p" && r[k - 1] == IntToString(h.port)
  {
    var r, k := Vector(h, fwd), ForwardAt(h);
    assert k + 1 < |r| && r[k - 2..k] == PortArgs(h) by {
      Pieces(FixedArgs, KeepaliveArgs(h), IdentityArgs(h), PortArgs(h), fwd, Split(h.extraArgs), Destination(h));
    }
    assert r[k - 2] == r[k - 2..k][0] && r[k - 1] == r[k - 2..k][1];
  }

  lemma VectorForward(h: Host, fwd: seq<string>)
    requires |fwd| == 2
    ensures var r, k := Vector(h, fwd), ForwardAt(h);
      k + 1 < |r| && r[k] == fwd[0] && r[k + 1] == fwd[1]
  {
    var r, k := Vector(h, fwd), ForwardAt(h);
    assert k + 1 < |r| && r[k..k + 2] == fwd by {
      Pieces(FixedArgs, KeepaliveArgs(h), IdentityArgs(h), PortArgs(h), fwd, Split(h.extraArgs), Destination(h));
    }
    assert r[k] == r[k..k + 2][0] && r[k + 1] == r[k..k + 2][1];
  }

  lemma VectorExtra(h: Host, fwd: seq<string>)
    requires |fwd| == 2
    ensures var r, k := Vector(h, fwd), ForwardAt(h);
      k + 2 <= |r| - 1 && r[k + 2..|r| - 1] == Split(h.extraArgs)
  {
    Pieces(FixedArgs, KeepaliveArgs(h), IdentityArgs(h), PortArgs(h), fwd, Split(h.extraArgs), Destination(h));
  }

  /** What follows the keepalive options is "-i" or "-p", never "-o". */
  lemma AfterKeepalive(h: Host, t: Tunnel)
    requires KnownType(t.tunnelType)
    ensures var r, k := SshArgs(h, t).value, KeepaliveArgs(h);
      3 + |k| + 1 < |r| && r[3..3 + |k|] == k && r[3 + |k|] != "-o"
  {
    VectorKeepalive(h, ForwardArgs(t).value);
    VectorIdentity(h, ForwardArgs(t).value);
    assert "-o" != "-i" && "-o" != "-p" by {
      assert "-o"[1] != "-i"[1] && "-o"[1] != "-p"[1];
    }
  }

  /** "-o ServerAliveInterval=n" follows the fixed prefix iff the keepalive interval n is positive. */
  lemma SshArgsKeepaliveInterval(h: Host, t: Tunnel)
    requires KnownType(t.tunnelType)
    ensures var r := SshArgs(h, t).value;
      |r| > 4
      && (r[3] == "-o" <==> h.keepaliveInterval > 0)
      && (h.keepaliveInterval > 0 ==> r[4] == "ServerAliveInterval=" + IntToString(h.keepaliveInterval))
  {
    AfterKeepalive(h, t);
    var r, k := SshArgs(h, t).value, KeepaliveArgs(h);
    if |k| > 0 {
      assert r[3] == r[3..3 + |k|][0] && r[4] == r[3..3 + |k|][1];
    }
  }

  /** "-o ServerAliveCountMax=m" follows the interval option iff the interval and m are both positive. */
  lemma SshArgsKeepaliveCountMax(h: Host, t: Tunnel)
    requires KnownType(t.tunnelType)
    ensures var r := SshArgs(h, t).value;
      |r| > 6
      && (h.keepaliveInterval > 0 && r[5] == "-o" <==> h.keepaliveInterval > 0 && h.keepaliveCountmax > 0)
      && (h.keepaliveInterval > 0 && h.keepaliveCountmax > 0 ==>
            r[6] == "ServerAliveCountMax=" + IntToString(h.keepaliveCountmax))
  {
    AfterKeepalive(h, t);
    var r, k := SshArgs(h, t).value, KeepaliveArgs(h);
    if |k| > 2 {
      assert r[5] == r[3..3 + |k|][2] && r[6] == r[3..3 + |k|][3];
    }
  }

  /** "-i path" with the trimmed path appears, right after the keepalive options, iff the identity file is not blank. */
  lemma SshArgsIdentity(h: Host, t: Tunnel)
    requires KnownType(t.tunnelType)
    ensures var r, j := SshArgs(h, t).value, 3 + |KeepaliveArgs(h)|;
      j + 1 < |r|
      && (r[j] == "-i" <==> !IsBlank(h.identityFile))
      && (!IsBlank(h.identityFile) ==> r[j + 1] == Strip(h.identityFile))
  {
    VectorIdentity(h, ForwardArgs(t).value);
    assert "-p" != "-i" by {
      assert "-p"[1] != "-i"[1];
    }
  }

  /** "-p port" always comes right before the forwarding option, and the port reads back from it. */
  lemma SshArgsPort(h: Host, t: Tunnel)
    requires KnownType(t.tunnelType)
    ensures var r, k := SshArgs(h, t).value, ForwardAt(h);
      k + 1 < |r| && r[k - 2] == "-p" && ParseInt(r[k - 1]) == Some(h.port)
  {
    VectorPort(h, ForwardArgs(t).value);
    IntToStringRoundTrip(h.port);
  }

  /** A local tunnel forwards bind:local_port to host:remote_port, blank addresses meaning the loopback. */
  lemma LocalForward(h: Host, t: Tunnel)
    requires t.tunnelType == Local
    ensures var r, k := SshArgs(h, t).value, ForwardAt(h);
      k + 1 < |r| && r[k] == "-L"
      && r[k + 1] == OrDefault(t.localBind, Loopback) + ":" + IntToString(t.localPort) + ":"
                     + OrDefault(t.remoteHost, Loopback) + ":" + IntToString(t.remotePort)
  {
    VectorForward(h, ForwardArgs(t).value);
  }

  /** A remote tunnel forwards the server's bind:remote_port back to host:local_port; a blank bind means all interfaces. */
  lemma RemoteForward(h: Host, t: Tunnel)
    requires t.tunnelType == Remote
    ensures var r, k := SshArgs(h, t).value, ForwardAt(h);
      k + 1 < |r| && r[k] == "-R"
      && r[k + 1] == OrDefault(t.remoteBind, AllInterfaces) + ":" + IntToString(t.remotePort) + ":"
                     + OrDefault(t.remoteHost, Loopback) + ":" + IntToString(t.localPort)
  {
    VectorForward(h, ForwardArgs(t).value);
  }

  /** A dynamic tunnel opens a SOCKS proxy on bind:socks_port, a blank bind meaning the loopback. */
  lemma DynamicForward(h: Host, t: Tunnel)
    requires t.tunnelType == Dynamic
    ensures var r, k := SshArgs(h, t).value, ForwardAt(h);
      k + 1 < |r| && r[k] == "-D"
      && r[k + 1] == OrDefault(t.localBind, Loopback) + ":" + IntToString(t.socksPort)
  {
    VectorForward(h, ForwardArgs(t).value);
  }

  /**
   * The extra arguments are the whitespace-separated tokens: none empty, together every
   * visible character, and with the whitespace runs between them the extra-argument text itself.
   */
  lemma ExtraArgsTokens(h: Host, t: Tunnel)
    requires KnownType(t.tunnelType)
    ensures var r, k := SshArgs(h, t).value, ForwardAt(h);
      k + 2 <= |r| - 1
      && (forall i :: k + 2 <= i < |r| - 1 ==> r[i] != [] && NoSpace(r[i]))
      && Flatten(r[k + 2..|r| - 1]) == RemoveSpaces(h.extraArgs)
      && h.extraArgs == Interleave(Gaps(h.extraArgs), r[k + 2..|r| - 1])
  {
    VectorExtra(h, ForwardArgs(t).value);
    SplitKeepsEveryVisibleChar(h.extraArgs);
    SplitRejoins(h.extraArgs);
    var r, k := SshArgs(h, t).value, ForwardAt(h);
    forall i | k + 2 <= i < |r| - 1
      ensures r[i] != [] && NoSpace(r[i])
    {
      assert r[i] == r[k + 2..|r| - 1][i - k - 2];
    }
  }

  /** The builder only looks at the fields the tunnel's type uses: changing the others changes nothing. */
  lemma SshArgsIgnoresUnusedFields(h: Host, t: Tunnel, u: Tunnel)
    requires t.tunnelType == u.tunnelType
    requires t.tunnelType == Local ==>
      t.localBind == u.localBind && t.localPort == u.localPort && t.remoteHost == u.remoteHost && t.remotePort == u.remotePort
    requires t.tunnelType == Remote ==>
      t.remoteBind == u.remoteBind && t.localPort == u.localPort && t.remoteHost == u.remoteHost && t.remotePort == u.remotePort
    requires t.tunnelType == Dynamic ==> t.localBind == u.localBind && t.socksPort == u.socksPort
    ensures SshArgs(h, t) == SshArgs(h, u)
  {
  }

  /** An address that is already trimmed and not blank is used as it is. */
  lemma OrDefaultOfAddress(s: string, d: string)
    requires s != [] && Trimmed(s)
    ensures OrDefault(s, d) == s
  {
    StripUnchanged(s);
  }

  /** The defaults a new local tunnel starts with are the ones the builder falls back to for blank fields. */
  lemma DefaultLocalAgreesWithFallbacks(hostId: int)
    ensures var l := DefaultLocal(hostId);
      ForwardArgs(l) == ForwardArgs(l.(localBind := "", remoteHost := ""))
  {
    OrDefaultOfAddress(Loopback, Loopback);
  }

  /** The same for a new remote tunnel's bind address. */
  lemma DefaultRemoteAgreesWithFallbacks(hostId: int)
    ensures var r := DefaultRemote(hostId);
      ForwardArgs(r) == ForwardArgs(r.(remoteBind := ""))
  {
    OrDefaultOfAddress(AllInterfaces, AllInterfaces);
  }

  /** The same for a new SOCKS proxy's bind address. */
  lemma DefaultDynamicAgreesWithFallbacks(hostId: int)
    ensures var d := DefaultDynamic(hostId);
      ForwardArgs(d) == ForwardArgs(d.(localBind := ""))
  {
    OrDefaultOfAddress(Loopback, Loopback);
  }

  // ---------------------------------------------------------------------------
  // The builder as it is written: appending to a list step by step

  /** build_ssh_args, appending option by option and token by token; it computes exactly SshArgs. */
  method BuildSshArgs(h: Host, t: Tunnel) returns (r: Result<seq<string>>)
    ensures r == SshArgs(h, t)
  {
    var args: seq<string> := [];
    args := args + ["-N"];
    args := args + ["-o", "ExitOnForwardFailure=yes"];
    assert args == FixedArgs;
    args := AppendHostOptions(args, h);
    var forward := ForwardOption(t);
    if forward.Raised? {
      return Raised(forward.exc);
    }
    ghost var head := args;
    args := args + forward.value;

    var parts := Split(h.extraArgs);
    if h.extraArgs != [] && Strip(h.extraArgs) != [] {
      args := AppendTokens(args, parts);
    } else {
      SplitOfBlank(h.extraArgs);
    }
    assert args == head + forward.value + parts;

    args := args + [h.username + "@" + h.hostname];
    assert args == Vector(h, forward.value);
    return Ok(args);
  }

  /** The keepalive, identity and port options appended to the vector built so far. */
  method AppendHostOptions(args: seq<string>, h: Host) returns (r: seq<string>)
    ensures r == args + KeepaliveArgs(h) + IdentityArgs(h) + PortArgs(h)
  {
    r := args;
    if h.keepaliveInterval > 0 {
      r := r + ["-o", "ServerAliveInterval=" + IntToString(h.keepaliveInterval)];
      if h.keepaliveCountmax > 0 {
        r := r + ["-o", "ServerAliveCountMax=" + IntToString(h.keepaliveCountmax)];
      }
    }
    assert r == args + KeepaliveArgs(h);

    ghost var prev := r;
    assert h.identityFile != [] && Strip(h.identityFile) != [] <==> !IsBlank(h.identityFile);
    if h.identityFile != [] && Strip(h.identityFile) != [] {
      r := r + ["-i", Strip(h.identityFile)];
    }
    assert r == prev + IdentityArgs(h);

    r := r + ["-p", IntToString(h.port)];
  }

  /** The forwarding option chosen by the tunnel's type, or the error for an unknown type. */
  method ForwardOption(t: Tunnel) returns (r: Result<seq<string>>)
    ensures r == ForwardArgs(t)
  {
    if t.tunnelType == Local {
      var bind := OrDefault(t.localBind, Loopback);
      var remoteHost := OrDefault(t.remoteHost, Loopback);
      var spec := bind + ":" + IntToString(t.localPort) + ":" + remoteHost + ":" + IntToString(t.remotePort);
      r := Ok(["-L", spec]);
    } else if t.tunnelType == Remote {
      var bind := OrDefault(t.remoteBind, AllInterfaces);
      var localHost := OrDefault(t.remoteHost, Loopback);
      var spec := bind + ":" + IntToString(t.remotePort) + ":" + localHost + ":" + IntToString(t.localPort);
      r := Ok(["-R", spec]);
    } else if t.tunnelType == Dynamic {
      var bind := OrDefault(t.localBind, Loopback);
      var spec := bind + ":" + IntToString(t.socksPort);
      r := Ok(["-D", spec]);
    } else {
      r := Raised(ValueError("Unknown tunnel type: " + t.tunnelType));
    }
  }

  /** The loop over the extra-argument tokens: each is trimmed and appended unless empty. */
  method AppendTokens(args: seq<string>, parts: seq<string>) returns (r: seq<string>)
    requires forall k :: 0 <= k < |parts| ==> parts[k] != [] && NoSpace(parts[k])
    ensures r == args + parts
  {
    r := args;
    for i := 0 to |parts|
      invariant r == args + parts[..i]
    {
      StripUnchanged(parts[i]);
      var part := Strip(parts[i]);
      if part != [] {
        r := r + [part];
      }
      assert parts[..i + 1] == parts[..i] + [parts[i]];
    }
    assert parts[..|parts|] == parts;
  }

  // ---------------------------------------------------------------------------
  // Locating the client and the full command

  /**
   * find_ssh: the PATH lookup's answer when it is a non-empty path, else the first known
   * location that is a file, else nothing. `which` and `isFile` stand for the filesystem.
   */
  function FindSsh(which: Option<string>, isFile: string -> bool): (r: Option<string>)
    ensures which.Some? && which.value != [] ==> r == which
    ensures (which.None? || which.value == []) ==>
      r == (if isFile(KnownLocations[0]) then Some(KnownLocations[0])
            else if isFile(KnownLocations[1]) then Some(KnownLocations[1])
            else None)
    ensures r.Some? ==> r.value != []
  {
    if which.Some? && which.value != [] then which
    else FirstFile(KnownLocations, isFile)
  }

  /** The first of the candidates that is a file. */
  function FirstFile(candidates: seq<string>, isFile: string -> bool): (r: Option<string>)
    ensures r.Some? ==> r.value in candidates && isFile(r.value)
    ensures r.None? <==> forall c :: c in candidates ==> !isFile(c)
  {
    if candidates == [] then None
    else if isFile(candidates[0]) then Some(candidates[0])
    else FirstFile(candidates[1..], isFile)
  }

  /**
   * build_full_command, with the client lookup's answer as a parameter: the client's path
   * followed by exactly the argument vector. A missing client is reported before the tunnel is looked at.
   */
  function BuildFullCommand(sshPath: Option<string>, h: Host, t: Tunnel): (r: Result<seq<string>>)
    ensures (sshPath.None? || sshPath.value == []) ==> r == Raised(FileNotFoundError(NotFoundMessage))
    ensures sshPath.Some? && sshPath.value != [] ==>
      (r.Ok? <==> SshArgs(h, t).Ok?)
      && (r.Ok? ==> r.value == [sshPath.value] + SshArgs(h, t).value)
      && (r.Raised? ==> r == SshArgs(h, t))
  {
    if sshPath.None? || sshPath.value == [] then Raised(FileNotFoundError(NotFoundMessage))
    else
      match SshArgs(h, t)
      case Ok(args) => Ok([sshPath.value] + args)
      case Raised(e) => Raised(e)
  }

  // ---------------------------------------------------------------------------
  // Quoting

  /** Every occurrence of `c` replaced by `rep`, as str.replace does. */
  function Replace(s: string, c: char, rep: string): string
  {
    if s == [] then [] else (if s[0] == c then rep else [s[0]]) + Replace(s[1..], c, rep)
  }

  /** _quote_arg: wrap in double quotes after doubling backslashes and escaping quotes; "" for the empty text. */
  function QuoteArg(s: string): (r: string)
    ensures |r| >= 2 && r[0] == '"' && r[|r| - 1] == '"'
    ensures s == [] ==> r == "\"\""
  {
    if s == [] then "\"\""
    else "\"" + Replace(Replace(s, '\\', "\\\\"), '"', "\\\"") + "\""
  }

  /** Reading quoted text back: a backslash takes the next character literally. */
  function Unescape(s: string): string
  {
    if s == [] then []
    else if s[0] == '\\' && |s| >= 2 then [s[1]] + Unescape(s[2..])
    else [s[0]] + Unescape(s[1..])
  }

  /** The quoted text between its outer quotes. */
  function Unquote(q: string): string
    requires |q| >= 2
  {
    Unescape(q[1..|q| - 1])
  }

  /** The two replacements together escape each backslash and each quote with a backslash. */
  function EscapeChar(c: char): string
  {
    if c == '\\' || c == '"' then ['\\', c] else [c]
  }

  function Escape(s: string): string
  {
    if s == [] then [] else EscapeChar(s[0]) + Escape(s[1..])
  }

  lemma {:induction false} ReplaceAppend(a: string, b: string, c: char, rep: string)
    ensures Replace(a + b, c, rep) == Replace(a, c, rep) + Replace(b, c, rep)
  {
    if a == [] {
      assert a + b == b;
    } else {
      assert (a + b)[0] == a[0] && (a + b)[1..] == a[1..] + b;
      ReplaceAppend(a[1..], b, c, rep);
    }
  }

  lemma {:induction false} ReplacesAreEscape(s: string)
    ensures Replace(Replace(s, '\\', "\\\\"), '"', "\\\"") == Escape(s)
  {
    if s != [] {
      ReplacesAreEscape(s[1..]);
      var head := if s[0] == '\\' then "\\\\" else [s[0]];
      ReplaceAppend(head, Replace(s[1..], '\\', "\\\\"), '"', "\\\"");
      if s[0] == '\\' {
        assert Replace(head, '"', "\\\"") == ['\\'] + Replace("\\", '"', "\\\"");
      } else {
        assert Replace(head, '"', "\\\"") == (if s[0] == '"' then "\\\"" else [s[0]]) + Replace([], '"', "\\\"");
      }
    }
  }

  lemma {:induction false} UnescapeEscape(s: string)
    ensures Unescape(Escape(s)) == s
  {
    if s != [] {
      UnescapeEscape(s[1..]);
      var e := Escape(s);
      assert e == EscapeChar(s[0]) + Escape(s[1..]);
      if s[0] == '\\' || s[0] == '"' {
        assert e[2..] == Escape(s[1..]);
      } else {
        assert e[1..] == Escape(s[1..]);
      }
    }
  }

  /** Quoting loses nothing for a reader that takes the character after every backslash literally. */
  lemma QuoteArgRoundTrip(s: string)
    ensures Unquote(QuoteArg(s)) == s
  {
    if s != [] {
      ReplacesAreEscape(s);
      var q := QuoteArg(s);
      assert q[1..|q| - 1] == Escape(s);
      UnescapeEscape(s);
    }
  }

  // ---------------------------------------------------------------------------
  // Quoting for a Windows program

  /** `k` backslashes. */
  function Slashes(k: nat): (r: string)
    ensures |r| == k && forall i :: 0 <= i < k ==> r[i] == '\\'
  {
    if k == 0 then [] else ['\\'] + Slashes(k - 1)
  }

  /** The length of the run of backslashes a text starts with. */
  function SlashRun(s: string): (n: nat)
    ensures n <= |s| && (n < |s| ==> s[n] != '\\') && forall i :: 0 <= i < n ==> s[i] == '\\'
  {
    if s == [] || s[0] != '\\' then 0 else SlashRun(s[1..]) + 1
  }

  /**
   * How a Windows program reads a double-quoted argument, given what follows the opening
   * quote (the backslash rules of CommandLineToArgvW): a run of n backslashes followed by
   * a quote gives n / 2 backslashes and, for odd n, a literal quote, while for even n the
   * quote closes the argument; a run not followed by a quote is taken as it is.
   */
  function ReadQuoted(s: string): string
    decreases |s|
  {
    if s == [] || s[0] == '"' then []
    else if s[0] == '\\' then
      var n := SlashRun(s);
      if n < |s| && s[n] == '"' then
        Slashes(n / 2) + (if n % 2 == 1 then ['"'] + ReadQuoted(s[n + 1..]) else [])
      else Slashes(n) + ReadQuoted(s[n..])
    else [s[0]] + ReadQuoted(s[1..])
  }

  /** A Windows program reads a lone backslash quoted by _quote_arg back as two. */
  lemma QuoteArgDoublesLoneBackslash()
    ensures QuoteArg("a\\b") == "\"a\\\\b\""
    ensures ReadQuoted(QuoteArg("a\\b")[1..]) == "a\\\\b"
  {
    QuoteLoneBackslash();
    var t := "a\\\\b\"";
    assert QuoteArg("a\\b")[1..] == t;
    ReadDoubledBackslash();
  }

  lemma QuoteLoneBackslash()
    ensures QuoteArg("a\\b") == "\"a\\\\b\""
  {
    var doubled := "a\\\\b";
    DoubleLoneBackslash();
    ReplaceAbsent(doubled, '"', "\\\"");
  }

  lemma DoubleLoneBackslash()
    ensures Replace("a\\b", '\\', "\\\\") == "a\\\\b"
  {
    assert Replace("b", '\\', "\\\\") == "b" + Replace([], '\\', "\\\\");
    assert Replace("\\b", '\\', "\\\\") == "\\\\" + Replace("b", '\\', "\\\\");
  }

  /** Replacing a character the text does not hold leaves it as it is. */
  lemma ReplaceAbsent(s: string, c: char, rep: string)
    requires c !in s
    ensures Replace(s, c, rep) == s
  {
    if s != [] {
      assert s[0] != c && c !in s[1..];
      ReplaceAbsent(s[1..], c, rep);
    }
  }

  lemma ReadDoubledBackslash()
    ensures ReadQuoted("a\\\\b\"") == "a\\\\b"
  {
    var t := "a\\\\b\"";
    assert ReadQuoted(t[3..]) == "b" by {
      assert t[3..][1..] == "\"";
    }
    assert ReadQuoted(t[1..]) == Slashes(2) + ReadQuoted(t[3..]) by {
      ReadRun(2, t[3..]);
      assert t[1..] == Slashes(2) + t[3..];
    }
  }

  /**
   * The quoting a Windows program reads back exactly: a backslash is doubled only in a run
   * that a quote or the closing quote follows, and a quote is escaped with one more backslash.
   */
  function WindowsEscape(s: string): string
    decreases |s|
  {
    if s == [] then []
    else if s[0] == '"' then ['\\', '"'] + WindowsEscape(s[1..])
    else if s[0] == '\\' then
      var n := SlashRun(s);
      if n == |s| then Slashes(2 * n)
      else if s[n] == '"' then Slashes(2 * n + 1) + ['"'] + WindowsEscape(s[n + 1..])
      else Slashes(n) + WindowsEscape(s[n..])
    else [s[0]] + WindowsEscape(s[1..])
  }

  /** _quote_arg with the backslash escaping its comment describes: wrapped in quotes, "" for the empty text. */
  function QuoteArgForWindows(s: string): (r: string)
    ensures |r| >= 2 && r[0] == '"' && r[|r| - 1] == '"'
    ensures s == [] ==> r == "\"\""
  {
    "\"" + WindowsEscape(s) + "\""
  }

  /** A Windows program reads the corrected quoting back as the argument, whatever it holds. */
  lemma QuoteArgForWindowsRoundTrip(s: string)
    ensures ReadQuoted(QuoteArgForWindows(s)[1..]) == s
  {
    var q := QuoteArgForWindows(s);
    assert q[1..] == WindowsEscape(s) + "\"";
    ReadEscaped(s);
  }

  /** The escaped text followed by the closing quote reads back as the text. */
  lemma {:induction false} ReadEscaped(s: string)
    ensures ReadQuoted(WindowsEscape(s) + "\"") == s
    decreases |s|
  {
    if s == [] {
      assert WindowsEscape(s) + "\"" == "\"";
    } else if s[0] == '"' {
      ReadEscaped(s[1..]);
      ReadEscapedQuote(s);
    } else if s[0] == '\\' {
      var n := SlashRun(s);
      if n == |s| {
        AllSlashes(s);
        ReadEscapedTrailingRun(n);
      } else if s[n] == '"' {
        ReadEscaped(s[n + 1..]);
        SlashesThenQuote(s);
        ReadEscapedRunBeforeQuote(n, s[n + 1..]);
      } else {
        ReadEscaped(s[n..]);
        SlashesThenText(s);
        ReadEscapedRun(n, s[n..]);
      }
    } else {
      ReadEscaped(s[1..]);
      ReadEscapedPlain(s);
    }
  }

  /** A run of backslashes in front of a text that does not start with one. */
  lemma RunOfSlashes(k: nat, rest: string)
    requires rest != [] && rest[0] != '\\'
    ensures SlashRun(Slashes(k) + rest) == k && (Slashes(k) + rest)[k..] == rest
  {
    var t := Slashes(k) + rest;
    if k > 0 {
      assert t[1..] == Slashes(k - 1) + rest;
      RunOfSlashes(k - 1, rest);
    }
  }

  /** A text that is one run of backslashes. */
  lemma AllSlashes(s: string)
    requires SlashRun(s) == |s|
    ensures s == Slashes(|s|)
  {
    RunIsSlashes(s);
  }

  /** A text whose leading run a quote follows. */
  lemma SlashesThenQuote(s: string)
    requires SlashRun(s) < |s| && s[SlashRun(s)] == '"'
    ensures s == Slashes(SlashRun(s)) + (['"'] + s[SlashRun(s) + 1..])
  {
    var n := SlashRun(s);
    var front, quote, back := s[..n], s[n..n + 1], s[n + 1..];
    assert front == Slashes(n) by {
      RunIsSlashes(s);
    }
    assert quote == ['"'];
    Cut3(s, n, n + 1);
    ConcatAssoc(front, quote, back);
  }

  lemma ConcatAssoc<T>(a: seq<T>, b: seq<T>, c: seq<T>)
    ensures a + b + c == a + (b + c)
  {
  }

  /** A text is its leading run followed by the rest. */
  lemma SlashesThenText(s: string)
    ensures s == Slashes(SlashRun(s)) + s[SlashRun(s)..]
  {
    RunIsSlashes(s);
    Cut2(s, SlashRun(s));
  }

  /** A text whose leading run is `n` long begins with `n` backslashes. */
  lemma RunIsSlashes(s: string)
    ensures s[..SlashRun(s)] == Slashes(SlashRun(s))
  {
  }

  /** How a Windows program reads a run of `k` backslashes and what follows it. */
  lemma ReadRun(k: nat, rest: string)
    requires k > 0 && rest != [] && rest[0] != '\\'
    ensures rest[0] == '"' ==>
              ReadQuoted(Slashes(k) + rest) == Slashes(k / 2) + (if k % 2 == 1 then ['"'] + ReadQuoted(rest[1..]) else [])
    ensures rest[0] != '"' ==> ReadQuoted(Slashes(k) + rest) == Slashes(k) + ReadQuoted(rest)
  {
    var t := Slashes(k) + rest;
    RunOfSlashes(k, rest);
    assert t[0] == '\\';
    if rest[0] == '"' {
      assert t[k + 1..] == rest[1..];
    }
  }

  lemma ReadEscapedQuote(s: string)
    requires s != [] && s[0] == '"'
    requires ReadQuoted(WindowsEscape(s[1..]) + "\"") == s[1..]
    ensures ReadQuoted(WindowsEscape(s) + "\"") == s
  {
    var rest := WindowsEscape(s[1..]) + "\"";
    assert WindowsEscape(s) + "\"" == Slashes(1) + (['"'] + rest);
    ReadRun(1, ['"'] + rest);
    assert (['"'] + rest)[1..] == rest;
    Cut2(s, 1);
    assert s[..1] == ['"'];
  }

  lemma ReadEscapedTrailingRun(n: nat)
    requires n > 0
    ensures ReadQuoted(WindowsEscape(Slashes(n)) + "\"") == Slashes(n)
  {
    var k := 2 * n;
    assert WindowsEscape(Slashes(n)) == Slashes(k) by {
      SlashesRun(n);
    }
    assert k / 2 == n && k % 2 == 0;
    ReadRun(k, "\"");
  }

  /** `k` backslashes are one run. */
  lemma SlashesRun(k: nat)
    ensures SlashRun(Slashes(k)) == k
  {
    if k > 0 {
      assert Slashes(k)[1..] == Slashes(k - 1);
      SlashesRun(k - 1);
    }
  }

  lemma ReadEscapedRunBeforeQuote(n: nat, tail: string)
    requires n > 0
    requires ReadQuoted(WindowsEscape(tail) + "\"") == tail
    ensures ReadQuoted(WindowsEscape(Slashes(n) + (['"'] + tail)) + "\"") == Slashes(n) + (['"'] + tail)
  {
    var rest := WindowsEscape(tail) + "\"";
    var k := 2 * n + 1;
    assert WindowsEscape(Slashes(n) + (['"'] + tail)) + "\"" == Slashes(k) + (['"'] + rest) by {
      EscapeRunBeforeQuote(n, tail);
      ConcatAssoc(Slashes(k), ['"'] + WindowsEscape(tail), "\"");
      ConcatAssoc(['"'], WindowsEscape(tail), "\"");
    }
    assert k / 2 == n && k % 2 == 1;
    ReadRun(k, ['"'] + rest);
    assert (['"'] + rest)[1..] == rest;
  }

  /** Escaping a run that a quote follows doubles the run and adds one backslash for the quote. */
  lemma EscapeRunBeforeQuote(n: nat, tail: string)
    requires n > 0
    ensures WindowsEscape(Slashes(n) + (['"'] + tail)) == Slashes(2 * n + 1) + (['"'] + WindowsEscape(tail))
  {
    var s := Slashes(n) + (['"'] + tail);
    RunOfSlashes(n, ['"'] + tail);
    assert s[n + 1..] == tail;
  }

  lemma ReadEscapedRun(n: nat, u: string)
    requires n > 0 && u != [] && u[0] != '\\' && u[0] != '"'
    requires ReadQuoted(WindowsEscape(u) + "\"") == u
    ensures ReadQuoted(WindowsEscape(Slashes(n) + u) + "\"") == Slashes(n) + u
  {
    var rest := WindowsEscape(u) + "\"";
    assert WindowsEscape(Slashes(n) + u) + "\"" == Slashes(n) + rest by {
      EscapeRun(n, u);
      ConcatAssoc(Slashes(n), WindowsEscape(u), "\"");
    }
    assert rest[0] == u[0] by {
      assert WindowsEscape(u) == [u[0]] + WindowsEscape(u[1..]);
    }
    ReadRun(n, rest);
  }

  /** Escaping a run that no quote follows leaves the run as it is. */
  lemma EscapeRun(n: nat, u: string)
    requires n > 0 && u != [] && u[0] != '\\' && u[0] != '"'
    ensures WindowsEscape(Slashes(n) + u) == Slashes(n) + WindowsEscape(u)
  {
    var s := Slashes(n) + u;
    RunOfSlashes(n, u);
  }

  lemma ReadEscapedPlain(s: string)
    requires s != [] && s[0] != '\\' && s[0] != '"'
    requires ReadQuoted(WindowsEscape(s[1..]) + "\"") == s[1..]
    ensures ReadQuoted(WindowsEscape(s) + "\"") == s
  {
    var t := WindowsEscape(s) + "\"";
    assert t == [s[0]] + (WindowsEscape(s[1..]) + "\"");
    assert t[1..] == WindowsEscape(s[1..]) + "\"";
    Cut2(s, 1);
    assert s[..1] == [s[0]];
  }
}
