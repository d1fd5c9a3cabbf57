/**
 * The rules of the host and tunnel editors: port and hostname validation, what a
 * form is loaded with, which tunnel fields are shown for each kind, the record a
 * form yields, and the checks that decide whether it may be accepted. The widgets
 * are reduced to their values; a spin box keeps its value inside its range.
 */
module Dialogs {
  import opened Wrappers
  import opened Text
  import opened Models
  import SshBuilder

  /** validate_port: the value is a usable TCP port, a non-zero 16-bit number. */
  predicate ValidatePort(v: int)
    ensures ValidatePort(v) <==> 0 < v < 0x1_0000
  {
    1 <= v <= 65535
  }

  // ---------------------------------------------------------------------------
  // Hostnames

  /** \w over ASCII: a letter, a digit or the underscore. */
  predicate IsWordChar(c: char)
  {
    ('a' <= c <= 'z') || ('A' <= c <= 'Z') || IsDigit(c) || c == '_'
  }

  /** The class [\w.-]. */
  predicate IsNameChar(c: char)
  {
    IsWordChar(c) || c == '.' || c == '-'
  }

  predicate AllNameChars(s: string)
  {
    forall i :: 0 <= i < |s| ==> IsNameChar(s[i])
  }

  /**
   * re.match(r"^[\w.-]+$", s): one or more characters of the class up to the end,
   * where `$` also accepts a single newline that ends the text.
   */
  predicate MatchesNamePattern(s: string)
  {
    (s != [] && AllNameChars(s))
    || (|s| >= 2 && s[|s| - 1] == '\n' && AllNameChars(s[..|s| - 1]))
  }

  /** Length of the leading run of digits. */
  function LeadingDigits(s: string): (n: nat)
    ensures n <= |s| && AllDigits(s[..n]) && (n == |s| || !IsDigit(s[n]))
  {
    if s == [] || !IsDigit(s[0]) then 0
    else
      var n := LeadingDigits(s[1..]);
      assert s[..n + 1] == [s[0]] + s[1..][..n];
      n + 1
  }

  /**
   * `n` groups of one to three digits separated by dots, the whole text: \d{1,3}(\.\d{1,3}){n-1}.
   * A group cannot stop early, since a dot or the end must follow it and a digit is neither.
   */
  predicate DigitGroups(s: string, n: nat)
    decreases n
  {
    var k := LeadingDigits(s);
    n >= 1 && 1 <= k <= 3
    && (if n == 1 then k == |s| else k < |s| && s[k] == '.' && DigitGroups(s[k + 1..], n - 1))
  }

  /** re.match(r"^\d{1,3}\.\d{1,3}\.\d{1,3}\.\d{1,3}$", s), with the same reading of `$`. */
  predicate MatchesIpv4Pattern(s: string)
  {
    DigitGroups(s, 4) || (|s| >= 1 && s[|s| - 1] == '\n' && DigitGroups(s[..|s| - 1], 4))
  }

  /** Dotted digit groups use only characters of [\w.-], so the address pattern adds nothing. */
  lemma {:induction false} DigitGroupsAreNames(s: string, n: nat)
    requires DigitGroups(s, n)
    ensures s != [] && AllNameChars(s)
    decreases n
  {
    var k := LeadingDigits(s);
    assert forall i :: 0 <= i < k ==> IsNameChar(s[i]) by {
      forall i | 0 <= i < k
        ensures IsNameChar(s[i])
      {
        assert s[i] == s[..k][i];
      }
    }
    if n > 1 {
      DigitGroupsAreNames(s[k + 1..], n - 1);
      forall i | k + 1 <= i < |s|
        ensures IsNameChar(s[i])
      {
        assert s[i] == s[k + 1..][i - k - 1];
      }
    }
  }

  /** Every text the IPv4 pattern accepts is accepted by the name pattern. */
  lemma Ipv4Subsumed(s: string)
    requires MatchesIpv4Pattern(s)
    ensures MatchesNamePattern(s)
  {
    if DigitGroups(s, 4) {
      DigitGroupsAreNames(s, 4);
    } else {
      DigitGroupsAreNames(s[..|s| - 1], 4);
    }
  }

  /**
   * validate_hostname: false for empty or blank text; otherwise the trimmed text must
   * match the name pattern or the IPv4 pattern. Since trimmed text cannot end in a
   * newline and the IPv4 pattern is subsumed, this is exactly: the trimmed text is
   * non-empty and made of letters, digits, '_', '.' and '-'.
   */
  function ValidateHostname(s: string): (ok: bool)
    ensures ok <==> Strip(s) != [] && AllNameChars(Strip(s))
  {
    if s == [] || Strip(s) == [] then false
    else
      var t := Strip(s);
      assert IsSpace('\n');
      if MatchesNamePattern(t) then true
      else if MatchesIpv4Pattern(t) then Ipv4Subsumed(t); true
      else false
  }

  // ---------------------------------------------------------------------------
  // Spin boxes

  /** The range of every port spin box. */
  const PortBoxMax := 65535
  /** The keepalive interval box, in seconds. */
  const IntervalBoxMax := 3600
  const CountMaxBoxMax := 100

  /** QSpinBox.setValue: the value, moved into the box's range when it lies outside. */
  function Clamp(v: int, lo: int, hi: int): (r: int)
    requires lo <= hi
    ensures lo <= r <= hi
    ensures lo <= v <= hi ==> r == v
    ensures v < lo ==> r == lo
    ensures v > hi ==> r == hi
  {
    if v < lo then lo else if v > hi then hi else v
  }

  // ---------------------------------------------------------------------------
  // The host editor

  /** What the host editor's widgets hold. */
  datatype HostForm = HostForm(
    name: string,
    hostname: string,
    port: int,
    username: string,
    identityFile: string,
    extraArgs: string,
    keepaliveInterval: int,
    keepaliveCountmax: int)

  /** The "New Host" editor: empty texts, port 22, keepalive disabled, count max 3. */
  function NewHostForm(): (f: HostForm)
    ensures f.name == "" && f.hostname == "" && f.username == "" && f.identityFile == "" && f.extraArgs == ""
    ensures f.port == 22 && f.keepaliveInterval == 0 && f.keepaliveCountmax == 3
  {
    HostForm("", "", 22, "", "", "", 0, 3)
  }

  /**
   * The editor opened on a host: its texts as they are, its numbers clamped to the
   * boxes' ranges, and a count max of 0 shown as 3 (`keepalive_countmax or 3`).
   */
  function LoadHostForm(h: Host): (f: HostForm)
    ensures f.name == h.name && f.hostname == h.hostname && f.username == h.username
    ensures f.identityFile == h.identityFile && f.extraArgs == h.extraArgs
    ensures f.port == Clamp(h.port, 0, PortBoxMax)
    ensures f.keepaliveInterval == Clamp(h.keepaliveInterval, 0, IntervalBoxMax)
    ensures h.keepaliveCountmax == 0 ==> f.keepaliveCountmax == 3
    ensures h.keepaliveCountmax != 0 ==> f.keepaliveCountmax == Clamp(h.keepaliveCountmax, 0, CountMaxBoxMax)
  {
    HostForm(h.name, h.hostname, Clamp(h.port, 0, PortBoxMax), h.username, h.identityFile, h.extraArgs,
             Clamp(h.keepaliveInterval, 0, IntervalBoxMax),
             Clamp(if h.keepaliveCountmax == 0 then 3 else h.keepaliveCountmax, 0, CountMaxBoxMax))
  }

  /** get_host: a record without id or timestamps, every text trimmed, the numbers as shown. */
  function GetHost(f: HostForm): (h: Host)
    ensures h.id == None && h.createdAt == None && h.updatedAt == None
    ensures h.name == Strip(f.name) && h.username == Strip(f.username) && h.hostname == Strip(f.hostname)
    ensures h.identityFile == Strip(f.identityFile) && h.extraArgs == Strip(f.extraArgs)
    ensures h.port == f.port && h.keepaliveInterval == f.keepaliveInterval && h.keepaliveCountmax == f.keepaliveCountmax
  {
    Host(None, Strip(f.name), Strip(f.username), Strip(f.hostname), f.port,
         Strip(f.identityFile), Strip(f.extraArgs), f.keepaliveInterval, f.keepaliveCountmax, None, None)
  }

  /**
   * Editing a host and accepting it unchanged gives back its configuration (without
   * id and timestamps) when its texts are trimmed and its numbers fit the boxes.
   */
  lemma EditHostUnchanged(h: Host)
    requires Trimmed(h.name) && Trimmed(h.username) && Trimmed(h.hostname)
    requires Trimmed(h.identityFile) && Trimmed(h.extraArgs)
    requires 0 <= h.port <= PortBoxMax && 0 <= h.keepaliveInterval <= IntervalBoxMax
    requires 1 <= h.keepaliveCountmax <= CountMaxBoxMax
    ensures GetHost(LoadHostForm(h)) == h.(id := None, createdAt := None, updatedAt := None)
  {
    var g := GetHost(LoadHostForm(h));
    assert g.name == h.name by { StripUnchanged(h.name); }
    assert g.username == h.username by { StripUnchanged(h.username); }
    assert g.hostname == h.hostname by { StripUnchanged(h.hostname); }
    assert g.identityFile == h.identityFile by { StripUnchanged(h.identityFile); }
    assert g.extraArgs == h.extraArgs by { StripUnchanged(h.extraArgs); }
  }

  const NameRequired := "Name is required"
  const HostnameRequired := "Valid hostname or IP required"
  const UsernameRequired := "Username is required"
  const HostPortRange := "Port must be 1-65535"

  /** The outcome of validating a form: accepted or not, and the text of each error label ("" when clear). */
  datatype HostCheck = HostCheck(ok: bool, nameError: string, hostnameError: string, usernameError: string)

  /**
   * HostEditDialog.validate: every check runs and sets its label; a bad port is
   * reported in the hostname label, over the hostname message.
   */
  function ValidateHost(f: HostForm): (r: HostCheck)
    ensures r.ok <==> !IsBlank(f.name) && ValidateHostname(f.hostname) && !IsBlank(f.username) && ValidatePort(f.port)
    ensures r.ok <==> r.nameError == "" && r.hostnameError == "" && r.usernameError == ""
    ensures r.nameError != "" <==> IsBlank(f.name)
    ensures r.usernameError != "" <==> IsBlank(f.username)
    ensures !ValidatePort(f.port) ==> r.hostnameError == HostPortRange
    ensures ValidatePort(f.port) ==> (r.hostnameError != "" <==> !ValidateHostname(f.hostname))
  {
    var nameError := if Strip(f.name) == [] then NameRequired else "";
    var hostnameError := if !ValidateHostname(f.hostname) then HostnameRequired else "";
    var usernameError := if Strip(f.username) == [] then UsernameRequired else "";
    var hostnameError := if !ValidatePort(f.port) then HostPortRange else hostnameError;
    HostCheck(nameError == "" && hostnameError == "" && usernameError == "", nameError, hostnameError, usernameError)
  }

  /** An accepted host form yields a host with a name, a user, a well-formed hostname and a usable port. */
  lemma AcceptedHost(f: HostForm)
    requires ValidateHost(f).ok
    ensures var h := GetHost(f);
      h.name != [] && h.username != [] && h.hostname != [] && AllNameChars(h.hostname) && 1 <= h.port <= 65535
  {
  }

  // ---------------------------------------------------------------------------
  // The tunnel editor

  /** What the tunnel editor's widgets hold; `typeIndex` is the kind box's row (0 local, 1 remote, 2 dynamic). */
  datatype TunnelForm = TunnelForm(
    typeIndex: int,
    name: string,
    localBind: string,
    localPort: int,
    remoteHost: string,
    remotePort: int,
    remoteBind: string,
    socksPort: int,
    openTerminal: bool)

  /** The row of the kind box for a tunnel type; an unknown type shows as local. */
  function TypeIndex(t: string): (i: int)
    ensures 0 <= i <= 2
    ensures t == Remote ==> i == 1
    ensures t == Dynamic ==> i == 2
    ensures t != Remote && t != Dynamic ==> i == 0
  {
    if t == Local then 0 else if t == Remote then 1 else if t == Dynamic then 2 else 0
  }

  /** The type a row of the kind box stands for: 0 local, 1 remote, anything else dynamic. */
  function TypeOf(index: int): (t: string)
    ensures KnownType(t)
    ensures index == 0 <==> t == Local
    ensures index == 1 <==> t == Remote
  {
    if index == 0 then Local else if index == 1 then Remote else Dynamic
  }

  /** Python's `x or d` on text: the text itself unless it is empty. */
  function OrText(s: string, d: string): (r: string)
    ensures s != [] ==> r == s
    ensures s == [] ==> r == d
  {
    if s == [] then d else s
  }

  /** Python's `x or d` on a number: the number itself unless it is 0. */
  function OrNumber(v: int, d: int): (r: int)
    ensures v != 0 ==> r == v
    ensures v == 0 ==> r == d
  {
    if v == 0 then d else v
  }

  /**
   * The editor opened on a tunnel: empty addresses show their defaults, zero ports show
   * 8080, 80 and 1080, and every number is clamped to 0..65535.
   */
  function LoadTunnelForm(t: Tunnel): (f: TunnelForm)
    ensures f.typeIndex == TypeIndex(t.tunnelType) && f.name == t.name && f.openTerminal == t.openTerminal
    ensures f.localBind == OrText(t.localBind, SshBuilder.Loopback)
    ensures f.remoteHost == OrText(t.remoteHost, SshBuilder.Loopback)
    ensures f.remoteBind == OrText(t.remoteBind, SshBuilder.AllInterfaces)
    ensures f.localPort == Clamp(OrNumber(t.localPort, 8080), 0, PortBoxMax)
    ensures f.remotePort == Clamp(OrNumber(t.remotePort, 80), 0, PortBoxMax)
    ensures f.socksPort == Clamp(OrNumber(t.socksPort, 1080), 0, PortBoxMax)
  {
    TunnelForm(TypeIndex(t.tunnelType), t.name,
               OrText(t.localBind, SshBuilder.Loopback), Clamp(OrNumber(t.localPort, 8080), 0, PortBoxMax),
               OrText(t.remoteHost, SshBuilder.Loopback), Clamp(OrNumber(t.remotePort, 80), 0, PortBoxMax),
               OrText(t.remoteBind, SshBuilder.AllInterfaces), Clamp(OrNumber(t.socksPort, 1080), 0, PortBoxMax),
               t.openTerminal)
  }

  /** Which type-specific rows are shown, and the label of the remote-host row. */
  datatype Visibility = Visibility(
    localBind: bool,
    localPort: bool,
    remoteHost: bool,
    remotePort: bool,
    remoteBind: bool,
    socksPort: bool,
    remoteHostLabel: string)

  /**
   * _on_type_changed: a local tunnel shows the local bind and port and the remote host and port;
   * a remote one the same without the local bind but with the remote bind, and labels the host
   * row "Local host:"; a dynamic one only the local bind and the SOCKS port.
   */
  function VisibleRows(index: int): (v: Visibility)
    ensures index == 0 ==> v == Visibility(true, true, true, true, false, false, "Remote host:")
    ensures index == 1 ==> v == Visibility(false, true, true, true, true, false, "Local host:")
    ensures index == 2 ==> v == Visibility(true, false, false, false, false, true, "Remote host:")
    ensures index !in {0, 1, 2} ==> v == Visibility(false, false, false, false, false, false, "Remote host:")
  {
    var isLocal, isRemote, isDynamic := index == 0, index == 1, index == 2;
    Visibility(isLocal || isDynamic, isLocal || isRemote, isLocal || isRemote, isLocal || isRemote,
               isRemote, isDynamic, if isRemote then "Local host:" else "Remote host:")
  }

  /**
   * get_tunnel: the type from the kind box, trimmed texts with blank addresses replaced
   * by their defaults, and the id, host and timestamps of the tunnel being edited.
   */
  function GetTunnel(base: Tunnel, f: TunnelForm): (t: Tunnel)
    ensures t.id == base.id && t.hostId == base.hostId
    ensures t.createdAt == base.createdAt && t.updatedAt == base.updatedAt
    ensures t.tunnelType == TypeOf(f.typeIndex) && KnownType(t.tunnelType)
    ensures t.name == Strip(f.name) && t.openTerminal == f.openTerminal
    ensures t.localBind == SshBuilder.OrDefault(f.localBind, SshBuilder.Loopback)
    ensures t.remoteHost == SshBuilder.OrDefault(f.remoteHost, SshBuilder.Loopback)
    ensures t.remoteBind == SshBuilder.OrDefault(f.remoteBind, SshBuilder.AllInterfaces)
    ensures t.localPort == f.localPort && t.remotePort == f.remotePort && t.socksPort == f.socksPort
  {
    Tunnel(base.id, base.hostId, Strip(f.name), TypeOf(f.typeIndex),
           SshBuilder.OrDefault(f.localBind, SshBuilder.Loopback), f.localPort,
           SshBuilder.OrDefault(f.remoteHost, SshBuilder.Loopback), f.remotePort,
           SshBuilder.OrDefault(f.remoteBind, SshBuilder.AllInterfaces), f.socksPort,
           f.openTerminal, base.createdAt, base.updatedAt)
  }

  /** No address of an accepted tunnel is blank: every one is trimmed text or its default. */
  lemma GetTunnelAddresses(base: Tunnel, f: TunnelForm)
    ensures var t := GetTunnel(base, f);
      t.localBind != [] && t.remoteHost != [] && t.remoteBind != []
      && Trimmed(t.localBind) && Trimmed(t.remoteHost) && Trimmed(t.remoteBind)
  {
  }

  /**
   * The rows the editor shows for a kind are exactly the fields the command line reads for it:
   * two forms that differ only in hidden rows give tunnels with the same ssh arguments.
   */
  lemma HiddenRowsDoNotMatter(h: Host, base: Tunnel, f: TunnelForm, g: TunnelForm)
    requires f.typeIndex == g.typeIndex
    requires var v := VisibleRows(if f.typeIndex == 0 || f.typeIndex == 1 then f.typeIndex else 2);
      (v.localBind ==> f.localBind == g.localBind) && (v.localPort ==> f.localPort == g.localPort)
      && (v.remoteHost ==> f.remoteHost == g.remoteHost) && (v.remotePort ==> f.remotePort == g.remotePort)
      && (v.remoteBind ==> f.remoteBind == g.remoteBind) && (v.socksPort ==> f.socksPort == g.socksPort)
    ensures SshBuilder.SshArgs(h, GetTunnel(base, f)) == SshBuilder.SshArgs(h, GetTunnel(base, g))
  {
    SshBuilder.SshArgsIgnoresUnusedFields(h, GetTunnel(base, f), GetTunnel(base, g));
  }

  /**
   * Editing a tunnel of a known type and accepting it unchanged gives it back when its name
   * and addresses are trimmed, its addresses are not empty and its ports are 1..65535.
   */
  lemma EditTunnelUnchanged(t: Tunnel)
    requires KnownType(t.tunnelType) && Trimmed(t.name)
    requires t.localBind != [] && t.remoteHost != [] && t.remoteBind != []
    requires Trimmed(t.localBind) && Trimmed(t.remoteHost) && Trimmed(t.remoteBind)
    requires ValidatePort(t.localPort) && ValidatePort(t.remotePort) && ValidatePort(t.socksPort)
    ensures GetTunnel(t, LoadTunnelForm(t)) == t
  {
    StripUnchanged(t.name);
    SshBuilder.OrDefaultOfAddress(t.localBind, SshBuilder.Loopback);
    SshBuilder.OrDefaultOfAddress(t.remoteHost, SshBuilder.Loopback);
    SshBuilder.OrDefaultOfAddress(t.remoteBind, SshBuilder.AllInterfaces);
  }

  /** Accepting a fresh local tunnel unchanged fills in the editor's defaults: ports 8080, 80, 1080 and bind 0.0.0.0. */
  lemma EditNewLocalTunnel(hostId: int)
    ensures var t := GetTunnel(DefaultLocal(hostId), LoadTunnelForm(DefaultLocal(hostId)));
      t.tunnelType == Local && t.localBind == "127.0.0.1" && t.remoteHost == "127.0.0.1"
      && t.remoteBind == "0.0.0.0" && t.localPort == 8080 && t.remotePort == 80 && t.socksPort == 1080
  {
    SshBuilder.OrDefaultOfAddress("127.0.0.1", SshBuilder.Loopback);
    SshBuilder.OrDefaultOfAddress("0.0.0.0", SshBuilder.AllInterfaces);
  }

  const TunnelPortsRange := "Ports must be 1-65535"
  const SocksPortRange := "SOCKS port must be 1-65535"

  datatype TunnelCheck = TunnelCheck(ok: bool, nameError: string, portError: string)

  /**
   * TunnelEditDialog.validate: a name is required; a local or remote tunnel needs both its
   * local and remote port valid (one message for either), a dynamic one its SOCKS port.
   */
  function ValidateTunnel(f: TunnelForm): (r: TunnelCheck)
    ensures r.ok <==> !IsBlank(f.name) && r.portError == ""
    ensures r.nameError != "" <==> IsBlank(f.name)
    ensures (f.typeIndex == 0 || f.typeIndex == 1) ==>
      r.portError == (if ValidatePort(f.localPort) && ValidatePort(f.remotePort) then "" else TunnelPortsRange)
    ensures f.typeIndex == 2 ==> r.portError == (if ValidatePort(f.socksPort) then "" else SocksPortRange)
  {
    var nameError := if Strip(f.name) == [] then NameRequired else "";
    var portError :=
      if f.typeIndex == 0 || f.typeIndex == 1 then
        (if !ValidatePort(f.localPort) then TunnelPortsRange
         else if !ValidatePort(f.remotePort) then TunnelPortsRange
         else "")
      else if f.typeIndex == 2 then
        (if !ValidatePort(f.socksPort) then SocksPortRange else "")
      else "";
    TunnelCheck(nameError == "" && portError == "", nameError, portError)
  }

  /**
   * An accepted form (with one of the kind box's three rows selected) yields a named tunnel
   * of a known type whose forwarding uses only valid ports.
   */
  lemma AcceptedTunnel(base: Tunnel, f: TunnelForm)
    requires 0 <= f.typeIndex <= 2
    requires ValidateTunnel(f).ok
    ensures var t := GetTunnel(base, f);
      t.name != [] && KnownType(t.tunnelType)
      && (t.tunnelType == Local || t.tunnelType == Remote ==> ValidatePort(t.localPort) && ValidatePort(t.remotePort))
      && (t.tunnelType == Dynamic ==> ValidatePort(t.socksPort))
  {
  }
}
