/**
 * The three records PortPilot keeps — an SSH host, a port-forwarding tunnel on
 * a host, and one run of a tunnel — and the blank records the editors start from.
 */
module Models {
  import opened Wrappers

  /** An SSH server and how to log in to it. */
  datatype Host = Host(
    id: Option<int>,
    name: string,
    username: string,
    hostname: string,
    port: int,
    identityFile: string,
    extraArgs: string,
    keepaliveInterval: int,
    keepaliveCountmax: int,
    createdAt: Option<string>,
    updatedAt: Option<string>)

  /**
   * A forwarding rule on a host. `tunnelType` is "local" (-L), "remote" (-R) or
   * "dynamic" (-D); any other text is possible and is refused when a command is built.
   * For a remote tunnel `remoteHost` names the host the server connects back to.
   */
  datatype Tunnel = Tunnel(
    id: Option<int>,
    hostId: int,
    name: string,
    tunnelType: string,
    localBind: string,
    localPort: int,
    remoteHost: string,
    remotePort: int,
    remoteBind: string,
    socksPort: int,
    openTerminal: bool,
    createdAt: Option<string>,
    updatedAt: Option<string>)

  /** One launch of a tunnel: "managed" or "detached", open until `stoppedAt` is set. */
  datatype Run = Run(
    id: Option<int>,
    tunnelId: int,
    startedAt: string,
    stoppedAt: Option<string>,
    pid: Option<int>,
    mode: string,
    exitCode: Option<int>,
    logPath: Option<string>,
    lastError: Option<string>)

  const Local := "local"
  const Remote := "remote"
  const Dynamic := "dynamic"

  predicate KnownType(t: string)
  {
    t == Local || t == Remote || t == Dynamic
  }

  /** The host a "new host" editor starts from: nothing filled in, port 22, keepalive off. */
  function DefaultHost(): (h: Host)
    ensures h.id == None && h.createdAt == None && h.updatedAt == None
    ensures h.name == "" && h.username == "" && h.hostname == ""
    ensures h.identityFile == "" && h.extraArgs == ""
    ensures h.port == 22 && h.keepaliveInterval == 0 && h.keepaliveCountmax == 0
  {
    Host(None, "", "", "", 22, "", "", 0, 0, None, None)
  }

  /** Whatever the kind, a fresh tunnel has no id, no timestamps, no terminal and the given host. */
  predicate Fresh(t: Tunnel, hostId: int)
  {
    t.id == None && t.createdAt == None && t.updatedAt == None
    && !t.openTerminal && t.hostId == hostId && t.name == ""
  }

  /** A fresh local forward: loopback on both sides, ports still to be chosen. */
  function DefaultLocal(hostId: int): (t: Tunnel)
    ensures Fresh(t, hostId) && t.tunnelType == Local
    ensures t.localBind == "127.0.0.1" && t.remoteHost == "127.0.0.1" && t.remoteBind == ""
    ensures t.localPort == 0 && t.remotePort == 0 && t.socksPort == 0
  {
    Tunnel(None, hostId, "", Local, "127.0.0.1", 0, "127.0.0.1", 0, "", 0, false, None, None)
  }

  /** A fresh remote forward: bound on every interface of the server. */
  function DefaultRemote(hostId: int): (t: Tunnel)
    ensures Fresh(t, hostId) && t.tunnelType == Remote
    ensures t.remoteBind == "0.0.0.0" && t.localBind == "" && t.remoteHost == ""
    ensures t.localPort == 0 && t.remotePort == 0 && t.socksPort == 0
  {
    Tunnel(None, hostId, "", Remote, "", 0, "", 0, "0.0.0.0", 0, false, None, None)
  }

  /** A fresh SOCKS proxy on the loopback interface, on the usual port 1080. */
  function DefaultDynamic(hostId: int): (t: Tunnel)
    ensures Fresh(t, hostId) && t.tunnelType == Dynamic
    ensures t.localBind == "127.0.0.1" && t.remoteHost == "" && t.remoteBind == ""
    ensures t.socksPort == 1080 && t.localPort == 0 && t.remotePort == 0
  {
    Tunnel(None, hostId, "", Dynamic, "127.0.0.1", 0, "", 0, "", 1080, false, None, None)
  }
}
