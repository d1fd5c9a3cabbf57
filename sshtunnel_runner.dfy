/**
 * The in-process backend: a local (-L) forward run by an SSH library on a worker
 * thread, which can log in with a password. The library and the thread are not
 * modelled; what is modelled is the configuration handed to the library, the flags
 * `stop` and `is_running` work with, and the signals the worker emits when it ends.
 */
module SshTunnelRunner {
  import opened Wrappers
  import opened Text
  import opened Models
  import SshBuilder

  datatype Address = Address(host: string, port: int)

  /** Key-file login (with the key's passphrase, if any) or password login. */
  datatype Auth = KeyFile(path: string, passphrase: Option<string>) | Password(password: string)

  /** The keyword arguments the forwarder is built from. */
  datatype ForwarderConfig = ForwarderConfig(
    server: Address,
    username: string,
    remoteBind: Address,
    localBind: Address,
    auth: Auth,
    keepalive: Option<int>)

  const OnlyLocalMessage := "sshtunnel only supports Local (-L) tunnels"
  const NotInstalledMessage := "Error: sshtunnel not installed. Run: pip install sshtunnel"

  /** (host.strip() or "127.0.0.1", port). */
  function BindAddress(host: string, port: int): (a: Address)
    ensures a.port == port
    ensures IsBlank(host) ==> a.host == SshBuilder.Loopback
    ensures !IsBlank(host) ==> a.host == Strip(host) && a.host != []
  {
    Address(SshBuilder.OrDefault(host, SshBuilder.Loopback), port)
  }

  /** What `start` hands the library for a host, a tunnel and the password the user typed. */
  function Config(h: Host, t: Tunnel, password: string): (c: ForwarderConfig)
    ensures c.server == Address(h.hostname, h.port) && c.username == h.username
    ensures c.localBind == BindAddress(t.localBind, t.localPort)
    ensures c.remoteBind == BindAddress(t.remoteHost, t.remotePort)
    ensures c.auth.Password? <==> IsBlank(h.identityFile)
    ensures c.auth.Password? ==> c.auth.password == password
    ensures c.auth.KeyFile? ==> c.auth.path == Strip(h.identityFile) && c.auth.path != []
    ensures c.auth.KeyFile? ==> (c.auth.passphrase.None? <==> password == [])
    ensures c.auth.KeyFile? && password != [] ==> c.auth.passphrase == Some(password)
    ensures c.keepalive.Some? <==> h.keepaliveInterval > 0
    ensures c.keepalive.Some? ==> c.keepalive.value == h.keepaliveInterval
  {
    var key := Strip(h.identityFile);
    ForwarderConfig(
      Address(h.hostname, h.port),
      h.username,
      BindAddress(t.remoteHost, t.remotePort),
      BindAddress(t.localBind, t.localPort),
      if key != [] then KeyFile(key, if password == [] then None else Some(password)) else Password(password),
      if h.keepaliveInterval > 0 then Some(h.keepaliveInterval) else None)
  }

  /** The two backends forward the same addresses: the library binds what ssh's -L option names. */
  lemma SameForwardAsSshCommand(h: Host, t: Tunnel, password: string)
    requires t.tunnelType == Local
    ensures var c := Config(h, t, password);
      SshBuilder.ForwardArgs(t) == Ok(["-L", c.localBind.host + ":" + IntToString(c.localBind.port) + ":"
                                             + c.remoteBind.host + ":" + IntToString(c.remoteBind.port)])
  {
  }

  /** The two backends authenticate with the same key file, and keep the connection alive alike. */
  lemma SameOptionsAsSshCommand(h: Host, t: Tunnel, password: string)
    requires t.tunnelType == Local
    ensures var c := Config(h, t, password);
      SshBuilder.SshArgs(h, t).Ok?
      && SshBuilder.IdentityArgs(h) == (if c.auth.KeyFile? then ["-i", c.auth.path] else [])
      && (c.keepalive.Some? <==> SshBuilder.KeepaliveArgs(h) != [])
  {
  }

  /** The log line the worker writes once the forwarder is up. */
  function StartedLine(c: ForwarderConfig): string
  {
    "Tunnel started: " + c.localBind.host + ":" + IntToString(c.localBind.port)
      + " -> " + c.remoteBind.host + ":" + IntToString(c.remoteBind.port)
  }

  /** The exit code the worker reports: 0 for a stop that was asked for, 1 otherwise. */
  function ExitIndicator(stopRequested: bool): (code: int)
    ensures code == 0 <==> stopRequested
    ensures code == 0 || code == 1
  {
    if stopRequested then 0 else 1
  }

  class Runner {
    const tunnelId: int
    const host: Host
    const tunnel: Tunnel
    /** The forwarder object, if one was built: Some(is_active). */
    var server: Option<bool>
    var stopRequested: bool
    /** The configuration of the worker thread, once `start` has launched one. */
    var worker: Option<ForwarderConfig>
    /** Emitted log lines, started signals (tunnel ids) and finished signals (tunnel id, code). */
    var log: seq<string>
    var started: seq<int>
    var finished: seq<(int, int)>

    /** is_running: a forwarder exists and is active. */
    predicate IsRunning()
      reads this
      ensures IsRunning() <==> server.Some? && server.value
    {
      server == Some(true)
    }

    /** A new runner has no forwarder, no worker and no stop request. */
    constructor (tunnelId: int, host: Host, tunnel: Tunnel)
      ensures this.tunnelId == tunnelId && this.host == host && this.tunnel == tunnel
      ensures !IsRunning() && !stopRequested
      ensures server == None && worker == None
      ensures log == [] && started == [] && finished == []
    {
      this.tunnelId := tunnelId;
      this.host := host;
      this.tunnel := tunnel;
      server := None;
      stopRequested := false;
      worker := None;
      log, started, finished := [], [], [];
    }

    /**
     * start: only local tunnels, and only when the library can be loaded; then a worker
     * is launched with the configuration for this host and tunnel.
     */
    method Start(password: string, libraryInstalled: bool) returns (ok: bool)
      modifies this
      ensures ok <==> tunnel.tunnelType == Local && libraryInstalled
      ensures tunnel.tunnelType != Local ==> log == old(log) + [OnlyLocalMessage]
      ensures tunnel.tunnelType == Local && !libraryInstalled ==> log == old(log) + [NotInstalledMessage]
      ensures !ok ==> worker == old(worker)
      ensures ok ==> worker == Some(Config(host, tunnel, password)) && log == old(log)
      ensures server == old(server) && stopRequested == old(stopRequested)
      ensures started == old(started) && finished == old(finished)
    {
      if tunnel.tunnelType != Local {
        log := log + [OnlyLocalMessage];
        return false;
      }
      if !libraryInstalled {
        log := log + [NotInstalledMessage];
        return false;
      }
      worker := Some(Config(host, tunnel, password));
      return true;
    }

    /** The worker built and started the forwarder; `active` is what the library reports. */
    method WorkerStarted(active: bool)
      requires worker.Some?
      modifies this
      ensures worker == old(worker) && server == Some(active)
      ensures log == old(log) + [StartedLine(worker.value)] && started == old(started) + [tunnelId]
      ensures stopRequested == old(stopRequested) && finished == old(finished)
    {
      server := Some(active);
      log := log + [StartedLine(worker.value)];
      started := started + [tunnelId];
    }

    /**
     * The worker ends: after an exception (`error`), or because the wait loop saw a stop
     * request or an inactive forwarder. The forwarder, if any, is stopped. An exception
     * reports code 1 and then, from the cleanup, the exit indicator once more.
     */
    method WorkerEnded(error: Option<string>)
      requires worker.Some?
      requires error.None? ==> stopRequested || server != Some(true)
      modifies this
      ensures !IsRunning() && (server.Some? <==> old(server).Some?)
      ensures error.Some? ==> log == old(log) + ["Error: " + error.value]
      ensures error.None? ==> log == old(log)
      ensures finished == old(finished) + (if error.Some? then [(tunnelId, 1)] else []) + [(tunnelId, ExitIndicator(stopRequested))]
      ensures finished[|finished| - 1].1 == 0 <==> stopRequested
      ensures stopRequested == old(stopRequested) && worker == old(worker) && started == old(started)
    {
      if error.Some? {
        log := log + ["Error: " + error.value];
        finished := finished + [(tunnelId, 1)];
      }
      if server.Some? {
        server := Some(false);
      }
      finished := finished + [(tunnelId, ExitIndicator(stopRequested))];
    }

    /** stop: always records the request, and stops the forwarder if there is one. */
    method Stop()
      modifies this
      ensures stopRequested && !IsRunning()
      ensures server.Some? <==> old(server).Some?
      ensures worker == old(worker) && log == old(log) && started == old(started) && finished == old(finished)
    {
      stopRequested := true;
      if server.Some? {
        server := Some(false);
      }
    }
  }
}
