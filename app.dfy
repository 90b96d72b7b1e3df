/**
 * The application controller: the role the user picks, the registry of admin connections
 * keyed by the address they dialed, and the two servers a worker runs. Windows, dialogs and
 * screens are not modelled; each operation below is the state change behind one button.
 */
module Application {
  import opened Wrappers
  import opened Protocol
  import State
  import Worker
  import Admin
  import Ssh

  /** The password a worker's SSH server is started with. */
  const SSHPassword := "admin123"

  /** The credentials an SSH client must present to a worker started by this application. */
  function WorkerSSHCredentials(): (c: Ssh.Credentials)
    ensures c.username == Ssh.DefaultCredentials.username && c.password == SSHPassword
  {
    Ssh.DefaultCredentials.(password := SSHPassword)
  }

  /** Everything an admin client holds, as one value. */
  datatype ClientView = ClientView(
    connected: bool, conn: Option<nat>, connClosed: bool, sent: seq<Message>,
    onUpdateSet: bool, onMetricsUpdateSet: bool)

  function ViewOf(c: Admin.AdminClient): ClientView
    reads c
  {
    ClientView(c.connected, c.conn, c.connClosed, c.sent, c.onUpdateSet, c.onMetricsUpdateSet)
  }

  /**
   * A client after `Disconnect`: a connected one has sent one `disconnect` and closed its
   * connection; any other is as it was.
   */
  function Disconnected(v: ClientView): (r: ClientView)
    ensures !r.connected && r.conn == v.conn && r.connClosed == (v.connClosed || v.connected)
    ensures r.sent == v.sent + (if v.connected then [ControlMessage(MessageType.Disconnect)] else [])
    ensures r.onUpdateSet == v.onUpdateSet && r.onMetricsUpdateSet == v.onMetricsUpdateSet
  {
    if v.connected then v.(connected := false, connClosed := true, sent := v.sent + [ControlMessage(MessageType.Disconnect)])
    else v
  }

  /** What `connectToWorker` reports to the user. */
  datatype ConnectOutcome = AlreadyConnected | ConnectFailed(error: string) | Connected

  class App {
    const state: State.AppState
    /** One client per dialed address. */
    var adminClients: map<string, Admin.AdminClient>
    var workerServer: Worker.WorkerServer?
    var sshServer: Ssh.SSHServer?
    const sshPassword: string

    /**
     * Every registered client keeps its own invariant, and a server the application still
     * holds has not been stopped yet, so stopping it once more is safe.
     */
    predicate Valid()
      reads this, adminClients.Values, workerServer, sshServer
    {
      && sshPassword == SSHPassword
      && (forall c :: c in adminClients.Values ==> c.Valid())
      && (workerServer != null ==> !workerServer.quitClosed)
      && (sshServer != null ==> (sshServer.running ==> !sshServer.quitClosed))
    }

    /** `NewApp`: no role, no connections, no servers. */
    constructor()
      ensures Valid() && adminClients == map[] && workerServer == null && sshServer == null
      ensures sshPassword == SSHPassword && fresh(state)
      ensures state.currentRole == State.RoleNone && !state.IsConnected() && !state.IsWorkerConnected()
    {
      state := new State.AppState();
      adminClients := map[];
      workerServer := null;
      sshServer := null;
      sshPassword := SSHPassword;
    }

    /** `selectAdminRole`. */
    method SelectAdminRole()
      modifies state
      ensures state.currentRole == State.RoleAdmin
      ensures state.connectedDevice == old(state.connectedDevice) && state.connectedAdmin == old(state.connectedAdmin)
    {
      state.SetRole(State.RoleAdmin);
    }

    /**
     * `selectWorkerRole`: both servers are created on their default ports and kept whether or
     * not they start. `workerListenErr` is what listening on the worker port reports;
     * `sshHostKeyErr` and `sshListenErr` are the SSH server's two failure points. The two
     * returned errors are what the user is shown (the worker's) and what is only logged (the
     * SSH server's).
     */
    method SelectWorkerRole(workerListenErr: Option<string>, sshHostKeyErr: Option<string>, sshListenErr: Option<string>)
      returns (workerErr: Option<string>, sshErr: Option<string>)
      requires Valid()
      modifies this, state
      ensures Valid() && adminClients == old(adminClients)
      ensures state.currentRole == State.RoleWorker
      ensures state.connectedDevice == old(state.connectedDevice) && state.connectedAdmin == old(state.connectedAdmin)
      ensures workerServer != null && fresh(workerServer) && workerServer.port == Worker.DefaultWorkerPort
      ensures workerServer.onAdminConnectSet && workerServer.onAdminDisconnectSet
      ensures workerServer.listening <==> workerListenErr.None?
      ensures workerErr == (if workerListenErr.None? then None else Some("failed to start worker server: " + workerListenErr.value))
      ensures sshServer != null && fresh(sshServer) && sshServer.port == Ssh.DefaultSSHPort
      ensures sshServer.credentials == WorkerSSHCredentials()
      ensures sshServer.running <==> sshHostKeyErr.None? && sshListenErr.None?
      ensures sshHostKeyErr.None? ==> sshServer.authConfig == Some(WorkerSSHCredentials())
      ensures sshHostKeyErr.Some? ==> sshServer.authConfig.None? && sshErr == Some("failed to get host key: " + sshHostKeyErr.value)
      ensures sshHostKeyErr.None? && sshListenErr.Some? ==> sshErr == Some("failed to start SSH server: " + sshListenErr.value)
      ensures sshHostKeyErr.None? && sshListenErr.None? ==> sshErr.None?
    {
      state.SetRole(State.RoleWorker);
      var w := new Worker.WorkerServer(Worker.DefaultWorkerPort);
      w.SetCallbacks(true, true);
      workerErr := w.Start(workerListenErr);
      workerServer := w;
      var s := new Ssh.SSHServer(Ssh.DefaultSSHPort);
      sshErr := s.Start(sshPassword, sshHostKeyErr, sshListenErr);
      sshServer := s;
    }

    /** The worker's "admin connected" callback: the admin's host name becomes the peer shown. */
    method OnAdminConnected(hostname: string)
      modifies state
      ensures state.IsWorkerConnected() && state.connectedAdmin.hostname == hostname && fresh(state.connectedAdmin)
      ensures state.currentRole == old(state.currentRole) && state.connectedDevice == old(state.connectedDevice)
    {
      var admin := new State.AdminInfo(hostname);
      state.SetConnectedAdmin(admin);
    }

    /** The worker's "admin disconnected" callback. */
    method OnAdminDisconnected()
      modifies state
      ensures !state.IsConnected() && !state.IsWorkerConnected()
      ensures state.currentRole == old(state.currentRole)
    {
      state.ClearConnection();
    }

    /** The admin client's "device info" callback: the record is keyed by the dialed address. */
    method OnDeviceInfo(ip: string, device: State.DeviceInfo)
      modifies device
      ensures device.id == ip
      ensures device.hostname == old(device.hostname) && device.os == old(device.os)
      ensures device.architecture == old(device.architecture) && device.ipAddress == old(device.ipAddress)
      ensures device.cpuUsage == old(device.cpuUsage) && device.ramUsage == old(device.ramUsage)
      ensures device.ramTotal == old(device.ramTotal) && device.ramUsed == old(device.ramUsed)
      ensures device.gpuName == old(device.gpuName) && device.gpuUsage == old(device.gpuUsage)
      ensures device.internetSpeed == old(device.internetSpeed) && device.uptime == old(device.uptime)
    {
      device.id := ip;
    }

    /**
     * `connectToWorker`: `dial` is the outcome of dialing `ip` on the worker port. An address
     * already registered is left alone and no client is made; a failed dial registers nothing;
     * only a client whose `Connect` succeeded is stored, under `ip`.
     */
    method ConnectToWorker(ip: string, codec: PayloadCodec, hostname: string, dial: Result<nat, string>)
      returns (outcome: ConnectOutcome)
      requires Valid()
      modifies this
      ensures Valid() && workerServer == old(workerServer) && sshServer == old(sshServer)
      ensures ip in old(adminClients) ==> outcome == AlreadyConnected && adminClients == old(adminClients)
      ensures ip !in old(adminClients) && dial.Err? ==>
        outcome == ConnectFailed(Admin.DialErrorText(dial.error)) && adminClients == old(adminClients)
      ensures ip !in old(adminClients) && dial.Ok? ==>
        && outcome == Connected && ip in adminClients && fresh(adminClients[ip])
        && adminClients == old(adminClients)[ip := adminClients[ip]]
      ensures ip !in old(adminClients) && dial.Ok? ==>
        && adminClients[ip].connected && adminClients[ip].conn == Some(dial.value)
        && adminClients[ip].sent == [AdminInfoMessage(codec, hostname)]
        && adminClients[ip].onUpdateSet && adminClients[ip].onMetricsUpdateSet
    {
      if ip in adminClients {
        return AlreadyConnected;
      }
      var client := new Admin.AdminClient(true, true);
      var err := client.Connect(codec, hostname, dial);
      if err.Some? {
        return ConnectFailed(err.value);
      }
      adminClients := adminClients[ip := client];
      outcome := Connected;
    }

    /** `disconnectAll`: every connection is closed and forgotten, and no peer is shown any more. */
    method DisconnectAll()
      requires Valid()
      modifies this`adminClients, adminClients.Values, state
      ensures Valid() && adminClients == map[]
      ensures forall c :: c in old(adminClients).Values ==> ViewOf(c) == Disconnected(old(ViewOf(c)))
      ensures !state.IsConnected() && !state.IsWorkerConnected() && state.currentRole == old(state.currentRole)
    {
      CloseAll(adminClients);
      adminClients := map[];
      state.ClearConnection();
    }

    /**
     * `backToRoleSelection`: the connections are closed as in `disconnectAll`, the servers are
     * stopped and dropped as in StopServers, and the role is reset.
     */
    method BackToRoleSelection(workerCloseErr: Option<string>, sshCloseErr: Option<string>)
      requires Valid()
      modifies this, adminClients.Values, state, workerServer, sshServer
      ensures Valid() && adminClients == map[] && workerServer == null && sshServer == null
      ensures forall c :: c in old(adminClients).Values ==> ViewOf(c) == Disconnected(old(ViewOf(c)))
      ensures old(workerServer) != null ==>
        && old(workerServer).quitClosed
        && old(workerServer).listenerClosed == (old(workerServer.listenerClosed) || old(workerServer.listening))
      ensures old(sshServer) != null ==> !old(sshServer).running
      ensures state.currentRole == State.RoleNone && !state.IsConnected() && !state.IsWorkerConnected()
    {
      CloseAll(adminClients);
      adminClients := map[];
      StopServers(workerCloseErr, sshCloseErr);
      state.SetRole(State.RoleNone);
      state.ClearConnection();
    }

    /**
     * The server half of `backToRoleSelection`: each server the application holds is stopped
     * and dropped; `workerCloseErr` and `sshCloseErr` are what closing their listeners
     * reports, which is ignored.
     */
    method StopServers(workerCloseErr: Option<string>, sshCloseErr: Option<string>)
      requires Valid()
      modifies this`workerServer, this`sshServer, workerServer, sshServer
      ensures Valid() && workerServer == null && sshServer == null
      ensures old(workerServer) != null ==>
        && old(workerServer).quitClosed
        && old(workerServer).listenerClosed == (old(workerServer.listenerClosed) || old(workerServer.listening))
      ensures old(sshServer) != null ==> !old(sshServer).running
    {
      if workerServer != null {
        var ignored := workerServer.Stop(workerCloseErr);
        workerServer := null;
      }
      if sshServer != null {
        var ignored := sshServer.Stop(sshCloseErr);
        sshServer := null;
      }
    }
  }

  /**
   * The loop `disconnectAll` and `backToRoleSelection` share: each client of `registry`, in
   * any order, is disconnected (the error it reports is ignored). A client that was connected
   * sends exactly one `disconnect` and closes its connection; one that was not is untouched,
   * and so is a client registered twice once its first entry has closed it. The entries
   * themselves are deleted under the registry lock, so the caller empties the registry.
   */
  method CloseAll(registry: map<string, Admin.AdminClient>)
    requires forall c :: c in registry.Values ==> c.Valid()
    modifies registry.Values
    ensures forall c :: c in registry.Values ==> ViewOf(c) == Disconnected(old(ViewOf(c)))
  {
    ghost var clients := registry.Values;
    ghost var before := map c | c in clients :: ViewOf(c);
    ghost var done: set<Admin.AdminClient> := {};
    var remaining := registry;
    while remaining != map[]
      invariant remaining.Keys <= registry.Keys
      invariant forall ip :: ip in remaining ==> remaining[ip] == registry[ip]
      invariant forall ip :: ip in registry && ip !in remaining ==> registry[ip] in done
      invariant forall c :: c in clients ==> ViewOf(c) == if c in done then Disconnected(before[c]) else before[c]
      decreases remaining.Keys
    {
      var ip :| ip in remaining;
      var client := remaining[ip];
      assert client in clients;
      var ignored := client.Disconnect(None);
      remaining := remaining - {ip};
      done := done + {client};
    }
  }

  /**
   * A worker started through the application lets an SSH client in exactly when it logs in
   * as "admin" with the application's password; the library default "admin"/"admin" is refused.
   */
  lemma WorkerSSHLogin(user: string, pass: string)
    ensures Ssh.CheckPassword(WorkerSSHCredentials(), user, pass).Ok? <==> user == "admin" && pass == "admin123"
    ensures Ssh.CheckPassword(WorkerSSHCredentials(), "admin", "admin").Err?
  {
  }
}
