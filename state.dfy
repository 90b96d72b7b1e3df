/**
 * The process-wide state store: the role chosen at start-up and the peer currently shown,
 * a connected worker's device record on the admin side or the connected admin on the
 * worker side.
 */
module State {
  datatype Role = RoleNone | RoleAdmin | RoleWorker

  /**
   * A connected worker as the admin sees it. The record is shared by reference and its live
   * usage figures are overwritten in place. `id` is the key the application gives the record
   * (the dialed address); the application sets it although the record type here does not
   * declare it.
   */
  class DeviceInfo {
    var id: string
    var hostname: string
    var os: string
    var architecture: string
    var ipAddress: string
    var cpuUsage: real
    var ramUsage: real
    var ramTotal: nat
    var ramUsed: nat
    var gpuName: string
    var gpuUsage: real
    var internetSpeed: string
    var uptime: nat

    constructor(hostname: string, os: string, architecture: string, ipAddress: string,
                cpuUsage: real, ramUsage: real, ramTotal: nat, ramUsed: nat,
                gpuName: string, gpuUsage: real, internetSpeed: string, uptime: nat)
      ensures this.id == ""
      ensures this.hostname == hostname && this.os == os && this.architecture == architecture
      ensures this.ipAddress == ipAddress && this.cpuUsage == cpuUsage && this.ramUsage == ramUsage
      ensures this.ramTotal == ramTotal && this.ramUsed == ramUsed && this.gpuName == gpuName
      ensures this.gpuUsage == gpuUsage && this.internetSpeed == internetSpeed && this.uptime == uptime
    {
      this.id := "";
      this.hostname := hostname;
      this.os := os;
      this.architecture := architecture;
      this.ipAddress := ipAddress;
      this.cpuUsage := cpuUsage;
      this.ramUsage := ramUsage;
      this.ramTotal := ramTotal;
      this.ramUsed := ramUsed;
      this.gpuName := gpuName;
      this.gpuUsage := gpuUsage;
      this.internetSpeed := internetSpeed;
      this.uptime := uptime;
    }

    /** Everything about the device except its live usage figures. */
    predicate SameIdentity(id: string, hostname: string, os: string, architecture: string, ipAddress: string,
                           ramTotal: nat, ramUsed: nat, gpuName: string, internetSpeed: string, uptime: nat)
      reads this
    {
      && this.id == id && this.hostname == hostname && this.os == os && this.architecture == architecture
      && this.ipAddress == ipAddress && this.ramTotal == ramTotal && this.ramUsed == ramUsed
      && this.gpuName == gpuName && this.internetSpeed == internetSpeed && this.uptime == uptime
    }
  }

  /** The admin connected to this worker. */
  class AdminInfo {
    const hostname: string

    constructor(hostname: string)
      ensures this.hostname == hostname
    {
      this.hostname := hostname;
    }
  }

  class AppState {
    var currentRole: Role
    var connectedDevice: DeviceInfo?
    var connectedAdmin: AdminInfo?

    /** NewAppState: no role, nobody connected. */
    constructor()
      ensures currentRole == RoleNone && connectedDevice == null && connectedAdmin == null
      ensures !IsConnected() && !IsWorkerConnected()
    {
      currentRole := RoleNone;
      connectedDevice := null;
      connectedAdmin := null;
    }

    function GetRole(): Role
      reads this
    {
      currentRole
    }

    function GetConnectedDevice(): DeviceInfo?
      reads this
    {
      connectedDevice
    }

    function GetConnectedAdmin(): AdminInfo?
      reads this
    {
      connectedAdmin
    }

    /** Either side has a peer. */
    predicate IsConnected()
      reads this
    {
      connectedDevice != null || connectedAdmin != null
    }

    /** This process, as a worker, is being watched by an admin. */
    predicate IsWorkerConnected()
      reads this
    {
      connectedAdmin != null
    }

    method SetRole(role: Role)
      modifies this
      ensures GetRole() == role
      ensures connectedDevice == old(connectedDevice) && connectedAdmin == old(connectedAdmin)
    {
      currentRole := role;
    }

    method SetConnectedDevice(device: DeviceInfo?)
      modifies this
      ensures GetConnectedDevice() == device
      ensures device != null ==> IsConnected()
      ensures currentRole == old(currentRole) && connectedAdmin == old(connectedAdmin)
    {
      connectedDevice := device;
    }

    method SetConnectedAdmin(admin: AdminInfo?)
      modifies this
      ensures GetConnectedAdmin() == admin
      ensures IsWorkerConnected() <==> admin != null
      ensures currentRole == old(currentRole) && connectedDevice == old(connectedDevice)
    {
      connectedAdmin := admin;
    }

    /**
     * UpdateDeviceMetrics: overwrites the three usage figures of the shared device record in
     * place; without a device it does nothing.
     */
    method UpdateDeviceMetrics(cpuUsage: real, ramUsage: real, gpuUsage: real)
      modifies connectedDevice
      ensures connectedDevice != null ==> (
        && connectedDevice.cpuUsage == cpuUsage && connectedDevice.ramUsage == ramUsage
        && connectedDevice.gpuUsage == gpuUsage
        && connectedDevice.SameIdentity(
             old(connectedDevice.id), old(connectedDevice.hostname), old(connectedDevice.os),
             old(connectedDevice.architecture), old(connectedDevice.ipAddress), old(connectedDevice.ramTotal),
             old(connectedDevice.ramUsed), old(connectedDevice.gpuName), old(connectedDevice.internetSpeed),
             old(connectedDevice.uptime)))
    {
      if connectedDevice != null {
        connectedDevice.cpuUsage := cpuUsage;
        connectedDevice.ramUsage := ramUsage;
        connectedDevice.gpuUsage := gpuUsage;
      }
    }

    /** ClearConnection: forgets both peers, keeps the role. */
    method ClearConnection()
      modifies this
      ensures connectedDevice == null && connectedAdmin == null
      ensures !IsConnected() && !IsWorkerConnected()
      ensures currentRole == old(currentRole)
    {
      connectedDevice := null;
      connectedAdmin := null;
    }
  }
}
