/**
 * The three persistent record shapes: clusters, the devices inside them and
 * the traffic rules of each device, with the column defaults and the field
 * update rules the record store applies to them.
 */
module Records {
  import opened Wrappers

  /** The lifecycle states a device's `status` column takes. */
  datatype Status = Stopped | Starting | Running | Stopping | Error

  /** A named group of devices; several clusters may be active at once. */
  datatype Cluster = Cluster(id: int, name: string, description: string, active: bool)

  /** The network settings handed to `create_device`. */
  datatype NetworkConfig = NetworkConfig(
    subnet: string,
    networkName: string,
    containerName: string,
    deviceIp: string,
    routerIp: string)

  /**
   * One client container of a cluster. The network fields are fixed when the
   * device is created; `interfaceName` and `ifbDevice` are learnt at runtime.
   */
  datatype Device = Device(
    id: int,
    clusterId: int,
    name: string,
    deviceType: string,
    networkSubnet: string,
    networkName: string,
    containerName: string,
    ipAddress: string,
    routerIp: string,
    interfaceName: Option<string>,
    ifbDevice: Option<string>,
    status: Status,
    errorMessage: Option<string>)

  /** Bidirectional rates of one device; every rate is optional. */
  datatype TrafficRule = TrafficRule(
    id: int,
    deviceId: int,
    downstreamRate: Option<string>,
    downstreamCeil: Option<string>,
    upstreamRate: Option<string>,
    upstreamCeil: Option<string>,
    active: bool,
    description: string)

  /** A fresh device record: status `Stopped`, no runtime interface, no error. */
  function NewDevice(id: int, clusterId: int, name: string, deviceType: string, cfg: NetworkConfig): Device {
    Device(id, clusterId, name, deviceType, cfg.subnet, cfg.networkName, cfg.containerName,
           cfg.deviceIp, cfg.routerIp, None, None, Stopped, None)
  }

  /** An optional argument overwrites a stored value only when it is present. */
  function Overwrite<T>(stored: T, arg: Option<T>): T {
    if arg.Some? then arg.value else stored
  }

  /**
   * The field rule of a status update: the status is always written, the
   * interface, IFB device and error message only when an argument is given.
   */
  function WithStatus(d: Device, status: Status, iface: Option<string>, ifb: Option<string>, err: Option<string>): Device {
    d.(status := status,
       interfaceName := if iface.Some? then iface else d.interfaceName,
       ifbDevice := if ifb.Some? then ifb else d.ifbDevice,
       errorMessage := if err.Some? then err else d.errorMessage)
  }

  /** A missing argument never clears a stored runtime field, and nothing else but the status moves. */
  lemma WithStatusNeverClears(d: Device, status: Status, iface: Option<string>, ifb: Option<string>, err: Option<string>)
    ensures var e := WithStatus(d, status, iface, ifb, err);
      && e.status == status
      && (iface == None ==> e.interfaceName == d.interfaceName)
      && (ifb == None ==> e.ifbDevice == d.ifbDevice)
      && (err == None ==> e.errorMessage == d.errorMessage)
      && (d.interfaceName.Some? ==> e.interfaceName.Some?)
      && (d.ifbDevice.Some? ==> e.ifbDevice.Some?)
      && e == d.(status := e.status, interfaceName := e.interfaceName, ifbDevice := e.ifbDevice, errorMessage := e.errorMessage)
  {
  }

  /** Repeating a status update changes nothing further. */
  lemma WithStatusIdempotent(d: Device, status: Status, iface: Option<string>, ifb: Option<string>, err: Option<string>)
    ensures WithStatus(WithStatus(d, status, iface, ifb, err), status, iface, ifb, err) == WithStatus(d, status, iface, ifb, err)
  {
  }

  /** The field rule of a traffic-rule update: each rate and the active flag are replaced only when given. */
  function PatchRule(r: TrafficRule, dr: Option<string>, dc: Option<string>, ur: Option<string>, uc: Option<string>, active: Option<bool>): TrafficRule {
    r.(downstreamRate := if dr.Some? then dr else r.downstreamRate,
       downstreamCeil := if dc.Some? then dc else r.downstreamCeil,
       upstreamRate := if ur.Some? then ur else r.upstreamRate,
       upstreamCeil := if uc.Some? then uc else r.upstreamCeil,
       active := Overwrite(r.active, active))
  }

  /** An update with every argument missing leaves the rule as it was; a repeated update is idempotent. */
  lemma PatchRuleProperties(r: TrafficRule, dr: Option<string>, dc: Option<string>, ur: Option<string>, uc: Option<string>, active: Option<bool>)
    ensures PatchRule(r, None, None, None, None, None) == r
    ensures var p := PatchRule(r, dr, dc, ur, uc, active);
      && PatchRule(p, dr, dc, ur, uc, active) == p
      && p.id == r.id && p.deviceId == r.deviceId && p.description == r.description
      && (active.Some? ==> p.active == active.value)
      && (active.None? ==> p.active == r.active)
  {
  }
}
