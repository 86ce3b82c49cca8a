/**
 * The topology driver: creating and destroying the network, router link,
 * traffic-control setup and client container of one device. The container
 * runtime is an abstract state; what the runtime decides on its own (a
 * refused network, the text of an error, the output of a command run inside
 * the router) is passed in as an oracle.
 */
module Driver {
  import opened Wrappers
  import opened Text
  import opened Records

  // ---------------------------------------------------------------- runtime state

  /** A container: whether it runs, the network it was started on and the address it was connected with. */
  datatype Container = Container(running: bool, network: string, address: Option<string>)

  /**
   * The runtime: bridge networks by name with their subnet, containers by
   * name, the networks the router is attached to, the router interfaces that
   * carry traffic control, and every command executed inside the router.
   */
  datatype Runtime = Runtime(
    networks: map<string, string>,
    containers: map<string, Container>,
    attached: set<string>,
    shaped: set<string>,
    routerLog: seq<TcCommand>)

  /** The topology part of the runtime, everything but the command log. */
  function Topology(rt: Runtime): (map<string, string>, map<string, Container>, set<string>, set<string>) {
    (rt.networks, rt.containers, rt.attached, rt.shaped)
  }

  /** One execution of `ip -4 addr show` inside the router: it raised, or it ran with an exit code and output. */
  datatype Probe = Raised(message: string) | Ran(exitCode: int, output: string)

  /** What the runtime decides while a device is created. */
  datatype CreateEnv = CreateEnv(
    networkFails: bool,            // creating the bridge network raises
    attachFault: Option<string>,   // connecting the router raises with this text
    probes: nat -> Probe,          // the result of each detection attempt
    startFails: bool,              // starting an existing stopped container raises
    runFails: bool,                // running a new container raises (image missing or refused)
    connectFails: bool)            // connecting the new container at its address raises

  /**
   * Which call of a container's removal raises, with its text: `stop()`, in
   * which case the container is left as it was, or `remove()` after a
   * successful `stop()`, in which case it is left stopped.
   */
  datatype RemovalFault = StopRaises(text: string) | RemoveRaises(text: string)

  /** The error text each destroy step raises with, if it raises; a step whose target is absent never raises. */
  datatype DestroyFaults = DestroyFaults(container: Option<RemovalFault>, disconnect: Option<string>, network: Option<string>)

  /** A `(success, text)` reply. */
  datatype Reply = Reply(ok: bool, text: string)

  /** How creating a device ended: the interface it got, or the step that failed. */
  datatype CreateOutcome =
    | Created(iface: string)
    | NetworkFailed
    | AttachFailed(message: string)
    | DetectFailed(routerIp: string)
    | TcFailed(iface: string)
    | ContainerFailed
  {
    /** The `(success, message)` pair the driver returns. */
    function AsReply(): Reply {
      match this
      case Created(iface) => Reply(true, iface)
      case NetworkFailed => Reply(false, "Failed to create network")
      case AttachFailed(message) => Reply(false, "Failed to attach router to network: " + message)
      case DetectFailed(routerIp) => Reply(false, "Failed to detect router interface for IP " + routerIp)
      case TcFailed(iface) => Reply(false, "Failed to initialize traffic control on " + iface)
      case ContainerFailed => Reply(false, "Failed to create container")
    }
  }

  /** A destroy step that raised, with the runtime's text. */
  datatype DestroyError =
    | RemovalFailed(message: string)
    | DisconnectFailed(message: string)
    | NetworkRemovalFailed(message: string)
  {
    function Text(): string {
      match this
      case RemovalFailed(m) => "Container removal failed: " + m
      case DisconnectFailed(m) => "Router disconnect failed: " + m
      case NetworkRemovalFailed(m) => "Network removal failed: " + m
    }
  }

  /** The `(success, message)` pair for a destroy: the step errors joined with "; ". */
  function DestroyReply(errors: seq<DestroyError>): Reply {
    if errors == [] then Reply(true, "")
    else Reply(false, Join(seq(|errors|, i requires 0 <= i < |errors| => errors[i].Text()), "; "))
  }

  /** Containers listed by the `qc_*` name filter: the runtime reads the pattern as a regular expression found anywhere in the name. */
  predicate Managed(name: string) {
    Contains(name, "qc")
  }

  // ---------------------------------------------------------------- create steps

  /** Reuses a network of the device's name, or creates it with the device's subnet. */
  function CreateNetworkSpec(rt: Runtime, d: Device, fails: bool): (r: (Runtime, bool))
    ensures r.1 <==> d.networkName in r.0.networks
    ensures r.0 == rt.(networks := r.0.networks) && rt.networks.Keys <= r.0.networks.Keys
  {
    if d.networkName in rt.networks then (rt, true)
    else if fails then (rt, false)
    else (rt.(networks := rt.networks[d.networkName := d.networkSubnet]), true)
  }

  /** A router-attach error whose text says the router is already there counts as success. */
  predicate AttachTolerated(message: string) {
    var m := Lower(message);
    Contains(m, "already attached") || Contains(m, "already exists in network")
  }

  /**
   * Connects the router to the device's network. An attached router makes the
   * runtime refuse with "already exists in network", which is tolerated; a
   * tolerated refusal means the router is there. The result is the runtime's
   * text when the step fails.
   */
  function AttachSpec(rt: Runtime, d: Device, fault: Option<string>): (r: (Runtime, Option<string>))
    ensures r.1.None? <==> d.networkName in r.0.attached
    ensures r.0 == rt.(attached := r.0.attached) && rt.attached <= r.0.attached
  {
    if d.networkName in rt.attached then (rt, None)
    else if fault.Some? then
      if AttachTolerated(fault.value) then (rt.(attached := rt.attached + {d.networkName}), None)
      else (rt, Some(fault.value))
    else (rt.(attached := rt.attached + {d.networkName}), None)
  }

  /** `re.match(r'^(eth|enp|ens)\d+', w)` */
  predicate LooksLikeInterface(w: string) {
    |w| >= 4 && (w[..3] == "eth" || w[..3] == "enp" || w[..3] == "ens") && IsDigit(w[3])
  }

  /** A line of `ip -4 addr` output names the router address when it mentions both `inet` and the address. */
  predicate MentionsAddress(line: string, routerIp: string) {
    Contains(line, "inet") && Contains(line, routerIp)
  }

  /** The interface a line offers: its last whitespace token, when there are two or more and it looks like an interface. */
  function LineInterface(line: string): Option<string> {
    var parts := Words(Strip(line));
    if |parts| >= 2 && LooksLikeInterface(parts[|parts| - 1]) then Some(parts[|parts| - 1]) else None
  }

  /** Qualifies: the line names the address and offers an interface. */
  predicate Qualifies(line: string, routerIp: string) {
    MentionsAddress(line, routerIp) && LineInterface(line).Some?
  }

  /** What each line offers: its interface when it names the address, else nothing. */
  function Offers(lines: seq<string>, routerIp: string): (offers: seq<Option<string>>)
    ensures |offers| == |lines|
  {
    seq(|lines|, j requires 0 <= j < |lines| => if MentionsAddress(lines[j], routerIp) then LineInterface(lines[j]) else None)
  }

  /** The interface offered by the first qualifying line. */
  function FindInterface(lines: seq<string>, routerIp: string): (r: Option<string>)
    ensures r.Some? ==> LooksLikeInterface(r.value)
  {
    FirstSomeLeftmost(Offers(lines, routerIp), 0);
    FirstSome(Offers(lines, routerIp), 0)
  }

  /** What one detection attempt yields: nothing when it raised or exited non-zero, else the scan of its output lines. */
  function ProbeInterface(p: Probe, routerIp: string): Option<string> {
    match p
    case Raised(_) => None
    case Ran(code, out) => if code != 0 then None else FindInterface(SplitOn(out, '\n'), routerIp)
  }

  /** Detection from attempt `attempt` on: the first attempt below `maxRetries` that yields an interface. */
  function DetectFrom(probes: nat -> Probe, routerIp: string, attempt: nat, maxRetries: nat): (r: Option<string>)
    ensures r.Some? ==> LooksLikeInterface(r.value)
    decreases maxRetries - attempt
  {
    if attempt >= maxRetries then None
    else
      var found := ProbeInterface(probes(attempt), routerIp);
      if found.Some? then found else DetectFrom(probes, routerIp, attempt + 1, maxRetries)
  }

  /** A command the driver runs inside the router; `Render` gives its text. */
  datatype TcCommand =
    | QdiscAddRoot(dev: string, handle: string)
    | ClassAdd(dev: string, parent: string, classId: string, rate: string, ceil: Option<string>, prio: Option<string>)
    | IfbModuleLoad
    | IfbLinkAdd(ifb: string)
    | LinkUp(ifb: string)
    | IngressAdd(dev: string)
    | IngressRedirect(dev: string, ifb: string)
    | QdiscDelRoot(dev: string)
    | QdiscDelIngress(dev: string)
    | LinkDown(ifb: string)
    | LinkDel(ifb: string)

  /** The command line each command stands for. */
  function Render(c: TcCommand): string {
    match c
    case QdiscAddRoot(dev, handle) => "tc qdisc add dev " + dev + " root handle " + handle + " htb default 30"
    case ClassAdd(dev, parent, classId, rate, ceil, prio) =>
      "tc class add dev " + dev + " parent " + parent + " classid " + classId + " htb rate " + rate
      + (if ceil.Some? then " ceil " + ceil.value else "") + (if prio.Some? then " prio " + prio.value else "")
    case IfbModuleLoad => "modprobe ifb numifbs=32"
    case IfbLinkAdd(ifb) => "ip link add " + ifb + " type ifb 2>/dev/null || true"
    case LinkUp(ifb) => "ip link set " + ifb + " up"
    case IngressAdd(dev) => "tc qdisc add dev " + dev + " ingress"
    case IngressRedirect(dev, ifb) =>
      "tc filter add dev " + dev + " parent ffff: protocol ip u32 match u32 0 0 flowid 1:1 action mirred egress redirect dev " + ifb
    case QdiscDelRoot(dev) => "tc qdisc del dev " + dev + " root 2>/dev/null || true"
    case QdiscDelIngress(dev) => "tc qdisc del dev " + dev + " ingress 2>/dev/null || true"
    case LinkDown(ifb) => "ip link set " + ifb + " down 2>/dev/null || true"
    case LinkDel(ifb) => "ip link del " + ifb + " 2>/dev/null || true"
  }

  /** Each command is run through `sh -c '…'`. */
  function ShellLine(c: TcCommand): string {
    "sh -c '" + Render(c) + "'"
  }

  /** The HTB tree set up on one device under root handle `h`: parent class and the three priority classes. */
  function HtbTree(dev: string, h: string): seq<TcCommand> {
    [ QdiscAddRoot(dev, h + ":"),
      ClassAdd(dev, h + ":", h + ":1", "10gbit", None, None),
      ClassAdd(dev, h + ":1", h + ":10", "50mbit", Some("100mbit"), Some("1")),
      ClassAdd(dev, h + ":1", h + ":20", "30mbit", Some("80mbit"), Some("2")),
      ClassAdd(dev, h + ":1", h + ":30", "10gbit", Some("10gbit"), Some("3")) ]
  }

  /** The fifteen setup commands: HTB tree on the interface, IFB device with ingress redirect, HTB tree on the IFB. */
  function TcInitCommands(iface: string, ifb: string): (cmds: seq<TcCommand>)
    ensures |cmds| == 15
  {
    HtbTree(iface, "1")
    + [IfbModuleLoad, IfbLinkAdd(ifb), LinkUp(ifb), IngressAdd(iface), IngressRedirect(iface, ifb)]
    + HtbTree(ifb, "2")
  }

  /** The IFB device of an interface for traffic control: `ifb` followed by the first digit run of its name. */
  function TcIfbName(iface: string): Option<string> {
    match FirstDigitRun(iface)
    case None => None
    case Some(num) => Some("ifb" + num)
  }

  /**
   * Sets up traffic control: refused when the name has no digit; otherwise
   * the fifteen commands are run whatever their exit codes and the step succeeds.
   */
  function InitTcSpec(rt: Runtime, iface: string): (r: (Runtime, bool))
    ensures r.1 <==> TcIfbName(iface).Some?
    ensures r.0.networks == rt.networks && r.0.containers == rt.containers && r.0.attached == rt.attached
    ensures r.0.shaped == if r.1 then rt.shaped + {iface} else rt.shaped
  {
    match TcIfbName(iface)
    case None => (rt, false)
    case Some(ifb) => (rt.(shaped := rt.shaped + {iface}, routerLog := rt.routerLog + TcInitCommands(iface, ifb)), true)
  }

  /** Reuses an existing container, starting it when it is not running, or runs a new one and connects it at its address. */
  function CreateContainerSpec(rt: Runtime, d: Device, env: CreateEnv): (r: (Runtime, bool))
    ensures r.1 ==> d.containerName in r.0.containers && r.0.containers[d.containerName].running
    ensures r.0 == rt.(containers := r.0.containers) && rt.containers.Keys <= r.0.containers.Keys
    ensures d.containerName in rt.containers && rt.containers[d.containerName].running ==> r == (rt, true)
  {
    if d.containerName in rt.containers then
      var c := rt.containers[d.containerName];
      if c.running then (rt, true)
      else if env.startFails then (rt, false)
      else (rt.(containers := rt.containers[d.containerName := c.(running := true)]), true)
    else if env.runFails then (rt, false)
    else
      var c := Container(true, d.networkName, None);
      if env.connectFails then (rt.(containers := rt.containers[d.containerName := c]), false)
      else (rt.(containers := rt.containers[d.containerName := c.(address := Some(d.ipAddress))]), true)
  }

  /** The number of detection attempts the driver makes. */
  const DetectRetries: nat := 3

  /**
   * Creating a device: network, router attach, interface detection, traffic
   * control, container, in that order; the first failing step ends the call
   * with its message. Success replies with the interface name.
   */
  function CreateSpec(rt: Runtime, d: Device, env: CreateEnv): (Runtime, CreateOutcome) {
    var (rt1, netOk) := CreateNetworkSpec(rt, d, env.networkFails);
    if !netOk then (rt1, NetworkFailed)
    else
      var (rt2, attachErr) := AttachSpec(rt1, d, env.attachFault);
      if attachErr.Some? then (rt2, AttachFailed(attachErr.value))
      else
        match DetectFrom(env.probes, d.routerIp, 0, DetectRetries)
        case None => (rt2, DetectFailed(d.routerIp))
        case Some(iface) =>
          var (rt3, tcOk) := InitTcSpec(rt2, iface);
          if !tcOk then (rt3, TcFailed(iface))
          else
            var (rt4, cOk) := CreateContainerSpec(rt3, d, env);
            if !cOk then (rt4, ContainerFailed) else (rt4, Created(iface))
  }

  // ---------------------------------------------------------------- destroy steps

  /** How stopping and removing a container by name went. */
  datatype Removal = Removed | Absent | Failed(message: string)

  /**
   * Stops and removes a container: absent, removed, or refused with the
   * fault's text. A refused container stays; it is stopped when only
   * `remove()` raised.
   */
  function RemoveContainerSpec(rt: Runtime, name: string, fault: Option<RemovalFault>): (r: (Runtime, Removal))
    ensures r.1.Failed? <==> name in rt.containers && fault.Some?
    ensures r.1.Absent? <==> name !in rt.containers
    ensures !r.1.Failed? ==> name !in r.0.containers
    ensures r.0 == rt.(containers := r.0.containers) && r.0.containers.Keys <= rt.containers.Keys
    ensures forall n :: n in r.0.containers && n != name ==> r.0.containers[n] == rt.containers[n]
    ensures r.1.Failed? ==>
      (r.1.message == fault.value.text && r.0.containers.Keys == rt.containers.Keys
       && r.0.containers[name] == (if fault.value.RemoveRaises? then rt.containers[name].(running := false) else rt.containers[name]))
  {
    if name !in rt.containers then (rt, Absent)
    else if fault.Some? then
      match fault.value
      case StopRaises(text) => (rt, Failed(text))
      case RemoveRaises(text) => (rt.(containers := rt.containers[name := rt.containers[name].(running := false)]), Failed(text))
    else (rt.(containers := rt.containers - {name}), Removed)
  }

  /** The two teardown commands for the interface and, when its name has a digit, three for its IFB device. */
  function TcTeardownCommands(iface: string): (cmds: seq<TcCommand>)
    ensures |cmds| == if TcIfbName(iface).Some? then 5 else 2
  {
    [QdiscDelRoot(iface), QdiscDelIngress(iface)]
    + match TcIfbName(iface)
      case None => []
      case Some(ifb) => [QdiscDelRoot(ifb), LinkDown(ifb), LinkDel(ifb)]
  }

  /** Tears down traffic control; it always succeeds. */
  function TeardownTcSpec(rt: Runtime, iface: string): (r: Runtime)
    ensures r.networks == rt.networks && r.containers == rt.containers && r.attached == rt.attached
    ensures r.shaped == rt.shaped - {iface}
  {
    rt.(shaped := rt.shaped - {iface}, routerLog := rt.routerLog + TcTeardownCommands(iface))
  }

  /** Disconnects the router from a network that exists; the error when it raises. */
  function DisconnectSpec(rt: Runtime, network: string, fault: Option<string>): (r: (Runtime, Option<DestroyError>))
    ensures r.1.Some? <==> network in rt.networks && fault.Some?
    ensures r.1.None? && network in rt.networks ==> network !in r.0.attached
    ensures r.0 == rt.(attached := r.0.attached) && r.0.attached <= rt.attached
  {
    if network !in rt.networks then (rt, None)
    else if fault.Some? then (rt, Some(DisconnectFailed(fault.value)))
    else (rt.(attached := rt.attached - {network}), None)
  }

  /** Removes a network that exists; the error when it raises. */
  function RemoveNetworkSpec(rt: Runtime, network: string, fault: Option<string>): (r: (Runtime, Option<DestroyError>))
    ensures r.1.Some? <==> network in rt.networks && fault.Some?
    ensures r.1.None? ==> network !in r.0.networks && (network in rt.networks ==> network !in r.0.attached)
    ensures r.0 == rt.(networks := r.0.networks, attached := r.0.attached)
    ensures r.0.networks.Keys <= rt.networks.Keys && r.0.attached <= rt.attached
  {
    if network !in rt.networks then (rt, None)
    else if fault.Some? then (rt, Some(NetworkRemovalFailed(fault.value)))
    else (rt.(networks := rt.networks - {network}, attached := rt.attached - {network}), None)
  }

  function ErrorsOf(e: Option<DestroyError>): seq<DestroyError> {
    if e.Some? then [e.value] else []
  }

  /** The error of the container step, if any: an absent container is no error. */
  function RemovalError(r: Removal): Option<DestroyError> {
    if r.Failed? then Some(RemovalFailed(r.message)) else None
  }

  /**
   * Destroying a device: container, traffic control (only when the device
   * records an interface), router disconnect, network; every step runs and
   * the errors are collected in step order.
   */
  function DestroySpec(rt: Runtime, d: Device, f: DestroyFaults): (Runtime, seq<DestroyError>) {
    var (rt1, removal) := RemoveContainerSpec(rt, d.containerName, f.container);
    var rt2 := if Truthy(d.interfaceName) then TeardownTcSpec(rt1, d.interfaceName.value) else rt1;
    var (rt3, e3) := DisconnectSpec(rt2, d.networkName, f.disconnect);
    var (rt4, e4) := RemoveNetworkSpec(rt3, d.networkName, f.network);
    (rt4, ErrorsOf(RemovalError(removal)) + ErrorsOf(e3) + ErrorsOf(e4))
  }

  /** The running containers of a runtime whose names mark them as managed. */
  function RunningIn(rt: Runtime): set<string> {
    set n | n in rt.containers && rt.containers[n].running && Managed(n)
  }

  // ---------------------------------------------------------------- the manager

  class ContainerManager {
    var rt: Runtime

    constructor (initial: Runtime)
      ensures rt == initial
    {
      rt := initial;
    }

    /** Names of the running managed containers. */
    function RunningNames(): (names: set<string>)
      reads this
      ensures forall n :: n in names <==> n in rt.containers && rt.containers[n].running && Managed(n)
    {
      RunningIn(rt)
    }

    method CreateNetwork(d: Device, fails: bool) returns (ok: bool)
      modifies this
      ensures (rt, ok) == CreateNetworkSpec(old(rt), d, fails)
    {
      if d.networkName in rt.networks {
        return true;
      }
      if fails {
        return false;
      }
      rt := rt.(networks := rt.networks[d.networkName := d.networkSubnet]);
      ok := true;
    }

    method AttachRouter(d: Device, fault: Option<string>) returns (err: Option<string>)
      modifies this
      ensures (rt, err) == AttachSpec(old(rt), d, fault)
    {
      err := None;
      if d.networkName in rt.attached {
        return;
      }
      if fault.Some? {
        var text := Lower(fault.value);
        if Contains(text, "already attached") || Contains(text, "already exists in network") {
          rt := rt.(attached := rt.attached + {d.networkName});
        } else {
          err := Some(fault.value);
        }
        return;
      }
      rt := rt.(attached := rt.attached + {d.networkName});
    }

    /** Scans output lines in order for the first one that names the address and offers an interface. */
    static method ScanLines(lines: seq<string>, routerIp: string) returns (r: Option<string>)
      ensures r == FindInterface(lines, routerIp)
    {
      ghost var offers := Offers(lines, routerIp);
      var i := 0;
      while i < |lines|
        invariant 0 <= i <= |lines|
        invariant FirstSome(offers, i) == FindInterface(lines, routerIp)
      {
        var line := lines[i];
        if MentionsAddress(line, routerIp) {
          var iface := LineInterface(line);
          if iface.Some? {
            return iface;
          }
        }
        i := i + 1;
      }
      r := None;
    }

    /**
     * Runs `ip -4 addr show` up to `maxRetries` times and returns the
     * interface of the first attempt that finds one; attempts that raise or
     * exit non-zero are skipped.
     */
    static method DetectRouterInterface(routerIp: string, probes: nat -> Probe, maxRetries: nat := DetectRetries) returns (r: Option<string>)
      ensures r == DetectFrom(probes, routerIp, 0, maxRetries)
      ensures r.Some? ==> LooksLikeInterface(r.value)
    {
      var attempt: nat := 0;
      while attempt < maxRetries
        invariant attempt <= maxRetries
        decreases maxRetries - attempt
        invariant DetectFrom(probes, routerIp, 0, maxRetries) == DetectFrom(probes, routerIp, attempt, maxRetries)
      {
        match probes(attempt) {
          case Raised(_) =>
          case Ran(code, out) =>
            if code == 0 {
              var found := ScanLines(SplitOn(out, '\n'), routerIp);
              if found.Some? {
                return found;
              }
            }
        }
        attempt := attempt + 1;
      }
      r := None;
    }

    /** Runs commands inside the router one after the other, whatever their exit codes. */
    method RunInRouter(commands: seq<TcCommand>)
      modifies this
      ensures rt == old(rt).(routerLog := old(rt).routerLog + commands)
    {
      for k := 0 to |commands|
        invariant rt == old(rt).(routerLog := old(rt).routerLog + commands[..k])
      {
        assert commands[..k + 1] == commands[..k] + [commands[k]];
        rt := rt.(routerLog := rt.routerLog + [commands[k]]);
      }
      assert commands[..|commands|] == commands;
    }

    method InitTrafficControl(iface: string) returns (ok: bool)
      modifies this
      ensures (rt, ok) == InitTcSpec(old(rt), iface)
    {
      var num := FirstDigitRun(iface);
      if num.None? {
        return false;
      }
      RunInRouter(TcInitCommands(iface, "ifb" + num.value));
      rt := rt.(shaped := rt.shaped + {iface});
      ok := true;
    }

    method CreateContainer(d: Device, env: CreateEnv) returns (ok: bool)
      modifies this
      ensures (rt, ok) == CreateContainerSpec(old(rt), d, env)
    {
      if d.containerName in rt.containers {
        var c := rt.containers[d.containerName];
        if !c.running {
          if env.startFails {
            return false;
          }
          rt := rt.(containers := rt.containers[d.containerName := c.(running := true)]);
        }
        return true;
      }
      if env.runFails {
        return false;
      }
      var before := rt.containers;
      var c := Container(true, d.networkName, None);
      rt := rt.(containers := before[d.containerName := c]);
      if env.connectFails {
        return false;
      }
      assert rt.containers[d.containerName := c.(address := Some(d.ipAddress))] == before[d.containerName := c.(address := Some(d.ipAddress))];
      rt := rt.(containers := rt.containers[d.containerName := c.(address := Some(d.ipAddress))]);
      ok := true;
    }

    /**
     * Creates the device's network, router link, traffic control and
     * container, stopping at the first failure; `outcome.AsReply()` is the
     * driver's `(success, message)` answer.
     */
    method CreateDeviceContainer(d: Device, env: CreateEnv) returns (outcome: CreateOutcome)
      modifies this
      ensures (rt, outcome) == CreateSpec(old(rt), d, env)
    {
      var netOk := CreateNetwork(d, env.networkFails);
      if !netOk {
        return NetworkFailed;
      }
      var attachErr := AttachRouter(d, env.attachFault);
      if attachErr.Some? {
        return AttachFailed(attachErr.value);
      }
      var iface := DetectRouterInterface(d.routerIp, env.probes);
      if iface.None? {
        return DetectFailed(d.routerIp);
      }
      var tcOk := InitTrafficControl(iface.value);
      if !tcOk {
        return TcFailed(iface.value);
      }
      var cOk := CreateContainer(d, env);
      if !cOk {
        return ContainerFailed;
      }
      outcome := Created(iface.value);
    }

    /** Stops and removes one container by name. */
    method StopAndRemove(name: string, fault: Option<RemovalFault>) returns (removal: Removal)
      modifies this
      ensures (rt, removal) == RemoveContainerSpec(old(rt), name, fault)
    {
      if name !in rt.containers {
        return Absent;
      }
      if fault.Some? && fault.value.StopRaises? {
        return Failed(fault.value.text);
      }
      rt := rt.(containers := rt.containers[name := rt.containers[name].(running := false)]);
      if fault.Some? {
        return Failed(fault.value.text);
      }
      rt := rt.(containers := rt.containers - {name});
      assert rt.containers == old(rt).containers - {name};
      removal := Removed;
    }

    method TeardownTrafficControl(iface: string) returns (ok: bool)
      modifies this
      ensures rt == TeardownTcSpec(old(rt), iface) && ok
    {
      RunInRouter(TcTeardownCommands(iface));
      rt := rt.(shaped := rt.shaped - {iface});
      ok := true;
    }

    /**
     * Runs all four destroy steps, collecting their errors in step order;
     * `DestroyReply(errors)` is the driver's `(success, message)` answer.
     */
    method DestroyDeviceContainer(d: Device, f: DestroyFaults) returns (errors: seq<DestroyError>)
      modifies this
      ensures (rt, errors) == DestroySpec(old(rt), d, f)
    {
      errors := [];
      var removal := StopAndRemove(d.containerName, f.container);
      if removal.Failed? {
        errors := errors + [RemovalFailed(removal.message)];
      }
      assert errors == ErrorsOf(RemovalError(removal));
      if d.interfaceName.Some? && d.interfaceName.value != "" {
        var _ := TeardownTrafficControl(d.interfaceName.value);
      }
      ghost var disconnect := DisconnectSpec(rt, d.networkName, f.disconnect);
      if d.networkName in rt.networks {
        if f.disconnect.Some? {
          errors := errors + [DisconnectFailed(f.disconnect.value)];
        } else {
          rt := rt.(attached := rt.attached - {d.networkName});
        }
      }
      assert rt == disconnect.0 && errors == ErrorsOf(RemovalError(removal)) + ErrorsOf(disconnect.1);
      ghost var removeNetwork := RemoveNetworkSpec(rt, d.networkName, f.network);
      if d.networkName in rt.networks {
        if f.network.Some? {
          errors := errors + [NetworkRemovalFailed(f.network.value)];
        } else {
          rt := rt.(networks := rt.networks - {d.networkName}, attached := rt.attached - {d.networkName});
        }
      }
      assert rt == removeNetwork.0;
      assert errors == ErrorsOf(RemovalError(removal)) + ErrorsOf(disconnect.1) + ErrorsOf(removeNetwork.1);
    }

    /**
     * Stops and removes every managed container, running or not, in the
     * order the runtime lists them. `faults` maps the containers whose
     * `stop()` or `remove()` raises to the fault; those stay and are
     * reported, and those whose `remove()` raised are left stopped.
     */
    method KillAllClientContainers(listing: seq<string>, faults: map<string, RemovalFault>) returns (count: int, errors: seq<string>)
      requires ListingOf(listing, rt)
      modifies this
      ensures (rt.containers, count, errors) == KillSpec(old(rt.containers), listing, faults)
      ensures rt == old(rt).(containers := rt.containers)
      ensures count + |errors| == |Listed(old(rt))|
    {
      count, errors := 0, [];
      for i := 0 to |listing|
        invariant (rt.containers, count, errors) == KillSpec(old(rt.containers), listing[..i], faults)
        invariant rt == old(rt).(containers := rt.containers)
      {
        assert listing[..i + 1][..i] == listing[..i];
        var name := listing[i];
        var removal := StopAndRemove(name, if name in faults then Some(faults[name]) else None);
        if removal.Failed? {
          errors := errors + [KillError(name, removal.message)];
        } else if removal.Removed? {
          count := count + 1;
        }
      }
      assert listing[..|listing|] == listing;
      KillSpecCounts(old(rt.containers), listing, faults);
      ListingSize(listing, old(rt));
    }
  }

  /** The containers the `qc_*` filter lists, running or not. */
  function Listed(rt: Runtime): set<string> {
    set n | n in rt.containers && Managed(n)
  }

  /** A listing names each listed container exactly once. */
  ghost predicate ListingOf(listing: seq<string>, rt: Runtime) {
    (forall i, j :: 0 <= i < j < |listing| ==> listing[i] != listing[j])
    && (forall n :: n in listing <==> n in rt.containers && Managed(n))
  }

  /**
   * Removing the listed containers one after the other: the containers left,
   * how many were removed and the error lines, in listing order.
   */
  function KillSpec(containers: map<string, Container>, names: seq<string>, faults: map<string, RemovalFault>): (map<string, Container>, int, seq<string>)
  {
    if names == [] then (containers, 0, [])
    else
      var (left, count, errors) := KillSpec(containers, names[..|names| - 1], faults);
      var name := names[|names| - 1];
      if name !in left then (left, count, errors)
      else if name in faults then
        var kept := if faults[name].RemoveRaises? then left[name := left[name].(running := false)] else left;
        (kept, count, errors + [KillError(name, faults[name].text)])
      else (left - {name}, count + 1, errors)
  }

  /** The error reported for a container whose removal raised. */
  function KillError(name: string, message: string): string {
    name + ": " + message
  }

  // ---------------------------------------------------------------- scan lemmas

  /** A line offers an interface exactly when it qualifies. */
  lemma OffersQualifying(lines: seq<string>, routerIp: string, j: int)
    requires 0 <= j < |lines|
    ensures Offers(lines, routerIp)[j].Some? <==> Qualifies(lines[j], routerIp)
    ensures Qualifies(lines[j], routerIp) ==> Offers(lines, routerIp)[j] == LineInterface(lines[j])
  {
  }

  /**
   * The interface found is the one offered by the first qualifying line,
   * and nothing is found when no line qualifies.
   */
  lemma FindInterfaceFirst(lines: seq<string>, routerIp: string)
    ensures var r := FindInterface(lines, routerIp);
      && (r.Some? ==>
            exists k :: 0 <= k < |lines| && Qualifies(lines[k], routerIp) && r == LineInterface(lines[k])
                        && forall j :: 0 <= j < k ==> !Qualifies(lines[j], routerIp))
      && (r.None? ==> forall k :: 0 <= k < |lines| ==> !Qualifies(lines[k], routerIp))
  {
    var offers := Offers(lines, routerIp);
    FirstSomeLeftmost(offers, 0);
    var r := FirstSome(offers, 0);
    if r.Some? {
      var k :| 0 <= k < |offers| && offers[k] == r && forall i :: 0 <= i < k ==> offers[i].None?;
      OffersQualifying(lines, routerIp, k);
      forall j | 0 <= j < k ensures !Qualifies(lines[j], routerIp) {
        OffersQualifying(lines, routerIp, j);
      }
    } else {
      forall k | 0 <= k < |lines| ensures !Qualifies(lines[k], routerIp) {
        OffersQualifying(lines, routerIp, k);
      }
    }
  }

  // ---------------------------------------------------------------- kill-all lemmas

  /** The containers a run of removals takes away: those in the listing that existed and did not fail. */
  function Killed(containers: map<string, Container>, names: seq<string>, faults: map<string, RemovalFault>): set<string> {
    set n | n in names && n in containers && n !in faults
  }

  /** A container a fault left behind: stopped when `stop()` succeeded and `remove()` raised, untouched otherwise. */
  function AfterFault(c: Container, f: RemovalFault): (r: Container)
    ensures r.network == c.network && r.address == c.address
    ensures r.running <==> c.running && f.StopRaises?
  {
    if f.RemoveRaises? then c.(running := false) else c
  }

  /**
   * What a run of removals leaves: every container but the killed ones, the
   * refused ones as their fault left them and the rest untouched.
   */
  function KillLeft(containers: map<string, Container>, names: seq<string>, faults: map<string, RemovalFault>): map<string, Container> {
    map n | n in containers && n !in Killed(containers, names, faults)
      :: if n in names && n in faults then AfterFault(containers[n], faults[n]) else containers[n]
  }

  /**
   * Exactly the containers that existed, were listed and did not fail are
   * gone; a listed container whose `remove()` raised is left stopped, and
   * every other container is unchanged.
   */
  lemma {:induction false} KillSpecLeft(containers: map<string, Container>, names: seq<string>, faults: map<string, RemovalFault>)
    ensures KillSpec(containers, names, faults).0 == KillLeft(containers, names, faults)
    decreases |names|
  {
    if names != [] {
      var init := names[..|names| - 1];
      var name := names[|names| - 1];
      KillSpecLeft(containers, init, faults);
      assert forall n :: n in names <==> n in init || n == name;
      var left := KillSpec(containers, init, faults).0;
      var after := KillLeft(containers, names, faults);
      if name in left && name !in faults {
        assert Killed(containers, names, faults) == Killed(containers, init, faults) + {name};
        assert after == left - {name};
      } else if name in left {
        assert Killed(containers, names, faults) == Killed(containers, init, faults);
        var kept := if faults[name].RemoveRaises? then left[name := left[name].(running := false)] else left;
        assert after == kept;
      } else {
        assert Killed(containers, names, faults) == Killed(containers, init, faults);
        assert after == left;
      }
    }
  }

  /** Every error line reports a listed container whose removal raised, in `name: text` form. */
  lemma {:induction false} KillSpecErrors(containers: map<string, Container>, names: seq<string>, faults: map<string, RemovalFault>)
    ensures forall e :: e in KillSpec(containers, names, faults).2 ==> exists n :: n in names && n in faults && e == KillError(n, faults[n].text)
    decreases |names|
  {
    if names != [] {
      var init := names[..|names| - 1];
      KillSpecErrors(containers, init, faults);
      assert forall n :: n in init ==> n in names;
    }
  }

  /** The containers a run of removals reports as failed. */
  function Refused(containers: map<string, Container>, names: seq<string>, faults: map<string, RemovalFault>): set<string> {
    set n | n in names && n in containers && n in faults
  }

  /** Over a duplicate-free listing the count is the number of containers removed. */
  lemma {:induction false} KillSpecCount(containers: map<string, Container>, names: seq<string>, faults: map<string, RemovalFault>)
    requires forall i, j :: 0 <= i < j < |names| ==> names[i] != names[j]
    ensures KillSpec(containers, names, faults).1 == |Killed(containers, names, faults)|
    decreases |names|
  {
    if names != [] {
      var init := names[..|names| - 1];
      var name := names[|names| - 1];
      KillSpecCount(containers, init, faults);
      KillSpecLeft(containers, init, faults);
      assert forall n :: n in names <==> n in init || n == name;
      var before := Killed(containers, init, faults);
      assert name !in before;
      if name in containers && name !in faults {
        assert Killed(containers, names, faults) == before + {name};
      } else {
        assert Killed(containers, names, faults) == before;
      }
    }
  }

  /** Over a duplicate-free listing there is one error line per container whose removal raised. */
  lemma {:induction false} KillSpecErrorCount(containers: map<string, Container>, names: seq<string>, faults: map<string, RemovalFault>)
    requires forall i, j :: 0 <= i < j < |names| ==> names[i] != names[j]
    ensures |KillSpec(containers, names, faults).2| == |Refused(containers, names, faults)|
    decreases |names|
  {
    if names != [] {
      var init := names[..|names| - 1];
      var name := names[|names| - 1];
      KillSpecErrorCount(containers, init, faults);
      KillSpecLeft(containers, init, faults);
      assert forall n :: n in names <==> n in init || n == name;
      var before := Refused(containers, init, faults);
      assert name !in before;
      if name in containers && name in faults {
        assert Refused(containers, names, faults) == before + {name};
      } else {
        assert Refused(containers, names, faults) == before;
      }
    }
  }

  /** Every listed container that exists is either removed and counted or reported. */
  lemma KillSpecCounts(containers: map<string, Container>, names: seq<string>, faults: map<string, RemovalFault>)
    requires forall i, j :: 0 <= i < j < |names| ==> names[i] != names[j]
    ensures KillSpec(containers, names, faults).1 + |KillSpec(containers, names, faults).2| == |set n | n in names && n in containers|
  {
    KillSpecCount(containers, names, faults);
    KillSpecErrorCount(containers, names, faults);
    var killed := Killed(containers, names, faults);
    var refused := Refused(containers, names, faults);
    assert killed !! refused;
    assert (set n | n in names && n in containers) == killed + refused;
  }

  /** A listing holds as many names as the filter lists. */
  lemma ListingSize(listing: seq<string>, rt: Runtime)
    requires ListingOf(listing, rt)
    ensures |Listed(rt)| == |set n | n in listing && n in rt.containers|
    ensures |listing| == |Listed(rt)|
  {
    assert (set n | n in listing && n in rt.containers) == Listed(rt);
    assert (set n | n in listing) == Listed(rt);
    DistinctSize(listing);
  }

  /** A duplicate-free sequence has as many elements as its set. */
  lemma {:induction false} DistinctSize<T>(s: seq<T>)
    requires forall i, j :: 0 <= i < j < |s| ==> s[i] != s[j]
    ensures |set x | x in s| == |s|
    decreases |s|
  {
    if s != [] {
      var init := s[..|s| - 1];
      DistinctSize(init);
      assert forall x :: x in s <==> x in init || x == s[|s| - 1];
      assert s[|s| - 1] !in init;
      assert (set x | x in s) == (set x | x in init) + {s[|s| - 1]};
    }
  }

  // ---------------------------------------------------------------- create and destroy lemmas

  /** A detected interface always has a digit, so traffic-control setup never refuses it. */
  lemma {:induction false} DetectedInterfaceHasIfb(iface: string)
    requires LooksLikeInterface(iface)
    ensures TcIfbName(iface).Some?
    ensures forall rt: Runtime :: InitTcSpec(rt, iface).1
  {
    assert IsDigit(iface[3]);
    FirstDigitRunSpec(iface);
  }

  /**
   * Once the network and the router link are in place and detection found an
   * interface, only the container step can still fail: traffic control is
   * never refused.
   */
  lemma CreateAfterDetection(rt: Runtime, d: Device, env: CreateEnv)
    requires CreateNetworkSpec(rt, d, env.networkFails).1
    requires AttachSpec(CreateNetworkSpec(rt, d, env.networkFails).0, d, env.attachFault).1.None?
    requires DetectFrom(env.probes, d.routerIp, 0, DetectRetries).Some?
    ensures var iface := DetectFrom(env.probes, d.routerIp, 0, DetectRetries).value;
      var r := CreateSpec(rt, d, env).1;
      r == Created(iface) || r == ContainerFailed
  {
    DetectedInterfaceHasIfb(DetectFrom(env.probes, d.routerIp, 0, DetectRetries).value);
  }

  /**
   * A successful creation leaves the device's network, the router attached to
   * it, traffic control on the reported interface and the container running;
   * nothing that existed before is removed, whatever the outcome.
   */
  lemma CreateSuccess(rt: Runtime, d: Device, env: CreateEnv)
    ensures var (rt', r) := CreateSpec(rt, d, env);
      && (r.Created? ==>
            d.networkName in rt'.networks && d.networkName in rt'.attached
            && LooksLikeInterface(r.iface) && r.iface in rt'.shaped
            && d.containerName in rt'.containers && rt'.containers[d.containerName].running)
      && rt.networks.Keys <= rt'.networks.Keys && rt.containers.Keys <= rt'.containers.Keys
      && rt.attached <= rt'.attached && rt.shaped <= rt'.shaped
  {
    var (rt1, netOk) := CreateNetworkSpec(rt, d, env.networkFails);
    if netOk {
      var (rt2, attachErr) := AttachSpec(rt1, d, env.attachFault);
      if attachErr.None? {
        var found := DetectFrom(env.probes, d.routerIp, 0, DetectRetries);
        if found.Some? {
          var (rt3, tcOk) := InitTcSpec(rt2, found.value);
          if tcOk {
            var (rt4, cOk) := CreateContainerSpec(rt3, d, env);
            assert CreateSpec(rt, d, env) == (rt4, if cOk then Created(found.value) else ContainerFailed);
          }
        }
      }
    }
  }

  /**
   * Creating an already created device again (with the same detection
   * outcome, whatever the other faults) changes no topology and gives the same
   * reply; only the fifteen traffic-control commands run once more.
   */
  lemma CreateIdempotent(rt: Runtime, d: Device, env: CreateEnv, env2: CreateEnv)
    requires CreateSpec(rt, d, env).1.Created?
    requires env2.probes == env.probes
    ensures var (rt1, r1) := CreateSpec(rt, d, env);
      var (rt2, r2) := CreateSpec(rt1, d, env2);
      r2 == r1 && Topology(rt2) == Topology(rt1) && |rt2.routerLog| == |rt1.routerLog| + 15
      && rt2.routerLog == rt1.routerLog + TcInitCommands(r1.iface, TcIfbName(r1.iface).value)
  {
    var (rt1, r1) := CreateSpec(rt, d, env);
    CreateSuccess(rt, d, env);
    DetectedInterfaceHasIfb(r1.iface);
    var found := DetectFrom(env.probes, d.routerIp, 0, DetectRetries);
    assert found == Some(r1.iface) by {
      var (a1, netOk) := CreateNetworkSpec(rt, d, env.networkFails);
      var (a2, attachErr) := AttachSpec(a1, d, env.attachFault);
      assert netOk && attachErr.None?;
    }
    assert CreateNetworkSpec(rt1, d, env2.networkFails) == (rt1, true);
    assert AttachSpec(rt1, d, env2.attachFault) == (rt1, None);
    var (rt3, tcOk) := InitTcSpec(rt1, r1.iface);
    assert tcOk && rt3.shaped == rt1.shaped;
    assert CreateContainerSpec(rt3, d, env2) == (rt3, true);
  }

  /** A destroy step fires a fault when its target exists and the runtime raises. */
  predicate DestroyFaultFires(rt: Runtime, d: Device, f: DestroyFaults) {
    (d.containerName in rt.containers && f.container.Some?)
    || (d.networkName in rt.networks && (f.disconnect.Some? || f.network.Some?))
  }

  /** The router is only ever attached to networks that exist. */
  predicate Coherent(rt: Runtime) {
    rt.attached <= rt.networks.Keys
  }

  /** Every create and destroy keeps the router attached only to existing networks. */
  lemma CoherentPreserved(rt: Runtime, d: Device, env: CreateEnv, f: DestroyFaults)
    requires Coherent(rt)
    ensures Coherent(CreateSpec(rt, d, env).0)
    ensures Coherent(DestroySpec(rt, d, f).0)
  {
    var (rt1, netOk) := CreateNetworkSpec(rt, d, env.networkFails);
    if netOk {
      var (rt2, attachErr) := AttachSpec(rt1, d, env.attachFault);
      assert Coherent(rt2);
    }
  }

  /**
   * Destroying reports no error exactly when no step raised; after that the
   * container, the network, the router link and the traffic control on the
   * recorded interface are gone.
   */
  lemma DestroyOutcome(rt: Runtime, d: Device, f: DestroyFaults)
    requires Coherent(rt)
    ensures var (rt', r) := DestroySpec(rt, d, f);
      && (r == [] <==> !DestroyFaultFires(rt, d, f))
      && (r == [] ==>
            d.containerName !in rt'.containers && d.networkName !in rt'.networks
            && d.networkName !in rt'.attached
            && (Truthy(d.interfaceName) ==> d.interfaceName.value !in rt'.shaped))
  {
    var (rt1, removal) := RemoveContainerSpec(rt, d.containerName, f.container);
    var rt2 := if Truthy(d.interfaceName) then TeardownTcSpec(rt1, d.interfaceName.value) else rt1;
    var (rt3, e3) := DisconnectSpec(rt2, d.networkName, f.disconnect);
    var (rt4, e4) := RemoveNetworkSpec(rt3, d.networkName, f.network);
    var errors := ErrorsOf(RemovalError(removal)) + ErrorsOf(e3) + ErrorsOf(e4);
    assert DestroySpec(rt, d, f) == (rt4, errors);
    assert rt2.networks == rt.networks && rt3.networks == rt.networks;
    assert errors == [] <==> RemovalError(removal).None? && e3.None? && e4.None?;
  }

  /** Destroying twice: once the first call reported no error the second one reports none and changes no topology. */
  lemma DestroyTwice(rt: Runtime, d: Device, f: DestroyFaults, f2: DestroyFaults)
    requires Coherent(rt)
    requires DestroySpec(rt, d, f).1 == []
    ensures var rt1 := DestroySpec(rt, d, f).0;
      var (rt2, r2) := DestroySpec(rt1, d, f2);
      r2 == [] && Topology(rt2) == Topology(rt1)
  {
    DestroyOutcome(rt, d, f);
    var rt1 := DestroySpec(rt, d, f).0;
    CoherentPreserved(rt, d, CreateEnv(false, None, _ => Raised(""), false, false, false), f);
    assert RemoveContainerSpec(rt1, d.containerName, f2.container) == (rt1, Absent);
    var rt2 := if Truthy(d.interfaceName) then TeardownTcSpec(rt1, d.interfaceName.value) else rt1;
    if Truthy(d.interfaceName) {
      assert d.interfaceName.value !in rt1.shaped;
      assert rt1.shaped - {d.interfaceName.value} == rt1.shaped;
    }
    assert Topology(rt2) == Topology(rt1);
    assert DisconnectSpec(rt2, d.networkName, f2.disconnect) == (rt2, None);
    assert RemoveNetworkSpec(rt2, d.networkName, f2.network) == (rt2, None);
    assert DestroySpec(rt1, d, f2) == (rt2, []);
  }
}
