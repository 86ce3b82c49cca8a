/**
 * The record store: clusters, devices and traffic rules held as tables keyed
 * by their integer ids, with the create / read / update / delete operations
 * of the database service. Ids come from autoincrement counters; listings
 * come back in id (insertion) order.
 */
module Store {
  import opened Wrappers
  import opened Text
  import opened Records

  /** Why a store operation refused, with the message the service raises. */
  datatype DbError =
    | ClusterNameTaken(name: string)
    | ClusterNotFound(clusterId: int)
    | DeviceNameTaken(name: string, clusterName: string)
    | UniqueViolation(column: string)
    | NoFreeSubnet
    | DeviceNotFound(deviceId: int)
  {
    function Text(): string {
      match this
      case ClusterNameTaken(name) => "Cluster with name '" + name + "' already exists"
      case ClusterNotFound(id) => "Cluster with ID " + IntToString(id) + " not found"
      case DeviceNameTaken(name, cluster) => "Device '" + name + "' already exists in cluster '" + cluster + "'"
      case UniqueViolation(column) => "UNIQUE constraint failed: devices." + column
      case NoFreeSubnet => "No available network subnets (all 254 networks in use)"
      case DeviceNotFound(id) => "Device with ID " + IntToString(id) + " not found"
    }
  }

  // ---------------------------------------------------------------- table invariants

  /** Every cluster is stored under its own id, and ids were handed out below `next`. */
  ghost predicate ClustersKeyed(cs: map<int, Cluster>, next: int) {
    forall id :: id in cs ==> cs[id].id == id && 1 <= id < next
  }

  /** Every device is stored under its own id and belongs to a stored cluster. */
  ghost predicate DevicesKeyed(ds: map<int, Device>, cs: map<int, Cluster>, next: int) {
    forall id :: id in ds ==> ds[id].id == id && 1 <= id < next && ds[id].clusterId in cs
  }

  /** Every traffic rule is stored under its own id and belongs to a stored device. */
  ghost predicate RulesKeyed(rs: map<int, TrafficRule>, ds: map<int, Device>, next: int) {
    forall id :: id in rs ==> rs[id].id == id && 1 <= id < next && rs[id].deviceId in ds
  }

  /** The unique index on cluster names. */
  ghost predicate UniqueClusterNames(cs: map<int, Cluster>) {
    forall a, b :: a in cs && b in cs && cs[a].name == cs[b].name ==> a == b
  }

  /**
   * A device name is unique inside its cluster; network and container names
   * are unique over all devices.
   */
  ghost predicate UniqueDeviceKeys(ds: map<int, Device>) {
    forall a, b :: a in ds && b in ds && a != b ==>
      && (ds[a].clusterId != ds[b].clusterId || ds[a].name != ds[b].name)
      && ds[a].networkName != ds[b].networkName
      && ds[a].containerName != ds[b].containerName
  }

  /** Some device of the cluster already has this name. */
  predicate NameInCluster(ds: map<int, Device>, clusterId: int, name: string) {
    exists id :: id in ds && ds[id].clusterId == clusterId && ds[id].name == name
  }

  /** Some device already uses this network name. */
  predicate NetworkTaken(ds: map<int, Device>, network: string) {
    exists id :: id in ds && ds[id].networkName == network
  }

  /** Some device already uses this container name. */
  predicate ContainerTaken(ds: map<int, Device>, container: string) {
    exists id :: id in ds && ds[id].containerName == container
  }

  /** Adding a device whose keys are all free keeps the unique indexes. */
  lemma AddDeviceKeepsUnique(ds: map<int, Device>, dev: Device)
    requires UniqueDeviceKeys(ds) && dev.id !in ds
    requires !NameInCluster(ds, dev.clusterId, dev.name)
    requires !NetworkTaken(ds, dev.networkName) && !ContainerTaken(ds, dev.containerName)
    ensures UniqueDeviceKeys(ds[dev.id := dev])
  {
    var ds' := ds[dev.id := dev];
    forall a, b | a in ds' && b in ds' && a != b
      ensures && (ds'[a].clusterId != ds'[b].clusterId || ds'[a].name != ds'[b].name)
              && ds'[a].networkName != ds'[b].networkName
              && ds'[a].containerName != ds'[b].containerName
    {
      if a == dev.id {
        assert b in ds && ds'[b] == ds[b];
      } else if b == dev.id {
        assert a in ds && ds'[a] == ds[a];
      }
    }
  }

  // ---------------------------------------------------------------- listings in id order

  /** Clusters with an id below `n`, in ascending id order, optionally only the active ones. */
  function ClusterRows(cs: map<int, Cluster>, activeOnly: bool, n: int): seq<Cluster>
    decreases n
  {
    if n <= 1 then []
    else ClusterRows(cs, activeOnly, n - 1) + (if n - 1 in cs && (cs[n - 1].active || !activeOnly) then [cs[n - 1]] else [])
  }

  lemma {:induction false} ClusterRowsSpec(cs: map<int, Cluster>, activeOnly: bool, n: int)
    requires forall id :: id in cs ==> cs[id].id == id
    ensures forall c :: c in ClusterRows(cs, activeOnly, n) <==>
      c.id in cs && cs[c.id] == c && 1 <= c.id < n && (c.active || !activeOnly)
    ensures forall i, j :: 0 <= i < j < |ClusterRows(cs, activeOnly, n)| ==> ClusterRows(cs, activeOnly, n)[i].id < ClusterRows(cs, activeOnly, n)[j].id
    decreases n
  {
    if n > 1 {
      ClusterRowsSpec(cs, activeOnly, n - 1);
      var p, r := ClusterRows(cs, activeOnly, n - 1), ClusterRows(cs, activeOnly, n);
      forall i, j | 0 <= i < j < |r| ensures r[i].id < r[j].id {
        assert r[i] == p[i] && r[i] in p;
        if j < |p| {
          assert r[j] == p[j];
        } else {
          assert |r| > |p| && r[j] == cs[n - 1];
        }
      }
    }
  }

  /** Which devices a listing selects. */
  datatype DeviceQuery = AllDevices | InCluster(clusterId: int) | InStatus(status: Status)

  predicate Selects(q: DeviceQuery, d: Device) {
    match q
    case AllDevices => true
    case InCluster(c) => d.clusterId == c
    case InStatus(s) => d.status == s
  }

  /** Devices with an id below `n` that the query selects, in ascending id order. */
  function DeviceRows(ds: map<int, Device>, q: DeviceQuery, n: int): seq<Device>
    decreases n
  {
    if n <= 1 then []
    else DeviceRows(ds, q, n - 1) + (if n - 1 in ds && Selects(q, ds[n - 1]) then [ds[n - 1]] else [])
  }

  lemma {:induction false} DeviceRowsSpec(ds: map<int, Device>, q: DeviceQuery, n: int)
    requires forall id :: id in ds ==> ds[id].id == id
    ensures forall d :: d in DeviceRows(ds, q, n) <==> d.id in ds && ds[d.id] == d && 1 <= d.id < n && Selects(q, d)
    ensures forall i, j :: 0 <= i < j < |DeviceRows(ds, q, n)| ==> DeviceRows(ds, q, n)[i].id < DeviceRows(ds, q, n)[j].id
    decreases n
  {
    if n > 1 {
      DeviceRowsSpec(ds, q, n - 1);
      var p, r := DeviceRows(ds, q, n - 1), DeviceRows(ds, q, n);
      forall i, j | 0 <= i < j < |r| ensures r[i].id < r[j].id {
        assert r[i] == p[i] && r[i] in p;
        if j < |p| {
          assert r[j] == p[j];
        } else {
          assert |r| > |p| && r[j] == ds[n - 1];
        }
      }
    }
  }

  /** The devices of a list of clusters, cluster after cluster, each cluster's devices in id order. */
  function DevicesOfClusters(ds: map<int, Device>, cl: seq<Cluster>, n: int): seq<Device>
    decreases |cl|
  {
    if cl == [] then []
    else DevicesOfClusters(ds, cl[..|cl| - 1], n) + DeviceRows(ds, InCluster(cl[|cl| - 1].id), n)
  }

  lemma {:induction false} DevicesOfClustersSpec(ds: map<int, Device>, cl: seq<Cluster>, n: int)
    requires forall id :: id in ds ==> ds[id].id == id
    ensures forall d :: d in DevicesOfClusters(ds, cl, n) <==>
      d.id in ds && ds[d.id] == d && 1 <= d.id < n && exists k :: 0 <= k < |cl| && cl[k].id == d.clusterId
    decreases |cl|
  {
    if cl != [] {
      var init := cl[..|cl| - 1];
      DevicesOfClustersSpec(ds, init, n);
      DeviceRowsSpec(ds, InCluster(cl[|cl| - 1].id), n);
      forall d: Device | d.id in ds && ds[d.id] == d && 1 <= d.id < n && (exists k :: 0 <= k < |cl| && cl[k].id == d.clusterId)
        ensures d in DevicesOfClusters(ds, cl, n)
      {
        var k :| 0 <= k < |cl| && cl[k].id == d.clusterId;
        if k < |cl| - 1 {
          assert init[k] == cl[k];
        }
      }
      forall d: Device | d in DevicesOfClusters(ds, init, n)
        ensures exists k :: 0 <= k < |cl| && cl[k].id == d.clusterId
      {
        var k :| 0 <= k < |init| && init[k].id == d.clusterId;
        assert cl[k] == init[k];
      }
    }
  }

  /** Traffic rules of one device with an id below `n`, in ascending id order, optionally only the active ones. */
  function RuleRows(rs: map<int, TrafficRule>, deviceId: int, activeOnly: bool, n: int): seq<TrafficRule>
    decreases n
  {
    if n <= 1 then []
    else
      var t := if n - 1 in rs && rs[n - 1].deviceId == deviceId && (rs[n - 1].active || !activeOnly) then [rs[n - 1]] else [];
      RuleRows(rs, deviceId, activeOnly, n - 1) + t
  }

  lemma {:induction false} RuleRowsSpec(rs: map<int, TrafficRule>, deviceId: int, activeOnly: bool, n: int)
    requires forall id :: id in rs ==> rs[id].id == id
    ensures forall t :: t in RuleRows(rs, deviceId, activeOnly, n) <==>
      t.id in rs && rs[t.id] == t && 1 <= t.id < n && t.deviceId == deviceId && (t.active || !activeOnly)
    ensures forall i, j :: 0 <= i < j < |RuleRows(rs, deviceId, activeOnly, n)| ==> RuleRows(rs, deviceId, activeOnly, n)[i].id < RuleRows(rs, deviceId, activeOnly, n)[j].id
    decreases n
  {
    if n > 1 {
      RuleRowsSpec(rs, deviceId, activeOnly, n - 1);
      var p, r := RuleRows(rs, deviceId, activeOnly, n - 1), RuleRows(rs, deviceId, activeOnly, n);
      forall i, j | 0 <= i < j < |r| ensures r[i].id < r[j].id {
        assert r[i] == p[i] && r[i] in p;
        if j < |p| {
          assert r[j] == p[j];
        } else {
          assert |r| > |p| && r[j] == rs[n - 1];
        }
      }
    }
  }

  // ---------------------------------------------------------------- status updates

  /** One call of the status update: the device, the new status and the optional runtime fields. */
  datatype StatusUpdate = StatusUpdate(deviceId: int, status: Status, iface: Option<string>, ifb: Option<string>, err: Option<string>)

  /** The effect of one status update on the device table; an unknown id changes nothing. */
  function ApplyUpdate(ds: map<int, Device>, u: StatusUpdate): map<int, Device> {
    if u.deviceId in ds then ds[u.deviceId := WithStatus(ds[u.deviceId], u.status, u.iface, u.ifb, u.err)] else ds
  }

  /** The effect of a sequence of status updates, applied in order. */
  function ApplyUpdates(ds: map<int, Device>, us: seq<StatusUpdate>): map<int, Device>
    decreases |us|
  {
    if us == [] then ds else ApplyUpdate(ApplyUpdates(ds, us[..|us| - 1]), us[|us| - 1])
  }

  /**
   * Status updates never add or remove devices, never touch the fields fixed
   * at creation, and never clear a runtime interface or IFB name once set.
   */
  lemma {:induction false} ApplyUpdatesPreserves(ds: map<int, Device>, us: seq<StatusUpdate>)
    ensures ApplyUpdates(ds, us).Keys == ds.Keys
    ensures forall id :: id in ds ==>
      var e := ApplyUpdates(ds, us)[id];
      && e.id == ds[id].id && e.clusterId == ds[id].clusterId && e.name == ds[id].name
      && e.networkName == ds[id].networkName && e.containerName == ds[id].containerName
      && e.networkSubnet == ds[id].networkSubnet && e.ipAddress == ds[id].ipAddress && e.routerIp == ds[id].routerIp
      && (ds[id].interfaceName.Some? ==> e.interfaceName.Some?)
      && (ds[id].ifbDevice.Some? ==> e.ifbDevice.Some?)
    decreases |us|
  {
    if us != [] {
      ApplyUpdatesPreserves(ds, us[..|us| - 1]);
    }
  }

  /** Applying a concatenation of update logs is applying one after the other. */
  lemma {:induction false} ApplyUpdatesAppend(ds: map<int, Device>, us: seq<StatusUpdate>, vs: seq<StatusUpdate>)
    ensures ApplyUpdates(ds, us + vs) == ApplyUpdates(ApplyUpdates(ds, us), vs)
    decreases |vs|
  {
    if vs != [] {
      assert (us + vs)[..|us + vs| - 1] == us + vs[..|vs| - 1];
      ApplyUpdatesAppend(ds, us, vs[..|vs| - 1]);
    } else {
      assert us + vs == us;
    }
  }

  // ---------------------------------------------------------------- subnet allocation

  /** The second dotted component of a subnet as `int()` reads it, or None where `int()` raises. */
  function SubnetOctet(subnet: string): Option<int> {
    var parts := SplitOn(subnet, '.');
    if |parts| >= 2 then ParseInt(parts[1]) else None
  }

  /** The subnet handed out for an octet. */
  function SubnetFor(octet: nat): string {
    "10." + NatToString(octet) + ".0.0/24"
  }

  /** The allocator reads back the octet it wrote into a subnet. */
  lemma SubnetForOctet(o: nat)
    ensures SubnetOctet(SubnetFor(o)) == Some(o)
  {
    var n := NatToString(o);
    assert SubnetFor(o) == "10" + ['.'] + (n + ['.'] + "0.0/24");
    assert forall i :: 0 <= i < |"10"| ==> "10"[i] != '.';
    SplitOnField("10", '.', n + ['.'] + "0.0/24");
    SplitOnField(n, '.', "0.0/24");
    ParseIntOfNat(o);
  }

  /** The values present among some optional values. */
  function Present(xs: seq<Option<int>>): set<int>
    decreases |xs|
  {
    if xs == [] then {}
    else Present(xs[..|xs| - 1]) + (if xs[|xs| - 1].Some? then {xs[|xs| - 1].value} else {})
  }

  /** A value is present exactly when some entry holds it. */
  lemma {:induction false} PresentSpec(xs: seq<Option<int>>, o: int)
    ensures o in Present(xs) <==> exists k :: 0 <= k < |xs| && xs[k] == Some(o)
    decreases |xs|
  {
    if xs != [] {
      var init := xs[..|xs| - 1];
      PresentSpec(init, o);
      assert forall k :: 0 <= k < |init| ==> init[k] == xs[k];
    }
  }

  /** The octet each device of a list carries, in order. */
  function OctetList(ds: seq<Device>): (os: seq<Option<int>>)
    ensures |os| == |ds|
  {
    seq(|ds|, k requires 0 <= k < |ds| => SubnetOctet(ds[k].networkSubnet))
  }

  /** Octets readable from the subnets of a list of devices. */
  function OctetsIn(ds: seq<Device>): set<int> {
    Present(OctetList(ds))
  }

  /** An octet is read from a list exactly when some device of the list carries it. */
  lemma OctetsInSpec(ds: seq<Device>, o: int)
    ensures o in OctetsIn(ds) <==> exists k :: 0 <= k < |ds| && SubnetOctet(ds[k].networkSubnet) == Some(o)
  {
    var os := OctetList(ds);
    PresentSpec(os, o);
    assert forall k :: 0 <= k < |ds| ==> os[k] == SubnetOctet(ds[k].networkSubnet);
  }

  /** An octet is in use when some stored device's subnet carries it. */
  ghost predicate OctetUsed(ds: map<int, Device>, o: int) {
    exists id :: id in ds && SubnetOctet(ds[id].networkSubnet) == Some(o)
  }

  /** Reading the octets off a listing of every stored device finds exactly the octets in use. */
  lemma ListedOctetUsed(ds: map<int, Device>, all: seq<Device>, o: int)
    requires forall d :: d in all <==> d.id in ds && ds[d.id] == d
    requires forall id :: id in ds ==> ds[id].id == id
    ensures o in OctetsIn(all) <==> OctetUsed(ds, o)
  {
    OctetsInSpec(all, o);
    if OctetUsed(ds, o) {
      var id :| id in ds && SubnetOctet(ds[id].networkSubnet) == Some(o);
      assert ds[id] in all;
      var k :| 0 <= k < |all| && all[k] == ds[id];
    }
    if o in OctetsIn(all) {
      var k :| 0 <= k < |all| && SubnetOctet(all[k].networkSubnet) == Some(o);
      assert all[k] in all;
    }
  }

  /** Reads the second dotted component of one subnet; None where `int()` would raise. */
  method ReadOctet(subnet: string) returns (v: Option<int>)
    ensures v == SubnetOctet(subnet)
  {
    var parts := SplitOn(subnet, '.');
    v := if |parts| >= 2 then ParseInt(parts[1]) else None;
  }

  /** Collects the octets of a device listing, skipping subnets whose component `int()` rejects. */
  method CollectOctets(all: seq<Device>) returns (used: set<int>)
    ensures used == OctetsIn(all)
  {
    used := {};
    for k := 0 to |all|
      invariant used == Present(OctetList(all)[..k])
    {
      assert OctetList(all)[..k + 1][..k] == OctetList(all)[..k];
      var v := ReadOctet(all[k].networkSubnet);
      if v.Some? {
        used := used + {v.value};
      }
    }
    assert OctetList(all)[..|all|] == OctetList(all);
  }

  /** The first octet from 1 up that is not used, or 255 when 1..254 are all used. */
  method FirstFreeOctet(used: set<int>) returns (octet: int)
    ensures 1 <= octet <= 255
    ensures octet < 255 ==> octet !in used
    ensures forall o :: 1 <= o < octet ==> o in used
  {
    octet := 1;
    while octet < 255 && octet in used
      invariant 1 <= octet <= 255
      invariant forall o :: 1 <= o < octet ==> o in used
    {
      octet := octet + 1;
    }
  }

  /** A device holding an allocated subnet marks its octet as used, so the allocator never hands it out twice. */
  lemma AllocatedOctetIsUsed(ds: map<int, Device>, id: int, o: nat)
    requires id in ds && ds[id].networkSubnet == SubnetFor(o)
    ensures OctetUsed(ds, o)
  {
    SubnetForOctet(o);
  }

  /** Listing clusters in reverse id order keeps the same clusters, newest first. */
  lemma NewestFirst(asc: seq<Cluster>, r: seq<Cluster>)
    requires |r| == |asc| && forall k :: 0 <= k < |r| ==> r[k] == asc[|asc| - 1 - k]
    requires forall i, j :: 0 <= i < j < |asc| ==> asc[i].id < asc[j].id
    ensures forall c :: c in r <==> c in asc
    ensures forall i, j :: 0 <= i < j < |r| ==> r[i].id > r[j].id
  {
    forall c ensures c in r <==> c in asc {
      if c in asc {
        var k :| 0 <= k < |asc| && asc[k] == c;
        assert r[|asc| - 1 - k] == c;
      }
    }
    forall i, j | 0 <= i < j < |r| ensures r[i].id > r[j].id {
      assert r[i] == asc[|asc| - 1 - i] && r[j] == asc[|asc| - 1 - j];
    }
  }

  /** The devices listed for the active clusters are exactly the stored devices whose cluster is active. */
  lemma ActiveClusterDevices(cs: map<int, Cluster>, ds: map<int, Device>, nextCluster: int, nextDevice: int)
    requires ClustersKeyed(cs, nextCluster) && DevicesKeyed(ds, cs, nextDevice)
    ensures forall d :: d in DevicesOfClusters(ds, ClusterRows(cs, true, nextCluster), nextDevice) <==>
      d.id in ds && ds[d.id] == d && cs[d.clusterId].active
  {
    var active := ClusterRows(cs, true, nextCluster);
    ClusterRowsSpec(cs, true, nextCluster);
    DevicesOfClustersSpec(ds, active, nextDevice);
    forall d: Device | d.id in ds && ds[d.id] == d
      ensures d in DevicesOfClusters(ds, active, nextDevice) <==> cs[d.clusterId].active
    {
      if cs[d.clusterId].active {
        assert cs[d.clusterId] in active;
        var k :| 0 <= k < |active| && active[k] == cs[d.clusterId];
      }
    }
  }

  // ---------------------------------------------------------------- the service

  class DatabaseService {
    var clusters: map<int, Cluster>
    var devices: map<int, Device>
    var rules: map<int, TrafficRule>
    var nextClusterId: int
    var nextDeviceId: int
    var nextRuleId: int
    /** Every status update issued, in order. */
    ghost var updates: seq<StatusUpdate>

    ghost predicate Valid()
      reads this
    {
      && ClustersKeyed(clusters, nextClusterId)
      && DevicesKeyed(devices, clusters, nextDeviceId)
      && RulesKeyed(rules, devices, nextRuleId)
      && UniqueClusterNames(clusters)
      && UniqueDeviceKeys(devices)
      && nextClusterId >= 1 && nextDeviceId >= 1 && nextRuleId >= 1
    }

    constructor ()
      ensures Valid()
      ensures clusters == map[] && devices == map[] && rules == map[] && updates == []
    {
      clusters, devices, rules := map[], map[], map[];
      nextClusterId, nextDeviceId, nextRuleId := 1, 1, 1;
      updates := [];
    }

    // ------------------------------------------------------------ clusters

    /** Adds a cluster under a fresh id, unless its name is taken. */
    method CreateCluster(name: string, description: string := "", active: bool := false) returns (r: Result<Cluster, DbError>)
      requires Valid()
      modifies this
      ensures Valid()
      ensures r.Failure? <==> exists id :: id in old(clusters) && old(clusters)[id].name == name
      ensures r.Failure? ==> r.error == ClusterNameTaken(name) && clusters == old(clusters)
      ensures r.Success? ==>
        && r.value == Cluster(old(nextClusterId), name, description, active)
        && r.value.id !in old(clusters)
        && clusters == old(clusters)[r.value.id := r.value]
      ensures devices == old(devices) && rules == old(rules) && updates == old(updates)
    {
      if exists id :: id in clusters && clusters[id].name == name {
        r := Failure(ClusterNameTaken(name));
      } else {
        var c := Cluster(nextClusterId, name, description, active);
        clusters := clusters[c.id := c];
        nextClusterId := nextClusterId + 1;
        r := Success(c);
      }
    }

    function GetCluster(id: int): (r: Option<Cluster>)
      reads this
      requires Valid()
      ensures r.Some? <==> id in clusters
      ensures r.Some? ==> r.value.id == id && r.value == clusters[id]
    {
      if id in clusters then Some(clusters[id]) else None
    }

    /** The cluster holding a name; names are unique, so there is at most one. */
    method GetClusterByName(name: string) returns (r: Option<Cluster>)
      requires Valid()
      ensures r.Some? <==> exists id :: id in clusters && clusters[id].name == name
      ensures r.Some? ==> r.value.name == name && r.value.id in clusters && clusters[r.value.id] == r.value
      ensures forall id :: id in clusters && clusters[id].name == name ==> r == Some(clusters[id])
    {
      if exists id :: id in clusters && clusters[id].name == name {
        var id :| id in clusters && clusters[id].name == name;
        r := Some(clusters[id]);
      } else {
        r := None;
      }
    }

    /** The clusters in id order, optionally only the active ones. */
    method QueryClusters(activeOnly: bool) returns (r: seq<Cluster>)
      requires Valid()
      ensures r == ClusterRows(clusters, activeOnly, nextClusterId)
      ensures forall c :: c in r <==> c.id in clusters && clusters[c.id] == c && (c.active || !activeOnly)
      ensures forall i, j :: 0 <= i < j < |r| ==> r[i].id < r[j].id
    {
      r := [];
      var i := 1;
      while i < nextClusterId
        invariant 1 <= i <= nextClusterId
        invariant r == ClusterRows(clusters, activeOnly, i)
      {
        if i in clusters && (clusters[i].active || !activeOnly) {
          r := r + [clusters[i]];
        }
        i := i + 1;
      }
      ClusterRowsSpec(clusters, activeOnly, nextClusterId);
    }

    /** All clusters, or the active ones, newest first. */
    method ListClusters(activeOnly: bool := false) returns (r: seq<Cluster>)
      requires Valid()
      ensures var asc := ClusterRows(clusters, activeOnly, nextClusterId);
        |r| == |asc| && forall k :: 0 <= k < |r| ==> r[k] == asc[|asc| - 1 - k]
      ensures forall c :: c in r <==> c.id in clusters && clusters[c.id] == c && (c.active || !activeOnly)
      ensures forall i, j :: 0 <= i < j < |r| ==> r[i].id > r[j].id
    {
      var asc := QueryClusters(activeOnly);
      r := seq(|asc|, k requires 0 <= k < |asc| => asc[|asc| - 1 - k]);
      NewestFirst(asc, r);
      forall c ensures c in r <==> c.id in clusters && clusters[c.id] == c && (c.active || !activeOnly) {
        assert c in r <==> c in asc;
      }
    }

    /** The active clusters in id order. */
    method GetActiveClusters() returns (r: seq<Cluster>)
      requires Valid()
      ensures r == ClusterRows(clusters, true, nextClusterId)
      ensures forall c :: c in r <==> c.id in clusters && clusters[c.id] == c && c.active
      ensures forall i, j :: 0 <= i < j < |r| ==> r[i].id < r[j].id
    {
      r := QueryClusters(true);
    }

    /**
     * Renames a cluster and/or changes its description; an argument left out
     * keeps the stored value. A name held by another cluster is refused.
     */
    method UpdateCluster(id: int, name: Option<string> := None, description: Option<string> := None) returns (r: Result<bool, DbError>)
      requires Valid()
      modifies this
      ensures Valid()
      ensures r == Success(false) <==> id !in old(clusters)
      ensures r.Failure? <==>
        id in old(clusters) && name.Some? && exists o :: o in old(clusters) && o != id && old(clusters)[o].name == name.value
      ensures r.Failure? ==> r.error == ClusterNameTaken(name.value)
      ensures r == Success(true) ==>
        clusters == old(clusters)[id := old(clusters)[id].(name := Overwrite(old(clusters)[id].name, name),
                                                          description := Overwrite(old(clusters)[id].description, description))]
      ensures r != Success(true) ==> clusters == old(clusters)
      ensures devices == old(devices) && rules == old(rules) && updates == old(updates)
    {
      if id !in clusters {
        return Success(false);
      }
      if name.Some? && exists o :: o in clusters && o != id && clusters[o].name == name.value {
        return Failure(ClusterNameTaken(name.value));
      }
      var c := clusters[id];
      clusters := clusters[id := c.(name := Overwrite(c.name, name), description := Overwrite(c.description, description))];
      r := Success(true);
    }

    /** Sets the active flag of one cluster; no other cluster changes. */
    method SetActive(id: int, active: bool) returns (ok: bool)
      requires Valid()
      modifies this
      ensures Valid()
      ensures ok <==> id in old(clusters)
      ensures ok ==> clusters == old(clusters)[id := old(clusters)[id].(active := active)]
      ensures !ok ==> clusters == old(clusters)
      ensures devices == old(devices) && rules == old(rules) && updates == old(updates)
    {
      ok := id in clusters;
      if ok {
        clusters := clusters[id := clusters[id].(active := active)];
      }
    }

    /** Activates one cluster without deactivating the others. */
    method ActivateCluster(id: int) returns (ok: bool)
      requires Valid()
      modifies this
      ensures Valid()
      ensures ok <==> id in old(clusters)
      ensures ok ==> clusters == old(clusters)[id := old(clusters)[id].(active := true)]
      ensures !ok ==> clusters == old(clusters)
      ensures devices == old(devices) && rules == old(rules) && updates == old(updates)
    {
      ok := SetActive(id, true);
    }

    method DeactivateCluster(id: int) returns (ok: bool)
      requires Valid()
      modifies this
      ensures Valid()
      ensures ok <==> id in old(clusters)
      ensures ok ==> clusters == old(clusters)[id := old(clusters)[id].(active := false)]
      ensures !ok ==> clusters == old(clusters)
      ensures devices == old(devices) && rules == old(rules) && updates == old(updates)
    {
      ok := SetActive(id, false);
    }

    /** Deletes a cluster together with its devices and their traffic rules. */
    method DeleteCluster(id: int) returns (ok: bool)
      requires Valid()
      modifies this
      ensures Valid()
      ensures ok <==> id in old(clusters)
      ensures ok ==> clusters == old(clusters) - {id}
      ensures ok ==> forall d :: d in devices <==> d in old(devices) && old(devices)[d].clusterId != id
      ensures ok ==> forall d :: d in devices ==> devices[d] == old(devices)[d]
      ensures ok ==> forall t :: t in rules <==> t in old(rules) && old(rules)[t].deviceId in devices
      ensures ok ==> forall t :: t in rules ==> rules[t] == old(rules)[t]
      ensures !ok ==> clusters == old(clusters) && devices == old(devices) && rules == old(rules)
      ensures updates == old(updates)
    {
      if id !in clusters {
        return false;
      }
      clusters := clusters - {id};
      devices := map d | d in devices && devices[d].clusterId != id :: devices[d];
      rules := map t | t in rules && rules[t].deviceId in devices :: rules[t];
      ok := true;
    }

    // ------------------------------------------------------------ devices

    /**
     * Adds a device to a cluster with status `Stopped` and the given network
     * settings. A missing cluster, a name already used in that cluster, or a
     * network or container name used by any device is refused.
     */
    method CreateDevice(clusterId: int, name: string, deviceType: string, cfg: NetworkConfig) returns (r: Result<Device, DbError>)
      requires Valid()
      modifies this
      ensures Valid()
      ensures clusterId !in old(clusters) ==> r == Failure(ClusterNotFound(clusterId))
      ensures clusterId in old(clusters) && NameInCluster(old(devices), clusterId, name) ==>
        r == Failure(DeviceNameTaken(name, old(clusters)[clusterId].name))
      ensures r.Success? <==>
        && clusterId in old(clusters)
        && !NameInCluster(old(devices), clusterId, name)
        && !NetworkTaken(old(devices), cfg.networkName)
        && !ContainerTaken(old(devices), cfg.containerName)
      ensures r.Success? ==>
        && r.value == NewDevice(old(nextDeviceId), clusterId, name, deviceType, cfg)
        && r.value.id !in old(devices)
        && devices == old(devices)[r.value.id := r.value]
      ensures r.Failure? ==> devices == old(devices)
      ensures clusters == old(clusters) && rules == old(rules) && updates == old(updates)
    {
      if clusterId !in clusters {
        return Failure(ClusterNotFound(clusterId));
      }
      if NameInCluster(devices, clusterId, name) {
        return Failure(DeviceNameTaken(name, clusters[clusterId].name));
      }
      if NetworkTaken(devices, cfg.networkName) {
        return Failure(UniqueViolation("network_name"));
      }
      if ContainerTaken(devices, cfg.containerName) {
        return Failure(UniqueViolation("container_name"));
      }
      var dev := NewDevice(nextDeviceId, clusterId, name, deviceType, cfg);
      AddDeviceKeepsUnique(devices, dev);
      devices := devices[dev.id := dev];
      nextDeviceId := nextDeviceId + 1;
      r := Success(dev);
    }

    function GetDevice(id: int): (r: Option<Device>)
      reads this
      requires Valid()
      ensures r.Some? <==> id in devices
      ensures r.Some? ==> r.value.id == id && r.value == devices[id]
    {
      if id in devices then Some(devices[id]) else None
    }

    /** The device owning a container name; container names are unique, so there is at most one. */
    method GetDeviceByContainerName(containerName: string) returns (r: Option<Device>)
      requires Valid()
      ensures r.Some? <==> exists id :: id in devices && devices[id].containerName == containerName
      ensures r.Some? ==> r.value.containerName == containerName && r.value.id in devices && devices[r.value.id] == r.value
      ensures forall id :: id in devices && devices[id].containerName == containerName ==> r == Some(devices[id])
    {
      if exists id :: id in devices && devices[id].containerName == containerName {
        var id :| id in devices && devices[id].containerName == containerName;
        r := Some(devices[id]);
      } else {
        r := None;
      }
    }

    /** Lists the devices a query selects, in id order. */
    method QueryDevices(q: DeviceQuery) returns (r: seq<Device>)
      requires Valid()
      ensures r == DeviceRows(devices, q, nextDeviceId)
      ensures forall d :: d in r <==> d.id in devices && devices[d.id] == d && Selects(q, d)
      ensures forall i, j :: 0 <= i < j < |r| ==> r[i].id < r[j].id
    {
      r := [];
      var i := 1;
      while i < nextDeviceId
        invariant 1 <= i <= nextDeviceId
        invariant r == DeviceRows(devices, q, i)
      {
        if i in devices && Selects(q, devices[i]) {
          r := r + [devices[i]];
        }
        i := i + 1;
      }
      DeviceRowsSpec(devices, q, nextDeviceId);
    }

    /** The devices of one cluster, oldest first. */
    method GetClusterDevices(clusterId: int) returns (r: seq<Device>)
      requires Valid()
      ensures r == DeviceRows(devices, InCluster(clusterId), nextDeviceId)
      ensures forall d :: d in r <==> d.id in devices && devices[d.id] == d && d.clusterId == clusterId
      ensures forall i, j :: 0 <= i < j < |r| ==> r[i].id < r[j].id
    {
      r := QueryDevices(InCluster(clusterId));
    }

    /** The devices of every active cluster: the clusters in id order, each cluster's devices in id order. */
    method GetAllActiveClusterDevices() returns (r: seq<Device>)
      requires Valid()
      ensures r == DevicesOfClusters(devices, ClusterRows(clusters, true, nextClusterId), nextDeviceId)
      ensures forall d :: d in r <==> d.id in devices && devices[d.id] == d && clusters[d.clusterId].active
    {
      var active := GetActiveClusters();
      r := [];
      for k := 0 to |active|
        invariant r == DevicesOfClusters(devices, active[..k], nextDeviceId)
      {
        var part := GetClusterDevices(active[k].id);
        assert active[..k + 1][..k] == active[..k];
        r := r + part;
      }
      assert active[..|active|] == active;
      ActiveClusterDevices(clusters, devices, nextClusterId, nextDeviceId);
    }

    /** The devices whose status is `Running`, in id order. */
    method GetRunningDevices() returns (r: seq<Device>)
      requires Valid()
      ensures r == DeviceRows(devices, InStatus(Running), nextDeviceId)
      ensures forall d :: d in r <==> d.id in devices && devices[d.id] == d && d.status == Running
    {
      r := QueryDevices(InStatus(Running));
    }

    /**
     * Writes a device's status; the interface, IFB device and error message
     * are written only when given, so a missing argument never clears them.
     */
    method UpdateDeviceStatus(id: int, status: Status, iface: Option<string> := None, ifb: Option<string> := None, err: Option<string> := None)
      returns (ok: bool)
      requires Valid()
      modifies this
      ensures Valid()
      ensures ok <==> id in old(devices)
      ensures devices == ApplyUpdate(old(devices), StatusUpdate(id, status, iface, ifb, err))
      ensures ok ==> devices[id] == WithStatus(old(devices)[id], status, iface, ifb, err)
      ensures updates == old(updates) + [StatusUpdate(id, status, iface, ifb, err)]
      ensures clusters == old(clusters) && rules == old(rules) && nextDeviceId == old(nextDeviceId) && nextClusterId == old(nextClusterId) && nextRuleId == old(nextRuleId)
    {
      ok := id in devices;
      if ok {
        devices := devices[id := WithStatus(devices[id], status, iface, ifb, err)];
      }
      updates := updates + [StatusUpdate(id, status, iface, ifb, err)];
    }

    /** Deletes a device together with its traffic rules. */
    method DeleteDevice(id: int) returns (ok: bool)
      requires Valid()
      modifies this
      ensures Valid()
      ensures ok <==> id in old(devices)
      ensures ok ==> devices == old(devices) - {id}
      ensures ok ==> forall t :: t in rules <==> t in old(rules) && old(rules)[t].deviceId != id
      ensures ok ==> forall t :: t in rules ==> rules[t] == old(rules)[t]
      ensures !ok ==> devices == old(devices) && rules == old(rules)
      ensures clusters == old(clusters) && updates == old(updates)
    {
      if id !in devices {
        return false;
      }
      devices := devices - {id};
      rules := map t | t in rules && rules[t].deviceId != id :: rules[t];
      ok := true;
    }

    /**
     * The smallest octet in 1..254 that no device's subnet uses as its second
     * dotted component, with its subnet; the cluster plays no part.
     */
    method GetNextAvailableNetwork(clusterId: int) returns (r: Result<(int, string), DbError>)
      requires Valid()
      ensures r.Success? ==>
        && 1 <= r.value.0 <= 254
        && !OctetUsed(devices, r.value.0)
        && (forall o :: 1 <= o < r.value.0 ==> OctetUsed(devices, o))
        && r.value.1 == SubnetFor(r.value.0)
      ensures r.Failure? <==> forall o :: 1 <= o <= 254 ==> OctetUsed(devices, o)
      ensures r.Failure? ==> r.error == NoFreeSubnet
    {
      var all := QueryDevices(AllDevices);
      var used := CollectOctets(all);
      forall o ensures o in used <==> OctetUsed(devices, o) {
        ListedOctetUsed(devices, all, o);
      }
      var octet := FirstFreeOctet(used);
      if octet < 255 {
        r := Success((octet, "10." + NatToString(octet) + ".0.0/24"));
      } else {
        r := Failure(NoFreeSubnet);
      }
    }

    // ------------------------------------------------------------ traffic rules

    /** Adds an active traffic rule to an existing device. */
    method CreateTrafficRule(deviceId: int, downstreamRate: Option<string> := None, downstreamCeil: Option<string> := None,
                             upstreamRate: Option<string> := None, upstreamCeil: Option<string> := None, description: string := "")
      returns (r: Result<TrafficRule, DbError>)
      requires Valid()
      modifies this
      ensures Valid()
      ensures r.Failure? <==> deviceId !in old(devices)
      ensures r.Failure? ==> r.error == DeviceNotFound(deviceId) && rules == old(rules)
      ensures r.Success? ==>
        && r.value == TrafficRule(old(nextRuleId), deviceId, downstreamRate, downstreamCeil, upstreamRate, upstreamCeil, true, description)
        && r.value.id !in old(rules)
        && rules == old(rules)[r.value.id := r.value]
      ensures clusters == old(clusters) && devices == old(devices) && updates == old(updates)
    {
      if deviceId !in devices {
        return Failure(DeviceNotFound(deviceId));
      }
      var t := TrafficRule(nextRuleId, deviceId, downstreamRate, downstreamCeil, upstreamRate, upstreamCeil, true, description);
      rules := rules[t.id := t];
      nextRuleId := nextRuleId + 1;
      r := Success(t);
    }

    /** The rules of one device in id order, by default only the active ones. */
    method GetDeviceTrafficRules(deviceId: int, activeOnly: bool := true) returns (r: seq<TrafficRule>)
      requires Valid()
      ensures r == RuleRows(rules, deviceId, activeOnly, nextRuleId)
      ensures forall t :: t in r <==> t.id in rules && rules[t.id] == t && t.deviceId == deviceId && (t.active || !activeOnly)
      ensures forall i, j :: 0 <= i < j < |r| ==> r[i].id < r[j].id
    {
      r := [];
      var i := 1;
      while i < nextRuleId
        invariant 1 <= i <= nextRuleId
        invariant r == RuleRows(rules, deviceId, activeOnly, i)
      {
        if i in rules && rules[i].deviceId == deviceId && (rules[i].active || !activeOnly) {
          r := r + [rules[i]];
        }
        i := i + 1;
      }
      RuleRowsSpec(rules, deviceId, activeOnly, nextRuleId);
    }

    /** Replaces the given rates and active flag of a rule; arguments left out keep the stored values. */
    method UpdateTrafficRule(ruleId: int, downstreamRate: Option<string> := None, downstreamCeil: Option<string> := None,
                             upstreamRate: Option<string> := None, upstreamCeil: Option<string> := None, active: Option<bool> := None)
      returns (ok: bool)
      requires Valid()
      modifies this
      ensures Valid()
      ensures ok <==> ruleId in old(rules)
      ensures ok ==> rules == old(rules)[ruleId := PatchRule(old(rules)[ruleId], downstreamRate, downstreamCeil, upstreamRate, upstreamCeil, active)]
      ensures !ok ==> rules == old(rules)
      ensures clusters == old(clusters) && devices == old(devices) && updates == old(updates)
    {
      ok := ruleId in rules;
      if ok {
        rules := rules[ruleId := PatchRule(rules[ruleId], downstreamRate, downstreamCeil, upstreamRate, upstreamCeil, active)];
      }
    }

    method DeleteTrafficRule(ruleId: int) returns (ok: bool)
      requires Valid()
      modifies this
      ensures Valid()
      ensures ok <==> ruleId in old(rules)
      ensures rules == old(rules) - {ruleId}
      ensures clusters == old(clusters) && devices == old(devices) && updates == old(updates)
    {
      ok := ruleId in rules;
      rules := rules - {ruleId};
    }
  }
}
