/**
 * The reconciler: it compares the devices the record store wants running
 * with the managed containers the runtime reports, then destroys the
 * containers nobody wants, creates the missing ones and refreshes the kept
 * ones, recording every device's status transitions in the store and every
 * outcome in a sync result. The work the source hands to a thread pool runs
 * here one item after the other, in sorted name order.
 */
module Reconciler {
  import opened Wrappers
  import opened Text
  import opened Records
  import opened Store
  import opened Driver

  // ---------------------------------------------------------------- results

  /** Why one item of a sync failed, with the text the result reports. */
  datatype SyncError =
    | ClusterMissing(clusterId: int)
    | DestroyFailed(name: string, message: string)
    | OrphanFailed(name: string, message: string)
    | CreateFailed(name: string, message: string)
  {
    function Text(): string {
      match this
      case ClusterMissing(id) => "Cluster " + IntToString(id) + " not found"
      case DestroyFailed(name, m) => "Destroy " + name + ": " + m
      case OrphanFailed(name, m) => "Orphaned " + name + ": " + m
      case CreateFailed(name, m) => "Create " + name + ": " + m
    }

    /** The error reports on container `n`. */
    predicate About(n: string) {
      !ClusterMissing? && name == n
    }
  }

  /** What a sync did: container names per outcome, and the errors. */
  datatype SyncResult = SyncResult(
    created: seq<string>,
    destroyed: seq<string>,
    kept: seq<string>,
    errors: seq<SyncError>,
    updated: seq<string>)

  const EmptyResult := SyncResult([], [], [], [], [])

  /** The dictionary a sync result is reported as. */
  datatype SyncSummary = SyncSummary(
    created: seq<string>,
    destroyed: seq<string>,
    kept: seq<string>,
    updated: seq<string>,
    errors: seq<string>,
    totalOperations: int,
    successCount: int,
    errorCount: int)

  function ErrorTexts(errors: seq<SyncError>): (texts: seq<string>)
    ensures |texts| == |errors|
  {
    seq(|errors|, i requires 0 <= i < |errors| => errors[i].Text())
  }

  /** The summary as the source computes it: failures are subtracted from a count of successes. */
  function ToDictAsWritten(r: SyncResult): (s: SyncSummary)
    ensures s.created == r.created && s.destroyed == r.destroyed && s.kept == r.kept && s.updated == r.updated
    ensures |s.errors| == |r.errors| == s.errorCount
    ensures s.successCount == ToDict(r).successCount - s.errorCount
    ensures s.successCount < 0 <==> |r.errors| > |r.created| + |r.destroyed|
  {
    SyncSummary(r.created, r.destroyed, r.kept, r.updated, ErrorTexts(r.errors),
      |r.created| + |r.destroyed|, |r.created| + |r.destroyed| - |r.errors|, |r.errors|)
  }

  /** The summary with the success count meaning what it says: the operations that succeeded. */
  function ToDict(r: SyncResult): (s: SyncSummary)
    ensures s.created == r.created && s.destroyed == r.destroyed && s.kept == r.kept && s.updated == r.updated
    ensures |s.errors| == |r.errors| == s.errorCount
    ensures s.successCount + s.errorCount == |r.created| + |r.destroyed| + |r.errors|
    ensures s.successCount >= 0 && s.errorCount >= 0
  {
    SyncSummary(r.created, r.destroyed, r.kept, r.updated, ErrorTexts(r.errors),
      |r.created| + |r.destroyed|, |r.created| + |r.destroyed|, |r.errors|)
  }

  /** Two results, list by list, one after the other. */
  function Append(a: SyncResult, b: SyncResult): SyncResult {
    SyncResult(a.created + b.created, a.destroyed + b.destroyed, a.kept + b.kept, a.errors + b.errors, a.updated + b.updated)
  }

  /** The results of several syncs combined in order. */
  function Combine(parts: seq<SyncResult>): SyncResult {
    if parts == [] then EmptyResult else Append(Combine(parts[..|parts| - 1]), parts[|parts| - 1])
  }

  function SumOperations(parts: seq<SyncResult>): int {
    if parts == [] then 0 else SumOperations(parts[..|parts| - 1]) + ToDict(parts[|parts| - 1]).totalOperations
  }

  function SumErrors(parts: seq<SyncResult>): int {
    if parts == [] then 0 else SumErrors(parts[..|parts| - 1]) + ToDict(parts[|parts| - 1]).errorCount
  }

  /** The counts of a combined result are the sums of the parts' counts. */
  lemma {:induction false} CombineCounts(parts: seq<SyncResult>)
    ensures ToDict(Combine(parts)).totalOperations == SumOperations(parts)
    ensures ToDict(Combine(parts)).errorCount == SumErrors(parts)
    ensures ToDict(Combine(parts)).successCount == SumOperations(parts)
  {
    if parts != [] {
      CombineCounts(parts[..|parts| - 1]);
    }
  }

  // ---------------------------------------------------------------- the plan

  /** The three sorted name lists a sync works through. */
  datatype SyncPreview = SyncPreview(toCreate: seq<string>, toDestroy: seq<string>, toKeep: seq<string>)

  datatype PreviewSummary = PreviewSummary(toCreate: seq<string>, toDestroy: seq<string>, toKeep: seq<string>, totalChanges: int)

  /** The preview as reported: the three lists, and the number of containers to create or destroy (kept ones are not changes). */
  function PreviewToDict(p: SyncPreview): (s: PreviewSummary)
    ensures s.toCreate == p.toCreate && s.toDestroy == p.toDestroy && s.toKeep == p.toKeep
    ensures s.totalChanges == 0 <==> p.toCreate == [] && p.toDestroy == []
    ensures |p.toCreate| <= s.totalChanges && |p.toDestroy| <= s.totalChanges
  {
    PreviewSummary(p.toCreate, p.toDestroy, p.toKeep, |p.toCreate| + |p.toDestroy|)
  }

  const EmptyPreview := SyncPreview([], [], [])

  /** The plan for a desired and a running name set: what to create, destroy and keep, each sorted. */
  ghost predicate PreviewOf(p: SyncPreview, desired: set<string>, running: set<string>) {
    && SortedListOf(p.toCreate, desired - running)
    && SortedListOf(p.toDestroy, running - desired)
    && SortedListOf(p.toKeep, desired * running)
  }

  /**
   * The three lists are sorted, pairwise disjoint, together cover exactly
   * the desired and running names, and the change count is the size of the
   * two differences.
   */
  lemma PreviewPartition(p: SyncPreview, desired: set<string>, running: set<string>)
    requires PreviewOf(p, desired, running)
    ensures StrictlySorted(p.toCreate) && StrictlySorted(p.toDestroy) && StrictlySorted(p.toKeep)
    ensures forall n :: n in p.toCreate ==> n !in p.toDestroy && n !in p.toKeep
    ensures forall n :: n in p.toDestroy ==> n !in p.toKeep
    ensures forall n :: (n in p.toCreate || n in p.toDestroy || n in p.toKeep) <==> n in desired + running
    ensures PreviewToDict(p).totalChanges == |desired - running| + |running - desired|
  {
    SortedListSize(p.toCreate, desired - running);
    SortedListSize(p.toDestroy, running - desired);
  }

  /** The container names of the devices of one cluster. */
  ghost function ClusterContainerNames(ds: map<int, Device>, clusterId: int): set<string> {
    set id | id in ds && ds[id].clusterId == clusterId :: ds[id].containerName
  }

  /** The container names of the devices of every active cluster. */
  ghost function ActiveContainerNames(cs: map<int, Cluster>, ds: map<int, Device>): set<string> {
    set id | id in ds && ds[id].clusterId in cs && cs[ds[id].clusterId].active :: ds[id].containerName
  }

  /** A falsy cluster id (absent or 0) previews every active cluster. */
  predicate Falsy(clusterId: Option<int>) {
    clusterId.None? || clusterId.value == 0
  }

  /**
   * Syncing one cluster diffs against every running managed container: a
   * running container of a device in another cluster is planned for
   * destruction.
   */
  lemma ForeignContainerDestroyed(ds: map<int, Device>, clusterId: int, running: set<string>, id: int, p: SyncPreview)
    requires UniqueDeviceKeys(ds)
    requires PreviewOf(p, ClusterContainerNames(ds, clusterId), running)
    requires id in ds && ds[id].clusterId != clusterId && ds[id].containerName in running
    ensures ds[id].containerName in p.toDestroy
  {
  }

  // ---------------------------------------------------------------- the world a sync changes

  /** The store's device table, the runtime and the log of status updates. */
  datatype Sys = Sys(devices: map<int, Device>, rt: Runtime, updates: seq<StatusUpdate>)

  /** The system together with the result being built. */
  datatype World = World(sys: Sys, result: SyncResult)

  /** One status update, applied and logged. */
  function Update(s: Sys, u: StatusUpdate): Sys {
    s.(devices := ApplyUpdate(s.devices, u), updates := s.updates + [u])
  }

  /** The IFB name the reconciler records: `ifb` + the name without `eth`, or none when it has no `eth`. */
  function ReconcilerIfb(iface: string): Option<string> {
    if Contains(iface, "eth") then Some("ifb" + Replace(iface, "eth", "")) else None
  }

  /**
   * Destroying one recorded device: status `stopping`, the driver's destroy,
   * then `stopped` (the interface and IFB arguments are absent, so nothing
   * is cleared) or `error` with the driver's message.
   */
  function DestroySafe(s: Sys, d: Device, f: DestroyFaults): (Sys, Reply) {
    var s1 := Update(s, StatusUpdate(d.id, Stopping, None, None, None));
    var (rt2, errors) := DestroySpec(s1.rt, d, f);
    var reply := DestroyReply(errors);
    var s2 := s1.(rt := rt2);
    if reply.ok then (Update(s2, StatusUpdate(d.id, Stopped, None, None, None)), reply)
    else (Update(s2, StatusUpdate(d.id, Error, None, None, Some(reply.text))), reply)
  }

  /**
   * Creating one device: status `starting`, the driver's create, then
   * `running` with the interface and the reconciler's IFB name, or `error`
   * with the driver's message.
   */
  function CreateSafe(s: Sys, d: Device, env: CreateEnv): (Sys, Reply) {
    var s1 := Update(s, StatusUpdate(d.id, Starting, None, None, None));
    var (rt2, outcome) := CreateSpec(s1.rt, d, env);
    var reply := outcome.AsReply();
    var s2 := s1.(rt := rt2);
    if outcome.Created? then (Update(s2, StatusUpdate(d.id, Running, Some(outcome.iface), ReconcilerIfb(outcome.iface), None)), reply)
    else (Update(s2, StatusUpdate(d.id, Error, None, None, Some(reply.text))), reply)
  }

  /** The destroy of a recorded device goes `stopping`, then `stopped` or `error`; a successful one never clears the interface. */
  lemma DestroySafeTrail(s: Sys, d: Device, f: DestroyFaults)
    ensures var (s', reply) := DestroySafe(s, d, f);
      && reply.ok == (DestroySpec(s.rt, d, f).1 == [])
      && s'.updates == s.updates + [StatusUpdate(d.id, Stopping, None, None, None),
           if reply.ok then StatusUpdate(d.id, Stopped, None, None, None) else StatusUpdate(d.id, Error, None, None, Some(reply.text))]
      && s'.devices.Keys == s.devices.Keys
      && (d.id in s.devices ==>
            && s'.devices[d.id].status == (if reply.ok then Stopped else Error)
            && s'.devices[d.id].interfaceName == s.devices[d.id].interfaceName
            && s'.devices[d.id].ifbDevice == s.devices[d.id].ifbDevice)
  {
  }

  /** The create of a device goes `starting`, then `running` with its interface or `error`; success never clears an old error message. */
  lemma CreateSafeTrail(s: Sys, d: Device, env: CreateEnv)
    ensures var (s', reply) := CreateSafe(s, d, env);
      var outcome := CreateSpec(s.rt, d, env).1;
      && reply == outcome.AsReply()
      && |s'.updates| == |s.updates| + 2
      && s'.updates[..|s.updates| + 1] == s.updates + [StatusUpdate(d.id, Starting, None, None, None)]
      && s'.devices.Keys == s.devices.Keys
      && (d.id in s.devices ==>
            && s'.devices[d.id].status == (if outcome.Created? then Running else Error)
            && (outcome.Created? ==>
                  && s'.devices[d.id].interfaceName == Some(outcome.iface)
                  && s'.devices[d.id].ifbDevice ==
                     (if ReconcilerIfb(outcome.iface).Some? then ReconcilerIfb(outcome.iface) else s.devices[d.id].ifbDevice)
                  && s'.devices[d.id].errorMessage == s.devices[d.id].errorMessage)
            && (!outcome.Created? ==> s'.devices[d.id].errorMessage == Some(reply.text)))
      && (outcome.Created? ==>
            s'.updates[|s.updates| + 1] == StatusUpdate(d.id, Running, Some(outcome.iface), ReconcilerIfb(outcome.iface), None))
      && (!outcome.Created? ==>
            s'.updates[|s.updates| + 1] == StatusUpdate(d.id, Error, None, None, Some(reply.text)))
  {
  }

  // ---------------------------------------------------------------- phases as functions

  /** Appends a name to the destroyed list, or an error. */
  function NoteDestroy(r: SyncResult, name: string, reply: Reply): SyncResult {
    if reply.ok then r.(destroyed := r.destroyed + [name]) else r.(errors := r.errors + [DestroyFailed(name, reply.text)])
  }

  /** Appends a name to the created list, or an error. */
  function NoteCreate(r: SyncResult, name: string, reply: Reply): SyncResult {
    if reply.ok then r.(created := r.created + [name]) else r.(errors := r.errors + [CreateFailed(name, reply.text)])
  }

  /** The device owning a container name, when there is one. */
  ghost function DeviceNamed(ds: map<int, Device>, name: string): (r: Option<Device>)
    ensures r.Some? ==> r.value in ds.Values && r.value.containerName == name
    ensures r.None? ==> forall id :: id in ds ==> ds[id].containerName != name
  {
    if exists id :: id in ds && ds[id].containerName == name then
      var id :| id in ds && ds[id].containerName == name;
      Some(ds[id])
    else None
  }

  /** Splits the names to destroy into recorded devices and orphans, each in order. */
  ghost function Classify(ds: map<int, Device>, names: seq<string>): (seq<Device>, seq<string>) {
    if names == [] then ([], [])
    else
      var (known, orphans) := Classify(ds, names[..|names| - 1]);
      var name := names[|names| - 1];
      match DeviceNamed(ds, name)
      case Some(d) => (known + [d], orphans)
      case None => (known, orphans + [name])
  }

  /** Destroys the recorded devices one after the other. */
  function DestroyKnownPhase(w: World, known: seq<Device>, faults: string -> DestroyFaults): World {
    if known == [] then w
    else
      var w1 := DestroyKnownPhase(w, known[..|known| - 1], faults);
      var d := known[|known| - 1];
      var (s2, reply) := DestroySafe(w1.sys, d, faults(d.containerName));
      World(s2, NoteDestroy(w1.result, d.containerName, reply))
  }

  /** The error text the runtime gives for a container it does not know. */
  function NoSuchContainer(name: string): string {
    "No such container: " + name
  }

  /**
   * Removes one orphan; `fault` says whether stopping or removing it raises.
   * An orphan whose `remove()` raised is left stopped.
   */
  function OrphanStep(w: World, name: string, fault: Option<RemovalFault>): World {
    var (rt', removal) := RemoveContainerSpec(w.sys.rt, name, fault);
    match removal
    case Removed => World(w.sys.(rt := rt'), w.result.(destroyed := w.result.destroyed + [name]))
    case Absent => World(w.sys, w.result.(errors := w.result.errors + [OrphanFailed(name, NoSuchContainer(name))]))
    case Failed(m) => World(w.sys.(rt := rt'), w.result.(errors := w.result.errors + [OrphanFailed(name, m)]))
  }

  /** Removes the orphans one after the other; no status is written for them. */
  function OrphanPhase(w: World, orphans: seq<string>, faults: string -> Option<RemovalFault>): World {
    if orphans == [] then w
    else
      var w1 := OrphanPhase(w, orphans[..|orphans| - 1], faults);
      var name := orphans[|orphans| - 1];
      OrphanStep(w1, name, faults(name))
  }

  /** The device a container name stands for among the desired ones; a later device overwrites an earlier one. */
  function Lookup(desired: seq<Device>, name: string): (r: Option<Device>)
    ensures r.Some? ==> r.value in desired && r.value.containerName == name
    ensures r.None? ==> forall d :: d in desired ==> d.containerName != name
  {
    if desired == [] then None
    else if desired[|desired| - 1].containerName == name then Some(desired[|desired| - 1])
    else Lookup(desired[..|desired| - 1], name)
  }

  /** Creates the devices one after the other; a name with no desired device is skipped. */
  function CreatePhase(w: World, names: seq<string>, desired: seq<Device>, envs: string -> CreateEnv): World {
    if names == [] then w
    else
      var w1 := CreatePhase(w, names[..|names| - 1], desired, envs);
      var name := names[|names| - 1];
      match Lookup(desired, name)
      case None => w1
      case Some(d) =>
        var (s2, reply) := CreateSafe(w1.sys, d, envs(name));
        World(s2, NoteCreate(w1.result, name, reply))
  }

  /** A kept device with no interface gets one when detection finds it; one with an interface is set running unless it is. */
  predicate NeedsUpdate(d: Device, probes: nat -> Probe) {
    if !Truthy(d.interfaceName) then Truthy(DetectFrom(probes, d.routerIp, 0, DetectRetries))
    else d.status != Running
  }

  /** Refreshes one kept device and lists it as kept. */
  function KeepStep(w: World, name: string, d: Device, probes: nat -> Probe): World {
    var w1 :=
      if !Truthy(d.interfaceName) then
        var found := DetectFrom(probes, d.routerIp, 0, DetectRetries);
        if Truthy(found) then
          World(Update(w.sys, StatusUpdate(d.id, Running, found, ReconcilerIfb(found.value), None)),
                w.result.(updated := w.result.updated + [name]))
        else w
      else if d.status != Running then
        World(Update(w.sys, StatusUpdate(d.id, Running, None, None, None)), w.result.(updated := w.result.updated + [name]))
      else w;
    w1.(result := w1.result.(kept := w1.result.kept + [name]))
  }

  /** Refreshes the kept devices one after the other; a name with no desired device is skipped. */
  function KeepPhase(w: World, names: seq<string>, desired: seq<Device>, probes: string -> (nat -> Probe)): World {
    if names == [] then w
    else
      var w1 := KeepPhase(w, names[..|names| - 1], desired, probes);
      var name := names[|names| - 1];
      match Lookup(desired, name)
      case None => w1
      case Some(d) => KeepStep(w1, name, d, probes(name))
  }

  /** What the runtime decides during a sync, per container name. */
  datatype SyncEnv = SyncEnv(
    create: string -> CreateEnv,
    destroy: string -> DestroyFaults,
    orphan: string -> Option<RemovalFault>,
    detect: string -> (nat -> Probe))

  /** Destroys (recorded devices first, then orphans), creates, keeps: the phases of one cluster's sync. */
  ghost function DestroyPhase(w: World, names: seq<string>, env: SyncEnv): World {
    var (known, orphans) := Classify(w.sys.devices, names);
    OrphanPhase(DestroyKnownPhase(w, known, env.destroy), orphans, env.orphan)
  }

  ghost function SyncPhases(w: World, plan: SyncPreview, desired: seq<Device>, env: SyncEnv): World {
    KeepPhase(CreatePhase(DestroyPhase(w, plan.toDestroy, env), plan.toCreate, desired, env.create), plan.toKeep, desired, env.detect)
  }

  // ---------------------------------------------------------------- phase properties

  /** Every name is reported once: as done, or by one error about it, and nothing else is reported. */
  ghost predicate ReportsOnce(names: seq<string>, done: seq<string>, errors: seq<SyncError>) {
    && |done| + |errors| == |names|
    && (forall n :: n in done ==> n in names)
    && (forall i :: 0 <= i < |errors| ==> !errors[i].ClusterMissing? && errors[i].name in names)
    && (forall n :: n in names ==> n in done || exists i :: 0 <= i < |errors| && errors[i].About(n))
  }

  /** One more name, reported as done or by an error about it, keeps the accounting. */
  lemma ReportsOnceSnoc(names: seq<string>, done: seq<string>, errors: seq<SyncError>, n: string, ok: bool, e: SyncError)
    requires ReportsOnce(names, done, errors)
    requires !ok ==> e.About(n)
    ensures ok ==> ReportsOnce(names + [n], done + [n], errors)
    ensures !ok ==> ReportsOnce(names + [n], done, errors + [e])
  {
    if !ok {
      var errs := errors + [e];
      forall m | m in names + [n]
        ensures m in done || exists i :: 0 <= i < |errs| && errs[i].About(m)
      {
        if m == n {
          assert errs[|errors|].About(m);
        } else if m !in done {
          var i :| 0 <= i < |errors| && errors[i].About(m);
          assert errs[i].About(m);
        }
      }
    }
  }

  /**
   * The same step on whole result lists: what was added since `done0` and
   * `errors0` accounts for one more name.
   */
  lemma ReportStep(done0: seq<string>, errors0: seq<SyncError>, done1: seq<string>, errors1: seq<SyncError>,
                   names: seq<string>, n: string, ok: bool, e: SyncError, done: seq<string>, errors: seq<SyncError>)
    requires done0 <= done1 && errors0 <= errors1
    requires ReportsOnce(names, done1[|done0|..], errors1[|errors0|..])
    requires !ok ==> e.About(n)
    requires done == (if ok then done1 + [n] else done1)
    requires errors == (if ok then errors1 else errors1 + [e])
    ensures done0 <= done && errors0 <= errors
    ensures ReportsOnce(names + [n], done[|done0|..], errors[|errors0|..])
  {
    ReportsOnceSnoc(names, done1[|done0|..], errors1[|errors0|..], n, ok, e);
    if ok {
      assert done[|done0|..] == done1[|done0|..] + [n];
    } else {
      assert errors[|errors0|..] == errors1[|errors0|..] + [e];
    }
  }

  /** The names of devices, in order. */
  function ContainerNames(ds: seq<Device>): (names: seq<string>)
    ensures |names| == |ds|
  {
    seq(|ds|, i requires 0 <= i < |ds| => ds[i].containerName)
  }

  /** A result with one destroy outcome noted per name, in order. */
  function NoteDestroys(r: SyncResult, names: seq<string>, replies: seq<Reply>): SyncResult
    requires |names| == |replies|
  {
    if names == [] then r
    else
      var n := |names| - 1;
      NoteDestroy(NoteDestroys(r, names[..n], replies[..n]), names[n], replies[n])
  }

  /** The driver's replies while the recorded devices are destroyed one after the other. */
  function DestroyReplies(w: World, known: seq<Device>, faults: string -> DestroyFaults): (replies: seq<Reply>)
    ensures |replies| == |known|
  {
    if known == [] then []
    else
      var n := |known| - 1;
      var w1 := DestroyKnownPhase(w, known[..n], faults);
      DestroyReplies(w, known[..n], faults) + [DestroySafe(w1.sys, known[n], faults(known[n].containerName)).1]
  }

  /** The destroy phase's result is its replies noted in order. */
  lemma {:induction false} DestroyKnownResult(w: World, known: seq<Device>, faults: string -> DestroyFaults)
    ensures DestroyKnownPhase(w, known, faults).result == NoteDestroys(w.result, ContainerNames(known), DestroyReplies(w, known, faults))
  {
    if known != [] {
      var n := |known| - 1;
      DestroyKnownResult(w, known[..n], faults);
      var w1 := DestroyKnownPhase(w, known[..n], faults);
      var reply := DestroySafe(w1.sys, known[n], faults(known[n].containerName)).1;
      var names := ContainerNames(known);
      var replies := DestroyReplies(w, known, faults);
      assert DestroyKnownPhase(w, known, faults).result == NoteDestroy(w1.result, names[n], reply);
      assert replies == DestroyReplies(w, known[..n], faults) + [reply];
      assert names[..n] == ContainerNames(known[..n]);
      assert replies[..n] == DestroyReplies(w, known[..n], faults);
    }
  }

  /** Noting destroy outcomes only grows `destroyed` and `errors`, and reports each name once. */
  lemma {:induction false} NoteDestroysAccounts(r0: SyncResult, names: seq<string>, replies: seq<Reply>)
    requires |names| == |replies|
    ensures var r := NoteDestroys(r0, names, replies);
      && r.created == r0.created && r.kept == r0.kept && r.updated == r0.updated
      && r0.destroyed <= r.destroyed && r0.errors <= r.errors
      && ReportsOnce(names, r.destroyed[|r0.destroyed|..], r.errors[|r0.errors|..])
  {
    if names != [] {
      var n := |names| - 1;
      NoteDestroysAccounts(r0, names[..n], replies[..n]);
      var r1 := NoteDestroys(r0, names[..n], replies[..n]);
      var r := NoteDestroys(r0, names, replies);
      assert names == names[..n] + [names[n]];
      ReportStep(r0.destroyed, r0.errors, r1.destroyed, r1.errors, names[..n],
                 names[n], replies[n].ok, DestroyFailed(names[n], replies[n].text), r.destroyed, r.errors);
    }
  }

  /** Only `destroyed` and `errors` grow while recorded devices are destroyed, each device reported once. */
  lemma DestroyKnownAccounts(w: World, known: seq<Device>, faults: string -> DestroyFaults)
    ensures var r := DestroyKnownPhase(w, known, faults).result;
      && r.created == w.result.created && r.kept == w.result.kept && r.updated == w.result.updated
      && w.result.destroyed <= r.destroyed && w.result.errors <= r.errors
      && ReportsOnce(ContainerNames(known), r.destroyed[|w.result.destroyed|..], r.errors[|w.result.errors|..])
  {
    DestroyKnownResult(w, known, faults);
    NoteDestroysAccounts(w.result, ContainerNames(known), DestroyReplies(w, known, faults));
  }

  /** Only `destroyed` and `errors` grow while orphans are removed, each orphan reported once, and no status is written. */
  lemma {:induction false} OrphanAccounts(w: World, orphans: seq<string>, faults: string -> Option<RemovalFault>)
    ensures var w' := OrphanPhase(w, orphans, faults);
      && w'.sys.devices == w.sys.devices && w'.sys.updates == w.sys.updates
      && w'.result.created == w.result.created && w'.result.kept == w.result.kept && w'.result.updated == w.result.updated
      && w.result.destroyed <= w'.result.destroyed && w.result.errors <= w'.result.errors
      && ReportsOnce(orphans, w'.result.destroyed[|w.result.destroyed|..], w'.result.errors[|w.result.errors|..])
  {
    if orphans != [] {
      var n := |orphans| - 1;
      OrphanAccounts(w, orphans[..n], faults);
      var w1 := OrphanPhase(w, orphans[..n], faults);
      var name := orphans[n];
      var r1 := w1.result;
      var r := OrphanPhase(w, orphans, faults).result;
      var removal := RemoveContainerSpec(w1.sys.rt, name, faults(name)).1;
      var e := OrphanFailed(name, if removal.Failed? then removal.message else NoSuchContainer(name));
      assert orphans == orphans[..n] + [name];
      ReportStep(w.result.destroyed, w.result.errors, r1.destroyed, r1.errors, orphans[..n],
                 name, removal.Removed?, e, r.destroyed, r.errors);
    }
  }

  /** A result with one create outcome noted per name, in order. */
  function NoteCreates(r: SyncResult, names: seq<string>, replies: seq<Reply>): SyncResult
    requires |names| == |replies|
  {
    if names == [] then r
    else
      var n := |names| - 1;
      NoteCreate(NoteCreates(r, names[..n], replies[..n]), names[n], replies[n])
  }

  /** The driver's replies while the devices are created one after the other. */
  function CreateReplies(w: World, names: seq<string>, desired: seq<Device>, envs: string -> CreateEnv): (replies: seq<Reply>)
    ensures |replies| == |names|
  {
    if names == [] then []
    else
      var n := |names| - 1;
      var w1 := CreatePhase(w, names[..n], desired, envs);
      var reply := match Lookup(desired, names[n])
        case None => Reply(true, "")
        case Some(d) => CreateSafe(w1.sys, d, envs(names[n])).1;
      CreateReplies(w, names[..n], desired, envs) + [reply]
  }

  /** When every name has a desired device, the create phase's result is its replies noted in order. */
  lemma {:induction false} CreateResult(w: World, names: seq<string>, desired: seq<Device>, envs: string -> CreateEnv)
    requires forall i :: 0 <= i < |names| ==> Lookup(desired, names[i]).Some?
    ensures CreatePhase(w, names, desired, envs).result == NoteCreates(w.result, names, CreateReplies(w, names, desired, envs))
  {
    if names != [] {
      var n := |names| - 1;
      CreateResult(w, names[..n], desired, envs);
      assert CreateReplies(w, names, desired, envs)[..n] == CreateReplies(w, names[..n], desired, envs);
    }
  }

  /** Noting create outcomes only grows `created` and `errors`, and reports each name once. */
  lemma {:induction false} NoteCreatesAccounts(r0: SyncResult, names: seq<string>, replies: seq<Reply>)
    requires |names| == |replies|
    ensures var r := NoteCreates(r0, names, replies);
      && r.destroyed == r0.destroyed && r.kept == r0.kept && r.updated == r0.updated
      && r0.created <= r.created && r0.errors <= r.errors
      && ReportsOnce(names, r.created[|r0.created|..], r.errors[|r0.errors|..])
  {
    if names != [] {
      var n := |names| - 1;
      NoteCreatesAccounts(r0, names[..n], replies[..n]);
      var r1 := NoteCreates(r0, names[..n], replies[..n]);
      var r := NoteCreates(r0, names, replies);
      assert names == names[..n] + [names[n]];
      ReportStep(r0.created, r0.errors, r1.created, r1.errors, names[..n],
                 names[n], replies[n].ok, CreateFailed(names[n], replies[n].text), r.created, r.errors);
    }
  }

  /** Only `created` and `errors` grow while devices are created, each name with a desired device reported once. */
  lemma CreateAccounts(w: World, names: seq<string>, desired: seq<Device>, envs: string -> CreateEnv)
    requires forall i :: 0 <= i < |names| ==> Lookup(desired, names[i]).Some?
    ensures var r := CreatePhase(w, names, desired, envs).result;
      && r.destroyed == w.result.destroyed && r.kept == w.result.kept && r.updated == w.result.updated
      && w.result.created <= r.created && w.result.errors <= r.errors
      && ReportsOnce(names, r.created[|w.result.created|..], r.errors[|w.result.errors|..])
  {
    CreateResult(w, names, desired, envs);
    NoteCreatesAccounts(w.result, names, CreateReplies(w, names, desired, envs));
  }

  /** One kept device is appended to `kept`, and to `updated` exactly when it needs an update. */
  lemma KeepStepResult(w: World, name: string, d: Device, probes: nat -> Probe)
    ensures KeepStep(w, name, d, probes).result ==
      w.result.(kept := w.result.kept + [name],
                updated := if NeedsUpdate(d, probes) then w.result.updated + [name] else w.result.updated)
  {
  }

  /**
   * The keep phase lists every name as kept, in order, lists as updated
   * exactly the names whose device needs an update, and adds no error.
   */
  lemma {:induction false} KeepAccounts(w: World, names: seq<string>, desired: seq<Device>, probes: string -> (nat -> Probe))
    requires forall i :: 0 <= i < |names| ==> Lookup(desired, names[i]).Some?
    ensures var r := KeepPhase(w, names, desired, probes).result;
      && r.created == w.result.created && r.destroyed == w.result.destroyed && r.errors == w.result.errors
      && r.kept == w.result.kept + names
      && w.result.updated <= r.updated
      && forall n :: n in r.updated[|w.result.updated|..] <==>
           n in names && NeedsUpdate(Lookup(desired, n).value, probes(n))
  {
    if names != [] {
      var n := |names| - 1;
      KeepAccounts(w, names[..n], desired, probes);
      var w1 := KeepPhase(w, names[..n], desired, probes);
      var name := names[n];
      var d := Lookup(desired, name).value;
      var r1 := w1.result;
      var r := KeepPhase(w, names, desired, probes).result;
      assert r == KeepStep(w1, name, d, probes(name)).result;
      KeepStepResult(w1, name, d, probes(name));
      assert names == names[..n] + [name];
      if NeedsUpdate(d, probes(name)) {
        assert r.updated[|w.result.updated|..] == r1.updated[|w.result.updated|..] + [name];
      } else {
        assert r.updated == r1.updated;
      }
    }
  }

  /**
   * A kept device that needs no update gets no status write. One that does
   * gets exactly one write, to `running`: with the detected interface and
   * the reconciler's IFB name when it had no interface, with neither when
   * it had one.
   */
  lemma KeepStepWrites(w: World, name: string, d: Device, probes: nat -> Probe)
    ensures var w' := KeepStep(w, name, d, probes);
      var found := DetectFrom(probes, d.routerIp, 0, DetectRetries);
      && (!NeedsUpdate(d, probes) ==> w'.sys == w.sys)
      && (NeedsUpdate(d, probes) ==> |w'.sys.updates| == |w.sys.updates| + 1)
      && (NeedsUpdate(d, probes) && !Truthy(d.interfaceName) ==>
            w'.sys.updates[|w.sys.updates|] == StatusUpdate(d.id, Running, found, ReconcilerIfb(found.value), None))
      && (NeedsUpdate(d, probes) && Truthy(d.interfaceName) ==>
            w'.sys.updates[|w.sys.updates|] == StatusUpdate(d.id, Running, None, None, None))
  {
  }

  /** Splitting the names to destroy loses none and adds none. */
  lemma {:induction false} ClassifyPartition(ds: map<int, Device>, names: seq<string>)
    ensures var (known, orphans) := Classify(ds, names);
      && |known| + |orphans| == |names|
      && (forall n :: n in names <==> n in ContainerNames(known) || n in orphans)
      && (forall i :: 0 <= i < |known| ==> known[i] in ds.Values)
      && (forall n :: n in orphans ==> forall id :: id in ds ==> ds[id].containerName != n)
  {
    if names != [] {
      var n := |names| - 1;
      ClassifyPartition(ds, names[..n]);
      var (known1, orphans1) := Classify(ds, names[..n]);
      var name := names[n];
      assert names == names[..n] + [name];
      match DeviceNamed(ds, name)
      case Some(d) =>
        assert ContainerNames(known1 + [d]) == ContainerNames(known1) + [d.containerName];
      case None =>
    }
  }

  // ---------------------------------------------------------------- accounting for a whole sync

  /**
   * A sync of a cluster that exists reports every planned create and
   * destroy exactly once and every kept name once: the success count plus
   * the error count is the preview's change count.
   */
  lemma SyncAccounts(w: World, plan: SyncPreview, desired: seq<Device>, env: SyncEnv)
    requires w.result == EmptyResult
    requires forall i :: 0 <= i < |plan.toCreate| ==> Lookup(desired, plan.toCreate[i]).Some?
    requires forall i :: 0 <= i < |plan.toKeep| ==> Lookup(desired, plan.toKeep[i]).Some?
    ensures var r := SyncPhases(w, plan, desired, env).result;
      && |r.created| + |r.destroyed| + |r.errors| == |plan.toCreate| + |plan.toDestroy|
      && r.kept == plan.toKeep
      && ToDict(r).successCount + ToDict(r).errorCount == PreviewToDict(plan).totalChanges
  {
    var (known, orphans) := Classify(w.sys.devices, plan.toDestroy);
    ClassifyPartition(w.sys.devices, plan.toDestroy);
    var w1 := DestroyKnownPhase(w, known, env.destroy);
    DestroyKnownAccounts(w, known, env.destroy);
    var w2 := OrphanPhase(w1, orphans, env.orphan);
    OrphanAccounts(w1, orphans, env.orphan);
    assert w2 == DestroyPhase(w, plan.toDestroy, env);
    var w3 := CreatePhase(w2, plan.toCreate, desired, env.create);
    CreateAccounts(w2, plan.toCreate, desired, env.create);
    KeepAccounts(w3, plan.toKeep, desired, env.detect);
  }

  /** Every name planned for creation or keeping has a desired device to work on. */
  lemma PlanFound(plan: SyncPreview, desired: seq<Device>, running: set<string>)
    requires PreviewOf(plan, set d | d in desired :: d.containerName, running)
    ensures forall i :: 0 <= i < |plan.toCreate| ==> Lookup(desired, plan.toCreate[i]).Some?
    ensures forall i :: 0 <= i < |plan.toKeep| ==> Lookup(desired, plan.toKeep[i]).Some?
  {
    forall name | name in plan.toCreate || name in plan.toKeep
      ensures Lookup(desired, name).Some?
    {
      var d :| d in desired && d.containerName == name;
    }
  }

  /** The success count as written goes negative: a sync of a missing cluster reports -1. */
  lemma SuccessCountAsWrittenNegative(clusterId: int)
    ensures ToDictAsWritten(EmptyResult.(errors := [ClusterMissing(clusterId)])).successCount == -1
    ensures ToDict(EmptyResult.(errors := [ClusterMissing(clusterId)])).successCount == 0
  {
  }

  /**
   * As written, a failed create counts against the successes a second
   * time: the success and error counts no longer add up to the operations
   * attempted, while the corrected counts do.
   */
  lemma SuccessCountAsWrittenDoubleCounts(r: SyncResult)
    ensures ToDictAsWritten(r).successCount + ToDictAsWritten(r).errorCount == |r.created| + |r.destroyed|
    ensures ToDict(r).successCount + ToDict(r).errorCount == |r.created| + |r.destroyed| + |r.errors|
  {
  }

  // ---------------------------------------------------------------- the two IFB naming rules

  /** A name without `eth` but with a digit gets an IFB device from the driver and none from the reconciler. */
  lemma IfbRulesDisagree(iface: string)
    requires !Contains(iface, "eth") && HasDigit(iface)
    ensures ReconcilerIfb(iface).None?
    ensures TcIfbName(iface).Some?
  {
    FirstDigitRunSpec(iface);
  }

  /** For `eth` followed by digits both rules name the same IFB device. */
  lemma {:induction false} IfbRulesAgreeOnEth(digits: string)
    requires digits != [] && forall i :: 0 <= i < |digits| ==> IsDigit(digits[i])
    ensures ReconcilerIfb("eth" + digits) == Some("ifb" + digits)
    ensures TcIfbName("eth" + digits) == Some("ifb" + digits)
  {
    var s := "eth" + digits;
    assert Contains(s, "eth") by { assert "eth" <= s; }
    ReplaceDigits(digits);
    assert s[3..] == digits;
    assert Replace(s, "eth", "") == "" + Replace(s[3..], "eth", "");
    assert "" + digits == digits;
    DigitsRun(digits);
    assert s[1..][1..][1..] == digits;
    calc {
      FirstDigitRun(s);
      FirstDigitRun(s[1..]);
      FirstDigitRun(s[1..][1..]);
      FirstDigitRun(s[1..][1..][1..]);
    }
  }

  /** Replacing `eth` leaves a digit string unchanged. */
  lemma {:induction false} ReplaceDigits(digits: string)
    requires forall i :: 0 <= i < |digits| ==> IsDigit(digits[i])
    ensures Replace(digits, "eth", "") == digits
  {
    if digits != [] {
      assert !("eth" <= digits) by { assert IsDigit(digits[0]); }
      ReplaceDigits(digits[1..]);
      assert [digits[0]] + digits[1..] == digits;
    }
  }

  /** The first digit run of a digit string is the whole string. */
  lemma {:induction false} DigitsRun(digits: string)
    requires digits != [] && forall i :: 0 <= i < |digits| ==> IsDigit(digits[i])
    ensures FirstDigitRun(digits) == Some(digits)
  {
    DigitRunAll(digits);
    assert digits[..|digits|] == digits;
  }

  lemma {:induction false} DigitRunAll(digits: string)
    requires forall i :: 0 <= i < |digits| ==> IsDigit(digits[i])
    ensures DigitRunLen(digits) == |digits|
  {
    if digits != [] {
      DigitRunAll(digits[1..]);
    }
  }

  /** One cluster's sync took the system from `before` to `after` and reported `part`. */
  ghost predicate ClusterSynced(before: Sys, after: Sys, part: SyncResult, clusterId: int, nextDeviceId: int, env: SyncEnv) {
    exists plan ::
      && PreviewOf(plan, ClusterContainerNames(before.devices, clusterId), RunningIn(before.rt))
      && World(after, part) ==
           SyncPhases(World(before, EmptyResult), plan, DeviceRows(before.devices, InCluster(clusterId), nextDeviceId), env)
  }

  /** Cluster after cluster, each sync started from the state the previous one left. */
  ghost predicate SyncedRun(states: seq<Sys>, parts: seq<SyncResult>, active: seq<Cluster>, nextDeviceId: int, env: SyncEnv) {
    && |states| == |parts| + 1 && |parts| <= |active|
    && forall j :: 0 <= j < |parts| ==> ClusterSynced(states[j], states[j + 1], parts[j], active[j].id, nextDeviceId, env)
  }

  /** One more cluster synced from the last state extends the run. */
  lemma SyncedRunSnoc(states: seq<Sys>, parts: seq<SyncResult>, active: seq<Cluster>, nextDeviceId: int, env: SyncEnv,
                      after: Sys, part: SyncResult)
    requires SyncedRun(states, parts, active, nextDeviceId, env) && |parts| < |active|
    requires ClusterSynced(states[|parts|], after, part, active[|parts|].id, nextDeviceId, env)
    ensures SyncedRun(states + [after], parts + [part], active, nextDeviceId, env)
    ensures (states + [after])[0] == states[0] && (states + [after])[|parts| + 1] == after
  {
    var states', parts' := states + [after], parts + [part];
    forall j | 0 <= j < |parts'|
      ensures ClusterSynced(states'[j], states'[j + 1], parts'[j], active[j].id, nextDeviceId, env)
    {
      assert states'[j] == states[j];
      if j < |parts| {
        assert states'[j + 1] == states[j + 1] && parts'[j] == parts[j];
      }
    }
  }

  // ---------------------------------------------------------------- the service

  class SyncService {
    const db: DatabaseService
    const cm: ContainerManager

    constructor (db: DatabaseService, cm: ContainerManager)
      ensures this.db == db && this.cm == cm
    {
      this.db := db;
      this.cm := cm;
    }

    /**
     * Previews a sync without changing anything. A falsy id (absent or 0)
     * takes the devices of every active cluster; a truthy id that names no
     * cluster gives the empty preview.
     */
    method GetSyncPreview(clusterId: Option<int>) returns (preview: SyncPreview)
      requires db.Valid()
      ensures !Falsy(clusterId) && clusterId.value !in db.clusters ==> preview == EmptyPreview
      ensures Falsy(clusterId) ==> PreviewOf(preview, ActiveContainerNames(db.clusters, db.devices), cm.RunningNames())
      ensures !Falsy(clusterId) && clusterId.value in db.clusters ==>
        PreviewOf(preview, ClusterContainerNames(db.devices, clusterId.value), cm.RunningNames())
    {
      var desired: seq<Device>;
      if !Falsy(clusterId) {
        var cluster := db.GetCluster(clusterId.value);
        if cluster.None? {
          return EmptyPreview;
        }
        desired := db.GetClusterDevices(clusterId.value);
      } else {
        desired := db.GetAllActiveClusterDevices();
      }
      var running := cm.RunningNames();
      var desiredNames := set d | d in desired :: d.containerName;
      if !Falsy(clusterId) {
        assert desiredNames == ClusterContainerNames(db.devices, clusterId.value) by {
          forall n ensures n in desiredNames <==> n in ClusterContainerNames(db.devices, clusterId.value) {
            if n in ClusterContainerNames(db.devices, clusterId.value) {
              var id :| id in db.devices && db.devices[id].clusterId == clusterId.value && db.devices[id].containerName == n;
              assert db.devices[id] in desired;
            }
          }
        }
      } else {
        assert desiredNames == ActiveContainerNames(db.clusters, db.devices) by {
          forall n ensures n in desiredNames <==> n in ActiveContainerNames(db.clusters, db.devices) {
            if n in ActiveContainerNames(db.clusters, db.devices) {
              var id :| id in db.devices && db.devices[id].clusterId in db.clusters && db.clusters[db.devices[id].clusterId].active
                && db.devices[id].containerName == n;
              assert db.devices[id] in desired;
            }
          }
        }
      }
      var toCreate := SortedNames(desiredNames - running);
      var toDestroy := SortedNames(running - desiredNames);
      var toKeep := SortedNames(desiredNames * running);
      preview := SyncPreview(toCreate, toDestroy, toKeep);
    }

    /** `_destroy_device_safe`: stopping, the driver's destroy, then stopped or error. */
    method DestroyDeviceSafe(d: Device, f: DestroyFaults) returns (reply: Reply)
      requires db.Valid()
      modifies db, cm
      ensures db.Valid()
      ensures db.clusters == old(db.clusters) && db.nextDeviceId == old(db.nextDeviceId) && db.nextClusterId == old(db.nextClusterId)
      ensures (Sys(db.devices, cm.rt, db.updates), reply) == DestroySafe(Sys(old(db.devices), old(cm.rt), old(db.updates)), d, f)
    {
      var _ := db.UpdateDeviceStatus(d.id, Stopping);
      var errors := cm.DestroyDeviceContainer(d, f);
      reply := DestroyReply(errors);
      if reply.ok {
        var _ := db.UpdateDeviceStatus(d.id, Stopped, None, None, None);
      } else {
        var _ := db.UpdateDeviceStatus(d.id, Error, None, None, Some(reply.text));
      }
    }

    /** `_create_device_safe`: starting, the driver's create, then running or error. */
    method CreateDeviceSafe(d: Device, env: CreateEnv) returns (reply: Reply)
      requires db.Valid()
      modifies db, cm
      ensures db.Valid()
      ensures db.clusters == old(db.clusters) && db.nextDeviceId == old(db.nextDeviceId) && db.nextClusterId == old(db.nextClusterId)
      ensures (Sys(db.devices, cm.rt, db.updates), reply) == CreateSafe(Sys(old(db.devices), old(cm.rt), old(db.updates)), d, env)
    {
      var _ := db.UpdateDeviceStatus(d.id, Starting);
      var outcome := cm.CreateDeviceContainer(d, env);
      reply := outcome.AsReply();
      if outcome.Created? {
        var iface := outcome.iface;
        var _ := db.UpdateDeviceStatus(d.id, Running, Some(iface), ReconcilerIfb(iface), None);
      } else {
        var _ := db.UpdateDeviceStatus(d.id, Error, None, None, Some(reply.text));
      }
    }

    /** Looks every name up in the store: recorded devices and orphans, each in order. */
    method ClassifyDestroys(names: seq<string>) returns (known: seq<Device>, orphans: seq<string>)
      requires db.Valid()
      ensures (known, orphans) == Classify(db.devices, names)
    {
      known, orphans := [], [];
      for i := 0 to |names|
        invariant (known, orphans) == Classify(db.devices, names[..i])
      {
        var found := db.GetDeviceByContainerName(names[i]);
        assert names[..i + 1][..i] == names[..i];
        if found.Some? {
          known := known + [found.value];
        } else {
          orphans := orphans + [names[i]];
        }
      }
      assert names[..|names|] == names;
    }

    /** Destroys the recorded devices one after the other. */
    method DestroyKnown(known: seq<Device>, result: SyncResult, faults: string -> DestroyFaults) returns (result': SyncResult)
      requires db.Valid()
      modifies db, cm
      ensures db.Valid()
      ensures db.clusters == old(db.clusters) && db.nextDeviceId == old(db.nextDeviceId) && db.nextClusterId == old(db.nextClusterId)
      ensures World(Sys(db.devices, cm.rt, db.updates), result') == DestroyKnownPhase(World(Sys(old(db.devices), old(cm.rt), old(db.updates)), result), known, faults)
    {
      ghost var w0 := World(Sys(db.devices, cm.rt, db.updates), result);
      result' := result;
      for i := 0 to |known|
        invariant db.Valid()
        invariant db.clusters == old(db.clusters) && db.nextDeviceId == old(db.nextDeviceId) && db.nextClusterId == old(db.nextClusterId)
        invariant World(Sys(db.devices, cm.rt, db.updates), result') == DestroyKnownPhase(w0, known[..i], faults)
      {
        var d := known[i];
        var reply := DestroyDeviceSafe(d, faults(d.containerName));
        assert known[..i + 1][..i] == known[..i];
        result' := NoteDestroy(result', d.containerName, reply);
      }
      assert known[..|known|] == known;
    }

    /** Stops and removes the orphaned containers one after the other. */
    method DestroyOrphans(orphans: seq<string>, result: SyncResult, faults: string -> Option<RemovalFault>) returns (result': SyncResult)
      modifies cm
      ensures World(Sys(db.devices, cm.rt, db.updates), result') == OrphanPhase(World(Sys(db.devices, old(cm.rt), db.updates), result), orphans, faults)
    {
      ghost var w0 := World(Sys(db.devices, cm.rt, db.updates), result);
      result' := result;
      for i := 0 to |orphans|
        invariant World(Sys(db.devices, cm.rt, db.updates), result') == OrphanPhase(w0, orphans[..i], faults)
      {
        var name := orphans[i];
        assert orphans[..i + 1][..i] == orphans[..i];
        var removal := cm.StopAndRemove(name, faults(name));
        match removal
        case Removed =>
          result' := result'.(destroyed := result'.destroyed + [name]);
        case Absent =>
          result' := result'.(errors := result'.errors + [OrphanFailed(name, NoSuchContainer(name))]);
        case Failed(m) =>
          result' := result'.(errors := result'.errors + [OrphanFailed(name, m)]);
      }
      assert orphans[..|orphans|] == orphans;
    }

    /** `_execute_destroys`: the recorded devices first, then the orphans. */
    method ExecuteDestroys(names: seq<string>, result: SyncResult, env: SyncEnv) returns (result': SyncResult)
      requires db.Valid()
      modifies db, cm
      ensures db.Valid()
      ensures db.clusters == old(db.clusters) && db.nextDeviceId == old(db.nextDeviceId) && db.nextClusterId == old(db.nextClusterId)
      ensures World(Sys(db.devices, cm.rt, db.updates), result') == DestroyPhase(World(Sys(old(db.devices), old(cm.rt), old(db.updates)), result), names, env)
    {
      var known, orphans := ClassifyDestroys(names);
      result' := DestroyKnown(known, result, env.destroy);
      result' := DestroyOrphans(orphans, result', env.orphan);
    }

    /** Creates the device behind every name. */
    method ExecuteCreates(names: seq<string>, desired: seq<Device>, result: SyncResult, env: SyncEnv) returns (result': SyncResult)
      requires db.Valid()
      modifies db, cm
      ensures db.Valid()
      ensures db.clusters == old(db.clusters) && db.nextDeviceId == old(db.nextDeviceId) && db.nextClusterId == old(db.nextClusterId)
      ensures World(Sys(db.devices, cm.rt, db.updates), result') == CreatePhase(World(Sys(old(db.devices), old(cm.rt), old(db.updates)), result), names, desired, env.create)
    {
      ghost var w0 := World(Sys(db.devices, cm.rt, db.updates), result);
      result' := result;
      for i := 0 to |names|
        invariant db.Valid()
        invariant db.clusters == old(db.clusters) && db.nextDeviceId == old(db.nextDeviceId) && db.nextClusterId == old(db.nextClusterId)
        invariant World(Sys(db.devices, cm.rt, db.updates), result') == CreatePhase(w0, names[..i], desired, env.create)
      {
        var name := names[i];
        assert names[..i + 1][..i] == names[..i];
        var d := Lookup(desired, name);
        if d.Some? {
          var reply := CreateDeviceSafe(d.value, env.create(name));
          result' := NoteCreate(result', name, reply);
        }
      }
      assert names[..|names|] == names;
    }

    /** Refreshes every kept device and lists it as kept. */
    method UpdateKeptDevices(names: seq<string>, desired: seq<Device>, result: SyncResult, env: SyncEnv) returns (result': SyncResult)
      requires db.Valid()
      modifies db
      ensures db.Valid()
      ensures db.clusters == old(db.clusters) && db.nextDeviceId == old(db.nextDeviceId) && db.nextClusterId == old(db.nextClusterId)
      ensures World(Sys(db.devices, cm.rt, db.updates), result') == KeepPhase(World(Sys(old(db.devices), cm.rt, old(db.updates)), result), names, desired, env.detect)
    {
      ghost var w0 := World(Sys(db.devices, cm.rt, db.updates), result);
      result' := result;
      for i := 0 to |names|
        invariant db.Valid()
        invariant db.clusters == old(db.clusters) && db.nextDeviceId == old(db.nextDeviceId) && db.nextClusterId == old(db.nextClusterId)
        invariant World(Sys(db.devices, cm.rt, db.updates), result') == KeepPhase(w0, names[..i], desired, env.detect)
      {
        var name := names[i];
        assert names[..i + 1][..i] == names[..i];
        var found := Lookup(desired, name);
        if found.Some? {
          var d := found.value;
          ghost var before := World(Sys(db.devices, cm.rt, db.updates), result');
          if !Truthy(d.interfaceName) {
            var iface := ContainerManager.DetectRouterInterface(d.routerIp, env.detect(name));
            if Truthy(iface) {
              var _ := db.UpdateDeviceStatus(d.id, Running, iface, ReconcilerIfb(iface.value), None);
              result' := result'.(updated := result'.updated + [name]);
            }
          } else if d.status != Running {
            var _ := db.UpdateDeviceStatus(d.id, Running);
            result' := result'.(updated := result'.updated + [name]);
          }
          result' := result'.(kept := result'.kept + [name]);
          assert World(Sys(db.devices, cm.rt, db.updates), result') == KeepStep(before, name, d, env.detect(name));
        }
      }
      assert names[..|names|] == names;
    }

    /**
     * Syncs one cluster: a missing cluster gives the single error and
     * changes nothing; otherwise the cluster's devices are diffed against
     * every running managed container and the plan is carried out.
     */
    method SyncCluster(clusterId: int, env: SyncEnv) returns (result: SyncResult, ghost plan: SyncPreview)
      requires db.Valid()
      modifies db, cm
      ensures db.Valid()
      ensures db.clusters == old(db.clusters) && db.nextDeviceId == old(db.nextDeviceId) && db.nextClusterId == old(db.nextClusterId)
      ensures clusterId !in old(db.clusters) ==>
        && result == EmptyResult.(errors := [ClusterMissing(clusterId)])
        && db.devices == old(db.devices) && db.updates == old(db.updates) && cm.rt == old(cm.rt)
      ensures clusterId in old(db.clusters) ==>
        && PreviewOf(plan, ClusterContainerNames(old(db.devices), clusterId), RunningIn(old(cm.rt)))
        && World(Sys(db.devices, cm.rt, db.updates), result) ==
             SyncPhases(World(Sys(old(db.devices), old(cm.rt), old(db.updates)), EmptyResult), plan,
                        DeviceRows(old(db.devices), InCluster(clusterId), old(db.nextDeviceId)), env)
      ensures clusterId in old(db.clusters) ==>
        var desired := DeviceRows(old(db.devices), InCluster(clusterId), old(db.nextDeviceId));
        && (forall i :: 0 <= i < |plan.toCreate| ==> Lookup(desired, plan.toCreate[i]).Some?)
        && (forall i :: 0 <= i < |plan.toKeep| ==> Lookup(desired, plan.toKeep[i]).Some?)
      ensures clusterId in old(db.clusters) ==>
        ClusterSynced(Sys(old(db.devices), old(cm.rt), old(db.updates)), Sys(db.devices, cm.rt, db.updates), result, clusterId, old(db.nextDeviceId), env)
    {
      plan := EmptyPreview;
      var cluster := db.GetCluster(clusterId);
      if cluster.None? {
        return EmptyResult.(errors := [ClusterMissing(clusterId)]), plan;
      }
      var desired := db.GetClusterDevices(clusterId);
      var running := cm.RunningNames();
      var desiredNames := set d | d in desired :: d.containerName;
      assert desiredNames == ClusterContainerNames(db.devices, clusterId) by {
        forall n ensures n in desiredNames <==> n in ClusterContainerNames(db.devices, clusterId) {
          if n in ClusterContainerNames(db.devices, clusterId) {
            var id :| id in db.devices && db.devices[id].clusterId == clusterId && db.devices[id].containerName == n;
            assert db.devices[id] in desired;
          }
        }
      }
      var toCreate := SortedNames(desiredNames - running);
      var toDestroy := SortedNames(running - desiredNames);
      var toKeep := SortedNames(desiredNames * running);
      plan := SyncPreview(toCreate, toDestroy, toKeep);
      PlanFound(plan, desired, running);
      ghost var w0 := World(Sys(db.devices, cm.rt, db.updates), EmptyResult);
      result := ExecuteDestroys(toDestroy, EmptyResult, env);
      assert World(Sys(db.devices, cm.rt, db.updates), result) == DestroyPhase(w0, toDestroy, env);
      result := ExecuteCreates(toCreate, desired, result, env);
      result := UpdateKeptDevices(toKeep, desired, result, env);
    }

    /**
     * Syncs every active cluster in id order, one after the other, each on
     * the state the previous one left, and combines the results in that
     * order.
     */
    method SyncActiveClusters(env: SyncEnv) returns (result: SyncResult, ghost parts: seq<SyncResult>, ghost states: seq<Sys>)
      requires db.Valid()
      modifies db, cm
      ensures db.Valid()
      ensures result == Combine(parts)
      ensures var active := ClusterRows(old(db.clusters), true, old(db.nextClusterId));
        && |parts| == |active|
        && SyncedRun(states, parts, active, old(db.nextDeviceId), env)
        && states[0] == Sys(old(db.devices), old(cm.rt), old(db.updates))
        && states[|active|] == Sys(db.devices, cm.rt, db.updates)
    {
      var active := db.GetActiveClusters();
      result := EmptyResult;
      parts := [];
      states := [Sys(db.devices, cm.rt, db.updates)];
      if active == [] {
        return;
      }
      for k := 0 to |active|
        invariant db.Valid()
        invariant db.clusters == old(db.clusters) && db.nextDeviceId == old(db.nextDeviceId) && db.nextClusterId == old(db.nextClusterId)
        invariant |parts| == k
        invariant result == Combine(parts)
        invariant SyncedRun(states, parts, active, old(db.nextDeviceId), env)
        invariant states[0] == Sys(old(db.devices), old(cm.rt), old(db.updates))
        invariant states[k] == Sys(db.devices, cm.rt, db.updates)
      {
        assert active[k] in active;
        var part, plan := SyncCluster(active[k].id, env);
        SyncedRunSnoc(states, parts, active, old(db.nextDeviceId), env, Sys(db.devices, cm.rt, db.updates), part);
        assert (parts + [part])[..k] == parts;
        parts := parts + [part];
        states := states + [Sys(db.devices, cm.rt, db.updates)];
        result := Append(result, part);
      }
    }
  }
}
