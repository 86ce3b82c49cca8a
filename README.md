# qc traffic-control lab: a Dafny model of the backend core

qc runs a small lab of Docker containers. A router container sits in front of
client containers, one per *device*. Each client lives in its own bridge
network, and the router shapes its traffic with Linux `tc` HTB classes, using an
IFB device for the upstream direction. The backend keeps *clusters*, *devices*
and *traffic rules* in SQLite. Its reconciler (`SyncService`) makes the running
containers match the devices of the requested cluster, or of every active
cluster.

This project models that core in Dafny and proves properties of the model:

- `Records`: the persisted rows (`Cluster`, `Device`, `TrafficRule`) and the
  rule models (`BandwidthRule`, `QoSRule`, `RuleConfig`, in module `Rules`).
- `Store`: the `DatabaseService` class, with maps keyed by id standing in for
  the tables.
- `Driver`: the `ContainerManager` class. It works over an abstract Docker
  runtime (`Runtime`: networks, containers, router attachments, shaped
  interfaces, the router's command log). Every Docker or router step whose
  outcome the backend cannot know in advance is a parameter (`CreateEnv`,
  `RemovalFault`, `DestroyFaults`, probe replies).
- `Parsers`: parsing of `tc -s class show` and `ss -tn` output, and the
  interface-to-client lookup.
- `Router`: the `RouterManager` class, which builds the interface mappings
  and turns bandwidth rules into `tc class change` commands.
- `Reconciler`: the `SyncService` class (preview, sync of one cluster, sync
  of every active cluster). Each phase of a sync is a method on the class,
  proved equal to a ghost phase function. The accounting lemmas are proved
  about those phase functions.
- `Text` and `Wrappers`: the Python string operations the core relies on
  (`strip`, `split`, `replace`, `int()`, `sorted`, the first `\d+` run), plus
  `Option`/`Result`.

## Model

| member | source | states |
|---|---|---|
| Records.WithStatusNeverClears | backend/src/services/database.py:272-309 | A status update always sets the status. It overwrites interface, IFB and error only when a value is given, so a recorded interface or IFB device is never cleared, and all other columns are unchanged. |
| Records.WithStatusIdempotent | backend/src/services/database.py:272-309 | Applying the same status update twice gives the same device as applying it once. |
| Records.PatchRuleProperties | backend/src/services/database.py:423-463 | A rule update with no fields changes nothing. An update is idempotent, keeps id, device and description, and sets `active` exactly when it is given. |
| Store.DatabaseService.constructor | backend/src/services/database.py:36-60 | A fresh store is empty and valid. |
| Store.DatabaseService.CreateCluster | backend/src/services/database.py:36-60 | Fails exactly when the name is already used, and then leaves the clusters unchanged. Otherwise it inserts a cluster under a fresh id and leaves the other tables untouched. |
| Store.DatabaseService.GetCluster | backend/src/services/database.py:62-64 | Finds a cluster exactly when its id is stored, and returns that row. |
| Store.DatabaseService.GetClusterByName | backend/src/services/database.py:66-68 | Finds a cluster exactly when some stored cluster has that name, and returns that row. |
| Store.DatabaseService.ListClusters | backend/src/services/database.py:70-83 | Returns exactly the stored clusters (only active ones when asked), newest first: ids strictly descending, the reverse of id order. |
| Store.DatabaseService.GetActiveClusters | backend/src/services/database.py:85-92 | Returns exactly the active stored clusters, in ascending id order. |
| Store.DatabaseService.UpdateCluster | backend/src/services/database.py:94-122 | Reports a missing id. Refuses a new name held by another cluster. Otherwise overwrites only the given fields. Nothing else changes. |
| Store.DatabaseService.ActivateCluster | backend/src/services/database.py:124-141 | Succeeds exactly when the cluster exists, and then sets only its `active` flag to true. |
| Store.DatabaseService.DeactivateCluster | backend/src/services/database.py:143-160 | Succeeds exactly when the cluster exists, and then sets only its `active` flag to false. |
| Store.DatabaseService.DeleteCluster | backend/src/services/database.py:162-178 | Removes the cluster, every one of its devices and every rule of those devices (the cascade). Every other row is unchanged. |
| Store.DatabaseService.CreateDevice | backend/src/services/database.py:182-233 | Missing cluster and duplicate name in the cluster give their errors. It succeeds exactly when the cluster exists and none of name-in-cluster, network name and container name is taken, and then inserts the new device under a fresh id. |
| Store.DatabaseService.GetDevice | backend/src/services/database.py:235-237 | Finds a device exactly when its id is stored. |
| Store.DatabaseService.GetDeviceByContainerName | backend/src/services/database.py:239-241 | Finds a device exactly when some stored device has that container name. |
| Store.DatabaseService.GetClusterDevices | backend/src/services/database.py:243-253 | Returns exactly the stored devices of that cluster, in ascending id order. |
| Store.DatabaseService.GetAllActiveClusterDevices | backend/src/services/database.py:255-266 | Returns exactly the stored devices whose cluster is active. |
| Store.DatabaseService.GetRunningDevices | backend/src/services/database.py:268-270 | Returns exactly the stored devices whose status is running. |
| Store.DatabaseService.UpdateDeviceStatus | backend/src/services/database.py:272-309 | Succeeds exactly when the device exists. The device becomes `WithStatus` of its old row, the update is appended to the status log, and clusters, rules and id counters are unchanged. |
| Store.DatabaseService.DeleteDevice | backend/src/services/database.py:311-327 | Removes the device and exactly its rules. Everything else is unchanged. |
| Store.DatabaseService.GetNextAvailableNetwork | backend/src/services/database.py:329-358 | Returns the least octet in 1..254 that no device subnet uses, with subnet `10.<octet>.0.0/24`. Fails exactly when all 254 are used. |
| Store.CollectOctets | backend/src/services/database.py:340-349 | The loop collects exactly the set of second octets parsed from the devices' subnets. |
| Store.FirstFreeOctet | backend/src/services/database.py:352-355 | The result is the first octet from 1 that is not used, or 255 when 1..254 are all used. |
| Store.SubnetForOctet | backend/src/services/database.py:343-356 | Parsing the subnet `10.<o>.0.0/24` gives back `o` (round trip of the subnet format). |
| Store.ListedOctetUsed | backend/src/services/database.py:340-349 | An octet is in the collected set exactly when some stored device's subnet parses to it. |
| Store.AllocatedOctetIsUsed | backend/src/services/database.py:329-358 | Once a device with the allocated subnet is stored, that octet counts as used, so the next allocation differs. |
| Store.ApplyUpdatesPreserves | backend/src/services/database.py:272-309 | A sequence of status updates keeps the set of device ids and every identity and network column, and never clears a recorded interface or IFB device. |
| Store.ApplyUpdatesAppend | backend/src/services/database.py:272-309 | Applying two logs of status updates one after the other is the same as applying the concatenated log. |
| Store.ClusterRowsSpec | backend/src/services/database.py:70-92 | The ordered cluster listing holds exactly the stored clusters that match the filter, with ids strictly ascending. |
| Store.DeviceRowsSpec | backend/src/services/database.py:243-270 | The ordered device listing holds exactly the stored devices that match the query, with ids strictly ascending. |
| Store.RuleRowsSpec | backend/src/services/database.py:407-421 | The ordered rule listing holds exactly the device's stored rules, only active ones when asked, with ids strictly ascending. |
| Store.DatabaseService.CreateTrafficRule | backend/src/services/database.py:362-405 | Fails exactly when the device is missing. Otherwise it inserts an active rule under a fresh id and changes nothing else. |
| Store.DatabaseService.GetDeviceTrafficRules | backend/src/services/database.py:407-421 | Returns exactly the device's rules, only active ones when asked, in ascending id order. |
| Store.DatabaseService.UpdateTrafficRule | backend/src/services/database.py:423-463 | Succeeds exactly when the rule exists, and then patches only the given fields. |
| Store.DatabaseService.DeleteTrafficRule | backend/src/services/database.py:465-481 | Succeeds exactly when the rule exists, and the rule is gone afterwards. |
| Driver.CreateNetworkSpec | backend/src/services/container_manager.py:173-213 | After network creation, success holds exactly when the network exists. Only networks change, and none is lost. |
| Driver.AttachSpec | backend/src/services/container_manager.py:173-213 | After attaching the router, no error holds exactly when the router is attached to the network. An existing attachment is tolerated. |
| Driver.CreateContainerSpec | backend/src/services/container_manager.py:215-267 | Success means the client container exists and runs. A container that already runs is reused unchanged. |
| Driver.InitTcSpec | backend/src/services/container_manager.py:315-366 | Traffic-control setup succeeds exactly when an IFB name can be derived from the interface, and then that interface becomes shaped. |
| Driver.TcInitCommands | backend/src/services/container_manager.py:341-366 | The setup script has exactly the fifteen `tc`/`ip` commands of the source. |
| Driver.TcTeardownCommands | backend/src/services/container_manager.py:379-412 | Teardown sends five commands when an IFB name is derived, two otherwise. |
| Driver.TeardownTcSpec | backend/src/services/container_manager.py:379-412 | Teardown removes the interface from the shaped set and changes nothing else. |
| Driver.RemoveContainerSpec | backend/src/services/container_manager.py:119-130 | Removal fails only for an existing container with a fault, and reports `Absent` exactly when there is no such container. Otherwise the container is gone. A failed removal keeps the container and reports the fault's text. When `stop()` succeeded and `remove()` raised, the container is left stopped; when `stop()` raised, it is left as it was. No other container changes. |
| Driver.AfterFault | backend/src/services/container_manager.py:455-457 | A container whose removal raised keeps its network and address. It is still running only when `stop()` itself raised. |
| Driver.DisconnectSpec | backend/src/services/container_manager.py:102-171 | Disconnecting fails only on an existing network with a fault. Otherwise the router is no longer attached. |
| Driver.RemoveNetworkSpec | backend/src/services/container_manager.py:102-171 | Removing a network fails only on an existing network with a fault. Otherwise the network and its attachment are gone. |
| Driver.ContainerManager.RunningNames | backend/src/services/container_manager.py:414-433 | Returns exactly the running containers whose name matches the `qc` filter. |
| Driver.ContainerManager.CreateNetwork | backend/src/services/container_manager.py:173-213 | The runtime and reply are those of `CreateNetworkSpec`. |
| Driver.ContainerManager.AttachRouter | backend/src/services/container_manager.py:173-213 | The runtime and reply are those of `AttachSpec`. |
| Driver.ContainerManager.ScanLines | backend/src/services/container_manager.py:292-301 | The loop over `ip addr` lines returns the first interface that `FindInterface` specifies. |
| Driver.FindInterface | backend/src/services/container_manager.py:292-301 | A found name looks like an interface: `eth`, `enp` or `ens` followed by a digit. |
| Driver.FindInterfaceFirst | backend/src/services/container_manager.py:292-301 | The result is the last field of the first line that mentions `inet` and the router address and whose last field looks like an interface; no earlier line qualifies. None means no line qualifies. |
| Driver.OffersQualifying | backend/src/services/container_manager.py:292-301 | A line offers an interface exactly when it mentions `inet` and the router address and its last of two or more fields looks like an interface. |
| Driver.DetectFrom | backend/src/services/container_manager.py:269-313 | Retried detection only ever yields a well-formed interface name. |
| Driver.ContainerManager.DetectRouterInterface | backend/src/services/container_manager.py:269-313 | The retry loop returns what `DetectFrom` specifies over at most `maxRetries` probes. |
| Driver.ContainerManager.InitTrafficControl | backend/src/services/container_manager.py:315-366 | The runtime and reply are those of `InitTcSpec`. |
| Driver.ContainerManager.CreateContainer | backend/src/services/container_manager.py:215-267 | The runtime and reply are those of `CreateContainerSpec`. |
| Driver.ContainerManager.CreateDeviceContainer | backend/src/services/container_manager.py:33-100 | The whole create sequence (network, attach, detect, tc init, container, each failure ending it early) yields the runtime and outcome of `CreateSpec`. |
| Driver.CreateSuccess | backend/src/services/container_manager.py:33-100 | A `Created` outcome means the network exists and the router is attached, the container runs, and the detected interface is well formed and shaped. Creation never removes anything. |
| Driver.CreateIdempotent | backend/src/services/container_manager.py:33-100 | Creating the same device again returns the same outcome and leaves the topology unchanged. The only other change is that the router log grows by exactly the fifteen tc setup commands for the same interface and IFB device. |
| Driver.CreateAfterDetection | backend/src/services/container_manager.py:33-100 | Once network and attach succeed and detection finds an interface, the outcome is `Created` with that interface, or a container failure (tc setup cannot fail on a detected name). |
| Driver.DetectedInterfaceHasIfb | backend/src/services/container_manager.py:315-366 | Any detected interface yields an IFB name, so tc setup on it always succeeds. |
| Driver.ContainerManager.StopAndRemove | backend/src/services/container_manager.py:122-130 | Stopping, then removing, yields the runtime and removal report of `RemoveContainerSpec`: a `remove()` fault leaves the container stopped. |
| Driver.ContainerManager.TeardownTrafficControl | backend/src/services/container_manager.py:379-412 | Teardown always reports success, and the runtime is that of `TeardownTcSpec`. |
| Driver.ContainerManager.DestroyDeviceContainer | backend/src/services/container_manager.py:102-171 | The best-effort destroy sequence yields the runtime and error list of `DestroySpec`. |
| Driver.DestroyOutcome | backend/src/services/container_manager.py:102-171 | Destroy reports no error exactly when no fault fires. Then container, network and attachment are gone and the interface is unshaped. |
| Driver.DestroyTwice | backend/src/services/container_manager.py:102-171 | A second destroy of the same device reports no error and changes no topology. |
| Driver.CoherentPreserved | backend/src/services/container_manager.py:33-171 | Create and destroy keep the runtime coherent: every attachment and every container's network is an existing network. |
| Driver.ContainerManager.KillAllClientContainers | backend/src/services/container_manager.py:435-468 | The loop's result is `KillSpec` over the listed `qc` containers. Killed plus failed equals the number listed, and only containers change. |
| Driver.KillSpecLeft | backend/src/services/container_manager.py:435-468 | After the kill loop, exactly the killed containers are gone. A listed container whose `remove()` raised is left stopped, and every other container is unchanged. |
| Driver.KillSpecErrors | backend/src/services/container_manager.py:435-468 | Every error names a listed container whose `stop()` or `remove()` raised, with that call's message. |
| Driver.KillSpecCount | backend/src/services/container_manager.py:435-468 | The returned count is the number of containers actually removed. |
| Driver.KillSpecErrorCount | backend/src/services/container_manager.py:435-468 | There is one error per container whose removal was refused. |
| Driver.KillSpecCounts | backend/src/services/container_manager.py:435-468 | Count plus errors is the number of distinct listed names that exist. |
| Driver.ListingSize | backend/src/services/container_manager.py:435-468 | The listing of managed containers has no duplicates, so its length is the number of distinct names. |
| Parsers.ParseTcClassStats | backend/src/utils/parsers.py:6-43 | The parser splits the stripped output into lines, and the loop's result is the line-by-line scan `ScanClasses`. |
| Parsers.ScanTcLines | backend/src/utils/parsers.py:19-41 | The loop over lines keeps "the classes so far are `ScanClasses` of the prefix". |
| Parsers.ScanTcLine | backend/src/utils/parsers.py:20-41 | One loop iteration is one `ScanStep`: a header opens a class, and a `Sent` line fills the current class when there is one. |
| Parsers.ScanSnoc | backend/src/utils/parsers.py:19-41 | Scanning one more line is one `ScanStep` on the previous result. |
| Parsers.ScanHeaders | backend/src/utils/parsers.py:19-32 | One class per matching header line, in order, each with that line's kind, class id, rate and ceil. |
| Parsers.StepHeaders | backend/src/utils/parsers.py:19-41 | A header line appends exactly one class. A stats line never changes headers. |
| Parsers.ApplyLineLocal | backend/src/utils/parsers.py:19-41 | A header line appends a class whose counters come from a `Sent` line, if any. A `Sent` line updates only the current (last) class. Before any header nothing is recorded. |
| Parsers.HeaderPrefix | backend/src/utils/parsers.py:20 | A line `class <kind> <classid> <rest>` yields that kind and class id, with the rate search starting after them. |
| Parsers.RateWithoutCeil | backend/src/utils/parsers.py:20-26 | When the token after the last ` rate ` is not followed by ` ceil` and a token, the ceil defaults to the rate, whatever fields (such as ` burst 1600b`) follow. |
| Parsers.RateWithCeil | backend/src/utils/parsers.py:20-26 | When the token after the last ` rate ` is followed by ` ceil` and a token, that token is the ceil. |
| Parsers.LastRateAt | backend/src/utils/parsers.py:20 | The greedy `.*` settles on the last ` rate ` followed by a token, and that token is the rate. |
| Parsers.CeilAfterRate | backend/src/utils/parsers.py:20 | ` ceil ` and a token right after the rate token: the optional ceil group matches that token. |
| Parsers.CeilFound | backend/src/utils/parsers.py:20-26 | Once the last rate position, the rate token and a ceil token are located, the header's rate and ceil are those tokens. |
| Parsers.TokenRunAt | backend/src/utils/parsers.py:20 | A token followed by whitespace or the end of the line is exactly what `\S+` matches there. |
| Parsers.LastMarkedGreatest | backend/src/utils/parsers.py:20 | The greedy `.*` picks the last position where the keyword run occurs. |
| Parsers.RunAtSpec | backend/src/utils/parsers.py:20 | A token run starting at a position is maximal and made only of run characters. |
| Parsers.ParseSentLine | backend/src/utils/parsers.py:35-40 | On a line that holds `Sent <b> bytes <p> pkt (dropped <d>, overlimits <o>` at the first position where the pattern matches, with digit runs b, p, d, o and no later `dropped ` or `overlimits ` digit run, the counters are exactly `int()` of b, p, d and o. |
| Parsers.ParseSentRoundTrip | backend/src/utils/parsers.py:35-40 | Printing four natural numbers into such a `Sent` line and parsing it gives the same four numbers back. |
| Parsers.ParseSentNone | backend/src/utils/parsers.py:35-36 | A line with no `Sent ` followed by digits yields no statistics, so no counter is set. |
| Parsers.ScanSentLine | backend/src/utils/parsers.py:34-40 | After a header, a non-header `Sent` line sets the four counters of the class opened last to the printed numbers. All other classes and that class's header are unchanged. |
| Parsers.SentAtLine | backend/src/utils/parsers.py:35 | The pattern anchored at a `Sent ` that starts such a line reads the four printed numbers. |
| Parsers.DroppedTail | backend/src/utils/parsers.py:35 | On the tail `dropped <d>, overlimits <o>` followed by text without another such run, `.*dropped (\d+).*overlimits (\d+)` captures d and o. |
| Parsers.LastDroppedIs | backend/src/utils/parsers.py:35 | The greedy `.*` before `dropped` settles on the last `dropped ` digit run that has an `overlimits ` digit run after it. |
| Parsers.RunLenMaximal | backend/src/utils/parsers.py:35 | A greedy run is made of run characters and stops at the first character outside the run. |
| Parsers.ParseConnections | backend/src/utils/parsers.py:46-69 | Blank output gives no connections. Otherwise the result is `ConnectionsOf` of the stripped output's lines. |
| Parsers.ConnectionLines | backend/src/utils/parsers.py:55-67 | The loop over lines computes `ConnectionsOf`. |
| Parsers.ConnectionsPerLine | backend/src/utils/parsers.py:55-67 | There is exactly one connection per line with at least four fields, in order, each built from that line's fields. |
| Parsers.ConnectionsClean | backend/src/utils/parsers.py:58-66 | Every connection is TCP/ESTABLISHED and neither address keeps a `]`. |
| Parsers.ClientOfInterface | backend/src/utils/parsers.py:114-122 | Returns the detected client for a known interface and `unknown` otherwise. |
| Router.InterfaceClientsSpec | backend/src/services/router_manager.py:19-26 | The interface-to-client map holds exactly the fixed interfaces whose client is known, each mapped to that client. |
| Router.MappingsAgree | backend/src/services/router_manager.py:19-26 | The client-to-interface and interface-to-client maps are inverse on their entries. |
| Router.IfbAssignmentsDistinct | backend/src/services/router_manager.py:29-35 | IFB numbering covers exactly the known interfaces, gives distinct IFB names, and never exceeds the number of known interfaces. |
| Router.IfbKeys | backend/src/services/router_manager.py:29-35 | An IFB device is assigned to exactly the interfaces with a known client. |
| Router.IfbAboveCount | backend/src/services/router_manager.py:29-35 | No assigned IFB name is numbered beyond the count of known interfaces. |
| Router.IfbValuesDistinct | backend/src/services/router_manager.py:29-35 | Distinct interfaces get distinct IFB names. |
| Router.RouterManager.constructor | backend/src/services/router_manager.py:10-12 | The three mappings are those built from the detected clients over eth0..eth4. |
| Router.RouterManager.BuildMappings | backend/src/services/router_manager.py:14-35 | Rebuilds the three mappings from the detected clients over eth0..eth4. |
| Router.RouterManager.MapClients | backend/src/services/router_manager.py:19-26 | The loop builds both client maps and leaves the IFB map alone. |
| Router.RouterManager.NumberIfbs | backend/src/services/router_manager.py:29-35 | The loop numbers IFB devices `ifb1, ifb2, ...` over known interfaces and leaves the client maps alone. |
| Router.DownstreamChange | backend/src/services/router_manager.py:57-66 | A downstream command is sent exactly when downstream rate and ceil are both truthy, on the rule's interface under parent `1:1` with the rule's class id. |
| Router.UpstreamChange | backend/src/services/router_manager.py:71-85 | An upstream command is sent exactly when upstream rate and ceil are truthy and the interface has a non-empty IFB, on that IFB under parent `2:1`. |
| Router.RuleOutcome | backend/src/services/router_manager.py:37-101 | A rule succeeds exactly when every downstream (physical) command succeeds; upstream failures are ignored. Every command targets the rule's interface or its IFB. A legacy rule sends one command. |
| Router.RouterManager.ApplyBandwidthRule | backend/src/services/router_manager.py:37-101 | Sends exactly `RuleCommands` and reports `RuleSucceeds`. |
| Router.RouterManager.ApplyRules | backend/src/services/router_manager.py:148-151 | The loop applies every rule in order: results are `ConfigResults` (last rule per name wins) and the commands are `ConfigCommands`. |
| Router.RouterManager.ApplyRuleConfig | backend/src/services/router_manager.py:138-158 | Results map each rule's name to its outcome, the last rule with a name winning. The `persistence` key is added when all succeed. Commands are sent in rule order. |
| Router.TabulateLastWins | backend/src/services/router_manager.py:148-151 | In the results dictionary, each name maps to the outcome of its last occurrence. |
| Router.TabulateKeys | backend/src/services/router_manager.py:148-151 | The results dictionary has no key that is not some rule's name. |
| Router.RuleNameNotPersistence | backend/src/services/router_manager.py:148-156 | No rule name collides with the `persistence` key. |
| Router.PersistenceWhenAllSucceed | backend/src/services/router_manager.py:153-156 | The `persistence` key appears exactly when every recorded rule outcome is a success, and then holds the save result. |
| Router.RouterManager.DeleteRule | backend/src/services/router_manager.py:160-188 | An unknown client sends nothing and fails. Otherwise it applies the unlimited rule on the client's interface and reports its outcome. |
| Router.UnlimitedCommands | backend/src/services/router_manager.py:177-188 | The unlimited rule sends `1000mbit` rate and ceil on `1:30`, and on `2:30` of the IFB when one exists. Only the downstream command decides the outcome. |
| Router.RouterManager.ReadRates | backend/src/services/router_manager.py:224-248 | Scanning the `tc class show` lines returns `ScanRates`. |
| Router.LastSomeLatest | backend/src/services/router_manager.py:224-248 | The rates read are those of the last matching line, and no later line matches. |
| Router.RouterManager.ReadInterfaceRule | backend/src/services/router_manager.py:220-264 | Reads one interface's rule as `CurrentRule` specifies. |
| Router.CurrentRuleShape | backend/src/services/router_manager.py:224-264 | A rule is reported exactly when downstream rate and ceil are found non-empty. It is bidirectional on class `1:30`, its legacy rate/ceil equal the downstream ones, and re-applying it sends the same downstream change. |
| Router.RouterManager.GetCurrentConfig | backend/src/services/router_manager.py:208-266 | The config lists one rule per mapped interface that has readable rates, with empty QoS rules. |
| Router.CurrentRulesSnoc | backend/src/services/router_manager.py:218-264 | Reading one more listed interface appends exactly its rule, when it has one, to the rules read so far. |
| Router.CurrentRulesListed | backend/src/services/router_manager.py:218-264 | Every reported rule belongs to a listed interface with its mapped client, and there are at most as many rules as interfaces. |
| Router.IfbNameInjective | backend/src/services/router_manager.py:29-35 | Distinct counters give distinct IFB names. |
| Reconciler.ToDictAsWritten | backend/src/services/sync_service.py:25-36 | The summary as the source computes it (the as-written half of the Findings row): lists copied, one error text per error, and a success count that is the corrected one minus the errors, negative exactly when errors outnumber successful operations. |
| Reconciler.ToDict | backend/src/services/sync_service.py:25-36 | The corrected half of the Findings row: the same summary with success count equal to the successful operations, so success plus error counts equal the operations attempted (`created + destroyed + errors`) and neither is ever negative. |
| Reconciler.SuccessCountAsWrittenNegative | backend/src/services/sync_service.py:34 | For a sync of a missing cluster, the source's success count is -1 and the corrected one is 0. |
| Reconciler.SuccessCountAsWrittenDoubleCounts | backend/src/services/sync_service.py:32-35 | As written, success plus error equals only the successful operations. Corrected, it equals every attempted operation. |
| Reconciler.CombineCounts | backend/src/services/sync_service.py:234-243 | Merging per-cluster results adds up total operations, errors and successes. |
| Reconciler.PreviewToDict | backend/src/services/sync_service.py:46-53 | The reported preview copies the three lists. Total changes counts creates and destroys but not kept containers, and it is zero exactly when there is nothing to create or destroy. |
| Reconciler.PreviewPartition | backend/src/services/sync_service.py:116-119 | The three preview lists are sorted and pairwise disjoint, and together they cover desired and running names. Total changes is the size of both differences. |
| Reconciler.ForeignContainerDestroyed | backend/src/services/sync_service.py:110-119 | A running device container that is not desired is in `to_destroy`. |
| Reconciler.SyncService.GetSyncPreview | backend/src/services/sync_service.py:87-121 | A falsy cluster id previews all active clusters. A missing cluster gives the empty preview. Otherwise it previews that cluster's containers against the running ones. |
| Reconciler.DeviceNamed | backend/src/services/sync_service.py:265-272 | A device is found by container name exactly when one is stored with that name. |
| Reconciler.ClassifyPartition | backend/src/services/sync_service.py:265-272 | Each name to destroy is either a known device's container or an orphan with no device, and none is lost. |
| Reconciler.SyncService.ClassifyDestroys | backend/src/services/sync_service.py:265-272 | The loop computes `Classify`. |
| Reconciler.DestroySafeTrail | backend/src/services/sync_service.py:438-489 | The device goes through Stopping, then Stopped (success) or Error with the message. Interface and IFB columns are kept. |
| Reconciler.SyncService.DestroyDeviceSafe | backend/src/services/sync_service.py:438-489 | The store, runtime and reply are those of `DestroySafe`. |
| Reconciler.CreateSafeTrail | backend/src/services/sync_service.py:383-436 | The device goes through Starting, then Running with the detected interface and the reconciler's IFB name (the old IFB is kept when the name has no `eth`), or Error with the failure text. Both log entries are stated in full. |
| Reconciler.SyncService.CreateDeviceSafe | backend/src/services/sync_service.py:383-436 | The store, runtime and reply are those of `CreateSafe`. |
| Reconciler.SyncService.DestroyKnown | backend/src/services/sync_service.py:275-290 | The loop over known devices is `DestroyKnownPhase`. |
| Reconciler.DestroyKnownAccounts | backend/src/services/sync_service.py:275-290 | Every known name is reported once, as destroyed or as an error. Created, kept and updated are untouched. |
| Reconciler.SyncService.DestroyOrphans | backend/src/services/sync_service.py:293-304 | The loop over orphan containers is `OrphanPhase`. |
| Reconciler.OrphanAccounts | backend/src/services/sync_service.py:293-304 | Every orphan is reported once, as destroyed or as an error. The store is untouched. |
| Reconciler.SyncService.ExecuteDestroys | backend/src/services/sync_service.py:247-304 | The destroy phase is `DestroyPhase`: classify, destroy known devices, then remove orphans. |
| Reconciler.Lookup | backend/src/services/sync_service.py:161 | Finds a desired device with that container name exactly when one exists. |
| Reconciler.SyncService.ExecuteCreates | backend/src/services/sync_service.py:306-338 | The loop over names to create is `CreatePhase`. |
| Reconciler.CreateAccounts | backend/src/services/sync_service.py:306-338 | Every name to create is reported once, as created or as an error. Destroyed, kept and updated are untouched. |
| Reconciler.SyncService.UpdateKeptDevices | backend/src/services/sync_service.py:340-381 | The loop over kept names is `KeepPhase`. |
| Reconciler.KeepAccounts | backend/src/services/sync_service.py:340-381 | Every kept name is appended to `kept`. A name appears in `updated` exactly when its device has no interface and detection finds one, or has an interface but is not recorded as running. Created, destroyed and errors are unchanged. |
| Reconciler.KeepStepResult | backend/src/services/sync_service.py:360-381 | One kept device is appended to `kept` and, exactly when it needs an update, to `updated`; nothing else in the result changes. |
| Reconciler.KeepStepWrites | backend/src/services/sync_service.py:360-379 | A kept device that needs no update writes nothing. Otherwise exactly one Running update is written: with the detected interface and its `ifb` name when the device had no interface, with neither when it had one. |
| Reconciler.PlanFound | backend/src/services/sync_service.py:148-167 | Every name to create or keep belongs to a desired device, so the lookup never misses. |
| Reconciler.SyncAccounts | backend/src/services/sync_service.py:181-193 | After the three phases, created plus destroyed plus errors equals the planned changes, `kept` is the keep list, and (corrected) success plus error counts equal the preview's total changes. |
| Reconciler.SyncService.SyncCluster | backend/src/services/sync_service.py:123-208 | A missing cluster yields only the not-found error and no change. Otherwise the plan is the cluster's preview and the result is the three phases run over it. |
| Reconciler.SyncedRunSnoc | backend/src/services/sync_service.py:234-243 | A run of cluster syncs extended by one more synced cluster is still a run. |
| Reconciler.SyncService.SyncActiveClusters | backend/src/services/sync_service.py:210-245 | Syncs each active cluster in id order, each step a `ClusterSynced` from the previous state. The result is the combination of the per-cluster results; no active clusters gives the empty result. |
| Reconciler.IfbRulesDisagree | backend/src/services/sync_service.py:368 | An interface without `eth` but with digits gets an IFB name from the tc setup and none from the reconciler. |
| Reconciler.IfbRulesAgreeOnEth | backend/src/services/container_manager.py:333-339 | For `eth<digits>`, the reconciler's IFB name and the tc setup's IFB name are both `ifb<digits>`. |
| Text.SortedNames | backend/src/services/sync_service.py:117-119 | Sorting a set of names gives the strictly ascending list of exactly those names. |
| Text.SortedListUnique | backend/src/services/sync_service.py:117-119 | Two strictly sorted lists of the same names are equal, so the sort result is determined. |
| Text.ParseIntOfNat | backend/src/services/database.py:346-349 | `int()` of a rendered natural number gives it back. |
| Text.FirstDigitRunSpec | backend/src/services/container_manager.py:333-339 | The first `\d+` run exists exactly when the text has a digit, and it is made of digits only. |
| Text.JoinSplitOn | backend/src/services/database.py:345 | Joining `split('.')` with `.` gives back the text, and no piece contains the separator. |
| Wrappers.FirstSomeLeftmost | backend/src/services/container_manager.py:292-301 | The first-match search returns the leftmost match, and none when no entry matches. |

## Left out

- Docker, SQLite, `docker exec` and the network are not called. The runtime is the abstract `Driver.Runtime`. The outcome of every external step (network or container creation, attach refusal, removal faults, `ip addr` probe replies, `tc` command results, saving the rule file) is a parameter of the operation.
- `utils/docker_exec.py`, `metrics_collector.py`, `influxdb_writer.py` and the API routes are not part of this model.
- Threads: `sync_active_clusters` and the destroy/create phases run work in a thread pool and collect results in completion order. The model runs them sequentially in sorted name order (clusters in id order). The separate database session per worker is one shared store.
- Set iteration order in Python is replaced by sorted order wherever the source iterates over a set.
- Row ids are modelled as autoincrement counters. SQLite may reuse the largest id after a delete; that reuse is not modelled.
- Store.DatabaseService.ListClusters and Store.DatabaseService.GetClusterDevices order by id, where the source orders by `created_at` (`database.py:83`, `:253`). With timestamps left out, ascending ids stand in for creation order, so "newest first" means descending id.
- Timestamps (`created_at`, `updated_at`) are not modelled.
- `calculate_bandwidth` (floating-point arithmetic) is not modelled.
- `_detect_interface_mapping` (a `docker exec` plus IP parsing) is not modelled. Its result, the interface-to-client map, is a parameter of `Parsers.ClientOfInterface` and of the `RouterManager` mappings. The module-level cache is that parameter being fixed.
- `save_rules` and `reset_to_defaults` in `router_manager.py` are not modelled. `save_rules` writes a JSON file, and its success is the `saved` parameter of `ApplyRuleConfig`. `reset_to_defaults` runs a shell script.
- Character classes `\d` and `\w`, `str.lower()` and the digits `int()` accepts are ASCII only; Unicode digits, letters and case mappings are not modelled. Whitespace (`\s`, `str.isspace`, `split()`, `strip()`) follows Python's full Unicode set in `Text.IsSpace`.
- Docker's name filter `qc_*` is modelled as a substring match on `qc`, as Docker evaluates it. Docker's exact "not found" error text for a missing orphan container is modelled as `No such container: <name>`.
- `Reconciler.SyncService.ExecuteCreates` and `Reconciler.SyncService.UpdateKeptDevices` skip a name with no desired device. `Reconciler.PlanFound` shows this cannot happen for a planned name.
- Driver exceptions other than the modelled outcomes (for example a Docker daemon failure in `get_running_containers`) are not modelled.
- Log lines and `print` output are not modelled.

## Findings

| source | as written | input that shows it | evidently intended | confidence | as-written member | corrected member |
|---|---|---|---|---|---|---|
| backend/src/services/sync_service.py:34 | `success_count` is `len(created) + len(destroyed) - len(errors)`, but failed operations are never in `created` or `destroyed`, so errors are subtracted twice | `sync_cluster` for a cluster id that does not exist: no operations, one error, so `success_count` is -1 | `success_count` is `len(created) + len(destroyed)`, so that success plus error counts add up to the operations attempted | high; not executed | Reconciler.ToDictAsWritten (shown by Reconciler.SuccessCountAsWrittenNegative) | Reconciler.ToDict (proved by Reconciler.SuccessCountAsWrittenDoubleCounts and Reconciler.SyncAccounts) |

The IFB naming in the reconciler (`sync_service.py:368` and `:413`, derived by
replacing `eth`) and in tc setup (`container_manager.py:333-339`, first digit
run) disagree for names without `eth`. `Reconciler.IfbRulesDisagree` and
`Reconciler.IfbRulesAgreeOnEth` state where they differ and where they agree.
The model keeps both rules as written.
