/**
 * The router's traffic-shaping manager: the interface, client and IFB maps it
 * builds at start-up, the `tc class change` commands a bandwidth rule turns
 * into, whole configurations, rule deletion, and reading the current rates
 * back from `tc class show`. Whether a router command succeeds, and what a
 * `tc class show` prints, are parameters.
 */
module Router {
  import opened Wrappers
  import opened Text
  import opened Rules
  import opened Parsers

  // ---------------------------------------------------------------- interface maps

  /** The router interfaces probed at start-up, in this order. */
  const Interfaces: seq<string> := ["eth0", "eth1", "eth2", "eth3", "eth4"]

  predicate Distinct(s: seq<string>) {
    forall i, j :: 0 <= i < j < |s| ==> s[i] != s[j]
  }

  lemma InterfacesDistinct()
    ensures Distinct(Interfaces)
  {
  }

  /** The client behind an interface, as the interface-name lookup reports it. */
  predicate Known(detected: map<string, string>, iface: string) {
    ClientOfInterface(detected, iface) != "unknown"
  }

  /** The name of the `k`-th IFB device. */
  function IfbName(k: nat): string {
    "ifb" + NatToString(k)
  }

  lemma IfbNameInjective(a: nat, b: nat)
    ensures IfbName(a) == IfbName(b) ==> a == b
  {
    if IfbName(a) == IfbName(b) {
      assert NatToString(a) == IfbName(a)[3..];
      assert NatToString(b) == IfbName(b)[3..];
      ParseIntOfNat(a);
      ParseIntOfNat(b);
    }
  }

  /** Interface -> client, for the known interfaces among `ifaces`. */
  function InterfaceClients(detected: map<string, string>, ifaces: seq<string>): map<string, string> {
    if ifaces == [] then map[]
    else
      var m := InterfaceClients(detected, ifaces[..|ifaces| - 1]);
      var iface := ifaces[|ifaces| - 1];
      if Known(detected, iface) then m[iface := ClientOfInterface(detected, iface)] else m
  }

  /** Client -> interface; a client seen on several interfaces keeps the last one. */
  function ClientInterfaces(detected: map<string, string>, ifaces: seq<string>): map<string, string> {
    if ifaces == [] then map[]
    else
      var m := ClientInterfaces(detected, ifaces[..|ifaces| - 1]);
      var iface := ifaces[|ifaces| - 1];
      if Known(detected, iface) then m[ClientOfInterface(detected, iface) := iface] else m
  }

  /** How many of `ifaces` have a known client. */
  function KnownCount(detected: map<string, string>, ifaces: seq<string>): nat {
    if ifaces == [] then 0
    else KnownCount(detected, ifaces[..|ifaces| - 1]) + if Known(detected, ifaces[|ifaces| - 1]) then 1 else 0
  }

  /** Interface -> IFB device: the known interfaces get `ifb1`, `ifb2`, ... in order. */
  function IfbAssignments(detected: map<string, string>, ifaces: seq<string>): map<string, string> {
    if ifaces == [] then map[]
    else
      var prefix := ifaces[..|ifaces| - 1];
      var iface := ifaces[|ifaces| - 1];
      var m := IfbAssignments(detected, prefix);
      if Known(detected, iface) then m[iface := IfbName(KnownCount(detected, prefix) + 1)] else m
  }

  /** Exactly the interfaces with a known client are mapped, each to its own client. */
  lemma {:induction false} InterfaceClientsSpec(detected: map<string, string>, ifaces: seq<string>)
    ensures var m := InterfaceClients(detected, ifaces);
      forall iface :: iface in m <==> iface in ifaces && Known(detected, iface)
    ensures var m := InterfaceClients(detected, ifaces);
      forall iface :: iface in m ==> m[iface] == ClientOfInterface(detected, iface)
  {
    if ifaces != [] {
      var prefix := ifaces[..|ifaces| - 1];
      InterfaceClientsSpec(detected, prefix);
      assert ifaces == prefix + [ifaces[|ifaces| - 1]];
    }
  }

  /**
   * The two maps agree: a client's interface maps back to that client, and
   * every mapped client has an interface.
   */
  lemma {:induction false} MappingsAgree(detected: map<string, string>, ifaces: seq<string>)
    requires Distinct(ifaces)
    ensures forall c :: c in ClientInterfaces(detected, ifaces) ==>
      ClientInterfaces(detected, ifaces)[c] in InterfaceClients(detected, ifaces) &&
      InterfaceClients(detected, ifaces)[ClientInterfaces(detected, ifaces)[c]] == c
    ensures forall iface :: iface in InterfaceClients(detected, ifaces) ==>
      InterfaceClients(detected, ifaces)[iface] in ClientInterfaces(detected, ifaces)
  {
    if ifaces != [] {
      var prefix := ifaces[..|ifaces| - 1];
      var x := ifaces[|ifaces| - 1];
      assert Distinct(prefix);
      MappingsAgree(detected, prefix);
      InterfaceClientsSpec(detected, prefix);
      assert x !in prefix;
      var i2c := InterfaceClients(detected, ifaces);
      var c2i := ClientInterfaces(detected, ifaces);
      var i2c0 := InterfaceClients(detected, prefix);
      var c2i0 := ClientInterfaces(detected, prefix);
      if Known(detected, x) {
        var c := ClientOfInterface(detected, x);
        assert i2c == i2c0[x := c] && c2i == c2i0[c := x];
        forall c' | c' in c2i
          ensures c2i[c'] in i2c && i2c[c2i[c']] == c'
        {
          if c' != c {
            assert c' in c2i0;
            assert c2i0[c'] in i2c0 && i2c0[c2i0[c']] == c';
            assert c2i0[c'] != x;
          }
        }
        forall iface | iface in i2c
          ensures i2c[iface] in c2i
        {
          if iface != x {
            assert iface in i2c0 && i2c0[iface] in c2i0;
          }
        }
      }
    }
  }

  /** The IFB map covers the same interfaces, with no IFB device shared. */
  lemma {:induction false} IfbAssignmentsDistinct(detected: map<string, string>, ifaces: seq<string>)
    requires Distinct(ifaces)
    ensures IfbAssignments(detected, ifaces).Keys == InterfaceClients(detected, ifaces).Keys
    ensures var m := IfbAssignments(detected, ifaces);
      forall a, b :: a in m && b in m && a != b ==> m[a] != m[b]
    ensures var m := IfbAssignments(detected, ifaces);
      forall a, n: nat :: a in m && n > KnownCount(detected, ifaces) ==> m[a] != IfbName(n)
  {
    IfbKeys(detected, ifaces);
    IfbAboveCount(detected, ifaces);
    IfbValuesDistinct(detected, ifaces);
  }

  /** The IFB map has a key for exactly the known interfaces. */
  lemma {:induction false} IfbKeys(detected: map<string, string>, ifaces: seq<string>)
    ensures IfbAssignments(detected, ifaces).Keys == InterfaceClients(detected, ifaces).Keys
  {
    if ifaces != [] {
      IfbKeys(detected, ifaces[..|ifaces| - 1]);
    }
  }

  /** No value of `m` is an IFB name numbered beyond `k`. */
  ghost predicate NoIfbAbove(m: map<string, string>, k: nat) {
    forall a, n: nat :: a in m && n > k ==> m[a] != IfbName(n)
  }

  /** No IFB name is numbered beyond the count of known interfaces. */
  lemma {:induction false} IfbAboveCount(detected: map<string, string>, ifaces: seq<string>)
    ensures NoIfbAbove(IfbAssignments(detected, ifaces), KnownCount(detected, ifaces))
  {
    if ifaces != [] {
      var prefix := ifaces[..|ifaces| - 1];
      var x := ifaces[|ifaces| - 1];
      var k := KnownCount(detected, prefix);
      var m0 := IfbAssignments(detected, prefix);
      IfbAboveCount(detected, prefix);
      assert NoIfbAbove(m0, k);
      if Known(detected, x) {
        var m := m0[x := IfbName(k + 1)];
        assert KnownCount(detected, ifaces) == k + 1;
        assert IfbAssignments(detected, ifaces) == m;
        forall a, n: nat | a in m && n > k + 1
          ensures m[a] != IfbName(n)
        {
          if a == x {
            IfbNameInjective(k + 1, n);
          } else {
            assert m[a] == m0[a];
          }
        }
      } else {
        assert KnownCount(detected, ifaces) == k;
        assert IfbAssignments(detected, ifaces) == m0;
      }
    }
  }

  /** Distinct interfaces get distinct IFB names. */
  lemma {:induction false} IfbValuesDistinct(detected: map<string, string>, ifaces: seq<string>)
    requires Distinct(ifaces)
    ensures var m := IfbAssignments(detected, ifaces);
      forall a, b :: a in m && b in m && a != b ==> m[a] != m[b]
  {
    if ifaces != [] {
      var prefix := ifaces[..|ifaces| - 1];
      var x := ifaces[|ifaces| - 1];
      assert Distinct(prefix);
      assert x !in prefix;
      IfbValuesDistinct(detected, prefix);
      IfbAboveCount(detected, prefix);
      IfbKeys(detected, prefix);
      InterfaceClientsSpec(detected, prefix);
    }
  }

  // ---------------------------------------------------------------- class commands

  /** Parent handles: the physical interface's root class and the IFB device's. */
  const PhysicalParent := "1:1"
  const IfbParent := "2:1"

  /** One `tc class change ... htb rate R ceil L` command. */
  datatype ClassChange = ClassChange(device: string, parent: string, classId: string, rate: string, ceil: string) {
    function Text(): string {
      "tc class change dev " + device + " parent " + parent + " classid " + classId + " htb rate " + rate + " ceil " + ceil
    }
  }

  /** An optional value as a format string renders it. */
  function Render(o: Option<string>): string {
    if o.Some? then o.value else "None"
  }

  function OptionSeq<T>(o: Option<T>): seq<T> {
    if o.Some? then [o.value] else []
  }

  /** A rule is bidirectional as soon as either direction's rate is given. */
  predicate IsBidirectional(rule: BandwidthRule) {
    rule.downstreamRate.Some? || rule.upstreamRate.Some?
  }

  /** The downstream change, when both downstream values are given. */
  function DownstreamChange(rule: BandwidthRule): (r: Option<ClassChange>)
    ensures r.Some? <==> Truthy(rule.downstreamRate) && Truthy(rule.downstreamCeil)
    ensures r.Some? ==> r.value.device == rule.interface && r.value.parent == PhysicalParent && r.value.classId == rule.classId
  {
    if Truthy(rule.downstreamRate) && Truthy(rule.downstreamCeil)
    then Some(ClassChange(rule.interface, PhysicalParent, rule.classId, rule.downstreamRate.value, rule.downstreamCeil.value))
    else None
  }

  /** The upstream change on the interface's IFB device, with handle `2:` in place of `1:`. */
  function UpstreamChange(rule: BandwidthRule, ifb: map<string, string>): (r: Option<ClassChange>)
    ensures r.Some? <==> Truthy(rule.upstreamRate) && Truthy(rule.upstreamCeil) && rule.interface in ifb && ifb[rule.interface] != ""
    ensures r.Some? ==> r.value.device == ifb[rule.interface] && r.value.parent == IfbParent
  {
    if Truthy(rule.upstreamRate) && Truthy(rule.upstreamCeil) && rule.interface in ifb && ifb[rule.interface] != ""
    then Some(ClassChange(ifb[rule.interface], IfbParent, Replace(rule.classId, "1:", "2:"), rule.upstreamRate.value, rule.upstreamCeil.value))
    else None
  }

  /** The legacy change: downstream only, absent values rendered as `None`. */
  function LegacyChange(rule: BandwidthRule): ClassChange {
    ClassChange(rule.interface, PhysicalParent, rule.classId, Render(rule.rate), Render(rule.ceil))
  }

  /** The commands a rule sends, in order; they do not depend on earlier outcomes. */
  function RuleCommands(rule: BandwidthRule, ifb: map<string, string>): seq<ClassChange> {
    if IsBidirectional(rule) then OptionSeq(DownstreamChange(rule)) + OptionSeq(UpstreamChange(rule, ifb))
    else [LegacyChange(rule)]
  }

  /** The reported outcome: only a downstream (or legacy) change that fails makes it false. */
  predicate RuleSucceeds(rule: BandwidthRule, succeeds: ClassChange -> bool) {
    if IsBidirectional(rule) then
      match DownstreamChange(rule)
      case Some(c) => succeeds(c)
      case None => true
    else succeeds(LegacyChange(rule))
  }

  /**
   * A rule succeeds exactly when every command it sends to the physical
   * interface succeeds: a failing upstream change never counts, and every
   * command goes either to the rule's interface under `1:1` or to its IFB
   * device under `2:1`.
   */
  lemma RuleOutcome(rule: BandwidthRule, ifb: map<string, string>, succeeds: ClassChange -> bool)
    ensures RuleSucceeds(rule, succeeds) <==>
      forall c :: c in RuleCommands(rule, ifb) && c.parent == PhysicalParent ==> succeeds(c)
    ensures forall c :: c in RuleCommands(rule, ifb) ==>
      (c.parent == PhysicalParent && c.device == rule.interface && c.classId == rule.classId) ||
      (c.parent == IfbParent && rule.interface in ifb && c.device == ifb[rule.interface])
    ensures !IsBidirectional(rule) ==> |RuleCommands(rule, ifb)| == 1
  {
    assert PhysicalParent != IfbParent by {
      assert PhysicalParent[0] != IfbParent[0];
    }
  }

  // ---------------------------------------------------------------- configurations

  /** The result key of a rule: `client (interface)`. */
  function RuleName(rule: BandwidthRule): string {
    rule.client + " (" + rule.interface + ")"
  }

  const PersistenceKey := "persistence"

  /** A dictionary filled key by key; a later key overwrites an earlier equal one. */
  function Tabulate(keys: seq<string>, vals: seq<bool>): map<string, bool>
    requires |keys| == |vals|
  {
    if keys == [] then map[]
    else Tabulate(keys[..|keys| - 1], vals[..|vals| - 1])[keys[|keys| - 1] := vals[|vals| - 1]]
  }

  /** No key after index `i` equals the key at `i`. */
  predicate LastOf(keys: seq<string>, i: nat)
    requires i < |keys|
  {
    forall j :: i < j < |keys| ==> keys[j] != keys[i]
  }

  /** Every key is present and holds the value written by its last occurrence. */
  lemma {:induction false} TabulateLastWins(keys: seq<string>, vals: seq<bool>)
    requires |keys| == |vals|
    ensures forall i :: 0 <= i < |keys| && LastOf(keys, i) ==> keys[i] in Tabulate(keys, vals) && Tabulate(keys, vals)[keys[i]] == vals[i]
  {
    if keys != [] {
      var n := |keys| - 1;
      var prefix := keys[..n];
      TabulateLastWins(prefix, vals[..n]);
      forall i | 0 <= i < n && LastOf(keys, i)
        ensures keys[i] in Tabulate(keys, vals) && Tabulate(keys, vals)[keys[i]] == vals[i]
      {
        assert LastOf(prefix, i);
        assert keys[n] != keys[i];
      }
    }
  }

  /** Every key in the dictionary comes from a last occurrence. */
  lemma {:induction false} TabulateKeys(keys: seq<string>, vals: seq<bool>)
    requires |keys| == |vals|
    ensures forall k :: k in Tabulate(keys, vals) ==> exists i :: 0 <= i < |keys| && LastOf(keys, i) && keys[i] == k
  {
    if keys != [] {
      var n := |keys| - 1;
      var prefix := keys[..n];
      TabulateKeys(prefix, vals[..n]);
      forall k | k in Tabulate(keys, vals)
        ensures exists i :: 0 <= i < |keys| && LastOf(keys, i) && keys[i] == k
      {
        if k == keys[n] {
          assert LastOf(keys, n);
        } else {
          assert k in Tabulate(prefix, vals[..n]);
          var i :| 0 <= i < n && LastOf(prefix, i) && prefix[i] == k;
          assert LastOf(keys, i);
        }
      }
    }
  }

  /** The result key of every rule, in order. */
  function RuleNames(rules: seq<BandwidthRule>): (names: seq<string>)
    ensures |names| == |rules|
  {
    seq(|rules|, i requires 0 <= i < |rules| => RuleName(rules[i]))
  }

  /** The outcome of every rule, in order. */
  function RuleOutcomes(rules: seq<BandwidthRule>, succeeds: ClassChange -> bool): (oks: seq<bool>)
    ensures |oks| == |rules|
  {
    seq(|rules|, i requires 0 <= i < |rules| => RuleSucceeds(rules[i], succeeds))
  }

  /** Results per rule name; a later rule with the same name overwrites an earlier one. */
  function ConfigResults(rules: seq<BandwidthRule>, succeeds: ClassChange -> bool): map<string, bool> {
    Tabulate(RuleNames(rules), RuleOutcomes(rules, succeeds))
  }

  /** All commands of the rules, rule after rule. */
  function ConfigCommands(rules: seq<BandwidthRule>, ifb: map<string, string>): seq<ClassChange> {
    if rules == [] then []
    else ConfigCommands(rules[..|rules| - 1], ifb) + RuleCommands(rules[|rules| - 1], ifb)
  }

  /** Filling one more key extends the dictionary by that key. */
  lemma TabulateSnoc(keys: seq<string>, vals: seq<bool>, i: nat)
    requires |keys| == |vals| && i < |keys|
    ensures Tabulate(keys[..i + 1], vals[..i + 1]) == Tabulate(keys[..i], vals[..i])[keys[i] := vals[i]]
  {
    assert keys[..i + 1][..i] == keys[..i];
    assert vals[..i + 1][..i] == vals[..i];
  }

  /** The commands of one more rule follow those of the earlier rules. */
  lemma ConfigCommandsSnoc(rules: seq<BandwidthRule>, ifb: map<string, string>, i: nat)
    requires i < |rules|
    ensures ConfigCommands(rules[..i + 1], ifb) == ConfigCommands(rules[..i], ifb) + RuleCommands(rules[i], ifb)
  {
    assert rules[..i + 1][..i] == rules[..i];
  }

  /** The save is attempted, and its outcome recorded, only when every recorded result is true. */
  function WithPersistence(results: map<string, bool>, saved: bool): map<string, bool> {
    if forall k :: k in results ==> results[k] then results[PersistenceKey := saved] else results
  }

  /** A rule's result key can never be mistaken for the persistence key. */
  lemma RuleNameNotPersistence(rule: BandwidthRule)
    ensures RuleName(rule) != PersistenceKey
  {
    var r := RuleName(rule);
    assert r[|rule.client| + 1] == '(';
  }

  /**
   * `persistence` is recorded, with the save's outcome, exactly when the
   * last rule under every name succeeded; an earlier failure under a name
   * used again is hidden.
   */
  lemma PersistenceWhenAllSucceed(rules: seq<BandwidthRule>, succeeds: ClassChange -> bool, saved: bool)
    ensures var results := WithPersistence(ConfigResults(rules, succeeds), saved);
      PersistenceKey in results <==>
        forall i :: 0 <= i < |rules| && LastOf(RuleNames(rules), i) ==> RuleSucceeds(rules[i], succeeds)
    ensures var results := WithPersistence(ConfigResults(rules, succeeds), saved);
      PersistenceKey in results ==> results[PersistenceKey] == saved
  {
    var names := RuleNames(rules);
    var oks := RuleOutcomes(rules, succeeds);
    var m := ConfigResults(rules, succeeds);
    TabulateLastWins(names, oks);
    TabulateKeys(names, oks);
    forall k | k in m
      ensures k != PersistenceKey
    {
      var i :| 0 <= i < |names| && LastOf(names, i) && names[i] == k;
      RuleNameNotPersistence(rules[i]);
    }
    if forall i :: 0 <= i < |rules| && LastOf(names, i) ==> RuleSucceeds(rules[i], succeeds) {
      forall k | k in m
        ensures m[k]
      {
        var i :| 0 <= i < |names| && LastOf(names, i) && names[i] == k;
        assert oks[i] == RuleSucceeds(rules[i], succeeds);
      }
    } else {
      var i :| 0 <= i < |rules| && LastOf(names, i) && !RuleSucceeds(rules[i], succeeds);
      assert oks[i] == RuleSucceeds(rules[i], succeeds);
    }
  }

  // ---------------------------------------------------------------- deleting a rule

  const Unlimited := "1000mbit"
  const DefaultClass := "1:30"

  /** The rule that lifts a client's limits: unlimited in both directions on class `1:30`. */
  function UnlimitedRule(client: string, iface: string): BandwidthRule {
    BandwidthRule(iface, client, DefaultClass, Some(Unlimited), Some(Unlimited), Some(Unlimited), Some(Unlimited),
      None, None, Some("Unlimited bandwidth for " + client))
  }

  /**
   * Lifting a limit changes class `1:30` on the interface, and class `2:30`
   * on its IFB device when it has one; only the first change decides the
   * outcome.
   */
  lemma UnlimitedCommands(client: string, iface: string, ifb: map<string, string>, succeeds: ClassChange -> bool)
    ensures RuleCommands(UnlimitedRule(client, iface), ifb) ==
      [ClassChange(iface, PhysicalParent, DefaultClass, Unlimited, Unlimited)] +
      (if iface in ifb && ifb[iface] != "" then [ClassChange(ifb[iface], IfbParent, "2:30", Unlimited, Unlimited)] else [])
    ensures RuleSucceeds(UnlimitedRule(client, iface), succeeds) == succeeds(ClassChange(iface, PhysicalParent, DefaultClass, Unlimited, Unlimited))
  {
    var rule := UnlimitedRule(client, iface);
    assert Truthy(rule.downstreamRate) && Truthy(rule.upstreamRate) by {
      assert Unlimited[0] == '1';
    }
    assert Replace(DefaultClass, "1:", "2:") == "2:30" by {
      assert "1:" <= DefaultClass;
      assert DefaultClass[2..] == "30";
      assert Replace("30", "1:", "2:") == "30";
    }
  }

  // ---------------------------------------------------------------- reading the configuration back

  /** At each position, the run after `kw` when `kw` occurs there followed by a non-space. */
  function RunMatches(line: string, kw: string): (m: seq<Option<string>>)
    ensures |m| == |line|
  {
    seq(|line|, j requires 0 <= j < |line| => if At(line, j, kw) then RunAt(line, j + |kw|, NonSpace) else None)
  }

  /** `re.search(kw + r'(\S+)', line)`: the run after the leftmost matching position. */
  function FirstRunAfter(line: string, kw: string): Option<string> {
    FirstSome(RunMatches(line, kw), 0)
  }

  /** Rate and ceiling of a line naming the class, when both patterns match. */
  function LineRates(line: string, marker: string): Option<(string, string)> {
    if !Contains(line, marker) then None
    else
      match (FirstRunAfter(line, "rate "), FirstRunAfter(line, "ceil "))
      case (Some(rate), Some(ceil)) => Some((rate, ceil))
      case _ => None
  }

  /** The last present entry. */
  function LastSome<T>(found: seq<Option<T>>): Option<T> {
    if found == [] then None
    else if found[|found| - 1].Some? then found[|found| - 1]
    else LastSome(found[..|found| - 1])
  }

  /** The entry found is present and every later one absent; None means none is present. */
  lemma {:induction false} LastSomeLatest<T>(found: seq<Option<T>>)
    ensures var r := LastSome(found);
      r.Some? ==>
        exists j :: 0 <= j < |found| && found[j] == r && forall k :: j < k < |found| ==> found[k].None?
    ensures LastSome(found).None? ==> forall k :: 0 <= k < |found| ==> found[k].None?
  {
    if found != [] {
      var n := |found| - 1;
      var prefix := found[..n];
      if found[n].Some? {
        assert found[n] == LastSome(found);
      } else {
        assert LastSome(found) == LastSome(prefix);
        LastSomeLatest(prefix);
        if LastSome(prefix).Some? {
          var j :| 0 <= j < n && prefix[j] == LastSome(prefix) && forall k :: j < k < n ==> prefix[k].None?;
          assert found[j] == prefix[j];
          forall k | j < k < |found|
            ensures found[k].None?
          {
            if k < n {
              assert found[k] == prefix[k];
            }
          }
        } else {
          forall k | 0 <= k < |found|
            ensures found[k].None?
          {
            if k < n {
              assert found[k] == prefix[k];
            }
          }
        }
      }
    }
  }

  /** What each line yields. */
  function LinesRates(lines: seq<string>, marker: string): (found: seq<Option<(string, string)>>)
    ensures |found| == |lines|
  {
    seq(|lines|, i requires 0 <= i < |lines| => LineRates(lines[i], marker))
  }

  /** The rates of the last line that yields them. */
  function ScanRates(lines: seq<string>, marker: string): Option<(string, string)> {
    LastSome(LinesRates(lines, marker))
  }

  /** What a device's class listing yields; a failed `tc class show` yields nothing. */
  function DeviceRates(show: string -> Option<string>, device: string, marker: string): Option<(string, string)> {
    match show(device)
    case None => None
    case Some(output) => ScanRates(SplitOn(output, '\n'), marker)
  }

  const DownstreamMarker := "1:30"
  const UpstreamMarker := "2:30"

  /** The rule built from what was read: only when a downstream rate and ceiling were found. */
  function ReportedRule(iface: string, client: string, down: Option<(string, string)>, up: Option<(string, string)>): Option<BandwidthRule> {
    match down
    case Some((rate, ceil)) =>
      if rate != "" && ceil != "" then
        Some(BandwidthRule(iface, client, DefaultClass, Some(rate), Some(ceil),
          if up.Some? then Some(up.value.0) else None, if up.Some? then Some(up.value.1) else None,
          Some(rate), Some(ceil), Some("Current rule for " + client)))
      else None
    case None => None
  }

  /** What the interface's IFB device yields, when it has one. */
  function UpstreamRates(iface: string, ifb: map<string, string>, show: string -> Option<string>): Option<(string, string)> {
    if iface in ifb && ifb[iface] != "" then DeviceRates(show, ifb[iface], UpstreamMarker) else None
  }

  /** The rule reported for one interface. */
  function CurrentRule(iface: string, client: string, ifb: map<string, string>, show: string -> Option<string>): Option<BandwidthRule> {
    ReportedRule(iface, client, DeviceRates(show, iface, DownstreamMarker), UpstreamRates(iface, ifb, show))
  }

  /** The interfaces of `i2c`, in probing order. */
  function ListedInterfaces(ifaces: seq<string>, i2c: map<string, string>): (r: seq<string>)
    ensures forall i :: 0 <= i < |r| ==> r[i] in i2c
  {
    if ifaces == [] then []
    else
      var rest := ListedInterfaces(ifaces[..|ifaces| - 1], i2c);
      if ifaces[|ifaces| - 1] in i2c then rest + [ifaces[|ifaces| - 1]] else rest
  }

  /** The reported rules for the listed interfaces, in order. */
  function CurrentRules(listed: seq<string>, i2c: map<string, string>, ifb: map<string, string>, show: string -> Option<string>): seq<BandwidthRule>
    requires forall i :: 0 <= i < |listed| ==> listed[i] in i2c
  {
    if listed == [] then []
    else
      var iface := listed[|listed| - 1];
      CurrentRules(listed[..|listed| - 1], i2c, ifb, show) + OptionSeq(CurrentRule(iface, i2c[iface], ifb, show))
  }

  /**
   * A reported rule is bidirectional, names its interface's client and class
   * `1:30`, repeats the downstream values in the legacy fields, and has an
   * upstream rate only through an IFB device; applying it again sends the
   * same downstream change first.
   */
  lemma CurrentRuleShape(iface: string, client: string, ifb: map<string, string>, show: string -> Option<string>)
    ensures var r := CurrentRule(iface, client, ifb, show);
      var down := DeviceRates(show, iface, DownstreamMarker);
      r.Some? <==> down.Some? && down.value.0 != "" && down.value.1 != ""
    ensures var r := CurrentRule(iface, client, ifb, show);
      r.Some? ==>
        && r.value.interface == iface && r.value.client == client && r.value.classId == DefaultClass
        && IsBidirectional(r.value)
        && r.value.rate == r.value.downstreamRate && r.value.ceil == r.value.downstreamCeil
        && (r.value.upstreamRate.Some? ==> iface in ifb)
        && RuleCommands(r.value, ifb)[0] ==
             ClassChange(iface, PhysicalParent, DefaultClass, r.value.downstreamRate.value, r.value.downstreamCeil.value)
  {
  }

  /** Reading one more listed interface appends its rule, if it has one. */
  lemma CurrentRulesSnoc(listed: seq<string>, i2c: map<string, string>, ifb: map<string, string>, show: string -> Option<string>, i: nat)
    requires forall k :: 0 <= k < |listed| ==> listed[k] in i2c
    requires i < |listed|
    ensures CurrentRules(listed[..i + 1], i2c, ifb, show) ==
      CurrentRules(listed[..i], i2c, ifb, show) + OptionSeq(CurrentRule(listed[i], i2c[listed[i]], ifb, show))
  {
    assert listed[..i + 1][..i] == listed[..i];
  }

  /** Every reported rule belongs to a listed interface, in listing order. */
  lemma {:induction false} CurrentRulesListed(listed: seq<string>, i2c: map<string, string>, ifb: map<string, string>, show: string -> Option<string>)
    requires forall i :: 0 <= i < |listed| ==> listed[i] in i2c
    ensures |CurrentRules(listed, i2c, ifb, show)| <= |listed|
    ensures forall r :: r in CurrentRules(listed, i2c, ifb, show) ==>
      r.interface in listed && r.client == i2c[r.interface] && CurrentRule(r.interface, r.client, ifb, show) == Some(r)
  {
    if listed != [] {
      var n := |listed| - 1;
      CurrentRulesListed(listed[..n], i2c, ifb, show);
      var rules := CurrentRules(listed, i2c, ifb, show);
      forall r | r in rules
        ensures r.interface in listed && r.client == i2c[r.interface] && CurrentRule(r.interface, r.client, ifb, show) == Some(r)
      {
        if r in CurrentRules(listed[..n], i2c, ifb, show) {
          assert r.interface in listed[..n];
        } else {
          CurrentRuleShape(listed[n], i2c[listed[n]], ifb, show);
        }
      }
    }
  }

  // ---------------------------------------------------------------- the manager

  class RouterManager {
    var clientToInterface: map<string, string>
    var interfaceToClient: map<string, string>
    var ifbMapping: map<string, string>

    /** Builds the maps from the detected interface-to-client assignment. */
    constructor (detected: map<string, string>)
      ensures clientToInterface == ClientInterfaces(detected, Interfaces)
      ensures interfaceToClient == InterfaceClients(detected, Interfaces)
      ensures ifbMapping == IfbAssignments(detected, Interfaces)
    {
      clientToInterface := map[];
      interfaceToClient := map[];
      ifbMapping := map[];
      new;
      BuildMappings(detected);
    }

    /** Two passes over the probed interfaces: the client maps, then the IFB numbering. */
    method BuildMappings(detected: map<string, string>)
      modifies this
      ensures clientToInterface == ClientInterfaces(detected, Interfaces)
      ensures interfaceToClient == InterfaceClients(detected, Interfaces)
      ensures ifbMapping == IfbAssignments(detected, Interfaces)
    {
      MapClients(detected, Interfaces);
      NumberIfbs(detected, Interfaces);
    }

    /** The first pass: each interface with a known client is entered in both client maps. */
    method MapClients(detected: map<string, string>, ifaces: seq<string>)
      modifies this
      ensures clientToInterface == ClientInterfaces(detected, ifaces)
      ensures interfaceToClient == InterfaceClients(detected, ifaces)
      ensures ifbMapping == old(ifbMapping)
    {
      clientToInterface := map[];
      interfaceToClient := map[];
      var i := 0;
      while i < |ifaces|
        invariant 0 <= i <= |ifaces|
        invariant clientToInterface == ClientInterfaces(detected, ifaces[..i])
        invariant interfaceToClient == InterfaceClients(detected, ifaces[..i])
        invariant ifbMapping == old(ifbMapping)
      {
        var iface := ifaces[i];
        var client := ClientOfInterface(detected, iface);
        if client != "unknown" {
          clientToInterface := clientToInterface[client := iface];
          interfaceToClient := interfaceToClient[iface := client];
        }
        assert ifaces[..i + 1][..i] == ifaces[..i];
        i := i + 1;
      }
      assert ifaces[..i] == ifaces;
    }

    /** The second pass: the interfaces with a known client get `ifb1`, `ifb2`, ... in order. */
    method NumberIfbs(detected: map<string, string>, ifaces: seq<string>)
      modifies this
      ensures ifbMapping == IfbAssignments(detected, ifaces)
      ensures clientToInterface == old(clientToInterface) && interfaceToClient == old(interfaceToClient)
    {
      ifbMapping := map[];
      var counter := 1;
      var i := 0;
      while i < |ifaces|
        invariant 0 <= i <= |ifaces|
        invariant ifbMapping == IfbAssignments(detected, ifaces[..i])
        invariant counter == KnownCount(detected, ifaces[..i]) + 1
        invariant clientToInterface == old(clientToInterface) && interfaceToClient == old(interfaceToClient)
      {
        var iface := ifaces[i];
        var client := ClientOfInterface(detected, iface);
        if client != "unknown" {
          ifbMapping := ifbMapping[iface := IfbName(counter)];
          counter := counter + 1;
        }
        assert ifaces[..i + 1][..i] == ifaces[..i];
        i := i + 1;
      }
      assert ifaces[..i] == ifaces;
    }

    /** Sends a rule's class changes; `succeeds` says which router commands exit with 0. */
    method ApplyBandwidthRule(rule: BandwidthRule, succeeds: ClassChange -> bool) returns (ok: bool, sent: seq<ClassChange>)
      ensures sent == RuleCommands(rule, ifbMapping)
      ensures ok == RuleSucceeds(rule, succeeds)
    {
      sent := [];
      if rule.downstreamRate.Some? || rule.upstreamRate.Some? {
        ok := true;
        if Truthy(rule.downstreamRate) && Truthy(rule.downstreamCeil) {
          var down := ClassChange(rule.interface, PhysicalParent, rule.classId, rule.downstreamRate.value, rule.downstreamCeil.value);
          sent := sent + [down];
          if !succeeds(down) {
            ok := false;
          }
        }
        if Truthy(rule.upstreamRate) && Truthy(rule.upstreamCeil) {
          if rule.interface in ifbMapping && ifbMapping[rule.interface] != "" {
            var up := ClassChange(ifbMapping[rule.interface], IfbParent, Replace(rule.classId, "1:", "2:"),
              rule.upstreamRate.value, rule.upstreamCeil.value);
            sent := sent + [up];
          }
        }
      } else {
        var legacy := LegacyChange(rule);
        sent := [legacy];
        ok := succeeds(legacy);
      }
    }

    /** The loop over the rules: each rule is applied and its outcome recorded under its name. */
    method ApplyRules(rules: seq<BandwidthRule>, succeeds: ClassChange -> bool) returns (results: map<string, bool>, sent: seq<ClassChange>)
      ensures results == ConfigResults(rules, succeeds)
      ensures sent == ConfigCommands(rules, ifbMapping)
    {
      ghost var names := RuleNames(rules);
      ghost var oks := RuleOutcomes(rules, succeeds);
      results := map[];
      sent := [];
      var i := 0;
      while i < |rules|
        invariant 0 <= i <= |rules|
        invariant results == Tabulate(names[..i], oks[..i])
        invariant sent == ConfigCommands(rules[..i], ifbMapping)
      {
        var ok, commands := ApplyBandwidthRule(rules[i], succeeds);
        TabulateSnoc(names, oks, i);
        ConfigCommandsSnoc(rules, ifbMapping, i);
        results := results[RuleName(rules[i]) := ok];
        sent := sent + commands;
        i := i + 1;
      }
      assert names[..i] == names && oks[..i] == oks;
      assert rules[..i] == rules;
    }

    /** Applies every rule, then records `persistence` when all results are true; `saved` is the save's outcome. */
    method ApplyRuleConfig(config: RuleConfig, succeeds: ClassChange -> bool, saved: bool) returns (results: map<string, bool>, sent: seq<ClassChange>)
      ensures results == WithPersistence(ConfigResults(config.rules, succeeds), saved)
      ensures sent == ConfigCommands(config.rules, ifbMapping)
    {
      results, sent := ApplyRules(config.rules, succeeds);
      if forall k :: k in results ==> results[k] {
        results := results[PersistenceKey := saved];
      }
    }

    /** Lifts a client's limits; an unknown client fails without sending anything. */
    method DeleteRule(client: string, succeeds: ClassChange -> bool) returns (ok: bool, sent: seq<ClassChange>)
      ensures !(client in clientToInterface && clientToInterface[client] != "") ==> !ok && sent == []
      ensures client in clientToInterface && clientToInterface[client] != "" ==>
        var rule := UnlimitedRule(client, clientToInterface[client]);
        sent == RuleCommands(rule, ifbMapping) && ok == RuleSucceeds(rule, succeeds)
    {
      if !(client in clientToInterface && clientToInterface[client] != "") {
        return false, [];
      }
      ok, sent := ApplyBandwidthRule(UnlimitedRule(client, clientToInterface[client]), succeeds);
    }

    /** The last line naming `marker` whose rate and ceiling both match. */
    static method ReadRates(lines: seq<string>, marker: string) returns (found: Option<(string, string)>)
      ensures found == ScanRates(lines, marker)
    {
      ghost var each := LinesRates(lines, marker);
      found := None;
      var i := 0;
      while i < |lines|
        invariant 0 <= i <= |lines|
        invariant found == LastSome(each[..i])
      {
        var here := LineRates(lines[i], marker);
        if here.Some? {
          found := here;
        }
        assert each[..i + 1][..i] == each[..i];
        i := i + 1;
      }
      assert each[..i] == each;
    }

    /** Reads one interface's class `1:30` and its IFB device's class `2:30`. */
    method ReadInterfaceRule(iface: string, client: string, show: string -> Option<string>) returns (rule: Option<BandwidthRule>)
      ensures rule == CurrentRule(iface, client, ifbMapping, show)
    {
      var down: Option<(string, string)> := None;
      var output := show(iface);
      if output.Some? {
        down := ReadRates(SplitOn(output.value, '\n'), DownstreamMarker);
      }
      var up: Option<(string, string)> := None;
      if iface in ifbMapping && ifbMapping[iface] != "" {
        var ifbOutput := show(ifbMapping[iface]);
        if ifbOutput.Some? {
          up := ReadRates(SplitOn(ifbOutput.value, '\n'), UpstreamMarker);
        }
      }
      rule := ReportedRule(iface, client, down, up);
    }

    /** Reads back the rule of every mapped interface, in probing order. */
    method GetCurrentConfig(show: string -> Option<string>) returns (config: RuleConfig)
      ensures config == RuleConfig(CurrentRules(ListedInterfaces(Interfaces, interfaceToClient), interfaceToClient, ifbMapping, show), Some([]))
    {
      var listed := ListedInterfaces(Interfaces, interfaceToClient);
      var rules: seq<BandwidthRule> := [];
      var i := 0;
      while i < |listed|
        invariant 0 <= i <= |listed|
        invariant rules == CurrentRules(listed[..i], interfaceToClient, ifbMapping, show)
      {
        var iface := listed[i];
        var found := ReadInterfaceRule(iface, interfaceToClient[iface], show);
        CurrentRulesSnoc(listed, interfaceToClient, ifbMapping, show, i);
        if found.Some? {
          rules := rules + [found.value];
        }
        i := i + 1;
      }
      assert listed[..i] == listed;
      config := RuleConfig(rules, Some([]));
    }
  }
}
