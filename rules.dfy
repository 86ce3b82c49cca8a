/**
 * The traffic-shaping request shapes of the rule API: a bandwidth rule for
 * one client interface, a QoS priority rule, and a whole configuration.
 * Constructor defaults mirror the declared field defaults.
 */
module Rules {
  import opened Wrappers

  /**
   * A bandwidth limit for one client. The four bidirectional fields and the
   * two legacy fields are optional; the traffic class defaults to `1:30`.
   */
  datatype BandwidthRule = BandwidthRule(
    interface: string,
    client: string,
    classId: string := "1:30",
    downstreamRate: Option<string> := None,
    downstreamCeil: Option<string> := None,
    upstreamRate: Option<string> := None,
    upstreamCeil: Option<string> := None,
    rate: Option<string> := None,
    ceil: Option<string> := None,
    description: Option<string> := None)

  /** A QoS priority rule; it is enabled unless said otherwise. */
  datatype QoSRule = QoSRule(
    name: string,
    protocol: string,
    port: Option<int> := None,
    tos: string,
    classId: string,
    enabled: bool := true,
    description: Option<string> := None)

  /** A complete configuration; the QoS list defaults to the empty list. */
  datatype RuleConfig = RuleConfig(rules: seq<BandwidthRule>, qosRules: Option<seq<QoSRule>> := Some([]))
}
