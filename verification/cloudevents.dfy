/** The event reported to the control plane when the instance is about to
    be reclaimed or a rebalance is recommended. */
module CloudEvents {
  import opened Wrappers
  import opened Nodes

  const EventInterrupted := "interrupted"
  const EventRebalanceRecommendation := "rebalanceRecommendation"

  /** The request body: the event tag, the control plane's id of the node,
      and the cloud instance id, which is left out (not empty) when unknown. */
  datatype CloudEventRequest = CloudEventRequest(eventType: string, nodeID: string, providerID: Option<string>)

  /** Whether two nodes carry the same identity: the same control-plane id
      label (or both none) and the same cloud instance id. */
  predicate SameIdentity(a: Node, b: Node)
  {
    (CastNodeIDLabel in LabelsOf(a) <==> CastNodeIDLabel in LabelsOf(b)) &&
    (CastNodeIDLabel in LabelsOf(a) ==> LabelsOf(a)[CastNodeIDLabel] == LabelsOf(b)[CastNodeIDLabel]) &&
    a.providerID == b.providerID
  }

  /** The request built from the node just read. */
  function BuildRequest(eventType: string, node: Node): (r: CloudEventRequest)
    ensures r.eventType == eventType
    ensures CastNodeIDLabel in LabelsOf(node) ==> r.nodeID == LabelsOf(node)[CastNodeIDLabel]
    ensures CastNodeIDLabel !in LabelsOf(node) ==> r.nodeID == ""
    ensures r.providerID.Some? <==> node.providerID != ""
    ensures r.providerID.Some? ==> r.providerID.value == node.providerID
  {
    CloudEventRequest(
      eventType,
      if CastNodeIDLabel in LabelsOf(node) then LabelsOf(node)[CastNodeIDLabel] else "",
      if node.providerID != "" then Some(node.providerID) else None)
  }

  /** The request depends on the node's identity alone: annotations, other
      labels, taints and schedulability play no part (in particular no
      annotation overrides the instance id). */
  lemma RequestDependsOnIdentity(eventType: string, a: Node, b: Node)
    requires SameIdentity(a, b)
    ensures BuildRequest(eventType, a) == BuildRequest(eventType, b)
  {
  }

  /** Draining keeps the identity, so a report built after the drain would
      be the same report. */
  lemma DrainKeepsIdentity(n: Node)
    requires n.labels.Some?
    ensures SameIdentity(n, Drain(n))
  {
    assert CastNodeIDLabel != DrainingLabel by {
      assert CastNodeIDLabel[0] != DrainingLabel[0];
    }
  }
}
