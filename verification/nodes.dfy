/** The Kubernetes node as the handler sees it, the drain it applies to it,
    and the patch that carries a change to the cluster API. */
module Nodes {
  import opened Wrappers

  const CastNodeIDLabel := "provisioner.cast.ai/node-id"
  const DrainingTaintKey := "autoscaling.cast.ai/draining"
  const DrainingTaintEffect := "NoSchedule"
  const DrainingLabel := "autoscaling.cast.ai/draining"
  const DrainingReasonInterrupted := "spot-interruption"
  const TrueValue := "true"

  datatype Taint = Taint(key: string, value: string, effect: string)

  /** The taint the drain appends. */
  const DrainingTaint := Taint(DrainingTaintKey, TrueValue, DrainingTaintEffect)

  /** The fields of a node the handler reads or writes. `labels` is `None`
      for a node whose label map is nil; `annotations` stands for the fields
      the handler never touches. */
  datatype Node = Node(
    name: string,
    labels: Option<map<string, string>>,
    annotations: map<string, string>,
    providerID: string,
    unschedulable: bool,
    taints: seq<Taint>)

  /** Reading a nil label map yields nothing, as in Go. */
  function LabelsOf(n: Node): map<string, string>
  {
    match n.labels
    case None => map[]
    case Some(m) => m
  }

  /** The change `taintNode` makes to the node: unschedulable, the draining
      label with the interruption reason, and the draining taint after the
      existing ones. Writing into a nil label map panics in Go, so the map
      must exist. */
  function Drain(n: Node): (r: Node)
    requires n.labels.Some?
    ensures r.unschedulable
    ensures r.labels.Some? && DrainingLabel in LabelsOf(r)
    ensures LabelsOf(r)[DrainingLabel] == DrainingReasonInterrupted
    ensures forall k :: k != DrainingLabel ==>
      (k in LabelsOf(r) <==> k in LabelsOf(n)) && (k in LabelsOf(n) ==> LabelsOf(r)[k] == LabelsOf(n)[k])
    ensures |r.taints| == |n.taints| + 1
    ensures r.taints[..|n.taints|] == n.taints && r.taints[|n.taints|] == DrainingTaint
    ensures r.name == n.name && r.annotations == n.annotations && r.providerID == n.providerID
  {
    n.(unschedulable := true,
       labels := Some(n.labels.value[DrainingLabel := DrainingReasonInterrupted]),
       taints := n.taints + [DrainingTaint])
  }

  // ---------------------------------------------------------------------------
  // Patches: the fields that changed between two versions of a node

  /** The change of a string map: keys set to new values and keys removed. */
  datatype MapDelta = MapDelta(put: map<string, string>, removed: set<string>)

  const NoMapChange := MapDelta(map[], {})

  /** A merge patch for a node. A map is patched key by key; `unschedulable`
      and the taint list (which has no merge key) are replaced whole when
      present. */
  datatype NodePatch = NodePatch(
    labels: MapDelta,
    annotations: MapDelta,
    unschedulable: Option<bool>,
    taints: Option<seq<Taint>>)

  /** The patch that changes nothing. */
  const EmptyPatch := NodePatch(NoMapChange, NoMapChange, None, None)

  function MapDiff(a: map<string, string>, b: map<string, string>): (d: MapDelta)
    ensures forall k :: k in d.put <==> k in b && (k !in a || a[k] != b[k])
    ensures forall k :: k in d.put ==> d.put[k] == b[k]
    ensures d.removed == a.Keys - b.Keys
  {
    MapDelta(map k | k in b && (k !in a || a[k] != b[k]) :: b[k], a.Keys - b.Keys)
  }

  function MapApply(m: map<string, string>, d: MapDelta): map<string, string>
  {
    (m - d.removed) + d.put
  }

  lemma MapDiffApply(a: map<string, string>, b: map<string, string>)
    ensures MapApply(a, MapDiff(a, b)) == b
  {
    var r := MapApply(a, MapDiff(a, b));
    assert forall k :: k in r <==> k in b;
  }

  /** The patch that carries exactly the fields that differ between
      `before` and `after`. */
  function Diff(before: Node, after: Node): (p: NodePatch)
    ensures p.unschedulable.Some? <==> before.unschedulable != after.unschedulable
    ensures p.unschedulable.Some? ==> p.unschedulable.value == after.unschedulable
    ensures p.taints.Some? <==> before.taints != after.taints
    ensures p.taints.Some? ==> p.taints.value == after.taints
    ensures before == after ==> p == EmptyPatch
  {
    NodePatch(
      MapDiff(LabelsOf(before), LabelsOf(after)),
      MapDiff(before.annotations, after.annotations),
      if before.unschedulable == after.unschedulable then None else Some(after.unschedulable),
      if before.taints == after.taints then None else Some(after.taints))
  }

  /** What the API server does with a patch: the node it holds now, with the
      patched fields changed and every other field as it is. */
  function ApplyPatch(n: Node, p: NodePatch): (r: Node)
    ensures r.name == n.name && r.providerID == n.providerID
    ensures p == EmptyPatch ==> r == n
  {
    n.(labels := if p.labels == NoMapChange then n.labels else Some(MapApply(LabelsOf(n), p.labels)),
       annotations := MapApply(n.annotations, p.annotations),
       unschedulable := if p.unschedulable.Some? then p.unschedulable.value else n.unschedulable,
       taints := if p.taints.Some? then p.taints.value else n.taints)
  }

  /** Applying the diff to the node it was computed from yields the changed
      node. */
  lemma DiffApply(before: Node, after: Node)
    requires before.labels.Some? && after.labels.Some?
    requires before.name == after.name && before.providerID == after.providerID
    ensures ApplyPatch(before, Diff(before, after)) == after
  {
    MapDiffApply(LabelsOf(before), LabelsOf(after));
    MapDiffApply(before.annotations, after.annotations);
    var d := MapDiff(LabelsOf(before), LabelsOf(after));
    if d == NoMapChange {
      assert LabelsOf(before) == MapApply(LabelsOf(before), d) == LabelsOf(after);
    }
  }

  /** The drain patch carries exactly three fields: the draining label (when
      it is not already there), `unschedulable = true`, and the whole taint
      list with the draining taint appended. */
  lemma DrainPatch(n: Node)
    requires n.labels.Some? && !n.unschedulable
    ensures Diff(n, Drain(n)).labels ==
      if DrainingLabel in LabelsOf(n) && LabelsOf(n)[DrainingLabel] == DrainingReasonInterrupted
      then NoMapChange
      else MapDelta(map[DrainingLabel := DrainingReasonInterrupted], {})
    ensures Diff(n, Drain(n)).annotations == NoMapChange
    ensures Diff(n, Drain(n)).unschedulable == Some(true)
    ensures Diff(n, Drain(n)).taints == Some(n.taints + [DrainingTaint])
  {
    var d := Diff(n, Drain(n));
    assert d.labels.removed == {};
    assert d.annotations.removed == {};
    assert n.taints != n.taints + [DrainingTaint] by {
      assert |n.taints + [DrainingTaint]| == |n.taints| + 1;
    }
  }

  /** The drain patch applied to a node that another writer has changed
      since it was read: the other writer's labels and annotations survive,
      but its taints do not, since the taint list is replaced whole. (When
      the node as read already carried the draining label, the patch does
      not touch labels at all.) */
  lemma DrainPatchOnConcurrentNode(n: Node, current: Node)
    requires n.labels.Some? && !n.unschedulable && current.labels.Some?
    ensures ApplyPatch(current, Diff(n, Drain(n))).unschedulable
    ensures LabelsOf(ApplyPatch(current, Diff(n, Drain(n)))) ==
      if DrainingLabel in LabelsOf(n) && LabelsOf(n)[DrainingLabel] == DrainingReasonInterrupted
      then LabelsOf(current)
      else LabelsOf(current)[DrainingLabel := DrainingReasonInterrupted]
    ensures ApplyPatch(current, Diff(n, Drain(n))).annotations == current.annotations
    ensures ApplyPatch(current, Diff(n, Drain(n))).taints == n.taints + [DrainingTaint]
  {
    DrainPatch(n);
    var r := ApplyPatch(current, Diff(n, Drain(n)));
    assert current.annotations - {} + map[] == current.annotations;
    if !(DrainingLabel in LabelsOf(n) && LabelsOf(n)[DrainingLabel] == DrainingReasonInterrupted) {
      assert LabelsOf(current) - {} + map[DrainingLabel := DrainingReasonInterrupted]
          == LabelsOf(current)[DrainingLabel := DrainingReasonInterrupted];
    }
  }
}
