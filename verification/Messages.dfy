/** Gossip messages, the plane each travels on, and what a relay forwards
    (src/gossip/message.rs, src/gossip/plane.rs, src/gossip/service.rs, src/workload/model.rs).

    Event contents that no routing, ordering or relay decision reads are kept as one opaque
    number per event. */
module Messages {
  import opened Basics

  datatype TopologyEvent =
    | Join(node: Uuid, client: Option<nat>, details: nat)
    | Leave(node: Uuid, details: nat)
    | Alive(node: Uuid, details: nat)
    | Suspect(node: Uuid, details: nat)
    | Down(node: Uuid, details: nat)
    | NodeSchedulingUpdated(node: Uuid, details: nat)
    | NodeReadinessUpdated(node: Uuid, details: nat)
    | NodeLabelsUpdated(node: Uuid, details: nat)
    | ClusterNameUpdated(details: nat)
    | ClusterMetadataChanged(details: nat)

  datatype WorkloadPhase =
    | Pending | Pulling | Creating | VolumeUnavailable | Running | Paused
    | Stopping | Stopped | Failed | Exited(code: int) | Unknown

  /** The fields that order two updates of one workload. `stamp` is the parsed update time,
      or the parsed creation time when the update time does not parse. */
  datatype Causality = Causality(taskEpoch: nat, phaseVersion: nat, stamp: Option<int>, phase: WorkloadPhase)

  datatype WorkloadEvent =
    | UpsertSpec(id: Uuid, cause: Causality, nodeId: Uuid, owned: bool, details: nat)
    | UpsertStatus(id: Uuid, cause: Causality, owned: bool, details: nat)
    | UpsertAdmissionGroup(id: Uuid, phaseRank: nat, stamp: Option<int>, coordinator: Uuid, details: nat)
    | UpsertServiceProgress(id: Uuid, stamp: Option<int>, observed: nat, running: nat, recordRank: nat)
    | RemoveWorkload(id: Uuid, taskEpoch: nat)

  datatype DigestValue = DigestValue(
    nodeId: Uuid, snapshotVersion: nat, updatedAt: nat, freeSlots: nat, freeCpu: nat, freeMemory: nat,
    largestCpu: nat, largestMemory: nat, freeGpus: nat, gpuReady: bool)

  datatype DigestEvent = UpsertDigest(value: DigestValue) | RemoveDigest(nodeId: Uuid)

  datatype Message =
    | Void(id: Uuid)
    | Topology(id: Uuid, topology: TopologyEvent)
    | Workload(id: Uuid, workload: WorkloadEvent)
    | Job(id: Uuid, details: nat)
    | Agent(id: Uuid, details: nat)
    | Service(id: Uuid, details: nat)
    | Network(id: Uuid, details: nat)
    | Secret(id: Uuid, details: nat)
    | Volume(id: Uuid, details: nat)
    | SchedulerDigest(id: Uuid, digest: DigestEvent)
    | SecretMasterKey(id: Uuid, details: nat)

  // ----- Planes -----

  datatype Plane = ViewScoped | GlobalMetadata

  datatype PropagationClass =
    | TargetedRequired | OwnerQuorumRepair | CompactOwnerQuorum | LocalOnly | GlobalCritical

  function UpsertClass(phase: WorkloadPhase, owned: bool, carriesDefinition: bool): PropagationClass {
    match phase
    case Pending =>
      if carriesDefinition then TargetedRequired else if owned then CompactOwnerQuorum else LocalOnly
    case Pulling => if owned then CompactOwnerQuorum else LocalOnly
    case Stopping => GlobalCritical
    case Stopped => GlobalCritical
    case _ => OwnerQuorumRepair
  }

  function EventClass(event: WorkloadEvent): PropagationClass {
    match event
    case UpsertSpec(_, cause, _, owned, _) => UpsertClass(cause.phase, owned, true)
    case UpsertStatus(_, cause, owned, _) => UpsertClass(cause.phase, owned, false)
    case UpsertAdmissionGroup(_, _, _, _, _) => TargetedRequired
    case UpsertServiceProgress(_, _, _, _, _) => CompactOwnerQuorum
    case RemoveWorkload(_, _) => GlobalCritical
  }

  /** The plane chosen by the sender, from the message in memory. */
  function MessagePlane(m: Message): Plane {
    match m
    case Topology(_, ClusterNameUpdated(_)) => GlobalMetadata
    case Topology(_, ClusterMetadataChanged(_)) => GlobalMetadata
    case SecretMasterKey(_, _) => GlobalMetadata
    case Workload(_, event) => if EventClass(event) == GlobalCritical then GlobalMetadata else ViewScoped
    case _ => ViewScoped
  }

  /** The plane read by the receiver, from the tags on the wire. */
  function WirePlane(m: Message): Plane {
    match m
    case Topology(_, ClusterNameUpdated(_)) => GlobalMetadata
    case Topology(_, ClusterMetadataChanged(_)) => GlobalMetadata
    case Workload(_, RemoveWorkload(_, _)) => GlobalMetadata
    case SecretMasterKey(_, _) => GlobalMetadata
    case _ => ViewScoped
  }

  /** An upsert that reports a workload as stopping or stopped. */
  predicate IsStopReport(m: Message) {
    m.Workload? && match m.workload
      case UpsertSpec(_, cause, _, _, _) => cause.phase.Stopping? || cause.phase.Stopped?
      case UpsertStatus(_, cause, _, _) => cause.phase.Stopping? || cause.phase.Stopped?
      case _ => false
  }

  /** Sender and receiver agree on the plane except for stop reports, which the sender puts on
      the global plane while the receiver still applies the view check. */
  lemma PlanesAgreeExceptStopReports(m: Message)
    ensures MessagePlane(m) == WirePlane(m) <==> !IsStopReport(m)
    ensures WirePlane(m) == GlobalMetadata ==> MessagePlane(m) == GlobalMetadata
  {
  }

  /** The sender puts on the global plane the cluster's name and metadata, the master key, and of the
      workload events the removals and the stop reports. */
  lemma GlobalPlaneIff(m: Message)
    ensures MessagePlane(m) == GlobalMetadata <==>
              || m.SecretMasterKey?
              || (m.Topology? && (m.topology.ClusterNameUpdated? || m.topology.ClusterMetadataChanged?))
              || (m.Workload? && (m.workload.RemoveWorkload? || IsStopReport(m)))
    ensures IsStopReport(m) <==>
              && m.Workload? && (m.workload.UpsertSpec? || m.workload.UpsertStatus?)
              && m.workload.cause.phase in {WorkloadPhase.Stopping, WorkloadPhase.Stopped}
  {
  }

  // ----- Relay -----

  predicate ShouldRelay(relayInbound: bool, m: Message) {
    relayInbound || MessagePlane(m) == GlobalMetadata || m.Network?
  }

  /** The message forwarded for an inbound one: nothing for a heartbeat, and a join without the
      capability that only its original connection may export. */
  function ForForwarding(m: Message): Option<Message> {
    match m
    case Void(_) => None
    case Topology(id, Join(node, _, details)) => Some(Topology(id, Join(node, None, details)))
    case _ => Some(m)
  }

  /** Forwarding keeps the whole message but for the capability of a join: the identifier, both planes and the peer a message is about, never carries
      a capability, and a second relay forwards the same message again. */
  lemma ForwardingPreserves(m: Message, peer: Uuid)
    ensures ForForwarding(m).None? <==> m.Void?
    ensures ForForwarding(m).Some? ==>
              var f := ForForwarding(m).value;
              && f.id == m.id && MessagePlane(f) == MessagePlane(m) && WirePlane(f) == WirePlane(m)
              && TargetsPeer(f, peer) == TargetsPeer(m, peer)
              && (f.Topology? && f.topology.Join? ==> f.topology.client == None)
              && (m.Topology? && m.topology.Join? ==> f == m.(topology := m.topology.(client := None)))
              && (!(m.Topology? && m.topology.Join?) ==> f == m)
              && ForForwarding(f) == Some(f)
  {
  }

  // ----- Peer filtering -----

  function DigestNode(event: DigestEvent): Uuid {
    match event
    case UpsertDigest(value) => value.nodeId
    case RemoveDigest(nodeId) => nodeId
  }

  /** Whether a message is about the given peer. */
  predicate TargetsPeer(m: Message, peer: Uuid) {
    match m
    case Topology(_, ClusterNameUpdated(_)) => false
    case Topology(_, ClusterMetadataChanged(_)) => false
    case Topology(_, event) => event.node == peer
    case SchedulerDigest(_, event) => DigestNode(event) == peer
    case _ => false
  }

  /** The message is an event or a digest of the given node, by its own fields. */
  predicate Names(m: Message, node: Uuid) {
    || (m.Topology? && !m.topology.ClusterNameUpdated? && !m.topology.ClusterMetadataChanged? && m.topology.node == node)
    || (m.SchedulerDigest? && m.digest.UpsertDigest? && m.digest.value.nodeId == node)
    || (m.SchedulerDigest? && m.digest.RemoveDigest? && m.digest.nodeId == node)
  }

  lemma TargetsThePeerItNames(m: Message, peer: Uuid)
    ensures TargetsPeer(m, peer) <==> Names(m, peer)
  {
  }
}
