/** What the database holds besides the chain itself: the metadata under its names. */
module Schema {
  import opened BlockTree
  import opened RequestQueue
  import opened Taint
  import opened NodeState
  import opened EventLog

  /** The names, by prefix. `StateNode` is the state trie, stored under the hash of its content; `Extra` stands for the
      projections, blob sidecars and control records. */
  datatype Name =
    | Timeline
    | Session
    | Pending
    | BlockSlot(block: Block)
    | CanonicalSlot(slot: nat)
    | BlockSafety(block: Block)
    | RequestRecord(block: Block)
    | BranchName(branch: string)
    | CheckpointName(checkpoint: string)
    | EventName(revision: nat)
    | StateNode(hash: nat)
    | Extra(id: nat)

  datatype Data =
    | TimelineData(at: nat, paused: bool, finalitySlot: nat)
    | SafetyData(safety: Safety)
    | QueueData(queue: Queue)
    | SlotData(at: nat)
    | BlockData(block: Block)
    | RecordData(record: Record)
    | BranchData(item: BranchItem)
    | PointData(point: Point)
    | EventData(logged: Logged)
    | NodeData(hash: nat)
    | ExtraData(value: nat)
}
