/**
  Managed nodes and the references they carry.
 */
module Nodes {
  import opened SourceRefs

  datatype NodeState = Parsed | Testing | Passed | Failed | Blocked | InPool | Excluded

  // Times are instants counted from the zero time, which is 0.
  datatype ManagedNode = ManagedNode(
    id: string, uri: string, chainProfileId: string, originalName: string, name: string,
    tagPrefix: string, importId: string, importMode: string, importSource: string, importFormat: string,
    sourceRefs: seq<SourceRef>, countryCode: string, countryName: string,
    port: nat, state: NodeState, enabled: bool, inPool: bool, order: int,
    lastError: string, lastTestAt: nat, createdAt: nat, updatedAt: nat)

  function RefOfNode(node: ManagedNode): SourceRef {
    SourceRef(Trim(node.tagPrefix), Trim(node.importId), Trim(node.importMode), Trim(node.importSource),
              Trim(node.importFormat), Trim(node.chainProfileId), "")
  }

  // The listed references, then the one spelled out in the node's own fields.
  function NodeRefs(node: ManagedNode): seq<SourceRef> {
    Dedup(node.sourceRefs + [RefOfNode(node)])
  }

  method NodeSourceRefs(node: ManagedNode) returns (refs: seq<SourceRef>)
    ensures refs == NodeRefs(node)
  {
    refs := DeduplicateSourceRefs(node.sourceRefs + [RefOfNode(node)]);
  }

  function WithPrimary(node: ManagedNode, ref: SourceRef): ManagedNode {
    node.(tagPrefix := ref.tagPrefix, importId := ref.importId, importMode := ref.mode, importSource := ref.source,
          importFormat := ref.format, chainProfileId := ref.chainProfileId)
  }

  // A member of the running pool, by either of the two marks.
  predicate PoolMember(node: ManagedNode) {
    node.inPool || node.state == InPool
  }

  // The references a stored node has once the store has written it: merging them again changes nothing.
  ghost predicate Canonical(node: ManagedNode) {
    Dedup(node.sourceRefs) == node.sourceRefs && (node.sourceRefs == [] ==> NodeRefs(node) == [])
  }
}
