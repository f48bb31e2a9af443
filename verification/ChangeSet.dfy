/**
  What replacing everything one source contributed does to each node: the change set of a staged
  import, and that it is exact.
 */
module ChangeSet {
  import opened SourceRefs
  import opened Nodes
  import opened StoreModel
  import opened StoreWrites

  predicate StageMode(mode: string) {
    mode == "refresh_stage" || mode == "import_stage"
  }

  predicate Staging(node: ManagedNode) {
    StageMode(node.importMode)
  }

  // ---- from a staging node to the node it publishes ----

  function PublishedRefs(refs: seq<SourceRef>): seq<SourceRef> {
    if refs == [] then []
    else
      var init, last := PublishedRefs(refs[..|refs| - 1]), refs[|refs| - 1];
      if StageMode(last.mode) then init else init + [last]
  }

  // The first staging reference, the node's own fields if there is none.
  function StageRef(node: ManagedNode, refs: seq<SourceRef>): SourceRef {
    if refs == [] then RefOfNode(node)
    else if StageMode(refs[0].mode) then refs[0]
    else StageRef(node, refs[1..])
  }

  function SourcesOf(node: ManagedNode, fallbackMode: string): seq<SourceRef> {
    var refs := PublishedRefs(node.sourceRefs);
    Dedup(if refs == [] then [StageRef(node, node.sourceRefs).(mode := fallbackMode)] else refs)
  }

  // A node can be published if at least one of its sources is identified.
  predicate Publishable(node: ManagedNode, fallbackMode: string) {
    SourcesOf(node, fallbackMode) != []
  }

  function Published(node: ManagedNode, id: string, fallbackMode: string): ManagedNode
    requires Publishable(node, fallbackMode)
  {
    var refs := SourcesOf(node, fallbackMode);
    WithPrimary(node.(id := id, sourceRefs := refs), refs[0]).(inPool := false, port := 0)
  }

  // ---- what becomes of a stored node ----

  function Unmatched(refs: seq<SourceRef>, matches: SourceRef -> bool): (kept: seq<SourceRef>)
    ensures |kept| <= |refs|
  {
    if refs == [] then []
    else
      var init, last := Unmatched(refs[..|refs| - 1], matches), refs[|refs| - 1];
      if matches(last) then init else init + [last]
  }

  datatype Fate = Aside | Untouched | PassedOver | Rewritten(node: ManagedNode) | Deleted

  // A pool member that passed keeps its place in the pool.
  function Inherited(incoming: ManagedNode, current: ManagedNode): ManagedNode {
    var node := incoming.(createdAt := current.createdAt);
    if incoming.state == Passed && PoolMember(current) then
      node.(name := current.name, port := current.port, inPool := true, state := NodeState.InPool, enabled := current.enabled,
            countryCode := if incoming.countryCode == "" then current.countryCode else incoming.countryCode,
            countryName := if incoming.countryCode == "" then current.countryName else incoming.countryName)
    else node
  }

  function Thinned(current: ManagedNode, kept: seq<SourceRef>, matches: SourceRef -> bool): ManagedNode
    requires kept != []
  {
    var node := current.(sourceRefs := kept);
    if matches(RefOfNode(node)) then WithPrimary(node, kept[0]) else node
  }

  function FateOf(current: ManagedNode, staged: NodeMap, matches: SourceRef -> bool): Fate {
    if Staging(current) then Aside
    else
      var refs := NodeRefs(current);
      var kept := Unmatched(refs, matches);
      if current.id in staged then
        var incoming := staged[current.id];
        if |kept| < |refs| then Rewritten(Inherited(incoming.(sourceRefs := Dedup(kept + incoming.sourceRefs)), current))
        else if incoming.state == Passed then Rewritten(Inherited(incoming.(sourceRefs := Dedup(refs + incoming.sourceRefs)), current))
        else PassedOver
      else if |kept| == |refs| then Untouched
      else if kept == [] then Deleted
      else Rewritten(Thinned(current, kept, matches))
  }

  // ---- exactness, one node at a time ----

  // A test on references that does not tell a reference from its normal form, nor two references
  // of one identity apart.
  ghost predicate ByIdentity(matches: SourceRef -> bool) {
    && (forall ref {:trigger matches(ref)} :: matches(Normalized(ref)) == matches(ref))
    && (forall a, b {:trigger matches(a), matches(b)} ::
          Normalized(a) == a && Normalized(b) == b && IdentityOf(a) == IdentityOf(b) != NoIdentity ==> matches(a) == matches(b))
  }

  ghost predicate Tidy(refs: seq<SourceRef>) {
    AllNormal(refs) && DistinctIdentities(refs)
  }

  // The reference spelled in a node's fields adds nothing to its list.
  ghost predicate PrimaryListed(node: ManagedNode) {
    IdentityOf(Normalized(RefOfNode(node))) in Identities(node.sourceRefs) + {NoIdentity}
  }

  ghost predicate Settled(node: ManagedNode) {
    Tidy(node.sourceRefs) && node.sourceRefs != [] && PrimaryListed(node)
  }

  lemma DedupAdds(refs: seq<SourceRef>, ref: SourceRef)
    ensures Dedup(refs + [ref]) ==
            if IdentityOf(Normalized(ref)) in Identities(Dedup(refs)) + {NoIdentity} then Dedup(refs) else Dedup(refs) + [Normalized(ref)]
  {
    hide Normalized, IdentityOf;
    assert (refs + [ref])[..|refs|] == refs;
  }

  // A settled node shows exactly its list, and the store keeps it so.
  lemma SettledRefs(node: ManagedNode, now: nat)
    requires Settled(node)
    ensures NodeRefs(node) == node.sourceRefs && Replaced(node, now).sourceRefs == node.sourceRefs && Settled(Replaced(node, now))
    ensures NodeRefs(Replaced(node, now)) == node.sourceRefs
  {
    hide Normalized, IdentityOf, Trim;
    DedupFixed(node.sourceRefs);
    DedupAdds(node.sourceRefs, RefOfNode(node));
    assert RefOfNode(Replaced(node, now)) == RefOfNode(node);
  }

  // Spelling a normal reference out in the fields keeps its identity.
  lemma PrimaryIdentity(node: ManagedNode, ref: SourceRef)
    requires Normalized(ref) == ref
    ensures IdentityOf(Normalized(RefOfNode(WithPrimary(node, ref)))) == IdentityOf(ref)
  {
    TrimmedFields(ref);
    var own := RefOfNode(WithPrimary(node, ref));
    assert own == ref.(fetchPolicy := "");
    hide Trim, Lower;
    EmptyTrimmed();
    assert IsUrl(own) == IsUrl(ref);
  }

  lemma EmptyTrimmed()
    ensures Trim("") == ""
  {
  }

  lemma {:induction false} UnmatchedFacts(refs: seq<SourceRef>, matches: SourceRef -> bool)
    ensures forall ref {:trigger ref in Unmatched(refs, matches)} :: ref in Unmatched(refs, matches) <==> ref in refs && !matches(ref)
    ensures forall ref {:trigger ref in refs} :: ref in refs && !matches(ref) ==> ref in Unmatched(refs, matches)
    ensures |Unmatched(refs, matches)| == |refs| <==> forall ref :: ref in refs ==> !matches(ref)
    ensures |Unmatched(refs, matches)| == |refs| ==> Unmatched(refs, matches) == refs
  {
    if refs != [] {
      var init, last := refs[..|refs| - 1], refs[|refs| - 1];
      UnmatchedFacts(init, matches);
      assert refs == init + [last];
    }
  }

  lemma OneMoreListed(refs: seq<SourceRef>, ref: SourceRef)
    requires Tidy(refs) && Normalized(ref) == ref && IdentityOf(ref) != NoIdentity && IdentityOf(ref) !in Identities(refs)
    ensures Tidy(refs + [ref])
  {
    hide Normalized, IdentityOf;
    forall i | 0 <= i < |refs| ensures IdentityOf(refs[i]) in Identities(refs) { assert refs[i] in refs; }
  }

  lemma SplitListed(refs: seq<SourceRef>)
    requires Tidy(refs) && refs != []
    ensures var init, last := refs[..|refs| - 1], refs[|refs| - 1];
            Tidy(init) && Normalized(last) == last && IdentityOf(last) != NoIdentity && IdentityOf(last) !in Identities(init)
  {
    hide Normalized, IdentityOf;
    var init, last := refs[..|refs| - 1], refs[|refs| - 1];
    assert last in refs && forall ref :: ref in init ==> ref in refs;
    forall i | 0 <= i < |init| ensures IdentityOf(init[i]) != IdentityOf(last) { assert refs[i] == init[i]; }
  }

  lemma SubIdentities(some: seq<SourceRef>, all: seq<SourceRef>)
    requires forall ref {:trigger ref in some} :: ref in some ==> ref in all
    ensures Identities(some) <= Identities(all)
  {
    hide IdentityOf;
  }

  lemma IdentitiesAdd(refs: seq<SourceRef>, ref: SourceRef)
    ensures Identities(refs + [ref]) == Identities(refs) + {IdentityOf(ref)}
  {
    hide IdentityOf;
    assert forall o :: o in refs + [ref] <==> o in refs || o == ref;
  }

  lemma {:induction false} UnmatchedListed(refs: seq<SourceRef>, matches: SourceRef -> bool)
    requires Tidy(refs)
    ensures Tidy(Unmatched(refs, matches))
  {
    hide Normalized, IdentityOf, Tidy, Identities;
    if refs != [] {
      var init, last := refs[..|refs| - 1], refs[|refs| - 1];
      SplitListed(refs);
      UnmatchedListed(init, matches);
      UnmatchedFacts(init, matches);
      SubIdentities(Unmatched(init, matches), init);
      if !matches(last) {
        OneMoreListed(Unmatched(init, matches), last);
      }
    }
  }

  // Merging puts the first list first, unchanged, and then what the second adds.
  lemma {:induction false} DedupConcat(a: seq<SourceRef>, b: seq<SourceRef>)
    requires Tidy(a) && AllNormal(b)
    ensures a <= Dedup(a + b) && Tidy(Dedup(a + b))
    ensures forall ref {:trigger ref in Dedup(a + b)} :: ref in Dedup(a + b) ==> ref in a || ref in b
    ensures Identities(a) + Identities(b) <= Identities(Dedup(a + b))
  {
    hide Normalized, IdentityOf, Identities, Dedup, DistinctIdentities;
    if b == [] {
      assert a + b == a;
      DedupFixed(a);
      SubIdentities(b, a);
    } else {
      var init, last := b[..|b| - 1], b[|b| - 1];
      assert b == init + [last] && forall ref :: ref in init ==> ref in b;
      assert last in b;
      DedupConcat(a, init);
      assert a + b == (a + init) + [last];
      DedupAdds(a + init, last);
      IdentitiesAdd(init, last);
      var all := Dedup(a + init);
      if IdentityOf(last) !in Identities(all) {
        IdentitiesAdd(all, last);
        OneMoreListed(all, last);
      }
    }
  }

  // What a staging node publishes.
  ghost predicate Staged(node: ManagedNode) {
    && node.state in {Passed, Failed}
    && Settled(node)
  }

  // The references a node shows after the change set, against those it showed before.
  ghost predicate Replaces(before: seq<SourceRef>, after: seq<SourceRef>, fromStage: seq<SourceRef>, matches: SourceRef -> bool) {
    && (forall ref {:trigger ref in after} :: ref in after ==> (ref in before && !matches(ref)) || ref in fromStage)
    && (forall ref {:trigger ref in before} :: ref in before && !matches(ref) ==> ref in after)
  }

  ghost predicate AllMatch(refs: seq<SourceRef>, matches: SourceRef -> bool) {
    refs != [] && forall ref {:trigger ref in refs} :: ref in refs ==> matches(ref)
  }

  ghost predicate NoneMatches(refs: seq<SourceRef>, matches: SourceRef -> bool) {
    forall ref {:trigger ref in refs} :: ref in refs ==> !matches(ref)
  }

  lemma NodeRefsListed(node: ManagedNode)
    ensures Tidy(NodeRefs(node))
  {
    DedupFacts(node.sourceRefs + [RefOfNode(node)]);
  }

  lemma MergedSettled(current: ManagedNode, incoming: ManagedNode, kept: seq<SourceRef>)
    requires Staged(incoming) && Tidy(kept)
    ensures var node := Inherited(incoming.(sourceRefs := Dedup(kept + incoming.sourceRefs)), current);
            && node.id == incoming.id && Settled(node) && node.sourceRefs == Dedup(kept + incoming.sourceRefs)
  {
    hide Normalized, IdentityOf, Trim, Dedup;
    var node := Inherited(incoming.(sourceRefs := Dedup(kept + incoming.sourceRefs)), current);
    DedupConcat(kept, incoming.sourceRefs);
    assert RefOfNode(node) == RefOfNode(incoming);
    var own := IdentityOf(Normalized(RefOfNode(incoming)));
    if own != NoIdentity {
      assert own in Identities(incoming.sourceRefs);
    }
    assert incoming.sourceRefs[0] in incoming.sourceRefs;
    assert IdentityOf(incoming.sourceRefs[0]) in Identities(incoming.sourceRefs);
  }

  // A node that loses references keeps one that is still its own in its fields.
  lemma ThinnedSettled(current: ManagedNode, matches: SourceRef -> bool)
    requires ByIdentity(matches)
    requires Unmatched(NodeRefs(current), matches) != []
    ensures var node := Thinned(current, Unmatched(NodeRefs(current), matches), matches);
            node.id == current.id && Settled(node) && node.sourceRefs == Unmatched(NodeRefs(current), matches)
  {
    hide Normalized, IdentityOf, Trim;
    var refs := NodeRefs(current);
    var kept := Unmatched(refs, matches);
    NodeRefsListed(current);
    UnmatchedListed(refs, matches);
    UnmatchedFacts(refs, matches);
    assert kept[0] in kept;
    var own := RefOfNode(current);
    assert RefOfNode(current.(sourceRefs := kept)) == own;
    if matches(own) {
      PrimaryIdentity(current.(sourceRefs := kept), kept[0]);
      assert IdentityOf(kept[0]) in Identities(kept);
    } else if IdentityOf(Normalized(own)) != NoIdentity {
      OwnListed(current);
      var ref :| ref in refs && IdentityOf(ref) == IdentityOf(Normalized(own));
      NormalizedTwice(own);
      assert matches(ref) == matches(Normalized(own));
      assert ref in kept && IdentityOf(ref) in Identities(kept);
    }
  }

  lemma OwnListed(node: ManagedNode)
    requires IdentityOf(Normalized(RefOfNode(node))) != NoIdentity
    ensures exists ref :: ref in NodeRefs(node) && IdentityOf(ref) == IdentityOf(Normalized(RefOfNode(node)))
  {
    hide Normalized, IdentityOf, Trim;
    var all := node.sourceRefs + [RefOfNode(node)];
    DedupFacts(all);
    assert RefOfNode(node) in all;
    assert IdentityOf(Normalized(RefOfNode(node))) in Identities(Dedup(all));
  }

  lemma OwnCovered(node: ManagedNode)
    ensures IdentityOf(Normalized(RefOfNode(node))) in Identities(NodeRefs(node)) + {NoIdentity}
  {
    hide Normalized, IdentityOf, Dedup, Trim;
    DedupFacts(node.sourceRefs + [RefOfNode(node)]);
    assert RefOfNode(node) in node.sourceRefs + [RefOfNode(node)];
  }

  // Deleted: every reference belongs to the replaced source, there is one, and the node was not staged again.
  lemma DeletedExactly(current: ManagedNode, staged: NodeMap, matches: SourceRef -> bool)
    requires !Staging(current)
    ensures FateOf(current, staged, matches).Deleted? <==> current.id !in staged && AllMatch(NodeRefs(current), matches)
    ensures FateOf(current, staged, matches) == Untouched <==> current.id !in staged && NoneMatches(NodeRefs(current), matches)
    ensures FateOf(current, staged, matches) == PassedOver <==>
              current.id in staged && staged[current.id].state != Passed && NoneMatches(NodeRefs(current), matches)
  {
    hide NodeRefs;
    var refs := NodeRefs(current);
    UnmatchedFacts(refs, matches);
    if refs != [] {
      assert refs[0] in refs;
    }
    if Unmatched(refs, matches) != [] {
      assert Unmatched(refs, matches)[0] in Unmatched(refs, matches);
    }
  }

  // Rewritten: references of the replaced source come from the staged node only, the others all stay.
  lemma RewrittenExactly(current: ManagedNode, staged: NodeMap, matches: SourceRef -> bool, now: nat)
    requires ByIdentity(matches) && FateOf(current, staged, matches).Rewritten?
    requires current.id in staged ==> Staged(staged[current.id]) && staged[current.id].id == current.id
    ensures var node := FateOf(current, staged, matches).node;
            && node.id == current.id && Settled(node)
            && NodeRefs(Replaced(node, now)) == node.sourceRefs
            && Replaces(NodeRefs(current), node.sourceRefs, if current.id in staged then staged[current.id].sourceRefs else [], matches)
  {
    hide Normalized, IdentityOf, Dedup, NodeRefs, Settled, Inherited, Thinned, Tidy, Staged, ByIdentity, Identities, Replaced;
    var refs := NodeRefs(current);
    var kept := Unmatched(refs, matches);
    var node := FateOf(current, staged, matches).node;
    NodeRefsListed(current);
    UnmatchedFacts(refs, matches);
    UnmatchedListed(refs, matches);
    if current.id in staged {
      var incoming := staged[current.id];
      MergedSettled(current, incoming, kept);
      StagedListed(incoming);
      DedupConcat(kept, incoming.sourceRefs);
    } else {
      ThinnedSettled(current, matches);
    }
    SettledRefs(node, now);
  }

  lemma StagedListed(node: ManagedNode)
    requires Staged(node)
    ensures AllNormal(node.sourceRefs)
  {
  }

  // ---- the two tests the service uses, and what a staging node publishes ----

  // Of one subscription: an URL source with this address and chain.
  function RefreshMatch(url: string, chain: string): SourceRef -> bool {
    (ref: SourceRef) => IsUrl(ref) && Trim(ref.source) == Trim(url) && Trim(ref.chainProfileId) == Trim(chain)
  }

  function TagMatch(tag: string): SourceRef -> bool {
    (ref: SourceRef) => Trim(ref.tagPrefix) == Trim(tag)
  }

  lemma NormalizedKeeps(ref: SourceRef)
    ensures IsUrl(Normalized(ref)) == IsUrl(ref)
    ensures Trim(Normalized(ref).source) == Trim(ref.source) && Trim(Normalized(ref).chainProfileId) == Trim(ref.chainProfileId)
    ensures Trim(Normalized(ref).tagPrefix) == Trim(ref.tagPrefix)
  {
    hide Trim, Lower;
    ConstantsTrimmed();
    TrimTwice(ref.tagPrefix);
    TrimTwice(ref.mode);
    TrimTwice(ref.source);
    TrimTwice(ref.chainProfileId);
  }

  lemma RefreshByIdentity(url: string, chain: string)
    ensures ByIdentity(RefreshMatch(url, chain))
  {
    hide Trim, Lower, Normalized, IsUrl;
    var matches := RefreshMatch(url, chain);
    forall ref ensures matches(Normalized(ref)) == matches(ref) { NormalizedKeeps(ref); }
  }

  lemma TagByIdentity(tag: string)
    ensures ByIdentity(TagMatch(tag))
  {
    hide Trim, Lower, Normalized, IsUrl;
    var matches := TagMatch(tag);
    forall ref ensures matches(Normalized(ref)) == matches(ref) { NormalizedKeeps(ref); }
  }

  lemma PublishedSettled(node: ManagedNode, id: string, fallbackMode: string)
    requires Publishable(node, fallbackMode)
    ensures Settled(Published(node, id, fallbackMode)) && Published(node, id, fallbackMode).id == id
    ensures Published(node, id, fallbackMode).state == node.state && !Published(node, id, fallbackMode).inPool
  {
    hide Trim, Normalized, IdentityOf, Dedup, PublishedRefs, StageRef;
    var refs := PublishedRefs(node.sourceRefs);
    DedupFacts(if refs == [] then [StageRef(node, node.sourceRefs).(mode := fallbackMode)] else refs);
    var kept := SourcesOf(node, fallbackMode);
    assert kept[0] in kept;
    var fields := node.(id := id, sourceRefs := kept);
    PrimaryIdentity(fields, kept[0]);
    assert RefOfNode(Published(node, id, fallbackMode)) == RefOfNode(WithPrimary(fields, kept[0]));
    assert IdentityOf(kept[0]) in Identities(kept);
  }
}
