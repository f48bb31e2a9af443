/**
  When a staging node has a source to publish under.  Without one the import reads the first of no
  references.
 */
module Publishing {
  import opened SourceRefs
  import opened Nodes
  import opened StoreModel
  import opened ChangeSet
  import opened StagedPlan

  predicate Identified(ref: SourceRef) {
    IdentityOf(Normalized(ref)) != NoIdentity
  }

  lemma DedupEmpty(refs: seq<SourceRef>)
    ensures Dedup(refs) != [] <==> exists ref :: ref in refs && Identified(ref)
  {
    hide Normalized, IdentityOf;
    DedupFacts(refs);
    var kept := Dedup(refs);
    if kept != [] {
      assert kept[0] in kept;
      assert IdentityOf(kept[0]) in Identities(kept);
    }
    if ref :| ref in refs && Identified(ref) {
      assert IdentityOf(Normalized(ref)) in Identities(kept);
    }
  }

  // A reference is nameless exactly if its tag, import, mode and source are blank.
  lemma IdentifiedExactly(ref: SourceRef)
    ensures Identified(ref) <==> !(Trim(ref.tagPrefix) == "" && Trim(ref.importId) == "" && Trim(ref.mode) == "" && Trim(ref.source) == "")
  {
    hide Trim, Lower;
    EmptyTrimmed();
    ConstantsTrimmed();
    TrimTwice(ref.tagPrefix);
    TrimTwice(ref.importId);
    TrimTwice(ref.mode);
    TrimTwice(ref.source);
    BlankNoUrl(ref);
  }

  lemma BlankNoUrl(ref: SourceRef)
    ensures Trim(ref.source) == "" && Trim(ref.mode) == "" ==> !IsUrl(ref)
    ensures Lower("") == ""
  {
  }

  // Exactly when a node has a source: one of its other references is identified, or, if there is none,
  // its staging reference is under the fallback mode, which only a blank mode can prevent.
  lemma PublishableExactly(node: ManagedNode, fallbackMode: string)
    ensures var others, own := PublishedRefs(node.sourceRefs), StageRef(node, node.sourceRefs);
            Publishable(node, fallbackMode) <==>
              if others != [] then exists ref :: ref in others && Identified(ref)
              else Trim(fallbackMode) != "" || Trim(own.tagPrefix) != "" || Trim(own.importId) != "" || Trim(own.source) != ""
  {
    hide Trim, Normalized, IdentityOf, Dedup, PublishedRefs, StageRef, Identified;
    var others := PublishedRefs(node.sourceRefs);
    var own := StageRef(node, node.sourceRefs).(mode := fallbackMode);
    if others != [] {
      DedupEmpty(others);
    } else {
      DedupEmpty([own]);
      IdentifiedExactly(own);
      assert own in [own];
    }
  }

  // In the form the store writes, the only node without a source is one with no other reference and a
  // nameless staging reference; under the mode of a refresh there is none.
  lemma StoredPublishable(node: ManagedNode, fallbackMode: string)
    requires Canonical(node)
    ensures var own := StageRef(node, node.sourceRefs);
            !Publishable(node, fallbackMode) <==>
              && PublishedRefs(node.sourceRefs) == [] && Trim(fallbackMode) == ""
              && Trim(own.tagPrefix) == "" && Trim(own.importId) == "" && Trim(own.source) == ""
    ensures Publishable(node, "url")
  {
    hide Trim, Normalized, IdentityOf, Dedup, PublishedRefs, StageRef;
    ConstantsTrimmed();
    PublishableExactly(node, fallbackMode);
    PublishableExactly(node, "url");
    DedupFacts(node.sourceRefs);
    var others := PublishedRefs(node.sourceRefs);
    if others != [] {
      assert others[0] in others;
      PublishedExactly(node.sourceRefs, others[0]);
      assert Identified(others[0]);
    }
  }

  lemma {:induction false} PublishedExactly(refs: seq<SourceRef>, ref: SourceRef)
    ensures ref in PublishedRefs(refs) <==> ref in refs && ref.mode != "refresh_stage" && ref.mode != "import_stage"
  {
    if refs != [] {
      var init, last := refs[..|refs| - 1], refs[|refs| - 1];
      PublishedExactly(init, ref);
      assert refs == init + [last];
    }
  }

  // The reference a node is staged with is its first for staging; the one in its fields if it lists none.
  lemma {:induction false} StageRefIs(node: ManagedNode, refs: seq<SourceRef>, i: nat)
    requires i <= |refs| && (forall j :: 0 <= j < i ==> !StageMode(refs[j].mode)) && (i < |refs| ==> StageMode(refs[i].mode))
    ensures StageRef(node, refs) == if i < |refs| then refs[i] else RefOfNode(node)
  {
    hide RefOfNode;
    if i > 0 {
      var rest := refs[1..];
      forall j | 0 <= j < i - 1 ensures !StageMode(rest[j].mode) { assert rest[j] == refs[j + 1]; }
      StageRefIs(node, rest, i - 1);
    }
  }

  // The sources of a node's references that are not for staging.
  function Others(refs: seq<SourceRef>): set<Identity> {
    set ref | ref in refs && ref.mode != "refresh_stage" && ref.mode != "import_stage" :: IdentityOf(Normalized(ref))
  }

  // A node is published with these sources or, if there is none, with the one it was staged with, under
  // the fallback mode.
  lemma PublishedSources(node: ManagedNode, fallbackMode: string)
    requires Publishable(node, fallbackMode)
    ensures var staged := StageRef(node, node.sourceRefs).(mode := fallbackMode);
            Identities(SourcesOf(node, fallbackMode)) ==
            if Others(node.sourceRefs) == {} then {IdentityOf(Normalized(staged))} else Others(node.sourceRefs) - {NoIdentity}
  {
    hide Trim, Normalized, IdentityOf, Dedup, PublishedRefs, StageRef, Identities, Others;
    var kept, own := PublishedRefs(node.sourceRefs), StageRef(node, node.sourceRefs).(mode := fallbackMode);
    OthersAre(node.sourceRefs);
    if kept == [] {
      OneSource(own);
    } else {
      SourcesIdentities(kept);
    }
  }

  lemma OthersAre(refs: seq<SourceRef>)
    ensures Others(refs) == set ref | ref in PublishedRefs(refs) :: IdentityOf(Normalized(ref))
    ensures Others(refs) == {} <==> PublishedRefs(refs) == []
  {
    hide Normalized, IdentityOf, PublishedRefs;
    var kept := PublishedRefs(refs);
    forall ref ensures ref in kept <==> ref in refs && ref.mode != "refresh_stage" && ref.mode != "import_stage" { PublishedExactly(refs, ref); }
    if kept != [] { assert kept[0] in kept && IdentityOf(Normalized(kept[0])) in Others(refs); }
  }

  lemma OneSource(ref: SourceRef)
    requires Dedup([ref]) != []
    ensures Identities(Dedup([ref])) == {IdentityOf(Normalized(ref))}
  {
    hide Normalized, IdentityOf, Dedup, Identities, Identified;
    DedupEmpty([ref]);
    IdentifiedOne(ref);
    SourcesIdentities([ref]);
  }

  lemma IdentifiedOne(ref: SourceRef)
    requires exists o :: o in [ref] && Identified(o)
    ensures IdentityOf(Normalized(ref)) != NoIdentity
    ensures (set o | o in [ref] :: IdentityOf(Normalized(o))) == {IdentityOf(Normalized(ref))}
  {
    hide Normalized, IdentityOf;
  }

  lemma SourcesIdentities(refs: seq<SourceRef>)
    ensures Identities(Dedup(refs)) == (set ref | ref in refs :: IdentityOf(Normalized(ref))) - {NoIdentity}
  {
    hide Normalized, IdentityOf, Dedup, Identities;
    DedupFacts(refs);
  }

  // Its fields spell out the first of them, it is in no pool, and nothing else about it changes.
  lemma PublishedFields(node: ManagedNode, id: string, fallbackMode: string)
    requires Publishable(node, fallbackMode)
    ensures var refs, published := SourcesOf(node, fallbackMode), Published(node, id, fallbackMode);
            published ==
            node.(id := id, inPool := false, port := 0, sourceRefs := refs, tagPrefix := refs[0].tagPrefix, importId := refs[0].importId,
                  importMode := refs[0].mode, importSource := refs[0].source, importFormat := refs[0].format,
                  chainProfileId := refs[0].chainProfileId)
  {
    hide SourcesOf;
  }

  // Such a node, as the store would write it, staged for an import: its import has no id.
  lemma NamelessStage() returns (node: ManagedNode)
    ensures node.importMode == "import_stage" && node.state == Passed && Canonical(node)
    ensures node.sourceRefs == [RefOfNode(node)] && !Publishable(node, "")
  {
    var ref := SourceRef("", "", "import_stage", "", "", "", "");
    node := ManagedNode("n", "trojan://n", "", "n", "n", "", "", "import_stage", "", "", [ref], "", "", 0, Passed, true, false, 0, "", 0, 1, 1);
    EmptyTrimmed();
    StageTrimmed();
    OneRef(ref);
    assert PublishedRefs([ref][..0]) == [];
    assert PublishedRefs([ref]) == [];
    StoredPublishable(node, "");
  }

  // A store of just this node, on which the import runs into the missing reference.
  lemma CrashingStore() returns (m: NodeMap, id: string)
    ensures id in m && Keyed(m) && Canonical(m[id])
    ensures AllUsable(m, [id], "import_stage") && !Sourced(m, [id], "import_stage", "")
  {
    hide Canonical, Publishable;
    var node := NamelessStage();
    id := node.id;
    m := map[id := node];
    assert id in [id];
  }

  lemma StageTrimmed()
    ensures Trim("import_stage") == "import_stage"
  {
  }

  lemma OneRef(ref: SourceRef)
    requires ref == SourceRef("", "", "import_stage", "", "", "", "")
    ensures Dedup([ref]) == [ref]
  {
    EmptyTrimmed();
    StageTrimmed();
    assert Dedup([ref][..0]) == [];
    assert Normalized(ref) == ref;
  }
}
