/**
  The whole import, from the store it starts from to the store it leaves: which nodes are there,
  which references they have, and how a reference of another source can be lost all the same.
 */
module ImportExact {
  import opened SourceRefs
  import opened Nodes
  import opened Options
  import opened Orders
  import opened StoreModel
  import opened StoreWrites
  import opened StorePool
  import opened StoreUndo
  import opened ChangeSet
  import opened StagedPlan
  import opened StagedExact
  import opened RuntimePairing
  import opened PoolJoin
  import opened JoinOutcome
  import opened RefsKept
  import opened ImportCourse
  import opened StagedImport

  // Joining the pool and verifying included.  A published node is gone exactly if all its references
  // were to be replaced and it was not staged again, or if it was given up when it joined; a new one
  // is there exactly if it was staged and not given up.  Whatever is there has the references the
  // replacement says.
  lemma ImportIsExact(course: Course, replies: ImportReplies, promote: bool, stageIds: seq<string>, staged: NodeMap,
                      matches: SourceRef -> bool, problem: ManagedNode -> Option<string>, final: NodeMap, id: string)
    requires PlannedStore(course.m0, stageIds, staged) && ByIdentity(matches)
    requires ImportedFrom(course, stageIds, staged, matches, problem) && Kept(course, replies, promote, final)
    requires id in course.m0 ==> !Staging(course.m0[id])
    ensures id in course.m0 ==>
              (id in final <==> (id in staged || !AllMatch(NodeRefs(course.m0[id]), matches)) && id !in Gone(course, replies, promote))
    ensures id in course.m0 && id in final ==>
              Replaces(NodeRefs(course.m0[id]), NodeRefs(final[id]), if id in staged then staged[id].sourceRefs else [], matches)
    ensures id !in course.m0 ==> (id in final <==> id in staged && id !in Gone(course, replies, promote))
    ensures id !in course.m0 && id in final ==> NodeRefs(final[id]) == staged[id].sourceRefs
  {
    hide NodeRefs, PlannedStore, ByIdentity, Updates, CheckedAll, Stored, Replaces, AllMatch, Gone, SameOutside;
    var m := course.m0;
    var checkedAt: nat, listing: seq<string>, keys: seq<string>, now: nat :|
      CommittedAs(m, stageIds, staged, matches, problem, checkedAt, listing, keys, now, course.committed);
    if id in m {
      ReplacedExactly(m, stageIds, staged, matches, problem, checkedAt, listing, keys, now, id);
    } else {
      AddedExactly(m, stageIds, staged, matches, problem, checkedAt, listing, keys, now, id);
    }
  }

  // Given up: the import joins the pool, the node passed and can be built and is no member yet, and
  // its route is taken and the duplicate can be deleted, or the manager has a conflict with it and it
  // can be deleted.
  lemma GoneExactly(course: Course, replies: ImportReplies, promote: bool, stageIds: seq<string>, staged: NodeMap,
                    matches: SourceRef -> bool, problem: ManagedNode -> Option<string>, id: string)
    requires ImportedFrom(course, stageIds, staged, matches, problem)
    ensures var routes := RoutesAtJoining(course, replies);
            id in Gone(course, replies, promote) <==>
              && promote
              && ((replies.joining.drops && id in Duplicates(course.committed, course.passed, routes))
                  || GivenUp(Joiners(course.committed, course.passed, routes), replies.joining, id))
    ensures id in Gone(course, replies, promote) ==>
              id in PassedOf(Updates(course.m0, staged, matches), problem) && MayJoin(course.committed, id)
  {
    hide RoutesAtJoining, Duplicates, Joiners, Lost, CommittedFrom, Updates, PassedOf;
    var routes := RoutesAtJoining(course, replies);
    LostExactly(course.committed, course.passed, routes, replies.joining, id);
    LostJoinable(course.committed, course.passed, routes, replies.joining);
  }

  // A node that joins nothing is not lost: everything else that was committed is there in the end.
  lemma OthersSurvive(course: Course, replies: ImportReplies, promote: bool, final: NodeMap, id: string)
    requires Kept(course, replies, promote, final) && id in course.committed
    ensures !promote || id !in course.passed || !MayJoin(course.committed, id) ==> id in final && NodeRefs(final[id]) == NodeRefs(course.committed[id])
    ensures !(id in course.passed && MayJoin(course.committed, id)) && id !in PoolIds(final) ==> Get(final, id) == Get(course.committed, id)
  {
    hide NodeRefs, Lost, RoutesAtJoining, MayJoin, PoolIds;
    LostJoinable(course.committed, course.passed, RoutesAtJoining(course, replies), replies.joining);
  }

  // ---- losing a reference ----

  // No node is a member.
  ghost predicate NoMembers(m: NodeMap) {
    forall id {:trigger m[id]} :: id in m ==> !PoolMember(m[id])
  }

  // Neither is any in what is committed.
  lemma NoneCommitted(course: Course, stageIds: seq<string>, staged: NodeMap, matches: SourceRef -> bool,
                      problem: ManagedNode -> Option<string>)
    requires ImportedFrom(course, stageIds, staged, matches, problem) && ByIdentity(matches)
    requires Keyed(course.m0) && StagedMap(staged) && NoMembers(course.m0)
    ensures PoolIds(course.committed) == {}
  {
    hide NodeRefs, ByIdentity, Updates, StagedMap, Changed, Replaced, DeletedIn, Keyed;
    var m := course.m0;
    var checkedAt: nat, listing: seq<string>, keys: seq<string>, now: nat :|
      CommittedAs(m, stageIds, staged, matches, problem, checkedAt, listing, keys, now, course.committed);
    var updates := CheckedAll(Updates(m, staged, matches), problem, checkedAt);
    UpdatesKeyed(m, staged, matches, problem, checkedAt);
    forall id | id in course.committed ensures !Listed(course.committed[id]) {
      ChangedAt(m, updates, keys, DeletedIn(m, listing, staged, matches) + stageIds, now, id);
      assert Get(course.committed, id).Some?;
      if id in updates {
        NotUpdated(m, staged, matches, id);
        ReplacedRuntime(updates[id], now);
      }
    }
  }

  lemma NotUpdated(m: NodeMap, staged: NodeMap, matches: SourceRef -> bool, id: string)
    requires StagedMap(staged) && NoMembers(m) && id in Updates(m, staged, matches)
    ensures !PoolMember(Updates(m, staged, matches)[id])
    ensures id in m && m[id].id == id && !Staging(m[id]) && id in staged && staged[id].state == Passed ==>
              Updates(m, staged, matches)[id].state == Passed && !Updates(m, staged, matches)[id].inPool
  {
    hide NodeRefs, Dedup, Unmatched, Settled, Updates;
    UpdateAt(m, staged, matches, id);
  }

  lemma ReplacedRuntime(node: ManagedNode, now: nat)
    ensures Replaced(node, now).state == node.state && Replaced(node, now).inPool == node.inPool
  {
    hide NodeRefs, Dedup;
  }

  // A member leaves only if there is one.
  lemma NoneLeaves(m: NodeMap, staged: NodeMap, matches: SourceRef -> bool, problem: ManagedNode -> Option<string>, name: string)
    requires NoMembers(m)
    ensures !Leaves(m, staged, matches, problem, name)
  {
    hide NodeRefs, Unmatched, Updates, Candidate;
  }

  // The one node staged, as it publishes.
  lemma StagedAlone(m: NodeMap, sid: string, stageMode: string, fallbackMode: string, id: string)
    requires Usable(m, sid, stageMode) && Publishable(m[sid], fallbackMode)
    ensures Sourced(m, [sid], stageMode, fallbackMode) && AllUsable(m, [sid], stageMode)
    ensures StagedOf(m, [sid], stageMode, fallbackMode, ToOne(id)) == OneStaged(m, sid, fallbackMode, id)
  {
    hide Publishable, Usable, Published;
    UsableIs(m, sid, stageMode);
    assert [sid][..0] == [];
    assert StagedOf(m, [], stageMode, fallbackMode, ToOne(id)) == map[];
  }

  function ToOne(id: string): (string, string) -> string {
    (uri, chain) => id
  }

  function NoProblem(): ManagedNode -> Option<string> {
    node => None
  }

  function AllConflict(): JoinReplies {
    JoinReplies(true, true, true, None, (k: nat) => Conflict, (k: nat) => true, true, [])
  }

  // Every step of the import succeeds, and the manager has a conflict with every node.
  function Conflicting(): ImportReplies {
    ImportReplies(true, EnsureReplies(CheckReplies(true, true, true), Restores(None), true, true, CheckReplies(true, true, true)), true, true, true,
                  AllConflict(), ReloadReply(true, []), CheckReplies(true, true, true), true, Restores(None))
  }

  // Then every node that can join is gone and none is a member.
  lemma AllGone(m: NodeMap, ids: seq<string>, routes: set<Route>)
    requires NoRepeats(ids)
    ensures JoinOk(m, ids, routes, AllConflict()) <==> ids != []
    ensures Ported(m, ids, routes, AllConflict()) == {} && Joinable(m, Members(ids)) <= Lost(m, ids, routes, AllConflict())
  {
    hide Joiners, Duplicates, Joinable, Lost;
    JoinersOrDuplicates(m, ids, routes);
    forall id | id in Joinable(m, Members(ids)) ensures id in Lost(m, ids, routes, AllConflict()) {
      LostExactly(m, ids, routes, AllConflict(), id);
      if id in Joiners(m, ids, routes) {
        var k :| 0 <= k < |Joiners(m, ids, routes)| && Joiners(m, ids, routes)[k] == id;
        assert GivenUp(Joiners(m, ids, routes), AllConflict(), id);
      }
    }
  }

  // A published node with this reference of another source, staged again by a node that passed; no
  // node is a member.
  ghost predicate Restaged(m: NodeMap, sid: string, stageMode: string, fallbackMode: string, matches: SourceRef -> bool, id: string, ref: SourceRef) {
    && Keyed(m) && NoMembers(m)
    && Usable(m, sid, stageMode) && m[sid].state == Passed && Publishable(m[sid], fallbackMode)
    && id in m && !Staging(m[id]) && ref in NodeRefs(m[id]) && !matches(ref)
  }

  function OneStaged(m: NodeMap, sid: string, fallbackMode: string, id: string): NodeMap
    requires sid in m && Publishable(m[sid], fallbackMode)
  {
    map[id := Published(m[sid], id, fallbackMode)]
  }

  lemma RestagedParts(m: NodeMap, sid: string, stageMode: string, fallbackMode: string, matches: SourceRef -> bool, id: string, ref: SourceRef)
    requires Restaged(m, sid, stageMode, fallbackMode, matches, id, ref)
    ensures sid in m && Publishable(m[sid], fallbackMode) && m[sid].state == Passed && Usable(m, sid, stageMode) && NoMembers(m) && Keyed(m)
  {
    hide NodeRefs, Publishable, NoMembers, Keyed;
  }

  // What is committed of a node that is staged again: it passed, waits for the pool, and has its
  // references of other sources.
  lemma CommittedWaits(course: Course, sid: string, stageMode: string, fallbackMode: string, matches: SourceRef -> bool, id: string, ref: SourceRef)
    requires Restaged(course.m0, sid, stageMode, fallbackMode, matches, id, ref) && ByIdentity(matches) && StageMode(stageMode)
    requires ImportedFrom(course, [sid], OneStaged(course.m0, sid, fallbackMode, id), matches, NoProblem())
    ensures id in course.committed && ref in NodeRefs(course.committed[id])
    ensures id in course.passed && MayJoin(course.committed, id)
  {
    hide NodeRefs, ByIdentity, Updates, Changed, Replaced, DeletedIn, FateOf, Published, Publishable, Settled;
    var m, staged := course.m0, OneStaged(course.m0, sid, fallbackMode, id);
    PublishedSettled(m[sid], id, fallbackMode);
    var checkedAt: nat, listing: seq<string>, keys: seq<string>, now: nat :|
      CommittedAs(m, [sid], staged, matches, NoProblem(), checkedAt, listing, keys, now, course.committed);
    ReplacedExactly(m, [sid], staged, matches, NoProblem(), checkedAt, listing, keys, now, id);
    var updates := CheckedAll(Updates(m, staged, matches), NoProblem(), checkedAt);
    UpdatesKeyed(m, staged, matches, NoProblem(), checkedAt);
    UpdateAt(m, staged, matches, id);
    DeletedExactly(m[id], staged, matches);
    FateCases(m[id], staged, matches);
    NotUpdated(m, staged, matches, id);
    ChangedAt(m, updates, keys, DeletedIn(m, listing, staged, matches) + [sid], now, id);
    ReplacedRuntime(updates[id], now);
    assert Get(course.committed, id) == Some(Replaced(updates[id], now));
  }

  // The course of such an import.
  lemma LosingCourse(course: Course, sid: string, stageMode: string, fallbackMode: string, matches: SourceRef -> bool, id: string, ref: SourceRef)
    requires Restaged(course.m0, sid, stageMode, fallbackMode, matches, id, ref)
    requires course.c0 == [] && ByIdentity(matches) && StageMode(stageMode)
    requires forall name {:trigger name in course.leaving} :: name in course.leaving <==>
               Leaves(course.m0, OneStaged(course.m0, sid, fallbackMode, id), matches, NoProblem(), name)
    requires Stores(course, Conflicting()) ==> ImportedFrom(course, [sid], OneStaged(course.m0, sid, fallbackMode, id), matches, NoProblem())
    requires Joins(course, Conflicting(), true) ==> JoinedFrom(course, Conflicting(), true)
    ensures Goes(course, Conflicting(), true) && Entered(course, Conflicting(), true) == {} && id in Gone(course, Conflicting(), true)
    ensures id in course.committed && ref in NodeRefs(course.committed[id])
  {
    hide *;
    RestagedParts(course.m0, sid, stageMode, fallbackMode, matches, id, ref);
    var replies, staged := Conflicting(), OneStaged(course.m0, sid, fallbackMode, id);
    ConflictingIs();
    StagedOne(course.m0, sid, fallbackMode, id);
    NobodyLeaves(course, staged, matches);
    GoesIs(course, replies, true);
    CommittedWaits(course, sid, stageMode, fallbackMode, matches, id, ref);
    ImportedParts(course, [sid], staged, matches, NoProblem());
    AllGone(course.committed, course.passed, ListedRoutes(ConfigAtJoining(course, replies), true));
    InJoinable(course.committed, course.passed, id);
    JoinedParts(course, replies);
    NoneCommitted(course, [sid], staged, matches, NoProblem());
    NoneJoined(course.committed, course.joined);
    ChecksIs(course.joined, [], replies.check);
  }

  lemma StagedOne(m: NodeMap, sid: string, fallbackMode: string, id: string)
    requires sid in m && Publishable(m[sid], fallbackMode) && m[sid].state == Passed
    ensures StagedMap(OneStaged(m, sid, fallbackMode, id))
  {
    hide Published, Publishable, Settled;
    PublishedSettled(m[sid], id, fallbackMode);
  }

  lemma NobodyLeaves(course: Course, staged: NodeMap, matches: SourceRef -> bool)
    requires NoMembers(course.m0)
    requires forall name {:trigger name in course.leaving} :: name in course.leaving <==> Leaves(course.m0, staged, matches, NoProblem(), name)
    ensures course.leaving == []
  {
    hide Leaves, NoMembers;
    if course.leaving != [] {
      assert course.leaving[0] in course.leaving;
    }
    forall name ensures name !in course.leaving { NoneLeaves(course.m0, staged, matches, NoProblem(), name); }
  }

  lemma InJoinable(m: NodeMap, ids: seq<string>, id: string)
    requires id in ids && MayJoin(m, id)
    ensures id in Joinable(m, Members(ids)) && ids != []
  {
  }

  lemma JoinedParts(course: Course, replies: ImportReplies)
    requires JoinedFrom(course, replies, true)
    ensures NewMembers(course.committed, course.joined) == Entered(course, replies, true)
  {
    hide KeepsRefs, Gone, Entered, SameOutside;
  }

  lemma ImportedParts(course: Course, stageIds: seq<string>, staged: NodeMap, matches: SourceRef -> bool, problem: ManagedNode -> Option<string>)
    requires ImportedFrom(course, stageIds, staged, matches, problem)
    ensures NoRepeats(course.passed)
  {
    hide CommittedFrom, Updates, PassedOf;
  }

  lemma NoneJoined(a: NodeMap, b: NodeMap)
    requires PoolIds(a) == {} && NewMembers(a, b) == {}
    ensures PoolIds(b) == {} && Agrees(b, [])
  {
    assert forall id :: id in PoolIds(b) ==> id in NewMembers(a, b) || id in PoolIds(a);
  }

  lemma ConflictingIs()
    ensures var replies := Conflicting();
            && replies.current && replies.ensured.check.listening && replies.ensured.check.listed && replies.listed && replies.commits
            && replies.joining == AllConflict() && replies.joining.listed && replies.joining.config == []
            && replies.reload == ReloadReply(true, []) && replies.check == CheckReplies(true, true, true)
  {
  }

  lemma KeptGone(course: Course, replies: ImportReplies, final: NodeMap, id: string)
    requires Kept(course, replies, true, final) && id in Gone(course, replies, true)
    ensures id !in final
  {
    hide KeepsRefs, Gone, SameOutside;
  }

  lemma EmptyPaired(m: NodeMap)
    requires NoMembers(m)
    ensures Paired(m, [])
  {
    assert PoolIds(m) == {};
  }

  // A published node that is staged again under its id is lost, with a reference of another source it
  // has, by an import that succeeds: the manager reports a conflict when the node joins.
  method LosingImport(service: ImportService, sid: string, stageMode: string, fallbackMode: string, matches: SourceRef -> bool,
                      id: string, ghost ref: SourceRef) returns (outcome: Outcome, ghost course: Course)
    requires Mirrored(service.store.nodes, service.store.table) && service.config == []
    requires StageMode(stageMode) && ByIdentity(matches)
    requires Restaged(service.store.nodes, sid, stageMode, fallbackMode, matches, id, ref)
    modifies service`config, service.store
    ensures outcome == Done(0) && course.m0 == old(service.store.nodes)
    ensures id in course.committed && ref in NodeRefs(course.committed[id])
    ensures id !in service.store.nodes
  {
    hide *;
    ghost var m := service.store.nodes;
    MirroredIs(service.store.nodes, service.store.table);
    RestagedParts(m, sid, stageMode, fallbackMode, matches, id, ref);
    EmptyPaired(m);
    StagedAlone(m, sid, stageMode, fallbackMode, id);
    ghost var back: nat;
    outcome, course, back := service.ApplyStagedNodes([sid], stageMode, fallbackMode, ToOne(id), matches, NoProblem(), true, Conflicting());
    ConflictingIs();
    StagedAlone(course.m0, sid, stageMode, fallbackMode, id);
    LosingCourse(course, sid, stageMode, fallbackMode, matches, id, ref);
    KeptGone(course, Conflicting(), service.store.nodes, id);
  }
}
