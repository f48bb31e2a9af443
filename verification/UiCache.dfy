/**
  The cache of the node list's summary and filters.  Fills read the table without the lock and are
  kept only if no write was announced meanwhile; a write is committed first and announced after, one
  write at a time under the store's mutex.
 */
module UiCache {
  import opened Options
  import opened Nodes
  import opened StoreModel

  // ---- what is cached ----

  datatype Summary = Summary(total: nat, inPool: nat, parsed: nat, testing: nat, passed: nat, failed: nat, excluded: nat)

  datatype Filters = Filters(countries: set<string>, tags: set<string>)

  function InState(db: NodeMap, states: set<NodeState>): set<string> {
    set id | id in db && !PoolMember(db[id]) && db[id].state in states
  }

  function Members(db: NodeMap): set<string> {
    set id | id in db && PoolMember(db[id])
  }

  function SummaryOf(db: NodeMap): Summary {
    Summary(|db|, |Members(db)|, |InState(db, {Parsed})|, |InState(db, {Testing})|, |InState(db, {Passed})|,
            |InState(db, {Failed, Blocked})|, |InState(db, {Excluded})|)
  }

  // Every node is counted in exactly one class.
  lemma SummaryPartitions(db: NodeMap)
    ensures var s := SummaryOf(db); s.total == s.inPool + s.parsed + s.testing + s.passed + s.failed + s.excluded
  {
    hide InState, Members;
    var two, three, four, five := {Parsed, Testing}, {Parsed, Testing, Passed}, {Parsed, Testing, Passed, Failed, Blocked},
      {Parsed, Testing, Passed, Failed, Blocked, Excluded};
    assert {Parsed} + {Testing} == two && two + {Passed} == three && three + {Failed, Blocked} == four && four + {Excluded} == five;
    SplitStates(db, {Parsed}, {Testing});
    SplitStates(db, two, {Passed});
    SplitStates(db, three, {Failed, Blocked});
    SplitStates(db, four, {Excluded});
    SplitPool(db);
  }

  lemma SplitStates(db: NodeMap, a: set<NodeState>, b: set<NodeState>)
    requires a !! b
    ensures |InState(db, a + b)| == |InState(db, a)| + |InState(db, b)|
  {
    assert InState(db, a + b) == InState(db, a) + InState(db, b);
    assert InState(db, a) !! InState(db, b);
  }

  lemma SplitPool(db: NodeMap)
    ensures |db| == |Members(db)| + |InState(db, {Parsed, Testing, Passed, Failed, Blocked, Excluded})|
  {
    var rest := InState(db, {Parsed, Testing, Passed, Failed, Blocked, Excluded});
    assert db.Keys == Members(db) + rest;
    assert |db| == |db.Keys|;
  }

  lemma MoreInState(db: NodeMap, id: string, node: ManagedNode, states: set<NodeState>)
    requires id !in db
    ensures |InState(db[id := node], states)| == |InState(db, states)| + if !PoolMember(node) && node.state in states then 1 else 0
  {
    hide PoolMember;
    if !PoolMember(node) && node.state in states {
      assert InState(db[id := node], states) == InState(db, states) + {id};
    } else {
      assert InState(db[id := node], states) == InState(db, states);
    }
  }

  lemma MoreMembers(db: NodeMap, id: string, node: ManagedNode)
    requires id !in db
    ensures |Members(db[id := node])| == |Members(db)| + if PoolMember(node) then 1 else 0
  {
    hide PoolMember;
    if PoolMember(node) {
      assert Members(db[id := node]) == Members(db) + {id};
    } else {
      assert Members(db[id := node]) == Members(db);
    }
  }

  // One more node raises the total and exactly one other number, by one.
  lemma SummaryAdds(db: NodeMap, id: string, node: ManagedNode)
    requires id !in db
    ensures SummaryOf(map[]) == Summary(0, 0, 0, 0, 0, 0, 0)
    ensures var s := SummaryOf(db);
            var more := s.(total := s.total + 1);
            SummaryOf(db[id := node]) ==
            if node.inPool then more.(inPool := s.inPool + 1)
            else match node.state
                 case InPool => more.(inPool := s.inPool + 1)
                 case Parsed => more.(parsed := s.parsed + 1)
                 case Testing => more.(testing := s.testing + 1)
                 case Passed => more.(passed := s.passed + 1)
                 case Failed => more.(failed := s.failed + 1)
                 case Blocked => more.(failed := s.failed + 1)
                 case Excluded => more.(excluded := s.excluded + 1)
  {
    SummaryNone();
    hide InState, Members;
    MoreMembers(db, id, node);
    MoreInState(db, id, node, {Parsed});
    MoreInState(db, id, node, {Testing});
    MoreInState(db, id, node, {Passed});
    MoreInState(db, id, node, {Failed, Blocked});
    MoreInState(db, id, node, {Excluded});
  }

  lemma SummaryNone()
    ensures SummaryOf(map[]) == Summary(0, 0, 0, 0, 0, 0, 0)
  {
    var none: NodeMap := map[];
    assert Members(none) == {};
    assert forall states {:trigger InState(none, states)} :: InState(none, states) == {};
  }

  predicate InScope(scope: string, node: ManagedNode) {
    match scope
    case "candidate" => node.state == Passed && !node.inPool
    case "pool" => PoolMember(node)
    case "failed" => node.state in {Failed, Blocked}
    case _ => true
  }

  function Countries(db: NodeMap, scope: string): set<string> {
    set id | id in db && InScope(scope, db[id]) && db[id].countryCode != "" :: db[id].countryCode
  }

  function Tags(db: NodeMap, scope: string): set<string> {
    set id | id in db && InScope(scope, db[id]) && db[id].tagPrefix != "" :: db[id].tagPrefix
  }

  // Whether a node is offered among the filters of a scope.
  predicate Offered(scope: string, node: ManagedNode) {
    && (scope == "candidate" ==> !node.inPool && node.state == Passed)
    && (scope == "pool" ==> node.inPool || node.state == InPool)
    && (scope == "failed" ==> node.state == Failed || node.state == Blocked)
  }

  // One more node adds its country and its tag to the filters exactly of the scopes it belongs to.
  lemma FiltersAdd(db: NodeMap, scope: string, id: string, node: ManagedNode)
    requires id !in db
    ensures Countries(map[], scope) == Tags(map[], scope) == {}
    ensures Countries(db[id := node], scope) ==
            Countries(db, scope) + if Offered(scope, node) && node.countryCode != "" then {node.countryCode} else {}
    ensures Tags(db[id := node], scope) == Tags(db, scope) + if Offered(scope, node) && node.tagPrefix != "" then {node.tagPrefix} else {}
  {
    hide InScope, Offered;
    OfferedInScope(scope, node);
    var db' := db[id := node];
    forall key ensures key in db' <==> key in db || key == id { }
    forall country ensures country in Countries(db', scope) <==>
      country in Countries(db, scope) || (Offered(scope, node) && country == node.countryCode != "") {
      if country in Countries(db, scope) {
        var key :| key in db && InScope(scope, db[key]) && db[key].countryCode == country != "";
        assert db'[key] == db[key];
      }
      if Offered(scope, node) && country == node.countryCode != "" { assert db'[id] == node; }
    }
    forall tag ensures tag in Tags(db', scope) <==> tag in Tags(db, scope) || (Offered(scope, node) && tag == node.tagPrefix != "") {
      if tag in Tags(db, scope) {
        var key :| key in db && InScope(scope, db[key]) && db[key].tagPrefix == tag != "";
        assert db'[key] == db[key];
      }
      if Offered(scope, node) && tag == node.tagPrefix != "" { assert db'[id] == node; }
    }
  }

  lemma OfferedInScope(scope: string, node: ManagedNode)
    ensures Offered(scope, node) <==> InScope(scope, node)
  {
  }

  // ---- the cache ----

  datatype Cache = Cache(revision: nat, summary: Option<Summary>, filters: map<string, Filters>)

  function Invalidated(c: Cache): Cache {
    Cache(c.revision + 1, None, map[])
  }

  function SummaryKept(c: Cache, revision: nat, value: Summary): Cache {
    if revision == c.revision then c.(summary := Some(value)) else c
  }

  function FiltersKept(c: Cache, revision: nat, scope: string, value: Filters): Cache {
    if revision == c.revision then c.(filters := c.filters[scope := value]) else c
  }

  // The sections that hold the cache's lock.
  class StateDbCache {
    var uiRevision: nat
    var uiSummaryCache: Option<Summary>
    var uiFilterCache: map<string, Filters>

    constructor ()
      ensures State() == Cache(0, None, map[])
    {
      uiRevision, uiSummaryCache, uiFilterCache := 0, None, map[];
    }

    function State(): Cache
      reads this
    {
      Cache(uiRevision, uiSummaryCache, uiFilterCache)
    }

    method BeginSummary() returns (hit: Option<Summary>, revision: nat)
      ensures hit == State().summary && revision == State().revision
    {
      if uiSummaryCache.Some? {
        return Some(uiSummaryCache.value), uiRevision;
      }
      return None, uiRevision;
    }

    method StoreSummary(revision: nat, value: Summary)
      modifies this
      ensures State() == SummaryKept(old(State()), revision, value)
    {
      if revision == uiRevision {
        uiSummaryCache := Some(value);
      }
    }

    method BeginFilters(scope: string) returns (hit: Option<Filters>, revision: nat)
      ensures hit == (if scope in State().filters then Some(State().filters[scope]) else None) && revision == State().revision
    {
      if scope in uiFilterCache {
        return Some(uiFilterCache[scope]), uiRevision;
      }
      return None, uiRevision;
    }

    method StoreFilters(revision: nat, scope: string, value: Filters)
      modifies this
      ensures State() == FiltersKept(old(State()), revision, scope, value)
    {
      if revision == uiRevision {
        uiFilterCache := uiFilterCache[scope := value];
      }
    }

    method InvalidateUICache()
      modifies this
      ensures State() == Invalidated(old(State()))
    {
      uiRevision := uiRevision + 1;
      uiSummaryCache := None;
      uiFilterCache := map[];
    }
  }

  // ---- all interleavings ----

  // What a read found when it began: the newest version whose write had returned, and how many
  // versions had been committed.
  datatype Start = Start(floor: nat, committed: nat)

  // How a filter value came about: which reader asked for the countries and which event that was, the
  // event that asked for the tags, and the versions the two answers are from.
  datatype Fill = Fill(filler: nat, asked: nat, asked2: nat, first: nat, second: nat)

  datatype Reader =
    | SummaryBegun(start: Start, revision: nat)
    | SummaryRead(start: Start, revision: nat, version: nat, summary: Summary)
    | SummaryDone(start: Start, version: nat, summary: Summary)
    | FiltersBegun(start: Start, revision: nat, scope: string)
    | FiltersHalf(start: Start, revision: nat, scope: string, asked: nat, first: nat, countries: set<string>)
    | FiltersRead(start: Start, revision: nat, scope: string, fill: Fill, filters: Filters)
    | FiltersDone(start: Start, scope: string, fill: Fill, filters: Filters)
    | Erred

  // `versions` are the committed tables, newest last; `writing` is the writer that has committed and
  // not returned yet, of which the store's mutex allows one; `returned` is the newest version whose
  // write has returned.  `summaryFrom` and `fills` say where the cached values come from; `steps`
  // counts the events.
  datatype State = State(versions: seq<NodeMap>, writing: Option<nat>, returned: nat, cache: Cache, readers: map<nat, Reader>,
                         summaryFrom: nat, fills: map<string, Fill>, steps: nat)

  datatype Event =
    | Commit(writer: nat, db: NodeMap)
    | Announce(writer: nat)
    | BeginSummary(reader: nat)
    | QuerySummary(reader: nat)
    | KeepSummary(reader: nat)
    | BeginFilters(reader: nat, scope: string)
    | QueryCountries(reader: nat)
    | QueryTags(reader: nat)
    | KeepFilters(reader: nat)
    | Fail(reader: nat)

  function Current(s: State): NodeMap
    requires s.versions != []
  {
    s.versions[|s.versions| - 1]
  }

  function Max(a: nat, b: nat): nat {
    if a < b then b else a
  }

  predicate Enabled(s: State, e: Event) {
    match e
    case Commit(w, db) => s.writing.None?
    case Announce(w) => s.writing == Some(w)
    case BeginSummary(r) => r !in s.readers
    case QuerySummary(r) => r in s.readers && s.readers[r].SummaryBegun?
    case KeepSummary(r) => r in s.readers && s.readers[r].SummaryRead?
    case BeginFilters(r, scope) => r !in s.readers
    case QueryCountries(r) => r in s.readers && s.readers[r].FiltersBegun?
    case QueryTags(r) => r in s.readers && s.readers[r].FiltersHalf?
    case KeepFilters(r) => r in s.readers && s.readers[r].FiltersRead?
    case Fail(r) => r in s.readers && !s.readers[r].SummaryDone? && !s.readers[r].FiltersDone?
  }

  function StartOf(s: State): Start {
    Start(s.returned, |s.versions|)
  }

  function SummaryBegins(s: State): Reader {
    if s.cache.summary.Some? then SummaryDone(StartOf(s), s.summaryFrom, s.cache.summary.value) else SummaryBegun(StartOf(s), s.cache.revision)
  }

  function FiltersBegin(s: State, scope: string): Reader {
    if scope in s.cache.filters && scope in s.fills then FiltersDone(StartOf(s), scope, s.fills[scope], s.cache.filters[scope])
    else FiltersBegun(StartOf(s), s.cache.revision, scope)
  }

  function Next(s: State, e: Event): State
    requires s.versions != [] && Enabled(s, e)
  {
    Moved(s, e).(steps := s.steps + 1)
  }

  function Moved(s: State, e: Event): State
    requires s.versions != [] && Enabled(s, e)
  {
    match e
    case Commit(w, db) => s.(versions := s.versions + [db], writing := Some(w))
    case Announce(w) =>
      s.(writing := None, returned := |s.versions| - 1, cache := Invalidated(s.cache), fills := map[])
    case BeginSummary(r) => s.(readers := s.readers[r := SummaryBegins(s)])
    case QuerySummary(r) =>
      s.(readers := s.readers[r := SummaryRead(s.readers[r].start, s.readers[r].revision, |s.versions| - 1, SummaryOf(Current(s)))])
    case KeepSummary(r) =>
      var p := s.readers[r];
      s.(cache := SummaryKept(s.cache, p.revision, p.summary), summaryFrom := if p.revision == s.cache.revision then p.version else s.summaryFrom,
         readers := s.readers[r := SummaryDone(p.start, p.version, p.summary)])
    case BeginFilters(r, scope) => s.(readers := s.readers[r := FiltersBegin(s, scope)])
    case QueryCountries(r) =>
      var p := s.readers[r];
      s.(readers := s.readers[r := FiltersHalf(p.start, p.revision, p.scope, s.steps, |s.versions| - 1, Countries(Current(s), p.scope))])
    case QueryTags(r) =>
      var p := s.readers[r];
      s.(readers := s.readers[r := FiltersRead(p.start, p.revision, p.scope, Fill(r, p.asked, s.steps, p.first, |s.versions| - 1),
                                               Filters(p.countries, Tags(Current(s), p.scope)))])
    case KeepFilters(r) =>
      var p := s.readers[r];
      s.(cache := FiltersKept(s.cache, p.revision, p.scope, p.filters),
         fills := if p.revision == s.cache.revision then s.fills[p.scope := p.fill] else s.fills,
         readers := s.readers[r := FiltersDone(p.start, p.scope, p.fill, p.filters)])
    case Fail(r) => s.(readers := s.readers[r := Erred])
  }

  function Initial(db: NodeMap): State {
    State([db], None, 0, Cache(0, None, map[]), map[], 0, map[], 0)
  }

  ghost predicate Reaches(db: NodeMap, events: seq<Event>, s: State) {
    if events == [] then s == Initial(db)
    else
      exists before ::
        && Reaches(db, events[..|events| - 1], before) && before.versions != []
        && Enabled(before, events[|events| - 1]) && s == Next(before, events[|events| - 1])
  }

  // ---- the invariant ----

  function FiltersOf(db: NodeMap, scope: string): Filters {
    Filters(Countries(db, scope), Tags(db, scope))
  }

  function Commits(events: seq<Event>): nat {
    if events == [] then 0 else Commits(events[..|events| - 1]) + if events[|events| - 1].Commit? then 1 else 0
  }

  // The value is the summary of that version, which is not older than `from`.
  ghost predicate SummaryFrom(versions: seq<NodeMap>, from: nat, version: nat, value: Summary) {
    from <= version < |versions| && value == SummaryOf(versions[version])
  }

  // The countries are those of that version, which was the newest at that event.
  ghost predicate CountriesFrom(versions: seq<NodeMap>, events: seq<Event>, from: nat, scope: string,
                                filler: nat, asked: nat, first: nat, countries: set<string>) {
    && from <= first < |versions| && countries == Countries(versions[first], scope)
    && asked < |events| && events[asked] == QueryCountries(filler) && first == Commits(events[..asked])
  }

  ghost predicate FiltersFrom(versions: seq<NodeMap>, events: seq<Event>, from: nat, scope: string, fill: Fill, value: Filters) {
    && CountriesFrom(versions, events, from, scope, fill.filler, fill.asked, fill.first, value.countries)
    && fill.first <= fill.second < |versions| && value.tags == Tags(versions[fill.second], scope)
    && fill.asked < fill.asked2 < |events| && events[fill.asked2] == QueryTags(fill.filler) && fill.second == Commits(events[..fill.asked2])
  }

  // The version a reader's value must not be older than: what had returned at its begin, and, if
  // the value may still be cached, whatever has returned by now.
  function Need(s: State, floor: nat, revision: nat): nat {
    if revision == s.cache.revision then Max(floor, s.returned) else floor
  }

  ghost predicate ReaderOk(events: seq<Event>, s: State, r: nat, p: Reader) {
    (p.Erred? || (p.start.floor <= s.returned && p.start.floor < p.start.committed <= p.start.floor + 2)) &&
    match p
    case SummaryBegun(start, revision) => revision <= s.cache.revision
    case SummaryRead(start, revision, version, value) =>
      revision <= s.cache.revision && SummaryFrom(s.versions, Need(s, start.floor, revision), version, value)
    case SummaryDone(start, version, value) => SummaryFrom(s.versions, start.floor, version, value)
    case FiltersBegun(start, revision, scope) => revision <= s.cache.revision
    case FiltersHalf(start, revision, scope, asked, first, countries) =>
      revision <= s.cache.revision && CountriesFrom(s.versions, events, Need(s, start.floor, revision), scope, r, asked, first, countries)
    case FiltersRead(start, revision, scope, fill, value) =>
      revision <= s.cache.revision && FiltersFrom(s.versions, events, Need(s, start.floor, revision), scope, fill, value)
    case FiltersDone(start, scope, fill, value) => FiltersFrom(s.versions, events, start.floor, scope, fill, value)
    case Erred => true
  }

  ghost predicate CacheOk(events: seq<Event>, s: State) {
    && (s.cache.summary.Some? ==> SummaryFrom(s.versions, s.returned, s.summaryFrom, s.cache.summary.value))
    && s.fills.Keys == s.cache.filters.Keys
    && (forall scope {:trigger s.cache.filters[scope]} :: scope in s.cache.filters ==>
          FiltersFrom(s.versions, events, s.returned, scope, s.fills[scope], s.cache.filters[scope]))
  }

  ghost predicate Inv(events: seq<Event>, s: State) {
    && s.steps == |events| && |s.versions| == Commits(events) + 1
    && |s.versions| == s.returned + (if s.writing.None? then 1 else 2)
    && CacheOk(events, s)
    && (forall r {:trigger s.readers[r]} :: r in s.readers ==> ReaderOk(events, s, r, s.readers[r]))
  }

  lemma FromStays(versions: seq<NodeMap>, versions': seq<NodeMap>, events: seq<Event>, e: Event, from: nat, from': nat, scope: string, filler: nat,
                  asked: nat, first: nat, countries: set<string>, fill: Fill, value: Filters)
    requires versions <= versions' && from' <= from
    ensures CountriesFrom(versions, events, from, scope, filler, asked, first, countries) ==>
              CountriesFrom(versions', events + [e], from', scope, filler, asked, first, countries)
    ensures FiltersFrom(versions, events, from, scope, fill, value) ==> FiltersFrom(versions', events + [e], from', scope, fill, value)
  {
    hide Countries, Tags;
    forall k | 0 <= k < |events| ensures (events + [e])[..k] == events[..k] { }
    assert forall v {:trigger versions[v]} :: 0 <= v < |versions| ==> versions[v] == versions'[v];
  }

  // A reader that does not move stays right.
  lemma ReaderStays(events: seq<Event>, e: Event, s: State, s': State, r: nat, p: Reader)
    requires ReaderOk(events, s, r, p) && s.returned <= s'.returned && s.versions <= s'.versions
    requires s.cache.revision <= s'.cache.revision && (s.returned == s'.returned || s.cache.revision < s'.cache.revision)
    ensures ReaderOk(events + [e], s', r, p)
  {
    hide SummaryOf, CountriesFrom, FiltersFrom;
    assert forall v {:trigger s.versions[v]} :: 0 <= v < |s.versions| ==> s.versions[v] == s'.versions[v];
    match p {
      case FiltersHalf(start, revision, scope, asked, first, countries) =>
        FromStays(s.versions, s'.versions, events, e, Need(s, start.floor, revision), Need(s', start.floor, revision), scope, r, asked, first,
                  countries, Fill(0, 0, 0, 0, 0), Filters({}, {}));
      case FiltersRead(start, revision, scope, fill, value) =>
        FromStays(s.versions, s'.versions, events, e, Need(s, start.floor, revision), Need(s', start.floor, revision), scope, r, 0, 0,
                  {}, fill, value);
      case FiltersDone(start, scope, fill, value) =>
        FromStays(s.versions, s'.versions, events, e, start.floor, start.floor, scope, r, 0, 0, {}, fill, value);
      case _ =>
    }
  }

  lemma CacheStays(events: seq<Event>, e: Event, s: State, s': State)
    requires CacheOk(events, s) && s'.cache == s.cache && s'.returned == s.returned && s.versions <= s'.versions
    requires s'.summaryFrom == s.summaryFrom && s'.fills == s.fills
    ensures CacheOk(events + [e], s')
  {
    hide SummaryOf, FiltersFrom;
    forall scope {:trigger s'.cache.filters[scope]} | scope in s'.cache.filters
      ensures FiltersFrom(s'.versions, events + [e], s'.returned, scope, s'.fills[scope], s'.cache.filters[scope])
    {
      FromStays(s.versions, s'.versions, events, e, s.returned, s.returned, scope, 0, 0, 0, {}, s.fills[scope], s.cache.filters[scope]);
    }
    assert forall v {:trigger s.versions[v]} :: 0 <= v < |s.versions| ==> s.versions[v] == s'.versions[v];
  }

  lemma CommitsStep(events: seq<Event>, e: Event)
    ensures Commits(events + [e]) == Commits(events) + if e.Commit? then 1 else 0
  {
    assert (events + [e])[..|events|] == events;
  }

  lemma CommitKeeps(events: seq<Event>, s: State, w: nat, db: NodeMap)
    requires Inv(events, s) && Enabled(s, Commit(w, db))
    ensures Inv(events + [Commit(w, db)], Next(s, Commit(w, db)))
  {
    var e := Commit(w, db);
    var s' := Next(s, e);
    hide SummaryOf, Countries, Tags, ReaderOk, CacheOk;
    CommitsStep(events, e);
    CacheStays(events, e, s, s');
    forall r {:trigger s'.readers[r]} | r in s'.readers ensures ReaderOk(events + [e], s', r, s'.readers[r]) {
      ReaderStays(events, e, s, s', r, s.readers[r]);
    }
  }

  lemma AnnounceKeeps(events: seq<Event>, s: State, w: nat)
    requires Inv(events, s) && Enabled(s, Announce(w))
    ensures Inv(events + [Announce(w)], Next(s, Announce(w)))
  {
    hide SummaryOf, Countries, Tags, ReaderOk, CacheOk, Commits;
    var e := Announce(w);
    var s' := Next(s, e);
    CommitsStep(events, e);
    CacheEmptied(events, s, s', e);
    forall r {:trigger s'.readers[r]} | r in s'.readers ensures ReaderOk(events + [e], s', r, s'.readers[r]) {
      ReaderStays(events, e, s, s', r, s.readers[r]);
    }
  }

  lemma CacheEmptied(events: seq<Event>, s: State, s': State, e: Event)
    requires s'.cache == Invalidated(s.cache) && s'.fills == map[]
    ensures CacheOk(events + [e], s')
  {
  }

  // A reader's own step: the others stay right, and it is right itself.
  lemma ReaderMoves(events: seq<Event>, e: Event, s: State, s': State, r: nat)
    requires Inv(events, s) && !e.Commit? && s'.steps == s.steps + 1
    requires s'.versions == s.versions && s'.returned == s.returned && s'.writing == s.writing
    requires s'.cache.revision == s.cache.revision && CacheOk(events + [e], s')
    requires r in s'.readers && s'.readers == s.readers[r := s'.readers[r]] && ReaderOk(events + [e], s', r, s'.readers[r])
    ensures Inv(events + [e], s')
  {
    hide ReaderOk, CacheOk;
    CommitsStep(events, e);
    forall q {:trigger s'.readers[q]} | q in s'.readers ensures ReaderOk(events + [e], s', q, s'.readers[q]) {
      if q != r {
        ReaderStays(events, e, s, s', q, s.readers[q]);
      }
    }
  }

  lemma SummaryKeeps(events: seq<Event>, s: State, e: Event)
    requires Inv(events, s) && Enabled(s, e) && (e.BeginSummary? || e.QuerySummary? || e.KeepSummary? || e.Fail?)
    ensures Inv(events + [e], Next(s, e))
  {
    hide SummaryOf, Countries, Tags, FiltersFrom, CountriesFrom;
    var s' := Next(s, e);
    if e.reader in s.readers {
      assert ReaderOk(events, s, e.reader, s.readers[e.reader]);
    }
    CacheStays(events, e, s, s.(steps := s'.steps));
    ReaderMoves(events, e, s, s', e.reader);
  }

  lemma FiltersBeginKeeps(events: seq<Event>, s: State, e: Event)
    requires Inv(events, s) && Enabled(s, e) && e.BeginFilters?
    ensures Inv(events + [e], Next(s, e))
  {
    hide SummaryOf, Countries, Tags, FiltersFrom, CountriesFrom;
    var s' := Next(s, e);
    CacheStays(events, e, s, s');
    if e.scope in s.cache.filters {
      FromStays(s.versions, s.versions, events, e, s.returned, s.returned, e.scope, 0, 0, 0, {}, s.fills[e.scope], s.cache.filters[e.scope]);
    }
    ReaderMoves(events, e, s, s', e.reader);
  }

  lemma CountriesKeep(events: seq<Event>, s: State, e: Event)
    requires Inv(events, s) && Enabled(s, e) && e.QueryCountries?
    ensures Inv(events + [e], Next(s, e))
  {
    hide SummaryOf, Countries, Tags, FiltersFrom;
    var s' := Next(s, e);
    assert ReaderOk(events, s, e.reader, s.readers[e.reader]);
    CacheStays(events, e, s, s');
    assert (events + [e])[..|events|] == events;
    ReaderMoves(events, e, s, s', e.reader);
  }

  lemma TagsKeep(events: seq<Event>, s: State, e: Event)
    requires Inv(events, s) && Enabled(s, e) && e.QueryTags?
    ensures Inv(events + [e], Next(s, e))
  {
    hide SummaryOf, Countries, Tags, CountriesFrom;
    var s' := Next(s, e);
    var p := s.readers[e.reader];
    assert ReaderOk(events, s, e.reader, p);
    CacheStays(events, e, s, s');
    assert (events + [e])[..|events|] == events;
    FromStays(s.versions, s.versions, events, e, Need(s, p.start.floor, p.revision), Need(s, p.start.floor, p.revision), p.scope, e.reader,
              p.asked, p.first, p.countries, Fill(0, 0, 0, 0, 0), Filters({}, {}));
    HalfFacts(s.versions, events, Need(s, p.start.floor, p.revision), p.scope, e.reader, p.asked, p.first, p.countries);
    ReaderMoves(events, e, s, s', e.reader);
  }

  lemma HalfFacts(versions: seq<NodeMap>, events: seq<Event>, from: nat, scope: string, filler: nat, asked: nat, first: nat, countries: set<string>)
    requires CountriesFrom(versions, events, from, scope, filler, asked, first, countries)
    ensures asked < |events| && first < |versions|
  {
  }

  lemma FiltersKeep(events: seq<Event>, s: State, e: Event)
    requires Inv(events, s) && Enabled(s, e) && e.KeepFilters?
    ensures Inv(events + [e], Next(s, e))
  {
    hide SummaryOf, Countries, Tags, FiltersFrom, CountriesFrom;
    var s' := Next(s, e);
    var p := s.readers[e.reader];
    assert ReaderOk(events, s, e.reader, p);
    CacheStays(events, e, s, s.(steps := s'.steps));
    FromStays(s.versions, s.versions, events, e, Need(s, p.start.floor, p.revision), p.start.floor, p.scope, 0, 0, 0, {}, p.fill, p.filters);
    if p.revision == s.cache.revision {
      FromStays(s.versions, s.versions, events, e, Need(s, p.start.floor, p.revision), s.returned, p.scope, 0, 0, 0, {}, p.fill, p.filters);
    }
    ReaderMoves(events, e, s, s', e.reader);
  }

  lemma {:induction false} ReachesInv(db: NodeMap, events: seq<Event>, s: State)
    requires Reaches(db, events, s)
    ensures Inv(events, s)
  {
    hide ReaderOk, CacheOk, Next, Enabled, Inv;
    if events == [] {
      InitialInv(db);
    } else {
      var init, last := events[..|events| - 1], events[|events| - 1];
      assert events == init + [last];
      var before :| Reaches(db, init, before) && before.versions != [] && Enabled(before, last) && s == Next(before, last);
      ReachesInv(db, init, before);
      match last {
        case Commit(w, d) => CommitKeeps(init, before, w, d);
        case Announce(w) => AnnounceKeeps(init, before, w);
        case BeginSummary(_) => SummaryKeeps(init, before, last);
        case QuerySummary(_) => SummaryKeeps(init, before, last);
        case KeepSummary(_) => SummaryKeeps(init, before, last);
        case Fail(_) => SummaryKeeps(init, before, last);
        case BeginFilters(_, _) => FiltersBeginKeeps(init, before, last);
        case QueryCountries(_) => CountriesKeep(init, before, last);
        case QueryTags(_) => TagsKeep(init, before, last);
        case KeepFilters(_) => FiltersKeep(init, before, last);
      }
    }
  }

  lemma InitialInv(db: NodeMap)
    ensures Inv([], Initial(db))
  {
  }

  // Read your writes: what a read returns was computed from a version that includes every write
  // that had returned before the read began; for filters each of the two parts was.
  lemma ReadYourWrites(db: NodeMap, events: seq<Event>, s: State, r: nat)
    requires Reaches(db, events, s) && r in s.readers
    ensures var p := s.readers[r];
            && (p.SummaryDone? ==> SummaryFrom(s.versions, p.start.floor, p.version, p.summary))
            && (p.FiltersDone? ==> FiltersFrom(s.versions, events, p.start.floor, p.scope, p.fill, p.filters))
  {
    hide SummaryFrom, FiltersFrom;
    ReachesInv(db, events, s);
    assert ReaderOk(events, s, r, s.readers[r]);
  }

  // ---- how old a read may be ----

  lemma ReachesStep(db: NodeMap, events: seq<Event>, s: State, e: Event)
    requires Reaches(db, events, s) && s.versions != [] && Enabled(s, e)
    ensures Reaches(db, events + [e], Next(s, e)) && Next(s, e).versions != []
  {
    hide Enabled, Next;
    assert (events + [e])[..|events|] == events;
    NextVersions(s, e);
  }

  lemma NextVersions(s: State, e: Event)
    requires s.versions != [] && Enabled(s, e)
    ensures Next(s, e).versions != []
  {
    hide SummaryOf, Countries, Tags;
  }

  lemma ReachesStart(db: NodeMap)
    ensures Reaches(db, [], Initial(db))
  {
  }

  function Tables(tables: nat -> NodeMap, n: nat): seq<NodeMap> {
    if n == 0 then [] else Tables(tables, n - 1) + [tables(n - 1)]
  }

  lemma {:induction false} TablesAt(tables: nat -> NodeMap, n: nat)
    ensures |Tables(tables, n)| == n && (n > 0 ==> Tables(tables, n)[n - 1] == tables(n - 1))
  {
    if n > 0 {
      TablesAt(tables, n - 1);
    }
  }

  // So many writes one after the other, all returned.
  lemma {:induction false} WritesReturn(tables: nat -> NodeMap, f: nat) returns (events: seq<Event>, s: State)
    ensures Reaches(tables(0), events, s) && s.versions == Tables(tables, f + 1) && s.versions != []
    ensures s.writing.None? && s.returned == f && s.cache.summary.None? && s.readers == map[]
  {
    hide Reaches;
    if f == 0 {
      ReachesStart(tables(0));
      events, s := [], Initial(tables(0));
      assert Tables(tables, 1) == Tables(tables, 0) + [tables(0)] == [tables(0)];
    } else {
      events, s := WritesReturn(tables, f - 1);
      TablesAt(tables, f);
      ReachesStep(tables(0), events, s, Commit(0, tables(f)));
      var mid := Next(s, Commit(0, tables(f)));
      events := events + [Commit(0, tables(f))];
      assert mid.versions == Tables(tables, f + 1) && mid.writing == Some(0);
      ReachesStep(tables(0), events, mid, Announce(0));
      s := Next(mid, Announce(0));
      events := events + [Announce(0)];
    }
  }

  // Two readers begin, and the first has read the table.
  lemma TwoBegin(tables: nat -> NodeMap, f: nat) returns (events: seq<Event>, s: State)
    ensures Reaches(tables(0), events, s) && s.versions == Tables(tables, f + 1) && s.versions != []
    ensures s.writing.None? && s.returned == f && s.cache.summary.None?
    ensures s.readers == map[0 := SummaryRead(Start(f, f + 1), s.cache.revision, f, SummaryOf(tables(f))),
                             1 := SummaryBegun(Start(f, f + 1), s.cache.revision)]
  {
    hide SummaryOf, Reaches;
    var db := tables(0);
    TablesAt(tables, f + 1);
    var s0: State;
    events, s0 := WritesReturn(tables, f);
    ReachesStep(db, events, s0, BeginSummary(0));
    var s1 := Next(s0, BeginSummary(0));
    events := events + [BeginSummary(0)];
    ReachesStep(db, events, s1, QuerySummary(0));
    var s2 := Next(s1, QuerySummary(0));
    events := events + [QuerySummary(0)];
    ReachesStep(db, events, s2, BeginSummary(1));
    s := Next(s2, BeginSummary(1));
    events := events + [BeginSummary(1)];
  }

  // The second reads the table and keeps the summary.
  lemma SecondEnds(db: NodeMap, given: seq<Event>, before: State) returns (events: seq<Event>, s: State)
    requires Reaches(db, given, before) && before.versions != [] && 1 in before.readers && before.readers[1].SummaryBegun?
    requires before.readers[1].revision == before.cache.revision
    ensures events == given + [QuerySummary(1), KeepSummary(1)] && Reaches(db, events, s)
    ensures s.versions == before.versions && s.returned == before.returned && s.cache.revision == before.cache.revision
    ensures s.readers == before.readers[1 := SummaryDone(before.readers[1].start, |s.versions| - 1, SummaryOf(Current(s)))]
  {
    hide SummaryOf, Reaches;
    ReachesStep(db, given, before, QuerySummary(1));
    var mid := Next(before, QuerySummary(1));
    ReachesStep(db, given + [QuerySummary(1)], mid, KeepSummary(1));
    s := Next(mid, KeepSummary(1));
    events := given + [QuerySummary(1)] + [KeepSummary(1)];
  }

  // Whatever is written: a read may return a version although the next one was committed, and even
  // returned by another read, before it began, as long as that one's write has not returned.
  lemma StaleRun(tables: nat -> NodeMap, f: nat) returns (events: seq<Event>, s: State)
    ensures Reaches(tables(0), events, s) && |events| >= 3
    ensures events[|events| - 3] == KeepSummary(1) && events[|events| - 1] == BeginSummary(2)
    ensures 1 in s.readers && s.readers[1] == SummaryDone(Start(f, f + 1), f + 1, SummaryOf(tables(f + 1)))
    ensures 2 in s.readers && s.readers[2] == SummaryDone(Start(f, f + 2), f, SummaryOf(tables(f)))
  {
    hide SummaryOf, Reaches;
    var db := tables(0);
    TablesAt(tables, f + 1);
    TablesAt(tables, f + 2);
    var s3: State;
    events, s3 := TwoBegin(tables, f);
    ReachesStep(db, events, s3, Commit(0, tables(f + 1)));
    var s4 := Next(s3, Commit(0, tables(f + 1)));
    events := events + [Commit(0, tables(f + 1))];
    var s6: State;
    events, s6 := SecondEnds(db, events, s4);
    ReachesStep(db, events, s6, KeepSummary(0));
    var s7 := Next(s6, KeepSummary(0));
    events := events + [KeepSummary(0)];
    ReachesStep(db, events, s7, BeginSummary(2));
    s := Next(s7, BeginSummary(2));
    events := events + [BeginSummary(2)];
  }

  // In this state the reader has ended, having begun with this floor when that version was committed,
  // and what it returned is older.
  ghost predicate ReturnsOlder(s: State, r: nat, f: nat, v: nat) {
    && r in s.readers && s.readers[r].SummaryDone? && s.readers[r].start.floor == f && v < s.readers[r].start.committed
    && s.readers[r].version < v
  }

  // A read is at most one version behind the newest that was committed when it began; so is each of
  // the two parts of a filter read.
  lemma OneBehind(db: NodeMap, events: seq<Event>, s: State, r: nat)
    requires Reaches(db, events, s) && r in s.readers
    ensures var p := s.readers[r];
            && (p.SummaryDone? ==> p.start.committed <= p.version + 2)
            && (p.FiltersDone? ==> p.start.committed <= p.fill.first + 2 && p.start.committed <= p.fill.second + 2)
  {
    hide Reaches, SummaryOf, Countries, Tags;
    ReachesInv(db, events, s);
    assert ReaderOk(events, s, r, s.readers[r]);
  }

  // Reads go forward except by the one write that has not returned: with f the newest version whose
  // write had returned, a read can return something older than a version committed before it began
  // exactly if that is the version after f.
  lemma NotOlderExactly(tables: nat -> NodeMap, f: nat, v: nat)
    ensures (exists events, s, r: nat :: Reaches(tables(0), events, s) && ReturnsOlder(s, r, f, v)) <==> v == f + 1
  {
    hide Reaches;
    if v == f + 1 {
      var events, s := StaleRun(tables, f);
      assert ReturnsOlder(s, 2, f, v);
    } else {
      forall events, s, r: nat | Reaches(tables(0), events, s) && r in s.readers ensures !ReturnsOlder(s, r, f, v) {
        ReadYourWrites(tables(0), events, s, r);
        BeginsWithin(tables(0), events, s, r);
      }
    }
  }

  lemma BeginsWithin(db: NodeMap, events: seq<Event>, s: State, r: nat)
    requires Reaches(db, events, s) && r in s.readers
    ensures s.readers[r].SummaryDone? ==> s.readers[r].start.committed <= s.readers[r].start.floor + 2
  {
    hide Reaches;
    ReachesInv(db, events, s);
    assert ReaderOk(events, s, r, s.readers[r]);
  }

  // ---- from how many versions a filter read is ----

  // A write is committed between the two events.
  ghost predicate CommitBetween(events: seq<Event>, i: nat, j: nat) {
    exists k :: i < k < j <= |events| && events[k].Commit?
  }

  lemma {:induction false} CommitsBetween(events: seq<Event>, i: nat, j: nat)
    requires i < j <= |events| && !events[i].Commit?
    ensures Commits(events[..i]) <= Commits(events[..j])
    ensures Commits(events[..i]) == Commits(events[..j]) <==> !CommitBetween(events, i, j)
  {
    assert events[..j][..j - 1] == events[..j - 1];
    if i + 1 < j {
      CommitsBetween(events, i, j - 1);
      if events[j - 1].Commit? {
        assert CommitBetween(events, i, j);
      } else if CommitBetween(events, i, j) {
        var k :| i < k < j && events[k].Commit?;
        assert k < j - 1;
      }
    }
  }

  // Whoever filled it and whether or not it was cached: a filter read shows one version's filters if
  // nothing was committed between the two queries that filled it.  In general it shows those of the
  // version of the first query exactly if the tags are the same at the second, and those of the
  // version of the second exactly if the countries were the same at the first.
  lemma FiltersExactly(db: NodeMap, events: seq<Event>, s: State, r: nat)
    requires Reaches(db, events, s) && r in s.readers && s.readers[r].FiltersDone?
    ensures var p, fill := s.readers[r], s.readers[r].fill;
            && fill.asked < fill.asked2 < |events| && events[fill.asked] == QueryCountries(fill.filler) && events[fill.asked2] == QueryTags(fill.filler)
            && p.start.floor <= fill.first <= fill.second < |s.versions|
            && (!CommitBetween(events, fill.asked, fill.asked2) ==> fill.first == fill.second && p.filters == FiltersOf(s.versions[fill.first], p.scope))
            && (p.filters == FiltersOf(s.versions[fill.first], p.scope) <==>
                  Tags(s.versions[fill.first], p.scope) == Tags(s.versions[fill.second], p.scope))
            && (p.filters == FiltersOf(s.versions[fill.second], p.scope) <==>
                  Countries(s.versions[fill.first], p.scope) == Countries(s.versions[fill.second], p.scope))
  {
    hide Reaches, Countries, Tags, Commits;
    ReadYourWrites(db, events, s, r);
    CommitsBetween(events, s.readers[r].fill.asked, s.readers[r].fill.asked2);
  }

  // Filters of one of the versions committed between the two queries, or of those they saw.
  ghost predicate Whole(s: State, r: nat)
    requires r in s.readers && s.readers[r].FiltersDone?
  {
    var p := s.readers[r];
    exists v :: p.fill.first <= v <= p.fill.second && v < |s.versions| && p.filters == FiltersOf(s.versions[v], p.scope)
  }

  // With one write committed in between, the two parts do not belong together exactly if that write
  // changed both the countries and the tags of the scope.
  lemma TornByOne(db: NodeMap, events: seq<Event>, s: State, r: nat)
    requires Reaches(db, events, s) && r in s.readers && s.readers[r].FiltersDone?
    requires s.readers[r].fill.second == s.readers[r].fill.first + 1
    ensures var fill, scope := s.readers[r].fill, s.readers[r].scope;
            fill.second < |s.versions| &&
            (!Whole(s, r) <==>
               && Countries(s.versions[fill.first], scope) != Countries(s.versions[fill.second], scope)
               && Tags(s.versions[fill.first], scope) != Tags(s.versions[fill.second], scope))
  {
    hide Reaches, Countries, Tags;
    FiltersExactly(db, events, s, r);
    var fill := s.readers[r].fill;
    assert forall v {:trigger s.versions[v]} :: fill.first <= v <= fill.second ==> v == fill.first || v == fill.second;
  }

  // A read that has the countries and not yet the tags.
  lemma HalfRun(a: NodeMap, scope: string) returns (events: seq<Event>, s: State)
    ensures Reaches(a, events, s) && s.versions == [a] && s.writing.None? && s.steps == 2
    ensures s.readers == map[0 := FiltersHalf(Start(0, 1), s.cache.revision, scope, 1, 0, Countries(a, scope))]
  {
    hide Countries, Tags, Reaches;
    ReachesStart(a);
    var s0 := Initial(a);
    ReachesStep(a, [], s0, BeginFilters(0, scope));
    var s1 := Next(s0, BeginFilters(0, scope));
    events := [] + [BeginFilters(0, scope)];
    ReachesStep(a, events, s1, QueryCountries(0));
    s := Next(s1, QueryCountries(0));
    events := events + [QueryCountries(0)];
  }

  // And such a read is possible for every two tables and every scope.
  lemma TornRun(a: NodeMap, b: NodeMap, scope: string) returns (events: seq<Event>, s: State)
    ensures Reaches(a, events, s) && s.versions == [a, b] && 0 in s.readers
    ensures s.readers[0] == FiltersDone(Start(0, 1), scope, Fill(0, 1, 3, 0, 1), Filters(Countries(a, scope), Tags(b, scope)))
  {
    hide Countries, Tags, Reaches;
    var s2: State;
    events, s2 := HalfRun(a, scope);
    ReachesStep(a, events, s2, Commit(0, b));
    var s3 := Next(s2, Commit(0, b));
    events := events + [Commit(0, b)];
    ReachesStep(a, events, s3, QueryTags(0));
    var s4 := Next(s3, QueryTags(0));
    events := events + [QueryTags(0)];
    ReachesStep(a, events, s4, KeepFilters(0));
    s := Next(s4, KeepFilters(0));
    events := events + [KeepFilters(0)];
  }

  // Some run tears a read over a write from one table to another exactly if the write changes both
  // the countries and the tags of the scope.
  lemma FiltersTorn(a: NodeMap, b: NodeMap, scope: string)
    ensures (exists events, s, r: nat :: Reaches(a, events, s) && s.versions == [a, b] && Tears(s, r, scope)) <==>
            Countries(a, scope) != Countries(b, scope) && Tags(a, scope) != Tags(b, scope)
  {
    hide Countries, Tags, Reaches;
    if Countries(a, scope) != Countries(b, scope) && Tags(a, scope) != Tags(b, scope) {
      var events, s := TornRun(a, b, scope);
      TornByOne(a, events, s, 0);
      assert Tears(s, 0, scope);
    }
    forall events, s, r: nat | Reaches(a, events, s) && s.versions == [a, b] && Tears(s, r, scope)
      ensures Countries(a, scope) != Countries(b, scope) && Tags(a, scope) != Tags(b, scope)
    {
      FiltersExactly(a, events, s, r);
      if s.readers[r].fill.second != s.readers[r].fill.first {
        TornByOne(a, events, s, r);
      }
    }
  }

  ghost predicate Tears(s: State, r: nat, scope: string) {
    r in s.readers && s.readers[r].FiltersDone? && s.readers[r].scope == scope && !Whole(s, r)
  }
}
