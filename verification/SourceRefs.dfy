/**
  Source references: where a node came from.  A node keeps one reference per identity; the
  first of several wins.
 */
module SourceRefs {

  datatype SourceRef = SourceRef(
    tagPrefix: string, importId: string, mode: string, source: string,
    format: string, chainProfileId: string, fetchPolicy: string)

  // The key under which references are merged, with the joined string kept as its parts.
  datatype Identity =
    | NoIdentity
    | UrlIdentity(tag: string, source: string, chain: string)
    | OtherIdentity(tag: string, mode: string, source: string, importId: string, chain: string)

  const FetchAuto := "auto"

  predicate IsSpace(c: char) {
    c in {' ', '\t', '\n', '\r', 11 as char, 12 as char, 0x85 as char, 0xA0 as char}
  }

  function TrimLeft(s: string): (r: string)
    ensures |r| <= |s| && (r != [] ==> !IsSpace(r[0]))
  {
    if s != [] && IsSpace(s[0]) then TrimLeft(s[1..]) else s
  }

  function TrimRight(s: string): (r: string)
    ensures r <= s && (r != [] ==> !IsSpace(r[|r| - 1]))
  {
    if s != [] && IsSpace(s[|s| - 1]) then TrimRight(s[..|s| - 1]) else s
  }

  function Trim(s: string): (r: string)
    ensures r != [] ==> !IsSpace(r[0]) && !IsSpace(r[|r| - 1])
  {
    TrimRight(TrimLeft(s))
  }

  lemma TrimTwice(s: string)
    ensures Trim(Trim(s)) == Trim(s)
  {
  }

  // What is trimmed off is white space, and all of it at both ends.
  lemma TrimExactly(s: string) returns (left: string, right: string)
    ensures s == left + Trim(s) + right && forall c :: c in left + right ==> IsSpace(c)
  {
    left := LeftOf(s);
    right := RightOf(TrimLeft(s));
    assert s == left + (Trim(s) + right);
  }

  lemma {:induction false} LeftOf(s: string) returns (left: string)
    ensures s == left + TrimLeft(s) && forall c :: c in left ==> IsSpace(c)
  {
    if s != [] && IsSpace(s[0]) {
      var rest := LeftOf(s[1..]);
      left := [s[0]] + rest;
      assert s == [s[0]] + s[1..];
    } else {
      left := [];
    }
  }

  lemma {:induction false} RightOf(s: string) returns (right: string)
    ensures s == TrimRight(s) + right && forall c :: c in right ==> IsSpace(c)
  {
    if s != [] && IsSpace(s[|s| - 1]) {
      var rest := RightOf(s[..|s| - 1]);
      right := rest + [s[|s| - 1]];
      assert s == s[..|s| - 1] + [s[|s| - 1]];
    } else {
      right := [];
    }
  }

  function Lower(s: string): string {
    if s == [] then []
    else [if 'A' <= s[0] <= 'Z' then (s[0] as int + 32) as char else s[0]] + Lower(s[1..])
  }

  predicate IsUrl(ref: SourceRef) {
    var mode := Trim(ref.mode);
    if mode == "url" then true
    else if mode != "" then false
    else
      var source := Lower(Trim(ref.source));
      "http://" <= source || "https://" <= source
  }

  function Normalized(ref: SourceRef): SourceRef {
    var r := SourceRef(Trim(ref.tagPrefix), Trim(ref.importId), Trim(ref.mode), Trim(ref.source),
                       Trim(ref.format), Trim(ref.chainProfileId), Trim(ref.fetchPolicy));
    var r' := if r.mode == "" && IsUrl(r) then r.(mode := "url") else r;
    if IsUrl(r') then r'.(fetchPolicy := FetchAuto) else r'
  }

  // The character is that letter, in either case.
  predicate Reads(c: char, d: char) {
    c == d || ('A' <= c <= 'Z' && c as int + 32 == d as int)
  }

  predicate StartsWith(s: string, start: string) {
    |start| <= |s| && forall i :: 0 <= i < |start| ==> Reads(s[i], start[i])
  }

  lemma {:induction false} LowerAt(s: string)
    ensures |Lower(s)| == |s|
    ensures forall i :: 0 <= i < |s| ==> Lower(s)[i] == if 'A' <= s[i] <= 'Z' then (s[i] as int + 32) as char else s[i]
  {
    if s != [] {
      LowerAt(s[1..]);
    }
  }

  lemma LowerStarts(s: string, start: string)
    requires forall i :: 0 <= i < |start| ==> !('A' <= start[i] <= 'Z')
    ensures start <= Lower(s) <==> StartsWith(s, start)
  {
    hide Lower;
    LowerAt(s);
    if |start| <= |s| {
      forall i | 0 <= i < |start| ensures Reads(s[i], start[i]) <==> Lower(s)[i] == start[i] { }
    }
  }

  // A normal reference has its fields trimmed; without a mode it is a subscription if its source is an
  // address on the web, whatever the case; and subscriptions are fetched in the automatic way only.
  lemma NormalizedFields(ref: SourceRef)
    ensures var r, mode, source := Normalized(ref), Trim(ref.mode), Trim(ref.source);
            && r.tagPrefix == Trim(ref.tagPrefix) && r.importId == Trim(ref.importId) && r.source == source
            && r.format == Trim(ref.format) && r.chainProfileId == Trim(ref.chainProfileId)
            && (mode != "" ==> r.mode == mode)
            && (mode == "" ==> r.mode == if StartsWith(source, "http://") || StartsWith(source, "https://") then "url" else "")
            && r.fetchPolicy == if r.mode == "url" then "auto" else Trim(ref.fetchPolicy)
  {
    hide Trim, Lower, StartsWith;
    ConstantsTrimmed();
    TrimTwice(ref.mode);
    TrimTwice(ref.source);
    LowerStarts(Trim(ref.source), "http://");
    LowerStarts(Trim(ref.source), "https://");
  }

  lemma ConstantsTrimmed()
    ensures Trim("url") == "url" && Trim(FetchAuto) == FetchAuto
  {
  }

  lemma NormalizedTwice(ref: SourceRef)
    ensures Normalized(Normalized(ref)) == Normalized(ref)
  {
    hide Trim, Lower;
    ConstantsTrimmed();
    TrimTwice(ref.tagPrefix);
    TrimTwice(ref.importId);
    TrimTwice(ref.mode);
    TrimTwice(ref.source);
    TrimTwice(ref.format);
    TrimTwice(ref.chainProfileId);
    TrimTwice(ref.fetchPolicy);
  }

  function IdentityOf(ref: SourceRef): Identity {
    var tag, mode, source := Trim(ref.tagPrefix), Trim(ref.mode), Trim(ref.source);
    if tag == "" && mode == "" && source == "" && Trim(ref.importId) == "" then NoIdentity
    else if IsUrl(ref) then UrlIdentity(tag, source, ref.chainProfileId)
    else OtherIdentity(tag, mode, source, Trim(ref.importId), ref.chainProfileId)
  }

  lemma TrimmedFields(ref: SourceRef)
    requires Normalized(ref) == ref
    ensures Trim(ref.tagPrefix) == ref.tagPrefix && Trim(ref.importId) == ref.importId && Trim(ref.mode) == ref.mode
    ensures Trim(ref.source) == ref.source && Trim(ref.format) == ref.format && Trim(ref.chainProfileId) == ref.chainProfileId
    ensures ref.mode == "" ==> !IsUrl(ref)
  {
    hide Trim, Lower;
    ConstantsTrimmed();
    TrimTwice(ref.tagPrefix);
    TrimTwice(ref.importId);
    TrimTwice(ref.mode);
    TrimTwice(ref.source);
    TrimTwice(ref.format);
    TrimTwice(ref.chainProfileId);
  }

  // When two references, as they are kept, are one source.
  lemma SameIdentity(a: SourceRef, b: SourceRef)
    requires Normalized(a) == a && Normalized(b) == b
    ensures IdentityOf(a) == NoIdentity <==> a.tagPrefix == "" && a.mode == "" && a.source == "" && a.importId == ""
    ensures IdentityOf(a) != NoIdentity ==>
              (IdentityOf(a) == IdentityOf(b) <==>
                 && a.tagPrefix == b.tagPrefix && a.mode == b.mode && a.source == b.source && a.chainProfileId == b.chainProfileId
                 && (a.importId == b.importId || a.mode == "url"))
  {
    hide Trim, Lower;
    TrimmedFields(a);
    TrimmedFields(b);
  }

  // ---- deduplication ----

  function Identities(refs: seq<SourceRef>): (ids: set<Identity>) {
    set ref | ref in refs :: IdentityOf(ref)
  }

  // The references worth keeping, normalized, the first of each identity.
  function Dedup(refs: seq<SourceRef>): (r: seq<SourceRef>)
    ensures |r| <= |refs|
  {
    if refs == [] then []
    else
      var kept := Dedup(refs[..|refs| - 1]);
      var ref := Normalized(refs[|refs| - 1]);
      if IdentityOf(ref) == NoIdentity || IdentityOf(ref) in Identities(kept) then kept else kept + [ref]
  }

  method DeduplicateSourceRefs(refs: seq<SourceRef>) returns (result: seq<SourceRef>)
    ensures result == Dedup(refs)
  {
    hide Normalized, IdentityOf;
    result := [];
    var seen: set<Identity> := {};
    for i := 0 to |refs|
      invariant result == Dedup(refs[..i]) && seen == Identities(result)
    {
      assert refs[..i + 1][..i] == refs[..i];
      var ref := Normalized(refs[i]);
      var key := IdentityOf(ref);
      if key == NoIdentity || key in seen {
        continue;
      }
      seen := seen + {key};
      result := result + [ref];
    }
    assert refs[..|refs|] == refs;
  }

  ghost predicate DistinctIdentities(refs: seq<SourceRef>) {
    forall i, j :: 0 <= i < j < |refs| ==> IdentityOf(refs[i]) != IdentityOf(refs[j])
  }

  ghost predicate AllNormal(refs: seq<SourceRef>) {
    forall ref {:trigger ref in refs} :: ref in refs ==> Normalized(ref) == ref && IdentityOf(ref) != NoIdentity
  }

  // What `Dedup` keeps: normalized references, one per identity the input has, and no other.
  lemma {:induction false} DedupFacts(refs: seq<SourceRef>)
    ensures AllNormal(Dedup(refs)) && DistinctIdentities(Dedup(refs))
    ensures forall id :: id in Identities(Dedup(refs)) <==>
                           id != NoIdentity && exists ref :: ref in refs && IdentityOf(Normalized(ref)) == id
    ensures forall ref {:trigger ref in Dedup(refs)} :: ref in Dedup(refs) ==> exists o :: o in refs && Normalized(o) == ref
  {
    hide Normalized, IdentityOf;
    if refs != [] {
      var init, last := refs[..|refs| - 1], refs[|refs| - 1];
      var ref := Normalized(last);
      DedupFacts(init);
      NormalizedTwice(last);
      assert refs == init + [last];
      assert forall o :: o in refs <==> o in init || o == last;
      if !(IdentityOf(ref) == NoIdentity || IdentityOf(ref) in Identities(Dedup(init))) {
        assert forall o :: o in Dedup(refs) <==> o in Dedup(init) || o == ref;
        assert Identities(Dedup(refs)) == Identities(Dedup(init)) + {IdentityOf(ref)};
      }
    }
  }

  // A list already normalized and free of repeats is left as it is.
  lemma {:induction false} DedupFixed(refs: seq<SourceRef>)
    requires AllNormal(refs) && DistinctIdentities(refs)
    ensures Dedup(refs) == refs
  {
    hide Normalized, IdentityOf;
    if refs != [] {
      var init, last := refs[..|refs| - 1], refs[|refs| - 1];
      assert refs == init + [last] && last in refs;
      assert forall o :: o in init ==> o in refs;
      assert forall i :: 0 <= i < |init| ==> IdentityOf(refs[i]) != IdentityOf(refs[|init|]);
      DedupFixed(init);
    }
  }

  lemma DedupTwice(refs: seq<SourceRef>)
    ensures Dedup(Dedup(refs)) == Dedup(refs)
  {
    DedupFacts(refs);
    DedupFixed(Dedup(refs));
  }
}
