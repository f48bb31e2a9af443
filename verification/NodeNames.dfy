/**
  Unique names: the outbound tags of a node list, and the names of nodes joining the pool.  Both
  take the first free one of base, base-2, base-3, and so on.
 */
module NodeNames {
  import opened Orders
  import opened SourceRefs

  // ---- numbers in decimal ----

  function Digit(d: nat): char
    requires d < 10
  {
    ('0' as int + d) as char
  }

  function Itoa(n: nat): (s: string)
    ensures |s| > 0
  {
    if n < 10 then [Digit(n)] else Itoa(n / 10) + [Digit(n % 10)]
  }

  // The number a string of digits says.
  function Value(s: string): int {
    if s == [] then 0 else 10 * Value(s[..|s| - 1]) + (s[|s| - 1] as int - '0' as int)
  }

  lemma {:induction false} ItoaReads(n: nat)
    ensures Value(Itoa(n)) == n && (forall c :: c in Itoa(n) ==> '0' <= c <= '9') && (n > 0 ==> Itoa(n)[0] != '0')
  {
    if n < 10 {
      assert [Digit(n)][..0] == [];
    } else {
      ItoaReads(n / 10);
      assert Itoa(n)[..|Itoa(n)| - 1] == Itoa(n / 10);
    }
  }

  lemma ItoaInjective(a: nat, b: nat)
    requires Itoa(a) == Itoa(b)
    ensures a == b
  {
    ItoaReads(a);
    ItoaReads(b);
  }

  // ---- the first free name ----

  function Candidate(base: string, n: nat): string {
    if n <= 1 then base else base + "-" + Itoa(n)
  }

  lemma CandidateInjective(base: string, a: nat, b: nat)
    requires 1 <= a < b
    ensures Candidate(base, a) != Candidate(base, b)
  {
    var s := Candidate(base, b);
    assert s == base + ("-" + Itoa(b));
    if a > 1 && Candidate(base, a) == s {
      assert Candidate(base, a) == base + ("-" + Itoa(a));
      assert Candidate(base, a)[|base| + 1..] == Itoa(a) && s[|base| + 1..] == Itoa(b);
      ItoaInjective(a, b);
    }
  }

  function Candidates(base: string, n: nat): set<string> {
    if n == 0 then {} else Candidates(base, n - 1) + {Candidate(base, n)}
  }

  lemma {:induction false} CandidatesCount(base: string, n: nat)
    ensures |Candidates(base, n)| == n
    ensures forall s :: s in Candidates(base, n) <==> exists k :: 1 <= k <= n && s == Candidate(base, k)
  {
    hide Candidate;
    if n > 0 {
      CandidatesCount(base, n - 1);
      if Candidate(base, n) in Candidates(base, n - 1) {
        var k :| 1 <= k <= n - 1 && Candidate(base, n) == Candidate(base, k);
        CandidateInjective(base, k, n);
      }
    }
  }

  ghost predicate TakenBelow(base: string, used: set<string>, n: nat) {
    forall k :: 1 <= k < n ==> Candidate(base, k) in used
  }

  lemma SubsetSize(a: set<string>, b: set<string>)
    requires a <= b
    ensures |a| <= |b|
  {
    assert b == a + (b - a);
  }

  // Pigeonhole: a name among the first |used| + 1 candidates is free.
  lemma TakenBound(base: string, used: set<string>, n: nat)
    requires n >= 1 && TakenBelow(base, used, n)
    ensures n - 1 <= |used|
  {
    CandidatesCount(base, n - 1);
    SubsetSize(Candidates(base, n - 1), used);
  }

  function FreeFrom(base: string, used: set<string>, n: nat): (name: string)
    requires n >= 1 && TakenBelow(base, used, n)
    ensures FirstFree(base, used, name)
    decreases |used| + 1 - n
  {
    TakenBound(base, used, n);
    if Candidate(base, n) !in used then Candidate(base, n)
    else
      TakenBound(base, used, n + 1);
      FreeFrom(base, used, n + 1)
  }

  // The name is not taken, and every earlier candidate is.
  ghost predicate FirstFree(base: string, used: set<string>, name: string) {
    name !in used && exists n :: n >= 1 && name == Candidate(base, n) && TakenBelow(base, used, n)
  }

  lemma FirstFreeUnique(base: string, used: set<string>, a: string, b: string)
    requires FirstFree(base, used, a) && FirstFree(base, used, b)
    ensures a == b
  {
    var n :| n >= 1 && a == Candidate(base, n) && TakenBelow(base, used, n);
    var k :| k >= 1 && b == Candidate(base, k) && TakenBelow(base, used, k);
  }

  function FreeName(base: string, used: set<string>): (name: string)
    ensures FirstFree(base, used, name)
  {
    FreeFrom(base, used, 1)
  }

  // ---- names of nodes joining the pool ----

  method NextUniqueName(base: string, used: set<string>) returns (name: string, used': set<string>)
    ensures FirstFree(if Trim(base) == "" then "node" else Trim(base), used, name)
    ensures used' == used + {name}
  {
    hide Trim;
    var trimmed := Trim(base);
    if trimmed == "" {
      trimmed := "node";
    }
    if trimmed !in used {
      assert trimmed == Candidate(trimmed, 1) && TakenBelow(trimmed, used, 1);
      return trimmed, used + {trimmed};
    }
    var next := 2;
    name := trimmed + "-" + Itoa(next);
    while name in used
      invariant next >= 2 && name == Candidate(trimmed, next) && TakenBelow(trimmed, used, next)
      decreases |used| + 1 - next
    {
      TakenBound(trimmed, used, next + 1);
      next := next + 1;
      name := trimmed + "-" + Itoa(next);
    }
    used' := used + {name};
  }

  // ---- outbound tags ----

  predicate TagChar(c: char) {
    'a' <= c <= 'z' || '0' <= c <= '9'
  }

  // Runs of letters and digits joined by single dashes.
  function Slug(s: string): string {
    if s == [] then []
    else
      var init, c := s[..|s| - 1], s[|s| - 1];
      var done := Slug(init);
      if !TagChar(c) then done
      else if done != [] && !TagChar(init[|init| - 1]) then done + "-" + [c]
      else done + [c]
  }

  // A run of letters and digits stays as it is.
  lemma {:induction false} SlugWhole(s: string)
    requires forall c :: c in s ==> TagChar(c)
    ensures Slug(s) == s
  {
    if s != [] {
      var init, c := s[..|s| - 1], s[|s| - 1];
      assert s == init + [c] && c in s;
      SlugWhole(init);
      assert init != [] ==> init[|init| - 1] in s;
    }
  }

  lemma SlugAdds(s: string, c: char)
    ensures Slug(s + [c]) ==
            if !TagChar(c) then Slug(s)
            else if Slug(s) != [] && !TagChar(s[|s| - 1]) then Slug(s) + "-" + [c]
            else Slug(s) + [c]
    ensures TagChar(c) ==> Slug(s + [c]) != []
  {
    assert (s + [c])[..|s|] == s;
  }

  // What stands on the two sides of any other character is joined by one dash, if there is something
  // on both.
  lemma {:induction false} SlugJoins(a: string, c: char, b: string)
    requires !TagChar(c)
    ensures Slug(a + [c] + b) ==
            if Slug(a) == [] then Slug(b) else if Slug(b) == [] then Slug(a) else Slug(a) + "-" + Slug(b)
  {
    hide Slug, TagChar;
    SlugWhole([]);
    SlugAdds(a, c);
    if b == [] {
      assert a + [c] + b == a + [c];
    } else {
      var init, d := b[..|b| - 1], b[|b| - 1];
      SlugJoins(a, c, init);
      SlugAdds(init, d);
      SlugAdds(a + [c] + init, d);
      assert b == init + [d] && a + [c] + b == a + [c] + init + [d];
      if init == [] {
        assert a + [c] + init == a + [c];
      } else {
        assert (a + [c] + init)[|a| + |init|] == init[|init| - 1];
        assert init == init[..|init| - 1] + [init[|init| - 1]];
        SlugAdds(init[..|init| - 1], init[|init| - 1]);
      }
      Dashes(Slug(a), Slug(init), [d]);
    }
  }

  lemma Dashes(a: string, b: string, c: string)
    ensures a + "-" + (b + "-" + c) == (a + "-" + b) + "-" + c && a + "-" + (b + c) == (a + "-" + b) + c && [] + c == c
  {
    assert a + "-" + (b + "-" + c) == (a + "-" + b) + "-" + c;
    assert a + "-" + (b + c) == (a + "-" + b) + c;
  }

  function SanitizeTag(name: string): string {
    Slug(Lower(name))
  }

  function TagBase(name: string, i: nat): string {
    var base := SanitizeTag(name);
    if base == "" then "node-" + Itoa(i + 1) else base
  }

  function TagsOf(names: seq<string>, reserved: set<string>): (tags: seq<string>)
    ensures |tags| == |names|
  {
    if names == [] then []
    else
      var i := |names| - 1;
      var tags := TagsOf(names[..i], reserved);
      tags + [FreeName(TagBase(names[i], i), reserved + Members(tags))]
  }

  method FreeTag(base: string, used: set<string>) returns (tag: string)
    ensures tag == FreeName(base, used)
  {
    tag := base;
    var n := 2;
    while tag in used
      invariant n >= 2 && tag == Candidate(base, n - 1) && TakenBelow(base, used, n - 1)
      decreases |used| + 2 - n
    {
      TakenBound(base, used, n);
      tag := base + "-" + Itoa(n);
      n := n + 1;
    }
    assert FirstFree(base, used, tag);
    FirstFreeUnique(base, used, tag, FreeName(base, used));
  }

  method NodeTags(names: seq<string>, reserved: set<string>) returns (tags: seq<string>)
    ensures tags == TagsOf(names, reserved)
  {
    hide SanitizeTag, FreeName;
    var used := reserved;
    tags := [];
    for i := 0 to |names|
      invariant tags == TagsOf(names[..i], reserved) && |tags| == i
      invariant used == reserved + Members(tags)
    {
      assert names[..i + 1][..i] == names[..i];
      var base := SanitizeTag(names[i]);
      if base == "" {
        base := "node-" + Itoa(i + 1);
      }
      var tag := FreeTag(base, used);
      used := used + {tag};
      tags := tags + [tag];
    }
    assert names[..|names|] == names;
  }

  lemma FreeNotTaken(base: string, used: set<string>)
    ensures FreeName(base, used) !in used
  {
  }

  // Tags are distinct and never a reserved one.
  lemma {:induction false} TagsDistinct(names: seq<string>, reserved: set<string>, i: nat, j: nat)
    requires i < |names|
    ensures TagsOf(names, reserved)[i] !in reserved
    ensures i < j < |names| ==> TagsOf(names, reserved)[i] != TagsOf(names, reserved)[j]
    decreases |names|
  {
    hide FreeName, TagBase, Members;
    var last := |names| - 1;
    var init := TagsOf(names[..last], reserved);
    FreeNotTaken(TagBase(names[last], last), reserved + Members(init));
    if i < last {
      MemberIn(init, i);
      TagsDistinct(names[..last], reserved, i, j);
    }
  }

  lemma MemberIn(tags: seq<string>, i: nat)
    requires i < |tags|
    ensures tags[i] in Members(tags)
  {
  }

  // A tag depends only on the names up to its own: nodes added at the end keep earlier tags.
  lemma {:induction false} TagsPrefix(names: seq<string>, more: seq<string>, reserved: set<string>)
    ensures TagsOf(names + more, reserved)[..|names|] == TagsOf(names, reserved)
  {
    if more == [] {
      assert names + more == names;
    } else {
      var rest := more[..|more| - 1];
      assert (names + more)[..|names + more| - 1] == names + rest;
      TagsPrefix(names, rest, reserved);
    }
  }

  // A node whose name already is a free tag gets it.
  lemma OwnTag(names: seq<string>, reserved: set<string>, i: nat)
    requires i < |names|
    ensures var base := if SanitizeTag(names[i]) != "" then SanitizeTag(names[i]) else "node-" + Itoa(i + 1);
            FirstFree(base, reserved + Members(TagsOf(names[..i], reserved)), TagsOf(names, reserved)[i])
  {
    hide SanitizeTag, Itoa, FirstFree;
    var head := names[..i + 1];
    TagsPrefix(head, names[i + 1..], reserved);
    assert head + names[i + 1..] == names && head[..i] == names[..i];
  }
}
