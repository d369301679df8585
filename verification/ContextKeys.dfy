/** The keys of the context cache (context-cache-manager.ts:59-68, 93-99). */
module ContextKeys {
  import opened Strings

  // ---- Sorting section names ----

  /** Strictly before, in the order of the code units. */
  predicate Before(a: string, b: string)
    decreases |a|
  {
    b != "" && (a == "" || (if a[0] != b[0] then a[0] < b[0] else Before(a[1..], b[1..])))
  }

  lemma {:induction false} BeforeIsTotal(a: string, b: string)
    ensures a == b || Before(a, b) || Before(b, a)
    ensures !(Before(a, b) && Before(b, a)) && !Before(a, a)
    decreases |a|
  {
    if a != "" {
      BeforeIsTotal(a[1..], a[1..]);
    }
    if a != "" && b != "" && a[0] == b[0] {
      BeforeIsTotal(a[1..], b[1..]);
      assert a[1..] == b[1..] ==> a == [a[0]] + a[1..] == b;
    }
  }

  lemma {:induction false} BeforeIsTransitive(a: string, b: string, c: string)
    requires Before(a, b) && Before(b, c)
    ensures Before(a, c)
    decreases |a|
  {
    if a != "" && a[0] == b[0] == c[0] {
      BeforeIsTransitive(a[1..], b[1..], c[1..]);
    }
  }

  function Insert(x: string, s: seq<string>): seq<string> {
    if s == [] then [x] else if Before(x, s[0]) then [x] + s else [s[0]] + Insert(x, s[1..])
  }

  function Sort(xs: seq<string>): seq<string> {
    if xs == [] then [] else Insert(xs[|xs| - 1], Sort(xs[..|xs| - 1]))
  }

  ghost predicate Ascending(s: seq<string>) { forall i, j :: 0 <= i < j < |s| ==> Before(s[i], s[j]) }

  lemma {:induction false} InsertFacts(x: string, s: seq<string>)
    requires Ascending(s) && x !in s
    ensures Ascending(Insert(x, s)) && Elements(Insert(x, s)) == Elements(s) + {x}
  {
    var r := Insert(x, s);
    if s == [] {
    } else if Before(x, s[0]) {
      assert s == [s[0]] + s[1..];
      forall i, j | 0 <= i < j < |r| ensures Before(r[i], r[j]) {
        if i == 0 && j > 1 {
          BeforeIsTransitive(x, s[0], s[j - 1]);
        }
      }
    } else {
      var rest := s[1..];
      InsertFacts(x, rest);
      BeforeIsTotal(x, s[0]);
      forall y | y in Insert(x, rest) ensures Before(s[0], y) {
        assert y in Elements(rest) + {x};
      }
      assert s == [s[0]] + rest;
      forall i, j | 0 <= i < j < |r| ensures Before(r[i], r[j]) {
        if i == 0 {
          assert r[j] == Insert(x, rest)[j - 1];
        }
      }
      assert Elements(r) == {s[0]} + Elements(Insert(x, rest));
    }
  }

  lemma {:induction false} SortFacts(xs: seq<string>)
    requires forall i, j :: 0 <= i < j < |xs| ==> xs[i] != xs[j]
    ensures Ascending(Sort(xs)) && Elements(Sort(xs)) == Elements(xs)
  {
    if xs != [] {
      var init, x := xs[..|xs| - 1], xs[|xs| - 1];
      SortFacts(init);
      assert xs == init + [x];
      assert x !in Elements(init);
      InsertFacts(x, Sort(init));
    }
  }

  lemma AscendingTail(a: seq<string>, b: seq<string>)
    requires Ascending(a) && Ascending(b) && a != [] && b != [] && a[0] == b[0] && Elements(a) == Elements(b)
    ensures forall x :: x in a[1..] ==> x in b[1..]
  {
    forall x | x in a[1..] ensures x in b[1..] {
      var i :| 0 < i < |a| && a[i] == x;
      assert x in Elements(b);
      BeforeIsTotal(a[0], x);
      assert b == [b[0]] + b[1..];
    }
  }

  lemma HeadIsElement(s: seq<string>)
    ensures s != [] ==> s[0] in Elements(s)
  {
  }

  /** There is one ascending listing of a set. */
  lemma {:induction false} AscendingIsUnique(a: seq<string>, b: seq<string>)
    requires Ascending(a) && Ascending(b) && Elements(a) == Elements(b)
    ensures a == b
    decreases |a|
  {
    if a == [] {
      HeadIsElement(b);
    } else {
      assert a[0] in Elements(b);
      var k :| 0 <= k < |b| && b[k] == a[0];
      assert b[0] in Elements(a);
      var l :| 0 <= l < |a| && a[l] == b[0];
      BeforeIsTotal(a[0], b[0]);
      AscendingTail(a, b);
      AscendingTail(b, a);
      assert Elements(a[1..]) == Elements(b[1..]);
      AscendingIsUnique(a[1..], b[1..]);
      assert a == [a[0]] + a[1..] && b == [b[0]] + b[1..];
    }
  }

  // ---- Keys ----

  /** A plan hash or a source root that is absent is "". */
  function Suffix(planHash: string, sourceRoot: string): string {
    (if sourceRoot != "" then "::root:" + sourceRoot else "") + (if planHash != "" then "::plan:" + planHash else "")
  }

  function BuildContextCacheKey(projectId: string, sections: seq<string>, planHash: string, sourceRoot: string): string {
    projectId + "::" + Join(Sort(Distinct(sections)), ',') + Suffix(planHash, sourceRoot)
  }

  /** The key is the same for every listing of the same sections. */
  lemma KeyDependsOnSetOfSections(p: string, a: seq<string>, b: seq<string>, plan: string, root: string)
    requires Elements(a) == Elements(b)
    ensures BuildContextCacheKey(p, a, plan, root) == BuildContextCacheKey(p, b, plan, root)
  {
    SortedSections(a);
    SortedSections(b);
    AscendingIsUnique(Sort(Distinct(a)), Sort(Distinct(b)));
  }

  lemma SortedSections(sections: seq<string>)
    ensures Ascending(Sort(Distinct(sections))) && Elements(Sort(Distinct(sections))) == Elements(sections)
  {
    DistinctFacts(sections);
    SortFacts(Distinct(sections));
    assert Elements(Distinct(sections)) == Elements(sections);
  }

  // ---- Reading a key back ----

  lemma ColonAt(a: string, x: string)
    requires ':' !in a && (x == "" || x[0] == ':')
    ensures CharFrom(a + x, ':', 0) == |a|
  {
    var all := a + x;
    forall k | 0 <= k < |a| ensures all[k] != ':' {
      assert all[k] == a[k] && a[k] in a;
    }
    assert x != "" ==> all[|a|] == ':';
  }

  /** Texts without a colon, each followed by nothing or by a colon, are told apart. */
  lemma ColonSplits(a: string, x: string, b: string, y: string)
    requires ':' !in a && ':' !in b && (x == "" || x[0] == ':') && (y == "" || y[0] == ':')
    requires a + x == b + y
    ensures a == b && x == y
  {
    ColonAt(a, x);
    ColonAt(b, y);
    assert (a + x)[..|a|] == a && (b + y)[..|b|] == b;
    assert (a + x)[|a|..] == x && (b + y)[|b|..] == y;
  }

  predicate PlainSections(sections: seq<string>) {
    forall i :: 0 <= i < |sections| ==> sections[i] != "" && ',' !in sections[i] && ':' !in sections[i]
  }

  lemma {:induction false} JoinHasNoColon(parts: seq<string>)
    requires forall i :: 0 <= i < |parts| ==> ':' !in parts[i]
    ensures ':' !in Join(parts, ',')
  {
    if |parts| > 1 {
      JoinHasNoColon(parts[1..]);
    }
  }

  lemma PlainSorted(sections: seq<string>)
    requires PlainSections(sections)
    ensures PlainSections(Sort(Distinct(sections))) && ':' !in Join(Sort(Distinct(sections)), ',')
  {
    var sorted := Sort(Distinct(sections));
    SortedSections(sections);
    forall i | 0 <= i < |sorted| ensures sorted[i] in sections {
      assert sorted[i] in Elements(sorted);
    }
    JoinHasNoColon(sorted);
  }

  lemma {:induction false} JoinEmpty(parts: seq<string>, c: char)
    requires forall i :: 0 <= i < |parts| ==> parts[i] != ""
    ensures Join(parts, c) == "" <==> parts == []
  {
  }

  lemma JoinIsInjective(a: seq<string>, b: seq<string>)
    requires PlainSections(a) && PlainSections(b) && Join(a, ',') == Join(b, ',')
    ensures a == b
  {
    JoinEmpty(a, ',');
    JoinEmpty(b, ',');
    if a != [] && b != [] {
      SplitJoin(a, ',');
      SplitJoin(b, ',');
    }
  }

  lemma SuffixIsInjective(plan1: string, root1: string, plan2: string, root2: string)
    requires ':' !in root1 && ':' !in root2 && Suffix(plan1, root1) == Suffix(plan2, root2)
    ensures plan1 == plan2 && root1 == root2
  {
    var s1, s2 := Suffix(plan1, root1), Suffix(plan2, root2);
    assert root1 != "" ==> s1[2] == 'r';
    assert root2 != "" ==> s2[2] == 'r';
    assert root1 == "" && plan1 != "" ==> s1[2] == 'p';
    assert root2 == "" && plan2 != "" ==> s2[2] == 'p';
    assert (root1 != "") == (root2 != "");
    var tail1 := if plan1 != "" then "::plan:" + plan1 else "";
    var tail2 := if plan2 != "" then "::plan:" + plan2 else "";
    if root1 != "" {
      assert s1[7..] == root1 + tail1 && s2[7..] == root2 + tail2;
      ColonSplits(root1, tail1, root2, tail2);
    } else {
      assert s1 == tail1 && s2 == tail2;
    }
    assert plan1 != "" ==> tail1[7..] == plan1;
    assert plan2 != "" ==> tail2[7..] == plan2;
  }

  /** Two requests share a key only when they ask for the same sections of the same project under
      the same plan and root: the cache never answers one with the context of the other. */
  lemma KeyDeterminesRequest(p1: string, a1: seq<string>, plan1: string, root1: string,
                             p2: string, a2: seq<string>, plan2: string, root2: string)
    requires ':' !in p1 && ':' !in p2 && PlainSections(a1) && PlainSections(a2) && ':' !in root1 && ':' !in root2
    requires BuildContextCacheKey(p1, a1, plan1, root1) == BuildContextCacheKey(p2, a2, plan2, root2)
    ensures p1 == p2 && Elements(a1) == Elements(a2) && plan1 == plan2 && root1 == root2
  {
    PlainSorted(a1);
    PlainSorted(a2);
    KeyParts(p1, Join(Sort(Distinct(a1)), ','), Suffix(plan1, root1), p2, Join(Sort(Distinct(a2)), ','), Suffix(plan2, root2));
    JoinIsInjective(Sort(Distinct(a1)), Sort(Distinct(a2)));
    SortedSections(a1);
    SortedSections(a2);
    SuffixIsInjective(plan1, root1, plan2, root2);
  }

  lemma KeyParts(p1: string, j1: string, t1: string, p2: string, j2: string, t2: string)
    requires ':' !in p1 && ':' !in p2 && ':' !in j1 && ':' !in j2
    requires (t1 == "" || t1[0] == ':') && (t2 == "" || t2[0] == ':')
    requires p1 + "::" + j1 + t1 == p2 + "::" + j2 + t2
    ensures p1 == p2 && j1 == j2 && t1 == t2
  {
    var x1, x2 := "::" + j1 + t1, "::" + j2 + t2;
    assert p1 + x1 == p1 + "::" + j1 + t1 && p2 + x2 == p2 + "::" + j2 + t2;
    ColonSplits(p1, x1, p2, x2);
    assert j1 + t1 == x1[2..] && j2 + t2 == x2[2..];
    ColonSplits(j1, t1, j2, t2);
  }

  // ---- Which keys an invalidation hits ----

  predicate StartsWith(s: string, prefix: string) { prefix <= s }

  predicate HitByProject(key: string, projectId: string) { StartsWith(key, projectId + "::") }

  /** The text up to the first "::", or all of it. */
  function FirstSegment(s: string): string
    decreases |s|
  {
    if s == "" || HasAt(s, 0, "::") then "" else [s[0]] + FirstSegment(s[1..])
  }

  predicate HitBySections(key: string, projectId: string, targets: seq<string>) {
    && HitByProject(key, projectId)
    && var named := Split(FirstSegment(key[|projectId| + 2..]), ',');
       exists i :: 0 <= i < |targets| && targets[i] in named
  }

  lemma {:induction false} FirstSegmentStops(a: string, x: string)
    requires ':' !in a && (x == "" || HasAt(x, 0, "::"))
    ensures FirstSegment(a + x) == a
  {
    if a == "" {
      assert a + x == x;
    } else {
      assert (a + x)[1..] == a[1..] + x;
      FirstSegmentStops(a[1..], x);
      assert (a + x)[0] == a[0] && a[0] in a;
    }
  }

  /** A project invalidation hits exactly the keys of that project. */
  lemma {:induction false} ProjectHitsItsKeys(p: string, q: string, sections: seq<string>, plan: string, root: string)
    requires ':' !in p && ':' !in q
    ensures HitByProject(BuildContextCacheKey(q, sections, plan, root), p) <==> p == q
  {
    var rest := Join(Sort(Distinct(sections)), ',') + Suffix(plan, root);
    var key := BuildContextCacheKey(q, sections, plan, root);
    assert key == q + ("::" + rest);
    PrefixOfProject(key, p, q, rest);
  }

  lemma {:induction false} PrefixOfProject(key: string, p: string, q: string, rest: string)
    requires ':' !in p && ':' !in q && key == q + ("::" + rest)
    ensures HitByProject(key, p) <==> p == q
  {
    if p == q {
      assert key[..|p| + 2] == p + "::";
    }
    if HitByProject(key, p) {
      var after := key[|p| + 2..];
      assert key == p + ("::" + after);
      ColonSplits(p, "::" + after, q, "::" + rest);
    }
  }

  /** A slice invalidation hits exactly the keys of that project that name one of its sections. */
  lemma SliceHitsItsSections(p: string, q: string, sections: seq<string>, plan: string, root: string, targets: seq<string>)
    requires ':' !in p && ':' !in q && PlainSections(sections) && PlainSections(targets)
    ensures HitBySections(BuildContextCacheKey(q, sections, plan, root), p, targets) <==>
      p == q && exists i :: 0 <= i < |targets| && targets[i] in sections
  {
    var key, sorted := BuildContextCacheKey(q, sections, plan, root), Sort(Distinct(sections));
    ProjectHitsItsKeys(p, q, sections, plan, root);
    if p == q {
      var joined, suffix := Join(sorted, ','), Suffix(plan, root);
      assert key[|p| + 2..] == joined + suffix;
      PlainSorted(sections);
      FirstSegmentStops(joined, suffix);
      NamedSections(sections);
      forall i | 0 <= i < |targets| ensures targets[i] in Split(joined, ',') <==> targets[i] in sections {}
    }
  }

  lemma NamedSections(sections: seq<string>)
    requires PlainSections(sections)
    ensures forall t :: t != "" ==> (t in Split(Join(Sort(Distinct(sections)), ','), ',') <==> t in sections)
  {
    var sorted := Sort(Distinct(sections));
    PlainSorted(sections);
    SortedSections(sections);
    forall t: string ensures t in sorted <==> t in sections {
      assert t in sorted <==> t in Elements(sorted);
      assert t in sections <==> t in Elements(sections);
    }
    if sorted == [] {
      assert Split("", ',') == [""];
    } else {
      SplitJoin(sorted, ',');
    }
  }
}
