/** Normalization of objective evidence paths; "" stands for an invalid path (objective-paths.ts:6-21). */
module ObjectivePaths {
  import opened Strings

  /** White space and line terminators as removed by the source's trim. */
  predicate White(c: char) {
    || '\t' <= c <= '\r' || c == ' ' || c == '\U{A0}' || c == '\U{1680}' || '\U{2000}' <= c <= '\U{200A}'
    || c == '\U{2028}' || c == '\U{2029}' || c == '\U{202F}' || c == '\U{205F}' || c == '\U{3000}' || c == '\U{FEFF}'
  }

  function TrimStart(s: string): (r: string)
    ensures |r| <= |s| && (r != "" ==> !White(r[0])) && (|r| == |s| ==> r == s)
    ensures s != "" && !White(s[0]) ==> r == s
    ensures r != "" ==> r[|r| - 1] == s[|s| - 1]
  {
    if s != "" && White(s[0]) then TrimStart(s[1..]) else s
  }

  function TrimEnd(s: string): (r: string)
    ensures r <= s && (r != "" ==> !White(r[|r| - 1]))
    ensures s != "" && !White(s[|s| - 1]) ==> r == s
  {
    if s != "" && White(s[|s| - 1]) then TrimEnd(s[..|s| - 1]) else s
  }

  function Trim(s: string): string { TrimEnd(TrimStart(s)) }

  lemma TrimIdentity(s: string)
    ensures Trim(s) == s <==> s == "" || (!White(s[0]) && !White(s[|s| - 1]))
    ensures |Trim(s)| <= |s| && (|Trim(s)| == |s| ==> Trim(s) == s)
  {
  }

  function Slashes(s: string): (r: string)
    ensures |r| == |s| && '\\' !in r && ('\\' !in s ==> r == s)
  {
    seq(|s|, i requires 0 <= i < |s| => if s[i] == '\\' then '/' else s[i])
  }

  function Kept(parts: seq<string>): (r: seq<string>)
    ensures |r| <= |parts|
    ensures forall p :: p in r <==> p in parts && p != "" && p != "."
  {
    if parts == [] then []
    else if parts[0] == "" || parts[0] == "." then Kept(parts[1..])
    else [parts[0]] + Kept(parts[1..])
  }

  predicate Drive(s: string) {
    |s| >= 2 && s[1] == ':' && ('a' <= s[0] <= 'z' || 'A' <= s[0] <= 'Z')
  }

  function Normalize(value: string): string {
    var s := Trim(Slashes(value));
    if s == "" || '\0' in s || s[0] == '/' then ""
    else
      var parts := Split(s, '/');
      if ".." in parts then ""
      else
        var n := Join(Kept(parts), '/');
        if n == "" || Drive(n) then "" else n
  }

  /** A relative path that cannot leave its root: no backslash, no NUL, no drive, no empty, "." or ".." segment. */
  predicate IsNormal(r: string) {
    && r != "" && '\\' !in r && '\0' !in r && !Drive(r)
    && forall p :: p in Split(r, '/') ==> p != "" && p != "." && p != ".."
  }

  lemma {:induction false} JoinSplit(s: string, c: char)
    ensures Join(Split(s, c), c) == s
    decreases |s|
  {
    var e := CharFrom(s, c, 0);
    if e < |s| {
      JoinSplit(s[e + 1..], c);
      assert s == s[..e] + [c] + s[e + 1..];
    }
  }

  lemma {:induction false} PartsWithin(s: string, c: char, x: char)
    requires x !in s
    ensures forall p :: p in Split(s, c) ==> x !in p
    decreases |s|
  {
    var e := CharFrom(s, c, 0);
    if e < |s| {
      PartsWithin(s[e + 1..], c, x);
    }
  }

  lemma {:induction false} JoinWithin(parts: seq<string>, c: char, x: char)
    requires x != c && forall i :: 0 <= i < |parts| ==> x !in parts[i]
    ensures x !in Join(parts, c)
  {
    if |parts| > 1 {
      JoinWithin(parts[1..], c, x);
    }
  }

  lemma {:induction false} KeptShorter(parts: seq<string>)
    ensures |Join(Kept(parts), '/')| <= |Join(parts, '/')|
  {
    if parts != [] {
      KeptShorter(parts[1..]);
      var kept := Kept(parts[1..]);
      if |parts| == 1 {
        assert Kept(parts[1..]) == [];
      } else if parts[0] != "" && parts[0] != "." {
        assert Kept(parts)[1..] == kept;
      }
    }
  }

  lemma {:induction false} KeptAll(parts: seq<string>)
    requires forall p :: p in parts ==> p != "" && p != "."
    ensures Kept(parts) == parts
  {
    if parts != [] {
      assert parts[0] in parts;
      assert forall p :: p in parts[1..] ==> p in parts;
      KeptAll(parts[1..]);
    }
  }

  /** Normalization either rejects or yields a normal path, never longer than its input. */
  lemma {:induction false} NormalizeYieldsNormal(value: string)
    ensures Normalize(value) == "" || IsNormal(Normalize(value))
    ensures |Normalize(value)| <= |value|
  {
    var s := Trim(Slashes(value));
    var r := Normalize(value);
    if r != "" {
      var parts := Split(s, '/');
      var kept := Kept(parts);
      KeptShorter(parts);
      JoinSplit(s, '/');
      TrimIdentity(Slashes(value));
      assert kept != [];
      forall i | 0 <= i < |kept| ensures '/' !in kept[i] && '\\' !in kept[i] && '\0' !in kept[i] {
        assert kept[i] in kept;
        NoBackslashAfterTrim(Slashes(value));
        PartsWithin(s, '/', '\\');
        PartsWithin(s, '/', '\0');
        var j :| 0 <= j < |parts| && parts[j] == kept[i];
      }
      SplitJoin(kept, '/');
      JoinWithin(kept, '/', '\\');
      JoinWithin(kept, '/', '\0');
    }
  }

  lemma {:induction false} TrimStartWithin(s: string)
    ensures forall c :: c in TrimStart(s) ==> c in s
  {
    if s != "" && White(s[0]) {
      TrimStartWithin(s[1..]);
      assert forall c :: c in s[1..] ==> c in s;
    }
  }

  lemma NoBackslashAfterTrim(s: string)
    requires '\\' !in s
    ensures '\\' !in Trim(s)
  {
    TrimStartWithin(s);
    var t := TrimStart(s);
    assert forall c :: c in TrimEnd(t) ==> c in t;
  }

  lemma LeadingSlash(r: string)
    ensures r != "" && r[0] == '/' ==> "" in Split(r, '/')
  {
    if r != "" && r[0] == '/' {
      assert CharFrom(r, '/', 0) == 0;
      assert Split(r, '/')[0] == "";
    }
  }

  lemma {:induction false} NormalIsKept(r: string)
    requires IsNormal(r)
    ensures Normalize(r) == r <==> Trim(r) == r
  {
    var s := Trim(Slashes(r));
    assert Slashes(r) == r;
    TrimIdentity(r);
    if s == r {
      var parts := Split(r, '/');
      LeadingSlash(r);
      KeptAll(parts);
      JoinSplit(r, '/');
    } else {
      KeptShorter(Split(s, '/'));
      JoinSplit(s, '/');
    }
  }

  // ---- Normalizing twice ----

  /** The segments of a path that normalization keeps. */
  function Segments(value: string): seq<string> { Kept(Split(Trim(Slashes(value)), '/')) }

  /** The paths that are not accepted: empty ones, absolute ones, those with a NUL, a ".." segment or
      no segment to keep, and those whose first kept segment begins with a drive letter. */
  predicate Rejected(value: string) {
    var s := Trim(Slashes(value));
    || s == "" || '\0' in s || s[0] == '/' || ".." in Split(s, '/')
    || Segments(value) == [] || Drive(Segments(value)[0])
  }

  /** The path is rejected, or its first kept segment does not begin and its last kept segment does
      not end in white space. */
  predicate CleanEdges(value: string) {
    Rejected(value) || CleanOuter(Segments(value))
  }

  predicate CleanOuter(parts: seq<string>) {
    && parts != [] && parts[0] != "" && parts[|parts| - 1] != ""
    && !White(parts[0][0]) && !White(parts[|parts| - 1][|parts[|parts| - 1]| - 1])
  }

  lemma {:induction false} JoinEnds(parts: seq<string>)
    requires parts != [] && forall i :: 0 <= i < |parts| ==> parts[i] != "" && '/' !in parts[i]
    ensures var r, last := Join(parts, '/'), parts[|parts| - 1];
      r != "" && r[0] == parts[0][0] && r[|r| - 1] == last[|last| - 1] && (Drive(r) <==> Drive(parts[0]))
  {
    if |parts| > 1 {
      JoinEnds(parts[1..]);
      var tail := Join(parts[1..], '/');
      var r := Join(parts, '/');
      assert r[|r| - 1] == tail[|tail| - 1];
      assert |parts[0]| == 1 ==> r[1] == '/';
    }
  }

  lemma {:induction false} SegmentFacts(value: string)
    ensures forall i :: 0 <= i < |Segments(value)| ==> Segments(value)[i] != "" && '/' !in Segments(value)[i]
  {
    var parts := Split(Trim(Slashes(value)), '/');
    forall i | 0 <= i < |Segments(value)| ensures Segments(value)[i] != "" && '/' !in Segments(value)[i] {
      assert Segments(value)[i] in Segments(value);
      var j :| 0 <= j < |parts| && parts[j] == Segments(value)[i];
    }
  }

  lemma {:induction false} RejectedIff(value: string)
    ensures Normalize(value) == "" <==> Rejected(value)
    ensures !Rejected(value) ==> Normalize(value) == Join(Segments(value), '/') && Segments(value) != []
  {
    SegmentFacts(value);
    if Segments(value) != [] {
      JoinEnds(Segments(value));
    }
  }

  lemma {:induction false} EmptyStaysEmpty()
    ensures Normalize("") == ""
  {
    assert Slashes("") == "";
  }

  lemma {:induction false} NormalFormEnds(value: string)
    requires !Rejected(value)
    ensures Normalize(value) != "" && IsNormal(Normalize(value))
    ensures var r := Normalize(value); CleanOuter(Segments(value)) <==> !White(r[0]) && !White(r[|r| - 1])
  {
    NormalizeYieldsNormal(value);
    RejectedIff(value);
    SegmentFacts(value);
    JoinEnds(Segments(value));
  }

  lemma {:induction false} NormalIsFixedIff(r: string)
    requires IsNormal(r)
    ensures Normalize(r) == r <==> !White(r[0]) && !White(r[|r| - 1])
  {
    NormalIsKept(r);
    TrimIdentity(r);
  }

  /** Normalizing twice is normalizing once exactly for paths that are rejected or whose first kept
      segment does not begin and whose last kept segment does not end in white space. */
  lemma {:induction false} IdempotentIff(value: string)
    ensures Normalize(Normalize(value)) == Normalize(value) <==> CleanEdges(value)
  {
    if Rejected(value) {
      RejectedIff(value);
      EmptyStaysEmpty();
    } else {
      NormalFormEnds(value);
      NormalIsFixedIff(Normalize(value));
    }
  }

  /** It is enough that no segment of the path begins or ends in white space. */
  lemma BlankFreeSegments(value: string)
    requires forall p :: p in Split(Trim(Slashes(value)), '/') && p != "" ==> !White(p[0]) && !White(p[|p| - 1])
    ensures Normalize(Normalize(value)) == Normalize(value)
  {
    var parts := Segments(value);
    if parts != [] {
      assert parts[0] in parts && parts[|parts| - 1] in parts;
    }
    IdempotentIff(value);
  }

  /** "./ a" keeps its inner blank the first time and loses it the second time. */
  lemma EdgeBlankExample()
    ensures Normalize("./ a") == " a" && Normalize(" a") == "a"
  {
    FirstNormalization();
    SecondNormalization();
  }

  lemma DotSegment()
    ensures Split("./ a", '/') == [".", " a"]
  {
    var s := "./ a";
    NoSlash(" a");
    assert CharFrom(s, '/', 0) == 1;
    assert s[..1] == "." && s[2..] == " a";
    assert Split(s, '/') == ["."] + [" a"];
  }

  lemma DotIsDropped()
    ensures Kept([".", " a"]) == [" a"]
  {
    KeptOne(" a");
    assert [".", " a"][1..] == [" a"];
  }

  lemma DotAndLetterAreNotWhite()
    ensures !White('.') && !White('a')
  {
  }

  lemma NothingToTrim()
    ensures Trim(Slashes("./ a")) == "./ a"
  {
    var s := "./ a";
    assert '\\' !in s;
    assert Slashes(s) == s;
    assert s[0] == '.' && s[3] == 'a';
    DotAndLetterAreNotWhite();
    TrimIdentity(s);
  }

  lemma FirstNormalization()
    ensures Normalize("./ a") == " a"
  {
    NothingToTrim();
    DotSegment();
    DotIsDropped();
    assert Join([" a"], '/') == " a";
  }

  lemma SecondNormalization()
    ensures Normalize(" a") == "a"
  {
    var s := " a";
    assert s[1..] == "a";
    assert TrimStart(s) == "a" && Trim(Slashes(s)) == "a";
    NoSlash("a");
    KeptOne("a");
  }

  lemma KeptOne(p: string)
    requires p != "" && p != "."
    ensures Kept([p]) == [p]
  {
    assert [p][1..] == [];
  }

  lemma NoSlash(s: string)
    requires '/' !in s
    ensures Split(s, '/') == [s]
  {
    assert CharFrom(s, '/', 0) == |s|;
  }
}
