/** A directory tree and its enumeration in the order the manifest walks it
    (filesystem-manifest.ts:7-22, 100-138). */
module FileTree {
  import opened Strings

  const MAX_DEPTH: nat := 5

  /** One entry of a directory; the entries of a directory are in the order the walk sorts them. */
  datatype Entry =
    | Directory(name: string, entries: seq<Entry>)
    | File(name: string)
    | Symlink(name: string)
    | Special(name: string)

  const IGNORED_DIRECTORIES: set<string> :=
    {".git", ".cache", ".turbo", ".vite", "node_modules", "dist", "build", "coverage", "benchmark-results"}

  predicate Entered(e: Entry) { e.Directory? && e.name !in IGNORED_DIRECTORIES }

  /** A name an entry of a directory can have: not the directory itself nor its parent. */
  predicate EntryName(name: string) { name != "" && '/' !in name && name != "." && name != ".." }

  /** What a file system guarantees of the names in a directory. */
  predicate WellNamed(entries: seq<Entry>)
    decreases entries
  {
    && (forall i :: 0 <= i < |entries| ==> EntryName(entries[i].name))
    && (forall i, j :: 0 <= i < j < |entries| ==> entries[i].name != entries[j].name)
    && (forall i :: 0 <= i < |entries| && entries[i].Directory? ==> WellNamed(entries[i].entries))
  }

  /** Something the walk lists, by the names that lead to it from the root. */
  datatype Found = FoundDirectory(names: seq<string>) | FoundFile(names: seq<string>)

  // ---- Depth-first enumeration ----

  function Visit(entries: seq<Entry>, dir: seq<string>, depth: nat): seq<Found>
    decreases entries
  {
    if entries == [] || depth > MAX_DEPTH then []
    else
      Visit(entries[..|entries| - 1], dir, depth) + VisitEntry(entries[|entries| - 1], dir, depth)
  }

  function VisitEntry(e: Entry, dir: seq<string>, depth: nat): seq<Found>
    decreases e
  {
    if Entered(e) then [FoundDirectory(dir + [e.name])] + Visit(e.entries, dir + [e.name], depth + 1)
    else if e.File? then [FoundFile(dir + [e.name])]
    else []
  }

  lemma VisitSnoc(entries: seq<Entry>, i: nat, dir: seq<string>, depth: nat)
    requires i < |entries| && depth <= MAX_DEPTH
    ensures Visit(entries[..i + 1], dir, depth) == Visit(entries[..i], dir, depth) + VisitEntry(entries[i], dir, depth)
  {
    assert entries[..i + 1][..i] == entries[..i];
  }

  lemma {:induction false} VisitMember(entries: seq<Entry>, dir: seq<string>, depth: nat, f: Found)
    requires depth <= MAX_DEPTH
    ensures f in Visit(entries, dir, depth) <==> exists i :: 0 <= i < |entries| && f in VisitEntry(entries[i], dir, depth)
    decreases |entries|
  {
    if entries != [] {
      VisitMember(entries[..|entries| - 1], dir, depth, f);
    }
  }

  // ---- Reachability, stated without the enumeration ----

  /** The names lead from a directory, through directories that are not ignored, to a file or to
      such a directory. */
  predicate LeadsTo(entries: seq<Entry>, names: seq<string>, toFile: bool)
    decreases entries
  {
    names != [] && exists i :: 0 <= i < |entries| && LeadsThrough(entries[i], names, toFile)
  }

  predicate LeadsThrough(e: Entry, names: seq<string>, toFile: bool)
    requires names != []
    decreases e
  {
    && e.name == names[0]
    && if |names| == 1 then (if toFile then e.File? else Entered(e)) else Entered(e) && LeadsTo(e.entries, names[1..], toFile)
  }

  function FoundAs(names: seq<string>, toFile: bool): Found {
    if toFile then FoundFile(names) else FoundDirectory(names)
  }

  lemma {:induction false} VisitExtends(entries: seq<Entry>, dir: seq<string>, depth: nat, f: Found)
    requires f in Visit(entries, dir, depth)
    ensures |f.names| > |dir| && f.names[..|dir|] == dir
    decreases entries
  {
    VisitMember(entries, dir, depth, f);
    var i :| 0 <= i < |entries| && f in VisitEntry(entries[i], dir, depth);
    VisitEntryExtends(entries[i], dir, depth, f);
  }

  lemma {:induction false} VisitEntryExtends(e: Entry, dir: seq<string>, depth: nat, f: Found)
    requires f in VisitEntry(e, dir, depth)
    ensures |f.names| > |dir| && f.names[..|dir| + 1] == dir + [e.name] && f.names[..|dir|] == dir
    decreases e
  {
    if Entered(e) && f != FoundDirectory(dir + [e.name]) {
      VisitExtends(e.entries, dir + [e.name], depth + 1, f);
      assert f.names[..|dir| + 1][..|dir|] == f.names[..|dir|];
    }
  }

  /** An entry is listed exactly when names of at most the remaining depth lead to it. */
  lemma {:induction false} ListedIffReachable(entries: seq<Entry>, dir: seq<string>, depth: nat, names: seq<string>, toFile: bool)
    ensures FoundAs(dir + names, toFile) in Visit(entries, dir, depth) <==>
            LeadsTo(entries, names, toFile) && depth + |names| <= MAX_DEPTH + 1
    decreases entries, 1
  {
    var f := FoundAs(dir + names, toFile);
    if names == [] {
      if f in Visit(entries, dir, depth) {
        VisitExtends(entries, dir, depth, f);
      }
    } else if depth <= MAX_DEPTH {
      VisitMember(entries, dir, depth, f);
      forall i | 0 <= i < |entries|
        ensures f in VisitEntry(entries[i], dir, depth) <==>
                LeadsThrough(entries[i], names, toFile) && depth + |names| <= MAX_DEPTH + 1
      {
        EntryListedIffReachable(entries[i], dir, depth, names, toFile);
      }
    }
  }

  lemma SameLast(dir: seq<string>, a: string, b: string)
    requires dir + [a] == dir + [b]
    ensures a == b
  {
    assert (dir + [a])[|dir|] == (dir + [b])[|dir|];
  }

  lemma {:induction false} EntryListedIffReachable(e: Entry, dir: seq<string>, depth: nat, names: seq<string>, toFile: bool)
    requires names != [] && depth <= MAX_DEPTH
    ensures FoundAs(dir + names, toFile) in VisitEntry(e, dir, depth) <==>
            LeadsThrough(e, names, toFile) && depth + |names| <= MAX_DEPTH + 1
    decreases e, 0
  {
    var f := FoundAs(dir + names, toFile);
    assert (dir + names)[..|dir| + 1] == dir + [names[0]];
    if f in VisitEntry(e, dir, depth) {
      VisitEntryExtends(e, dir, depth, f);
      SameLast(dir, e.name, names[0]);
    }
    if e.name == names[0] {
      assert dir + names == dir + [e.name] + names[1..];
      assert |names| == 1 ==> names == [e.name];
      assert |names| > 1 ==> |dir + names| != |dir + [e.name]|;
      if Entered(e) {
        ListedIffReachable(e.entries, dir + [e.name], depth + 1, names[1..], toFile);
      }
    }
  }

  // ---- Nothing is listed twice ----

  ghost predicate NoRepeats(found: seq<Found>) { forall i, j :: 0 <= i < j < |found| ==> found[i].names != found[j].names }

  lemma NoRepeatsAppend(a: seq<Found>, b: seq<Found>)
    requires NoRepeats(a) && NoRepeats(b) && forall f, g :: f in a && g in b ==> f.names != g.names
    ensures NoRepeats(a + b)
  {
    var all := a + b;
    forall i, j | 0 <= i < j < |all| ensures all[i].names != all[j].names {
      if i < |a| && j >= |a| {
        assert all[i] in a && all[j] in b;
      }
    }
  }

  lemma {:induction false} VisitNoRepeats(entries: seq<Entry>, dir: seq<string>, depth: nat)
    requires WellNamed(entries)
    ensures NoRepeats(Visit(entries, dir, depth))
    decreases entries, 1
  {
    if entries != [] && depth <= MAX_DEPTH {
      var rest, e := entries[..|entries| - 1], entries[|entries| - 1];
      VisitNoRepeats(rest, dir, depth);
      EntryNoRepeats(e, dir, depth);
      forall f, g | f in Visit(rest, dir, depth) && g in VisitEntry(e, dir, depth) ensures f.names != g.names {
        VisitMember(rest, dir, depth, f);
        var i :| 0 <= i < |rest| && f in VisitEntry(rest[i], dir, depth);
        VisitEntryExtends(rest[i], dir, depth, f);
        VisitEntryExtends(e, dir, depth, g);
        assert (dir + [rest[i].name])[|dir|] != (dir + [e.name])[|dir|];
      }
      NoRepeatsAppend(Visit(rest, dir, depth), VisitEntry(e, dir, depth));
    }
  }

  lemma {:induction false} EntryNoRepeats(e: Entry, dir: seq<string>, depth: nat)
    requires e.Directory? ==> WellNamed(e.entries)
    ensures NoRepeats(VisitEntry(e, dir, depth))
    decreases e, 0
  {
    if Entered(e) {
      var own, inner := dir + [e.name], Visit(e.entries, dir + [e.name], depth + 1);
      VisitNoRepeats(e.entries, own, depth + 1);
      forall g | g in inner ensures g.names != own {
        VisitExtends(e.entries, own, depth + 1, g);
      }
      NoRepeatsAppend([FoundDirectory(own)], inner);
    }
  }

  // ---- Relative paths ----

  function Relative(names: seq<string>): string { Join(names, '/') }

  predicate AreNames(names: seq<string>) { forall i :: 0 <= i < |names| ==> names[i] != "" && '/' !in names[i] }

  lemma {:induction false} RelativeSnoc(names: seq<string>, name: string)
    requires AreNames(names)
    ensures Relative(names + [name]) == if Relative(names) == "" then name else Relative(names) + "/" + name
    ensures Relative(names) == "" <==> names == []
  {
    var all := names + [name];
    if names != [] {
      RelativeSnoc(names[1..], name);
      assert all[1..] == names[1..] + [name];
      if |names| == 1 {
        assert names[1..] == [];
      }
    }
  }

  lemma RelativeDistinguishes(a: seq<string>, b: seq<string>)
    requires AreNames(a) && AreNames(b) && Relative(a) == Relative(b)
    ensures a == b
  {
    if a != [] && b != [] {
      SplitJoin(a, '/');
      SplitJoin(b, '/');
    } else {
      RelativeSnoc(a, "");
      RelativeSnoc(b, "");
    }
  }

  lemma {:induction false} LeadsToNames(entries: seq<Entry>, names: seq<string>, toFile: bool)
    requires WellNamed(entries) && LeadsTo(entries, names, toFile)
    ensures AreNames(names)
    decreases names
  {
    var i :| 0 <= i < |entries| && LeadsThrough(entries[i], names, toFile);
    if |names| > 1 {
      LeadsToNames(entries[i].entries, names[1..], toFile);
      assert forall k :: 0 < k < |names| ==> names[k] == names[1..][k - 1];
    }
  }
}
