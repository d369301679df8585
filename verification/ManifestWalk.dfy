/** The bounded inventory of a project directory (filesystem-manifest.ts:100-138). */
module ManifestWalk {
  import opened FileTree

  const MAX_FILES: nat := 240
  const MAX_DIRECTORIES: nat := 120

  datatype Inventory = Inventory(files: seq<string>, directories: seq<string>, truncated: bool)

  // ---- Specification: the enumeration, cut at the first entry that does not fit ----

  function Listed(s: Inventory, f: Found): Inventory {
    if s.truncated then s
    else match f
      case FoundDirectory(names) =>
        if |s.directories| >= MAX_DIRECTORIES then s.(truncated := true)
        else s.(directories := s.directories + [Relative(names)])
      case FoundFile(names) =>
        if |s.files| >= MAX_FILES then s.(truncated := true)
        else s.(files := s.files + [Relative(names)])
  }

  function ListedAll(s: Inventory, found: seq<Found>): Inventory {
    if found == [] then s else Listed(ListedAll(s, found[..|found| - 1]), found[|found| - 1])
  }

  lemma {:induction false} ListedAppend(s: Inventory, a: seq<Found>, b: seq<Found>)
    ensures ListedAll(s, a + b) == ListedAll(ListedAll(s, a), b)
  {
    if b == [] {
      assert a + b == a;
    } else {
      var rest := b[..|b| - 1];
      ListedAppend(s, a, rest);
      assert (a + b)[..|a + b| - 1] == a + rest;
    }
  }

  lemma {:induction false} ListedTruncated(s: Inventory, found: seq<Found>)
    requires s.truncated
    ensures ListedAll(s, found) == s
  {
    if found != [] {
      ListedTruncated(s, found[..|found| - 1]);
    }
  }

  // ---- The walk ----

  class Walker {
    var files: seq<string>
    var directories: seq<string>
    var truncated: bool

    constructor ()
      ensures View() == Inventory([], [], false)
    {
      files, directories, truncated := [], [], false;
    }

    ghost function View(): Inventory
      reads this
    {
      Inventory(files, directories, truncated)
    }

    method Walk(entries: seq<Entry>, relative: string, depth: nat, ghost dir: seq<string>)
      requires WellNamed(entries) && AreNames(dir) && relative == Relative(dir)
      modifies this
      ensures View() == ListedAll(old(View()), Visit(entries, dir, depth))
      decreases entries, 1
    {
      if depth > MAX_DEPTH || truncated {
        ListedTruncated(View().(truncated := true), Visit(entries, dir, depth));
        return;
      }
      for i := 0 to |entries|
        invariant View() == ListedAll(old(View()), Visit(entries[..i], dir, depth))
      {
        ListedAppend(old(View()), Visit(entries[..i], dir, depth), VisitEntry(entries[i], dir, depth));
        VisitSnoc(entries, i, dir, depth);
        if truncated {
          ListedRest(old(View()), entries, i, dir, depth);
          return;
        }
        WalkEntry(entries[i], relative, depth, dir);
      }
      assert entries[..|entries|] == entries;
    }

    method WalkEntry(entry: Entry, relative: string, depth: nat, ghost dir: seq<string>)
      requires EntryName(entry.name) && (entry.Directory? ==> WellNamed(entry.entries))
      requires AreNames(dir) && relative == Relative(dir) && !truncated
      modifies this
      ensures View() == ListedAll(old(View()), VisitEntry(entry, dir, depth))
      decreases entry, 0
    {
      if entry.Symlink? || (entry.Directory? && entry.name in IGNORED_DIRECTORIES) {
        return;
      }
      var path := if relative != "" then relative + "/" + entry.name else entry.name;
      RelativeSnoc(dir, entry.name);
      ghost var own := dir + [entry.name];
      if entry.Directory? {
        ListedAppend(View(), [FoundDirectory(own)], Visit(entry.entries, own, depth + 1));
        ListedOne(View(), FoundDirectory(own));
        if |directories| >= MAX_DIRECTORIES {
          truncated := true;
          ListedTruncated(View(), Visit(entry.entries, own, depth + 1));
          return;
        }
        directories := directories + [path];
        Walk(entry.entries, path, depth + 1, own);
        return;
      }
      if !entry.File? {
        return;
      }
      ListedOne(View(), FoundFile(own));
      if |files| >= MAX_FILES {
        truncated := true;
        return;
      }
      files := files + [path];
    }
  }

  lemma ListedOne(s: Inventory, f: Found)
    ensures ListedAll(s, [f]) == Listed(s, f)
  {
    assert [f][..0] == [];
  }

  lemma {:induction false} ListedRest(s: Inventory, entries: seq<Entry>, i: nat, dir: seq<string>, depth: nat)
    requires i <= |entries| && depth <= MAX_DEPTH && ListedAll(s, Visit(entries[..i], dir, depth)).truncated
    ensures ListedAll(s, Visit(entries, dir, depth)) == ListedAll(s, Visit(entries[..i], dir, depth))
    decreases |entries| - i
  {
    if i == |entries| {
      assert entries[..i] == entries;
    } else {
      var sofar := Visit(entries[..i], dir, depth);
      VisitSnoc(entries, i, dir, depth);
      ListedAppend(s, sofar, VisitEntry(entries[i], dir, depth));
      ListedTruncated(ListedAll(s, sofar), VisitEntry(entries[i], dir, depth));
      ListedRest(s, entries, i + 1, dir, depth);
    }
  }

  const NOTHING: Inventory := Inventory([], [], false)

  /** The inventory of a root directory. */
  function Manifest(root: seq<Entry>): Inventory { ListedAll(NOTHING, Visit(root, [], 0)) }

  method BuildProjectFileManifest(root: seq<Entry>) returns (r: Inventory)
    requires WellNamed(root)
    ensures r == Manifest(root)
  {
    var walker := new Walker();
    walker.Walk(root, "", 0, []);
    r := Inventory(walker.files, walker.directories, walker.truncated);
  }

  // ---- What the inventory holds ----

  function FilesOf(found: seq<Found>): seq<string> {
    if found == [] then []
    else
      var f := found[|found| - 1];
      FilesOf(found[..|found| - 1]) + (if f.FoundFile? then [Relative(f.names)] else [])
  }

  function DirectoriesOf(found: seq<Found>): seq<string> {
    if found == [] then []
    else
      var f := found[|found| - 1];
      DirectoriesOf(found[..|found| - 1]) + (if f.FoundDirectory? then [Relative(f.names)] else [])
  }

  predicate Fits(found: seq<Found>) { |FilesOf(found)| <= MAX_FILES && |DirectoriesOf(found)| <= MAX_DIRECTORIES }

  /** How many of the found entries the inventory takes: the longest prefix that fits. */
  function Cut(found: seq<Found>): (k: nat)
    ensures k <= |found| && Fits(found[..k]) && (k < |found| ==> !Fits(found[..k + 1]))
    decreases |found|
  {
    assert found[..|found|] == found;
    if found == [] then 0
    else
      var init := found[..|found| - 1];
      var k := Cut(init);
      assert init[..k] == found[..k];
      if k < |init| then
        assert init[..k + 1] == found[..k + 1];
        k
      else if Fits(found) then |found|
      else k
  }

  ghost predicate IsTheCut(found: seq<Found>) {
    var taken := found[..Cut(found)];
    ListedAll(NOTHING, found) == Inventory(FilesOf(taken), DirectoriesOf(taken), Cut(found) < |found|)
  }

  lemma {:induction false} CutEarlier(found: seq<Found>)
    requires found != [] && Cut(found[..|found| - 1]) < |found| - 1 && IsTheCut(found[..|found| - 1])
    ensures IsTheCut(found)
  {
    var init := found[..|found| - 1];
    assert init[..Cut(init)] == found[..Cut(init)];
  }

  lemma {:induction false} CutHere(found: seq<Found>)
    requires found != [] && Cut(found[..|found| - 1]) == |found| - 1 && IsTheCut(found[..|found| - 1])
    ensures IsTheCut(found)
  {
    var init := found[..|found| - 1];
    assert init[..|init|] == init && found[..|found|] == found && found[..|init|] == init;
  }

  /** The walk lists the longest prefix of the enumeration that fits both caps, and reports
      truncation exactly when that is not all of it. */
  lemma {:induction false} InventoryIsTheCut(found: seq<Found>)
    ensures var s, taken := ListedAll(NOTHING, found), found[..Cut(found)];
      s == Inventory(FilesOf(taken), DirectoriesOf(taken), Cut(found) < |found|)
    decreases |found|
  {
    if found != [] {
      var init := found[..|found| - 1];
      InventoryIsTheCut(init);
      if Cut(init) < |init| {
        CutEarlier(found);
      } else {
        CutHere(found);
      }
    }
  }

  lemma {:induction false} SplitAt(found: seq<Found>, k: nat)
    requires k <= |found|
    ensures FilesOf(found[..k]) <= FilesOf(found) && DirectoriesOf(found[..k]) <= DirectoriesOf(found)
    decreases |found|
  {
    if k == |found| {
      assert found[..k] == found;
    } else {
      var init := found[..|found| - 1];
      SplitAt(init, k);
      assert init[..k] == found[..k];
    }
  }

  lemma {:induction false} FilesMember(found: seq<Found>, path: string)
    ensures path in FilesOf(found) <==> exists f :: f in found && f.FoundFile? && Relative(f.names) == path
    ensures path in DirectoriesOf(found) <==> exists f :: f in found && f.FoundDirectory? && Relative(f.names) == path
  {
    if found != [] {
      var init, f := found[..|found| - 1], found[|found| - 1];
      FilesMember(init, path);
      assert found == init + [f];
    }
  }

  /** Both lists are prefixes of the complete lists, within the caps, and truncation is reported
      exactly when one of the complete lists does not fit. */
  lemma ManifestBounds(root: seq<Entry>)
    ensures var m, all := Manifest(root), Visit(root, [], 0);
      && m.files <= FilesOf(all) && |m.files| <= MAX_FILES
      && m.directories <= DirectoriesOf(all) && |m.directories| <= MAX_DIRECTORIES
      && (m.truncated <==> |FilesOf(all)| > MAX_FILES || |DirectoriesOf(all)| > MAX_DIRECTORIES)
      && (!m.truncated ==> m.files == FilesOf(all) && m.directories == DirectoriesOf(all))
      && (m.truncated ==> |m.files| == MAX_FILES || |m.directories| == MAX_DIRECTORIES)
  {
    var all := Visit(root, [], 0);
    var k := Cut(all);
    InventoryIsTheCut(all);
    SplitAt(all, k);
    assert all[..|all|] == all;
    if k < |all| {
      SplitAt(all, k + 1);
      assert all[..k + 1][..k] == all[..k];
    }
  }

  /** The path is that of a file (or of a directory) the walk can reach. */
  ghost predicate Reachable(root: seq<Entry>, path: string, toFile: bool) {
    exists names :: LeadsTo(root, names, toFile) && |names| <= MAX_DEPTH + 1 && Relative(names) == path
  }

  lemma CompleteListsAreReachable(root: seq<Entry>, path: string)
    ensures path in FilesOf(Visit(root, [], 0)) <==> Reachable(root, path, true)
    ensures path in DirectoriesOf(Visit(root, [], 0)) <==> Reachable(root, path, false)
  {
    var all := Visit(root, [], 0);
    FilesMember(all, path);
    forall names: seq<string>, toFile: bool
      ensures FoundAs(names, toFile) in all <==> LeadsTo(root, names, toFile) && |names| <= MAX_DEPTH + 1
    {
      assert [] + names == names;
      ListedIffReachable(root, [], 0, names, toFile);
    }
    forall f | f in all ensures f == FoundAs(f.names, f.FoundFile?) {}
    if names :| LeadsTo(root, names, true) && |names| <= MAX_DEPTH + 1 && Relative(names) == path {
      assert FoundAs(names, true) in all;
    }
    if names :| LeadsTo(root, names, false) && |names| <= MAX_DEPTH + 1 && Relative(names) == path {
      assert FoundAs(names, false) in all;
    }
  }

  ghost predicate NoRepeatedPaths(paths: seq<string>) { forall i, j :: 0 <= i < j < |paths| ==> paths[i] != paths[j] }

  /** Names lead to every listed entry, so its path determines it. */
  lemma FoundAreNames(root: seq<Entry>, f: Found)
    requires WellNamed(root) && f in Visit(root, [], 0)
    ensures AreNames(f.names)
  {
    assert [] + f.names == f.names;
    assert f == FoundAs(f.names, f.FoundFile?);
    ListedIffReachable(root, [], 0, f.names, f.FoundFile?);
    LeadsToNames(root, f.names, f.FoundFile?);
  }

  lemma {:induction false} PathsDoNotRepeat(found: seq<Found>)
    requires NoRepeats(found) && forall f :: f in found ==> AreNames(f.names)
    ensures NoRepeatedPaths(FilesOf(found)) && NoRepeatedPaths(DirectoriesOf(found))
  {
    if found != [] {
      var init, last := found[..|found| - 1], found[|found| - 1];
      assert found == init + [last];
      PathsDoNotRepeat(init);
      var path := Relative(last.names);
      FilesMember(init, path);
      forall f | f in init ensures Relative(f.names) != path {
        if Relative(f.names) == path {
          RelativeDistinguishes(f.names, last.names);
        }
      }
    }
  }

  /** Only reachable files and directories are listed, none twice, and when nothing was truncated
      the lists hold every one of them. */
  lemma ManifestIsExact(root: seq<Entry>)
    requires WellNamed(root)
    ensures var m := Manifest(root);
      && NoRepeatedPaths(m.files) && NoRepeatedPaths(m.directories)
      && (forall p :: p in m.files ==> Reachable(root, p, true))
      && (forall p :: p in m.directories ==> Reachable(root, p, false))
      && (!m.truncated ==> forall p :: Reachable(root, p, true) ==> p in m.files)
      && (!m.truncated ==> forall p :: Reachable(root, p, false) ==> p in m.directories)
  {
    var all := Visit(root, [], 0);
    VisitNoRepeats(root, [], 0);
    forall f | f in all ensures AreNames(f.names) { FoundAreNames(root, f); }
    PathsDoNotRepeat(all);
    ManifestBounds(root);
    forall p: string
      ensures p in FilesOf(all) <==> Reachable(root, p, true)
      ensures p in DirectoriesOf(all) <==> Reachable(root, p, false)
    {
      CompleteListsAreReachable(root, p);
    }
  }
}
