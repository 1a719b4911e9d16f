/** Directories inside their inodes: mkfs links a path and finds it again.  Names and
    paths are strings without a terminator. */
module Directory {
  datatype Entry = Entry(fid: nat, name: string)

  /** The directories of an image by inode; other inodes are files. */
  type Tree = map<nat, seq<Entry>>

  /** Entries of 128 bytes behind a header of the same size: 7, 23 or 55 of them, by the
      sector size of the image. */
  type Room = x: nat | x == 7 || x == 23 || x == 55 witness 23

  const ROOM: Room

  /** The end of the first component. */
  function Split(path: string): (ns: nat)
    ensures ns <= |path|
    ensures ns < |path| ==> path[ns] == '/'
    ensures forall k :: 0 <= k < ns ==> path[k] != '/'
  {
    if path == "" || path[0] == '/' then 0 else 1 + Split(path[1..])
  }

  /** The component with the slash behind it, or all of a path without one. */
  predicate Matches(name: string, path: string) {
    var ns := Split(path);
    if ns < |path| then ns < |name| && name[..ns + 1] == path[..ns + 1] else name == path
  }

  /** A directory named without its slash. */
  predicate Slashless(name: string, path: string) {
    var ns := Split(path);
    ns == |path| < |name| && name[..ns] == path && name[ns] == '/'
  }

  function FirstMatch(entries: seq<Entry>, path: string): (i: nat)
    ensures i <= |entries|
    ensures i < |entries| ==> Matches(entries[i].name, path)
    ensures forall k :: 0 <= k < i ==> !Matches(entries[k].name, path)
  {
    if entries == [] then 0 else if Matches(entries[0].name, path) then 0 else 1 + FirstMatch(entries[1..], path)
  }

  /** Inode 0 stands for the root. */
  function Start(root: nat, inode: nat): nat { if inode == 0 then root else inode }

  // ---------------------------------------------------------------- mkfs: linking

  /** Full: no room; Lost: a path that exists already, or one below a file. */
  datatype Linked = Done(tree: Tree) | Full | Lost

  type Order = seq<Entry> -> seq<Entry>

  function NewName(path: string, isDir: bool): string { if isDir then path + "/" else path }

  function Link(tree: Tree, at: nat, inode: nat, isDir: bool, path: string, order: Order): Linked
    decreases |path|
  {
    if at !in tree then Lost
    else
      var entries, i, ns := tree[at], FirstMatch(tree[at], path), Split(path);
      if i < |entries| then
        if ns < |path| then Link(tree, entries[i].fid, inode, isDir, path[ns + 1..], order) else Lost
      else if |entries| >= ROOM then Full
      else Done(tree[at := order(entries + [Entry(inode, NewName(path, isDir))])])
  }

  // ---------------------------------------------------------------- mkfs: finding

  datatype Found = None | Some(fid: nat)

  function FirstFit(entries: seq<Entry>, path: string): (i: nat)
    ensures i <= |entries|
    ensures i < |entries| ==> Matches(entries[i].name, path) || Slashless(entries[i].name, path)
    ensures forall k :: 0 <= k < i ==> !Matches(entries[k].name, path) && !Slashless(entries[k].name, path)
  {
    if entries == [] then 0
    else if Matches(entries[0].name, path) || Slashless(entries[0].name, path) then 0
    else 1 + FirstFit(entries[1..], path)
  }

  /** A leading slash is skipped; alone it is the root. */
  function Locate(tree: Tree, root: nat, at: nat, path: string): Found
    decreases |path|, 1
  {
    if path == "" then Some(at)
    else if path[0] == '/' then (if |path| == 1 then Some(root) else Look(tree, root, at, path[1..]))
    else Look(tree, root, at, path)
  }

  function Look(tree: Tree, root: nat, at: nat, path: string): Found
    requires path != ""
    decreases |path|, 0
  {
    if at !in tree then None
    else
      var entries, i, ns := tree[at], FirstFit(tree[at], path), Split(path);
      if i == |entries| then None
      else if ns < |path| then Locate(tree, root, entries[i].fid, path[ns + 1..])
      else Some(entries[i].fid)
  }

  // ---------------------------------------------------------------- well formed trees

  /** A name without its slash. */
  function Stem(name: string): string {
    if name != "" && name[|name| - 1] == '/' then name[..|name| - 1] else name
  }

  /** One component; with a slash exactly when it names a directory. */
  ghost predicate Proper(tree: Tree, e: Entry) {
    && Stem(e.name) != "" && '/' !in Stem(e.name)
    && (e.fid in tree <==> e.name == Stem(e.name) + "/")
  }

  ghost predicate ProperDir(tree: Tree, entries: seq<Entry>) {
    && (forall i :: 0 <= i < |entries| ==> Proper(tree, entries[i]))
    && (forall i, j :: 0 <= i < j < |entries| ==> Stem(entries[i].name) != Stem(entries[j].name))
    && |entries| <= ROOM
  }

  ghost predicate WellFormed(tree: Tree) {
    forall at :: at in tree ==> ProperDir(tree, tree[at])
  }

  /** Upper case letters before comparing. */
  function Fold(c: char): char { if 'A' <= c <= 'Z' then c - 'A' + 'a' else c }

  /** strcasecmp is at most 0. */
  predicate NotAfter(a: string, b: string) {
    a == "" || (b != "" && (Fold(a[0]) < Fold(b[0]) || (Fold(a[0]) == Fold(b[0]) && NotAfter(a[1..], b[1..]))))
  }

  ghost predicate Sorted(entries: seq<Entry>) {
    forall i, j :: 0 <= i < j < |entries| ==> NotAfter(entries[i].name, entries[j].name)
  }

  /** qsort: a sorted permutation. */
  ghost predicate Sorts(order: Order) {
    forall s :: SortsOne(order, s)
  }

  ghost predicate SortsOne(order: Order, s: seq<Entry>) {
    multiset(order(s)) == multiset(s) && Sorted(order(s))
  }

  /** In a proper directory the entries that fit a component are those with its
      stem: at most one. */
  lemma {:induction false} FitIsStem(tree: Tree, e: Entry, path: string)
    requires Proper(tree, e)
    ensures var ns := Split(path);
            if ns < |path| then Matches(e.name, path) <==> e.fid in tree && Stem(e.name) == path[..ns]
            else (Matches(e.name, path) || Slashless(e.name, path)) <==> Stem(e.name) == path && path != ""
  {
    var ns := Split(path);
    var stem := Stem(e.name);
    if ns < |path| && Matches(e.name, path) {
      assert e.name[ns] == '/';
    }
  }

  // ---------------------------------------------------------------- one entry more

  predicate Fits(e: Entry, path: string) { Matches(e.name, path) || Slashless(e.name, path) }

  /** The entry that fits is found, wherever it stands. */
  lemma FitFound(tree: Tree, entries: seq<Entry>, path: string, e: Entry)
    requires ProperDir(tree, entries) && e in entries && Fits(e, path) && path != ""
    ensures FirstFit(entries, path) < |entries| && entries[FirstFit(entries, path)] == e
  {
    hide Matches, Stem;
    var k :| 0 <= k < |entries| && entries[k] == e;
    var i := FirstFit(entries, path);
    assert i <= k;
    assert Proper(tree, entries[i]) && Proper(tree, e);
    FitIsStem(tree, entries[i], path);
    FitIsStem(tree, e, path);
  }

  ghost predicate Free(entries: seq<Entry>, stem: string) {
    forall i :: 0 <= i < |entries| ==> Stem(entries[i].name) != stem
  }

  /** A directory with one entry more, in any order. */
  lemma GrownDir(tree: Tree, entries: seq<Entry>, e: Entry, grown: seq<Entry>)
    requires ProperDir(tree, entries) && |entries| < ROOM && Proper(tree, e) && Free(entries, Stem(e.name))
    requires multiset(grown) == multiset(entries + [e])
    ensures ProperDir(tree, grown)
    ensures forall x :: x in entries || x == e <==> x in grown
  {
    hide Stem;
    var all := entries + [e];
    forall x ensures x in all <==> x in grown { assert x in all <==> x in multiset(all); assert x in grown <==> x in multiset(grown); }
    assert |grown| == |all| by { assert |multiset(grown)| == |grown| && |multiset(all)| == |all|; }
    forall i | 0 <= i < |grown| ensures Proper(tree, grown[i]) { assert grown[i] in all; }
    forall i, j | 0 <= i < j < |grown| ensures Stem(grown[i].name) != Stem(grown[j].name) {
      if Stem(grown[i].name) == Stem(grown[j].name) {
        SameStem(all, grown[i], grown[j]);
        TwiceCounted(grown, i, j);
        OnceCounted(all, grown[i]);
      }
    }
  }

  lemma SameStem(all: seq<Entry>, x: Entry, y: Entry)
    requires forall i, j :: 0 <= i < j < |all| ==> Stem(all[i].name) != Stem(all[j].name)
    requires x in all && y in all && Stem(x.name) == Stem(y.name)
    ensures x == y
  {
    hide Stem;
    var i :| 0 <= i < |all| && all[i] == x;
    var j :| 0 <= j < |all| && all[j] == y;
  }

  lemma TwiceCounted(s: seq<Entry>, i: nat, j: nat)
    requires i < j < |s| && s[i] == s[j]
    ensures multiset(s)[s[i]] >= 2
  {
    assert s == s[..j] + [s[j]] + s[j + 1..];
    assert s[i] in s[..j];
  }

  lemma OnceCounted(s: seq<Entry>, x: Entry)
    requires forall i, j :: 0 <= i < j < |s| ==> Stem(s[i].name) != Stem(s[j].name)
    ensures multiset(s)[x] <= 1
    decreases |s|
  {
    hide Stem;
    if s != [] {
      var n := |s| - 1;
      assert s == s[..n] + [s[n]];
      OnceCounted(s[..n], x);
      if x == s[n] { assert x !in s[..n]; }
    }
  }

  /** Every path that is found stays found. */
  lemma {:induction false} StillFound(tree: Tree, grown: Tree, root: nat, at: nat, path: string)
    requires WellFormed(tree) && Extends(tree, grown)
    requires Locate(tree, root, at, path).Some?
    ensures Locate(grown, root, at, path) == Locate(tree, root, at, path)
    decreases |path|
  {
    hide FirstFit, Matches, Slashless;
    if path != "" && path != "/" {
      var p := if path[0] == '/' then path[1..] else path;
      var i := FirstFit(tree[at], p);
      assert DirExtends(tree, grown, at) && ProperDir(tree, tree[at]);
      FitsFirst(tree[at], p);
      FitFound(tree, grown[at], p, tree[at][i]);
      if Split(p) < |p| {
        StillFound(tree, grown, root, tree[at][i].fid, p[Split(p) + 1..]);
      }
    }
  }

  lemma FitsFirst(entries: seq<Entry>, path: string)
    ensures FirstFit(entries, path) < |entries| ==> Fits(entries[FirstFit(entries, path)], path)
  {
  }

  /** The same directories, each with its entries and perhaps more. */
  ghost predicate Extends(tree: Tree, grown: Tree) {
    forall at :: at in tree ==> DirExtends(tree, grown, at)
  }

  ghost predicate DirExtends(tree: Tree, grown: Tree, at: nat)
    requires at in tree
  {
    at in grown && ProperDir(tree, grown[at]) && forall x :: x in tree[at] ==> x in grown[at]
  }

  // ---------------------------------------------------------------- where a path is linked

  datatype Place = Place(dir: nat, rest: string)

  /** The last directory on the way, and what is left of the path there. */
  function Where(tree: Tree, at: nat, path: string): Place
    decreases |path|
  {
    if at !in tree then Place(at, path)
    else
      var i, ns := FirstMatch(tree[at], path), Split(path);
      if i < |tree[at]| && ns < |path| then Where(tree, tree[at][i].fid, path[ns + 1..]) else Place(at, path)
  }

  /** Only the last component is new. */
  ghost predicate Parent(tree: Tree, at: nat, path: string) {
    var rest := Where(tree, at, path).rest;
    rest != "" && '/' !in rest
  }

  lemma {:induction false} LinkIs(tree: Tree, at: nat, inode: nat, isDir: bool, path: string, order: Order)
    requires Link(tree, at, inode, isDir, path, order).Done?
    ensures var w := Where(tree, at, path);
            w.dir in tree && |tree[w.dir]| < ROOM
            && Link(tree, at, inode, isDir, path, order)
               == Done(tree[w.dir := order(tree[w.dir] + [Entry(inode, NewName(w.rest, isDir))])])
    decreases |path|
  {
    hide FirstMatch, NewName;
    var i, ns := FirstMatch(tree[at], path), Split(path);
    if i < |tree[at]| && ns < |path| {
      LinkIs(tree, tree[at][i].fid, inode, isDir, path[ns + 1..], order);
    }
  }

  /** A step of linking is a step of finding: the same entry, in any larger tree. */
  lemma StepDown(tree: Tree, grown: Tree, root: nat, at: nat, path: string)
    requires WellFormed(tree) && Extends(tree, grown) && at in tree
    requires FirstMatch(tree[at], path) < |tree[at]| && Split(path) < |path|
    ensures path != "" && path[0] != '/'
    ensures Locate(grown, root, at, path)
         == Locate(grown, root, tree[at][FirstMatch(tree[at], path)].fid, path[Split(path) + 1..])
  {
    hide Slashless, Stem;
    var e := tree[at][FirstMatch(tree[at], path)];
    assert ProperDir(tree, tree[at]) && Proper(tree, e);
    StemStart(tree, e, path);
    assert DirExtends(tree, grown, at) && e in tree[at];
    FitFound(tree, grown[at], path, e);
  }

  lemma StemStart(tree: Tree, e: Entry, path: string)
    requires Proper(tree, e) && Matches(e.name, path)
    ensures path != "" && path[0] != '/'
  {
  }

  lemma ExtendsItself(tree: Tree)
    requires WellFormed(tree)
    ensures Extends(tree, tree)
  {
  }

  /** A path is new exactly when the last directory has no entry of that stem. */
  lemma {:induction false} FreshStem(tree: Tree, root: nat, at: nat, path: string)
    requires WellFormed(tree) && Parent(tree, at, path) && Where(tree, at, path).dir in tree
    ensures Locate(tree, root, at, path).None? <==> Free(tree[Where(tree, at, path).dir], Where(tree, at, path).rest)
    decreases |path|
  {
    hide FirstMatch, FirstFit, Stem, Matches, Slashless;
    var i, ns := FirstMatch(tree[at], path), Split(path);
    if i < |tree[at]| && ns < |path| {
      ExtendsItself(tree);
      StepDown(tree, tree, root, at, path);
      FreshStem(tree, root, tree[at][i].fid, path[ns + 1..]);
    } else {
      NoSlash(path);
      LastStep(tree, root, at, path);
    }
  }

  lemma LastStep(tree: Tree, root: nat, at: nat, path: string)
    requires WellFormed(tree) && at in tree && path != "" && path[0] != '/' && Split(path) == |path|
    ensures Locate(tree, root, at, path).None? <==> Free(tree[at], path)
  {
    hide Stem, Matches, Slashless;
    var entries := tree[at];
    var k := FirstFit(entries, path);
    assert ProperDir(tree, entries);
    forall i | 0 <= i < |entries| ensures (Matches(entries[i].name, path) || Slashless(entries[i].name, path)) <==> Stem(entries[i].name) == path {
      FitIsStem(tree, entries[i], path);
    }
  }

  lemma NoSlash(path: string)
    requires path != "" && '/' !in path
    ensures Split(path) == |path| && path[0] != '/'
  {
    forall k | 0 <= k < |path| ensures path[k] != '/' {}
  }

  lemma NewStem(tree: Tree, inode: nat, isDir: bool, rest: string)
    requires rest != "" && '/' !in rest && (inode in tree <==> isDir)
    ensures var e := Entry(inode, NewName(rest, isDir));
            Stem(e.name) == rest && Proper(tree, e) && Fits(e, rest)
  {
    var name := NewName(rest, isDir);
    NoSlash(rest);
    if isDir {
      assert name[..|rest|] == rest && name[|rest|] == '/';
    }
  }

  /** The tree after linking is well formed and has everything it had. */
  lemma GrownTree(tree: Tree, d: nat, e: Entry, order: Order)
    requires WellFormed(tree) && Sorts(order) && d in tree && |tree[d]| < ROOM
    requires Proper(tree, e) && Free(tree[d], Stem(e.name))
    ensures var grown := tree[d := order(tree[d] + [e])];
            WellFormed(grown) && Extends(tree, grown) && e in grown[d]
            && |grown[d]| == |tree[d]| + 1 && Sorted(grown[d])
  {
    hide Stem, Sorted;
    var all := tree[d] + [e];
    var grown := tree[d := order(all)];
    assert SortsOne(order, all);
    assert ProperDir(tree, tree[d]);
    GrownDir(tree, tree[d], e, order(all));
    assert |multiset(order(all))| == |order(all)| && |multiset(all)| == |all|;
    forall at | at in grown ensures ProperDir(grown, grown[at]) {
      assert ProperDir(tree, grown[at]);
      SameDirs(tree, grown, grown[at]);
    }
    forall at | at in tree ensures DirExtends(tree, grown, at) { assert ProperDir(tree, tree[at]); }
  }

  lemma SameDirs(tree: Tree, grown: Tree, entries: seq<Entry>)
    requires ProperDir(tree, entries) && tree.Keys == grown.Keys
    ensures ProperDir(grown, entries)
  {
    hide Stem;
    forall i | 0 <= i < |entries| ensures Proper(grown, entries[i]) {
      assert Proper(tree, entries[i]) && (entries[i].fid in tree.Keys <==> entries[i].fid in grown.Keys);
    }
  }

  /** The linked path leads to the inode. */
  lemma {:induction false} LinkFound(tree: Tree, grown: Tree, root: nat, at: nat, path: string, e: Entry)
    requires WellFormed(tree) && Extends(tree, grown) && Parent(tree, at, path)
    requires var w := Where(tree, at, path); w.dir in tree && e in grown[w.dir] && Fits(e, w.rest)
    ensures Locate(grown, root, at, path) == Some(e.fid)
    decreases |path|
  {
    hide FirstMatch, FirstFit, Fits, ProperDir, Matches, Slashless, Stem, Split;
    var i, ns := FirstMatch(tree[at], path), Split(path);
    if i < |tree[at]| && ns < |path| {
      StepDown(tree, grown, root, at, path);
      LinkFound(tree, grown, root, tree[at][i].fid, path[ns + 1..], e);
    } else {
      NoSlash(path);
      assert DirExtends(tree, grown, at);
      FitFound(tree, grown[at], path, e);
    }
  }

  /** Linking below existing directories keeps the directories proper exactly when
      the path is new.  Then the path leads to the inode, every path that led
      somewhere still leads there, and the directory is sorted with one entry
      more. */
  lemma LinkExact(tree: Tree, root: nat, at: nat, inode: nat, isDir: bool, path: string, order: Order)
    requires WellFormed(tree) && Sorts(order) && Parent(tree, at, path) && (inode in tree <==> isDir)
    requires Link(tree, at, inode, isDir, path, order).Done?
    ensures var grown := Link(tree, at, inode, isDir, path, order).tree;
            (WellFormed(grown) <==> Locate(tree, root, at, path).None?)
  {
    hide WellFormed, Sorts, Link, Where, Locate, Proper, Free, Stem, NewName, Fits;
    var grown, w := Link(tree, at, inode, isDir, path, order).tree, Where(tree, at, path);
    LinkIs(tree, at, inode, isDir, path, order);
    FreshStem(tree, root, at, path);
    NewStem(tree, inode, isDir, w.rest);
    var e := Entry(inode, NewName(w.rest, isDir));
    if Free(tree[w.dir], w.rest) {
      GrownTree(tree, w.dir, e, order);
    } else {
      Doubled(tree, w.dir, e, order);
    }
  }

  lemma Doubled(tree: Tree, d: nat, e: Entry, order: Order)
    requires Sorts(order) && d in tree && !Free(tree[d], Stem(e.name))
    ensures !WellFormed(tree[d := order(tree[d] + [e])])
  {
    hide Stem, Sorted;
    var all := tree[d] + [e];
    var grown := tree[d := order(all)];
    assert SortsOne(order, all);
    var k :| 0 <= k < |tree[d]| && Stem(tree[d][k].name) == Stem(e.name);
    if WellFormed(grown) {
      assert d in grown && grown[d] == order(all);
      assert ProperDir(grown, grown[d]);
      TwoOfOne(all, k, |tree[d]|, order(all));
    }
  }

  /** Two entries of one stem remain two however they are ordered. */
  lemma TwoOfOne(all: seq<Entry>, i: nat, j: nat, s: seq<Entry>)
    requires i < j < |all| && Stem(all[i].name) == Stem(all[j].name) && multiset(s) == multiset(all)
    ensures exists x, y :: 0 <= x < y < |s| && Stem(s[x].name) == Stem(s[y].name)
  {
    hide Stem;
    if forall x, y :: 0 <= x < y < |s| ==> Stem(s[x].name) != Stem(s[y].name) {
      assert all[i] in multiset(all) && all[j] in multiset(all);
      SameStem(s, all[i], all[j]);
      TwiceCounted(all, i, j);
      OnceCounted(s, all[i]);
      assert false;
    }
  }

  lemma LinkLocates(tree: Tree, root: nat, at: nat, inode: nat, isDir: bool, path: string, order: Order)
    requires WellFormed(tree) && Sorts(order) && Parent(tree, at, path) && (inode in tree <==> isDir)
    requires Link(tree, at, inode, isDir, path, order).Done? && Locate(tree, root, at, path).None?
    ensures var grown, d := Link(tree, at, inode, isDir, path, order).tree, Where(tree, at, path).dir;
            Locate(grown, root, at, path) == Some(inode)
            && (forall from, p :: Locate(tree, root, from, p).Some? ==> Locate(grown, root, from, p) == Locate(tree, root, from, p))
            && d in grown && d in tree && Sorted(grown[d]) && |grown[d]| == |tree[d]| + 1
            && (forall x :: x in tree && x != d ==> x in grown && grown[x] == tree[x])
  {
    hide WellFormed, Sorts, Link, Where, Locate, Proper, Free, Stem, NewName, Fits, Sorted, Extends;
    var grown, w := Link(tree, at, inode, isDir, path, order).tree, Where(tree, at, path);
    LinkIs(tree, at, inode, isDir, path, order);
    FreshStem(tree, root, at, path);
    NewStem(tree, inode, isDir, w.rest);
    var e := Entry(inode, NewName(w.rest, isDir));
    GrownTree(tree, w.dir, e, order);
    LinkFound(tree, grown, root, at, path, e);
    forall from, p | Locate(tree, root, from, p).Some?
      ensures Locate(grown, root, from, p) == Locate(tree, root, from, p)
    {
      StillFound(tree, grown, root, from, p);
    }
  }

  // ---------------------------------------------------------------- what linking answers

  /** The path with these directories and this last name. */
  function Path(dirs: seq<string>, name: string): string {
    if dirs == [] then name else dirs[0] + "/" + Path(dirs[1..], name)
  }

  ghost predicate Plain(dirs: seq<string>, name: string) {
    '/' !in name && forall i :: 0 <= i < |dirs| ==> '/' !in dirs[i]
  }

  ghost predicate Named(entries: seq<Entry>, name: string) {
    exists e :: e in entries && e.name == name
  }

  /** From `at` the directories lead, entry by entry, to `dir`. */
  ghost predicate Leads(tree: Tree, at: nat, dirs: seq<string>, dir: nat)
    decreases |dirs|
  {
    if dirs == [] then dir == at
    else at in tree && exists e :: e in tree[at] && e.name == dirs[0] + "/" && Leads(tree, e.fid, dirs[1..], dir)
  }

  /** The way along the directories ends at `dir`: behind the last of them, or where the
      next is missing. */
  ghost predicate Ends(tree: Tree, at: nat, dirs: seq<string>, k: nat, dir: nat) {
    && k <= |dirs| && Leads(tree, at, dirs[..k], dir)
    && (k < |dirs| ==> dir in tree && !Named(tree[dir], dirs[k] + "/"))
  }

  lemma {:induction false} AsPath(path: string) returns (dirs: seq<string>, name: string)
    ensures Plain(dirs, name) && Path(dirs, name) == path
    decreases |path|
  {
    var ns := Split(path);
    if ns == |path| {
      dirs, name := [], path;
      assert '/' !in path;
    } else {
      var rest: seq<string>;
      rest, name := AsPath(path[ns + 1..]);
      dirs := [path[..ns]] + rest;
      assert path == path[..ns] + "/" + path[ns + 1..];
      assert dirs[1..] == rest && '/' !in path[..ns];
    }
  }

  lemma SplitPath(head: string, tail: string)
    requires '/' !in head
    ensures Split(head) == |head| && Split(head + "/" + tail) == |head|
    ensures (head + "/" + tail)[..|head|] == head && (head + "/" + tail)[|head| + 1..] == tail
  {
    var path := head + "/" + tail;
    forall k | 0 <= k < |head| ensures path[k] == head[k] && head[k] in head {}
    assert path[|head|] == '/';
  }

  /** In a proper directory the entry for a directory is the one match of its component. */
  lemma DirMatch(tree: Tree, entries: seq<Entry>, head: string, tail: string)
    requires ProperDir(tree, entries) && '/' !in head
    ensures var i := FirstMatch(entries, head + "/" + tail);
            if Named(entries, head + "/")
            then i < |entries| && entries[i].name == head + "/" && (forall e :: e in entries && e.name == head + "/" ==> e == entries[i])
            else i == |entries|
  {
    var path := head + "/" + tail;
    SplitPath(head, tail);
    hide FirstMatch, Matches, Proper, Stem, Split;
    forall e | e in entries ensures Matches(e.name, path) <==> e.name == head + "/" {
      assert Proper(tree, e);
      NamesDir(tree, e, head, tail);
    }
    var i := FirstMatchIs(entries, path);
    forall e | e in entries && e.name == head + "/" && i < |entries| ensures e == entries[i] {
      SameStem(entries, e, entries[i]);
    }
  }

  lemma FirstMatchIs(entries: seq<Entry>, path: string) returns (i: nat)
    ensures i == FirstMatch(entries, path) && i <= |entries|
    ensures i < |entries| ==> Matches(entries[i].name, path)
    ensures i == |entries| ==> forall e :: e in entries ==> !Matches(e.name, path)
  {
    hide Matches;
    i := FirstMatch(entries, path);
  }

  lemma NamesDir(tree: Tree, e: Entry, head: string, tail: string)
    requires Proper(tree, e) && '/' !in head
    ensures Matches(e.name, head + "/" + tail) <==> e.name == head + "/"
  {
    var path := head + "/" + tail;
    SplitPath(head, tail);
    FitIsStem(tree, e, path);
    if e.name == head + "/" { assert Stem(e.name) == head; }
  }

  lemma FileMatch(entries: seq<Entry>, name: string)
    requires '/' !in name
    ensures FirstMatch(entries, name) < |entries| <==> Named(entries, name)
  {
    SplitPath(name, "");
    hide FirstMatch, Split;
    var i := FirstMatchIs(entries, name);
    if i < |entries| { assert entries[i] in entries && entries[i].name == name; }
  }

  /** Where the way ends decides the answer. */
  lemma {:induction false} LinkAt(tree: Tree, at: nat, inode: nat, isDir: bool, dirs: seq<string>, name: string, order: Order, k: nat, dir: nat)
    requires WellFormed(tree) && Plain(dirs, name) && Ends(tree, at, dirs, k, dir)
    ensures var r := Link(tree, at, inode, isDir, Path(dirs, name), order);
            if dir !in tree || (k == |dirs| && Named(tree[dir], name)) then r.Lost?
            else if |tree[dir]| >= ROOM then r.Full?
            else r == Done(tree[dir := order(tree[dir] + [Entry(inode, NewName(Path(dirs[k..], name), isDir))])])
    decreases |dirs|
  {
    hide Matches, Stem, ProperDir, NewName, FirstMatch, Split;
    if dirs == [] {
      assert dirs[..k] == [];
      SplitPath(name, "");
      if at in tree { FileMatch(tree[at], name); }
    } else {
      var tail := Path(dirs[1..], name);
      assert '/' !in dirs[0];
      SplitPath(dirs[0], tail);
      if at in tree { DirMatch(tree, tree[at], dirs[0], tail); }
      if k > 0 {
        assert dirs[..k][0] == dirs[0] && dirs[..k][1..] == dirs[1..][..k - 1] && dirs[k..] == dirs[1..][k - 1..];
        var e :| e in tree[at] && e.name == dirs[0] + "/" && Leads(tree, e.fid, dirs[1..][..k - 1], dir);
        LinkAt(tree, e.fid, inode, isDir, dirs[1..], name, order, k - 1, dir);
      } else {
        assert dirs[..k] == [] && dirs[k..] == dirs;
      }
    }
  }

  lemma {:induction false} SomeEnd(tree: Tree, at: nat, dirs: seq<string>) returns (k: nat, dir: nat)
    requires WellFormed(tree) && (at in tree || dirs == [])
    ensures Ends(tree, at, dirs, k, dir)
    decreases |dirs|
  {
    if dirs == [] || !Named(tree[at], dirs[0] + "/") {
      k, dir := 0, at;
      assert dirs[..0] == [];
    } else {
      var e :| e in tree[at] && e.name == dirs[0] + "/";
      assert ProperDir(tree, tree[at]) && Proper(tree, e);
      SlashName(e.name, dirs[0]);
      var j, d := SomeEnd(tree, e.fid, dirs[1..]);
      k, dir := j + 1, d;
      assert dirs[..k][0] == dirs[0] && dirs[..k][1..] == dirs[1..][..j];
      assert j < |dirs[1..]| ==> dirs[1..][j] == dirs[k];
    }
  }

  lemma SlashName(name: string, head: string)
    requires name == head + "/"
    ensures name == Stem(name) + "/"
  {
  }

  /** The answer to a link, for any path: Done if and only if the way along its directories
      ends at a directory with room, and, unless a directory of the path is missing there, no
      entry has the last name; Full if and only if it ends at one without room; Lost if and
      only if it starts at no directory, or an entry has the last name. */
  lemma LinkAnswers(tree: Tree, at: nat, inode: nat, isDir: bool, dirs: seq<string>, name: string, order: Order)
    requires WellFormed(tree) && Plain(dirs, name)
    ensures var r := Link(tree, at, inode, isDir, Path(dirs, name), order);
            && (r.Done? <==> exists k: nat, dir: nat :: Ends(tree, at, dirs, k, dir) && dir in tree && |tree[dir]| < ROOM
                                              && !(k == |dirs| && Named(tree[dir], name)))
            && (r.Full? <==> exists k: nat, dir: nat :: Ends(tree, at, dirs, k, dir) && dir in tree && |tree[dir]| >= ROOM
                                              && !(k == |dirs| && Named(tree[dir], name)))
            && (r.Lost? <==> at !in tree || exists dir: nat :: Leads(tree, at, dirs, dir) && dir in tree && Named(tree[dir], name))
  {
    hide Link, Named, WellFormed, Path;
    if at in tree {
      var k, dir := SomeEnd(tree, at, dirs);
      LinkAt(tree, at, inode, isDir, dirs, name, order, k, dir);
      EndsInTree(tree, at, dirs, k, dir);
      if k == |dirs| { assert dirs[..k] == dirs; }
      forall k': nat, dir': nat | Ends(tree, at, dirs, k', dir') ensures LinkAtHolds(tree, at, inode, isDir, dirs, name, order, k', dir') {
        LinkAt(tree, at, inode, isDir, dirs, name, order, k', dir');
      }
      forall d: nat | Leads(tree, at, dirs, d) ensures Ends(tree, at, dirs, |dirs|, d) { assert dirs[..|dirs|] == dirs; }
    } else {
      NotADirectory(tree, at, inode, isDir, dirs, name, order);
    }
  }

  ghost predicate LinkAtHolds(tree: Tree, at: nat, inode: nat, isDir: bool, dirs: seq<string>, name: string, order: Order, k: nat, dir: nat) {
    var r := Link(tree, at, inode, isDir, Path(dirs, name), order);
    if dir !in tree || (k == |dirs| && Named(tree[dir], name)) then r.Lost?
    else if |tree[dir]| >= ROOM then r.Full? else r.Done?
  }

  lemma {:induction false} EndsInTree(tree: Tree, at: nat, dirs: seq<string>, k: nat, dir: nat)
    requires WellFormed(tree) && at in tree && Ends(tree, at, dirs, k, dir)
    ensures dir in tree
    decreases |dirs|
  {
    if k > 0 {
      assert dirs[..k][0] == dirs[0] && dirs[..k][1..] == dirs[1..][..k - 1];
      var e :| e in tree[at] && e.name == dirs[0] + "/" && Leads(tree, e.fid, dirs[1..][..k - 1], dir);
      assert ProperDir(tree, tree[at]) && Proper(tree, e);
      SlashName(e.name, dirs[0]);
      assert k < |dirs| ==> dirs[1..][k - 1] == dirs[k];
      EndsInTree(tree, e.fid, dirs[1..], k - 1, dir);
    } else {
      assert dirs[..k] == [];
    }
  }

  lemma NotADirectory(tree: Tree, at: nat, inode: nat, isDir: bool, dirs: seq<string>, name: string, order: Order)
    requires at !in tree
    ensures Link(tree, at, inode, isDir, Path(dirs, name), order).Lost?
    ensures forall k: nat, dir: nat :: Ends(tree, at, dirs, k, dir) ==> dir !in tree
  {
    forall k: nat, dir: nat | Ends(tree, at, dirs, k, dir) ensures dir !in tree {
      FirstDirs(dirs, k);
    }
  }

  lemma FirstDirs(dirs: seq<string>, k: nat)
    requires k <= |dirs|
    ensures dirs[..k] == [] <==> k == 0
  {
  }

  /** A missing directory is no refusal: linked into an empty root, "x/y" becomes one entry
      with a slash in its name, and is then not found. */
  lemma MissingDirExample()
    ensures var tree: Tree := map[1 := []]; var order: Order := s => s;
            && WellFormed(tree)
            && Link(tree, 1, 2, false, "x/y", order) == Done(map[1 := [Entry(2, "x/y")]])
            && Locate(map[1 := [Entry(2, "x/y")]], 1, 1, "x/y").None?
  {
    var tree: Tree := map[1 := [Entry(2, "x/y")]];
    SplitPath("x", "y");
    assert "x" + "/" + "y" == "x/y" && "x/y"[2..] == "y" && "x/y"[0] != '/';
    assert Matches(tree[1][0].name, "x/y");
    assert FirstFit(tree[1], "x/y") == 0;
    assert Look(tree, 1, 1, "x/y") == Locate(tree, 1, 2, "y");
    assert Locate(tree, 1, 2, "y").None?;
    var empty: Tree := map[1 := []];
    assert FirstMatch(empty[1], "x/y") == 0;
    assert empty[1] + [Entry(2, NewName("x/y", false))] == [Entry(2, "x/y")];
  }

  // ---------------------------------------------------------------- leading slashes

  /** One leading slash makes no difference, alone it is the root, and behind two of them
      nothing is found. */
  lemma LeadingSlash(tree: Tree, root: nat, at: nat, path: string)
    requires WellFormed(tree)
    ensures Locate(tree, root, at, "/" + path)
         == if path == "" then Some(root) else if path[0] == '/' then None else Locate(tree, root, at, path)
  {
    var p := "/" + path;
    assert p[1..] == path;
    if path != "" && path[0] == '/' && at in tree {
      assert ProperDir(tree, tree[at]);
      forall e | e in tree[at] ensures !Fits(e, path) {
        assert Proper(tree, e);
        NoEmptyName(tree, e, path);
      }
      FitsFirst(tree[at], path);
    }
  }

  lemma NoEmptyName(tree: Tree, e: Entry, path: string)
    requires Proper(tree, e) && path != "" && path[0] == '/'
    ensures !Fits(e, path)
  {
    FitIsStem(tree, e, path);
  }

  // ---------------------------------------------------------------- the code

  method FindSplit(path: string) returns (ns: nat)
    ensures ns == Split(path)
  {
    ns := 0;
    while ns < |path| && path[ns] != '/'
      invariant ns <= |path| && forall k :: 0 <= k < ns ==> path[k] != '/'
    {
      ns := ns + 1;
    }
  }

  /** The directories of an image that mkfs builds. */
  class Image {
    var tree: Tree

    constructor (tree: Tree)
      ensures this.tree == tree
    {
      this.tree := tree;
    }

    /** link_inode: the path linked below toinode. */
    method LinkInode(root: nat, inode: nat, isDir: bool, path: string, toinode: nat, order: Order) returns (r: Linked)
      modifies this
      ensures r == Link(old(tree), Start(root, toinode), inode, isDir, path, order)
      ensures tree == if r.Done? then r.tree else old(tree)
    {
      r := LinkBelow(inode, isDir, path, Start(root, toinode), order);
    }

    /** Down the directories, then a new entry behind the others. */
    method LinkBelow(inode: nat, isDir: bool, path: string, at: nat, order: Order) returns (r: Linked)
      modifies this
      ensures r == Link(old(tree), at, inode, isDir, path, order)
      ensures tree == if r.Done? then r.tree else old(tree)
      decreases |path|
    {
      if at !in tree {
        return Lost;
      }
      var ns := FindSplit(path);
      var entries := tree[at];
      var i := 0;
      while i < |entries| && !Matches(entries[i].name, path)
        invariant 0 <= i <= |entries| && forall k :: 0 <= k < i ==> !Matches(entries[k].name, path)
      {
        i := i + 1;
      }
      assert i == FirstMatch(entries, path);
      if i < |entries| {
        if ns == |path| {
          return Lost;
        }
        r := LinkBelow(inode, isDir, path[ns + 1..], entries[i].fid, order);
        return;
      }
      if |entries| >= ROOM {
        return Full;
      }
      tree := tree[at := order(entries + [Entry(inode, NewName(path, isDir))])];
      r := Done(tree);
    }

    /** locate: the first entry that fits each component.  An empty path leads to the
        inode given, to the superblock when that is 0. */
    method Lookup(root: nat, inode: nat, path0: string) returns (r: Found)
      ensures r == if path0 == "" then Some(inode) else Locate(tree, root, Start(root, inode), path0)
    {
      if path0 == "" {
        return Some(inode);
      }
      ghost var at0 := Start(root, inode);
      var at, path := Start(root, inode), path0;
      while path != ""
        invariant Locate(tree, root, at, path) == Locate(tree, root, at0, path0)
        decreases |path|
      {
        if path[0] == '/' {
          path := path[1..];
          if path == "" {
            return Some(root);
          }
        }
        if at !in tree {
          return None;
        }
        var ns := FindSplit(path);
        var entries := tree[at];
        var i := 0;
        while i < |entries| && !Fits(entries[i], path)
          invariant 0 <= i <= |entries| && forall k :: 0 <= k < i ==> !Fits(entries[k], path)
        {
          i := i + 1;
        }
        assert i == FirstFit(entries, path);
        if i == |entries| {
          return None;
        }
        if ns == |path| {
          return Some(entries[i].fid);
        }
        at, path := entries[i].fid, path[ns + 1..];
      }
      r := Some(at);
    }
  }
}
