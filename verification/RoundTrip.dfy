/** From a source tree to an archive and back to a directory (src/backup.rs, src/restore.rs). */
module RoundTrips {
  import opened Base
  import opened Apaths
  import opened Entries
  import opened Sorting
  import opened Storage
  import opened Index
  import opened Stitch
  import opened EntryIter
  import opened Content
  import opened Combining
  import opened Backup
  import opened Jobs
  import opened TreeBackups
  import opened Restores
  import LiveTree

  // ----- what is above something in a tree is in the tree

  lemma NameIsValid(p: Apath, i: nat)
    requires IsValid(p) && i < |Names(p)|
    ensures ValidName(Names(p)[i]) && '/' !in Names(p)[i]
  {
    PartsHaveNoSlash(p[1..]);
    assert Names(p)[i] in Split(p[1..]);
  }

  lemma {:induction false} PathAbove(p: Apath, k: nat) returns (q: Apath)
    requires IsValid(p) && k <= |Names(p)|
    ensures IsValid(q) && Names(q) == Names(p)[..k]
  {
    if k == 0 {
      q := Root;
    } else {
      var d := PathAbove(p, k - 1);
      NameIsValid(p, k - 1);
      AppendNames(d, Names(p)[k - 1]);
      q := Append(d, Names(p)[k - 1]);
      assert Names(p)[..k - 1] + [Names(p)[k - 1]] == Names(p)[..k];
    }
  }

  lemma FolderHasDirMeta(root: LiveTree.Node, q: Apath)
    requires LiveTree.WellFormed(root) && IsValid(q) && LiveTree.Listable(root, q)
    ensures LiveTree.NodeAt(root, q).value.attrs.kindMeta == DirMeta
  {
    LiveTree.ResolveWellFormed(root, Names(q));
  }

  /** Every path above something in a tree is in the tree, as a directory. */
  lemma AboveInTree(t: SourceTree, e: EntryValue, q: Apath) returns (d: EntryValue)
    requires Walkable(t) && InTree(t, e) && IsValid(q) && Names(q) < Names(e.apath)
    ensures InTree(t, d) && d.apath == q && d.kindMeta == DirMeta
  {
    hide LiveTree.NodeAt, LiveTree.WellFormed, LiveTree.Shown, LiveTree.Listable, IsValid, Names;
    RootNode(t.root);
    RootHasNoNames();
    assert LiveTree.Listable(t.root, q);
    FolderHasDirMeta(t.root, q);
    ListableIsThere(t.root, q);
    d := LiveTree.EntryOf(q, LiveTree.NodeAt(t.root, q).value);
    LiveTree.EntryDescribes(t.root, q, d);
    if q != Root {
      NotRoot(q);
    }
  }

  lemma RootHasNoNames()
    ensures IsValid(Root) && Names(Root) == []
  {
  }

  lemma NotRoot(q: Apath)
    requires IsValid(q) && q != Root
    ensures Names(q) != []
  {
    RootHasNoNames();
    if Names(q) == [] {
      NamesInjective(q, Root);
    }
  }

  lemma ListableIsThere(root: LiveTree.Node, q: Apath)
    requires IsValid(q) && LiveTree.Listable(root, q)
    ensures LiveTree.NodeAt(root, q).Some? && !LiveTree.NodeAt(root, q).value.Special?
  {
  }

  // ----- so what is stored of a tree can be restored

  lemma SameNode(t: SourceTree, d: EntryValue, e: EntryValue)
    requires InTree(t, d) && InTree(t, e) && d.apath == e.apath
    ensures d.kindMeta == e.kindMeta
  {
    hide LiveTree.NodeAt, LiveTree.Visible, IsValid;
  }

  /** What the entries of a stored tree are like. */
  ghost predicate Restorable(es: seq<IndexEntry>) {
    ValidPaths(es) && Treelike(es) && Closed(es) &&
    forall x :: x in es ==>
      !x.kind.Unknown? && (x.kind.Symlink? ==> x.target.Some?) && (Names(x.apath) == [] ==> x.kind.Dir?)
  }

  lemma EntryOfTree(bands: Bands, k: nat, t: SourceTree, opts: Options, x: IndexEntry) returns (e: EntryValue)
    requires Walkable(t) && HoldsExactly(bands, k, t, opts) && x in Stitched(bands, k, None)
    ensures InTree(t, e) && IsValid(x.apath) && e.apath == x.apath && x.kind == e.Kind() && !x.kind.Unknown?
    ensures x.kind.Symlink? ==> x.target.Some?
  {
    hide Walkable, InTree, Stitched, IsValid, LiveTree.Visible, LiveTree.Describes;
    assert IsOfTree(t, x, opts);
    e :| InTree(t, e) && !e.kindMeta.UnknownMeta? && SameMetadata(x, StoredAs(e, opts));
    InTreeIsValid(t, e);
  }

  lemma InTreeIsValid(t: SourceTree, e: EntryValue)
    requires InTree(t, e)
    ensures IsValid(e.apath)
  {
  }

  lemma DirectoryStored(bands: Bands, k: nat, t: SourceTree, opts: Options, d: EntryValue)
    requires Walkable(t) && HoldsExactly(bands, k, t, opts) && InTree(t, d) && d.kindMeta == DirMeta
    ensures exists x :: x in Stitched(bands, k, None) && x.kind.Dir? && x.apath == d.apath
  {
    hide Walkable, InTree, Stitched, IsOfTree;
    assert StoresEntry(Stitched(bands, k, None), d, opts);
    var x :| x in Stitched(bands, k, None) && SameMetadata(x, StoredAs(d, opts));
  }

  lemma RootInTree(t: SourceTree) returns (e: EntryValue)
    requires Walkable(t) && t.root.Directory?
    ensures InTree(t, e) && e.apath == Root && e.kindMeta == DirMeta
  {
    hide LiveTree.Visible, IsValid;
    RootNode(t.root);
    e := LiveTree.EntryOf(Root, t.root);
    LiveTree.EntryDescribes(t.root, Root, e);
  }

  lemma TreeIsRestorable(bands: Bands, k: nat, t: SourceTree, opts: Options)
    requires Walkable(t) && t.root.Directory? && HoldsExactly(bands, k, t, opts)
    ensures Restorable(Stitched(bands, k, None))
  {
    hide Walkable, InTree, Stitched, HoldsExactly, IsValid, Names;
    var es := Stitched(bands, k, None);
    forall x | x in es
      ensures IsValid(x.apath) && !x.kind.Unknown? && (x.kind.Symlink? ==> x.target.Some?) &&
        (Names(x.apath) == [] ==> x.kind.Dir?)
    {
      var e := EntryOfTree(bands, k, t, opts, x);
      RootHasNoNames();
      if Names(x.apath) == [] {
        NamesInjective(x.apath, Root);
        var root := RootInTree(t);
        SameNode(t, e, root);
      }
    }
    forall d, x | d in es && x in es && Names(d.apath) < Names(x.apath) ensures d.kind.Dir? {
      var e := EntryOfTree(bands, k, t, opts, x);
      var f := EntryOfTree(bands, k, t, opts, d);
      var g := AboveInTree(t, e, d.apath);
      SameNode(t, f, g);
    }
    forall x, i | x in es && 0 <= i < |Names(x.apath)| ensures HasDirectory(es, Names(x.apath)[..i]) {
      var e := EntryOfTree(bands, k, t, opts, x);
      var q := PathAbove(x.apath, i);
      var d := AboveInTree(t, e, q);
      DirectoryStored(bands, k, t, opts, d);
    }
  }

  // ----- there and back

  /** Something of a known kind is in the tree here. */
  ghost predicate AtLocation(t: SourceTree, q: Location) {
    exists e :: InTree(t, e) && IsValid(e.apath) && !e.kindMeta.UnknownMeta? && Names(e.apath) == q
  }

  /** What a source had is on disk again. */
  ghost predicate GivenBack(disk: Disk, things: Things, s: Source, opts: Options) {
    var e := s.entry;
    IsValid(e.apath) && Names(e.apath) in things &&
    var t := things[Names(e.apath)];
    t.attrs.time == e.mtime && (e.unixMode.Some? && !e.kindMeta.SymlinkMeta? ==> t.attrs.mode == e.unixMode.value) &&
    (opts.owner && disk.mayChown ==>
      (e.owner.user.Some? && disk.known(e.owner.user.value) ==> t.attrs.user == e.owner.user.value) &&
      (e.owner.group.Some? && disk.known(e.owner.group.value) ==> t.attrs.group == e.owner.group.value)) &&
    match e.kindMeta
    case DirMeta => t.Folder?
    case FileMeta(_) => t.Regular? && t.bytes == ContentOf(Prepared(s, opts), opts)
    case SymlinkMeta(target) => t.Link? && t.target == target
    case UnknownMeta => false
  }

  lemma RestoredIsGiven(disk: Disk, things: Things, blocks: Blocks, x: IndexEntry, s: Source, opts: Options)
    requires IsValid(x.apath) && Restored(disk, things, blocks, x) && !s.entry.kindMeta.UnknownMeta?
    requires Represents(blocks, x, Pushed(StoredAs(s.entry, opts), ContentOf(Prepared(s, opts), opts)))
    ensures GivenBack(disk, things, s, opts)
  {
    hide IsValid, Names, ContentOf, ReadAll;
  }

  /** Restoring a band that holds a tree fails nowhere. */
  lemma NoneFails(st: ArchiveState, k: nat, tree: seq<Pushed>, es: seq<IndexEntry>, things: Things,
                  failed: set<IndexEntry>)
    requires es == Stitched(st.bands, k, None) && HoldsTree(st, k, tree) && Restorable(es) && InOrder(es)
    requires (forall e :: e in failed ==> e in es) && ExactRestoration(things, st.blocks, es, failed)
    ensures failed == {}
  {
    hide Names, IsValid, Treelike, Closed, InOrder, Stitched, SameMetadata, ReadAll, Succeeds, Laid, ShapesOf;
    forall e | e in failed ensures false {
      var i :| 0 <= i < |es| && es[i] == e;
      assert Represents(st.blocks, es[i], tree[i]);
      ClosedRestores(es, i, st.blocks);
    }
  }

  lemma EveryLocation(bands: Bands, k: nat, t: SourceTree, opts: Options, disk: Disk, things: Things, blocks: Blocks,
                      q: Location)
    requires Walkable(t) && t.root.Directory? && HoldsExactly(bands, k, t, opts)
    requires
      var es := Stitched(bands, k, None);
      Restorable(es) && InOrder(es) && ShapesOf(things) == Laid(es) && Restoration(disk, things, blocks, es, {})
    ensures q in things <==> AtLocation(t, q)
  {
    hide Walkable, InTree, Stitched, HoldsExactly, IsValid, Names, Treelike, Closed, InOrder, Laid, Restored, OnTheWay;
    var es := Stitched(bands, k, None);
    if q in things {
      assert q in ShapesOf(things);
      ClosedLaid(es, q);
      if q == [] {
        var e := RootInTree(t);
        RootHasNoNames();
      } else {
        var x :| x in es && Names(x.apath) == q;
        var e := EntryOfTree(bands, k, t, opts, x);
      }
    }
    if AtLocation(t, q) {
      var e :| InTree(t, e) && IsValid(e.apath) && !e.kindMeta.UnknownMeta? && Names(e.apath) == q;
      var x := KnownStored(bands, k, t, opts, e);
      RestoredIsThere(disk, things, blocks, x);
    }
  }

  lemma KnownStored(bands: Bands, k: nat, t: SourceTree, opts: Options, e: EntryValue) returns (x: IndexEntry)
    requires Walkable(t) && HoldsExactly(bands, k, t, opts) && InTree(t, e) && !e.kindMeta.UnknownMeta?
    ensures x in Stitched(bands, k, None) && x.apath == e.apath
  {
    hide Walkable, InTree, Stitched, IsOfTree;
    assert StoresEntry(Stitched(bands, k, None), e, opts);
    x :| x in Stitched(bands, k, None) && SameMetadata(x, StoredAs(e, opts));
  }

  lemma RestoredIsThere(disk: Disk, things: Things, blocks: Blocks, x: IndexEntry)
    requires IsValid(x.apath) && Restored(disk, things, blocks, x)
    ensures Names(x.apath) in things
  {
  }

  /** The stored tree of any band made by walking trees and backing them up without errors can be given to the restore
      method. */
  lemma StoredCanBeRestored(jobs: seq<Job>, trees: seq<SourceTree>, k: nat)
    requires TreeJobs(jobs, trees) && k < |jobs| && trees[k].root.Directory?
    ensures
      var st, es := RunJobs(jobs), StoredTree(RunJobs(jobs).bands, k);
      WellFormed(st) && es == Stitched(st.bands, k, None) && Restorable(es) && InOrder(es) && NothingBelowLinks(es)
  {
    hide TreeJobs, PlainJobs, GoodJobs, RunJobs, HoldsTree, HoldsExactly, JobTree, Walkable, BacksUp, HoldsJob,
      Expected, Names, IsValid, Stitched, Selected, Closed;
    var st := RunJobs(jobs);
    TreeJobsArePlain(jobs, trees);
    PlainJobsKeepTrees(jobs);
    EveryBackupReadsBack(jobs);
    EveryWalkReadsBack(jobs, trees, k);
    TreeIsRestorable(st.bands, k, trees[k], jobs[k].opts);
    StitchedInOrder(st.bands, k, None);
    SelectAll(Stitched(st.bands, k, None));
  }

  /** For every sequence of trees walked and backed up one after another without errors, and every band: where nothing
      is at fault, restoring it to an empty directory gives back that tree.  There is something exactly at the places
      where the tree has something of a known kind, and each has its kind, content or target, time, mode, and owner as
      far as it was kept, is known and may be set. */
  lemma BackupThenRestore(jobs: seq<Job>, trees: seq<SourceTree>, k: nat, disk: Disk, things: Things,
                          failed: set<IndexEntry>)
    requires TreeJobs(jobs, trees) && k < |jobs| && trees[k].root.Directory?
    requires
      var st, es := RunJobs(jobs), StoredTree(RunJobs(jobs).bands, k);
      ValidPaths(es) && Restoration(disk, things, st.blocks, es, failed) &&
      ExactRestoration(things, st.blocks, es, failed)
    ensures failed == {} && forall q :: q in things <==> AtLocation(trees[k], q)
    ensures forall s :: s in FlattenSources(jobs[k].groups) && !s.entry.kindMeta.UnknownMeta? ==>
      GivenBack(disk, things, s, jobs[k].opts)
  {
    hide TreeJobs, PlainJobs, RunJobs, HoldsExactly, Walkable, BacksUp, Names, IsValid, Stitched, Selected, Restorable,
      AtLocation, GivenBack, Laid, ShapesOf, Succeeds, Restored, TreeOf, ContentOf, OnTheWay, Represents;
    var st, es, opts := RunJobs(jobs), StoredTree(RunJobs(jobs).bands, k), jobs[k].opts;
    TreeJobsArePlain(jobs, trees);
    StoredCanBeRestored(jobs, trees, k);
    EveryWalkReadsBack(jobs, trees, k);
    NoneFails(st, k, JobTree(jobs[k]), es, things, failed);
    forall q ensures q in things <==> AtLocation(trees[k], q) {
      EveryLocation(st.bands, k, trees[k], opts, disk, things, st.blocks, q);
    }
    forall s | s in FlattenSources(jobs[k].groups) && !s.entry.kindMeta.UnknownMeta?
      ensures GivenBack(disk, things, s, opts)
    {
      TreeHas(FlattenSources(jobs[k].groups), opts, s);
      var n :| 0 <= n < |JobTree(jobs[k])| &&
        JobTree(jobs[k])[n] == Pushed(StoredAs(s.entry, opts), ContentOf(Prepared(s, opts), opts));
      assert Represents(st.blocks, es[n], JobTree(jobs[k])[n]);
      assert es[n] in es;
      RestoredIsGiven(disk, things, st.blocks, es[n], s, opts);
    }
  }
}
