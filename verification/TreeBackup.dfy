/** From a source tree to a band: what the walk finds is what a backup keeps (src/live_tree.rs, src/backup.rs). */
module TreeBackups {
  import opened Base
  import opened Apaths
  import opened Entries
  import opened Sorting
  import opened Storage
  import opened Stitch
  import opened Combining
  import opened Backup
  import opened Jobs
  import LiveTree

  /** A source tree, and which paths are excluded. */
  datatype SourceTree = SourceTree(root: LiveTree.Node, exclude: Apath -> bool)

  ghost predicate Walkable(t: SourceTree) {
    LiveTree.WellFormed(t.root) && !t.root.Special?
  }

  lemma RootNode(root: LiveTree.Node)
    ensures IsValid(Root) && LiveTree.NodeAt(root, Root) == Some(root)
  {
  }

  ghost function Walked(t: SourceTree): seq<EntryValue>
    requires Walkable(t)
  {
    RootNode(t.root);
    LiveTree.Walk(t.exclude, t.root, Root)
  }

  /** The root, or something visible below it, with the metadata of what is there. */
  ghost predicate InTree(t: SourceTree, e: EntryValue) {
    RootNode(t.root);
    IsValid(e.apath) && (e.apath == Root || LiveTree.Visible(t.exclude, t.root, Root, e.apath)) &&
    LiveTree.Describes(t.root, e)
  }

  lemma WalkedCorrect(t: SourceTree)
    requires Walkable(t)
    ensures Increasing(SourceKey, Walked(t)) && forall e :: e in Walked(t) <==> InTree(t, e)
  {
    hide LiveTree.Visible, LiveTree.Describes;
    RootNode(t.root);
    forall e ensures e in Walked(t) <==> InTree(t, e) {
      LiveTree.WalkHolds(t.exclude, t.root, Root, e);
    }
    LiveTree.WalkCorrect(t.exclude, t.root, Root);
  }

  /** The entries that the walk yields, in any groups, with what happened to each. */
  ghost predicate BacksUp(j: Job, t: SourceTree)
    requires Walkable(t)
  {
    var es := FlattenSources(j.groups);
    |es| == |Walked(t)| && forall i :: 0 <= i < |es| ==> es[i].entry == Walked(t)[i]
  }

  /** So sources always arrive in path order. */
  lemma WalkArrivesInOrder(j: Job, t: SourceTree)
    requires Walkable(t) && BacksUp(j, t)
    ensures Increasing(SourceApath, FlattenSources(j.groups))
  {
    hide Before, Walked;
    WalkedCorrect(t);
    var es, walked := FlattenSources(j.groups), Walked(t);
    forall i, k | 0 <= i < k < |es| ensures Before(SourceApath(es[i]), SourceApath(es[k])) {
      assert Before(SourceKey(walked[i]), SourceKey(walked[k]));
    }
  }

  // ----- what the tree of a job holds

  /** An entry as it is stored: without its owner, unless that is wanted. */
  function StoredAs(e: EntryValue, opts: Options): EntryValue {
    if opts.owner then e else e.(owner := Owner(None, None))
  }

  lemma {:induction false} TreeHas(es: seq<Source>, opts: Options, s: Source)
    requires s in es && !s.entry.kindMeta.UnknownMeta?
    ensures Pushed(StoredAs(s.entry, opts), ContentOf(Prepared(s, opts), opts)) in TreeOf(es, opts)
  {
    hide ContentOf;
    if s != es[0] {
      TreeHas(es[1..], opts, s);
    }
  }

  lemma {:induction false} TreeFrom(es: seq<Source>, opts: Options, p: Pushed) returns (s: Source)
    requires p in TreeOf(es, opts)
    ensures s in es && !s.entry.kindMeta.UnknownMeta? && p.entry == StoredAs(s.entry, opts)
  {
    hide ContentOf;
    if p in TreeOf(es[1..], opts) {
      s := TreeFrom(es[1..], opts, p);
    } else {
      s := es[0];
    }
  }

  predicate StoresEntry(stored: seq<IndexEntry>, e: EntryValue, opts: Options) {
    exists x :: x in stored && SameMetadata(x, StoredAs(e, opts))
  }

  ghost predicate IsOfTree(t: SourceTree, x: IndexEntry, opts: Options)
    requires Walkable(t)
  {
    exists e :: InTree(t, e) && !e.kindMeta.UnknownMeta? && SameMetadata(x, StoredAs(e, opts))
  }

  /** The band holds every entry of known kind in the tree, and nothing else. */
  ghost predicate HoldsExactly(bands: Bands, k: nat, t: SourceTree, opts: Options)
    requires Walkable(t)
  {
    var stored := Stitched(bands, k, None);
    (forall e :: InTree(t, e) && !e.kindMeta.UnknownMeta? ==> StoresEntry(stored, e, opts)) &&
    forall x :: x in stored ==> IsOfTree(t, x, opts)
  }

  lemma TreeHeldExactly(st: ArchiveState, k: nat, j: Job, t: SourceTree)
    requires Walkable(t) && BacksUp(j, t) && HoldsTree(st, k, JobTree(j))
    ensures HoldsExactly(st.bands, k, t, j.opts)
  {
    hide Walked, InTree, Walkable, Stitched, TreeOf, SameMetadata;
    WalkedCorrect(t);
    var es, stored, tree := FlattenSources(j.groups), Stitched(st.bands, k, None), JobTree(j);
    forall e | InTree(t, e) && !e.kindMeta.UnknownMeta? ensures StoresEntry(stored, e, j.opts) {
      var i :| 0 <= i < |Walked(t)| && Walked(t)[i] == e;
      TreeHas(es, j.opts, es[i]);
      var p := Pushed(StoredAs(e, j.opts), ContentOf(Prepared(es[i], j.opts), j.opts));
      var n :| 0 <= n < |tree| && tree[n] == p;
      assert Represents(st.blocks, stored[n], tree[n]);
    }
    forall x | x in stored ensures IsOfTree(t, x, j.opts) {
      var n :| 0 <= n < |stored| && stored[n] == x;
      assert Represents(st.blocks, stored[n], tree[n]);
      var s := TreeFrom(es, j.opts, tree[n]);
      var i :| 0 <= i < |es| && es[i] == s;
      assert s.entry in Walked(t);
    }
  }

  // ----- one tree after another

  /** Each tree is walked and backed up completely and without errors, and times tell since the one before. */
  ghost predicate TreeJobs(jobs: seq<Job>, trees: seq<SourceTree>)
    decreases |jobs|
  {
    |jobs| == |trees| &&
    (jobs != [] ==>
      var before, j, t := jobs[..|jobs| - 1], jobs[|jobs| - 1], trees[|jobs| - 1];
      TreeJobs(before, trees[..|jobs| - 1]) && j.complete && Walkable(t) && BacksUp(j, t) &&
      Healthy(if before == [] then [] else JobTree(before[|before| - 1]), FlattenSources(j.groups), j.opts))
  }

  lemma {:induction false} TreeJobsArePlain(jobs: seq<Job>, trees: seq<SourceTree>)
    requires TreeJobs(jobs, trees)
    ensures |jobs| == |trees| && PlainJobs(jobs)
    ensures forall k :: 0 <= k < |jobs| ==> Walkable(trees[k]) && BacksUp(jobs[k], trees[k])
    decreases |jobs|
  {
    hide Healthy, JobTree, Increasing, Walkable, BacksUp;
    if jobs != [] {
      TreeJobsArePlain(jobs[..|jobs| - 1], trees[..|jobs| - 1]);
      WalkArrivesInOrder(jobs[|jobs| - 1], trees[|jobs| - 1]);
    }
  }

  /** For every sequence of trees on disk, walked and backed up one after another without errors: in the end every band
      holds the root and exactly what was found below it, each file with its content. */
  lemma EveryWalkReadsBack(jobs: seq<Job>, trees: seq<SourceTree>, k: nat)
    requires TreeJobs(jobs, trees) && k < |jobs|
    ensures Walkable(trees[k]) && HoldsTree(RunJobs(jobs), k, JobTree(jobs[k]))
    ensures HoldsExactly(RunJobs(jobs).bands, k, trees[k], jobs[k].opts)
  {
    hide TreeJobs, PlainJobs, RunJobs, HoldsTree, HoldsExactly, JobTree, Walkable, BacksUp;
    TreeJobsArePlain(jobs, trees);
    EveryTreeReadsBack(jobs);
    TreeHeldExactly(RunJobs(jobs), k, jobs[k], trees[k]);
  }
}
