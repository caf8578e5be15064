/** One backup after another, complete or stopped part-way (src/backup.rs; tests/proptest_changes.rs). */
module Jobs {
  import opened Base
  import opened Apaths
  import opened Entries
  import opened Sorting
  import opened Storage
  import opened Index
  import opened Stitch
  import opened EntryIter
  import opened BlockDirs
  import opened Content
  import opened Combining
  import opened Backup

  /** A backup of these groups, which closes its band at the end or is stopped after them. */
  datatype Job = Job(groups: seq<seq<Source>>, opts: Options, complete: bool)

  const NEW_ARCHIVE := ArchiveState(map[], map[])

  ghost function RunJob(st: ArchiveState, j: Job): ArchiveState {
    if j.complete then BackUp(st, j.groups, j.opts) else Interrupted(st, j.groups, j.opts)
  }

  /** The archive after these jobs, starting with a new one. */
  ghost function RunJobs(jobs: seq<Job>): ArchiveState
    decreases |jobs|
  {
    if jobs == [] then NEW_ARCHIVE else RunJob(RunJobs(jobs[..|jobs| - 1]), jobs[|jobs| - 1])
  }

  lemma RunJobsStep(jobs: seq<Job>, j: Job)
    ensures RunJobs(jobs + [j]) == RunJob(RunJobs(jobs), j)
  {
    assert (jobs + [j])[..|jobs|] == jobs;
  }

  // ----- the tree that each band ought to hold

  predicate PushedIsAfter(last: Option<Apath>, p: Pushed) {
    last.Some? ==> Before(last.value, p.entry.apath)
  }

  function PushedAfter(last: Option<Apath>, ps: seq<Pushed>): seq<Pushed> {
    if ps == [] then [] else (if PushedIsAfter(last, ps[0]) then [ps[0]] else []) + PushedAfter(last, ps[1..])
  }

  function LastPushed(ps: seq<Pushed>): Option<Apath> {
    if ps == [] then None else Some(ps[|ps| - 1].entry.apath)
  }

  /** What a job leaves: all that it kept, followed, if it was stopped, by the previous tree from there on. */
  ghost function TreeAfter(st: ArchiveState, j: Job, previous: seq<Pushed>): seq<Pushed> {
    var kept := KeptFrom(st, j.groups, j.opts);
    if j.complete then kept else kept + PushedAfter(LastPushed(kept), previous)
  }

  /** The tree of the last of these jobs. */
  ghost function Expected(jobs: seq<Job>): seq<Pushed>
    decreases |jobs|
  {
    if jobs == [] then []
    else
      var before := jobs[..|jobs| - 1];
      TreeAfter(RunJobs(before), jobs[|jobs| - 1], Expected(before))
  }

  lemma ExpectedStep(jobs: seq<Job>, j: Job)
    ensures Expected(jobs + [j]) == TreeAfter(RunJobs(jobs), j, Expected(jobs))
  {
    assert (jobs + [j])[..|jobs|] == jobs;
  }

  lemma {:induction false} AfterRepresents(blocks: Blocks, es: seq<IndexEntry>, ps: seq<Pushed>, last: Option<Apath>)
    requires AllRepresent(blocks, es, ps)
    ensures AllRepresent(blocks, After(last, es), PushedAfter(last, ps))
  {
    hide Before, Represents;
    if es != [] {
      assert Represents(blocks, es[0], ps[0]);
      RepresentsPath(blocks, es[0], ps[0]);
      assert AllRepresent(blocks, es[1..], ps[1..]);
      AfterRepresents(blocks, es[1..], ps[1..], last);
      if IsAfter(last, es[0]) {
        AllRepresentJoin(blocks, [es[0]], [ps[0]], After(last, es[1..]), PushedAfter(last, ps[1..]));
      } else {
        assert After(last, es) == After(last, es[1..]) && PushedAfter(last, ps) == PushedAfter(last, ps[1..]);
      }
    }
  }

  lemma RepresentsPath(blocks: Blocks, e: IndexEntry, p: Pushed)
    requires Represents(blocks, e, p)
    ensures e.apath == p.entry.apath
  {
  }

  lemma LastRepresented(blocks: Blocks, es: seq<IndexEntry>, ps: seq<Pushed>)
    requires AllRepresent(blocks, es, ps)
    ensures LastOf(es, None) == LastPushed(ps)
  {
    if es != [] {
      assert Represents(blocks, es[|es| - 1], ps[|es| - 1]);
    }
  }

  // ----- every job in turn

  /** The sources come in path order, and every combined block can be stored; anything else may fail. */
  ghost predicate GoodJob(st: ArchiveState, j: Job) {
    Increasing(SourceApath, FlattenSources(j.groups)) &&
    AllBlockStoreFailures(Begin(st.blocks, BasisOf(st.bands)), j.groups, j.opts) == 0
  }

  ghost predicate GoodJobs(jobs: seq<Job>)
    decreases |jobs|
  {
    jobs != [] ==> GoodJobs(jobs[..|jobs| - 1]) && GoodJob(RunJobs(jobs[..|jobs| - 1]), jobs[|jobs| - 1])
  }

  /** Band `k` reads back as exactly this tree. */
  ghost predicate HoldsTree(st: ArchiveState, k: nat, tree: seq<Pushed>) {
    BandOpens(st.bands, k) && AllRepresent(st.blocks, Stitched(st.bands, k, None), tree)
  }

  /** Band `k` holds the tree of job `k`. */
  ghost predicate HoldsJob(st: ArchiveState, jobs: seq<Job>, k: nat)
    requires k < |jobs|
  {
    HoldsTree(st, k, Expected(jobs[..k + 1]))
  }

  /** Bands 0 to n-1 hold the trees of the n jobs, and there are no others. */
  ghost predicate HoldsJobs(st: ArchiveState, jobs: seq<Job>) {
    WellFormed(st) && (forall b :: b in st.bands <==> 0 <= b < |jobs|) &&
    forall k :: 0 <= k < |jobs| ==> HoldsJob(st, jobs, k)
  }

  lemma KeysLast(bands: Bands, n: nat)
    requires forall b :: b in bands <==> 0 <= b < n
    ensures LastBandId(bands) == if n == 0 then None else Some(n - 1)
    ensures NextBandId(bands) == n
  {
    if n > 0 {
      assert n - 1 in bands;
    } else {
      assert bands == map[];
    }
  }

  lemma BasisIsPreviousTree(st: ArchiveState, jobs: seq<Job>)
    requires HoldsJobs(st, jobs)
    ensures AllRepresent(st.blocks, BasisOf(st.bands), Expected(jobs))
    ensures NextBandId(st.bands) == |jobs| && LastGoesOn(st.bands) && WellFormed(st)
  {
    hide Stitched, AllRepresent, WellFormed, Expected;
    KeysLast(st.bands, |jobs|);
    if jobs != [] {
      assert jobs[..|jobs| - 1 + 1] == jobs;
      assert HoldsJob(st, jobs, |jobs| - 1);
    } else {
      NothingExpected(st.blocks);
    }
  }

  lemma NothingExpected(blocks: Blocks)
    ensures Expected([]) == [] && AllRepresent(blocks, [], [])
  {
  }

  /** A tree that reads back can be taken over from. */
  lemma ReadableIsTakeable(blocks: Blocks, basis: seq<IndexEntry>, tree: seq<Pushed>, es: seq<Source>)
    requires Sound(blocks) && AllRepresent(blocks, basis, tree)
    ensures AllTakeable(basis, es)
  {
    forall b | b in basis ensures IdealContent(b.addrs).Ok? {
      var i :| 0 <= i < |basis| && basis[i] == b;
      assert Represents(blocks, basis[i], tree[i]);
      ReadableIsIdeal(blocks, b.addrs);
    }
  }

  lemma JobIsSane(st: ArchiveState, jobs: seq<Job>, j: Job)
    requires HoldsJobs(st, jobs) && GoodJob(st, j)
    ensures Sane(st, j.groups, j.opts)
  {
    hide HoldsJobs, BasisOf, Increasing;
    BasisIsPreviousTree(st, jobs);
    ReadableIsTakeable(st.blocks, BasisOf(st.bands), Expected(jobs), FlattenSources(j.groups));
  }

  lemma OlderTreeKept(st: ArchiveState, st': ArchiveState, k: nat, tree: seq<Pushed>)
    requires HoldsTree(st, k, tree) && Extends(st'.blocks, st.blocks)
    requires forall b :: 0 <= b <= k ==>
      (b in st.bands <==> b in st'.bands) && (b in st.bands ==> st.bands[b] == st'.bands[b])
    ensures HoldsTree(st', k, tree)
  {
    StitchedDependsOnOlder(st.bands, st'.bands, k, None);
    RepresentsExtends(st'.blocks, st.blocks, Stitched(st.bands, k, None), tree);
  }

  /** An open band's tree: its own entries and the previous tree after them. */
  lemma StoppedTree(blocks: Blocks, more: Blocks, written: seq<IndexEntry>, kept: seq<Pushed>,
                    basis: seq<IndexEntry>, previous: seq<Pushed>)
    requires Extends(more, blocks) && AllRepresent(more, written, kept) && AllRepresent(blocks, basis, previous)
    ensures AllRepresent(more, written + After(LastOf(written, None), basis),
      kept + PushedAfter(LastPushed(kept), previous))
  {
    hide Represents, Before;
    var last := LastOf(written, None);
    LastRepresented(more, written, kept);
    RepresentsExtends(more, blocks, basis, previous);
    AfterRepresents(more, basis, previous, last);
    AllRepresentJoin(more, written, kept, After(last, basis), PushedAfter(last, previous));
  }

  lemma NewTreeHeld(st: ArchiveState, jobs: seq<Job>, j: Job)
    requires HoldsJobs(st, jobs) && GoodJob(st, j)
    ensures
      var st' := RunJob(st, j);
      WellFormed(st') && Extends(st'.blocks, st.blocks) && st'.bands.Keys == st.bands.Keys + {|jobs|} &&
      (forall b :: b in st.bands ==> st'.bands[b] == st.bands[b]) &&
      HoldsTree(st', |jobs|, TreeAfter(st, j, Expected(jobs)))
  {
    hide HoldsJobs, GoodJob, Sane, KeptFrom, CopiedFrom, Stitched, AllRepresent, WellFormed, BasisOf, Expected;
    BasisIsPreviousTree(st, jobs);
    JobIsSane(st, jobs, j);
    if j.complete {
      BackUpReadsBack(st, j.groups, j.opts);
    } else {
      InterruptedReadsBack(st, j.groups, j.opts);
      var st' := Interrupted(st, j.groups, j.opts);
      StoppedTree(st.blocks, st'.blocks, BandEntries(st'.bands[|jobs|].hunks), KeptFrom(st, j.groups, j.opts),
                  BasisOf(st.bands), Expected(jobs));
    }
  }

  lemma JobStep(st: ArchiveState, jobs: seq<Job>, j: Job)
    requires st == RunJobs(jobs) && HoldsJobs(st, jobs) && GoodJob(st, j)
    ensures HoldsJobs(RunJob(st, j), jobs + [j])
  {
    hide RunJob, TreeAfter, Expected, GoodJob, WellFormed, HoldsTree;
    var st' := RunJob(st, j);
    NewTreeHeld(st, jobs, j);
    ExpectedStep(jobs, j);
    forall k | 0 <= k < |jobs| + 1 ensures HoldsJob(st', jobs + [j], k) {
      if k < |jobs| {
        assert (jobs + [j])[..k + 1] == jobs[..k + 1];
        assert HoldsJob(st, jobs, k);
        OlderTreeKept(st, st', k, Expected(jobs[..k + 1]));
      } else {
        assert (jobs + [j])[..k + 1] == jobs + [j];
      }
    }
  }

  lemma NoJobs()
    ensures HoldsJobs(RunJobs([]), [])
  {
  }

  lemma GoodJobsStep(jobs: seq<Job>)
    requires GoodJobs(jobs) && jobs != []
    ensures GoodJobs(jobs[..|jobs| - 1]) && GoodJob(RunJobs(jobs[..|jobs| - 1]), jobs[|jobs| - 1])
  {
  }

  /** For every sequence of backups, complete or stopped after any group, with any files failing to be read:
      as long as every combined block could be stored, every band reads back at the end as exactly what its
      own backup kept, followed, if it was stopped, by the tree before it from there on. */
  lemma {:induction false} EveryBackupReadsBack(jobs: seq<Job>)
    requires GoodJobs(jobs)
    ensures HoldsJobs(RunJobs(jobs), jobs)
    decreases |jobs|
  {
    hide *;
    if jobs == [] {
      NoJobs();
    } else {
      var before, j := jobs[..|jobs| - 1], jobs[|jobs| - 1];
      assert before + [j] == jobs;
      GoodJobsStep(jobs);
      EveryBackupReadsBack(before);
      JobStep(RunJobs(before), before, j);
      RunJobsStep(before, j);
    }
  }

  // ----- without errors, the band holds the source tree

  /** Nothing goes wrong while this entry is copied. */
  predicate ErrorFree(s: Source, opts: Options) {
    s.storeOk && (s.entry.kindMeta.FileMeta? ==> IsRead(s, opts))
  }

  /** The tree to be backed up: every entry of a known kind, with its content. */
  function TreeOf(es: seq<Source>, opts: Options): seq<Pushed> {
    if es == [] then []
    else
      var s := Prepared(es[0], opts);
      (if s.entry.kindMeta.UnknownMeta? then [] else [Pushed(s.entry, ContentOf(s, opts))]) + TreeOf(es[1..], opts)
  }

  function JobTree(j: Job): seq<Pushed> {
    TreeOf(FlattenSources(j.groups), j.opts)
  }

  predicate LooksSame(p: Pushed, e: EntryValue)
    requires e.kindMeta.FileMeta?
  {
    p.entry.apath == e.apath && p.entry.Kind() == File && p.entry.mtime == e.mtime && |p.bytes| == e.kindMeta.size
  }

  /** A file that kept its kind, time and size since the previous tree kept its content. */
  ghost predicate SameTimesSameContent(previous: seq<Pushed>, s: Source, opts: Options) {
    s.entry.kindMeta.FileMeta? ==>
      forall p :: p in previous && LooksSame(p, s.entry) ==> p.bytes == ContentOf(s, opts)
  }

  /** No errors, and times tell about the tree before. */
  ghost predicate Healthy(previous: seq<Pushed>, es: seq<Source>, opts: Options) {
    forall s :: s in es ==> ErrorFree(s, opts) && SameTimesSameContent(previous, s, opts)
  }

  lemma TakenOverIsContent(blocks: Blocks, basis: seq<IndexEntry>, previous: seq<Pushed>, w: Writer, s: Source,
                           opts: Options)
    requires Sound(blocks) && AllRepresent(blocks, basis, previous) && SameTimesSameContent(previous, s, opts)
    requires s.entry.kindMeta.FileMeta? && Unmodified(w, s) && forall b :: b in w.basis ==> b in basis
    ensures BasisContent(w, s.entry) == ContentOf(s, opts)
  {
    var b := Lookup(w.basis, s.entry.apath).value;
    var i :| 0 <= i < |basis| && basis[i] == b;
    assert Represents(blocks, basis[i], previous[i]);
    ReadableIsIdeal(blocks, b.addrs);
    assert previous[i] in previous;
  }

  lemma PreparedHealthy(previous: seq<Pushed>, s: Source, opts: Options)
    requires ErrorFree(s, opts) && SameTimesSameContent(previous, s, opts)
    ensures ErrorFree(Prepared(s, opts), opts) && SameTimesSameContent(previous, Prepared(s, opts), opts)
  {
    var t := Prepared(s, opts);
    assert s.entry.kindMeta.FileMeta? ==> forall p :: LooksSame(p, t.entry) <==> LooksSame(p, s.entry);
  }

  lemma {:induction false} KeptAllIsTree(blocks: Blocks, basis: seq<IndexEntry>, previous: seq<Pushed>,
                                         w: Writer, es: seq<Source>, opts: Options)
    requires Sound(blocks) && AllRepresent(blocks, basis, previous) && Healthy(previous, es, opts)
    requires forall b :: b in w.basis ==> b in basis
    ensures KeptAll(w, es, opts) == TreeOf(es, opts) && BlockStoreFailures(w, es, opts) == 0
    ensures forall b :: b in CopyAll(w, es, opts).basis ==> b in basis
    decreases es
  {
    hide CopyEntry, AllRepresent, IsRead, SameTimesSameContent, BasisContent, Unmodified;
    if es != [] {
      var s := Prepared(es[0], opts);
      assert es[0] in es && forall t :: t in es[1..] ==> t in es;
      PreparedHealthy(previous, es[0], opts);
      CopyKeepsBasis(w, s, opts);
      if s.entry.kindMeta.FileMeta? && Unmodified(w, s) {
        TakenOverIsContent(blocks, basis, previous, w, s, opts);
      }
      KeptAllIsTree(blocks, basis, previous, CopyEntry(w, s, opts), es[1..], opts);
    }
  }

  lemma {:induction false} TreeAppend(a: seq<Source>, b: seq<Source>, opts: Options)
    ensures TreeOf(a + b, opts) == TreeOf(a, opts) + TreeOf(b, opts)
  {
    if a == [] {
      assert a + b == b;
    } else {
      assert (a + b)[1..] == a[1..] + b;
      TreeAppend(a[1..], b, opts);
    }
  }

  lemma {:induction false} KeptTreeIsTree(blocks: Blocks, basis: seq<IndexEntry>, previous: seq<Pushed>,
                                          w: Writer, groups: seq<seq<Source>>, opts: Options)
    requires Sound(blocks) && AllRepresent(blocks, basis, previous) && Healthy(previous, FlattenSources(groups), opts)
    requires forall b :: b in w.basis ==> b in basis
    ensures KeptTree(w, groups, opts) == TreeOf(FlattenSources(groups), opts)
    ensures AllBlockStoreFailures(w, groups, opts) == 0
    decreases groups
  {
    hide CopyAll, KeptAll, AllRepresent, BlockStoreFailures, TreeOf, ErrorFree, SameTimesSameContent;
    if groups == [] {
      EmptyTree(opts);
    } else {
      var group, rest := groups[0], FlattenSources(groups[1..]);
      assert forall s :: s in group || s in rest ==> s in group + rest;
      KeptAllIsTree(blocks, basis, previous, w, group, opts);
      KeptTreeIsTree(blocks, basis, previous, FlushGroup(CopyAll(w, group, opts)), groups[1..], opts);
      TreeAppend(group, rest, opts);
    }
  }

  lemma EmptyTree(opts: Options)
    ensures TreeOf([], opts) == []
  {
  }

  /** A complete, error-free backup keeps exactly the source tree, bytes included. */
  lemma ErrorFreeKeepsTree(jobs: seq<Job>, j: Job)
    requires GoodJobs(jobs) && j.complete && Healthy(Expected(jobs), FlattenSources(j.groups), j.opts)
    ensures Expected(jobs + [j]) == JobTree(j)
    ensures Increasing(SourceApath, FlattenSources(j.groups)) ==> GoodJob(RunJobs(jobs), j)
  {
    hide RunJobs, Healthy, KeptTree, AllRepresent, TreeOf, Expected, GoodJobs, HoldsJobs, BasisOf, Increasing;
    var st := RunJobs(jobs);
    EveryBackupReadsBack(jobs);
    BasisIsPreviousTree(st, jobs);
    ExpectedStep(jobs, j);
    KeptTreeIsTree(st.blocks, BasisOf(st.bands), Expected(jobs), Begin(st.blocks, BasisOf(st.bands)), j.groups, j.opts);
  }

  /** Every job is complete and error-free over a tree in path order, and times tell since the job before it. */
  ghost predicate PlainJobs(jobs: seq<Job>)
    decreases |jobs|
  {
    jobs != [] ==>
      var before, j := jobs[..|jobs| - 1], jobs[|jobs| - 1];
      PlainJobs(before) && j.complete && Increasing(SourceApath, FlattenSources(j.groups)) &&
      Healthy(if before == [] then [] else JobTree(before[|before| - 1]), FlattenSources(j.groups), j.opts)
  }

  lemma {:induction false} PlainJobsKeepTrees(jobs: seq<Job>)
    requires PlainJobs(jobs)
    ensures GoodJobs(jobs) && Expected(jobs) == if jobs == [] then [] else JobTree(jobs[|jobs| - 1])
    decreases |jobs|
  {
    hide Healthy, JobTree, GoodJob, Increasing, TreeAfter;
    if jobs != [] {
      var before, j := jobs[..|jobs| - 1], jobs[|jobs| - 1];
      assert before + [j] == jobs;
      PlainJobsKeepTrees(before);
      ErrorFreeKeepsTree(before, j);
    }
  }

  lemma PlainPrefix(jobs: seq<Job>, k: nat)
    requires PlainJobs(jobs) && k < |jobs|
    ensures PlainJobs(jobs[..k + 1])
    decreases |jobs|
  {
    hide Healthy, JobTree, Increasing;
    if k + 1 == |jobs| {
      assert jobs[..k + 1] == jobs;
    } else {
      var before := jobs[..|jobs| - 1];
      PlainPrefix(before, k);
      assert before[..k + 1] == jobs[..k + 1];
    }
  }

  /** For every sequence of source trees backed up one after another without errors, every band reads back, at
      the end, as exactly the tree of its own backup. */
  lemma EveryTreeReadsBack(jobs: seq<Job>)
    requires PlainJobs(jobs)
    ensures forall k :: 0 <= k < |jobs| ==> HoldsTree(RunJobs(jobs), k, JobTree(jobs[k]))
  {
    hide PlainJobs, GoodJobs, RunJobs, Expected, JobTree, HoldsTree, WellFormed;
    PlainJobsKeepTrees(jobs);
    EveryBackupReadsBack(jobs);
    forall k | 0 <= k < |jobs| ensures HoldsTree(RunJobs(jobs), k, JobTree(jobs[k])) {
      PlainPrefix(jobs, k);
      PlainJobsKeepTrees(jobs[..k + 1]);
      assert HoldsJob(RunJobs(jobs), jobs, k);
    }
  }
}
