/** Backing up a tree that has not changed costs nothing: no file is read and no block stored (src/backup.rs). */
module Repeats {
  import opened Base
  import opened Apaths
  import opened Entries
  import opened Sorting
  import opened Storage
  import opened Index
  import opened Stitch
  import opened EntryIter
  import opened BlockDirs
  import opened Content
  import opened BackupStatistics
  import opened Combining
  import opened Backup
  import opened BasisLookups
  import opened Jobs
  import opened Accounting

  // ----- only files have content

  predicate OnlyFilesHold(tree: seq<Pushed>) {
    forall p :: p in tree && !p.entry.kindMeta.FileMeta? ==> p.bytes == []
  }

  lemma {:induction false} KeptAllPlain(w: Writer, es: seq<Source>, opts: Options)
    ensures OnlyFilesHold(KeptAll(w, es, opts))
    decreases es
  {
    hide CopyEntry, Unmodified, IsRead, ContentOf, BasisContent;
    if es != [] {
      KeptAllPlain(CopyEntry(w, Prepared(es[0], opts), opts), es[1..], opts);
    }
  }

  lemma {:induction false} KeptTreePlain(w: Writer, groups: seq<seq<Source>>, opts: Options)
    ensures OnlyFilesHold(KeptTree(w, groups, opts))
    decreases groups
  {
    hide CopyAll, KeptAll;
    if groups != [] {
      KeptAllPlain(w, groups[0], opts);
      KeptTreePlain(FlushGroup(CopyAll(w, groups[0], opts)), groups[1..], opts);
    }
  }

  lemma {:induction false} PushedAfterAmong(last: Option<Apath>, ps: seq<Pushed>)
    ensures forall p :: p in PushedAfter(last, ps) ==> p in ps
  {
    if ps != [] {
      PushedAfterAmong(last, ps[1..]);
    }
  }

  lemma {:induction false} ExpectedPlain(jobs: seq<Job>)
    ensures OnlyFilesHold(Expected(jobs))
    decreases |jobs|
  {
    hide KeptTree, RunJobs;
    if jobs != [] {
      var before, j := jobs[..|jobs| - 1], jobs[|jobs| - 1];
      var st := RunJobs(before);
      ExpectedPlain(before);
      KeptTreePlain(Begin(st.blocks, BasisOf(st.bands)), j.groups, j.opts);
      PushedAfterAmong(LastPushed(KeptFrom(st, j.groups, j.opts)), Expected(before));
    }
  }

  // ----- each file is taken over

  /** A stored tree, as an index and as what it holds; every file is as long as its entry says. */
  ghost predicate StoredAs(blocks: Blocks, basis: seq<IndexEntry>, tree: seq<Pushed>) {
    Sound(blocks) && InOrder(basis) && AllRepresent(blocks, basis, tree) && OnlyFilesHold(tree) &&
    forall p :: p in tree && p.entry.kindMeta.FileMeta? ==> |p.bytes| == p.entry.kindMeta.size
  }

  lemma {:induction false} ReadIsThere(blocks: Blocks, addrs: seq<Address>)
    requires ReadAll(blocks, addrs).Ok?
    ensures AllThere(blocks, addrs)
  {
    if addrs != [] {
      ReadIsThere(blocks, addrs[1..]);
      assert forall a :: a in addrs <==> a == addrs[0] || a in addrs[1..];
    }
  }

  lemma FileIsTakenOver(blocks: Blocks, basis: seq<IndexEntry>, tree: seq<Pushed>, w: Writer, s: Source, p: Pushed)
    requires StoredAs(blocks, basis, tree) && p in tree && p.entry == s.entry && s.entry.kindMeta.FileMeta?
    requires s.answered && w.blocks == blocks && Lookup(w.basis, s.entry.apath) == Lookup(basis, s.entry.apath)
    ensures CanTakeOver(basis, blocks, s) && Unmodified(w, s) && BasisContent(w, s.entry) == p.bytes
  {
    hide Lookup, InOrder, HeuristicallyUnchanged, Sound;
    var i :| 0 <= i < |tree| && tree[i] == p;
    var b := basis[i];
    assert Represents(blocks, b, p);
    ReadIsThere(blocks, b.addrs);
    LookupIs(basis, b);
    assert LooksUnchanged(b, s.entry);
    assert b in basis && AllThere(blocks, b.addrs);
    SameAtPath(basis, w, s);
    ReadableIsIdeal(blocks, b.addrs);
  }

  // ----- a whole run

  /** The counts of files that were not taken over. */
  predicate NoneOther(before: Stats, after: Stats) {
    after.files - after.unmodifiedFiles == before.files - before.unmodifiedFiles &&
    after.newFiles == before.newFiles && after.modifiedFiles == before.modifiedFiles && after.errors == before.errors
  }

  predicate NothingStored(before: Writer, after: Writer) {
    after.blocks == before.blocks && after.combiner == before.combiner && NoneOther(before.stats, after.stats)
  }

  lemma OneUnchanged(blocks: Blocks, basis: seq<IndexEntry>, tree: seq<Pushed>, w: Writer, s: Source, opts: Options)
    requires StoredAs(blocks, basis, tree) && s.answered && w.blocks == blocks
    requires Lookup(w.basis, s.entry.apath) == Lookup(basis, s.entry.apath)
    requires !s.entry.kindMeta.UnknownMeta? ==> exists p :: p in tree && p.entry == s.entry
    ensures NothingStored(w, CopyEntry(w, s, opts)) && !BlockStoreFails(w, s, opts)
    ensures s.entry.kindMeta.UnknownMeta? ==> Kept(w, s, opts) == []
    ensures forall p :: !s.entry.kindMeta.UnknownMeta? && p in tree && p.entry == s.entry ==> Kept(w, s, opts) == [p]
  {
    hide Lookup, InOrder, Sound, Unmodified, BasisContent, StoreFile, Fills, After, CountedAs;
    if s.entry.kindMeta.FileMeta? {
      hide StoredAs;
      forall p | p in tree && p.entry == s.entry ensures Kept(w, s, opts) == [p] {
        FileIsTakenOver(blocks, basis, tree, w, s, p);
        assert p == Pushed(s.entry, p.bytes);
      }
      var p :| p in tree && p.entry == s.entry;
      FileIsTakenOver(blocks, basis, tree, w, s, p);
      FileCounted(basis, w, s, opts) by { StoredInOrder(blocks, basis, tree); }
    }
  }

  lemma StoredInOrder(blocks: Blocks, basis: seq<IndexEntry>, tree: seq<Pushed>)
    requires StoredAs(blocks, basis, tree)
    ensures InOrder(basis)
  {
  }

  lemma FileCounted(basis: seq<IndexEntry>, w: Writer, s: Source, opts: Options)
    requires InOrder(basis) && s.entry.kindMeta.FileMeta? && CanTakeOver(basis, w.blocks, s)
    requires Lookup(w.basis, s.entry.apath) == Lookup(basis, s.entry.apath)
    ensures NothingStored(w, CopyEntry(w, s, opts))
  {
    hide Lookup, InOrder, CopyEntry, AllThere;
    assert RecordedAt(basis, s.entry.apath);
    TakenOverHere(basis, w, s, opts);
  }

  /** The basis answers for each of these paths as the whole basis does. */
  ghost predicate AnswersFor(w: Writer, basis: seq<IndexEntry>, es: seq<Source>) {
    InOrder(w.basis) &&
    forall s :: s in es ==> Lookup(w.basis, s.entry.apath) == Lookup(basis, s.entry.apath)
  }

  lemma StillAnswers(w: Writer, basis: seq<IndexEntry>, a: seq<Source>, b: seq<Source>, opts: Options)
    requires AnswersFor(w, basis, a + b) && Increasing(SourceApath, a + b)
    ensures AnswersFor(w, basis, a) && AnswersFor(CopyAll(w, a, opts), basis, b)
  {
    hide Before, InOrder, Lookup, CopyAll;
    assert forall s :: s in a || s in b ==> s in a + b;
    forall s | s in b ensures Lookup(CopyAll(w, a, opts).basis, s.entry.apath) == Lookup(basis, s.entry.apath) {
      forall t | t in a ensures Before(t.entry.apath, s.entry.apath) {
        GroupBeforeRest(a, b, t, s);
      }
      LookupAfterGroup(w, a, opts, s.entry.apath);
    }
    NoneBefore(w, a, opts);
  }

  /** Copying keeps the basis in order. */
  lemma {:induction false} NoneBefore(w: Writer, es: seq<Source>, opts: Options)
    requires InOrder(w.basis)
    ensures InOrder(CopyAll(w, es, opts).basis)
    decreases es
  {
    hide InOrder, CopyEntry;
    if es != [] {
      var s := Prepared(es[0], opts);
      CopyEntryBasis(w, s, opts);
      AfterInOrder(Some(s.entry.apath), w.basis);
      NoneBefore(CopyEntry(w, s, opts), es[1..], opts);
    }
  }

  lemma {:induction false} GroupUnchanged(blocks: Blocks, basis: seq<IndexEntry>, tree: seq<Pushed>, w: Writer,
                                          es: seq<Source>, part: seq<Pushed>, opts: Options)
    requires StoredAs(blocks, basis, tree) && w.blocks == blocks && (forall s :: s in es ==> s.answered)
    requires Increasing(SourceApath, es) && AnswersFor(w, basis, es)
    requires EntriesOf(part) == Wished(es, opts) && forall p :: p in part ==> p in tree
    ensures NothingStored(w, CopyAll(w, es, opts)) && BlockStoreFailures(w, es, opts) == 0
    ensures KeptAll(w, es, opts) == part
    decreases es
  {
    hide StoredAs, CopyEntry, Kept, BlockStoreFails, Lookup, InOrder, Before;
    if es == [] {
      assert part == [];
    } else {
      var s, rest := Prepared(es[0], opts), es[1..];
      var w' := CopyEntry(w, s, opts);
      assert es[0] in es && [es[0]] + rest == es && forall t :: t in rest ==> t in es;
      var known := !s.entry.kindMeta.UnknownMeta?;
      EntriesStep(part, es, opts);
      OneUnchanged(blocks, basis, tree, w, s, opts);
      StillAnswers(w, basis, [es[0]], rest, opts);
      CopyOne(w, es[0], opts);
      IncreasingParts([es[0]], rest);
      GroupUnchanged(blocks, basis, tree, w', rest, if known then part[1..] else part, opts);
      assert known ==> [part[0]] + part[1..] == part;
    }
  }

  lemma EntriesStep(part: seq<Pushed>, es: seq<Source>, opts: Options)
    requires es != [] && EntriesOf(part) == Wished(es, opts)
    ensures
      if es[0].entry.kindMeta.UnknownMeta? then EntriesOf(part) == Wished(es[1..], opts)
      else part != [] && part[0].entry == Prepared(es[0], opts).entry && EntriesOf(part[1..]) == Wished(es[1..], opts)
  {
    if !es[0].entry.kindMeta.UnknownMeta? {
      assert Wished(es, opts)[0] == Prepared(es[0], opts).entry && Wished(es, opts)[1..] == Wished(es[1..], opts);
      assert EntriesOf(part)[1..] == EntriesOf(part[1..]);
    }
  }

  lemma CopyOne(w: Writer, s: Source, opts: Options)
    ensures CopyAll(w, [s], opts) == CopyEntry(w, Prepared(s, opts), opts)
  {
    hide CopyEntry;
    assert [s][1..] == [];
  }

  /** A combiner with nothing in it. */
  predicate NothingCombined(c: Combiner) {
    c.queue == [] && c.finished == [] && c.stats == ZERO
  }

  lemma FlushNothing(w: Writer)
    requires NothingCombined(w.combiner)
    ensures NothingStored(w, FlushGroup(w)) && FlushGroup(w).basis == w.basis
  {
    hide Sort;
  }

  lemma {:induction false} SplitEntries(part: seq<Pushed>, a: seq<EntryValue>, b: seq<EntryValue>)
    requires EntriesOf(part) == a + b
    ensures |a| <= |part| && EntriesOf(part[..|a|]) == a && EntriesOf(part[|a|..]) == b
    decreases a
  {
    EntriesSize(part);
    if a == [] {
      assert part[0..] == part && a + b == b && part[..0] == [];
    } else {
      assert (a + b)[0] == a[0] && (a + b)[1..] == a[1..] + b;
      SplitEntries(part[1..], a[1..], b);
      assert part[..|a|][1..] == part[1..][..|a| - 1] && part[|a|..] == part[1..][|a| - 1..];
    }
  }

  lemma {:induction false} EntriesSize(part: seq<Pushed>)
    ensures |EntriesOf(part)| == |part|
  {
    if part != [] {
      EntriesSize(part[1..]);
    }
  }

  lemma {:induction false} RunUnchanged(blocks: Blocks, basis: seq<IndexEntry>, tree: seq<Pushed>, w: Writer,
                                        groups: seq<seq<Source>>, part: seq<Pushed>, opts: Options)
    requires StoredAs(blocks, basis, tree) && w.blocks == blocks && NothingCombined(w.combiner)
    requires forall s :: s in FlattenSources(groups) ==> s.answered
    requires Increasing(SourceApath, FlattenSources(groups)) && AnswersFor(w, basis, FlattenSources(groups))
    requires EntriesOf(part) == Wished(FlattenSources(groups), opts) && forall p :: p in part ==> p in tree
    ensures NothingStored(w, CopyGroups(w, groups, opts)) && AllBlockStoreFailures(w, groups, opts) == 0
    ensures KeptTree(w, groups, opts) == part
    decreases groups
  {
    hide StoredAs, CopyAll, FlushGroup, KeptAll, BlockStoreFailures, Wished, EntriesOf, InOrder, Lookup, Before;
    if groups == [] {
      NothingWished(part, opts);
    } else {
      var group, rest := groups[0], FlattenSources(groups[1..]);
      assert forall s :: s in group || s in rest ==> s in group + rest;
      WishedAppend(group, rest, opts);
      var n := |Wished(group, opts)|;
      SplitEntries(part, Wished(group, opts), Wished(rest, opts));
      assert part[..n] + part[n..] == part && forall p :: p in part[..n] || p in part[n..] ==> p in part;
      IncreasingParts(group, rest);
      StillAnswers(w, basis, group, rest, opts);
      GroupUnchanged(blocks, basis, tree, w, group, part[..n], opts);
      var w1 := CopyAll(w, group, opts);
      FlushNothing(w1);
      RunUnchanged(blocks, basis, tree, FlushGroup(w1), groups[1..], part[n..], opts);
    }
  }

  lemma NothingWished(part: seq<Pushed>, opts: Options)
    ensures EntriesOf(part) == Wished([], opts) ==> part == []
  {
  }

  /** After any backups, complete or stopped, whatever files failed to be read: backing up a source with exactly the
      entries that the last tree holds, each file as long as its entry says, opens no file, stores no block, counts
      every file as unmodified and none as an error; and the new band reads back as the same tree, bytes included. */
  lemma UnchangedCostsNothing(jobs: seq<Job>, j: Job)
    requires GoodJobs(jobs) && j.complete && Increasing(SourceApath, FlattenSources(j.groups))
    requires forall s :: s in FlattenSources(j.groups) ==> s.answered
    requires EntriesOf(Expected(jobs)) == Wished(FlattenSources(j.groups), j.opts)
    requires forall p :: p in Expected(jobs) && p.entry.kindMeta.FileMeta? ==> |p.bytes| == p.entry.kindMeta.size
    ensures
      var stats := CopiedFrom(RunJobs(jobs), j.groups, j.opts).stats;
      stats.unmodifiedFiles == stats.files && stats.newFiles == stats.modifiedFiles == stats.errors == 0
    ensures RunJobs(jobs + [j]).blocks == RunJobs(jobs).blocks
    ensures GoodJobs(jobs + [j]) && HoldsTree(RunJobs(jobs + [j]), |jobs|, Expected(jobs))
  {
    hide *;
    var st, tree := RunJobs(jobs), Expected(jobs);
    EveryBackupReadsBack(jobs);
    BasisIsPreviousTree(st, jobs);
    ExpectedPlain(jobs);
    BasisIsStored(st, tree);
    BeginAnswers(st, FlattenSources(j.groups));
    RunUnchanged(st.blocks, BasisOf(st.bands), tree, Begin(st.blocks, BasisOf(st.bands)), j.groups, tree, j.opts);
    JobsAfter(jobs, j);
    EveryBackupReadsBack(jobs + [j]);
    LastHolds(RunJobs(jobs + [j]), jobs, j);
  }

  lemma BasisIsStored(st: ArchiveState, tree: seq<Pushed>)
    requires WellFormed(st) && AllRepresent(st.blocks, BasisOf(st.bands), tree) && OnlyFilesHold(tree)
    requires forall p :: p in tree && p.entry.kindMeta.FileMeta? ==> |p.bytes| == p.entry.kindMeta.size
    ensures StoredAs(st.blocks, BasisOf(st.bands), tree)
  {
    hide InOrder, AllRepresent, Stitched;
    if LastBandId(st.bands).Some? {
      StitchedInOrder(st.bands, LastBandId(st.bands).value, None);
    } else {
      NothingInOrder();
    }
  }

  lemma NothingInOrder()
    ensures InOrder([])
  {
  }

  lemma BeginAnswers(st: ArchiveState, es: seq<Source>)
    requires WellFormed(st)
    ensures AnswersFor(Begin(st.blocks, BasisOf(st.bands)), BasisOf(st.bands), es)
    ensures Begin(st.blocks, BasisOf(st.bands)).blocks == st.blocks
    ensures NothingCombined(Begin(st.blocks, BasisOf(st.bands)).combiner)
  {
    hide InOrder, Stitched;
    if LastBandId(st.bands).Some? {
      StitchedInOrder(st.bands, LastBandId(st.bands).value, None);
    } else {
      NothingInOrder();
    }
  }

  lemma JobsAfter(jobs: seq<Job>, j: Job)
    requires GoodJobs(jobs) && j.complete && Increasing(SourceApath, FlattenSources(j.groups))
    requires
      var st := RunJobs(jobs);
      var w := Begin(st.blocks, BasisOf(st.bands));
      NothingStored(w, CopyGroups(w, j.groups, j.opts)) && AllBlockStoreFailures(w, j.groups, j.opts) == 0 &&
      KeptTree(w, j.groups, j.opts) == Expected(jobs)
    ensures
      var stats := CopiedFrom(RunJobs(jobs), j.groups, j.opts).stats;
      stats.unmodifiedFiles == stats.files && stats.newFiles == stats.modifiedFiles == stats.errors == 0
    ensures RunJobs(jobs + [j]).blocks == RunJobs(jobs).blocks
    ensures GoodJobs(jobs + [j]) && Expected(jobs + [j]) == Expected(jobs)
  {
    hide CopyGroups, BasisOf, AllBlockStoreFailures, KeptTree, Increasing;
    ExpectedStep(jobs, j);
    RunJobsStep(jobs, j);
    assert (jobs + [j])[..|jobs|] == jobs;
  }

  lemma LastHolds(st: ArchiveState, jobs: seq<Job>, j: Job)
    requires HoldsJobs(st, jobs + [j]) && Expected(jobs + [j]) == Expected(jobs)
    ensures HoldsTree(st, |jobs|, Expected(jobs))
  {
    hide Expected, HoldsTree;
    assert (jobs + [j])[..|jobs| + 1] == jobs + [j];
    assert HoldsJob(st, jobs + [j], |jobs|);
  }
}
