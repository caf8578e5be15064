/** The counters a backup reports (src/backup.rs). */
module BackupStatistics {
  datatype Stats = Stats(
    files: nat, symlinks: nat, directories: nat, unknownKind: nat,
    unmodifiedFiles: nat, modifiedFiles: nat, newFiles: nat, replacedDamagedBlocks: nat,
    deduplicatedBytes: nat, uncompressedBytes: nat, deduplicatedBlocks: nat, writtenBlocks: nat,
    combinedBlocks: nat, emptyFiles: nat, smallCombinedFiles: nat, singleBlockFiles: nat, multiBlockFiles: nat,
    errors: nat)
  {
    function Plus(o: Stats): Stats {
      Stats(files + o.files, symlinks + o.symlinks, directories + o.directories, unknownKind + o.unknownKind,
            unmodifiedFiles + o.unmodifiedFiles, modifiedFiles + o.modifiedFiles, newFiles + o.newFiles,
            replacedDamagedBlocks + o.replacedDamagedBlocks,
            deduplicatedBytes + o.deduplicatedBytes, uncompressedBytes + o.uncompressedBytes,
            deduplicatedBlocks + o.deduplicatedBlocks, writtenBlocks + o.writtenBlocks,
            combinedBlocks + o.combinedBlocks, emptyFiles + o.emptyFiles,
            smallCombinedFiles + o.smallCombinedFiles, singleBlockFiles + o.singleBlockFiles,
            multiBlockFiles + o.multiBlockFiles, errors + o.errors)
    }

    /** Count a block handed to the store. */
    function CountBlock(len: nat, deduplicated: bool): Stats {
      if deduplicated
      then this.(deduplicatedBlocks := deduplicatedBlocks + 1, deduplicatedBytes := deduplicatedBytes + len)
      else this.(writtenBlocks := writtenBlocks + 1, uncompressedBytes := uncompressedBytes + len)
    }

    /** The files that were stored again or for the first time, by how they were stored. */
    function StoredFiles(): nat {
      emptyFiles + smallCombinedFiles + singleBlockFiles + multiBlockFiles
    }

    function HandledBytes(): nat {
      deduplicatedBytes + uncompressedBytes
    }
  }

  const ZERO := Stats(0, 0, 0, 0, 0, 0, 0, 0, 0, 0, 0, 0, 0, 0, 0, 0, 0, 0)

  /** Files not classified as unmodified, modified or new. */
  function Unclassified(st: Stats): int {
    st.files - st.unmodifiedFiles - st.modifiedFiles - st.newFiles
  }

  /** Files to be stored that are not counted as empty, combined, in one block, in many, or in error. */
  function Unaccounted(st: Stats): int {
    st.newFiles + st.modifiedFiles - st.StoredFiles() - st.errors
  }

  lemma NothingClassified()
    ensures Unclassified(ZERO) == 0
  {
  }

  lemma NothingCounted()
    ensures Unaccounted(ZERO) == 0
  {
  }

  /** Counts add up whatever the order in which parts of a backup are counted. */
  lemma PlusLaws(a: Stats, b: Stats, c: Stats)
    ensures a.Plus(b) == b.Plus(a) && a.Plus(b).Plus(c) == a.Plus(b.Plus(c)) && a.Plus(ZERO) == a
  {
  }
}
