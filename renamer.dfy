/**
 * The rename engine of the form: the files on disk, the existing
 * directories and the journal of the last batch (`lastRenameMapping`),
 * with the batch rename, its automatic rollback and the single-level undo.
 * Dialog confirmations are boolean inputs and message boxes are returned
 * result values.
 */
module FileRenamer {
  import opened Options
  import opened Naming
  import opened Journal

  /** What a click on "rename" ends with. */
  datatype BatchResult =
    | InvalidFolder          // no folder chosen, or it does not exist
    | NoFiles                // the folder holds no file
    | Declined               // the user did not confirm
    | Renamed(count: nat)    // every file was renamed
    | Collision(name: string) // a file with this new name already existed; rolled back
    | MoveError(at: Rename)  // this move failed; rolled back

  /** What a click on "undo" ends with. */
  datatype UndoResult =
    | NothingToUndo          // the journal is empty
    | UndoDeclined           // the user did not confirm
    | Undone                 // every entry was reverted; the journal is cleared
    | UndoError(at: Rename)  // moving this entry back failed; the journal is kept

  /** String.IsNullOrWhiteSpace, for the ASCII white-space characters. */
  predicate IsBlank(s: string) {
    forall i :: 0 <= i < |s| ==> s[i] in {' ', '\t', '\n', '\r', '\U{0B}', '\U{0C}'}
  }

  /**
   * With distinct listed files that all exist, no new name taken yet and no
   * move refused, a batch over the listing renames every file.
   */
  lemma CleanListingFinishes(fs: Files, listing: seq<Path>, p: Params, faults: set<Rename>)
    requires forall k :: 0 <= k < |listing| ==> listing[k] in fs
    requires forall j, k :: 0 <= j < k < |listing| ==> listing[j] != listing[k]
    requires forall k :: 0 <= k < |listing| ==> Plan(listing, p)[k].target !in fs
    requires NoFaults(Plan(listing, p), faults)
    ensures Attempt(fs, Plan(listing, p), faults).stop.Finished?
    ensures Attempt(fs, Plan(listing, p), faults).done == |listing|
  {
    PlanTargetsDistinct(listing, p);
    CleanBatchFinishes(fs, Plan(listing, p), faults);
  }

  class Renamer {
    /** The files on disk (File.Exists). */
    var files: set<Path>
    /** The directories on disk (Directory.Exists). */
    var dirs: set<string>
    /** The moves of the last batch, in the order they were performed. */
    var journal: seq<Rename>

    constructor (files0: set<Path>, dirs0: set<string>)
      ensures files == files0 && dirs == dirs0 && journal == []
    {
      files := files0;
      dirs := dirs0;
      journal := [];
    }

    /** File.Move on the modelled filesystem. */
    method MoveFile(from: Path, to: Path, faults: set<Rename>) returns (ok: bool)
      modifies this`files
      ensures Move(old(files), from, to, faults) == if ok then Some(files) else None
      ensures !ok ==> files == old(files)
    {
      ok := from in files && to !in files && Rename(from, to) !in faults;
      if ok {
        files := files - {from} + {to};
      }
    }

    /**
     * UndoRenames: reverts every journal entry, last first, skipping
     * entries whose new path holds no file and ignoring failed moves, then
     * clears the journal.
     */
    method RollBack(faults: set<Rename>)
      modifies this`files, this`journal
      ensures files == RollbackSteps(old(files), old(journal), faults)
      ensures journal == []
    {
      var i := |journal|;
      assert journal[..i] == journal;
      while i > 0
        invariant 0 <= i <= |journal| && journal == old(journal)
        invariant RollbackSteps(old(files), journal, faults) == RollbackSteps(files, journal[..i], faults)
      {
        assert journal[..i][..i - 1] == journal[..i - 1];
        i := i - 1;
        var e := journal[i];
        if e.target in files {
          var _ := MoveFile(e.target, e.original, faults);
        }
      }
      journal := [];
    }

    /**
     * The rename button: checks the folder and the listing, asks for
     * confirmation, clears the journal, then runs the batch.
     * `listing` is what Directory.GetFiles returns for `folder`.
     */
    method RenameAll(folder: string, listing: seq<Path>, p: Params, confirmed: bool, faults: set<Rename>)
      returns (r: BatchResult)
      modifies this`files, this`journal
      ensures IsBlank(folder) || folder !in dirs ==>
        r == InvalidFolder && files == old(files) && journal == old(journal)
      ensures !IsBlank(folder) && folder in dirs && listing == [] ==>
        r == NoFiles && files == old(files) && journal == old(journal)
      ensures !IsBlank(folder) && folder in dirs && listing != [] && !confirmed ==>
        r == Declined && files == old(files) && journal == old(journal)
      ensures !IsBlank(folder) && folder in dirs && listing != [] && confirmed ==>
        var plan := Plan(listing, p);
        var run := Attempt(old(files), plan, faults);
        match run.stop
        case Finished =>
          r == Renamed(|listing|) && journal == plan && files == run.files
        case Collided(name) =>
          r == Collision(name) && journal == [] && files == RollbackSteps(run.files, plan[..run.done], faults)
        case Failed(e) =>
          r == MoveError(e) && journal == [] && files == RollbackSteps(run.files, plan[..run.done], faults)
    {
      if IsBlank(folder) || folder !in dirs {
        return InvalidFolder;
      }
      if listing == [] {
        return NoFiles;
      }
      if !confirmed {
        return Declined;
      }
      journal := [];
      r := RunBatch(listing, p, faults);
    }

    /**
     * The loop of the rename button, after the journal is cleared: renames the listed files in
     * order to "X-YYY-ZZ <name>", journalling each completed move; the
     * first collision or failed move rolls the batch back.
     */
    method RunBatch(listing: seq<Path>, p: Params, faults: set<Rename>) returns (r: BatchResult)
      requires journal == []
      modifies this`files, this`journal
      ensures
        var plan := Plan(listing, p);
        var run := Attempt(old(files), plan, faults);
        match run.stop
        case Finished =>
          r == Renamed(|listing|) && journal == plan && files == run.files
        case Collided(name) =>
          r == Collision(name) && journal == [] && files == RollbackSteps(run.files, plan[..run.done], faults)
        case Failed(e) =>
          r == MoveError(e) && journal == [] && files == RollbackSteps(run.files, plan[..run.done], faults)
    {
      ghost var plan := Plan(listing, p);
      ghost var run := Attempt(old(files), plan, faults);
      var counter := p.start;
      var i := 0;
      while i < |listing|
        invariant 0 <= i <= |listing|
        invariant counter == p.start + i
        invariant journal == plan[..i]
        invariant Attempt(files, plan[i..], faults).files == run.files
        invariant Attempt(files, plan[i..], faults).done + i == run.done
        invariant Attempt(files, plan[i..], faults).stop == run.stop
      {
        var f := listing[i];
        var target := Target(f, p, counter);
        PlanAt(listing, p, i, f, counter);
        AttemptAt(files, plan, i, faults);
        if target in files {
          assert run == Run(files, i, Collided(target.name));
          RollBack(faults);
          return Collision(target.name);
        }
        var ok := MoveFile(f, target, faults);
        if !ok {
          assert run == Run(files, i, Failed(Rename(f, target)));
          RollBack(faults);
          return MoveError(Rename(f, target));
        }
        journal := journal + [Rename(f, target)];
        assert journal == plan[..i + 1];
        counter := counter + 1;
        i := i + 1;
      }
      assert plan[..i] == plan;
      return Renamed(|listing|);
    }

    /**
     * The undo button: with a non-empty journal and confirmation, reverts
     * the entries last first, skipping those whose new path holds no file;
     * the first failed move stops the undo and keeps the journal, otherwise
     * the journal is cleared.
     */
    method UndoLast(confirmed: bool, faults: set<Rename>) returns (r: UndoResult)
      modifies this`files, this`journal
      ensures old(journal) == [] ==> r == NothingToUndo && files == old(files) && journal == old(journal)
      ensures old(journal) != [] && !confirmed ==> r == UndoDeclined && files == old(files) && journal == old(journal)
      ensures old(journal) != [] && confirmed ==>
        match UndoSteps(old(files), old(journal), faults)
        case Completed(fs) => r == Undone && files == fs && journal == []
        case Halted(fs, e) => r == UndoError(e) && files == fs && journal == old(journal)
    {
      if journal == [] {
        return NothingToUndo;
      }
      if !confirmed {
        return UndoDeclined;
      }
      var i := |journal|;
      assert journal[..i] == journal;
      while i > 0
        invariant 0 <= i <= |journal| && journal == old(journal)
        invariant UndoSteps(old(files), journal, faults) == UndoSteps(files, journal[..i], faults)
      {
        assert journal[..i][..i - 1] == journal[..i - 1];
        i := i - 1;
        var e := journal[i];
        if e.target in files {
          var ok := MoveFile(e.target, e.original, faults);
          if !ok {
            return UndoError(e);
          }
        }
      }
      journal := [];
      return Undone;
    }
  }

  /**
   * A confirmed batch that renamed every file, followed by a confirmed undo
   * whose moves back the system does not refuse, leaves every file at its
   * original path and the journal empty.
   */
  method RenameThenUndo(e: Renamer, folder: string, listing: seq<Path>, p: Params,
                        faults: set<Rename>, undoFaults: set<Rename>)
    returns (batch: BatchResult, undo: UndoResult)
    requires NoReverseFaults(Plan(listing, p), undoFaults)
    modifies e
    ensures batch.Renamed? ==> undo == Undone && e.files == old(e.files) && e.journal == []
  {
    ghost var before := e.files;
    batch := e.RenameAll(folder, listing, p, true, faults);
    if batch.Renamed? {
      BatchThenUndo(before, Plan(listing, p), faults, undoFaults);
    }
    undo := e.UndoLast(true, undoFaults);
  }
}
