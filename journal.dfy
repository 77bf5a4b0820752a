/**
 * The filesystem of a batch as the set of paths that hold a file, the
 * file move primitive, and the specification of the three procedures that
 * move files: a batch that stops at the first collision or failed move,
 * the best-effort rollback of a broken batch, and the undo of the last
 * batch, which stops at the first failed move.
 */
module Journal {
  import opened Options
  import opened Naming

  /** The paths at which a file exists. */
  type Files = set<Path>

  /**
   * File.Move: it fails when there is no file at `from`, when a file
   * already exists at `to`, or when the system refuses this move (a
   * locked file, missing permissions, ...), modelled by `faults`.
   * Otherwise the file leaves `from` and appears at `to`.
   */
  function Move(fs: Files, from: Path, to: Path, faults: set<Rename>): Option<Files> {
    if from in fs && to !in fs && Rename(from, to) !in faults then Some(fs - {from} + {to}) else None
  }

  /** The move that reverses e. */
  function Inverse(e: Rename): Rename {
    Rename(e.target, e.original)
  }

  /** The moves of js, performed in order; None when one of them cannot be performed. */
  function Replay(fs: Files, js: seq<Rename>): Option<Files>
    decreases |js|
  {
    if js == [] then Some(fs)
    else match Move(fs, js[0].original, js[0].target, {})
      case None => None
      case Some(fs') => Replay(fs', js[1..])
  }

  /** Replaying one more move performs it on the state the others leave. */
  lemma {:induction false} ReplaySnoc(fs: Files, js: seq<Rename>, e: Rename)
    ensures Replay(fs, js + [e]) ==
      match Replay(fs, js)
      case None => None
      case Some(m) => Move(m, e.original, e.target, {})
    decreases |js|
  {
    if js == [] {
      assert [e][1..] == [];
    } else {
      assert (js + [e])[1..] == js[1..] + [e];
      match Move(fs, js[0].original, js[0].target, {})
      case None =>
      case Some(fs') => ReplaySnoc(fs', js[1..], e);
    }
  }

  /** Why a batch stopped. */
  datatype Stop = Finished | Collided(name: string) | Failed(at: Rename)

  /** Where a batch stopped: the files then, the number of moves done and the reason. */
  datatype Run = Run(files: Files, done: nat, stop: Stop)

  /**
   * A batch over `plan`: for each move in order, a file already at the
   * target stops the batch with a collision, a failed move stops it with
   * that move; otherwise the move is performed and the batch goes on.
   */
  function Attempt(fs: Files, plan: seq<Rename>, faults: set<Rename>): (r: Run)
    ensures r.done <= |plan|
    ensures r.stop.Finished? <==> r.done == |plan|
    ensures forall k :: 0 <= k < r.done ==> plan[k] !in faults
    ensures r.stop.Collided? ==> plan[r.done].target in r.files && r.stop.name == plan[r.done].target.name
    ensures r.stop.Failed? ==> r.stop.at == plan[r.done] && plan[r.done].target !in r.files &&
                               Move(r.files, plan[r.done].original, plan[r.done].target, faults) == None
    decreases |plan|
  {
    if plan == [] then Run(fs, 0, Finished)
    else if plan[0].target in fs then Run(fs, 0, Collided(plan[0].target.name))
    else match Move(fs, plan[0].original, plan[0].target, faults)
      case None => Run(fs, 0, Failed(plan[0]))
      case Some(fs') =>
        var r := Attempt(fs', plan[1..], faults);
        Run(r.files, r.done + 1, r.stop)
  }

  /** One step of a batch, taken at position i of its plan. */
  lemma AttemptAt(fs: Files, plan: seq<Rename>, i: nat, faults: set<Rename>)
    requires i < |plan|
    ensures Attempt(fs, plan[i..], faults) ==
      if plan[i].target in fs then Run(fs, 0, Collided(plan[i].target.name))
      else match Move(fs, plan[i].original, plan[i].target, faults)
        case None => Run(fs, 0, Failed(plan[i]))
        case Some(fs') =>
          var r := Attempt(fs', plan[i + 1..], faults);
          Run(r.files, r.done + 1, r.stop)
  {
  }

  /**
   * Reversing one journal entry: nothing to do when no file is at its
   * target any more, otherwise the move back, which may fail.
   */
  function Revert(fs: Files, e: Rename, faults: set<Rename>): Option<Files> {
    if e.target in fs then Move(fs, e.target, e.original, faults) else Some(fs)
  }

  /**
   * The rollback of a broken batch: every entry of the journal is reverted,
   * last first; an entry that cannot be reverted is passed over.
   */
  function RollbackSteps(fs: Files, js: seq<Rename>, faults: set<Rename>): Files
    decreases |js|
  {
    if js == [] then fs
    else
      var e := js[|js| - 1];
      var fs' := match Revert(fs, e, faults) case Some(m) => m case None => fs;
      RollbackSteps(fs', js[..|js| - 1], faults)
  }

  /** Where an undo ended: after every entry, or at the entry whose move back failed. */
  datatype UndoRun = Completed(files: Files) | Halted(files: Files, at: Rename)

  /** The undo of a journal: every entry is reverted, last first, stopping at the first failure. */
  function UndoSteps(fs: Files, js: seq<Rename>, faults: set<Rename>): UndoRun
    decreases |js|
  {
    if js == [] then Completed(fs)
    else
      var e := js[|js| - 1];
      match Revert(fs, e, faults)
      case None => Halted(fs, e)
      case Some(fs') => UndoSteps(fs', js[..|js| - 1], faults)
  }

  /** None of the moves that reverse js is refused by the system. */
  predicate NoReverseFaults(js: seq<Rename>, faults: set<Rename>) {
    forall k :: 0 <= k < |js| ==> Inverse(js[k]) !in faults
  }

  /** None of the moves of js is refused by the system. */
  predicate NoFaults(js: seq<Rename>, faults: set<Rename>) {
    forall k :: 0 <= k < |js| ==> js[k] !in faults
  }

  /**
   * The moves a batch performed are the first `done` moves of its plan:
   * replaying exactly those gives the files where the batch stopped.
   */
  lemma {:induction false} AttemptPerformsPrefix(fs: Files, plan: seq<Rename>, faults: set<Rename>)
    ensures var r := Attempt(fs, plan, faults);
      Replay(fs, plan[..r.done]) == Some(r.files)
    decreases |plan|
  {
    var r := Attempt(fs, plan, faults);
    if plan != [] && plan[0].target !in fs {
      match Move(fs, plan[0].original, plan[0].target, faults)
      case None =>
      case Some(fs') =>
        AttemptPerformsPrefix(fs', plan[1..], faults);
        var r' := Attempt(fs', plan[1..], faults);
        assert plan[..r.done] == [plan[0]] + plan[1..][..r'.done];
        assert Move(fs, plan[0].original, plan[0].target, {}) == Some(fs');
    }
  }

  /**
   * Reverting the last entry of a performed journal gives back the files
   * as they were before that entry, unless the system refuses the move back.
   */
  lemma RevertLast(fs0: Files, js: seq<Rename>, fs: Files, faults: set<Rename>)
    requires js != [] && Replay(fs0, js) == Some(fs)
    requires Inverse(js[|js| - 1]) !in faults
    ensures Replay(fs0, js[..|js| - 1]).Some?
    ensures Revert(fs, js[|js| - 1], faults) == Replay(fs0, js[..|js| - 1])
  {
    var init, e := js[..|js| - 1], js[|js| - 1];
    assert js == init + [e];
    ReplaySnoc(fs0, init, e);
    var m := Replay(fs0, init).value;
    assert fs == m - {e.original} + {e.target};
    assert fs - {e.target} + {e.original} == m;
  }

  /** Rolling back a performed journal, with no move back refused, restores the files. */
  lemma {:induction false} RollbackRestores(fs0: Files, js: seq<Rename>, faults: set<Rename>)
    requires Replay(fs0, js).Some? && NoReverseFaults(js, faults)
    ensures RollbackSteps(Replay(fs0, js).value, js, faults) == fs0
    decreases |js|
  {
    if js != [] {
      RevertLast(fs0, js, Replay(fs0, js).value, faults);
      RollbackRestores(fs0, js[..|js| - 1], faults);
    }
  }

  /** Undoing a performed journal, with no move back refused, completes and restores the files. */
  lemma {:induction false} UndoRestores(fs0: Files, js: seq<Rename>, faults: set<Rename>)
    requires Replay(fs0, js).Some? && NoReverseFaults(js, faults)
    ensures UndoSteps(Replay(fs0, js).value, js, faults) == Completed(fs0)
    decreases |js|
  {
    if js != [] {
      RevertLast(fs0, js, Replay(fs0, js).value, faults);
      UndoRestores(fs0, js[..|js| - 1], faults);
    }
  }

  /** No path is the target of one entry and the original of another (or the same) entry. */
  predicate Unchained(js: seq<Rename>) {
    forall j, k :: 0 <= j < |js| && 0 <= k < |js| ==> js[j].target != js[k].original
  }

  /** No two entries share an original or a target. */
  predicate Distinct(js: seq<Rename>) {
    forall j, k :: 0 <= j < k < |js| ==> js[j].original != js[k].original && js[j].target != js[k].target
  }

  /** Every prefix of a performed journal was performed too. */
  lemma {:induction false} ReplayPrefix(fs0: Files, js: seq<Rename>, i: nat)
    requires Replay(fs0, js).Some? && i <= |js|
    ensures Replay(fs0, js[..i]).Some?
    decreases |js|
  {
    if i < |js| {
      var init := js[..|js| - 1];
      assert js == init + [js[|js| - 1]];
      ReplaySnoc(fs0, init, js[|js| - 1]);
      ReplayPrefix(fs0, init, i);
      assert init[..i] == js[..i];
    } else {
      assert js[..i] == js;
    }
  }

  /** Entry i of a performed journal is performed on the files its predecessors leave. */
  lemma ReplayStep(fs0: Files, js: seq<Rename>, i: nat)
    requires Replay(fs0, js).Some? && i < |js|
    ensures Replay(fs0, js[..i]).Some? && Replay(fs0, js[..i + 1]).Some?
    ensures Replay(fs0, js[..i + 1]) == Move(Replay(fs0, js[..i]).value, js[i].original, js[i].target, {})
  {
    ReplayPrefix(fs0, js, i);
    ReplayPrefix(fs0, js, i + 1);
    assert js[..i + 1] == js[..i] + [js[i]];
    ReplaySnoc(fs0, js[..i], js[i]);
  }

  /** A file stays where it is while the moves performed do not take it away. */
  lemma {:induction false} Persists(fs0: Files, js: seq<Rename>, l: nat, j: nat, q: Path)
    requires Replay(fs0, js).Some? && l <= j <= |js|
    requires Replay(fs0, js[..l]).Some? && q in Replay(fs0, js[..l]).value
    requires forall i :: l <= i < j ==> js[i].original != q
    ensures Replay(fs0, js[..j]).Some? && q in Replay(fs0, js[..j]).value
    decreases j
  {
    if j > l {
      Persists(fs0, js, l, j - 1, q);
      ReplayStep(fs0, js, j - 1);
    }
  }

  /**
   * In an unchained performed journal, the target of an entry holds no
   * file at any point before that entry was performed.
   */
  lemma TargetAbsent(fs0: Files, js: seq<Rename>, l: nat, j: nat)
    requires Replay(fs0, js).Some? && Unchained(js) && l <= j < |js|
    ensures Replay(fs0, js[..l]).Some? && js[j].target !in Replay(fs0, js[..l]).value
  {
    ReplayPrefix(fs0, js, l);
    ReplayStep(fs0, js, j);
    if js[j].target in Replay(fs0, js[..l]).value {
      Persists(fs0, js, l, j, js[j].target);
      assert false;
    }
  }

  /**
   * Where the undo of a performed journal halts: at an entry m whose move
   * back the system refused, with the entries after m reverted and those
   * up to m still in place.
   */
  lemma {:induction false} UndoHalts(fs0: Files, js: seq<Rename>, faults: set<Rename>) returns (m: nat)
    requires Replay(fs0, js).Some? && UndoSteps(Replay(fs0, js).value, js, faults).Halted?
    ensures m < |js| && Replay(fs0, js[..m + 1]).Some?
    ensures UndoSteps(Replay(fs0, js).value, js, faults) == Halted(Replay(fs0, js[..m + 1]).value, js[m])
    ensures Inverse(js[m]) in faults
    decreases |js|
  {
    var init, e := js[..|js| - 1], js[|js| - 1];
    assert js == init + [e];
    ReplaySnoc(fs0, init, e);
    var fs := Replay(fs0, js).value;
    if Inverse(e) in faults {
      m := |js| - 1;
      assert js[..m + 1] == js;
    } else {
      RevertLast(fs0, js, fs, faults);
      m := UndoHalts(fs0, init, faults);
      assert js[..m + 1] == init[..m + 1];
    }
  }

  /**
   * Unlike the rollback, the undo stops at a refused move back: when the
   * move back of the last entry is refused, it halts there and changes nothing.
   */
  lemma UndoStopsAtRefusal(fs0: Files, js: seq<Rename>, faults: set<Rename>)
    requires js != [] && Replay(fs0, js).Some? && Inverse(js[|js| - 1]) in faults
    ensures UndoSteps(Replay(fs0, js).value, js, faults) == Halted(Replay(fs0, js).value, js[|js| - 1])
  {
    var init, e := js[..|js| - 1], js[|js| - 1];
    assert js == init + [e];
    ReplaySnoc(fs0, init, e);
  }

  /** An undo passes over trailing entries whose new path holds no file. */
  lemma {:induction false} UndoSkipsAbsent(fs: Files, js: seq<Rename>, l: nat, faults: set<Rename>)
    requires l <= |js|
    requires forall j :: l <= j < |js| ==> js[j].target !in fs
    ensures UndoSteps(fs, js, faults) == UndoSteps(fs, js[..l], faults)
    decreases |js|
  {
    if l < |js| {
      var init := js[..|js| - 1];
      UndoSkipsAbsent(fs, init, l, faults);
      assert init[..l] == js[..l];
    } else {
      assert js[..l] == js;
    }
  }

  /**
   * The undo keeps the journal when it halts, and skips entries whose new
   * path holds no file, so that it can be retried: a retry of a halted
   * undo of an unchained performed journal, with no move back refused,
   * completes and restores the files.
   */
  lemma UndoRetry(fs0: Files, js: seq<Rename>, faults: set<Rename>, retryFaults: set<Rename>)
    requires Replay(fs0, js).Some? && Unchained(js)
    requires UndoSteps(Replay(fs0, js).value, js, faults).Halted?
    requires NoReverseFaults(js, retryFaults)
    ensures UndoSteps(UndoSteps(Replay(fs0, js).value, js, faults).files, js, retryFaults) == Completed(fs0)
  {
    var m := UndoHalts(fs0, js, faults);
    var h := Replay(fs0, js[..m + 1]).value;
    forall j | m + 1 <= j < |js| ensures js[j].target !in h {
      TargetAbsent(fs0, js, m + 1, j);
    }
    UndoSkipsAbsent(h, js, m + 1, retryFaults);
    UndoRestores(fs0, js[..m + 1], retryFaults);
  }

  /**
   * Reverting entries that touch none of the paths in X and Y commutes
   * with taking Y away and adding X.
   */
  lemma {:induction false} RollbackFrame(fs: Files, js: seq<Rename>, faults: set<Rename>, X: set<Path>, Y: set<Path>)
    requires forall j :: 0 <= j < |js| ==> js[j].original !in X && js[j].original !in Y
    requires forall j :: 0 <= j < |js| ==> js[j].target !in X && js[j].target !in Y
    ensures RollbackSteps(fs - Y + X, js, faults) == RollbackSteps(fs, js, faults) - Y + X
    decreases |js|
  {
    if js != [] {
      var e := js[|js| - 1];
      var fs' := match Revert(fs, e, faults) case Some(m) => m case None => fs;
      var gs := fs - Y + X;
      var gs' := match Revert(gs, e, faults) case Some(m) => m case None => gs;
      assert gs' == fs' - Y + X;
      RollbackFrame(fs', js[..|js| - 1], faults, X, Y);
    }
  }

  /**
   * The rollback passes over a move back that the system refuses and goes
   * on with the remaining entries: when only the move back of entry k is
   * refused, every other file of a separate performed journal is restored
   * and that one file stays at its new path.
   */
  lemma {:induction false} RollbackPassesOver(fs0: Files, js: seq<Rename>, k: nat, faults: set<Rename>)
    requires Replay(fs0, js).Some? && Unchained(js) && Distinct(js)
    requires k < |js| && Inverse(js[k]) in faults
    requires forall j :: 0 <= j < |js| && j != k ==> Inverse(js[j]) !in faults
    ensures RollbackSteps(Replay(fs0, js).value, js, faults) == fs0 - {js[k].original} + {js[k].target}
    decreases |js|
  {
    var init, e := js[..|js| - 1], js[|js| - 1];
    assert js == init + [e];
    ReplaySnoc(fs0, init, e);
    var fs := Replay(fs0, js).value;
    if k < |js| - 1 {
      RevertLast(fs0, js, fs, faults);
      RollbackPassesOver(fs0, init, k, faults);
    } else {
      var m := Replay(fs0, init).value;
      assert fs == m - {e.original} + {e.target};
      assert Revert(fs, e, faults) == None;
      RollbackFrame(m, init, faults, {e.target}, {e.original});
      RollbackRestores(fs0, init, faults);
    }
  }

  /**
   * A batch that stopped early and is rolled back, with no move back
   * refused, leaves the files exactly as they were before the batch.
   */
  lemma AbortLeavesNoTrace(fs: Files, plan: seq<Rename>, faults: set<Rename>)
    requires !Attempt(fs, plan, faults).stop.Finished?
    requires NoReverseFaults(plan[..Attempt(fs, plan, faults).done], faults)
    ensures RollbackSteps(Attempt(fs, plan, faults).files, plan[..Attempt(fs, plan, faults).done], faults) == fs
  {
    AttemptPerformsPrefix(fs, plan, faults);
    RollbackRestores(fs, plan[..Attempt(fs, plan, faults).done], faults);
  }

  /**
   * A batch that finished, undone later with no move back refused, leaves
   * the files exactly as they were before the batch.
   */
  lemma BatchThenUndo(fs: Files, plan: seq<Rename>, faults: set<Rename>, undoFaults: set<Rename>)
    requires Attempt(fs, plan, faults).stop.Finished?
    requires NoReverseFaults(plan, undoFaults)
    ensures UndoSteps(Attempt(fs, plan, faults).files, plan, undoFaults) == Completed(fs)
  {
    AttemptPerformsPrefix(fs, plan, faults);
    assert plan[..|plan|] == plan;
    UndoRestores(fs, plan, undoFaults);
  }

  /**
   * A batch finishes when every source file exists, no target exists yet,
   * no two moves share a source or a target and the system refuses none
   * of the moves.
   */
  lemma {:induction false} CleanBatchFinishes(fs: Files, plan: seq<Rename>, faults: set<Rename>)
    requires forall k :: 0 <= k < |plan| ==> plan[k].original in fs && plan[k].target !in fs
    requires forall j, k :: 0 <= j < k < |plan| ==> plan[j].original != plan[k].original && plan[j].target != plan[k].target
    requires NoFaults(plan, faults)
    ensures Attempt(fs, plan, faults).stop.Finished?
    decreases |plan|
  {
    if plan != [] {
      var e := plan[0];
      assert e !in faults;
      var fs' := fs - {e.original} + {e.target};
      assert Move(fs, e.original, e.target, faults) == Some(fs');
      var rest := plan[1..];
      forall k | 0 <= k < |rest|
        ensures rest[k].original in fs' && rest[k].target !in fs'
      {
        assert rest[k] == plan[k + 1];
      }
      forall j, k | 0 <= j < k < |rest|
        ensures rest[j].original != rest[k].original && rest[j].target != rest[k].target
      {
        assert rest[j] == plan[j + 1] && rest[k] == plan[k + 1];
      }
      assert NoFaults(rest, faults) by {
        forall k | 0 <= k < |rest| ensures rest[k] !in faults {
          assert rest[k] == plan[k + 1];
        }
      }
      CleanBatchFinishes(fs', rest, faults);
    }
  }
}
