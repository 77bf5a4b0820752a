# FileRenamer — the rename engine, modelled in Dafny

The FileRenamer tool renames every file of a chosen folder by putting a tag
`X-YYY-ZZ` and one space in front of its name. X is a letter, YYY a number
printed with three digits, and ZZ a counter printed with at least two or three
digits that goes up by one per file in listing order. Each completed move is
recorded in a journal, `lastRenameMapping`. If a new name is already taken, or
if a move fails, the moves of the batch are reverted, last first, and the
journal is cleared. An undo command reverts the last batch, last move first.
It stops at the first move back that fails, and then keeps the journal.

The model has five modules:

- `Decimal` (decimal.dfy): the .NET format `"D<n>"` on naturals. It prints the
  digits of a number, left-padded with zeros to at least n characters. The
  value of a digit string is the inverse of this format.
- `Naming` (naming.dfy): paths as (directory, file name) pairs; the tag; the
  new name; the plan that pairs each listed file with its new path. It also
  holds `ParseName`, which reads a generated name back into its letter, number,
  counter and original name.
- `Journal` (journal.dfy): the filesystem as the set of paths that hold a file.
  `File.Exists` is membership and `File.Move` is the function `Move`. It also
  holds the specification functions of the three procedures that move files:
  `Attempt` (the batch up to where it stops), `RollbackSteps` (the best-effort
  rollback) and `UndoSteps` (the undo, which stops at a failure). The lemmas
  about them live here too.
- `FileRenamer` (renamer.dfy): the class `Renamer`. Its fields are the files,
  the directories and the journal. Its methods are the imperative loops of the
  rename button, the undo button and `UndoRenames`, each proved against the
  functions of `Journal`.
- `Scenarios` (scenarios.dfy): the two worked examples, with a.txt, b.txt and
  c.txt renamed using X = A, Y = 5, start 1 and two counter digits.

A move can fail for three reasons. There may be no file at its source. There
may already be a file at its target. Or the system may refuse it (a locked
file, missing permissions). The third reason is the parameter `faults`: the
set of moves the system refuses during that call. The answers to the two
confirmation dialogs are the boolean `confirmed`. Message boxes become the
returned `BatchResult` and `UndoResult` values. The listing returned by
`Directory.GetFiles` is an input, and its order is taken as given.

The undo asks for confirmation before it reverts anything, just
as the rename does. The journal is cleared only after the folder check, the
empty-folder check and the confirmation. Neither the letter nor the ranges of
Y, the start value or the width are checked by the engine; only the form's
controls limit them.

## Model

| member | source | states |
|---|---|---|
| `Decimal.Digits` | Program.cs:161 | The shortest rendering of a number is a non-empty digit string whose decimal value is the number. |
| `Decimal.DigitsFit` | Program.cs:148 | A number's digits fit in k places exactly when the number is below 10^k (both directions). |
| `Decimal.LeadingZeros` | Program.cs:148 | Zeros in front of a digit string do not change its value. |
| `Decimal.PadLeft` | Program.cs:161 | Format "D<width>": the length is the larger of the width and the number of digits, every character is a digit, and the value is the number, so the padding loses nothing. |
| `Decimal.PadWidth` | Program.cs:148 | The padded number has exactly `width` digits when it is below 10^width, and more digits otherwise. |
| `Naming.PrefixLayout` | Program.cs:147-161 | The tag is the letter, '-', exactly three digits denoting Y (for Y up to 999), '-', then at least `width` digits denoting the counter. There are exactly `width` of them when the counter fits in that many. |
| `Naming.NewNameKeepsOriginal` | Program.cs:163 | The new name is the tag, one space, then the unchanged original name, which is therefore a suffix. |
| `Naming.NewNameParses` | Program.cs:161-163 | Every generated name reads back as its letter, Y, counter and original name. |
| `Naming.NewNameInjective` | Program.cs:161-163 | For fixed parameters, two generated names are equal only if the counters and the original names are equal. |
| `Naming.PlanEntry` | Program.cs:153-164 | The i-th move of a batch moves the i-th listed file within its own directory. Its new name starts with the tag for counter start + i and reads back as X, Y, start + i and the original name, so the counter goes up by one per file. |
| `Naming.PlanTargetsDistinct` | Program.cs:161-181 | No two moves of one batch have the same new path. |
| `Journal.Attempt` | Program.cs:153-190 | The batch stops at the first move whose target exists, reporting that file name, or at the first move that fails. None of the moves before the stopping point was refused. If it finishes, every move of the plan was done. Nothing after the stopping point is attempted. |
| `Journal.AttemptPerformsPrefix` | Program.cs:176-178 | The moves a batch performed are exactly the first `done` moves of the plan, in plan order. Replaying them yields the batch's files, so the journal lists only completed moves. |
| `Journal.RevertLast` | Program.cs:238-241 | Moving the last performed entry back gives the files as they were before it, unless the system refuses the move back. |
| `Journal.RollbackRestores` | Program.cs:231-246 | Rolling back a performed journal, last entry first, restores the files when no move back is refused. |
| `Journal.UndoRestores` | Program.cs:209-227 | Undoing a performed journal, last entry first, completes and restores the files when no move back is refused. |
| `Journal.AbortLeavesNoTrace` | Program.cs:167-188 | A batch stopped by a collision or a failed move, and then rolled back, leaves the files as they were before the batch when no move back is refused. |
| `Journal.BatchThenUndo` | Program.cs:209-227 | A finished batch followed by an undo whose moves back are not refused completes and restores every file to its original path. |
| `Journal.CleanBatchFinishes` | Program.cs:153-190 | A batch finishes when every source exists, no target exists, no two moves share a source or a target, and no move is refused. |
| `Journal.RollbackPassesOver` | Program.cs:233-244 | The rollback ignores a refused move back and goes on with the remaining entries: when only the move back of entry k is refused, every other file is restored and that one file stays at its new path. This holds for journals where no target is also an original and no two entries share an original or a target. |
| `Journal.UndoHalts` | Program.cs:209-223 | The undo of a performed journal halts only at an entry whose move back the system refused. The entries after it are reverted, and the files are those left by the journal performed up to and including that entry. |
| `Journal.UndoStopsAtRefusal` | Program.cs:214-223 | Unlike the rollback, when the move back of the last entry is refused, the undo halts at that entry and changes nothing. |
| `Journal.UndoSkipsAbsent` | Program.cs:214 | The undo passes over trailing entries whose new path holds no file. |
| `Journal.UndoRetry` | Program.cs:209-227 | A halted undo keeps the journal and skips entries whose new path holds no file, so retrying it with no move back refused completes and restores the files. This holds for journals where no target is also an original. |
| `FileRenamer.CleanListingFinishes` | Program.cs:131-190 | A listing of distinct existing files, whose new names are all free and whose moves are not refused, is renamed in full: one move per listed file. |
| `FileRenamer.Renamer.constructor` | Program.cs:26 | A new engine has an empty journal. |
| `FileRenamer.Renamer.MoveFile` | Program.cs:176 | File.Move: succeeds exactly when the modelled move succeeds and moves the file; on failure nothing changes. |
| `FileRenamer.Renamer.RollBack` | Program.cs:231-246 | UndoRenames: the files become the best-effort rollback of the journal (last first, missing files skipped, failures ignored), and the journal is cleared whatever happened. |
| `FileRenamer.Renamer.RenameAll` | Program.cs:120-193 | An invalid folder, an empty listing or a declined confirmation changes nothing, including the previous journal. Otherwise the journal is cleared and the listing is renamed. On success the journal is the full plan in listing order. On a collision or failed move, the journal is empty and the files are the rollback of the moves performed. |
| `FileRenamer.Renamer.RunBatch` | Program.cs:146-190 | Starting from an empty journal, the loop performs exactly the moves of `Attempt` in plan order, journalling each one. If it finishes, the journal is the full plan. On a collision or a failed move, it reports that name or move, rolls back the moves performed and leaves the journal empty. |
| `FileRenamer.Renamer.UndoLast` | Program.cs:196-228 | An empty journal or a declined confirmation changes nothing. Otherwise the entries are reverted last first, skipping those whose new path holds no file. A failed move stops the undo and leaves the journal exactly as it was. Otherwise the journal is cleared. |
| `FileRenamer.RenameThenUndo` | Program.cs:143-227 | A confirmed batch that renamed every file, followed by a confirmed undo whose moves back are not refused, leaves every file at its original path and the journal empty. |
| `Scenarios.ExampleNames` | Program.cs:161-164 | a.txt, b.txt, c.txt with A, 5, start 1, two digits become "A-005-01 a.txt", "A-005-02 b.txt", "A-005-03 c.txt". |
| `Scenarios.ExampleRoundTrip` | Program.cs:153-227 | That batch renames all three files, and the undo restores a.txt, b.txt and c.txt. |
| `Scenarios.ExampleCollision` | Program.cs:167-173 | With "A-005-02 b.txt" already present and listed after a.txt, b.txt and c.txt, only a.txt is renamed before the collision, and the rollback restores the directory. |

## Left out

- The WinForms layer is not modelled: control construction, the folder picker, `Program.Main`, and the text of the message boxes. Dialog answers are inputs and messages are result values.
- Real filesystem I/O is not modelled. `Directory.GetFiles` is an input sequence. `Directory.Exists` is membership in `dirs`, and `File.Exists` is membership in `files`. File contents, file identity, and the atomicity of a real move are outside the model.
- `Path.GetDirectoryName`, `Path.GetFileName` and `Path.Combine` are replaced by a structured (directory, name) path. Separator rules, and any exception these calls could raise inside the `try`, are not modelled.
- `IsBlank`: `String.IsNullOrWhiteSpace` is modelled only for ASCII white space. There is no null string in the model.
- Exception kinds and messages are not modelled. Only "this move failed" is kept, as `MoveError` or `UndoError` naming the move.
- Moves that the system refuses are a fixed set per call (`faults`). A move refused once is refused again within the same call. The full-restoration theorems assume that the moves back are not refused. Under refusal, the model states the resulting files exactly through `RollbackSteps` and `UndoSteps`. It proves what happens for one refused move back in the rollback (`RollbackPassesOver`), where the undo halts (`UndoHalts`) and that a retry completes (`UndoRetry`), but it does not describe several refused moves back in general.
- The counter and Y are unbounded naturals. The 32-bit `int` counter of the source starts at the start value (up to 999) and would wrap only after 2^31 − 1 − start files. The form's controls never give a negative value, so .NET's minus sign for negative numbers is not modelled.
- The range limits of the form's controls (letter A–Z, Y and the start value in 0..999, width 2 or 3) are not imposed. The engine itself does not check them, and the model works for any values. `PrefixLayout` assumes only Y ≤ 999 and a width of at least 1.
- Other processes changing the folder during a batch or between a batch and its undo are not modelled. The engine does not guard against them either.
- Paths are compared by exact string equality. The case-insensitive matching of Windows file names in `File.Exists` and `File.Move` is not modelled: a file whose name differs from a new name only in letter case counts as a collision in the source but not in the model.
