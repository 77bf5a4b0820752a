/**
 * The two worked scenarios of the rename tool: three files a.txt, b.txt
 * and c.txt listed in that order, renamed with X = A, Y = 5, a start value
 * of 1 and two counter digits.
 */
module Scenarios {
  import opened Naming
  import opened Journal

  const P := Params('A', 5, 1, 2)
  const A := Path("d", "a.txt")
  const B := Path("d", "b.txt")
  const C := Path("d", "c.txt")

  /** The three new names. */
  lemma ExampleNames()
    ensures Plan([A, B, C], P) == [Rename(A, Path("d", "A-005-01 a.txt")), Rename(B, Path("d", "A-005-02 b.txt")), Rename(C, Path("d", "A-005-03 c.txt"))]
  {
    assert NewName(P, 1, "a.txt") == "A-005-01 a.txt";
    assert NewName(P, 2, "b.txt") == "A-005-02 b.txt";
    assert NewName(P, 3, "c.txt") == "A-005-03 c.txt";
  }

  /** The batch renames all three files, and the undo brings back a.txt, b.txt and c.txt. */
  lemma ExampleRoundTrip()
    ensures Attempt({A, B, C}, Plan([A, B, C], P), {}) == Run({Path("d", "A-005-01 a.txt"), Path("d", "A-005-02 b.txt"), Path("d", "A-005-03 c.txt")}, 3, Finished)
    ensures UndoSteps(Attempt({A, B, C}, Plan([A, B, C], P), {}).files, Plan([A, B, C], P), {}) == Completed({A, B, C})
  {
    ExampleNames();
    var a', b', c' := Path("d", "A-005-01 a.txt"), Path("d", "A-005-02 b.txt"), Path("d", "A-005-03 c.txt");
    var plan := Plan([A, B, C], P);
    assert a' != b' && a' != c' && b' != c';
    assert Attempt({a', b', c'}, plan[3..], {}) == Run({a', b', c'}, 0, Finished);
    assert {a', b', C} - {C} + {c'} == {a', b', c'};
    assert plan[2..][1..] == plan[3..];
    assert Attempt({a', b', C}, plan[2..], {}) == Run({a', b', c'}, 1, Finished);
    assert {a', B, C} - {B} + {b'} == {a', b', C};
    assert plan[1..][1..] == plan[2..];
    assert Attempt({a', B, C}, plan[1..], {}) == Run({a', b', c'}, 2, Finished);
    assert {A, B, C} - {A} + {a'} == {a', B, C};
    assert plan[0..] == plan;
    BatchThenUndo({A, B, C}, plan, {}, {});
  }

  /**
   * With "A-005-02 b.txt" already present and listed after the three
   * files, a.txt is renamed, the collision on b.txt stops the batch, and
   * the rollback restores the directory.
   */
  lemma ExampleCollision()
    ensures var D := Path("d", "A-005-02 b.txt");
      var fs := {A, B, C, D};
      var run := Attempt(fs, Plan([A, B, C, D], P), {});
      run.stop == Collided("A-005-02 b.txt") && run.done == 1 &&
      RollbackSteps(run.files, Plan([A, B, C, D], P)[..1], {}) == fs
  {
    var D := Path("d", "A-005-02 b.txt");
    var plan := Plan([A, B, C, D], P);
    assert NewName(P, 1, "a.txt") == "A-005-01 a.txt";
    assert NewName(P, 2, "b.txt") == "A-005-02 b.txt";
    assert plan[0] == Rename(A, Path("d", "A-005-01 a.txt"));
    assert plan[1] == Rename(B, D);
  }
}
