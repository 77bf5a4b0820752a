/**
 * Name generation of the rename batch: the tag "X-YYY-ZZ" built from a
 * letter, a three-digit number and a running counter, the new file name
 * "<tag> <original name>" in the same directory, and the plan that pairs
 * every listed file with its new path, the counter going up by one per
 * file in listing order.
 */
module Naming {
  import opened Options
  import opened Decimal

  /** A file path as its directory and its file name. */
  datatype Path = Path(dir: string, name: string)

  /**
   * The four inputs of a batch: the letter X, the number Y, the counter's
   * start value Z and the counter's minimum digit count.
   */
  datatype Params = Params(letter: char, number: nat, start: nat, width: nat)

  /** One move of a batch: the file at `original` is to end up at `target`. */
  datatype Rename = Rename(original: Path, target: Path)

  function Prefix(p: Params, counter: nat): string {
    [p.letter, '-'] + PadLeft(p.number, 3) + ['-'] + PadLeft(counter, p.width)
  }

  /**
   * The layout of the tag: the letter and a dash; for Y up to 999 exactly
   * three digits denoting Y and a dash; then at least `width` digits
   * denoting the counter, exactly `width` of them when the counter fits.
   */
  lemma PrefixLayout(p: Params, counter: nat)
    requires p.number <= 999 && p.width >= 1
    ensures var r := Prefix(p, counter);
      |r| >= 6 + p.width && r[0] == p.letter && r[1] == '-' && r[5] == '-' &&
      AllDigits(r[2..5]) && Value(r[2..5]) == p.number &&
      AllDigits(r[6..]) && Value(r[6..]) == counter &&
      (counter < Pow10(p.width) <==> |r| == 6 + p.width)
  {
    var y := PadLeft(p.number, 3);
    var z := PadLeft(counter, p.width);
    assert Pow10(3) == 1000;
    PadWidth(p.number, 3);
    PadWidth(counter, p.width);
    var r := Prefix(p, counter);
    assert |y| == 3;
    TagPieces(p.letter, y, z);
  }

  /** Where Y and the counter sit in a tag. */
  lemma TagPieces(l: char, y: string, z: string)
    ensures ([l, '-'] + y + ['-'] + z)[2..2 + |y|] == y
    ensures ([l, '-'] + y + ['-'] + z)[3 + |y|..] == z
    ensures var r := [l, '-'] + y + ['-'] + z; |r| == 3 + |y| + |z| && r[0] == l && r[1] == '-' && r[2 + |y|] == '-'
  {
  }

  /** The new file name: the tag, one space, then the unchanged original name. */
  function NewName(p: Params, counter: nat, name: string): string {
    Prefix(p, counter) + " " + name
  }

  /** The new name ends with one space and the unchanged original name, after the tag. */
  lemma NewNameKeepsOriginal(p: Params, counter: nat, name: string)
    ensures var n := NewName(p, counter, name);
      |n| == |Prefix(p, counter)| + 1 + |name| &&
      n[..|Prefix(p, counter)|] == Prefix(p, counter) &&
      n[|Prefix(p, counter)|] == ' ' &&
      n[|n| - |name|..] == name
  {
  }

  /** The path a file is renamed to: same directory, new name. */
  function Target(f: Path, p: Params, counter: nat): (r: Path)
    ensures r.dir == f.dir
  {
    Path(f.dir, NewName(p, counter, f.name))
  }

  /**
   * The moves of a batch over `listing`, in listing order: every file is
   * renamed within its directory, the i-th one with counter value start + i.
   */
  function Plan(listing: seq<Path>, p: Params): (r: seq<Rename>) {
    seq(|listing|, i requires 0 <= i < |listing| => Rename(listing[i], Target(listing[i], p, p.start + i)))
  }

  /** The i-th move of a batch, as the loop over the listing builds it. */
  lemma PlanAt(listing: seq<Path>, p: Params, i: nat, f: Path, counter: nat)
    requires i < |listing| && f == listing[i] && counter == p.start + i
    ensures Plan(listing, p)[i] == Rename(f, Target(f, p, counter))
  {
  }

  /** The components a generated file name is made of. */
  datatype NameParts = NameParts(letter: char, number: nat, counter: nat, original: string)

  /**
   * Reads a file name of the form "X-<digits>-<digits> <rest>" back into
   * its parts; None for a name of any other form.
   */
  function ParseName(s: string): Option<NameParts> {
    if |s| < 2 || s[1] != '-' then None else ParseNumbers(s[0], s[2..])
  }

  /** Reads "<digits>-<digits> <rest>", the part after the letter and its dash. */
  function ParseNumbers(letter: char, s: string): Option<NameParts> {
    var y := DigitRun(s);
    if y == [] || |y| == |s| || s[|y|] != '-' then None
    else ParseCounter(letter, Value(y), s[|y| + 1..])
  }

  /** Reads "<digits> <rest>", the counter and the original name. */
  function ParseCounter(letter: char, number: nat, s: string): Option<NameParts> {
    var z := DigitRun(s);
    if z == [] || |z| == |s| || s[|z|] != ' ' then None
    else Some(NameParts(letter, number, Value(z), s[|z| + 1..]))
  }

  /** Every generated name reads back as the letter, Y, the counter and the original name. */
  lemma NewNameParses(p: Params, counter: nat, name: string)
    ensures ParseName(NewName(p, counter, name)) == Some(NameParts(p.letter, p.number, counter, name))
  {
    ParseTag(p.letter, PadLeft(p.number, 3), PadLeft(counter, p.width), name);
  }

  /** A name made of a letter, a dash, digits, a dash, digits, a space and a rest parses into those parts. */
  lemma ParseTag(l: char, y: string, z: string, name: string)
    requires y != [] && AllDigits(y) && z != [] && AllDigits(z)
    ensures ParseName([l, '-'] + y + ['-'] + z + " " + name) == Some(NameParts(l, Value(y), Value(z), name))
  {
    var t := y + ['-'] + z + [' '] + name;
    Regroup(l, y, z, name);
    ParseLetter(l, t);
    ParseNumbersOf(l, y, z, name);
  }

  lemma Regroup(l: char, y: string, z: string, name: string)
    ensures [l, '-'] + y + ['-'] + z + " " + name == [l, '-'] + (y + ['-'] + z + [' '] + name)
  {
  }

  lemma ParseLetter(l: char, t: string)
    ensures ParseName([l, '-'] + t) == ParseNumbers(l, t)
  {
  }

  lemma ParseNumbersOf(l: char, y: string, z: string, name: string)
    requires y != [] && AllDigits(y) && z != [] && AllDigits(z)
    ensures ParseNumbers(l, y + ['-'] + z + [' '] + name) == Some(NameParts(l, Value(y), Value(z), name))
  {
    var w := z + [' '] + name;
    Regroup3(y, '-', w);
    assert y + ['-'] + z + [' '] + name == y + (['-'] + w);
    ParseNumbersStep(l, y, ['-'] + w);
    assert (['-'] + w)[1..] == w;
    ParseCounterOf(l, Value(y), z, name);
  }

  lemma Regroup3(y: string, c: char, w: string)
    ensures y + [c] + w == y + ([c] + w)
  {
  }

  /** The number Y is the digit run before the second dash. */
  lemma ParseNumbersStep(l: char, y: string, t: string)
    requires y != [] && AllDigits(y) && t != [] && t[0] == '-'
    ensures ParseNumbers(l, y + t) == ParseCounter(l, Value(y), t[1..])
  {
    DigitRunStops(y, t);
    assert (y + t)[|y|] == t[0];
    assert (y + t)[|y| + 1..] == t[1..];
  }

  lemma ParseCounterOf(l: char, number: nat, z: string, name: string)
    requires z != [] && AllDigits(z)
    ensures ParseCounter(l, number, z + [' '] + name) == Some(NameParts(l, number, Value(z), name))
  {
    Regroup3(z, ' ', name);
    ParseCounterStep(l, number, z, [' '] + name);
    assert ([' '] + name)[1..] == name;
  }

  /** The counter is the digit run before the first space; the rest is the original name. */
  lemma ParseCounterStep(l: char, number: nat, z: string, t: string)
    requires z != [] && AllDigits(z) && t != [] && t[0] == ' '
    ensures ParseCounter(l, number, z + t) == Some(NameParts(l, number, Value(z), t[1..]))
  {
    DigitRunStops(z, t);
    assert (z + t)[|z|] == t[0];
    assert (z + t)[|z| + 1..] == t[1..];
  }

  /** For fixed parameters, different counters or different names give different new names. */
  lemma NewNameInjective(p: Params, c1: nat, n1: string, c2: nat, n2: string)
    requires NewName(p, c1, n1) == NewName(p, c2, n2)
    ensures c1 == c2 && n1 == n2
  {
    NewNameParses(p, c1, n1);
    NewNameParses(p, c2, n2);
  }

  /**
   * The i-th move of a plan: it moves the i-th listed file, within its own
   * directory, to a name that reads back as X, Y, start + i and the
   * original name.
   */
  lemma PlanEntry(listing: seq<Path>, p: Params, i: nat)
    requires i < |listing|
    ensures |Plan(listing, p)| == |listing|
    ensures Plan(listing, p)[i].original == listing[i]
    ensures Plan(listing, p)[i].target.dir == listing[i].dir
    ensures Plan(listing, p)[i].target.name[..|Prefix(p, p.start + i)|] == Prefix(p, p.start + i)
    ensures ParseName(Plan(listing, p)[i].target.name) == Some(NameParts(p.letter, p.number, p.start + i, listing[i].name))
  {
    var n := Plan(listing, p)[i].target.name;
    assert n == NewName(p, p.start + i, listing[i].name);
    ParsesAs(n, p, p.start + i, listing[i].name);
    NewNameKeepsOriginal(p, p.start + i, listing[i].name);
  }

  /**
   * NewNameParses for a name held in a variable: PlanEntry uses it so that
   * the solver works with the name itself, not with its tag and padding.
   */
  lemma ParsesAs(n: string, p: Params, counter: nat, name: string)
    requires n == NewName(p, counter, name)
    ensures ParseName(n) == Some(NameParts(p.letter, p.number, counter, name))
  {
    NewNameParses(p, counter, name);
  }

  /** No two moves of one plan share a target path. */
  lemma PlanTargetsDistinct(listing: seq<Path>, p: Params)
    ensures forall i, j :: 0 <= i < j < |Plan(listing, p)| ==> Plan(listing, p)[i].target != Plan(listing, p)[j].target
  {
    var plan := Plan(listing, p);
    forall i, j | 0 <= i < j < |plan|
      ensures plan[i].target != plan[j].target
    {
      if plan[i].target == plan[j].target {
        NewNameInjective(p, p.start + i, listing[i].name, p.start + j, listing[j].name);
      }
    }
  }
}
