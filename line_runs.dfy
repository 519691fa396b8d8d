/**
 * The hint of a nonogram line: the lengths of its maximal runs of filled
 * cells, left to right, or `[0]` when it has none (lib/puzzleGenerator.js,
 * the counting loops of generateNonogram). `Runs` is the specification;
 * `Place` is its inverse. `Scanned` is the state of the counting loop
 * after each cell, with one lemma per step of the loop.
 *
 * A cell is a `bool` (true = filled, the source's `1`).
 */
module LineRuns {
  type Line = seq<bool>

  /* ---------------------------------------------------------------------- */
  /* Specification of the hints                                             */
  /* ---------------------------------------------------------------------- */

  /** Number of filled cells in a line. */
  function Count(line: Line): nat
  {
    if line == [] then 0 else (if line[0] then 1 else 0) + Count(line[1..])
  }

  /** Sum of a list of hints. */
  function Sum(s: seq<nat>): nat
  {
    if s == [] then 0 else s[0] + Sum(s[1..])
  }

  /** `n` filled cells, `n` empty cells. */
  function Fills(n: nat): Line { seq(n, _ => true) }
  function Blanks(n: nat): Line { seq(n, _ => false) }

  /** Length of the run of filled cells at the start of `line`: it is all
      filled and, unless it reaches the end, followed by an empty cell. */
  function LeadingRun(line: Line): (n: nat)
    ensures n <= |line|
    ensures forall k :: 0 <= k < n ==> line[k]
    ensures n < |line| ==> !line[n]
  {
    if line == [] || !line[0] then 0 else 1 + LeadingRun(line[1..])
  }

  /** The lengths of the maximal runs of filled cells, left to right.
      Every entry is positive. */
  function Runs(line: Line): (r: seq<nat>)
    ensures forall k :: 0 <= k < |r| ==> r[k] > 0
    decreases |line|
  {
    if line == [] then []
    else if !line[0] then Runs(line[1..])
    else
      var n := LeadingRun(line);
      [n] + Runs(line[n..])
  }

  /** The hint list of one line: its runs, or `[0]` when it has none. */
  function LineHints(line: Line): (r: seq<nat>)
    ensures r != []
    ensures r == [0] <==> Count(line) == 0
    ensures Count(line) > 0 ==> forall k :: 0 <= k < |r| ==> r[k] > 0
    ensures Sum(r) == Count(line)
    ensures Count(line) > 0 ==> Sum(r) + |r| - 1 <= |line|
  {
    RunsEmptyIff(line);
    RunsSum(line);
    RunsFit(line);
    var runs := Runs(line);
    if runs == [] then [0] else runs
  }

  /* ---------------------------------------------------------------------- */
  /* Lemmas about Runs                                                      */
  /* ---------------------------------------------------------------------- */

  /** A line has no runs exactly when it has no filled cell. */
  lemma {:induction false} RunsEmptyIff(line: Line)
    ensures Runs(line) == [] <==> Count(line) == 0
    decreases |line|
  {
    if line != [] {
      RunsEmptyIff(line[1..]);
    }
  }

  /** The filled cells of a leading block of `n` cells and the rest add up. */
  lemma {:induction false} CountSplit(line: Line, n: nat)
    requires n <= |line|
    ensures Count(line) == Count(line[..n]) + Count(line[n..])
    decreases n
  {
    if n > 0 {
      CountSplit(line[1..], n - 1);
      assert line[1..][..n - 1] == line[..n][1..];
      assert line[1..][n - 1..] == line[n..];
    }
  }

  /** Every cell of `line` filled: the count is the length. */
  lemma {:induction false} CountAllFilled(line: Line)
    requires forall k :: 0 <= k < |line| ==> line[k]
    ensures Count(line) == |line|
    decreases |line|
  {
    if line != [] {
      CountAllFilled(line[1..]);
    }
  }

  /** The hints add up to the number of filled cells. */
  lemma {:induction false} RunsSum(line: Line)
    ensures Sum(Runs(line)) == Count(line)
    decreases |line|
  {
    if line == [] {
    } else if !line[0] {
      RunsSum(line[1..]);
    } else {
      var n := LeadingRun(line);
      RunsSum(line[n..]);
      CountSplit(line, n);
      CountAllFilled(line[..n]);
    }
  }

  /** The runs, with at least one empty cell between neighbours, fit in the
      line: (sum of hints) + (number of hints - 1) <= length. */
  lemma {:induction false} RunsFit(line: Line)
    ensures Runs(line) != [] ==> Sum(Runs(line)) + |Runs(line)| - 1 <= |line|
    decreases |line|
  {
    if line == [] {
    } else if !line[0] {
      RunsFit(line[1..]);
    } else {
      var n := LeadingRun(line);
      var rest := line[n..];
      if rest != [] {
        assert !rest[0];
        RunsFit(rest[1..]);
        assert Runs(rest) == Runs(rest[1..]);
      }
    }
  }

  /* ---------------------------------------------------------------------- */
  /* The inverse: laying runs out with gaps between them                    */
  /* ---------------------------------------------------------------------- */

  /** `gaps[0]` empty cells, then `runs[0]` filled cells, then `gaps[1]` empty
      cells, ..., then `runs[k-1]` filled cells and `gaps[k]` empty cells. */
  function Place(runs: seq<nat>, gaps: seq<nat>): (line: Line)
    requires |gaps| == |runs| + 1
    ensures |line| == Sum(runs) + Sum(gaps)
  {
    if runs == [] then Blanks(gaps[0])
    else Blanks(gaps[0]) + Fills(runs[0]) + Place(runs[1..], gaps[1..])
  }

  /** Gaps that keep neighbouring runs apart: every inner gap is non-empty. */
  predicate Separating(runs: seq<nat>, gaps: seq<nat>)
  {
    |gaps| == |runs| + 1 && forall i :: 0 < i < |runs| ==> gaps[i] > 0
  }

  /** The gaps of a line: the empty cells before, between and after its runs. */
  function Gaps(line: Line): (gaps: seq<nat>)
    ensures Separating(Runs(line), gaps)
    decreases |line|
  {
    if line == [] then [0]
    else if !line[0] then
      var g := Gaps(line[1..]);
      [g[0] + 1] + g[1..]
    else
      var n := LeadingRun(line);
      var rest := line[n..];
      assert rest != [] ==> !rest[0] && Runs(rest) == Runs(rest[1..]);
      [0] + Gaps(rest)
  }

  /** Leading empty cells do not change the runs. */
  lemma {:induction false} RunsSkipBlanks(n: nat, line: Line)
    ensures Runs(Blanks(n) + line) == Runs(line)
    decreases n
  {
    if n > 0 {
      var s := Blanks(n) + line;
      assert s != [] && !s[0];
      assert s[1..] == Blanks(n - 1) + line;
      RunsSkipBlanks(n - 1, line);
    } else {
      assert Blanks(0) + line == line;
    }
  }

  /** A block of `n > 0` filled cells followed by nothing or by an empty cell
      is one run of length `n`. */
  lemma RunsOfBlock(n: nat, rest: Line)
    requires n > 0
    requires rest != [] ==> !rest[0]
    ensures Runs(Fills(n) + rest) == [n] + Runs(rest)
  {
    var line := Fills(n) + rest;
    assert forall k :: 0 <= k < n ==> line[k];
    assert n < |line| ==> !line[n];
    assert LeadingRun(line) == n;
    assert line[n..] == rest;
  }

  /** One step of RunsOfPlace: a first run laid out in front of the rest. */
  lemma RunsOfPlaceStep(runs: seq<nat>, gaps: seq<nat>)
    requires Separating(runs, gaps) && runs != []
    requires forall k :: 0 <= k < |runs| ==> runs[k] > 0
    requires Runs(Place(runs[1..], gaps[1..])) == runs[1..]
    ensures Runs(Place(runs, gaps)) == runs
  {
    var rest := Place(runs[1..], gaps[1..]);
    if |runs| > 1 {
      assert rest[0] == Blanks(gaps[1])[0];
    } else if rest != [] {
      assert rest == Blanks(gaps[1]);
    }
    RunsOfBlock(runs[0], rest);
    RunsSkipBlanks(gaps[0], Fills(runs[0]) + rest);
    assert Blanks(gaps[0]) + Fills(runs[0]) + rest == Blanks(gaps[0]) + (Fills(runs[0]) + rest);
  }

  /** Runs inverts Place: laying out positive runs with separating gaps and
      reading the runs back gives the same runs (runs are maximal and kept in
      order). */
  lemma {:induction false} RunsOfPlace(runs: seq<nat>, gaps: seq<nat>)
    requires Separating(runs, gaps)
    requires forall k :: 0 <= k < |runs| ==> runs[k] > 0
    ensures Runs(Place(runs, gaps)) == runs
    decreases |runs|
  {
    if runs == [] {
      RunsSkipBlanks(gaps[0], []);
      assert Blanks(gaps[0]) + [] == Blanks(gaps[0]);
    } else {
      RunsOfPlace(runs[1..], gaps[1..]);
      RunsOfPlaceStep(runs, gaps);
    }
  }

  /** One more empty cell in front of the first gap is one more empty cell
      in front of the line. */
  lemma PlaceWiderFirstGap(runs: seq<nat>, gaps: seq<nat>)
    requires |gaps| == |runs| + 1
    ensures Place(runs, [gaps[0] + 1] + gaps[1..]) == [false] + Place(runs, gaps)
  {
    var g := gaps[0];
    var wider := [g + 1] + gaps[1..];
    assert Blanks(g + 1) == [false] + Blanks(g);
    if runs != [] {
      assert wider[0] == g + 1 && wider[1..] == gaps[1..];
      var front := Fills(runs[0]) + Place(runs[1..], gaps[1..]);
      PlaceShape(runs, wider, front);
      PlaceShape(runs, gaps, front);
    }
  }

  /** Place of a non-empty list of runs: the first gap, then the rest. */
  lemma PlaceShape(runs: seq<nat>, gaps: seq<nat>, front: Line)
    requires |gaps| == |runs| + 1 && runs != []
    requires front == Fills(runs[0]) + Place(runs[1..], gaps[1..])
    ensures Place(runs, gaps) == Blanks(gaps[0]) + front
  {
  }

  /** One step of PlaceOfRuns at an empty first cell. */
  lemma PlaceOfRunsBlank(line: Line)
    requires line != [] && !line[0]
    requires Place(Runs(line[1..]), Gaps(line[1..])) == line[1..]
    ensures Place(Runs(line), Gaps(line)) == line
  {
    PlaceWiderFirstGap(Runs(line[1..]), Gaps(line[1..]));
    assert line == [false] + line[1..];
  }

  /** A first run, with no empty cell before it, in front of any layout. */
  lemma PlaceFront(n: nat, runs: seq<nat>, gaps: seq<nat>, rest: Line)
    requires |gaps| == |runs| + 1 && Place(runs, gaps) == rest
    ensures Place([n] + runs, [0] + gaps) == Fills(n) + rest
  {
    assert ([n] + runs)[1..] == runs;
    assert ([0] + gaps)[1..] == gaps;
    assert Blanks(0) == [];
  }

  /** The runs and gaps of a line that starts with a filled cell: its
      leading run, then those of the rest. */
  lemma BlockShape(line: Line)
    requires line != [] && line[0]
    ensures Runs(line) == [LeadingRun(line)] + Runs(line[LeadingRun(line)..])
    ensures Gaps(line) == [0] + Gaps(line[LeadingRun(line)..])
  {
  }

  /** A line is its leading run followed by the rest of it. */
  lemma LeadingRunSplit(line: Line)
    ensures line == Fills(LeadingRun(line)) + line[LeadingRun(line)..]
  {
    var n := LeadingRun(line);
    assert line[..n] == Fills(n);
    assert line == line[..n] + line[n..];
  }

  /** One step of PlaceOfRuns at a filled first cell: its leading run. */
  lemma PlaceOfRunsBlock(line: Line)
    requires line != [] && line[0]
    requires Place(Runs(line[LeadingRun(line)..]), Gaps(line[LeadingRun(line)..]))
             == line[LeadingRun(line)..]
    ensures Place(Runs(line), Gaps(line)) == line
  {
    var n := LeadingRun(line);
    var rest := line[n..];
    BlockShape(line);
    PlaceFront(n, Runs(rest), Gaps(rest), rest);
    LeadingRunSplit(line);
  }

  /** Every line is its runs laid out with its gaps, so the runs and gaps of a
      line determine it. */
  lemma {:induction false} PlaceOfRuns(line: Line)
    ensures Place(Runs(line), Gaps(line)) == line
    decreases |line|
  {
    if line == [] {
    } else if !line[0] {
      PlaceOfRuns(line[1..]);
      PlaceOfRunsBlank(line);
    } else {
      PlaceOfRuns(line[LeadingRun(line)..]);
      PlaceOfRunsBlock(line);
    }
  }

  /* ---------------------------------------------------------------------- */
  /* The state of the hint loop, step by step                               */
  /* ---------------------------------------------------------------------- */

  /** An empty cell at `i` is skipped by Runs. */
  lemma RunsAtBlank(line: Line, i: nat)
    requires i < |line| && !line[i]
    ensures Runs(line[i..]) == Runs(line[i + 1..])
  {
    assert line[i..][1..] == line[i + 1..];
  }

  /** A block of filled cells from `start` up to an empty cell at `i`, or up
      to the end of the line at `i`, is one run of length `i - start`. */
  lemma RunsAtBlockEnd(line: Line, start: nat, i: nat)
    requires start < i <= |line|
    requires forall k :: start <= k < i ==> line[k]
    requires i < |line| ==> !line[i]
    ensures Runs(line[start..]) == [i - start] + Runs(line[i..])
  {
    var s := line[start..];
    assert s[..i - start] == Fills(i - start);
    assert s == Fills(i - start) + line[i..];
    RunsOfBlock(i - start, line[i..]);
  }

  /** At the end of a line, the pending block of `count` filled cells is its
      last run, if there is one. */
  lemma RunsAtEnd(line: Line, count: nat)
    requires count <= |line|
    requires forall k :: |line| - count <= k < |line| ==> line[k]
    ensures Runs(line[|line| - count..]) == if count > 0 then [count] else []
  {
    assert line[|line|..] == [];
    if count > 0 {
      RunsAtBlockEnd(line, |line| - count, |line|);
    }
  }

  /** The state of the hint loop after reading the first `i` cells of
      `line`: `count` filled cells are pending, and the runs already pushed
      followed by the runs from the start of the pending block are all the
      runs of the line. */
  predicate Scanned(line: Line, i: nat, count: nat, hints: seq<nat>)
  {
    && count <= i <= |line|
    && (forall k :: i - count <= k < i ==> line[k])
    && hints + Runs(line[i - count..]) == Runs(line)
  }

  /** A filled cell extends the pending run. */
  lemma ScanFilled(line: Line, i: nat, count: nat, hints: seq<nat>)
    requires Scanned(line, i, count, hints) && i < |line| && line[i]
    ensures Scanned(line, i + 1, count + 1, hints)
  {
    assert (i + 1) - (count + 1) == i - count;
  }

  /** An empty cell pushes the pending run, if any. */
  lemma ScanBlank(line: Line, i: nat, count: nat, hints: seq<nat>)
    requires Scanned(line, i, count, hints) && i < |line| && !line[i]
    ensures Scanned(line, i + 1, 0, if count > 0 then hints + [count] else hints)
  {
    if count > 0 {
      RunsAtBlockEnd(line, i - count, i);
    }
    RunsAtBlank(line, i);
  }

  /** At the end of the line, pushing the pending run, if any, gives all
      the runs, and `[0]` stands in for none: the hints of the line. */
  lemma ScanDone(line: Line, count: nat, hints0: seq<nat>, hints: seq<nat>)
    requires Scanned(line, |line|, count, hints0)
    requires var runs := if count > 0 then hints0 + [count] else hints0;
      hints == if runs == [] then [0] else runs
    ensures hints == LineHints(line)
  {
    RunsAtEnd(line, count);
  }

  /** Before the first cell: no hints, nothing pending. */
  lemma ScanStart(line: Line)
    ensures Scanned(line, 0, 0, [])
  {
    assert line[0..] == line;
  }

  /** One step of either loop: after reading `cell` at `i` and moving on to
      `next`, the new count and hints are those the source computes from the
      old ones. */
  lemma ScanStep(line: Line, i: nat, next: nat, cell: bool, count0: nat, hints0: seq<nat>,
                 count: nat, hints: seq<nat>)
    requires Scanned(line, i, count0, hints0) && i < |line| && line[i] == cell && next == i + 1
    requires count == if cell then count0 + 1 else 0
    requires hints == if !cell && count0 > 0 then hints0 + [count0] else hints0
    ensures Scanned(line, next, count, hints)
  {
    if cell {
      ScanFilled(line, i, count0, hints0);
    } else {
      ScanBlank(line, i, count0, hints0);
    }
  }

  /* ---------------------------------------------------------------------- */
  /* Examples                                                               */
  /* ---------------------------------------------------------------------- */

  /** The row 1,1,0,1,1,1,0,0 has the hints 2, 3. */
  lemma ExampleTwoRuns()
    ensures LineHints([true, true, false, true, true, true, false, false]) == [2, 3]
  {
    var line := [true, true, false, true, true, true, false, false];
    assert Place([3], [1, 2]) == Blanks(1) + Fills(3) + Blanks(2);
    assert Place([2, 3], [0, 1, 2]) == Blanks(0) + Fills(2) + Place([3], [1, 2]);
    assert Place([2, 3], [0, 1, 2]) == line;
    RunsOfPlace([2, 3], [0, 1, 2]);
  }

  /** An empty row of length 6 has the single hint 0. */
  lemma ExampleEmptyRow()
    ensures LineHints(Blanks(6)) == [0]
  {
    assert Blanks(6) == Blanks(6) + [];
    RunsSkipBlanks(6, []);
  }
}
