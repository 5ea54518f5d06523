/** The S-O-S line detector as a function of the board and the registry.
    `Detect(g, lines, who)` is the registry after one detector call made on
    behalf of `who`: the scan visits every cell row by row, and at each cell
    the four directions in order, exactly as the detector's loops do, and
    appends each S-O-S triple whose endpoint pair is not yet recorded. */
module LineDetector {
  import opened SOSGame
  import opened Board

  /** The i-th scan direction: horizontal, vertical, down-right, down-left. */
  function Dir(i: nat): (d: (int, int))
    requires i < 4
    ensures 0 <= d.0 <= 1 && -1 <= d.1 <= 1 && d != (0, 0)
  {
    if i == 0 then (0, 1) else if i == 1 then (1, 0) else if i == 2 then (1, 1) else (1, -1)
  }

  /** Cells (r, c), (r, c) + d and (r, c) + 2d, with d the i-th direction,
      all lie on the board and read 'S', 'O', 'S'. */
  predicate SOSAt(g: Grid, r: int, c: int, i: nat)
    requires Square(g) && i < 4
  {
    var (dr, dc) := Dir(i);
    InBounds(|g|, r, c) && InBounds(|g|, r + 2 * dr, c + 2 * dc)
    && g[r][c] == 'S' && g[r + dr][c + dc] == 'O' && g[r + 2 * dr][c + 2 * dc] == 'S'
  }

  /** Line `l` joins (r1, c1) and (r2, c2), in either orientation. */
  predicate Joins(l: Line, r1: int, c1: int, r2: int, c2: int)
  {
    (l.startRow == r1 && l.startCol == c1 && l.endRow == r2 && l.endCol == c2) ||
    (l.startRow == r2 && l.startCol == c2 && l.endRow == r1 && l.endCol == c1)
  }

  /** Some line of the registry already joins (r1, c1) and (r2, c2). */
  predicate Recorded(lines: seq<Line>, r1: int, c1: int, r2: int, c2: int)
  {
    exists j :: 0 <= j < |lines| && Joins(lines[j], r1, c1, r2, c2)
  }

  /** Whether a pair of cells is recorded does not depend on which end is
      named first. */
  lemma RecordedEitherOrientation(lines: seq<Line>, r1: int, c1: int, r2: int, c2: int)
    ensures Recorded(lines, r1, c1, r2, c2) <==> Recorded(lines, r2, c2, r1, c1)
  {
    if Recorded(lines, r1, c1, r2, c2) {
      var j :| 0 <= j < |lines| && Joins(lines[j], r1, c1, r2, c2);
      assert Joins(lines[j], r2, c2, r1, c1);
    }
    if Recorded(lines, r2, c2, r1, c1) {
      var j :| 0 <= j < |lines| && Joins(lines[j], r2, c2, r1, c1);
      assert Joins(lines[j], r1, c1, r2, c2);
    }
  }

  /** One step of the scan: cell (r, c), direction i. */
  function Visit(g: Grid, lines: seq<Line>, who: Color, r: int, c: int, i: nat): seq<Line>
    requires Square(g) && i < 4
  {
    var (dr, dc) := Dir(i);
    if SOSAt(g, r, c, i) && !Recorded(lines, r, c, r + 2 * dr, c + 2 * dc)
    then lines + [Line(r, c, r + 2 * dr, c + 2 * dc, who)]
    else lines
  }

  /** Directions i..3 at cell (r, c). */
  function ScanDirs(g: Grid, lines: seq<Line>, who: Color, r: int, c: int, i: nat): seq<Line>
    requires Square(g) && i <= 4
    decreases 4 - i
  {
    if i == 4 then lines else ScanDirs(g, Visit(g, lines, who, r, c, i), who, r, c, i + 1)
  }

  /** Cells c.. of row r. */
  function ScanCols(g: Grid, lines: seq<Line>, who: Color, r: int, c: nat): seq<Line>
    requires Square(g) && c <= |g|
    decreases |g| - c
  {
    if c == |g| then lines else ScanCols(g, ScanDirs(g, lines, who, r, c, 0), who, r, c + 1)
  }

  /** Rows r.. of the board. */
  function ScanRows(g: Grid, lines: seq<Line>, who: Color, r: nat): seq<Line>
    requires Square(g) && r <= |g|
    decreases |g| - r
  {
    if r == |g| then lines else ScanRows(g, ScanCols(g, lines, who, r, 0), who, r + 1)
  }

  /** The registry after a detector call on behalf of `who`. */
  function Detect(g: Grid, lines: seq<Line>, who: Color): seq<Line>
    requires Square(g)
  {
    ScanRows(g, lines, who, 0)
  }

  // ---------------------------------------------------------------------
  // What an appended line is

  /** `l` starts at an S-O-S triple along one of the four directions and ends
      at that triple's far endpoint. */
  ghost predicate IsSOSLine(g: Grid, l: Line)
    requires Square(g)
  {
    exists i :: 0 <= i < 4 && SOSAt(g, l.startRow, l.startCol, i)
      && l.endRow == l.startRow + 2 * Dir(i).0 && l.endCol == l.startCol + 2 * Dir(i).1
  }

  /** Entry j of the registry is an S-O-S line of `g` whose endpoint pair no
      earlier entry joins. */
  ghost predicate FreshEntry(g: Grid, lines: seq<Line>, j: int)
    requires Square(g) && 0 <= j < |lines|
  {
    var l := lines[j];
    IsSOSLine(g, l) && !Recorded(lines[..j], l.startRow, l.startCol, l.endRow, l.endCol)
  }

  /** `after` keeps `before` as a prefix, and every entry it adds is a fresh
      S-O-S line of `g` credited to `who`. */
  ghost predicate Extends(g: Grid, before: seq<Line>, after: seq<Line>, who: Color)
    requires Square(g)
  {
    |before| <= |after| && after[..|before|] == before &&
    forall j :: |before| <= j < |after| ==> after[j].player == who && FreshEntry(g, after, j)
  }

  /** Every entry of the registry is an S-O-S line of `g`, and no two entries
      join the same pair of cells. */
  ghost predicate RegistryValid(g: Grid, lines: seq<Line>)
    requires Square(g)
  {
    forall j :: 0 <= j < |lines| ==> FreshEntry(g, lines, j)
  }

  lemma {:induction false} ExtendsTrans(g: Grid, a: seq<Line>, b: seq<Line>, c: seq<Line>, who: Color)
    requires Square(g)
    requires Extends(g, a, b, who) && Extends(g, b, c, who)
    ensures Extends(g, a, c, who)
  {
    assert c[..|a|] == c[..|b|][..|a|];
    forall j | |a| <= j < |c|
      ensures c[j].player == who && FreshEntry(g, c, j)
    {
      if j < |b| {
        assert c[j] == c[..|b|][j];
        assert c[..j] == c[..|b|][..j];
        assert FreshEntry(g, b, j);
      }
    }
  }

  lemma VisitExtends(g: Grid, lines: seq<Line>, who: Color, r: int, c: int, i: nat)
    requires Square(g) && i < 4
    ensures Extends(g, lines, Visit(g, lines, who, r, c, i), who)
  {
    var after := Visit(g, lines, who, r, c, i);
    if |after| > |lines| {
      assert after[..|lines|] == lines;
      assert IsSOSLine(g, after[|lines|]);
    }
  }

  lemma {:induction false} ScanDirsExtends(g: Grid, lines: seq<Line>, who: Color, r: int, c: int, i: nat)
    requires Square(g) && i <= 4
    ensures Extends(g, lines, ScanDirs(g, lines, who, r, c, i), who)
    decreases 4 - i
  {
    if i == 4 {
      assert lines[..|lines|] == lines;
    } else {
      var mid := Visit(g, lines, who, r, c, i);
      VisitExtends(g, lines, who, r, c, i);
      ScanDirsExtends(g, mid, who, r, c, i + 1);
      ExtendsTrans(g, lines, mid, ScanDirs(g, mid, who, r, c, i + 1), who);
    }
  }

  lemma {:induction false} ScanColsExtends(g: Grid, lines: seq<Line>, who: Color, r: int, c: nat)
    requires Square(g) && c <= |g|
    ensures Extends(g, lines, ScanCols(g, lines, who, r, c), who)
    decreases |g| - c
  {
    if c == |g| {
      assert lines[..|lines|] == lines;
    } else {
      var mid := ScanDirs(g, lines, who, r, c, 0);
      ScanDirsExtends(g, lines, who, r, c, 0);
      ScanColsExtends(g, mid, who, r, c + 1);
      ExtendsTrans(g, lines, mid, ScanCols(g, mid, who, r, c + 1), who);
    }
  }

  lemma {:induction false} ScanRowsExtends(g: Grid, lines: seq<Line>, who: Color, r: nat)
    requires Square(g) && r <= |g|
    ensures Extends(g, lines, ScanRows(g, lines, who, r), who)
    decreases |g| - r
  {
    if r == |g| {
      assert lines[..|lines|] == lines;
    } else {
      var mid := ScanCols(g, lines, who, r, 0);
      ScanColsExtends(g, lines, who, r, 0);
      ScanRowsExtends(g, mid, who, r + 1);
      ExtendsTrans(g, lines, mid, ScanRows(g, mid, who, r + 1), who);
    }
  }

  /** A detector call only appends (the old registry is a prefix of the new
      one), and every line it appends is an S-O-S line of the board, credited
      to `who`, whose endpoint pair no earlier entry joins in either
      orientation. */
  lemma DetectAppendsFreshLines(g: Grid, lines: seq<Line>, who: Color)
    requires Square(g)
    ensures Extends(g, lines, Detect(g, lines, who), who)
  {
    ScanRowsExtends(g, lines, who, 0);
  }

  // ---------------------------------------------------------------------
  // Every triple on the board is recorded after a call

  /** If cell (r, c) starts an S-O-S triple along direction i, the registry
      records its endpoint pair. */
  ghost predicate Covers(g: Grid, lines: seq<Line>, r: int, c: int, i: nat)
    requires Square(g) && i < 4
  {
    SOSAt(g, r, c, i) ==> Recorded(lines, r, c, r + 2 * Dir(i).0, c + 2 * Dir(i).1)
  }

  /** Every S-O-S triple of the board is recorded. */
  ghost predicate AllCovered(g: Grid, lines: seq<Line>)
    requires Square(g)
  {
    forall r, c, i :: 0 <= i < 4 ==> Covers(g, lines, r, c, i)
  }

  lemma CoversPersists(g: Grid, a: seq<Line>, b: seq<Line>, r: int, c: int, i: nat)
    requires Square(g) && i < 4
    requires |a| <= |b| && b[..|a|] == a
    requires Covers(g, a, r, c, i)
    ensures Covers(g, b, r, c, i)
  {
    if SOSAt(g, r, c, i) {
      var j :| 0 <= j < |a| && Joins(a[j], r, c, r + 2 * Dir(i).0, c + 2 * Dir(i).1);
      assert b[j] == b[..|a|][j];
    }
  }

  lemma {:induction false} ScanDirsCovers(g: Grid, lines: seq<Line>, who: Color, r: int, c: int, i: nat)
    requires Square(g) && i <= 4
    ensures forall k :: i <= k < 4 ==> Covers(g, ScanDirs(g, lines, who, r, c, i), r, c, k)
    decreases 4 - i
  {
    if i < 4 {
      var mid := Visit(g, lines, who, r, c, i);
      var res := ScanDirs(g, mid, who, r, c, i + 1);
      ScanDirsCovers(g, mid, who, r, c, i + 1);
      assert Covers(g, mid, r, c, i) by {
        if SOSAt(g, r, c, i) && |mid| > |lines| {
          assert Joins(mid[|lines|], r, c, r + 2 * Dir(i).0, c + 2 * Dir(i).1);
        }
      }
      ScanDirsExtends(g, mid, who, r, c, i + 1);
      CoversPersists(g, mid, res, r, c, i);
    }
  }

  lemma {:induction false} ScanColsCovers(g: Grid, lines: seq<Line>, who: Color, r: int, c: nat)
    requires Square(g) && c <= |g|
    ensures forall cc, k :: c <= cc < |g| && 0 <= k < 4 ==> Covers(g, ScanCols(g, lines, who, r, c), r, cc, k)
    decreases |g| - c
  {
    if c < |g| {
      var mid := ScanDirs(g, lines, who, r, c, 0);
      var res := ScanCols(g, mid, who, r, c + 1);
      ScanColsCovers(g, mid, who, r, c + 1);
      ScanDirsCovers(g, lines, who, r, c, 0);
      ScanColsExtends(g, mid, who, r, c + 1);
      forall cc, k | c <= cc < |g| && 0 <= k < 4
        ensures Covers(g, res, r, cc, k)
      {
        if cc == c {
          CoversPersists(g, mid, res, r, c, k);
        }
      }
    }
  }

  lemma {:induction false} ScanRowsCovers(g: Grid, lines: seq<Line>, who: Color, r: nat)
    requires Square(g) && r <= |g|
    ensures forall rr, cc, k :: r <= rr < |g| && 0 <= cc < |g| && 0 <= k < 4 ==>
      Covers(g, ScanRows(g, lines, who, r), rr, cc, k)
    decreases |g| - r
  {
    if r < |g| {
      var mid := ScanCols(g, lines, who, r, 0);
      var res := ScanRows(g, mid, who, r + 1);
      ScanRowsCovers(g, mid, who, r + 1);
      ScanColsCovers(g, lines, who, r, 0);
      ScanRowsExtends(g, mid, who, r + 1);
      forall rr, cc, k | r <= rr < |g| && 0 <= cc < |g| && 0 <= k < 4
        ensures Covers(g, res, rr, cc, k)
      {
        if rr == r {
          CoversPersists(g, mid, res, r, cc, k);
        }
      }
    }
  }

  /** After a detector call, every S-O-S triple on the board, along any of
      the four directions, is recorded in the registry. */
  lemma DetectRecordsEveryTriple(g: Grid, lines: seq<Line>, who: Color)
    requires Square(g)
    ensures AllCovered(g, Detect(g, lines, who))
  {
    var res := Detect(g, lines, who);
    ScanRowsCovers(g, lines, who, 0);
    forall r, c, i | 0 <= i < 4
      ensures Covers(g, res, r, c, i)
    {
      if SOSAt(g, r, c, i) {
        assert 0 <= r < |g| && 0 <= c < |g|;
      }
    }
  }

  // ---------------------------------------------------------------------
  // Nothing is appended when every triple is recorded

  lemma {:induction false} ScanDirsNoNew(g: Grid, lines: seq<Line>, who: Color, r: int, c: int, i: nat)
    requires Square(g) && i <= 4 && AllCovered(g, lines)
    ensures ScanDirs(g, lines, who, r, c, i) == lines
    decreases 4 - i
  {
    if i < 4 {
      assert Covers(g, lines, r, c, i);
      assert Visit(g, lines, who, r, c, i) == lines;
      ScanDirsNoNew(g, lines, who, r, c, i + 1);
    }
  }

  lemma {:induction false} ScanColsNoNew(g: Grid, lines: seq<Line>, who: Color, r: int, c: nat)
    requires Square(g) && c <= |g| && AllCovered(g, lines)
    ensures ScanCols(g, lines, who, r, c) == lines
    decreases |g| - c
  {
    if c < |g| {
      ScanDirsNoNew(g, lines, who, r, c, 0);
      ScanColsNoNew(g, lines, who, r, c + 1);
    }
  }

  lemma {:induction false} ScanRowsNoNew(g: Grid, lines: seq<Line>, who: Color, r: nat)
    requires Square(g) && r <= |g| && AllCovered(g, lines)
    ensures ScanRows(g, lines, who, r) == lines
    decreases |g| - r
  {
    if r < |g| {
      ScanColsNoNew(g, lines, who, r, 0);
      ScanRowsNoNew(g, lines, who, r + 1);
    }
  }

  /** A registry that already records every S-O-S triple of the board is
      left as it is by a detector call. */
  lemma DetectNothingNew(g: Grid, lines: seq<Line>, who: Color)
    requires Square(g) && AllCovered(g, lines)
    ensures Detect(g, lines, who) == lines
  {
    ScanRowsNoNew(g, lines, who, 0);
  }

  /** A second detector call with no move in between, on behalf of anyone,
      appends nothing: it finds 0 new lines. */
  lemma DetectIdempotent(g: Grid, lines: seq<Line>, who: Color, next: Color)
    requires Square(g)
    ensures Detect(g, Detect(g, lines, who), next) == Detect(g, lines, who)
  {
    DetectRecordsEveryTriple(g, lines, who);
    DetectNothingNew(g, Detect(g, lines, who), next);
  }

  // ---------------------------------------------------------------------
  // The registry invariant

  /** A detector call keeps the registry invariant: its entries stay S-O-S
      lines of the board and no endpoint pair appears twice. */
  lemma DetectKeepsRegistryValid(g: Grid, lines: seq<Line>, who: Color)
    requires Square(g) && RegistryValid(g, lines)
    ensures RegistryValid(g, Detect(g, lines, who))
  {
    var res := Detect(g, lines, who);
    DetectAppendsFreshLines(g, lines, who);
    forall j | 0 <= j < |lines|
      ensures FreshEntry(g, res, j)
    {
      assert res[j] == res[..|lines|][j];
      assert res[..j] == res[..|lines|][..j];
      assert FreshEntry(g, lines, j);
    }
  }

  /** In a valid registry no two entries join the same pair of cells. */
  lemma RegistryHasNoDuplicates(g: Grid, lines: seq<Line>, j: int, k: int)
    requires Square(g) && RegistryValid(g, lines)
    requires 0 <= j < k < |lines|
    ensures !Joins(lines[j], lines[k].startRow, lines[k].startCol, lines[k].endRow, lines[k].endCol)
  {
    assert FreshEntry(g, lines, k);
    assert lines[j] == lines[..k][j];
  }

  lemma PlaceKeepsSOS(g: Grid, pr: int, pc: int, x: char, r: int, c: int, i: nat)
    requires Square(g) && InBounds(|g|, pr, pc) && g[pr][pc] == Empty && i < 4
    requires SOSAt(g, r, c, i)
    ensures SOSAt(Place(g, pr, pc, x), r, c, i)
  {
  }

  /** Writing into an empty cell keeps every recorded line an S-O-S line:
      the letters of a recorded line are never empty, so never overwritten. */
  lemma PlaceKeepsRegistryValid(g: Grid, lines: seq<Line>, pr: int, pc: int, x: char)
    requires Square(g) && InBounds(|g|, pr, pc) && g[pr][pc] == Empty
    requires RegistryValid(g, lines)
    ensures RegistryValid(Place(g, pr, pc, x), lines)
  {
    var g' := Place(g, pr, pc, x);
    forall j | 0 <= j < |lines|
      ensures FreshEntry(g', lines, j)
    {
      assert FreshEntry(g, lines, j);
      var l := lines[j];
      var i :| 0 <= i < 4 && SOSAt(g, l.startRow, l.startCol, i)
        && l.endRow == l.startRow + 2 * Dir(i).0 && l.endCol == l.startCol + 2 * Dir(i).1;
      PlaceKeepsSOS(g, pr, pc, x, l.startRow, l.startCol, i);
    }
  }

  // ---------------------------------------------------------------------
  // Credit: how many entries belong to each side

  /** The number of registry entries credited to `side`. */
  function Credit(lines: seq<Line>, side: Color): nat
  {
    if lines == [] then 0
    else Credit(lines[..|lines| - 1], side) + (if lines[|lines| - 1].player == side then 1 else 0)
  }

  /** Every entry is credited to exactly one side. */
  lemma {:induction false} CreditSplits(lines: seq<Line>)
    ensures Credit(lines, Blue) + Credit(lines, Red) == |lines|
  {
    if lines != [] {
      CreditSplits(lines[..|lines| - 1]);
    }
  }

  /** Appending entries all credited to `who` adds their number to `who`'s
      credit and nothing to the other side's. */
  lemma {:induction false} CreditAppend(before: seq<Line>, after: seq<Line>, who: Color)
    requires |before| <= |after| && after[..|before|] == before
    requires forall j :: |before| <= j < |after| ==> after[j].player == who
    ensures Credit(after, who) == Credit(before, who) + (|after| - |before|)
    ensures Credit(after, who.Other()) == Credit(before, who.Other())
    decreases |after|
  {
    if |after| > |before| {
      var init := after[..|after| - 1];
      assert init[..|before|] == before;
      CreditAppend(before, init, who);
    } else {
      assert after == before;
    }
  }

  /** A detector call on behalf of `who` credits all the lines it finds to
      `who`: `who`'s credit grows by the number found, the other side's is
      unchanged. */
  lemma DetectCredits(g: Grid, lines: seq<Line>, who: Color)
    requires Square(g)
    ensures Credit(Detect(g, lines, who), who) == Credit(lines, who) + (|Detect(g, lines, who)| - |lines|)
    ensures Credit(Detect(g, lines, who), who.Other()) == Credit(lines, who.Other())
  {
    DetectAppendsFreshLines(g, lines, who);
    CreditAppend(lines, Detect(g, lines, who), who);
  }
}
