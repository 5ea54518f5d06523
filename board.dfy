/** The board as a value: an N-by-N grid of characters in which `' '` marks
    an empty cell. The game object keeps the board in an `array2<char>`;
    this module is the vocabulary its contracts are written in. */
module Board {

  /** The character of an empty cell. */
  const Empty: char := ' '

  type Grid = seq<seq<char>>

  /** Every row is as long as there are rows. */
  ghost predicate Square(g: Grid)
  {
    forall i :: 0 <= i < |g| ==> |g[i]| == |g|
  }

  /** Whether (r, c) lies on an n-by-n board. */
  predicate InBounds(n: int, r: int, c: int)
  {
    0 <= r < n && 0 <= c < n
  }

  /** A fresh n-by-n board: every cell empty. */
  function EmptyGrid(n: nat): (g: Grid)
    ensures |g| == n && Square(g)
    ensures forall r, c :: 0 <= r < n && 0 <= c < n ==> g[r][c] == Empty
  {
    seq(n, _ => seq(n, _ => Empty))
  }

  /** The board after `x` is written into cell (r, c). */
  function Place(g: Grid, r: int, c: int, x: char): (g': Grid)
    requires Square(g) && InBounds(|g|, r, c)
    ensures |g'| == |g| && Square(g')
    ensures g'[r][c] == x
    ensures forall i, j :: InBounds(|g|, i, j) && (i, j) != (r, c) ==> g'[i][j] == g[i][j]
  {
    g[r := g[r][c := x]]
  }

  /** The coordinates of the empty cells. */
  ghost function EmptyCells(g: Grid): set<(int, int)>
    requires Square(g)
  {
    set r, c | 0 <= r < |g| && 0 <= c < |g| && g[r][c] == Empty :: (r, c)
  }

  /** No cell is empty. */
  ghost predicate IsFull(g: Grid)
    requires Square(g)
  {
    forall r, c :: 0 <= r < |g| && 0 <= c < |g| ==> g[r][c] != Empty
  }

  /** A board is full exactly when it has no empty cell. */
  lemma FullIffNoEmptyCell(g: Grid)
    requires Square(g)
    ensures IsFull(g) <==> EmptyCells(g) == {}
  {
    if !IsFull(g) {
      var r, c :| 0 <= r < |g| && 0 <= c < |g| && g[r][c] == Empty;
      assert (r, c) in EmptyCells(g);
    }
  }

  /** Writing a letter into an empty cell fills that cell and no other: the
      number of empty cells drops by exactly one. */
  lemma PlaceFillsOneCell(g: Grid, r: int, c: int, x: char)
    requires Square(g) && InBounds(|g|, r, c)
    requires g[r][c] == Empty && x != Empty
    ensures EmptyCells(Place(g, r, c, x)) == EmptyCells(g) - {(r, c)}
    ensures |EmptyCells(Place(g, r, c, x))| == |EmptyCells(g)| - 1
  {
    var g' := Place(g, r, c, x);
    assert (r, c) in EmptyCells(g);
    assert EmptyCells(g') == EmptyCells(g) - {(r, c)} by {
      forall p | p in EmptyCells(g')
        ensures p in EmptyCells(g) - {(r, c)}
      {
        var i, j := p.0, p.1;
        assert g'[i][j] == Empty;
      }
    }
  }
}
