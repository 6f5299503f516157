/** The stones and the grid of the five-in-a-row game: who may own a cell,
    which cells hold whose stone, and when the grid has no empty cell left. */
module Board {

  /** The two players; Black moves first. */
  datatype Player = Black | White

  /** The player whose turn follows `p`'s. */
  function Other(p: Player): (q: Player)
    ensures q != p
    ensures p == Black <==> q == White
  {
    if p == Black then White else Black
  }

  /** A cell is empty or holds one player's stone. */
  datatype Cell = Empty | Stone(owner: Player)

  /** Cell (r, c) lies on the grid and holds a stone of `p`. */
  predicate StoneAt(b: array2<Cell>, r: int, c: int, p: Player)
    reads b
  {
    0 <= r < b.Length0 && 0 <= c < b.Length1 && b[r, c] == Stone(p)
  }

  /** No cell of the grid is empty. */
  ghost predicate Full(b: array2<Cell>)
    reads b
  {
    forall r, c :: 0 <= r < b.Length0 && 0 <= c < b.Length1 ==> b[r, c] != Empty
  }

  /** Every cell of row `r` from column `c` on holds a stone: the inner
      `every` of the fullness test, visiting the cells left to right. */
  predicate RowFilledFrom(b: array2<Cell>, r: int, c: int): (filled: bool)
    reads b
    requires 0 <= r < b.Length0 && 0 <= c <= b.Length1
    ensures filled <==> forall j :: c <= j < b.Length1 ==> b[r, j] != Empty
    decreases b.Length1 - c
  {
    c == b.Length1 || (b[r, c] != Empty && RowFilledFrom(b, r, c + 1))
  }

  /** Every row from `r` down holds no empty cell: the outer `every`. */
  predicate RowsFilledFrom(b: array2<Cell>, r: int): (filled: bool)
    reads b
    requires 0 <= r <= b.Length0
    ensures filled <==> forall i, j :: r <= i < b.Length0 && 0 <= j < b.Length1 ==> b[i, j] != Empty
    decreases b.Length0 - r
  {
    r == b.Length0 || (RowFilledFrom(b, r, 0) && RowsFilledFrom(b, r + 1))
  }
}
