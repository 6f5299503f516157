/** Lines of stones along the four axes of the grid, and what it means for
    the stone just placed at (r, c) to complete five in a row.

    A direction is a step (dr, dc); the k-th step from (r, c) along it is the
    cell (r + k * dr, c + k * dc), so that step 0 is (r, c) itself and a
    negative step runs the other way. */
module Lines {
  import opened Board

  datatype Direction = Direction(dr: int, dc: int)

  /** The four axes the win check looks along: horizontal, vertical, the
      diagonal going down to the right and the one going down to the left. */
  const Axes: seq<Direction> := [Direction(0, 1), Direction(1, 0), Direction(1, 1), Direction(1, -1)]

  /** The same axis walked the other way. */
  function Opposite(d: Direction): Direction
  {
    Direction(-d.dr, -d.dc)
  }

  /** A step to one of the eight neighbouring cells. */
  predicate IsUnit(d: Direction)
  {
    -1 <= d.dr <= 1 && -1 <= d.dc <= 1 && d != Direction(0, 0)
  }

  lemma AxesAreUnit()
    ensures forall i :: 0 <= i < |Axes| ==> IsUnit(Axes[i]) && IsUnit(Opposite(Axes[i]))
  {
  }

  /** The k-th step from (r, c) along `d` is on the grid and holds `p`'s stone. */
  predicate StepHolds(b: array2<Cell>, r: int, c: int, d: Direction, k: int, p: Player)
    reads b
  {
    StoneAt(b, r + k * d.dr, c + k * d.dc, p)
  }

  /** Walking `-k` steps along `d` is walking `k` steps along its opposite. */
  lemma OppositeStep(b: array2<Cell>, r: int, c: int, d: Direction, p: Player, k: int)
    ensures StepHolds(b, r, c, Opposite(d), k, p) == StepHolds(b, r, c, d, -k, p)
  {
    // k * -dr == -k * dr, and likewise for the columns.
  }

  /** How many consecutive steps from (r, c) along `d` hold `p`'s stones,
      looking at most `limit` steps away: the stones are at steps 1 to n, and
      unless the limit was reached step n + 1 is off the grid or not `p`'s. */
  ghost function Reach(b: array2<Cell>, r: int, c: int, d: Direction, p: Player, limit: nat): (n: nat)
    reads b
    ensures n <= limit
    ensures forall k :: 1 <= k <= n ==> StepHolds(b, r, c, d, k, p)
    ensures n < limit ==> !StepHolds(b, r, c, d, n + 1, p)
    decreases limit
  {
    if limit == 0 then 0
    else
      var m := Reach(b, r, c, d, p, limit - 1);
      if m == limit - 1 && StepHolds(b, r, c, d, limit, p) then limit else m
  }

  /** The three facts Reach ensures single out its result. */
  lemma ReachUnique(b: array2<Cell>, r: int, c: int, d: Direction, p: Player, limit: nat, n: nat)
    requires n <= limit
    requires forall k :: 1 <= k <= n ==> StepHolds(b, r, c, d, k, p)
    requires n < limit ==> !StepHolds(b, r, c, d, n + 1, p)
    ensures Reach(b, r, c, d, p, limit) == n
  {
  }

  /** A number of steps that no walk from a cell of the grid survives. */
  function Horizon(b: array2<Cell>): nat
  {
    b.Length0 + b.Length1
  }

  /** From a cell of the grid, `Horizon(b)` unit steps lead off the grid. */
  lemma HorizonOffGrid(b: array2<Cell>, r: int, c: int, d: Direction, p: Player)
    requires 0 <= r < b.Length0 && 0 <= c < b.Length1 && IsUnit(d)
    ensures !StepHolds(b, r, c, d, Horizon(b), p)
  {
    // A nonzero row step moves Horizon(b) >= Length0 rows away from r;
    // otherwise the column step moves Horizon(b) >= Length1 columns from c.
  }

  /** The run of `p`'s stones from a cell of the grid along a unit direction
      stops before the horizon, so Reach with that limit is the whole run. */
  lemma RunEndsOnGrid(b: array2<Cell>, r: int, c: int, d: Direction, p: Player)
    requires 0 <= r < b.Length0 && 0 <= c < b.Length1 && IsUnit(d)
    ensures Reach(b, r, c, d, p, Horizon(b)) < Horizon(b)
    ensures !StepHolds(b, r, c, d, Reach(b, r, c, d, p, Horizon(b)) + 1, p)
  {
    HorizonOffGrid(b, r, c, d, p);
  }

  /** Stones at steps 1 to k make the whole run at least k long. */
  lemma RunCovers(b: array2<Cell>, r: int, c: int, d: Direction, p: Player, k: nat)
    requires 0 <= r < b.Length0 && 0 <= c < b.Length1 && IsUnit(d)
    requires forall j :: 1 <= j <= k ==> StepHolds(b, r, c, d, j, p)
    ensures Reach(b, r, c, d, p, Horizon(b)) >= k
  {
    RunEndsOnGrid(b, r, c, d, p);
  }

  /** Stones at steps 1 to n and none at step n + 1 make the whole run n long. */
  lemma RunIsExactly(b: array2<Cell>, r: int, c: int, d: Direction, p: Player, n: nat)
    requires 0 <= r < b.Length0 && 0 <= c < b.Length1 && IsUnit(d)
    requires forall j :: 1 <= j <= n ==> StepHolds(b, r, c, d, j, p)
    requires !StepHolds(b, r, c, d, n + 1, p)
    ensures Reach(b, r, c, d, p, Horizon(b)) == n
  {
    RunCovers(b, r, c, d, p, n);
  }

  /** A scan that looks at most 4 steps away sees the whole run, cut at 4. */
  lemma ScanSeesRun(b: array2<Cell>, r: int, c: int, d: Direction, p: Player)
    requires 0 <= r < b.Length0 && 0 <= c < b.Length1 && IsUnit(d)
    ensures var whole := Reach(b, r, c, d, p, Horizon(b));
            Reach(b, r, c, d, p, 4) == if whole < 4 then whole else 4
  {
    var whole := Reach(b, r, c, d, p, Horizon(b));
    RunEndsOnGrid(b, r, c, d, p);
    ReachUnique(b, r, c, d, p, 4, if whole < 4 then whole else 4);
  }

  /** The count the win check forms for one axis: the cell itself plus at
      most 4 stones each way, so it lies between 1 and 9. */
  ghost function AxisCount(b: array2<Cell>, r: int, c: int, a: Direction, p: Player): (n: nat)
    reads b
    ensures 1 <= n <= 9
  {
    1 + Reach(b, r, c, a, p, 4) + Reach(b, r, c, Opposite(a), p, 4)
  }

  /** The length of the contiguous line through (r, c) along axis `a`:
      the cell itself and every stone of `p` that follows it either way. */
  ghost function LineLength(b: array2<Cell>, r: int, c: int, a: Direction, p: Player): nat
    reads b
  {
    1 + Reach(b, r, c, a, p, Horizon(b)) + Reach(b, r, c, Opposite(a), p, Horizon(b))
  }

  /** LineLength is the length of the run: if `p`'s stones occupy steps lo
      to hi along `a` (with the cell itself at step 0) and both steps beyond
      are off the grid or not `p`'s, the line is hi - lo + 1 long. */
  lemma LineLengthOfRun(b: array2<Cell>, r: int, c: int, a: Direction, p: Player, lo: int, hi: int)
    requires 0 <= r < b.Length0 && 0 <= c < b.Length1 && IsUnit(a)
    requires lo <= 0 <= hi
    requires forall t :: lo <= t <= hi ==> StepHolds(b, r, c, a, t, p)
    requires !StepHolds(b, r, c, a, lo - 1, p) && !StepHolds(b, r, c, a, hi + 1, p)
    ensures LineLength(b, r, c, a, p) == hi - lo + 1
  {
    RunIsExactly(b, r, c, a, p, hi);
    forall k | 1 <= k <= -lo
      ensures StepHolds(b, r, c, Opposite(a), k, p)
    {
      OppositeStep(b, r, c, a, p, k);
    }
    OppositeStep(b, r, c, a, p, -lo + 1);
    RunIsExactly(b, r, c, Opposite(a), p, -lo);
  }

  /** Looking 4 steps each way is enough: the scan's count reaches 5 exactly
      when the whole line does. */
  lemma AxisCountDecides(b: array2<Cell>, r: int, c: int, a: Direction, p: Player)
    requires 0 <= r < b.Length0 && 0 <= c < b.Length1 && IsUnit(a)
    ensures AxisCount(b, r, c, a, p) >= 5 <==> LineLength(b, r, c, a, p) >= 5
  {
    ScanSeesRun(b, r, c, a, p);
    ScanSeesRun(b, r, c, Opposite(a), p);
  }

  /** Five consecutive cells along `a`, steps o to o + 4, all hold `p`. */
  predicate FiveFrom(b: array2<Cell>, r: int, c: int, a: Direction, p: Player, o: int)
    reads b
  {
    forall t :: o <= t < o + 5 ==> StepHolds(b, r, c, a, t, p)
  }

  /** Some five consecutive cells along `a` that include (r, c) all hold `p`. */
  ghost predicate FiveInRow(b: array2<Cell>, r: int, c: int, a: Direction, p: Player)
    reads b
  {
    exists o :: -4 <= o <= 0 && FiveFrom(b, r, c, a, p, o)
  }

  /** A line of 5 or more through a stone of `p` holds five in a row. */
  lemma LongLineHasFive(b: array2<Cell>, r: int, c: int, a: Direction, p: Player)
    requires 0 <= r < b.Length0 && 0 <= c < b.Length1 && IsUnit(a) && b[r, c] == Stone(p)
    ensures LineLength(b, r, c, a, p) >= 5 ==> FiveInRow(b, r, c, a, p)
  {
    if LineLength(b, r, c, a, p) < 5 {
      return;
    }
    var h := Horizon(b);
    var ahead := Reach(b, r, c, a, p, h);
    var behind: int := Reach(b, r, c, Opposite(a), p, h);
    var o := if behind < 4 then -behind else -4;
    forall t | o <= t < o + 5
      ensures StepHolds(b, r, c, a, t, p)
    {
      if t < 0 {
        OppositeStep(b, r, c, a, p, -t);
      } else if t == 0 {
        assert r + t * a.dr == r && c + t * a.dc == c;
      }
    }
    assert FiveFrom(b, r, c, a, p, o);
  }

  /** Five in a row through (r, c) makes the line through it at least 5 long. */
  lemma FiveMakesLongLine(b: array2<Cell>, r: int, c: int, a: Direction, p: Player)
    requires 0 <= r < b.Length0 && 0 <= c < b.Length1 && IsUnit(a)
    requires FiveInRow(b, r, c, a, p)
    ensures LineLength(b, r, c, a, p) >= 5
  {
    var o :| -4 <= o <= 0 && FiveFrom(b, r, c, a, p, o);
    RunCovers(b, r, c, a, p, o + 4);
    forall k | 1 <= k <= -o
      ensures StepHolds(b, r, c, Opposite(a), k, p)
    {
      OppositeStep(b, r, c, a, p, k);
    }
    RunCovers(b, r, c, Opposite(a), p, -o);
  }

  /** Along one axis, through a stone of `p`: a line of at least 5 and a
      window of five in a row are the same thing. */
  lemma LineIffFive(b: array2<Cell>, r: int, c: int, a: Direction, p: Player)
    requires 0 <= r < b.Length0 && 0 <= c < b.Length1 && IsUnit(a) && b[r, c] == Stone(p)
    ensures LineLength(b, r, c, a, p) >= 5 <==> FiveInRow(b, r, c, a, p)
  {
    LongLineHasFive(b, r, c, a, p);
    if FiveInRow(b, r, c, a, p) {
      FiveMakesLongLine(b, r, c, a, p);
    }
  }

  /** The stone at (r, c) wins for `p`: along some axis the contiguous line
      of `p`'s stones through it is 5 or longer (longer lines win too). */
  ghost predicate WinsAt(b: array2<Cell>, r: int, c: int, p: Player)
    reads b
  {
    exists i :: 0 <= i < |Axes| && LineLength(b, r, c, Axes[i], p) >= 5
  }

  /** Along some axis, five consecutive cells through (r, c) hold `p`. */
  ghost predicate FiveThrough(b: array2<Cell>, r: int, c: int, p: Player)
    reads b
  {
    exists i :: 0 <= i < |Axes| && FiveInRow(b, r, c, Axes[i], p)
  }

  /** On some axis the bounded count of the win check reaches 5. */
  ghost predicate ScanWins(b: array2<Cell>, r: int, c: int, p: Player)
    reads b
  {
    exists i :: 0 <= i < |Axes| && AxisCount(b, r, c, Axes[i], p) >= 5
  }

  /** The bounded per-axis counts decide a win: some axis count reaches 5
      exactly when the stone at (r, c) wins. */
  lemma ScanDecidesWin(b: array2<Cell>, r: int, c: int, p: Player)
    requires 0 <= r < b.Length0 && 0 <= c < b.Length1
    ensures ScanWins(b, r, c, p) <==> WinsAt(b, r, c, p)
  {
    AxesAreUnit();
    forall i | 0 <= i < |Axes|
      ensures AxisCount(b, r, c, Axes[i], p) >= 5 <==> LineLength(b, r, c, Axes[i], p) >= 5
    {
      AxisCountDecides(b, r, c, Axes[i], p);
    }
  }

  /** Through a stone of `p`, winning is having five in a row on some axis. */
  lemma WinsAtIffFiveThrough(b: array2<Cell>, r: int, c: int, p: Player)
    requires 0 <= r < b.Length0 && 0 <= c < b.Length1 && b[r, c] == Stone(p)
    ensures WinsAt(b, r, c, p) <==> FiveThrough(b, r, c, p)
  {
    AxesAreUnit();
    forall i | 0 <= i < |Axes|
      ensures LineLength(b, r, c, Axes[i], p) >= 5 <==> FiveInRow(b, r, c, Axes[i], p)
    {
      LineIffFive(b, r, c, Axes[i], p);
    }
  }

  /** No false win: if on every axis the run of `p`'s stones through (r, c)
      is blocked at both ends (by the edge or a cell that is not `p`'s)
      after at most 4 stones, the stone at (r, c) does not win. */
  lemma BlockedRunsDoNotWin(b: array2<Cell>, r: int, c: int, p: Player, lo: seq<int>, hi: seq<int>)
    requires 0 <= r < b.Length0 && 0 <= c < b.Length1
    requires |lo| == |hi| == |Axes|
    requires forall i :: 0 <= i < |Axes| ==> lo[i] <= 0 <= hi[i] && hi[i] - lo[i] < 4
    requires forall i, t :: 0 <= i < |Axes| && lo[i] <= t <= hi[i] ==> StepHolds(b, r, c, Axes[i], t, p)
    requires forall i :: 0 <= i < |Axes| ==>
               !StepHolds(b, r, c, Axes[i], lo[i] - 1, p) && !StepHolds(b, r, c, Axes[i], hi[i] + 1, p)
    ensures !WinsAt(b, r, c, p)
  {
    AxesAreUnit();
    forall i | 0 <= i < |Axes|
      ensures LineLength(b, r, c, Axes[i], p) < 5
    {
      LineLengthOfRun(b, r, c, Axes[i], p, lo[i], hi[i]);
    }
  }

  /** Five in a row along `a` spans five rows when `a` moves between rows,
      and five columns when it moves between columns. */
  lemma WindowSpansFive(b: array2<Cell>, r: int, c: int, a: Direction, p: Player, o: int)
    requires IsUnit(a) && FiveFrom(b, r, c, a, p, o)
    ensures a.dr != 0 ==> b.Length0 >= 5
    ensures a.dc != 0 ==> b.Length1 >= 5
  {
    assert StepHolds(b, r, c, a, o, p) && StepHolds(b, r, c, a, o + 4, p);
    assert (o + 4) * a.dr - o * a.dr == 4 * a.dr;
    assert (o + 4) * a.dc - o * a.dc == 4 * a.dc;
  }

  /** A win needs room: on a grid less than 5 cells high and wide no stone
      wins. */
  lemma WinNeedsRoom(b: array2<Cell>, r: int, c: int, p: Player)
    requires 0 <= r < b.Length0 && 0 <= c < b.Length1 && b[r, c] == Stone(p)
    ensures WinsAt(b, r, c, p) ==> b.Length0 >= 5 || b.Length1 >= 5
  {
    WinsAtIffFiveThrough(b, r, c, p);
    AxesAreUnit();
    if FiveThrough(b, r, c, p) {
      var i :| 0 <= i < |Axes| && FiveInRow(b, r, c, Axes[i], p);
      var o :| -4 <= o <= 0 && FiveFrom(b, r, c, Axes[i], p, o);
      WindowSpansFive(b, r, c, Axes[i], p, o);
    }
  }
}
