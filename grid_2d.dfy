/**
  A 2D grid of encoded correspondence costs over a growable integer cell
  frame: the dense cell vector indexed by `num_x_cells * y + x`, the list of
  cells touched by the update in progress, and a bounding box of the known
  cells.
 */
module Grid {
  import opened ProbabilityValues

  /** A cell index, or a world point discretised at the grid resolution. */
  datatype Cell = Cell(x: int, y: int)

  /** Number of cells along each axis. */
  datatype CellLimits = CellLimits(numXCells: int, numYCells: int)

  /** Limits a grid can have: at least one cell along each axis. */
  predicate ValidLimits(limits: CellLimits)
  {
    limits.numXCells >= 1 && limits.numYCells >= 1
  }

  /** The cell lies inside the limits. */
  predicate Contains(limits: CellLimits, x: int, y: int)
  {
    0 <= x < limits.numXCells && 0 <= y < limits.numYCells
  }

  /** Row-major offset of a cell inside the limits. */
  function FlatIndex(limits: CellLimits, x: int, y: int): (k: int)
    requires Contains(limits, x, y)
    ensures 0 <= k < limits.numXCells * limits.numYCells
  {
    FlatIndexBelowSize(limits, x, y);
    limits.numXCells * y + x
  }

  /** The row-major offset determines the cell: its remainder and quotient by the row length. */
  lemma FlatIndexCoordinates(limits: CellLimits, x: int, y: int)
    requires Contains(limits, x, y)
    ensures FlatIndex(limits, x, y) % limits.numXCells == x && FlatIndex(limits, x, y) / limits.numXCells == y
  {
    FlatIndexDecomposes(limits.numXCells, x, y);
  }

  lemma ProductAtLeast(n: int, m: int)
    requires 0 <= n && 1 <= m
    ensures n <= n * m
  {
  }

  /** Euclidean division recovers both coordinates from the row-major offset. */
  lemma FlatIndexDecomposes(n: int, x: int, y: int)
    requires 0 <= x < n && 0 <= y
    ensures (n * y + x) / n == y && (n * y + x) % n == x
  {
    var k := n * y + x;
    var q, r := k / n, k % n;
    assert k == n * q + r && 0 <= r < n;
    assert n * (q - y) == x - r;
    if q > y {
      ProductAtLeast(n, q - y);
      assert false;
    }
    if q < y {
      ProductAtLeast(n, y - q);
      assert false;
    }
  }

  lemma FlatIndexBelowSize(limits: CellLimits, x: int, y: int)
    requires Contains(limits, x, y)
    ensures limits.numXCells * y + x < limits.numXCells * limits.numYCells
  {
    ProductAtLeast(limits.numXCells, limits.numYCells - y);
    assert limits.numXCells * limits.numYCells == limits.numXCells * y + limits.numXCells * (limits.numYCells - y);
  }

  /** Two cells inside the limits share an offset only if they are the same cell. */
  lemma FlatIndexInjective(limits: CellLimits, x: int, y: int, u: int, v: int)
    requires Contains(limits, x, y) && Contains(limits, u, v)
    requires FlatIndex(limits, x, y) == FlatIndex(limits, u, v)
    ensures x == u && y == v
  {
    FlatIndexCoordinates(limits, x, y);
    FlatIndexCoordinates(limits, u, v);
  }

  /** The code stored for a cell of a cell vector laid out by `limits`. */
  function CellAt(cells: seq<uint16>, limits: CellLimits, x: int, y: int): uint16
    requires |cells| == limits.numXCells * limits.numYCells && Contains(limits, x, y)
  {
    cells[FlatIndex(limits, x, y)]
  }

  /** The cell lies inside the limits and has been updated at least once. */
  ghost predicate KnownAt(cells: seq<uint16>, limits: CellLimits, x: int, y: int)
    requires |cells| == limits.numXCells * limits.numYCells
  {
    Contains(limits, x, y) && CellAt(cells, limits, x, y) != kUnknownCorrespondenceValue
  }

  /** An axis-aligned integer box (Eigen::AlignedBox2i), possibly empty. */
  datatype Box = EmptyBox | Box(minX: int, minY: int, maxX: int, maxY: int)

  /** A non-empty box has its minimum corner below its maximum corner. */
  predicate WellFormedBox(box: Box)
  {
    box.Box? ==> box.minX <= box.maxX && box.minY <= box.maxY
  }

  predicate InBox(box: Box, x: int, y: int)
  {
    box.Box? && box.minX <= x <= box.maxX && box.minY <= y <= box.maxY
  }

  /** The smallest box holding `box` and the cell (x, y). */
  function Extend(box: Box, x: int, y: int): (r: Box)
    ensures InBox(r, x, y)
    ensures forall u, v :: InBox(box, u, v) ==> InBox(r, u, v)
    ensures WellFormedBox(r)
  {
    match box
    case EmptyBox => Box(x, y, x, y)
    case Box(minX, minY, maxX, maxY) =>
      Box(if x < minX then x else minX, if y < minY then y else minY,
          if x > maxX then x else maxX, if y > maxY then y else maxY)
  }

  /** The box shifted by (dx, dy); an empty box stays empty. */
  function Translate(box: Box, dx: int, dy: int): (r: Box)
    ensures forall u, v :: InBox(box, u, v) <==> InBox(r, u + dx, v + dy)
    ensures box.EmptyBox? <==> r.EmptyBox?
    ensures WellFormedBox(box) ==> WellFormedBox(r)
  {
    match box
    case EmptyBox => EmptyBox
    case Box(minX, minY, maxX, maxY) => Box(minX + dx, minY + dy, maxX + dx, maxY + dy)
  }

  /** `value` with the update marker cleared. */
  function ClearUpdateMarker(value: uint16): (r: uint16)
    ensures r < kUpdateMarker
    ensures r == value % kUpdateMarker
  {
    if value >= kUpdateMarker then value - kUpdateMarker else value
  }

  /** The update list names distinct cells, each holding a marked code, and
      every marked cell is on the list. */
  ghost predicate UpdateIndicesValid(cells: seq<uint16>, updateIndices: seq<int>)
  {
    && (forall i :: 0 <= i < |updateIndices| ==>
          0 <= updateIndices[i] < |cells| && kUpdateMarker < cells[updateIndices[i]])
    && (forall i, j :: 0 <= i < j < |updateIndices| ==> updateIndices[i] != updateIndices[j])
    && (forall k :: 0 <= k < |cells| && kUpdateMarker <= cells[k] ==> k in updateIndices)
  }

  /** Every known cell lies inside the box (the box may be wider). */
  ghost predicate KnownCellsInBox(cells: seq<uint16>, limits: CellLimits, box: Box)
    requires |cells| == limits.numXCells * limits.numYCells
  {
    forall x, y :: Contains(limits, x, y) && CellAt(cells, limits, x, y) != kUnknownCorrespondenceValue ==>
      InBox(box, x, y)
  }

  /** A sub-region of a grid: its offset in the grid's frame and its limits. */
  datatype CroppedRegion = CroppedRegion(xOffset: int, yOffset: int, limits: CellLimits)

  /** The limits after one growth step: twice as many cells along each axis. */
  function Doubled(limits: CellLimits): CellLimits
  {
    CellLimits(2 * limits.numXCells, 2 * limits.numYCells)
  }

  lemma DoubledSize(limits: CellLimits)
    requires ValidLimits(limits)
    ensures ValidLimits(Doubled(limits))
    ensures Doubled(limits).numXCells * Doubled(limits).numYCells >= 0
  {
    ProductAtLeast(Doubled(limits).numXCells, Doubled(limits).numYCells);
  }

  /** The code a moved cell vector holds at the old index (a, b): the old
      code when (a, b) lies in the old frame, unknown otherwise. */
  function MovedCell(cells0: seq<uint16>, limits0: CellLimits, a: int, b: int): uint16
    requires |cells0| == limits0.numXCells * limits0.numYCells
  {
    if Contains(limits0, a, b) then CellAt(cells0, limits0, a, b) else kUnknownCorrespondenceValue
  }

  /** The cells after one growth step: the old cells moved by half the old
      extent along each axis, every new cell unknown. */
  function Recentered(cells: seq<uint16>, limits: CellLimits): (r: seq<uint16>)
    requires ValidLimits(limits) && |cells| == limits.numXCells * limits.numYCells
    ensures |r| == Doubled(limits).numXCells * Doubled(limits).numYCells
  {
    DoubledSize(limits);
    var stride := Doubled(limits).numXCells;
    seq(Doubled(limits).numXCells * Doubled(limits).numYCells, k requires 0 <= k =>
      MovedCell(cells, limits, k % stride - limits.numXCells / 2, k / stride - limits.numYCells / 2))
  }

  lemma RecenteredCellAt(cells: seq<uint16>, limits: CellLimits, x: int, y: int)
    requires ValidLimits(limits) && |cells| == limits.numXCells * limits.numYCells
    requires Contains(Doubled(limits), x, y)
    ensures CellAt(Recentered(cells, limits), Doubled(limits), x, y)
            == MovedCell(cells, limits, x - limits.numXCells / 2, y - limits.numYCells / 2)
  {
    FlatIndexCoordinates(Doubled(limits), x, y);
  }

  /** One growth step keeps the cells unmarked and the box around the known cells. */
  lemma RecenteredKeepsGrid(cells: seq<uint16>, limits: CellLimits, box: Box)
    requires ValidLimits(limits) && |cells| == limits.numXCells * limits.numYCells
    requires UpdateIndicesValid(cells, []) && KnownCellsInBox(cells, limits, box)
    ensures UpdateIndicesValid(Recentered(cells, limits), [])
    ensures KnownCellsInBox(Recentered(cells, limits), Doubled(limits),
                            Translate(box, limits.numXCells / 2, limits.numYCells / 2))
  {
    var grown, halfX, halfY := Recentered(cells, limits), limits.numXCells / 2, limits.numYCells / 2;
    forall k | 0 <= k < |grown|
      ensures grown[k] < kUpdateMarker
    {
    }
    forall u, v | Contains(Doubled(limits), u, v) && CellAt(grown, Doubled(limits), u, v) != kUnknownCorrespondenceValue
      ensures InBox(Translate(box, halfX, halfY), u, v)
    {
      RecenteredCellAt(cells, limits, u, v);
      var a, b := u - halfX, v - halfY;
      assert InBox(box, a, b);
      assert a + halfX == u && b + halfY == v;
    }
  }

  /** The frame `limits0`, moved by (xOffset, yOffset), lies inside the frame `limits`. */
  predicate FrameWithin(limits0: CellLimits, limits: CellLimits, xOffset: int, yOffset: int)
  {
    && 0 <= xOffset && xOffset + limits0.numXCells <= limits.numXCells
    && 0 <= yOffset && yOffset + limits0.numYCells <= limits.numYCells
  }

  /** The cells `cells0` of frame `limits0` reappear in `cells` moved by
      (xOffset, yOffset), and every other cell of `cells` is unknown. */
  ghost predicate Placed(cells0: seq<uint16>, limits0: CellLimits, cells: seq<uint16>, limits: CellLimits,
                         xOffset: int, yOffset: int)
  {
    && |cells0| == limits0.numXCells * limits0.numYCells
    && |cells| == limits.numXCells * limits.numYCells
    && FrameWithin(limits0, limits, xOffset, yOffset)
    && forall u, v {:trigger CellAt(cells, limits, u, v)} :: Contains(limits, u, v) ==>
         CellAt(cells, limits, u, v) == MovedCell(cells0, limits0, u - xOffset, v - yOffset)
  }

  /** Nothing moved: a cell vector is placed onto itself. */
  lemma PlacedItself(cells: seq<uint16>, limits: CellLimits)
    requires ValidLimits(limits) && |cells| == limits.numXCells * limits.numYCells
    ensures Placed(cells, limits, cells, limits, 0, 0)
  {
    forall u, v | Contains(limits, u, v)
      ensures CellAt(cells, limits, u, v) == MovedCell(cells, limits, u - 0, v - 0)
    {
      assert u - 0 == u && v - 0 == v;
    }
  }

  /** An old cell keeps its code at its moved index. */
  lemma PlacedOldCell(cells0: seq<uint16>, limits0: CellLimits, cells: seq<uint16>, limits: CellLimits,
                      xOffset: int, yOffset: int, a: int, b: int)
    requires Placed(cells0, limits0, cells, limits, xOffset, yOffset)
    requires Contains(limits0, a, b)
    ensures Contains(limits, a + xOffset, b + yOffset)
    ensures CellAt(cells, limits, a + xOffset, b + yOffset) == CellAt(cells0, limits0, a, b)
  {
    var u, v := a + xOffset, b + yOffset;
    assert CellAt(cells, limits, u, v) == MovedCell(cells0, limits0, u - xOffset, v - yOffset);
    assert u - xOffset == a && v - yOffset == b;
  }

  /** One more growth step composes with the placement so far. */
  lemma RecenteredKeepsPlacement(cells0: seq<uint16>, limits0: CellLimits, cells: seq<uint16>, limits: CellLimits,
                                 xOffset: int, yOffset: int, xMoved: int, yMoved: int)
    requires ValidLimits(limits)
    requires Placed(cells0, limits0, cells, limits, xOffset, yOffset)
    requires xMoved == xOffset + limits.numXCells / 2 && yMoved == yOffset + limits.numYCells / 2
    ensures Placed(cells0, limits0, Recentered(cells, limits), Doubled(limits), xMoved, yMoved)
  {
    forall u, v | Contains(Doubled(limits), u, v)
      ensures CellAt(Recentered(cells, limits), Doubled(limits), u, v)
              == MovedCell(cells0, limits0, u - xMoved, v - yMoved)
    {
      RecenteredMovedCell(cells0, limits0, cells, limits, xOffset, yOffset, xMoved, yMoved, u, v);
    }
  }

  lemma RecenteredMovedCell(cells0: seq<uint16>, limits0: CellLimits, cells: seq<uint16>, limits: CellLimits,
                            xOffset: int, yOffset: int, xMoved: int, yMoved: int, u: int, v: int)
    requires ValidLimits(limits)
    requires Placed(cells0, limits0, cells, limits, xOffset, yOffset)
    requires xMoved == xOffset + limits.numXCells / 2 && yMoved == yOffset + limits.numYCells / 2
    requires Contains(Doubled(limits), u, v)
    ensures CellAt(Recentered(cells, limits), Doubled(limits), u, v)
            == MovedCell(cells0, limits0, u - xMoved, v - yMoved)
  {
    RecenteredCellAt(cells, limits, u, v);
    var a, b := u - limits.numXCells / 2, v - limits.numYCells / 2;
    assert a - xOffset == u - xMoved && b - yOffset == v - yMoved;
    if Contains(limits, a, b) {
      assert CellAt(cells, limits, a, b) == MovedCell(cells0, limits0, a - xOffset, b - yOffset);
    }
  }

  /** Placements compose: two growths in a row move cells by the sum. */
  lemma PlacedTwice(cells0: seq<uint16>, limits0: CellLimits, cells1: seq<uint16>, limits1: CellLimits,
                    cells2: seq<uint16>, limits2: CellLimits,
                    x1: int, y1: int, x2: int, y2: int, xSum: int, ySum: int)
    requires Placed(cells0, limits0, cells1, limits1, x1, y1)
    requires Placed(cells1, limits1, cells2, limits2, x2, y2)
    requires xSum == x1 + x2 && ySum == y1 + y2
    ensures Placed(cells0, limits0, cells2, limits2, xSum, ySum)
  {
    forall u, v | Contains(limits2, u, v)
      ensures CellAt(cells2, limits2, u, v) == MovedCell(cells0, limits0, u - xSum, v - ySum)
    {
      var a, b := u - x2, v - y2;
      assert CellAt(cells2, limits2, u, v) == MovedCell(cells1, limits1, a, b);
      assert a - x1 == u - xSum && b - y1 == v - ySum;
      if Contains(limits1, a, b) {
        assert CellAt(cells1, limits1, a, b) == MovedCell(cells0, limits0, a - x1, b - y1);
      }
    }
  }

  lemma TranslateTwice(box: Box, dx: int, dy: int, ex: int, ey: int)
    ensures Translate(Translate(box, dx, dy), ex, ey) == Translate(box, dx + ex, dy + ey)
  {
  }

  /** How far a coordinate lies outside [0, n); zero exactly when inside. */
  function OutsideDistance(t: int, n: int): nat
  {
    if t < 0 then 2 * -t + (if n == 1 then 1 else 0)
    else if t >= n then t - n + 1
    else 0
  }

  /** A growth step moves every coordinate by half the old extent into an
      axis twice as long, which brings an outside coordinate strictly closer. */
  lemma OutsideDistanceShrinks(t: int, n: int)
    requires n >= 1
    ensures OutsideDistance(t, n) == 0 <==> 0 <= t < n
    ensures OutsideDistance(t + n / 2, 2 * n) <= OutsideDistance(t, n)
    ensures OutsideDistance(t, n) > 0 ==> OutsideDistance(t + n / 2, 2 * n) < OutsideDistance(t, n)
  {
  }

  /** One doubling brings a point outside the limits strictly closer to
      them, measured on both axes together: `(t, u)` in `limits` becomes
      `(t', u')` in the doubled `limits'`. */
  lemma GrowthBringsCloser(limits: CellLimits, t: int, u: int, limits': CellLimits, t': int, u': int)
    requires limits.numXCells >= 1 && limits.numYCells >= 1
    requires !Contains(limits, t, u)
    requires limits' == Doubled(limits)
    requires t' == t + limits.numXCells / 2 && u' == u + limits.numYCells / 2
    ensures OutsideDistance(t', limits'.numXCells) + OutsideDistance(u', limits'.numYCells)
            < OutsideDistance(t, limits.numXCells) + OutsideDistance(u, limits.numYCells)
  {
    OutsideDistanceShrinks(t, limits.numXCells);
    OutsideDistanceShrinks(u, limits.numYCells);
  }

  class Grid2D {
    var limits: CellLimits
    /** The world cell at index (0, 0): where the frame of the limits sits. */
    var origin: Cell
    var correspondenceCostCells: seq<uint16>
    const minCorrespondenceCost: real
    const maxCorrespondenceCost: real
    var updateIndices: seq<int>
    var knownCellsBox: Box
    const valueToCorrespondenceCostTable: seq<real>

    ghost predicate Valid()
      reads this
    {
      && ValidLimits(limits)
      && |correspondenceCostCells| == limits.numXCells * limits.numYCells
      && IsBoundedFloatTable(valueToCorrespondenceCostTable, kUnknownCorrespondenceValue, maxCorrespondenceCost,
                             minCorrespondenceCost, maxCorrespondenceCost)
      && UpdateIndicesValid(correspondenceCostCells, updateIndices)
      && KnownCellsInBox(correspondenceCostCells, limits, knownCellsBox)
      && WellFormedBox(knownCellsBox)
    }

    /** No update is in progress: the state in which the limits may grow. */
    predicate UpdateFinished()
      reads this
    {
      updateIndices == []
    }

    /** A grid of unknown cells; the decode table is the shared correspondence-cost table. */
    constructor (origin: Cell, limits: CellLimits, minCorrespondenceCost: real, maxCorrespondenceCost: real,
                 valueToCorrespondenceCostTable: seq<real>)
      requires ValidLimits(limits)
      requires IsBoundedFloatTable(valueToCorrespondenceCostTable, kUnknownCorrespondenceValue, maxCorrespondenceCost,
                                   minCorrespondenceCost, maxCorrespondenceCost)
      ensures Valid() && UpdateFinished()
      ensures this.origin == origin && this.limits == limits && knownCellsBox == EmptyBox
      ensures correspondenceCostCells == seq(limits.numXCells * limits.numYCells, _ => kUnknownCorrespondenceValue)
      ensures this.minCorrespondenceCost == minCorrespondenceCost
      ensures this.maxCorrespondenceCost == maxCorrespondenceCost
      ensures forall x, y :: !IsKnown(x, y)
    {
      ProductAtLeast(limits.numXCells, limits.numYCells);
      this.origin := origin;
      this.limits := limits;
      this.correspondenceCostCells := seq(limits.numXCells * limits.numYCells, _ => kUnknownCorrespondenceValue);
      this.minCorrespondenceCost := minCorrespondenceCost;
      this.maxCorrespondenceCost := maxCorrespondenceCost;
      this.updateIndices := [];
      this.knownCellsBox := EmptyBox;
      this.valueToCorrespondenceCostTable := valueToCorrespondenceCostTable;
    }

    /** The index of the cell holding a world point, in the current frame. */
    function GetCellIndex(point: Cell): (index: Cell)
      reads this
      ensures index.x + origin.x == point.x && index.y + origin.y == point.y
    {
      Cell(point.x - origin.x, point.y - origin.y)
    }

    /** Converts a cell inside the limits into its index into the cell vector. */
    function ToFlatIndex(x: int, y: int): (k: int)
      reads this
      requires Valid() && Contains(limits, x, y)
      ensures 0 <= k < |correspondenceCostCells|
      ensures k % limits.numXCells == x && k / limits.numXCells == y
    {
      FlatIndexCoordinates(limits, x, y);
      FlatIndex(limits, x, y)
    }

    /** The correspondence cost of a cell: the maximum cost outside the
        limits, otherwise the decoded stored code. */
    function GetCorrespondenceCost(x: int, y: int): (cost: real)
      reads this
      requires Valid()
      ensures !Contains(limits, x, y) ==> cost == maxCorrespondenceCost
      ensures Contains(limits, x, y) ==>
                cost == SlowValueToBoundedFloat(CellAt(correspondenceCostCells, limits, x, y) % kValueCount,
                                                kUnknownCorrespondenceValue, maxCorrespondenceCost,
                                                minCorrespondenceCost, maxCorrespondenceCost)
      ensures minCorrespondenceCost <= maxCorrespondenceCost ==>
                minCorrespondenceCost <= cost <= maxCorrespondenceCost
    {
      if !Contains(limits, x, y) then maxCorrespondenceCost
      else valueToCorrespondenceCostTable[correspondenceCostCells[ToFlatIndex(x, y)]]
    }

    /** Whether a cell has ever been updated. */
    function IsKnown(x: int, y: int): (known: bool)
      reads this
      requires Valid()
      ensures known == KnownAt(correspondenceCostCells, limits, x, y)
      ensures known ==> InBox(knownCellsBox, x, y)
      ensures !known ==> GetCorrespondenceCost(x, y) == maxCorrespondenceCost
    {
      Contains(limits, x, y) && correspondenceCostCells[ToFlatIndex(x, y)] != kUnknownCorrespondenceValue
    }

    /** The smallest region holding every known cell: its offset in this
        grid's frame and its limits; a single cell when nothing is known. */
    function ComputeCroppedLimits(): (r: CroppedRegion)
      reads this
      requires Valid()
      ensures ValidLimits(r.limits)
      ensures forall x, y :: IsKnown(x, y) ==> Contains(r.limits, x - r.xOffset, y - r.yOffset)
      ensures knownCellsBox.EmptyBox? ==> r == CroppedRegion(0, 0, CellLimits(1, 1))
      ensures knownCellsBox.Box? ==> Contains(r.limits, knownCellsBox.maxX - r.xOffset, knownCellsBox.maxY - r.yOffset)
    {
      match knownCellsBox
      case EmptyBox => CroppedRegion(0, 0, CellLimits(1, 1))
      case Box(minX, minY, maxX, maxY) => CroppedRegion(minX, minY, CellLimits(maxX - minX + 1, maxY - minY + 1))
    }

    /** Applies an update table to one cell, once per update: a cell that
        already carries the marker is left alone. */
    method ApplyLookupTable(x: int, y: int, table: seq<uint16>) returns (updated: bool)
      requires Valid() && Contains(limits, x, y) && IsUpdateTable(table)
      modifies this
      ensures Valid()
      ensures limits == old(limits) && origin == old(origin)
      ensures var k := FlatIndex(limits, x, y);
              && updated == (old(correspondenceCostCells)[k] < kUpdateMarker)
              && correspondenceCostCells
                 == (if updated then old(correspondenceCostCells)[k := table[old(correspondenceCostCells)[k]]]
                     else old(correspondenceCostCells))
              && updateIndices == (if updated then old(updateIndices) + [k] else old(updateIndices))
              && knownCellsBox == (if updated then Extend(old(knownCellsBox), x, y) else old(knownCellsBox))
      ensures KnownAt(correspondenceCostCells, limits, x, y)
      ensures forall u, v :: KnownAt(old(correspondenceCostCells), limits, u, v) ==>
                KnownAt(correspondenceCostCells, limits, u, v)
      ensures forall u, v :: Contains(limits, u, v) && (u != x || v != y) ==>
                CellAt(correspondenceCostCells, limits, u, v) == CellAt(old(correspondenceCostCells), limits, u, v)
    {
      var k := ToFlatIndex(x, y);
      var cell := correspondenceCostCells[k];
      if cell >= kUpdateMarker {
        return false;
      }
      ghost var cells0 := correspondenceCostCells;
      updateIndices := updateIndices + [k];
      correspondenceCostCells := correspondenceCostCells[k := table[cell]];
      knownCellsBox := Extend(knownCellsBox, x, y);
      forall u, v | Contains(limits, u, v)
        ensures CellAt(correspondenceCostCells, limits, u, v)
                == if u == x && v == y then table[cell] else CellAt(cells0, limits, u, v)
      {
        if FlatIndex(limits, u, v) == k {
          FlatIndexInjective(limits, x, y, u, v);
        }
      }
      updated := true;
    }

    /** Ends the update in progress: clears the marker of every touched cell
        and empties the update list. */
    method FinishUpdate()
      requires Valid()
      modifies this
      ensures Valid() && UpdateFinished()
      ensures limits == old(limits) && origin == old(origin) && knownCellsBox == old(knownCellsBox)
      ensures |correspondenceCostCells| == |old(correspondenceCostCells)|
      ensures forall k :: 0 <= k < |correspondenceCostCells| ==>
                correspondenceCostCells[k] == ClearUpdateMarker(old(correspondenceCostCells)[k])
      ensures old(updateIndices) == [] ==> correspondenceCostCells == old(correspondenceCostCells)
      ensures forall u, v :: KnownAt(old(correspondenceCostCells), limits, u, v) <==>
                KnownAt(correspondenceCostCells, limits, u, v)
    {
      ghost var cells0 := correspondenceCostCells;
      while updateIndices != []
        invariant limits == old(limits) && origin == old(origin) && knownCellsBox == old(knownCellsBox)
        invariant |correspondenceCostCells| == |cells0|
        invariant forall i :: 0 <= i < |updateIndices| ==>
                    0 <= updateIndices[i] < |correspondenceCostCells| &&
                    kUpdateMarker < correspondenceCostCells[updateIndices[i]]
        invariant forall i, j :: 0 <= i < j < |updateIndices| ==> updateIndices[i] != updateIndices[j]
        invariant forall k :: 0 <= k < |correspondenceCostCells| ==>
                    correspondenceCostCells[k]
                    == if k in updateIndices then cells0[k] else ClearUpdateMarker(cells0[k])
        decreases |updateIndices|
      {
        var last := updateIndices[|updateIndices| - 1];
        correspondenceCostCells := correspondenceCostCells[last := correspondenceCostCells[last] - kUpdateMarker];
        updateIndices := updateIndices[..|updateIndices| - 1];
      }
      forall u, v | Contains(limits, u, v)
        ensures CellAt(correspondenceCostCells, limits, u, v) == ClearUpdateMarker(CellAt(cells0, limits, u, v))
        ensures CellAt(correspondenceCostCells, limits, u, v) != kUnknownCorrespondenceValue
                <==> CellAt(cells0, limits, u, v) != kUnknownCorrespondenceValue
      {
        var k := FlatIndex(limits, u, v);
        if kUpdateMarker <= cells0[k] {
          assert k in old(updateIndices);
        }
      }
      if old(updateIndices) == [] {
        assert forall k :: 0 <= k < |cells0| ==> cells0[k] < kUpdateMarker;
        assert correspondenceCostCells == cells0;
      }
    }

    /** One growth step: doubles the limits, moving every cell and the box
        of known cells by half the old extent. */
    method GrowOnce() returns (xStep: int, yStep: int)
      requires Valid() && UpdateFinished()
      modifies this
      ensures Valid() && UpdateFinished()
      ensures xStep == old(limits).numXCells / 2 && yStep == old(limits).numYCells / 2
      ensures limits == Doubled(old(limits))
      ensures origin == Cell(old(origin).x - xStep, old(origin).y - yStep)
      ensures correspondenceCostCells == Recentered(old(correspondenceCostCells), old(limits))
      ensures knownCellsBox == Translate(old(knownCellsBox), xStep, yStep)
    {
      xStep, yStep := limits.numXCells / 2, limits.numYCells / 2;
      RecenteredKeepsGrid(correspondenceCostCells, limits, knownCellsBox);
      correspondenceCostCells := Recentered(correspondenceCostCells, limits);
      limits := Doubled(limits);
      origin := Cell(origin.x - xStep, origin.y - yStep);
      knownCellsBox := Translate(knownCellsBox, xStep, yStep);
    }

    /** Grows the limits, doubling them around the current extent as often as
        needed, until the world point lies inside.  Every existing cell moves
        by the (ghost) offset returned, and the frame origin by its opposite. */
    method GrowLimits(point: Cell) returns (ghost xOffset: int, ghost yOffset: int)
      requires Valid() && UpdateFinished()
      modifies this
      ensures Valid() && UpdateFinished()
      ensures 0 <= xOffset && 0 <= yOffset
      ensures origin == Cell(old(origin).x - xOffset, old(origin).y - yOffset)
      ensures Contains(limits, GetCellIndex(point).x, GetCellIndex(point).y)
      ensures Contains(old(limits), old(GetCellIndex(point)).x, old(GetCellIndex(point)).y) ==>
                xOffset == 0 && yOffset == 0 && limits == old(limits) && origin == old(origin) &&
                correspondenceCostCells == old(correspondenceCostCells)
      ensures Placed(old(correspondenceCostCells), old(limits), correspondenceCostCells, limits, xOffset, yOffset)
      ensures knownCellsBox == Translate(old(knownCellsBox), xOffset, yOffset)
    {
      xOffset, yOffset := 0, 0;
      ghost var cells0, limits0, box0, origin0 := correspondenceCostCells, limits, knownCellsBox, origin;
      PlacedItself(cells0, limits0);
      ghost var x, y := point.x - origin.x, point.y - origin.y;
      while !Contains(limits, point.x - origin.x, point.y - origin.y)
        invariant Valid() && UpdateFinished()
        invariant 0 <= xOffset && 0 <= yOffset
        invariant Placed(cells0, limits0, correspondenceCostCells, limits, xOffset, yOffset)
        invariant knownCellsBox == Translate(box0, xOffset, yOffset)
        invariant origin == Cell(origin0.x - xOffset, origin0.y - yOffset)
        invariant Contains(limits0, x, y) ==>
                    xOffset == 0 && yOffset == 0 && limits == limits0 && correspondenceCostCells == cells0
        decreases OutsideDistance(x + xOffset, limits.numXCells) + OutsideDistance(y + yOffset, limits.numYCells)
      {
        ghost var distance := OutsideDistance(x + xOffset, limits.numXCells) + OutsideDistance(y + yOffset, limits.numYCells);
        xOffset, yOffset := GrowStep(cells0, limits0, box0, origin0, x, y, xOffset, yOffset);
        assert OutsideDistance(x + xOffset, limits.numXCells) + OutsideDistance(y + yOffset, limits.numYCells) < distance;
      }
    }

    /** One iteration of the growth loop: one doubling, after which the
        existing cells and the known box have moved further by half the old
        extent and the point `(x, y)` of the starting frame is closer. */
    method GrowStep(ghost cells0: seq<uint16>, ghost limits0: CellLimits, ghost box0: Box, ghost origin0: Cell,
                    ghost x: int, ghost y: int, ghost xOffset: int, ghost yOffset: int)
      returns (ghost xMoved: int, ghost yMoved: int)
      requires Valid() && UpdateFinished()
      requires 0 <= xOffset && 0 <= yOffset
      requires Placed(cells0, limits0, correspondenceCostCells, limits, xOffset, yOffset)
      requires knownCellsBox == Translate(box0, xOffset, yOffset)
      requires origin == Cell(origin0.x - xOffset, origin0.y - yOffset)
      requires !Contains(limits, x + xOffset, y + yOffset)
      modifies this
      ensures Valid() && UpdateFinished()
      ensures xOffset <= xMoved && yOffset <= yMoved
      ensures Placed(cells0, limits0, correspondenceCostCells, limits, xMoved, yMoved)
      ensures knownCellsBox == Translate(box0, xMoved, yMoved)
      ensures origin == Cell(origin0.x - xMoved, origin0.y - yMoved)
      ensures OutsideDistance(x + xMoved, limits.numXCells) + OutsideDistance(y + yMoved, limits.numYCells)
              < OutsideDistance(x + xOffset, old(limits).numXCells) + OutsideDistance(y + yOffset, old(limits).numYCells)
    {
      ghost var cellsBefore, limitsBefore := correspondenceCostCells, limits;
      var xStep, yStep := GrowOnce();
      TranslateTwice(box0, xOffset, yOffset, xStep, yStep);
      xMoved, yMoved := xOffset + xStep, yOffset + yStep;
      GrowthBringsCloser(limitsBefore, x + xOffset, y + yOffset, limits, x + xMoved, y + yMoved);
      RecenteredKeepsPlacement(cells0, limits0, cellsBefore, limitsBefore, xOffset, yOffset, xMoved, yMoved);
    }
  }
}
