/**
  Submaps and the active-submap collection of 2D local mapping: a submap
  owns one grid and counts the range data inserted into it until it is
  finished; the collection keeps at most two live submaps, an old one used
  for matching and a new one being initialised, and hands every batch to all
  of them.
 */
module Submaps {
  import opened ProbabilityValues
  import opened Grid

  /** One batch of range data, its points discretised at the grid resolution. */
  datatype RangeData = RangeData(origin: Cell, returnCells: seq<Cell>, missCells: seq<Cell>)

  /** The two update tables a probability-grid range-data inserter applies:
      one to the cells of returns (hits), one to the cells of misses. */
  datatype RangeDataInserter = RangeDataInserter(hitTable: seq<uint16>, missTable: seq<uint16>)

  ghost predicate ValidInserter(inserter: RangeDataInserter)
  {
    IsUpdateTable(inserter.hitTable) && IsUpdateTable(inserter.missTable)
  }

  // ---------------------------------------------------------------------
  // Reference model of the lifecycle: what the collection holds, as values.
  // ---------------------------------------------------------------------

  /** A live submap as the lifecycle sees it. */
  datatype SubmapState = SubmapState(numRangeData: nat, finished: bool)

  /** The live submaps, oldest first, and how many finished submaps have been
      forgotten so far. */
  datatype Lifecycle = Lifecycle(live: seq<SubmapState>, evicted: nat)

  /** Adding a submap: with two live, the oldest is forgotten first. */
  function AddStep(l: Lifecycle): (r: Lifecycle)
    ensures |r.live| == (if |l.live| >= 2 then |l.live| else |l.live| + 1)
    ensures r.live[|r.live| - 1] == SubmapState(0, false)
  {
    if |l.live| >= 2 then Lifecycle(l.live[1..] + [SubmapState(0, false)], l.evicted + 1)
    else Lifecycle(l.live + [SubmapState(0, false)], l.evicted)
  }

  /** Every live submap receives one more range data. */
  function InsertIntoAll(live: seq<SubmapState>): (r: seq<SubmapState>)
    ensures |r| == |live|
    ensures forall i :: 0 <= i < |live| ==> r[i] == SubmapState(live[i].numRangeData + 1, live[i].finished)
  {
    if live == [] then []
    else [SubmapState(live[0].numRangeData + 1, live[0].finished)] + InsertIntoAll(live[1..])
  }

  /** Whether the collection adds a submap before inserting: when it is empty
      or its newest submap has received `n` range data. */
  predicate NeedsNewSubmap(l: Lifecycle, n: nat)
  {
    l.live == [] || l.live[|l.live| - 1].numRangeData == n
  }

  /** One call of the collection's insertion: add a submap if needed, insert
      into all live submaps, finish the oldest once it has received `2 n`. */
  function InsertStep(l: Lifecycle, n: nat): (r: Lifecycle)
  {
    var added := if NeedsNewSubmap(l, n) then AddStep(l) else l;
    var inserted := InsertIntoAll(added.live);
    if inserted[0].numRangeData == 2 * n
    then Lifecycle(inserted[0 := SubmapState(inserted[0].numRangeData, true)], added.evicted)
    else Lifecycle(inserted, added.evicted)
  }

  /** `k` applications of `step`, starting from `start`. */
  function Iterate(step: Lifecycle -> Lifecycle, start: Lifecycle, k: nat): Lifecycle
  {
    if k == 0 then start else step(Iterate(step, start, k - 1))
  }

  /** The lifecycle after `k` calls, starting from no submap. */
  function Insertions(k: nat, n: nat): Lifecycle
  {
    Iterate(l => InsertStep(l, n), Lifecycle([], 0), k)
  }

  /** At most two live submaps; the newest is unfinished and has received
      between one and `n` range data; with two live, the oldest is exactly `n`
      ahead and is finished exactly when the newest has reached `n`. */
  ghost predicate LifecycleInvariant(l: Lifecycle, n: nat)
  {
    && |l.live| <= 2
    && (l.live == [] ==> l.evicted == 0)
    && (|l.live| >= 1 ==>
          var newest := l.live[|l.live| - 1];
          !newest.finished && 1 <= newest.numRangeData && (n >= 1 ==> newest.numRangeData <= n))
    && (|l.live| == 2 ==>
          && n >= 1
          && l.live[0].numRangeData == l.live[1].numRangeData + n
          && (l.live[0].finished <==> l.live[1].numRangeData == n))
  }

  /** Each call keeps the invariant, forgets only a finished submap, and
      inserts only into unfinished ones. */
  lemma InsertStepKeepsInvariant(l: Lifecycle, n: nat)
    requires LifecycleInvariant(l, n)
    ensures LifecycleInvariant(InsertStep(l, n), n)
    ensures NeedsNewSubmap(l, n) && |l.live| >= 2 ==> l.live[0].finished
    ensures var added := if NeedsNewSubmap(l, n) then AddStep(l) else l;
            forall i :: 0 <= i < |added.live| ==> !added.live[i].finished
  {
  }

  /** Before inserting, a submap is added only when the oldest of two is
      finished, and afterwards every live submap is unfinished. */
  lemma AddStageUnfinished(l: Lifecycle, n: nat)
    requires LifecycleInvariant(l, n)
    ensures NeedsNewSubmap(l, n) && |l.live| >= 2 ==> l.live[0].finished
    ensures var added := if NeedsNewSubmap(l, n) then AddStep(l) else l;
            1 <= |added.live| && forall i :: 0 <= i < |added.live| ==> !added.live[i].finished
  {
  }

  /** The invariant holds after any number of calls. */
  lemma {:induction false} InsertionsKeepInvariant(k: nat, n: nat)
    ensures LifecycleInvariant(Insertions(k, n), n)
  {
    if k > 0 {
      InsertionsKeepInvariant(k - 1, n);
      InsertStepKeepsInvariant(Insertions(k - 1, n), n);
    }
  }

  /** The calls from one live submap with `c` range data. */
  lemma InsertStepSingle(c: nat, n: nat, e: nat)
    requires 1 <= n && c <= n
    ensures c < n ==> InsertStep(Lifecycle([SubmapState(c, false)], e), n) == Lifecycle([SubmapState(c + 1, false)], e)
    ensures c == n ==> InsertStep(Lifecycle([SubmapState(c, false)], e), n) == SteadyState(1, n, e)
  {
    var l := Lifecycle([SubmapState(c, false)], e);
    if c == n {
      assert AddStep(l).live == [SubmapState(n, false), SubmapState(0, false)];
      assert InsertIntoAll(AddStep(l).live) == [SubmapState(n + 1, false), SubmapState(1, false)];
    } else {
      assert InsertIntoAll(l.live) == [SubmapState(c + 1, false)];
    }
  }

  /** Two live submaps, the newest with `m` range data, after `e` evictions. */
  function SteadyState(m: nat, n: nat, e: nat): Lifecycle
  {
    Lifecycle([SubmapState(m + n, m == n), SubmapState(m, false)], e)
  }

  /** The calls from two live submaps, the newest with `m` range data. */
  lemma InsertStepPair(m: nat, n: nat, e: nat)
    requires 1 <= m <= n
    ensures InsertStep(SteadyState(m, n, e), n) == if m < n then SteadyState(m + 1, n, e) else SteadyState(1, n, e + 1)
  {
    var l := SteadyState(m, n, e);
    if m == n {
      assert AddStep(l).live == [SubmapState(n, false), SubmapState(0, false)];
      assert InsertIntoAll(AddStep(l).live) == [SubmapState(n + 1, false), SubmapState(1, false)];
    } else {
      assert InsertIntoAll(l.live) == [SubmapState(m + n + 1, false), SubmapState(m + 1, false)];
    }
  }

  /** The first call creates the first submap, which then holds one range data. */
  lemma FirstInsertion(k: nat, n: nat)
    requires k == 1
    ensures Insertions(k, n) == Lifecycle([SubmapState(1, false)], 0)
  {
    assert InsertIntoAll([SubmapState(0, false)]) == [SubmapState(1, false)];
  }

  /** Where the lifecycle stands: during start-up the single first submap
      holds `c` range data; afterwards two submaps are live, the newest
      holding `m`, and `e` finished submaps have been forgotten. */
  datatype Phase = Startup(c: nat) | Steady(m: nat, e: nat)

  /** The lifecycle a phase describes. */
  function PhaseLifecycle(p: Phase, n: nat): Lifecycle
  {
    match p
    case Startup(c) => Lifecycle([SubmapState(c, false)], 0)
    case Steady(m, e) => SteadyState(m, n, e)
  }

  /** The phase one call later. */
  function NextPhase(p: Phase, n: nat): Phase
  {
    match p
    case Startup(c) => if c < n then Startup(c + 1) else Steady(1, 0)
    case Steady(m, e) => if m < n then Steady(m + 1, e) else Steady(1, e + 1)
  }

  /** The phase after `k >= 1` calls. */
  function PhaseAfter(k: nat, n: nat): Phase
    requires k >= 1
  {
    if k == 1 then Startup(1) else NextPhase(PhaseAfter(k - 1, n), n)
  }

  /** The newest submap of a phase holds between one and `n` range data. */
  predicate PhaseInRange(p: Phase, n: nat)
  {
    match p
    case Startup(c) => 1 <= c <= n
    case Steady(m, _) => 1 <= m <= n
  }

  /** Any step that starts the start-up phase and moves the lifecycle of
      each phase to that of the next phase follows the phases. */
  lemma {:induction false} IterateFollowsPhase(step: Lifecycle -> Lifecycle, start: Lifecycle, k: nat, n: nat)
    requires 1 <= k && 1 <= n
    requires step(start) == PhaseLifecycle(Startup(1), n)
    requires forall p :: PhaseInRange(p, n) ==> step(PhaseLifecycle(p, n)) == PhaseLifecycle(NextPhase(p, n), n)
    ensures PhaseInRange(PhaseAfter(k, n), n)
    ensures Iterate(step, start, k) == PhaseLifecycle(PhaseAfter(k, n), n)
  {
    if k > 1 {
      IterateFollowsPhase(step, start, k - 1, n);
    }
  }

  /** After `k >= 1` calls the lifecycle is the one its phase describes. */
  lemma InsertionsFollowPhase(k: nat, n: nat)
    requires 1 <= k && 1 <= n
    ensures PhaseInRange(PhaseAfter(k, n), n)
    ensures Insertions(k, n) == PhaseLifecycle(PhaseAfter(k, n), n)
  {
    forall p | PhaseInRange(p, n)
      ensures InsertStep(PhaseLifecycle(p, n), n) == PhaseLifecycle(NextPhase(p, n), n)
    {
      PhaseStep(p, n);
    }
    FirstInsertion(1, n);
    IterateFollowsPhase(l => InsertStep(l, n), Lifecycle([], 0), k, n);
  }

  /** One call moves the lifecycle of a phase to that of the next phase. */
  lemma PhaseStep(p: Phase, n: nat)
    requires 1 <= n && PhaseInRange(p, n)
    ensures PhaseInRange(NextPhase(p, n), n)
    ensures InsertStep(PhaseLifecycle(p, n), n) == PhaseLifecycle(NextPhase(p, n), n)
  {
    match p
    case Startup(c) => InsertStepSingle(c, n, 0);
    case Steady(m, e) => InsertStepPair(m, n, e);
  }

  /** During start-up the phase counts the calls. */
  lemma {:induction false} StartupPhase(k: nat, n: nat)
    requires 1 <= k <= n
    ensures PhaseAfter(k, n) == Startup(k)
  {
    if k > 1 {
      StartupPhase(k - 1, n);
    }
  }

  /** The number of calls after which `e` finished submaps have been
      forgotten and the newest live submap is about to restart: `n + n e`. */
  function Offset(n: nat, e: nat): nat
  {
    if e == 0 then n else Offset(n, e - 1) + n
  }

  lemma {:induction false} OffsetValue(n: nat, e: nat)
    ensures Offset(n, e) == n + n * e
  {
    if e > 0 {
      OffsetValue(n, e - 1);
      assert n * e == n * (e - 1) + n;
    }
  }

  /** After `Offset(n, e) + m` calls, `1 <= m <= n`, the newest submap holds
      `m` range data and `e` finished submaps have been forgotten. */
  lemma {:induction false} SteadyPhase(n: nat, e: nat, m: nat)
    requires 1 <= m <= n
    ensures PhaseAfter(Offset(n, e) + m, n) == Steady(m, e)
    decreases e, m
  {
    if m > 1 {
      SteadyPhase(n, e, m - 1);
    } else if e > 0 {
      SteadyPhase(n, e - 1, n);
    } else {
      StartupPhase(n, n);
    }
  }

  /** The lifecycle during start-up: after `k` calls, `1 <= k <= n`, the
      single first submap holds `k` range data. */
  lemma StartupLifecycle(k: nat, n: nat)
    requires 1 <= k <= n
    ensures Insertions(k, n) == Lifecycle([SubmapState(k, false)], 0)
  {
    StartupPhase(k, n);
    InsertionsFollowPhase(k, n);
  }

  /** The steady lifecycle: after `n + n e + m` calls, `1 <= m <= n`, two
      submaps are live, the newest holding `m` range data and the oldest
      `m + n` (finished exactly when `m == n`), and `e` finished submaps have
      been forgotten. */
  lemma LifecycleAfter(n: nat, e: nat, m: nat)
    requires 1 <= m <= n
    ensures Insertions(n + n * e + m, n) == SteadyState(m, n, e)
  {
    var k := Offset(n, e) + m;
    OffsetValue(n, e);
    SteadyPhase(n, e, m);
    InsertionsFollowPhase(k, n);
  }

  /** The first call creates the single first submap; after `2 n + 1` calls
      exactly one finished submap has been forgotten and two are live. */
  lemma FirstEviction(n: nat)
    requires n >= 1
    ensures |Insertions(1, n).live| == 1 && Insertions(1, n).evicted == 0
    ensures |Insertions(2 * n + 1, n).live| == 2 && Insertions(2 * n + 1, n).evicted == 1
  {
    FirstInsertion(1, n);
    LifecycleAfter(n, 1, 1);
  }

  /** No submap is forgotten during the first `2 n` calls. */
  lemma NoEvictionBefore(k: nat, n: nat)
    requires 1 <= n && 1 <= k <= 2 * n
    ensures Insertions(k, n).evicted == 0
    ensures |Insertions(k, n).live| == (if k <= n then 1 else 2)
  {
    if k <= n {
      StartupLifecycle(k, n);
    } else {
      LifecycleAfter(n, 0, k - n);
    }
  }

  // ---------------------------------------------------------------------
  // Inserting one batch into one grid.
  // ---------------------------------------------------------------------

  /** The world cells a batch updates: its returns, then its misses. */
  function BatchCells(rangeData: RangeData): seq<Cell>
  {
    rangeData.returnCells + rangeData.missCells
  }

  /** The world cell whose index is (x, y) in a frame with the given origin. */
  function WorldCell(origin: Cell, x: int, y: int): Cell
  {
    Cell(x + origin.x, y + origin.y)
  }

  /** The world point lies inside the limits of the frame whose cell (0, 0) is `origin`. */
  predicate InFrame(limits: CellLimits, origin: Cell, p: Cell)
  {
    Contains(limits, p.x - origin.x, p.y - origin.y)
  }

  ghost predicate AllInFrame(limits: CellLimits, origin: Cell, points: seq<Cell>)
  {
    forall j :: 0 <= j < |points| ==> InFrame(limits, origin, points[j])
  }

  /** Every point is a known cell of the cell vector. */
  ghost predicate AllKnown(cells: seq<uint16>, limits: CellLimits, origin: Cell, points: seq<Cell>)
    requires |cells| == limits.numXCells * limits.numYCells
  {
    forall j :: 0 <= j < |points| ==> KnownAt(cells, limits, points[j].x - origin.x, points[j].y - origin.y)
  }

  /** Every cell known in `cells0` is known in `cells`. */
  ghost predicate KnownKept(cells0: seq<uint16>, cells: seq<uint16>, limits: CellLimits)
    requires |cells0| == limits.numXCells * limits.numYCells
    requires |cells| == limits.numXCells * limits.numYCells
  {
    forall u, v :: KnownAt(cells0, limits, u, v) ==> KnownAt(cells, limits, u, v)
  }

  /** Every cell whose world cell is none of the points holds its old code. */
  ghost predicate SameElsewhere(cells0: seq<uint16>, cells: seq<uint16>, limits: CellLimits, origin: Cell,
                                points: seq<Cell>)
    requires |cells0| == limits.numXCells * limits.numYCells
    requires |cells| == limits.numXCells * limits.numYCells
  {
    forall u, v :: Contains(limits, u, v) && WorldCell(origin, u, v) !in points ==>
      CellAt(cells, limits, u, v) == CellAt(cells0, limits, u, v)
  }

  /** Growth moves every point already inside along with the frame. */
  lemma GrowthKeepsInFrame(cells0: seq<uint16>, limits0: CellLimits, cells: seq<uint16>, limits: CellLimits,
                           origin0: Cell, origin: Cell, dx: int, dy: int, points: seq<Cell>)
    requires Placed(cells0, limits0, cells, limits, dx, dy)
    requires origin == Cell(origin0.x - dx, origin0.y - dy)
    requires AllInFrame(limits0, origin0, points)
    ensures AllInFrame(limits, origin, points)
  {
    forall j | 0 <= j < |points|
      ensures InFrame(limits, origin, points[j])
    {
      assert InFrame(limits0, origin0, points[j]);
    }
  }

  /** Grows the grid for one more point, keeping the points before it inside
      and the placement of the first cells. */
  method GrowForPoint(grid: Grid2D, ghost cells0: seq<uint16>, ghost limits0: CellLimits, ghost origin0: Cell,
                      ghost xOffset: int, ghost yOffset: int, points: seq<Cell>, i: nat)
    returns (ghost xSum: int, ghost ySum: int)
    requires i < |points|
    requires grid.Valid() && grid.UpdateFinished()
    requires 0 <= xOffset && 0 <= yOffset
    requires grid.origin == Cell(origin0.x - xOffset, origin0.y - yOffset)
    requires AllInFrame(grid.limits, grid.origin, points[..i])
    requires Placed(cells0, limits0, grid.correspondenceCostCells, grid.limits, xOffset, yOffset)
    modifies grid
    ensures grid.Valid() && grid.UpdateFinished()
    ensures 0 <= xSum && 0 <= ySum
    ensures grid.origin == Cell(origin0.x - xSum, origin0.y - ySum)
    ensures AllInFrame(grid.limits, grid.origin, points[..i + 1])
    ensures Placed(cells0, limits0, grid.correspondenceCostCells, grid.limits, xSum, ySum)
  {
    ghost var dx, dy := grid.GrowLimits(points[i]);
    xSum, ySum := xOffset + dx, yOffset + dy;
    GrowthForPoint(cells0, limits0, old(grid.correspondenceCostCells), old(grid.limits), old(grid.origin),
                   grid.correspondenceCostCells, grid.limits, grid.origin, xOffset, yOffset, dx, dy, xSum, ySum, points, i);
  }

  /** The facts one growth for `points[i]` establishes: the cells placed
      before are placed by the summed offsets, and the longer prefix of the
      points is inside. */
  lemma GrowthForPoint(cells0: seq<uint16>, limits0: CellLimits,
                       cells1: seq<uint16>, limits1: CellLimits, origin1: Cell,
                       cells2: seq<uint16>, limits2: CellLimits, origin2: Cell,
                       xOffset: int, yOffset: int, dx: int, dy: int, xSum: int, ySum: int, points: seq<Cell>, i: nat)
    requires i < |points| && xSum == xOffset + dx && ySum == yOffset + dy
    requires Placed(cells0, limits0, cells1, limits1, xOffset, yOffset)
    requires Placed(cells1, limits1, cells2, limits2, dx, dy)
    requires origin2 == Cell(origin1.x - dx, origin1.y - dy)
    requires AllInFrame(limits1, origin1, points[..i])
    requires InFrame(limits2, origin2, points[i])
    ensures Placed(cells0, limits0, cells2, limits2, xSum, ySum)
    ensures AllInFrame(limits2, origin2, points[..i + 1])
  {
    PlacedTwice(cells0, limits0, cells1, limits1, cells2, limits2, xOffset, yOffset, dx, dy, xSum, ySum);
    GrowthKeepsInFrame(cells1, limits1, cells2, limits2, origin1, origin2, dx, dy, points[..i]);
    AllInFrameNext(limits2, origin2, points, i);
  }

  /** A prefix of the points inside, and the next point inside: the longer
      prefix is inside. */
  lemma AllInFrameNext(limits: CellLimits, origin: Cell, points: seq<Cell>, i: nat)
    requires i < |points|
    requires AllInFrame(limits, origin, points[..i]) && InFrame(limits, origin, points[i])
    ensures AllInFrame(limits, origin, points[..i + 1])
  {
    var next := points[..i + 1];
    forall j | 0 <= j < |next|
      ensures InFrame(limits, origin, next[j])
    {
      if j < i {
        assert next[j] == points[..i][j];
      }
    }
  }

  /** Grows the grid, point after point, until every point lies inside. */
  method GrowAsNeeded(grid: Grid2D, points: seq<Cell>) returns (ghost xOffset: int, ghost yOffset: int)
    requires grid.Valid() && grid.UpdateFinished()
    modifies grid
    ensures grid.Valid() && grid.UpdateFinished()
    ensures 0 <= xOffset && 0 <= yOffset
    ensures grid.origin == Cell(old(grid.origin).x - xOffset, old(grid.origin).y - yOffset)
    ensures AllInFrame(grid.limits, grid.origin, points)
    ensures Placed(old(grid.correspondenceCostCells), old(grid.limits), grid.correspondenceCostCells, grid.limits,
                   xOffset, yOffset)
  {
    ghost var cells0, limits0, origin0 := grid.correspondenceCostCells, grid.limits, grid.origin;
    xOffset, yOffset := 0, 0;
    PlacedItself(cells0, limits0);
    var i := 0;
    while i < |points|
      invariant 0 <= i <= |points|
      invariant grid.Valid() && grid.UpdateFinished()
      invariant 0 <= xOffset && 0 <= yOffset
      invariant grid.origin == Cell(origin0.x - xOffset, origin0.y - yOffset)
      invariant AllInFrame(grid.limits, grid.origin, points[..i])
      invariant Placed(cells0, limits0, grid.correspondenceCostCells, grid.limits, xOffset, yOffset)
    {
      xOffset, yOffset := GrowForPoint(grid, cells0, limits0, origin0, xOffset, yOffset, points, i);
      i := i + 1;
    }
    assert points[..i] == points;
  }

  /** One more point updated: every point so far, and the new one, is known. */
  lemma ApplyStepKnown(cells: seq<uint16>, cells1: seq<uint16>, limits: CellLimits, origin: Cell,
                       points: seq<Cell>, p: Cell)
    requires |cells| == |cells1| == limits.numXCells * limits.numYCells
    requires AllKnown(cells, limits, origin, points) && KnownKept(cells, cells1, limits)
    requires KnownAt(cells1, limits, p.x - origin.x, p.y - origin.y)
    ensures AllKnown(cells1, limits, origin, points + [p])
  {
    forall j | 0 <= j < |points + [p]|
      ensures KnownAt(cells1, limits, (points + [p])[j].x - origin.x, (points + [p])[j].y - origin.y)
    {
      if j < |points| {
        assert (points + [p])[j] == points[j];
        assert KnownAt(cells, limits, points[j].x - origin.x, points[j].y - origin.y);
      }
    }
  }

  /** One more point updated: a cell that is none of the points still holds its first code. */
  lemma ApplyStepElsewhere(cells0: seq<uint16>, cells: seq<uint16>, cells1: seq<uint16>, limits: CellLimits,
                           origin: Cell, points: seq<Cell>, p: Cell)
    requires |cells0| == |cells| == |cells1| == limits.numXCells * limits.numYCells
    requires SameElsewhere(cells0, cells, limits, origin, points)
    requires forall u, v :: Contains(limits, u, v) && (u != p.x - origin.x || v != p.y - origin.y) ==>
               CellAt(cells1, limits, u, v) == CellAt(cells, limits, u, v)
    ensures SameElsewhere(cells0, cells1, limits, origin, points + [p])
  {
    forall u, v | Contains(limits, u, v) && WorldCell(origin, u, v) !in points + [p]
      ensures CellAt(cells1, limits, u, v) == CellAt(cells0, limits, u, v)
    {
      assert WorldCell(origin, u, v) != p;
      assert WorldCell(origin, u, v) !in points;
    }
  }

  /** Keeps the known cells known: one step of an update. */
  lemma KnownKeptTwice(cells0: seq<uint16>, cells: seq<uint16>, cells1: seq<uint16>, limits: CellLimits)
    requires |cells0| == |cells| == |cells1| == limits.numXCells * limits.numYCells
    requires KnownKept(cells0, cells, limits) && KnownKept(cells, cells1, limits)
    ensures KnownKept(cells0, cells1, limits)
  {
  }

  /** The update of the points so far: each is known, what was known stays
      known, and every other cell holds its first code. */
  ghost predicate Applied(cells0: seq<uint16>, cells: seq<uint16>, limits: CellLimits, origin: Cell,
                          points: seq<Cell>)
    requires |cells0| == limits.numXCells * limits.numYCells
    requires |cells| == limits.numXCells * limits.numYCells
  {
    && AllKnown(cells, limits, origin, points)
    && KnownKept(cells0, cells, limits)
    && SameElsewhere(cells0, cells, limits, origin, points)
  }

  /** Updating the cell of `points[i]` alone extends the update to one more point. */
  lemma AppliedStep(cells0: seq<uint16>, cells: seq<uint16>, cells1: seq<uint16>, limits: CellLimits, origin: Cell,
                    points: seq<Cell>, i: nat, x: int, y: int)
    requires i < |points| && x == points[i].x - origin.x && y == points[i].y - origin.y
    requires |cells0| == |cells| == |cells1| == limits.numXCells * limits.numYCells
    requires Applied(cells0, cells, limits, origin, points[..i])
    requires KnownKept(cells, cells1, limits)
    requires KnownAt(cells1, limits, x, y)
    requires forall u, v :: Contains(limits, u, v) && (u != x || v != y) ==>
               CellAt(cells1, limits, u, v) == CellAt(cells, limits, u, v)
    ensures Applied(cells0, cells1, limits, origin, points[..i + 1])
  {
    assert points[..i + 1] == points[..i] + [points[i]];
    ApplyStepKnown(cells, cells1, limits, origin, points[..i], points[i]);
    ApplyStepElsewhere(cells0, cells, cells1, limits, origin, points[..i], points[i]);
    KnownKeptTwice(cells0, cells, cells1, limits);
  }

  /** Applies the update table to the cell of the next point, `points[i]`. */
  method ApplyAtPoint(grid: Grid2D, ghost cells0: seq<uint16>, points: seq<Cell>, i: nat, table: seq<uint16>)
    requires i < |points|
    requires grid.Valid() && IsUpdateTable(table) && InFrame(grid.limits, grid.origin, points[i])
    requires |cells0| == grid.limits.numXCells * grid.limits.numYCells
    requires Applied(cells0, grid.correspondenceCostCells, grid.limits, grid.origin, points[..i])
    modifies grid
    ensures grid.Valid() && grid.limits == old(grid.limits) && grid.origin == old(grid.origin)
    ensures Applied(cells0, grid.correspondenceCostCells, grid.limits, grid.origin, points[..i + 1])
  {
    ghost var cells, limits, origin := grid.correspondenceCostCells, grid.limits, grid.origin;
    var x, y := points[i].x - grid.origin.x, points[i].y - grid.origin.y;
    var _ := grid.ApplyLookupTable(x, y, table);
    assert KnownKept(cells, grid.correspondenceCostCells, limits);
    AppliedStep(cells0, cells, grid.correspondenceCostCells, limits, origin, points, i, x, y);
  }

  /** Applies one update table to the cell of every point, in order. */
  method ApplyToCells(grid: Grid2D, points: seq<Cell>, table: seq<uint16>)
    requires grid.Valid() && IsUpdateTable(table)
    requires AllInFrame(grid.limits, grid.origin, points)
    modifies grid
    ensures grid.Valid() && grid.limits == old(grid.limits) && grid.origin == old(grid.origin)
    ensures Applied(old(grid.correspondenceCostCells), grid.correspondenceCostCells, grid.limits, grid.origin, points)
  {
    ghost var cells0, limits, origin := grid.correspondenceCostCells, grid.limits, grid.origin;
    assert points[..0] == [];
    var i := 0;
    while i < |points|
      invariant 0 <= i <= |points|
      invariant grid.Valid() && grid.limits == limits && grid.origin == origin
      invariant Applied(cells0, grid.correspondenceCostCells, limits, origin, points[..i])
    {
      assert InFrame(limits, origin, points[i]);
      ApplyAtPoint(grid, cells0, points, i, table);
      i := i + 1;
    }
    assert points[..i] == points;
  }

  lemma AllInFrameParts(limits: CellLimits, origin: Cell, a: seq<Cell>, b: seq<Cell>)
    requires AllInFrame(limits, origin, a + b)
    ensures AllInFrame(limits, origin, a) && AllInFrame(limits, origin, b)
  {
    forall j | 0 <= j < |a|
      ensures InFrame(limits, origin, a[j])
    {
      assert (a + b)[j] == a[j];
    }
    forall j | 0 <= j < |b|
      ensures InFrame(limits, origin, b[j])
    {
      assert (a + b)[|a| + j] == b[j];
    }
  }

  /** The points of the first list stay known through a later update, so both lists end up known. */
  lemma AllKnownJoin(cells1: seq<uint16>, cells2: seq<uint16>, limits: CellLimits, origin: Cell,
                     a: seq<Cell>, b: seq<Cell>)
    requires |cells1| == |cells2| == limits.numXCells * limits.numYCells
    requires AllKnown(cells1, limits, origin, a) && KnownKept(cells1, cells2, limits)
    requires AllKnown(cells2, limits, origin, b)
    ensures AllKnown(cells2, limits, origin, a + b)
  {
    forall j | 0 <= j < |a + b|
      ensures KnownAt(cells2, limits, (a + b)[j].x - origin.x, (a + b)[j].y - origin.y)
    {
      if j < |a| {
        assert (a + b)[j] == a[j];
        assert KnownAt(cells1, limits, a[j].x - origin.x, a[j].y - origin.y);
      } else {
        assert (a + b)[j] == b[j - |a|];
      }
    }
  }

  /** After one batch: every point of the batch is a known cell, every cell
      known before is known at its moved index, and every other cell holds
      its old code moved by the offset (unknown where the grid grew). */
  ghost predicate BatchInserted(cells0: seq<uint16>, limits0: CellLimits, cells: seq<uint16>, limits: CellLimits,
                                origin: Cell, xOffset: int, yOffset: int, points: seq<Cell>)
  {
    && |cells0| == limits0.numXCells * limits0.numYCells
    && |cells| == limits.numXCells * limits.numYCells
    && FrameWithin(limits0, limits, xOffset, yOffset)
    && AllKnown(cells, limits, origin, points)
    && (forall a, b :: KnownAt(cells0, limits0, a, b) ==> KnownAt(cells, limits, a + xOffset, b + yOffset))
    && (forall u, v {:trigger CellAt(cells, limits, u, v)} ::
          Contains(limits, u, v) && WorldCell(origin, u, v) !in points ==>
            CellAt(cells, limits, u, v) == MovedCell(cells0, limits0, u - xOffset, v - yOffset))
  }

  /** The facts of the four stages of an insertion (grow, hits, misses,
      clear the markers) combine into one batch insertion. */
  lemma InsertStagesCombine(cells0: seq<uint16>, limits0: CellLimits, grown: seq<uint16>, hit: seq<uint16>,
                            missed: seq<uint16>, cleared: seq<uint16>, limits: CellLimits, origin: Cell,
                            xOffset: int, yOffset: int, returnCells: seq<Cell>, missCells: seq<Cell>)
    requires |grown| == |hit| == |missed| == |cleared| == limits.numXCells * limits.numYCells
    requires Placed(cells0, limits0, grown, limits, xOffset, yOffset)
    requires forall k :: 0 <= k < |grown| ==> grown[k] < kUpdateMarker
    requires Applied(grown, hit, limits, origin, returnCells)
    requires Applied(hit, missed, limits, origin, missCells)
    requires forall k :: 0 <= k < |cleared| ==> cleared[k] == ClearUpdateMarker(missed[k])
    requires forall u, v :: KnownAt(missed, limits, u, v) <==> KnownAt(cleared, limits, u, v)
    ensures BatchInserted(cells0, limits0, cleared, limits, origin, xOffset, yOffset, returnCells + missCells)
  {
    var points := returnCells + missCells;
    AllKnownJoin(hit, missed, limits, origin, returnCells, missCells);
    forall j | 0 <= j < |points|
      ensures KnownAt(cleared, limits, points[j].x - origin.x, points[j].y - origin.y)
    {
      assert KnownAt(missed, limits, points[j].x - origin.x, points[j].y - origin.y);
    }
    forall a, b | KnownAt(cells0, limits0, a, b)
      ensures KnownAt(cleared, limits, a + xOffset, b + yOffset)
    {
      PlacedOldCell(cells0, limits0, grown, limits, xOffset, yOffset, a, b);
      assert KnownAt(grown, limits, a + xOffset, b + yOffset);
      assert KnownAt(hit, limits, a + xOffset, b + yOffset);
      assert KnownAt(missed, limits, a + xOffset, b + yOffset);
    }
    forall u, v | Contains(limits, u, v) && WorldCell(origin, u, v) !in points
      ensures CellAt(cleared, limits, u, v) == MovedCell(cells0, limits0, u - xOffset, v - yOffset)
    {
      assert WorldCell(origin, u, v) !in returnCells && WorldCell(origin, u, v) !in missCells;
      assert CellAt(missed, limits, u, v) == CellAt(hit, limits, u, v) == CellAt(grown, limits, u, v);
      assert CellAt(grown, limits, u, v) == MovedCell(cells0, limits0, u - xOffset, v - yOffset);
    }
  }

  /** Inserts one batch into a grid: grows the grid to hold every point,
      applies the hit table to the returns and the miss table to the misses,
      then ends the update. */
  method InsertIntoGrid(inserter: RangeDataInserter, rangeData: RangeData, grid: Grid2D)
    returns (ghost xOffset: int, ghost yOffset: int)
    requires ValidInserter(inserter) && grid.Valid() && grid.UpdateFinished()
    modifies grid
    ensures grid.Valid() && grid.UpdateFinished()
    ensures 0 <= xOffset && 0 <= yOffset
    ensures grid.origin == Cell(old(grid.origin).x - xOffset, old(grid.origin).y - yOffset)
    ensures BatchInserted(old(grid.correspondenceCostCells), old(grid.limits), grid.correspondenceCostCells,
                          grid.limits, grid.origin, xOffset, yOffset, BatchCells(rangeData))
  {
    ghost var cells0, limits0 := grid.correspondenceCostCells, grid.limits;
    xOffset, yOffset := GrowAsNeeded(grid, BatchCells(rangeData));
    ghost var grown, limits, origin := grid.correspondenceCostCells, grid.limits, grid.origin;
    AllInFrameParts(limits, origin, rangeData.returnCells, rangeData.missCells);
    assert forall k :: 0 <= k < |grown| ==> grown[k] < kUpdateMarker;
    ApplyToCells(grid, rangeData.returnCells, inserter.hitTable);
    ghost var hit := grid.correspondenceCostCells;
    ApplyToCells(grid, rangeData.missCells, inserter.missTable);
    ghost var missed := grid.correspondenceCostCells;
    grid.FinishUpdate();
    InsertStagesCombine(cells0, limits0, grown, hit, missed, grid.correspondenceCostCells, limits, origin,
                        xOffset, yOffset, rangeData.returnCells, rangeData.missCells);
  }

  /** The three stages of the collection's insertion (add if needed,
      insert into all, finish the oldest when due) make one InsertStep, and
      the lifecycle stays within its invariant. */
  lemma InsertStages(l0: Lifecycle, l1: Lifecycle, l2: Lifecycle, l3: Lifecycle, n: nat)
    requires LifecycleInvariant(l0, n)
    requires l1 == if NeedsNewSubmap(l0, n) then AddStep(l0) else l0
    requires l2 == Lifecycle(InsertIntoAll(l1.live), l1.evicted)
    requires |l2.live| >= 1
    requires l3 == if l2.live[0].numRangeData == 2 * n
                   then Lifecycle(l2.live[0 := SubmapState(l2.live[0].numRangeData, true)], l2.evicted)
                   else l2
    ensures l3 == InsertStep(l0, n)
    ensures LifecycleInvariant(l3, n) && 1 <= |l3.live| <= 2
  {
    InsertStepKeepsInvariant(l0, n);
  }

  // ---------------------------------------------------------------------
  // The submap and the collection of active submaps.
  // ---------------------------------------------------------------------

  /** Every world cell of the batch is a known cell of the grid. */
  ghost predicate HoldsBatch(grid: Grid2D, rangeData: RangeData)
    reads grid
  {
    grid.Valid() && AllKnown(grid.correspondenceCostCells, grid.limits, grid.origin, BatchCells(rangeData))
  }

  /** What a grid holds: its cells, its limits and the world cell of index (0, 0). */
  datatype GridState = GridState(cells: seq<uint16>, limits: CellLimits, origin: Cell)

  ghost function StateOf(grid: Grid2D): GridState
    reads grid
  {
    GridState(grid.correspondenceCostCells, grid.limits, grid.origin)
  }

  /** The grid of a new submap: `size` unknown cells on a side, centred on
      the submap origin. */
  function InitialGridState(origin: Cell, size: nat): (g: GridState)
    ensures |g.cells| == g.limits.numXCells * g.limits.numYCells
    ensures forall k :: 0 <= k < |g.cells| ==> g.cells[k] == kUnknownCorrespondenceValue
  {
    GridState(seq(size * size, _ => kUnknownCorrespondenceValue), CellLimits(size, size),
              Cell(origin.x - size / 2, origin.y - size / 2))
  }

  /** One batch inserted into one grid: what the grid held before, and how
      far the grid's growth moved the old cells. */
  /** The grid states of the submaps of `s`, in order. */
  ghost function GridStates(s: seq<Submap2D>): (r: seq<GridState>)
    reads set m | m in s :: m.grid
    ensures |r| == |s| && forall i :: 0 <= i < |s| ==> r[i] == StateOf(s[i].grid)
  {
    if s == [] then [] else [StateOf(s[0].grid)] + GridStates(s[1..])
  }

  datatype Insertion = Insertion(before: GridState, xOffset: int, yOffset: int)

  /** `after` is `step.before` with the batch inserted: the frame origin moved
      back by the offsets, every cell of the batch known, every old known cell
      known at its moved index and every other cell holding its moved code. */
  ghost predicate Inserted(step: Insertion, after: GridState, rangeData: RangeData)
  {
    && after.origin == Cell(step.before.origin.x - step.xOffset, step.before.origin.y - step.yOffset)
    && BatchInserted(step.before.cells, step.before.limits, after.cells, after.limits, after.origin,
                     step.xOffset, step.yOffset, BatchCells(rangeData))
  }

  /** A submap: its origin, the grid it owns, how many range data it has
      received and whether insertion into it has finished. */
  class Submap2D {
    const origin: Cell
    const grid: Grid2D
    var numRangeData: nat
    var insertionFinished: bool

    ghost predicate Valid()
      reads grid
    {
      grid.Valid() && grid.UpdateFinished()
    }

    constructor (origin: Cell, grid: Grid2D)
      requires grid.Valid() && grid.UpdateFinished()
      ensures Valid()
      ensures this.origin == origin && this.grid == grid
      ensures numRangeData == 0 && !insertionFinished
    {
      this.origin := origin;
      this.grid := grid;
      numRangeData := 0;
      insertionFinished := false;
    }

    /** Inserts one batch into the grid; only an unfinished submap accepts one. */
    method InsertRangeData(rangeData: RangeData, inserter: RangeDataInserter)
      returns (ghost xOffset: int, ghost yOffset: int)
      requires Valid() && !insertionFinished && ValidInserter(inserter)
      modifies this, grid
      ensures Valid() && HoldsBatch(grid, rangeData)
      ensures numRangeData == old(numRangeData) + 1 && !insertionFinished
      ensures grid.origin == Cell(old(grid.origin).x - xOffset, old(grid.origin).y - yOffset)
      ensures BatchInserted(old(grid.correspondenceCostCells), old(grid.limits), grid.correspondenceCostCells,
                            grid.limits, grid.origin, xOffset, yOffset, BatchCells(rangeData))
    {
      xOffset, yOffset := InsertIntoGrid(inserter, rangeData, grid);
      numRangeData := numRangeData + 1;
    }

    /** Ends insertion: the submap accepts no further range data. */
    method Finish()
      modifies this
      ensures insertionFinished && numRangeData == old(numRangeData)
    {
      insertionFinished := true;
    }
  }

  /** The submaps that stay live when one is added: all but the oldest of two. */
  function Survivors(s: seq<Submap2D>): (r: seq<Submap2D>)
    ensures |r| == if |s| >= 2 then |s| - 1 else |s|
    ensures forall i :: 0 <= i < |r| ==> r[i] == s[i + |s| - |r|]
  {
    if |s| >= 2 then s[1..] else s
  }

  /** The live submaps, oldest first: an old one used for matching and a new
      one being initialised, except while the first is being filled. */
  class ActiveSubmaps2D {
    const numRangeDataPerSubmap: nat
    const initialSubmapSize: int
    const inserter: RangeDataInserter
    const valueToCorrespondenceCostTable: seq<real>
    var submaps: seq<Submap2D>
    /** The live submaps as the lifecycle sees them, and how many were forgotten. */
    ghost var lifecycle: Lifecycle
    ghost var Repr: set<object>

    /** The configuration: a positive initial size, update tables and the decode table. */
    ghost predicate Configured()
    {
      && 1 <= initialSubmapSize
      && ValidInserter(inserter)
      && IsBoundedFloatTable(valueToCorrespondenceCostTable, kUnknownCorrespondenceValue, kMaxCorrespondenceCost,
                             kMinCorrespondenceCost, kMaxCorrespondenceCost)
    }

    /** Every live submap and its grid are owned and valid, and no two share an object. */
    ghost predicate Owned()
      reads this, Repr
    {
      && (forall i :: 0 <= i < |submaps| ==> submaps[i] in Repr && submaps[i].grid in Repr && submaps[i].Valid())
      && (forall i, j :: 0 <= i < j < |submaps| ==> submaps[i] != submaps[j] && submaps[i].grid != submaps[j].grid)
    }

    /** `lifecycle` mirrors the counts and states of the live submaps. */
    ghost predicate Mirrored()
      reads this, submaps
    {
      && |lifecycle.live| == |submaps|
      && (forall i :: 0 <= i < |submaps| ==>
            lifecycle.live[i] == SubmapState(submaps[i].numRangeData, submaps[i].insertionFinished))
    }

    ghost predicate ValidFrame()
      reads this, Repr
    {
      this in Repr && Configured() && Owned() && Mirrored()
    }

    ghost predicate Valid()
      reads this, Repr
    {
      ValidFrame() && LifecycleInvariant(lifecycle, numRangeDataPerSubmap)
    }

    /** An empty collection; the decode table is the correspondence-cost table. */
    constructor (numRangeDataPerSubmap: nat, initialSubmapSize: int, inserter: RangeDataInserter)
      requires 1 <= initialSubmapSize && ValidInserter(inserter)
      ensures Valid() && fresh(Repr)
      ensures this.numRangeDataPerSubmap == numRangeDataPerSubmap && this.initialSubmapSize == initialSubmapSize
      ensures this.inserter == inserter
      ensures submaps == [] && lifecycle == Lifecycle([], 0)
    {
      this.numRangeDataPerSubmap := numRangeDataPerSubmap;
      this.initialSubmapSize := initialSubmapSize;
      this.inserter := inserter;
      var table := PrecomputeValueToCorrespondenceCost();
      valueToCorrespondenceCostTable := table;
      submaps := [];
      lifecycle := Lifecycle([], 0);
      Repr := {this};
    }

    /** The live submaps, oldest first. */
    function Submaps(): (r: seq<Submap2D>)
      reads this, Repr
      ensures Valid() ==> |r| == |lifecycle.live| <= 2
      ensures Valid() ==> forall i, j :: 0 <= i < j < |r| ==> r[i] != r[j] && r[i].grid != r[j].grid
    {
      submaps
    }

    /** A grid of unknown cells, `initialSubmapSize` cells on a side,
        centred on the submap origin. */
    method CreateGrid(origin: Cell) returns (grid: Grid2D)
      requires 1 <= initialSubmapSize
      requires IsBoundedFloatTable(valueToCorrespondenceCostTable, kUnknownCorrespondenceValue, kMaxCorrespondenceCost,
                                   kMinCorrespondenceCost, kMaxCorrespondenceCost)
      ensures fresh(grid) && grid.Valid() && grid.UpdateFinished()
      ensures StateOf(grid) == InitialGridState(origin, initialSubmapSize)
      ensures InFrame(grid.limits, grid.origin, origin)
      ensures forall x, y :: !grid.IsKnown(x, y)
    {
      var half := initialSubmapSize / 2;
      grid := new Grid2D(Cell(origin.x - half, origin.y - half), CellLimits(initialSubmapSize, initialSubmapSize),
                         kMinCorrespondenceCost, kMaxCorrespondenceCost, valueToCorrespondenceCostTable);
    }

    /** A fresh submap at `origin` holding a fresh grid. */
    method NewSubmap(origin: Cell) returns (submap: Submap2D)
      requires 1 <= initialSubmapSize
      requires IsBoundedFloatTable(valueToCorrespondenceCostTable, kUnknownCorrespondenceValue, kMaxCorrespondenceCost,
                                   kMinCorrespondenceCost, kMaxCorrespondenceCost)
      ensures fresh(submap) && fresh(submap.grid) && submap.Valid()
      ensures submap.origin == origin && submap.numRangeData == 0 && !submap.insertionFinished
      ensures StateOf(submap.grid) == InitialGridState(origin, initialSubmapSize)
    {
      var grid := CreateGrid(origin);
      submap := new Submap2D(origin, grid);
    }

    /** Forgets the oldest live submap. */
    method Evict()
      requires ValidFrame() && |submaps| >= 1
      modifies this
      ensures ValidFrame() && Repr == old(Repr) - {old(submaps)[0], old(submaps)[0].grid}
      ensures submaps == old(submaps)[1..]
      ensures lifecycle == Lifecycle(old(lifecycle).live[1..], old(lifecycle).evicted + 1)
    {
      Repr := Repr - {submaps[0], submaps[0].grid};
      submaps := submaps[1..];
      lifecycle := Lifecycle(lifecycle.live[1..], lifecycle.evicted + 1);
    }

    /** Makes a new, empty submap at `origin` the newest live one. */
    method AppendNew(origin: Cell)
      requires ValidFrame()
      modifies this
      ensures ValidFrame() && |submaps| >= 1
      ensures var submap := submaps[|submaps| - 1];
              && fresh(submap) && fresh(submap.grid) && submap.origin == origin
              && StateOf(submap.grid) == InitialGridState(origin, initialSubmapSize)
              && Repr == old(Repr) + {submap, submap.grid}
              && submaps == old(submaps) + [submap]
      ensures lifecycle == Lifecycle(old(lifecycle).live + [SubmapState(0, false)], old(lifecycle).evicted)
    {
      var submap := NewSubmap(origin);
      submaps := submaps + [submap];
      lifecycle := Lifecycle(lifecycle.live + [SubmapState(0, false)], lifecycle.evicted);
      Repr := Repr + {submap, submap.grid};
    }

    /** Adds a fresh submap at `origin`; with two live, first forgets the
        oldest, which must be finished. */
    method AddSubmap(origin: Cell)
      requires ValidFrame()
      requires |submaps| >= 2 ==> submaps[0].insertionFinished
      modifies this
      ensures ValidFrame() && lifecycle == AddStep(old(lifecycle))
      ensures |submaps| >= 1 && submaps[|submaps| - 1].origin == origin
      ensures fresh(submaps[|submaps| - 1]) && fresh(submaps[|submaps| - 1].grid)
      ensures StateOf(submaps[|submaps| - 1].grid) == InitialGridState(origin, initialSubmapSize)
      ensures submaps[..|submaps| - 1] == if |old(submaps)| >= 2 then old(submaps)[1..] else old(submaps)
      ensures fresh(Repr - old(Repr))
      ensures |old(submaps)| >= 2 ==> old(submaps)[0] !in Repr && old(submaps)[0].grid !in Repr
    {
      ghost var s0 := submaps;
      if |submaps| >= 2 {
        Evict();
      }
      ghost var kept, owned := submaps, Repr;
      AppendNew(origin);
      assert submaps[..|submaps| - 1] == kept;
      assert |s0| >= 2 ==> s0[0] !in owned && s0[0].grid !in owned;
    }

    /** Finishes the oldest live submap. */
    method FinishSubmap()
      requires ValidFrame() && |submaps| >= 1
      modifies this, submaps[0]
      ensures ValidFrame() && submaps == old(submaps) && Repr == old(Repr)
      ensures submaps[0].insertionFinished
      ensures lifecycle == Lifecycle(old(lifecycle).live[0 := SubmapState(old(lifecycle).live[0].numRangeData, true)],
                                     old(lifecycle).evicted)
    {
      submaps[0].Finish();
      lifecycle := Lifecycle(lifecycle.live[0 := SubmapState(lifecycle.live[0].numRangeData, true)], lifecycle.evicted);
    }

    /** Inserts the batch into the live submap at `i`, one of the loop
        steps of InsertIntoLive; the grids of the other submaps keep their
        contents. */
    method InsertInto(i: nat, rangeData: RangeData) returns (ghost step: Insertion)
      requires ValidFrame() && i < |submaps| && !lifecycle.live[i].finished
      modifies this, submaps[i], submaps[i].grid
      ensures ValidFrame() && submaps == old(submaps) && Repr == old(Repr)
      ensures lifecycle == Lifecycle(old(lifecycle).live[i := SubmapState(old(lifecycle).live[i].numRangeData + 1, false)],
                                     old(lifecycle).evicted)
      ensures step.before == old(StateOf(submaps[i].grid)) && Inserted(step, StateOf(submaps[i].grid), rangeData)
      ensures forall j :: 0 <= j < |submaps| && j != i ==> StateOf(submaps[j].grid) == old(StateOf(submaps[j].grid))
    {
      var submap := submaps[i];
      ghost var before := StateOf(submap.grid);
      ghost var xOffset, yOffset := submap.InsertRangeData(rangeData, inserter);
      step := Insertion(before, xOffset, yOffset);
      lifecycle := Lifecycle(lifecycle.live[i := SubmapState(lifecycle.live[i].numRangeData + 1, false)], lifecycle.evicted);
    }

    /** Inserts the batch into every live submap: `steps[i]` records what
        the grid of the `i`-th held before and how its growth moved it. */
    method InsertIntoLive(rangeData: RangeData, ghost before: seq<GridState>) returns (ghost steps: seq<Insertion>)
      requires ValidFrame()
      requires forall i :: 0 <= i < |lifecycle.live| ==> !lifecycle.live[i].finished
      requires |before| == |submaps| && forall i :: 0 <= i < |submaps| ==> before[i] == StateOf(submaps[i].grid)
      modifies Repr
      ensures ValidFrame() && submaps == old(submaps) && Repr == old(Repr)
      ensures lifecycle == Lifecycle(InsertIntoAll(old(lifecycle).live), old(lifecycle).evicted)
      ensures |steps| == |submaps|
      ensures forall i :: 0 <= i < |submaps| ==>
                steps[i].before == before[i] && Inserted(steps[i], StateOf(submaps[i].grid), rangeData)
    {
      ghost var counts := lifecycle.live;
      steps := [];
      for i := 0 to |submaps|
        invariant ValidFrame() && submaps == old(submaps) && Repr == old(Repr)
        invariant lifecycle.evicted == old(lifecycle).evicted && |lifecycle.live| == |counts|
        invariant forall j :: 0 <= j < |counts| ==>
                    lifecycle.live[j] == if j < i then SubmapState(counts[j].numRangeData + 1, false) else counts[j]
        invariant |steps| == i
        invariant forall j :: 0 <= j < i ==>
                    steps[j].before == before[j] && Inserted(steps[j], StateOf(submaps[j].grid), rangeData)
        invariant forall j :: i <= j < |submaps| ==> StateOf(submaps[j].grid) == before[j]
      {
        var step := InsertInto(i, rangeData);
        steps := steps + [step];
      }
      assert lifecycle.live == InsertIntoAll(counts);
    }

    /** The first stage of an insertion: adds a submap when there is none
        or the newest has received its share. */
    method AddIfNeeded(origin: Cell) returns (ghost before: seq<GridState>)
      requires Valid()
      modifies this
      ensures ValidFrame() && fresh(Repr - old(Repr))
      ensures lifecycle == if NeedsNewSubmap(old(lifecycle), numRangeDataPerSubmap) then AddStep(old(lifecycle))
                           else old(lifecycle)
      ensures 1 <= |lifecycle.live| && forall i :: 0 <= i < |lifecycle.live| ==> !lifecycle.live[i].finished
      ensures 1 <= |submaps|
      ensures submaps == if NeedsNewSubmap(old(lifecycle), numRangeDataPerSubmap)
                         then Survivors(old(submaps)) + [submaps[|submaps| - 1]] else old(submaps)
      ensures |before| == |submaps| && forall i :: 0 <= i < |submaps| ==> before[i] == StateOf(submaps[i].grid)
      ensures NeedsNewSubmap(old(lifecycle), numRangeDataPerSubmap) ==>
                && fresh(submaps[|submaps| - 1]) && submaps[|submaps| - 1].origin == origin
                && before[|submaps| - 1] == InitialGridState(origin, initialSubmapSize)
      ensures NeedsNewSubmap(old(lifecycle), numRangeDataPerSubmap) && |old(submaps)| >= 2 ==>
                old(submaps)[0] !in Repr && old(submaps)[0].grid !in Repr
      ensures var gone := if NeedsNewSubmap(old(lifecycle), numRangeDataPerSubmap) && |old(submaps)| >= 2 then 1 else 0;
              forall i :: gone <= i < |old(submaps)| ==> before[i - gone] == old(StateOf(submaps[i].grid))
    {
      AddStageUnfinished(lifecycle, numRangeDataPerSubmap);
      if submaps == [] || submaps[|submaps| - 1].numRangeData == numRangeDataPerSubmap {
        ghost var kept := submaps;
        ghost var gone := if |kept| >= 2 then 1 else 0;
        assert NeedsNewSubmap(lifecycle, numRangeDataPerSubmap);
        AddSubmap(origin);
        assert submaps == submaps[..|submaps| - 1] + [submaps[|submaps| - 1]];
        before := GridStates(submaps);
        forall i | gone <= i < |kept|
          ensures before[i - gone] == old(StateOf(kept[i].grid))
        {
          assert submaps[i - gone] == kept[i];
        }
      } else {
        assert !NeedsNewSubmap(lifecycle, numRangeDataPerSubmap);
        before := GridStates(submaps);
      }
    }

    /** The last stage of an insertion: finishes the oldest submap once it
        has received twice its share; no grid changes. */
    method FinishIfDue()
      requires ValidFrame() && |submaps| >= 1
      modifies this, submaps[0]
      ensures ValidFrame() && submaps == old(submaps) && Repr == old(Repr)
      ensures forall i :: 0 <= i < |submaps| ==> StateOf(submaps[i].grid) == old(StateOf(submaps[i].grid))
      ensures lifecycle == if old(lifecycle).live[0].numRangeData == 2 * numRangeDataPerSubmap
                           then Lifecycle(old(lifecycle).live[0 := SubmapState(old(lifecycle).live[0].numRangeData, true)],
                                          old(lifecycle).evicted)
                           else old(lifecycle)
    {
      if submaps[0].numRangeData == 2 * numRangeDataPerSubmap {
        FinishSubmap();
      }
    }

    /** The last two stages of an insertion: inserts the batch into every
        live submap, then finishes the oldest once it has received twice its
        share.  `steps[i]` records what the grid of the `i`-th held before
        and how its growth moved it.  When the first stage took the lifecycle
        `l0` to the current one, the three stages make one reference step. */
    method InsertAndFinish(rangeData: RangeData, ghost l0: Lifecycle, ghost before: seq<GridState>)
      returns (ghost steps: seq<Insertion>)
      requires ValidFrame() && |submaps| >= 1
      requires |before| == |submaps| && forall i :: 0 <= i < |submaps| ==> before[i] == StateOf(submaps[i].grid)
      requires forall i :: 0 <= i < |lifecycle.live| ==> !lifecycle.live[i].finished
      requires LifecycleInvariant(l0, numRangeDataPerSubmap)
      requires lifecycle == if NeedsNewSubmap(l0, numRangeDataPerSubmap) then AddStep(l0) else l0
      modifies Repr
      ensures ValidFrame() && submaps == old(submaps) && Repr == old(Repr)
      ensures lifecycle == InsertStep(l0, numRangeDataPerSubmap)
      ensures LifecycleInvariant(lifecycle, numRangeDataPerSubmap) && |lifecycle.live| <= 2
      ensures var inserted := Lifecycle(InsertIntoAll(old(lifecycle).live), old(lifecycle).evicted);
              lifecycle == if inserted.live[0].numRangeData == 2 * numRangeDataPerSubmap
                           then Lifecycle(inserted.live[0 := SubmapState(inserted.live[0].numRangeData, true)],
                                          inserted.evicted)
                           else inserted
      ensures |steps| == |submaps|
      ensures forall i :: 0 <= i < |submaps| ==>
                steps[i].before == before[i] && Inserted(steps[i], StateOf(submaps[i].grid), rangeData)
    {
      ghost var l1 := lifecycle;
      steps := InsertIntoLive(rangeData, before);
      ghost var l2 := lifecycle;
      FinishIfDue();
      InsertStages(l0, l1, l2, lifecycle, numRangeDataPerSubmap);
    }

    /** Inserts one batch: adds a submap when there is none or the newest
        has received its share, inserts into every live submap, and finishes
        the oldest once it has received twice that share.  Returns the live
        submaps; `steps[i]` records what the grid of `live[i]` held before
        the batch and how its growth moved it.  A forgotten submap is left
        as it was and is no longer owned. */
    method InsertRangeData(rangeData: RangeData) returns (live: seq<Submap2D>, ghost steps: seq<Insertion>)
      requires Valid()
      modifies Repr
      ensures Valid() && fresh(Repr - old(Repr))
      ensures lifecycle == InsertStep(old(lifecycle), numRangeDataPerSubmap)
      ensures live == Submaps() && 1 <= |live| <= 2 && |steps| == |live|
      ensures live == if NeedsNewSubmap(old(lifecycle), numRangeDataPerSubmap)
                      then Survivors(old(submaps)) + [live[|live| - 1]] else old(submaps)
      ensures NeedsNewSubmap(old(lifecycle), numRangeDataPerSubmap) ==>
                && fresh(live[|live| - 1]) && live[|live| - 1].origin == rangeData.origin
                && steps[|live| - 1].before == InitialGridState(rangeData.origin, initialSubmapSize)
      ensures var gone := if NeedsNewSubmap(old(lifecycle), numRangeDataPerSubmap) && |old(submaps)| >= 2 then 1 else 0;
              forall i :: gone <= i < |old(submaps)| ==> steps[i - gone].before == old(StateOf(submaps[i].grid))
      ensures forall i :: 0 <= i < |live| ==> Inserted(steps[i], StateOf(live[i].grid), rangeData)
      ensures NeedsNewSubmap(old(lifecycle), numRangeDataPerSubmap) && |old(submaps)| >= 2 ==>
                && old(submaps)[0] !in Repr && old(submaps)[0].grid !in Repr
                && unchanged(old(submaps)[0], old(submaps)[0].grid)
    {
      ghost var l0 := lifecycle;
      ghost var before := AddIfNeeded(rangeData.origin);
      steps := InsertAndFinish(rangeData, l0, before);
      live := submaps;
    }
  }
}
