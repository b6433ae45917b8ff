# Cartographer 2D local mapping front end, in Dafny

This project models four pieces of the 2D local-mapping front end of
Cartographer and proves properties about them.

- **The multi-sensor range-data collator** (`RangeDataCollator`, module
  `RangeDataCollation`, file `range_data_collator.dfy`).
  - It buffers one point batch per sensor.
  - When every expected sensor has reported, it moves the time window `[current_start_, current_end_]` to the oldest buffered batch time. When a sensor reports twice, it moves the window to that sensor's buffered batch time.
  - It then crops every buffered batch to the window. It merges the overlaps under one origin index per contributing batch, with point times re-based on the window end.
  - It trims or erases each sensor's buffered batch and sorts the merged points by corrected time.
  - `std::map` traversal order is ascending `std::string` order (module `SensorIds`).
- **The fixed-point value tables** (module `ProbabilityValues`).
  - Code 0 is "unknown". Codes 1..32767 map linearly onto `[lower, upper]`.
  - The decode tables repeat the 32768 codes twice, so the update marker (bit 15) is ignored when decoding.
  - The two update tables hold one marked code per current code.
- **The 2D grid** (class `Grid.Grid2D`). It holds:
  - a row-major vector of 16-bit cell codes;
  - the list of indices updated since the last `FinishUpdate`;
  - the box around the known cells;
  - the correspondence-cost decode table.

  Reads outside the limits give the maximum cost and "not known". `ApplyLookupTable` updates a cell at most once per update. `FinishUpdate` clears the markers. `GrowLimits` may only be called when no update is in progress, and it doubles the limits until a point fits, moving every cell with the frame.
- **Submaps and the active-submap collection** (classes `Submaps.Submap2D` and `Submaps.ActiveSubmaps2D`).
  - A submap owns a grid and counts the range data inserted into it until it is finished.
  - The collection adds a submap when it is empty or when its newest submap has received `num_range_data`. With two live submaps, it first forgets the oldest, which is then finished.
  - It inserts every batch into all live submaps and finishes the oldest once that one holds `2 num_range_data`.
  - The collection keeps a ghost mirror of (count, finished) per live submap. That mirror is proved to evolve as the value-level reference `InsertStep`, whose closed form over any number of insertions is proved by `LifecycleAfter`.

The source paths below are relative to the repository root. Per-point
relative times and absolute times are integer ticks, so every window
comparison is exact. Floating-point values are `real`.

## Model

| member | source | states |
|---|---|---|
| ProbabilityValues.SlowValueToBoundedFloat | src/cartographer/cartographer/mapping/probability_values.cc:30-38 | Needs a code below 32768. The unknown code decodes to the unknown result. Any other code with `lower <= upper` decodes into `[lower, upper]`. |
| ProbabilityValues.LinearCodeInBounds | src/cartographer/cartographer/mapping/probability_values.cc:36-37 | The linear map `value*scale + (lower - scale)` takes every code 1..32767 into `[lower, upper]`. |
| ProbabilityValues.DecodeEndpoints | src/cartographer/cartographer/mapping/probability_values.cc:36-37 | Code 1 decodes to exactly `lower`, and code 32767 decodes to exactly `upper`. |
| ProbabilityValues.DecodeMonotonic | src/cartographer/cartographer/mapping/probability_values.cc:36-37 | Over the known codes, decoding is non-decreasing when `lower <= upper`. |
| ProbabilityValues.PrecomputeValueToBoundedFloat | src/cartographer/cartographer/mapping/probability_values.cc:46-61 | The table has `2 * 32768` entries. Entry `i` is the decoding of `i mod 32768`. |
| ProbabilityValues.DecodeIgnoresUpdateMarker | src/cartographer/cartographer/mapping/probability_values.cc:53-60 | In such a table, `table[v] == table[v + 32768]`, and both equal the decoding of `v`. |
| ProbabilityValues.ValueToProbability | src/cartographer/cartographer/mapping/probability_values.cc:64-68 | Every code decodes to a probability in `[kMinProbability, kMaxProbability]`. |
| ProbabilityValues.PrecomputeValueToProbability | src/cartographer/cartographer/mapping/probability_values.cc:64-68 | This is a decode table over `[kMinProbability, kMaxProbability]`. The unknown code decodes to `kMinProbability`, with or without the marker. |
| ProbabilityValues.ValueToCorrespondenceCost | src/cartographer/cartographer/mapping/probability_values.cc:71-75 | Every code decodes to a cost in `[kMinCorrespondenceCost, kMaxCorrespondenceCost]`. |
| ProbabilityValues.PrecomputeValueToCorrespondenceCost | src/cartographer/cartographer/mapping/probability_values.cc:71-75 | This is a decode table over the cost bounds. The unknown code decodes to `kMaxCorrespondenceCost`, with or without the marker. |
| ProbabilityValues.MarkUpdated | src/cartographer/cartographer/mapping/probability_values.cc:95 | Adding the marker to a code in 1..32767 and storing the sum as uint16 gives a value above the marker. Subtracting the marker gives the code back. |
| ProbabilityValues.UnknownProbabilityUpdate | src/cartographer/cartographer/mapping/probability_values.cc:95 | The entry for an unknown cell depends on `odds` alone. It carries the marker whenever the encoder yields codes in 1..32767. |
| ProbabilityValues.UpdatedProbabilityValue | src/cartographer/cartographer/mapping/probability_values.cc:98 | The updated code of a known cell carries the marker whenever the encoder yields codes in 1..32767. |
| ProbabilityValues.UnknownCorrespondenceCostUpdate | src/cartographer/cartographer/mapping/probability_values.cc:109 | This is the same for cost grids: the unknown-cell entry depends on `odds` alone and carries the marker. |
| ProbabilityValues.UpdatedCorrespondenceCostValue | src/cartographer/cartographer/mapping/probability_values.cc:113-114 | The updated cost code of a known cell carries the marker whenever the encoder yields codes in 1..32767. |
| ProbabilityValues.ComputeLookupTableToApplyOdds | src/cartographer/cartographer/mapping/probability_values.cc:91-101 | The table has exactly 32768 entries. Entry 0 depends on `odds` only. Entry `c >= 1` is the update of the probability that code `c` decodes to. Under the encoder hypothesis, every entry exceeds the marker. |
| ProbabilityValues.ComputeLookupTableToApplyCorrespondenceCostOdds | src/cartographer/cartographer/mapping/probability_values.cc:104-117 | The same for the cost table: 32768 entries, entry 0 from `odds` alone, entry `c` from the decoded cost of `c`, every entry marked under the encoder hypothesis. |
| Grid.FlatIndex | src/cartographer/cartographer/mapping/2d/grid_2d.h:110-113 | For a cell inside the limits, the row-major offset lies in `[0, num_x_cells * num_y_cells)`. |
| Grid.FlatIndexCoordinates | src/cartographer/cartographer/mapping/2d/grid_2d.h:110-113 | The offset gives the cell back: the remainder by the row length is `x` and the quotient is `y`. |
| Grid.FlatIndexBelowSize | src/cartographer/cartographer/mapping/2d/grid_2d.h:112 | `num_x_cells * y + x` stays below the number of cells. |
| Grid.FlatIndexInjective | src/cartographer/cartographer/mapping/2d/grid_2d.h:110-113 | Two cells inside the limits share an offset only if they are the same cell. |
| Grid.Extend | src/cartographer/cartographer/mapping/2d/grid_2d.h:125-127 | The extended box holds the new cell and every cell of the old box, and it is well formed. |
| Grid.Translate | src/cartographer/cartographer/mapping/2d/grid_2d.h:76-77 | A cell is in the box exactly when the shifted cell is in the shifted box. Emptiness and well-formedness are kept. |
| Grid.TranslateTwice | src/cartographer/cartographer/mapping/2d/grid_2d.h:76-77 | Two shifts of the box compose into one shift by the sum. |
| Grid.ClearUpdateMarker | src/cartographer/cartographer/mapping/2d/grid_2d.h:47-49 | A cleared code is below the marker and equals the code modulo 32768. |
| Grid.RecenteredCellAt | src/cartographer/cartographer/mapping/2d/grid_2d.h:76-80 | After one doubling, each cell holds the old cell half the old extent back, or the unknown code where the grid grew. |
| Grid.RecenteredKeepsGrid | src/cartographer/cartographer/mapping/2d/grid_2d.h:76-80 | A doubling keeps every code unmarked and keeps the moved box around the known cells. |
| Grid.PlacedOldCell | src/cartographer/cartographer/mapping/2d/grid_2d.h:76-80 | After growth, every old cell keeps its code at its moved index, and that index lies inside the new limits. |
| Grid.PlacedTwice | src/cartographer/cartographer/mapping/2d/grid_2d.h:76-80 | Two growths in a row move the old cells by the sum of the offsets. |
| Grid.RecenteredKeepsPlacement | src/cartographer/cartographer/mapping/2d/grid_2d.h:76-80 | One more doubling composes with the placement of the original cells so far. |
| Grid.OutsideDistanceShrinks | src/cartographer/cartographer/mapping/2d/grid_2d.h:76-80 | A doubling brings a coordinate that lies outside strictly closer to the limits, so growth ends. |
| Grid.GrowthBringsCloser | src/cartographer/cartographer/mapping/2d/grid_2d.h:76-80 | For a point outside the limits, one doubling with the point moved by half the old extent strictly lowers the sum of its distances to the limits along both axes. |
| Grid.Grid2D.constructor | src/cartographer/cartographer/mapping/2d/grid_2d.h:40 | A new grid has no known cell, no update in progress and an empty known box. The min and max costs are fixed at construction. |
| Grid.Grid2D.GetCellIndex | src/cartographer/cartographer/mapping/2d/grid_2d.h:76-77 | A world cell's index in the current frame, offset by the frame origin, gives the world cell back. |
| Grid.Grid2D.ToFlatIndex | src/cartographer/cartographer/mapping/2d/grid_2d.h:110-113 | Needs a cell inside the limits. The result indexes the cell vector and recovers `x` and `y`. |
| Grid.Grid2D.GetCorrespondenceCost | src/cartographer/cartographer/mapping/2d/grid_2d.h:53-56 | Outside the limits the result is the maximum cost. Inside, it is the decoding of the stored code with the marker ignored. It always lies in `[min, max]`. |
| Grid.Grid2D.IsKnown | src/cartographer/cartographer/mapping/2d/grid_2d.h:68-70 | True exactly when the cell is inside the limits and its code is not unknown. A known cell lies in the known box. An unknown cell reads as the maximum cost. |
| Grid.Grid2D.ComputeCroppedLimits | src/cartographer/cartographer/mapping/2d/grid_2d.h:72-74 | The region holds every known cell. With nothing known, it is the single cell at offset 0. |
| Grid.Grid2D.ApplyLookupTable | src/cartographer/cartographer/mapping/2d/grid_2d.h:123-127 | A cell without the marker takes its table entry, joins the update list and extends the known box. A cell with the marker is left alone. The cell ends up known, known cells stay known, and every other cell is unchanged. |
| Grid.Grid2D.FinishUpdate | src/cartographer/cartographer/mapping/2d/grid_2d.h:47-49 | Every cell loses its marker, the update list empties, and a cell is known afterwards exactly when it was known before. |
| Grid.Grid2D.GrowOnce | src/cartographer/cartographer/mapping/2d/grid_2d.h:76-80 | One step doubles the limits and moves the cells, the frame origin and the known box by half the old extent. |
| Grid.Grid2D.GrowStep | src/cartographer/cartographer/mapping/2d/grid_2d.h:76-80 | One loop step of the growth keeps the grid valid and every original cell at its moved index, with the origin and known box moved by the summed offsets. It brings the point strictly closer to the limits. |
| Grid.Grid2D.GrowLimits | src/cartographer/cartographer/mapping/2d/grid_2d.h:76-80 | Needs no update in progress. Afterwards the point is inside the limits. Every old cell is at its moved index, with the origin and box moved accordingly. A point already inside changes nothing. |
| Submaps.AddStep | src/cartographer/cartographer/mapping/2d/submap_2d.h:80-83 | Adding puts a fresh empty submap last. With two live submaps, the oldest is forgotten, so at most two remain. |
| Submaps.InsertIntoAll | src/cartographer/cartographer/mapping/2d/submap_2d.h:86-88 | Every live submap receives exactly one more range data, and its state is otherwise unchanged. |
| Submaps.InsertStepKeepsInvariant | src/cartographer/cartographer/mapping/2d/submap_2d.h:74-83 | One insertion keeps the invariant: at most two live submaps, the newest unfinished and the oldest `n` ahead. Only a finished submap is forgotten, and insertion only reaches unfinished submaps. |
| Submaps.AddStageUnfinished | src/cartographer/cartographer/mapping/2d/submap_2d.h:80-83 | A submap is forgotten only when finished. After the add stage, at least one submap is live and none is finished. |
| Submaps.InsertionsKeepInvariant | src/cartographer/cartographer/mapping/2d/submap_2d.h:74-78 | The invariant holds after any number of insertions from the empty collection. |
| Submaps.InsertStepSingle | src/cartographer/cartographer/mapping/2d/submap_2d.h:74-76 | While a single submap holds fewer than `n` range data, insertion only counts up. At `n`, a second submap appears. |
| Submaps.InsertStepPair | src/cartographer/cartographer/mapping/2d/submap_2d.h:80-83 | With two live submaps, insertion counts both up. Once the newest reaches `n`, the finished oldest is forgotten and a fresh one is added. |
| Submaps.StartupLifecycle | src/cartographer/cartographer/mapping/2d/submap_2d.h:74-76 | After `k` insertions with `1 <= k <= n`, the single first submap is live and unfinished, holds `k` range data, and nothing has been forgotten. |
| Submaps.LifecycleAfter | src/cartographer/cartographer/mapping/2d/submap_2d.h:74-83 | After `n + n e + m` insertions with `1 <= m <= n`, two submaps are live. The newest holds `m` range data and is unfinished. The oldest holds `m + n` and is finished exactly when `m == n`. `e` finished submaps have been forgotten. |
| Submaps.PhaseStep | src/cartographer/cartographer/mapping/2d/submap_2d.h:74-83 | One insertion moves the start-up phase with `c` range data to `c + 1`, or to the first pair at `c == n`. It moves the pair phase to the next count, or forgets one more submap when the newest holds `n`. |
| Submaps.InsertionsFollowPhase | src/cartographer/cartographer/mapping/2d/submap_2d.h:74-83 | After any `k >= 1` insertions from the empty collection, the lifecycle is the one that the `k`-th phase describes. |
| Submaps.FirstInsertion | src/cartographer/cartographer/mapping/2d/submap_2d.h:74-75 | The first insertion creates the first submap, which then holds one range data. |
| Submaps.FirstEviction | src/cartographer/cartographer/mapping/2d/submap_2d.h:80-83 | After `2n + 1` insertions, exactly one finished submap has been forgotten and two are live. |
| Submaps.NoEvictionBefore | src/cartographer/cartographer/mapping/2d/submap_2d.h:74-78 | During the first `2n` insertions, nothing is forgotten. One submap is live up to `n` insertions and two thereafter. |
| Submaps.InsertStages | src/cartographer/cartographer/mapping/2d/submap_2d.h:105-107 | Add if needed, insert into all, and finish when due together make one reference step. The invariant holds, with one or two submaps live. |
| Submaps.GrowAsNeeded | src/cartographer/cartographer/mapping/2d/grid_2d.h:76-80 | The grid grows until every point of the batch is inside. Old cells keep their codes at their moved indices. |
| Submaps.GrowForPoint | src/cartographer/cartographer/mapping/2d/grid_2d.h:76-80 | Growing for the next point keeps the earlier points of the batch inside the frame and brings this one inside. The original cells stay at their moved indices, with the summed offsets. |
| Submaps.ApplyAtPoint | src/cartographer/cartographer/mapping/2d/grid_2d.h:123-127 | Applying the table at the next point's cell leaves that cell and every earlier point's cell known, keeps known cells known and changes no other cell. |
| Submaps.ApplyToCells | src/cartographer/cartographer/mapping/2d/grid_2d.h:76-78 | After the table is applied to every point's cell, each of those cells is known. Known cells stay known, and every other cell is unchanged. |
| Submaps.InsertIntoGrid | src/cartographer/cartographer/mapping/2d/submap_2d.h:60-64 | After one batch, every return and miss cell is known. Every previously known cell is known at its moved index, and every other cell holds its moved old code. |
| Submaps.Submap2D.constructor | src/cartographer/cartographer/mapping/2d/submap_2d.h:49 | A new submap owns the given grid, has received nothing and is not finished. |
| Submaps.Submap2D.InsertRangeData | src/cartographer/cartographer/mapping/2d/submap_2d.h:60-64 | Needs an unfinished submap. The batch is inserted into the grid as `InsertIntoGrid` states, and the count goes up by one. |
| Submaps.Submap2D.Finish | src/cartographer/cartographer/mapping/2d/submap_2d.h:65 | The submap is finished, so it accepts no further range data, and its count is unchanged. |
| Submaps.ActiveSubmaps2D.constructor | src/cartographer/cartographer/mapping/2d/submap_2d.h:100 | A new collection has no submap, and its lifecycle is the empty one. |
| Submaps.ActiveSubmaps2D.Submaps | src/cartographer/cartographer/mapping/2d/submap_2d.h:109 | The live list mirrors the lifecycle and holds at most two submaps, with no submap and no grid shared. |
| Submaps.ActiveSubmaps2D.CreateGrid | src/cartographer/cartographer/mapping/2d/submap_2d.h:113 | The new grid is square, of the initial size, with every cell unknown. Its frame starts half a side below `origin`, so it holds the origin. |
| Submaps.ActiveSubmaps2D.NewSubmap | src/cartographer/cartographer/mapping/2d/submap_2d.h:115 | A fresh submap at `origin` owns a fresh, valid grid in that initial state. It has received nothing and is not finished. |
| Submaps.ActiveSubmaps2D.Evict | src/cartographer/cartographer/mapping/2d/submap_2d.h:80-83 | The oldest live submap is forgotten. The list and the lifecycle lose their first entry, and the forgotten count goes up by one. The collection no longer owns that submap or its grid. |
| Submaps.ActiveSubmaps2D.AppendNew | src/cartographer/cartographer/mapping/2d/submap_2d.h:115 | A fresh submap at `origin`, with a fresh initial grid, becomes the newest live one in the list and in the lifecycle. The collection owns these two new objects in addition to what it owned. |
| Submaps.ActiveSubmaps2D.AddSubmap | src/cartographer/cartographer/mapping/2d/submap_2d.h:115 | With two live submaps, the oldest must be finished. It is dropped and no longer owned. The others keep their order, a fresh submap at `origin` with the initial grid becomes the newest, and the lifecycle takes `AddStep`. |
| Submaps.ActiveSubmaps2D.FinishSubmap | src/cartographer/cartographer/mapping/2d/submap_2d.h:114 | The oldest live submap is finished, and the list is unchanged. |
| Submaps.ActiveSubmaps2D.InsertInto | src/cartographer/cartographer/mapping/2d/submap_2d.h:86-88 | The batch goes into one unfinished live submap. The returned step starts from that grid's previous state, and the grid ends as `InsertIntoGrid` states. Its count goes up by one, and every other grid is unchanged. |
| Submaps.ActiveSubmaps2D.InsertIntoLive | src/cartographer/cartographer/mapping/2d/submap_2d.h:86-88 | Every live submap, all unfinished, receives the batch. Step `i` starts from the given state of grid `i`, and grid `i` ends as `InsertIntoGrid` states. Every count goes up by one. |
| Submaps.ActiveSubmaps2D.AddIfNeeded | src/cartographer/cartographer/mapping/2d/submap_2d.h:80-83 | A submap is added exactly when there is none or the newest holds `n`. The new list is the old one, less the oldest when two were live, plus the new submap. The returned grid states are those of the old grids beforehand, with the initial grid for the new submap. A dropped submap is no longer owned, and no live submap is finished. |
| Submaps.ActiveSubmaps2D.FinishIfDue | src/cartographer/cartographer/mapping/2d/submap_2d.h:80-82 | The oldest submap is finished exactly when it holds `2n`. The list and every grid are unchanged. |
| Submaps.ActiveSubmaps2D.InsertAndFinish | src/cartographer/cartographer/mapping/2d/submap_2d.h:80-88 | After a possible add, inserting into all live submaps and then finishing when due completes one `InsertStep` from the lifecycle before the add, and keeps its invariant. Every grid receives the batch, starting from its given prior state. |
| Submaps.ActiveSubmaps2D.InsertRangeData | src/cartographer/cartographer/mapping/2d/submap_2d.h:105-109 | The lifecycle takes one `InsertStep` and keeps its invariant. The result is the `submaps()` list. That list is the old list, or, when a submap is added, the old list less its oldest (if two were live) plus a fresh submap at the batch origin. Each submap kept from before has its grid changed as `InsertIntoGrid` states, starting from its previous state. The new submap starts from the initial grid. A dropped submap is unchanged and no longer owned. |
| SensorIds.LessThanTransitive | src/cartographer/cartographer/mapping/internal/range_data_collator.cc:89 | The `std::string` order of the identifiers is transitive. |
| SensorIds.LessThanTotal | src/cartographer/cartographer/mapping/internal/range_data_collator.cc:89 | Any two identifiers are equal or ordered one way or the other. |
| SensorIds.HasLeast | src/cartographer/cartographer/mapping/internal/range_data_collator.cc:89 | Every non-empty set of identifiers has a first one in that order. |
| SensorIds.SortedIds | src/cartographer/cartographer/mapping/internal/range_data_collator.cc:89 | The merge visits each buffered sensor exactly once, in strictly ascending identifier order. |
| SensorIds.SortedIdsUnique | src/cartographer/cartographer/mapping/internal/range_data_collator.cc:89 | That visiting order is the only strictly ascending listing of the identifiers. |
| RangeDataCollation.Resized | src/cartographer/cartographer/mapping/internal/range_data_collator.cc:43 | The resized vector has the requested length, keeps the old prefix and fills the rest with the default. |
| RangeDataCollation.WithIntensities | src/cartographer/cartographer/mapping/internal/range_data_collator.cc:43 | A stored batch has one intensity per point, with the same time, origin and points. |
| RangeDataCollation.LeadingRun | src/cartographer/cartographer/mapping/internal/range_data_collator.cc:95-103 | The run length covers exactly the leading points that pass the test: every point before it passes, and the point at it fails. |
| RangeDataCollation.OverlapBounds | src/cartographer/cartographer/mapping/internal/range_data_collator.cc:95-103 | Points before the overlap start are earlier than the window start, and the first point after is not. Points in the overlap are at or before the end, and the point after is later. |
| RangeDataCollation.FindOverlap | src/cartographer/cartographer/mapping/internal/range_data_collator.cc:95-103 | The two cursor loops stop exactly at the overlap start and end. |
| RangeDataCollation.Copied | src/cartographer/cartographer/mapping/internal/range_data_collator.cc:118-131 | Each copied point keeps its position, intensity and absolute instant: its time plus the window end is its old absolute time. It is tagged with the batch's origin index. |
| RangeDataCollation.AppendCopied | src/cartographer/cartographer/mapping/internal/range_data_collator.cc:125-132 | The copy loop appends exactly the copied overlap. |
| RangeDataCollation.Slot | src/cartographer/cartographer/mapping/internal/range_data_collator.cc:136-150 | A fully consumed batch is erased. Otherwise the slot keeps time and origin and holds the points and intensities from the overlap end on. |
| RangeDataCollation.MergeOrigins | src/cartographer/cartographer/mapping/internal/range_data_collator.cc:112-126 | Every merged point's origin index is valid, and every origin is named by at least one point. |
| RangeDataCollation.MergeNotAfterEnd | src/cartographer/cartographer/mapping/internal/range_data_collator.cc:101-130 | Every merged point is at or before the window end: its corrected time is not positive. |
| RangeDataCollation.MergeSlots | src/cartographer/cartographer/mapping/internal/range_data_collator.cc:135-150 | After a merge over distinct sensors, each merged sensor's slot is the trimmed or erased batch. The slots of other sensors are untouched. |
| RangeDataCollation.MergeConservesPoints | src/cartographer/cartographer/mapping/internal/range_data_collator.cc:89-151 | Merged, dropped and still buffered points add up to the buffered total. |
| RangeDataCollation.MergeStep | src/cartographer/cartographer/mapping/internal/range_data_collator.cc:89-151 | Merging one more sensor in traversal order crops its batch into the merge so far. |
| RangeDataCollation.CropPoints | src/cartographer/cartographer/mapping/internal/range_data_collator.cc:84-151 | The whole window's merge has no point after the end, and it has valid origin indices with no unused origin. |
| RangeDataCollation.CropSlots | src/cartographer/cartographer/mapping/internal/range_data_collator.cc:135-150 | After the window's merge, every buffered sensor's slot is the trimmed or erased batch, and no sensor gains a slot. |
| RangeDataCollation.SortByTime | src/cartographer/cartographer/mapping/internal/range_data_collator.cc:155-158 | In place, the points end sorted by corrected time and are a permutation of the input. |
| RangeDataCollation.InsertLast | src/cartographer/cartographer/mapping/internal/range_data_collator.cc:155-158 | One more point is moved into the sorted prefix, and the array stays a permutation. |
| RangeDataCollation.SwapDown | src/cartographer/cartographer/mapping/internal/range_data_collator.cc:155-158 | Swapping an out-of-order point one place down keeps the array a permutation and moves the unsorted point one position toward its place. |
| RangeDataCollation.SortRanges | src/cartographer/cartographer/mapping/internal/range_data_collator.cc:155-158 | The result is sorted by corrected time and is a permutation of the merged points. |
| RangeDataCollation.OldestTimestamp | src/cartographer/cartographer/mapping/internal/range_data_collator.cc:72-76 | The minimum of the buffered times: no later than any of them and equal to one of them. With nothing buffered, it is the maximum time. |
| RangeDataCollation.Emplace | src/cartographer/cartographer/mapping/internal/range_data_collator.cc:58 | The key is present afterwards. An existing entry is never overwritten, and other entries are kept. |
| RangeDataCollation.AllReported | src/cartographer/cartographer/mapping/internal/range_data_collator.cc:65-67 | When the buffered sensors are expected and as many as expected, every expected sensor is buffered. |
| RangeDataCollation.RangeDataCollator.CropAndMerge | src/cartographer/cartographer/mapping/internal/range_data_collator.cc:84-160 | The result is tagged with the window end and holds the origins in traversal order. Its points are sorted and are a permutation of the merged overlaps. The pending map becomes the trimmed slots, and the window is unchanged. |
| RangeDataCollation.RangeDataCollator.CropSensors | src/cartographer/cartographer/mapping/internal/range_data_collator.cc:89-151 | The loop over the sensors builds exactly the reference merge of their batches in order. |
| RangeDataCollation.RangeDataCollator.CropSensor | src/cartographer/cartographer/mapping/internal/range_data_collator.cc:90-150 | One batch is cropped into the merge, adding an origin only with points. Its slot is updated, and every other slot is unchanged. |
| RangeDataCollation.RangeDataCollator.AddRangeData | src/cartographer/cartographer/mapping/internal/range_data_collator.cc:37-81 | Needs an expected sensor. A repeat moves the window to `[old end, buffered time]`, merges, then buffers the new batch only if the slot was freed. Otherwise the batch is buffered: with sensors missing, the result is empty and the window is unchanged. With all sensors present, the window moves to `[old end, oldest time]` and the merge is returned. |
| RangeDataCollation.RangeDataCollator.FlushRepeat | src/cartographer/cartographer/mapping/internal/range_data_collator.cc:50-60 | The window runs from the old end to the repeated sensor's buffered time. The result is that window's merge, and the new batch takes the slot only if the merge freed it. |
| RangeDataCollation.RangeDataCollator.FlushAll | src/cartographer/cartographer/mapping/internal/range_data_collator.cc:69-80 | The window runs from the old end to the oldest buffered time, and the result is that window's merge. |
| RangeDataCollation.NextBatchBuffered | src/cartographer/cartographer/mapping/internal/range_data_collator.cc:53-58 | If no point of the repeated sensor's buffered batch is later than the batch time, the merge frees the slot and the new batch is buffered. |
| RangeDataCollation.NextBatchDropped | src/cartographer/cartographer/mapping/internal/range_data_collator.cc:58 | Consider a buffered batch with a point later than its batch time, and a window that starts no later than that time. Moving the window to that time keeps the slot with the points from the overlap end on. `emplace` then keeps that slot, so the new batch is not buffered. |

## Left out

- `imu_tracker.h`: orientation estimation in floating point, outside the mapping core.
- Float rounding:
  - `Odds`, `ProbabilityFromOdds`, `ProbabilityToValue` and `CorrespondenceCostToValue` are uninterpreted functions, because their definitions are not part of this model. The encoders' range 1..32767 is the explicit hypothesis `EncoderInRange`.
  - `float` is `real` throughout, so rounding in the linear decoding is not modelled.
- RangeDataCollation.Copied: re-basing is exact in integer ticks. The source converts the correction with `ToSeconds`/`static_cast<float>` and the sum back with `FromSeconds`, and the rounding of those steps is not modelled.
- RangeDataCollation.AbsoluteTime: `data.time + point time` is an unbounded integer, so a sum beyond the 64-bit range is not modelled.
- The `LOG(WARNING)` about dropped points in `CropAndMerge` is logging only. Dropped points are counted by `Dropped` in `MergeConservesPoints` instead.
- `range_data_collator.h` is not part of this model. Therefore:
  - the default intensity and the initial window time are constructor parameters;
  - the conversion of the expected-sensor list to a set is taken as done;
  - the empty result `{}` is taken as time 0 with no origins or points.
- RangeDataCollation.SortByTime: `std::sort` is not stable, and the order of equal times is unspecified. The model sorts by insertion and promises only sorted output that is a permutation.
- Protobuf conversion (`ToProto`, `UpdateFromProto`, `ToResponseProto`, `DrawToSubmapTexture`, the proto constructors) and Lua option parsing (`CreateGridOptions2D`, `CreateSubmapsOptions2D`): serialisation only.
- Eigen vectors and boxes become integer cells and a simple box datatype.
- Maps, resolution and the point-to-cell mapping:
  - `map_limits.h` is not part of this model, so world points are given already discretised as integer cells.
  - `Contains` is `0 <= x < num_x_cells && 0 <= y < num_y_cells`.
  - Grid2D.GetCellIndex subtracts the frame origin and does no rounding.
- The range-data inserter's interface and ray casting are not part of this model:
  - a batch gives its return cells and miss cells directly;
  - the inserter is the pair of hit and miss update tables, a constructor parameter that stands in for `CreateRangeDataInserter`;
  - the probability/TSDF grid-type switch is not modelled.
- Function bodies that are not part of this model, taken from the header comments and documented behaviour:
  - `submap_2d.cc`, `probability_grid.cc` and `grid_2d.cc` are not part of this model;
  - `GrowLimits` doubles the limits around the current extent until the point fits;
  - `FinishUpdate` clears the markers;
  - `ApplyLookupTable` updates a cell once per update;
  - `ComputeCroppedLimits` derives the region from the known box.
- The collection's add/insert/finish rule is not stated in `submap_2d.h`, which says only "a certain number of range data" (lines 79-83). The model follows the rule of upstream Cartographer's `ActiveSubmaps2D::InsertRangeData` in `submap_2d.cc`, which is not part of this model:
  - a submap is added when there is none or when the newest holds `num_range_data`;
  - with two live submaps, adding first drops the oldest, which must be finished;
  - the batch goes into every live submap;
  - the oldest is finished once it holds `2 num_range_data`.
- Two other readings of the rule differ from the model:
  - The annotation at `submap_2d.h:86-92` says the old submap stops changing when its own count reaches `num_range_data`. In the model it stops at `2 num_range_data`: it keeps receiving batches while the newer submap fills up to `num_range_data`.
  - The documented lifecycle says one submap is forgotten after `num_range_data + 1` insertions. Under the modelled rule the first is forgotten after `2 num_range_data + 1` insertions (`FirstEviction`), and none before (`NoEvictionBefore`).
- Submaps.ActiveSubmaps2D.InsertRangeData: the frame names the forgotten submap and its grid as unchanged and no longer owned, but it does not state that the collection owns nothing beyond itself and its live submaps and grids. Objects owned besides those are not framed. The owned set only ever gains a new submap with its grid and loses a forgotten pair, but that equation is not kept as an invariant.
- Grid.Grid2D.GrowLimits grows for one point at a time. The protected overload that grows several cell vectors together is not modelled.
- `ComputeCroppedGrid`, and the cropping of the grid when a submap is finished: `Submap2D.Finish` only marks the submap as finished.
- The initial submap size is a constructor parameter of `ActiveSubmaps2D`. The grid is centred on the submap origin to within integer division.
- Shared ownership (`shared_ptr`) of submaps handed out by `submaps()` is not modelled. The returned list is the collection's own sequence.
