# MetaLog producer: a verified model

The producer turns a window of log events into a bounded document, composes documents, and compares them. This
project models three connected parts of it and proves what they promise.

- **The closed data cube.** A window's base of (level, component, role) tuples is populated into all its
  generalizations, condensed to closed cells, bounded by a greedy collapse, recovered from the closed cells alone,
  composed, and compared through borders (`Cells` to `ShiftDuality`).
- **Composition.** Two documents merge into one: label resolution, ordered top_k, capped histograms, reservoir,
  tail, behavior, envelope, provenance and coordinate, with the RFC 8785 texts their orders rest on (`Utf16Order` to
  `ComposeRun`).
- **The window engine and the comparison of documents.** A class ingests events into bounded tables, with the
  ingested history as its ghost witness, and closes them into a document; two documents are compared row by row
  (`BoundedTable` to `WindowEngine`, `Divergences` to `DiffRun`). `Pipeline` carries what the engine counts into
  documents, compositions and comparisons.

Over all three, the modules named `...Reading`, with `CollapseSearch`, `JsonReader`, `KeyReader`, `WindowCounts`,
`WindowCube` and `Outcome`, prove what a reader of the documents may conclude: which step the search takes, how many
ingested lines stand behind a cell, who is listed first and who is left out, what a printed key reads back as, and
when two documents compare as unchanged. They are stated over the members and in figures, apart from the definitions
the methods are proved against.

Code that computes by expression is functions; loops and objects that update state are methods and classes, each
proved equal to a function or relation stated separately. An unordered map is read in whatever order `:|` picks, so
a method that returns a function of its inputs cannot depend on hash order. `Orders.Sort` stands for the standard
library's sort and promises no order of ties.

Counts are natural numbers, ids natural numbers or byte strings, texts sequences of bytes. Calls into code outside
the repository are parameters: the template hash, the n-gram id, UTF-8 repair, SHA-256, the failure-cue match, the
fixed-point logarithm and the shortest-digits number form. Nothing is assumed of them beyond what a row states.

`dafny verify dfyconfig.toml` checks the whole project.

## Model

| member | source | states |
|---|---|---|
| Cells.MeetIsGreatest | src/cube/metalog.detail.cube.cppm:22-97 | the meet of two cells is their most specific common generalization: it generalizes exactly what generalizes both |
| Cells.StepBetween | src/cube/metalog.detail.cube.cppm:22-97 | every proper generalization passes through a one-step parent of the one cell and a one-step child of the other |
| Population.Populate | src/cube/cube.cpp:141-188 | the bitmask and sort loops yield the populated cube of the base: each cell that generalizes some tuple once, in canonical order, with the sum of the counts it covers and the meet of what it covers |
| Population.BitmaskEnumeration | src/cube/cube.cpp:141-188 | counting a mask up to 2^pinned visits every generalization of a tuple exactly once |
| Population.PopulatedUnique | src/cube/cube.cpp:141-188 | presence, order, counts and closures leave one cube only, and equivalent bases give the same one |
| Population.PopulatedPermutation | src/cube/cube.cpp:141-188 | permuting the base does not change the populated cube |
| Closure.MeetAllIsGreatest | src/cube/cube.cpp:141-188 | the closure of a cover is its greatest common generalization |
| Closure.ClosureLaws | src/cube/cube.cpp:141-188 | closing covers the same tuples, specializes the cell, and is idempotent |
| Closure.ClosureMonotone | src/cube/cube.cpp:141-188 | the closure of a more general cell is at least as general |
| Closure.ClosedSurvivesUnion | src/cube/cube.cpp:393-412 | a closed cell of part of a base is closed in the whole base |
| Bases.SortReduceBase | src/cube/cube.cpp:217-231 | sorting and reducing gives the canonical base: each tuple once, in order, with its summed count |
| Bases.EquivalentReduced | src/cube/cube.cpp:217-231 | two bases reduce to the same rows if and only if no reading of counts tells them apart |
| ClosedCube.ClosedRowsUnique | src/cube/cube.cpp:393-412 | bases no reading tells apart have one list of closed cells with their counts |
| ClosedCube.CountInClosed | src/cube/cube.cpp:204-212 | the scan returns the greatest count among the closed cells the cell generalizes, zero when there is none |
| ClosedCube.LosslessCounts | src/cube/cube.cpp:204-212 | for every cell, closed or not, that greatest count is exactly the sum of the base counts it generalizes |
| ClosedCube.RecoverBase | src/cube/cube.cpp:235-264 | the method returns the recovery of the closed cells: pinned cells, then the residual of each star-where pair |
| ClosedCube.RecoverRoundTrip | src/cube/cube.cpp:235-264 | for every canonical base with positive counts that pins level and role, the closed cells alone give back exactly that base |
| Emission.CloseAndEmit | src/cube/cube.cpp:393-412 | keeps exactly the cells equal to their own closure, in order, with the cell counts before and after |
| Emission.RetainBase | src/cube/cube.cpp:340-362 | the retained base keeps only the referenced labels, renumbered in order |
| Blocks.WhereChainIsTree | src/cube/cube.cpp:671-687 | the scan accepts a list of paths if and only if no value stands under two parents |
| Blocks.TreeReads | src/cube/cube.cpp:671-687 | paths form a tree if and only if two that agree on a value at a depth agree on the one before it |
| Emission.FlatChainIsTree | src/cube/cube.cpp:401-409 | a depth-one chain is always a tree, so that check never refuses a cube |
| Interning.RemapBase | src/cube/cube.cpp:299-318 | re-reads every component id in the larger dictionary and reduces |
| Interning.InternedBaseOf | src/cube/cube.cpp:366-389 | the retained base when there is one, otherwise the base and dictionary recovered from the cells |
| CubeAlgebra.BareRoundTrip | src/cube/cube.cpp:366-389 | stripping the retained base from any built cube and recovering it gives the same interned base and the same dictionary: both branches agree |
| Collapse.CollapseProjects | src/cube/cube.cpp:438-455 | collapsing at one state and then at any coarser one is collapsing at the coarser one directly |
| Collapse.CollapseOfSum | src/cube/cube.cpp:448-455 | coarsening a pooled base is pooling the coarsened bases |
| Collapse.MinCommonIsJoin | src/cube/cube.cpp:547-552 | the minimal common collapse is the least state coarser than both, commutative and idempotent |
| Blocks.AxesRoundTrip | src/cube/cube.cpp:519-543 | the state stamped on the axes is the state read back from them |
| BoundedCube.PickCollapseStep | src/cube/cube.cpp:492-515 | returns the step of the greedy search, which CollapseSearch.StepTaken gives in figures, and none when no step reduces the closed cells |
| BoundedCube.BuildBoundedCube | src/cube/cube.cpp:576-600 | the loop builds the block of the state the greedy search ends at, and terminates |
| CollapseSearch.StepTaken | src/cube/cube.cpp:457-515 | the step taken is the level step if it reduces the count and removes no fewer cells per unit of cost than dropping WHERE, at the cost of its target floor against one hundred; else the WHERE step if that reduces; else none |
| CollapseSearch.BestStepTaken | src/cube/cube.cpp:492-515 | no other reducing step removes more cells per unit of cost than the one taken, and none that comes earlier removes as many |
| CollapseSearch.SearchStops | src/cube/cube.cpp:576-600 | within 4096 cells, or when no step reduces, the search stays; over budget it goes on from the step taken |
| CollapseSearch.CollapsedReads | src/cube/cube.cpp:419-455 | a collapsed base counts, under any reading, the original rows with each level below the floor read as the highest folded with it and WHERE starred once its depth is gone |
| CollapseSearch.LocationsKept | src/cube/cube.cpp:492-600 | of 4000 components with a Trace and a Debug line each the search bands Trace into Debug and keeps every location, though dropping WHERE would leave three cells |
| Guardrail.GuardrailHolds | src/cube/cube.cpp:576-600 | for every base over the level and role domain and every start the chain has, the search ends within 4096 closed cells, and over budget a reducing step always exists |
| Guardrail.DroppedBound | src/cube/cube.cpp:551-600 | without WHERE at most (levels + 1) * (roles + 1) closed cells remain |
| Guardrail.FrontierKept | src/cube/cube.cpp:416-475 | for every base, the state the search ends in keeps Error and Fatal apart from everything else if and only if the floor it starts from is at most the frontier's |
| GuardrailLimits.BandingCanGrow | src/cube/cube.cpp:492-515 | a banding step alone can raise the closed-cell count, so the decrease comes from the guard of the pick |
| GuardrailLimits.GuardrailExactly | src/cube/cube.cpp:576-600 | the budget holds for every base if and only if the starting WHERE depth is one the chain has |
| BoundedCube.BoundedBlockFits | src/cube/cube.cpp:576-600 | every built block is within the budget it declares and names its collapse on its axes |
| Composition.BuildClosedCube | src/cube/cube.cpp:689-709 | the method returns the cube of the rows read by label |
| Joints.SameJointSameCube | src/cube/cube.cpp:689-709 | rows with one joint build one whole block: order, repetition and splitting of rows do not matter |
| Renaming.RenamedBlock | src/cube/cube.cpp:299-318 | a block does not depend on the dictionary its component ids index |
| Composition.ComposeCubes | src/cube/cube.cpp:777-794 | remapping, pooling, reducing and bounding gives the composed block of the two contents |
| Composition.ComposeCommutes | src/cube/cube.cpp:777-794 | composing two cubes gives the same whole block in either order |
| CubeAlgebra.ComposedContents | src/cube/cube.cpp:777-794 | a composed cube holds the two joints summed, read at a state at least as coarse as both members declare |
| CubeAlgebra.ComposedBuilt | src/cube/cube.cpp:777-794 | composing two built cubes is coarsening their pooled rows, at whatever states the two were stored |
| CubeAlgebra.ComposeIsHomomorphism | src/cube/cube.cpp:777-794 | while the pooled rows fit the budget, composing two built cubes is building the cube of both windows, as a whole block |
| CubeAlgebra.ComposeAssociates | src/cube/cube.cpp:777-794 | within the budget composition is associative |
| CubeLines.BuiltCountsLines | src/cube/cube.cpp:689-709 | however far a cube collapses, its all-star cell counts every row |
| CubeLines.ComposedCountsLines | src/cube/cube.cpp:777-794 | the all-star count of a composed cube is the sum of the two |
| CubeReading.EmittedCounts | src/cube/cube.cpp:88-118 | beside every emitted coordinate stands the number of lines that fall under it once their rows are read at the state the axes declare |
| CubeReading.AxesRead | src/cube/cube.cpp:519-600 | a built cube declares the axes level, where and structural_role with the floor banded to and the depth kept, the budget 4096 and its cell count |
| CubeReading.QueryAnswered | src/cube/cube.cpp:204-212 | for any coordinate, emitted or not, the lines under it are the greatest count among the emitted cells it generalizes, and no emitted cell it generalizes counts more |
| CubeReading.CellsInOrder | src/cube/metalog.detail.cube.cppm:22-97 | closed cells and border cells stand in ascending order of the pinned axes, weighed one, two, four and eight, then of the values axis by axis |
| WindowCube.CubeOfLines | src/engine/engine.cpp:1264-1277 | the cube of a window is the cube of its ingested lines, each a row of its own with its component as capped |
| WindowCube.CellsCountLines | src/engine/engine.cpp:1264-1277 | beside every coordinate of a closed window stands the number of ingested lines of its level, component and role, read at the state the axes declare |
| WindowCube.CubeAnswers | src/engine/engine.cpp:1264-1277 | for any coordinate the number of ingested lines under it is the greatest count among the emitted cells it generalizes |
| Border.EmergentIsConvex | src/cube/cube.cpp:604-652 | every cell between two emergent cells is emergent |
| Border.OneStepDecides | src/cube/cube.cpp:604-652 | a cell is a most general (most specific) emergent cell if and only if none of its one-step parents (children) is emergent |
| Border.FindBorder | src/cube/cube.cpp:604-652 | the flag-vector scan returns exactly the sorted upper and lower emergent cells with their counts in both cubes |
| Border.BorderDeterminesRegion | src/cube/cube.cpp:604-652 | a cell is emergent if and only if it lies between an upper and a lower member, and each side is an antichain |
| CubeDiff.CubeDiffOf | src/cube/cube.cpp:725-775 | reads both sides at the minimal common collapse, pins the current side with its shifts and returns both borders; CubeReading says what their cells count |
| CubeReading.ShiftReadsBack | src/cube/cube.cpp:64-86 | a shift id read back as magnitude and direction is the drift it was made from, so no two drifts share one |
| CubeReading.BorderCounts | src/cube/cube.cpp:725-775 | an emerging cell counts no line before and its lines now, a vanishing one the reverse; where an emerging cell names a shift, its lines now are exactly those of the components that drifted by that size in that direction |
| CubeReading.BordersTell | src/cube/cube.cpp:604-652 | a coordinate has lines now and had none before if and only if it lies between an upper and a lower emerging cell, and the other way round for the vanishing border |
| CubeReading.BordersQuiet | src/cube/cube.cpp:725-775 | both borders are empty if and only if every coordinate has lines now exactly when it had lines before |
| CubeDiff.SelfDiffIsEmpty | src/cube/cube.cpp:725-775 | a cube compared with itself has neither border |
| CubeDiff.ShiftsOnlyEmerge | src/cube/cube.cpp:725-775 | a cell that pins latency_shift has previous count 0 and is emerging if and only if it counts anything; unpinned cells are unaffected |
| CubeDiff.ShiftLeavesVanishing | src/cube/cube.cpp:725-775 | the vanishing border does not depend on the shifts |
| DiffProjection.DiffOfBuilt | src/cube/cube.cpp:725-775 | comparing two stored cubes is comparing the raw rows they came from, read at the common state |
| ShiftDuality.EmergingTells | src/cube/cube.cpp:725-775 | the emerging border pins a shift if and only if some row with a positive count lies in a shifted component |
| ShiftDuality.BasesTradeExactly | src/cube/cube.cpp:725-775 | swapping two bases swaps the two borders, with each cell's two counts, if and only if neither side has a counted row its own shifts pin |
| ShiftDuality.DiffDualExactly | src/cube/cube.cpp:725-775 | for cubes whose components shifted by as much either way, swapping the arguments swaps the borders if and only if WHERE is dropped at the common state or no counted row of either cube lies in a shifted component; the axes stay |
| ShiftDuality.DiffDual | src/cube/cube.cpp:725-775 | without shifts, swapping the arguments always swaps emerging and vanishing, with each cell's two counts |
| ShiftDuality.ShiftedBordersDoNotTrade | src/cube/cube.cpp:725-775 | one row of one shifted component on each side for which the borders do not trade |
| Utf16Order.KeyOrderIsUtf16Order | src/operations/compose.cpp:656-678 | for any two sequences of Unicode scalar values the key order on their UTF-8 bytes is the order of their UTF-16 code units (section 3.2.3 of RFC 8785, section 3 of RFC 3629, section 2.1 of RFC 2781) |
| Utf16Order.RemapIsPermutation | src/operations/compose.cpp:656-669 | the byte remap is a permutation of the bytes |
| Utf16Order.KeyOrderIsTotal | src/operations/compose.cpp:671-678 | on arbitrary byte strings the key order is a strict total order |
| JcsWriter.AppendJcsString | src/operations/compose.cpp:565-610 | appends the quoted text: the short escapes, \u00xx in lower case below 0x20, every other byte itself |
| Json.QuotedIsPrintable | src/operations/compose.cpp:565-610 | a quoted text holds no control byte |
| Json.QuotedDecodes | src/operations/compose.cpp:565-610 | a quoted text determines the text and where it ends |
| Json.ExactTextDecodes | src/operations/compose.cpp:565-834 | the exact text of a value of any shape and depth determines the value |
| JsonReader.ExactTextReads | src/operations/compose.cpp:565-834 | the exact text of a value, read by a grammar of RFC 8259 written apart from the printer, is that value with nothing left over |
| JcsWriter.AppendJcsNumber | src/operations/compose.cpp:623-656 | the exact form writes the decimal digits; the other form writes whatever the rounding gives |
| JcsWriter.AppendJcsSource | src/operations/compose.cpp:708-751 | appends the printed source object, members omitted when absent |
| JcsWriter.AppendJcsCoordinate | src/operations/compose.cpp:753-800 | appends the printed coordinate object, children included; KeyReader.CoordinateReads reads it back field by field |
| JcsWriter.KeyOfEntry | src/operations/compose.cpp:812-859 | the two-form key of a provenance entry is its two printed texts |
| KeyReader.SourceReads | src/operations/compose.cpp:708-751 | a printed source, read by the wire names of its members, is that source: fleet, host, host_count, service and every tag |
| KeyReader.CoordinateReads | src/operations/compose.cpp:753-800 | a printed coordinate, read by the wire names of its members, is that coordinate: end_tick and start_tick, handle and resolver_kind, version, hash and children at any depth |
| KeyReader.EntryReads | src/operations/compose.cpp:812-850 | a printed provenance entry, read by the wire names of its members, is that entry: start and end of its window, source, lines, document and coordinate |
| KeyReader.KeysReadBack | src/operations/compose.cpp:812-859 | the exact bytes of a key, read by the grammar and by the wire names, give back the entry or the coordinate |
| CanonicalKeys.EntryCanonical | src/operations/compose.cpp:708-850 | every object printed for an entry, however deep, has its members in canonical order |
| CanonicalKeys.CoordinateCanonical | src/operations/compose.cpp:753-800 | the same for a coordinate and its children |
| KeyInjectivity.KeysTieOnlyOnEqual | src/operations/compose.cpp:812-859 | two entries (two coordinates) have equal keys if and only if they are equal, whatever digits the rounded form writes |
| Provenance.MergeProvenance | src/operations/compose.cpp:864-905 | the method returns both inputs' entries in key order |
| Provenance.ProvenanceCommutes | src/operations/compose.cpp:864-905 | merged provenance is the same list either way round and keeps every entry of both inputs |
| DocumentReading.ProvenanceInOrder | src/operations/compose.cpp:864-905 | merged entries stand without a window first, then by start, by end, and by the rounded and the exact text |
| DocumentReading.OwnEntryReads | src/operations/compose.cpp:864-895 | a document contributes its own provenance and one entry with its window, source, lines and coordinate |
| DocumentReading.CoordinateReads | src/operations/compose.cpp:910-941 | a merged coordinate holds exactly the raw coordinates of both, in the order of their texts, and nothing else of its own |
| Provenance.CoordinatesCommute | src/operations/compose.cpp:910-941 | coordinates merge commutatively |
| Provenance.CoordinatesAssociate | src/operations/compose.cpp:910-941 | coordinates merge associatively |
| ComposeLabels.ResolveLabelCommutes | src/operations/compose.cpp:103-115 | the resolved label does not depend on which operand carried it |
| ComposeLabels.LouderLabelsWin | src/operations/compose.cpp:103-180 | each label is that of the document with more of the template's lines, at as many lines the smaller text; levels compare by their spellings, a declared one first, and Unknown stays only where neither names a level |
| Histograms.ReadmitSlot | src/operations/compose.cpp:189-209 | the in-place rewrite leaves the slot cut to its best values, entropy recomputed |
| Histograms.ReadmissionKeepsBest | src/operations/compose.cpp:189-209 | re-admission keeps as many values as the cap allows, with their counts, leaves total, index and cardinality alone, and drops only values counted less than every one kept, or as often and of a greater text |
| Histograms.MergeFieldHistograms | src/operations/compose.cpp:216-274 | the method returns the merged and capped slots |
| Histograms.MergedSlotReads | src/operations/compose.cpp:216-274 | a parameter both sides track has the totals summed, the greater cardinality and, of the values kept, the counts summed; one only one side tracks is that side's |
| Histograms.MergedHistogramsCommute | src/operations/compose.cpp:216-274 | merged histograms do not depend on the order of the operands |
| StatsBuilders.AggregateAndOrder | src/operations/compose.cpp:285-319 | merged counts and resolved labels of every listed template, in the order StatsReading.TopKIsMostFrequent reads |
| StatsBuilders.RederiveReservoir | src/operations/compose.cpp:390-496 | re-ranks the templates either reservoir listed and top_k did not take, by salience then id, up to the common cap |
| StatsBuilders.ComposeStatistics | src/operations/compose.cpp:285-561 | the builders together return the composed statistics |
| StatsReading.TopKIsMostFrequent | src/operations/compose.cpp:285-388 | composed top_k counts never increase and ties go to the smaller id, every template left out has fewer lines in the two documents than one listed or as many and a greater id, and the list is as long as the smaller size and the templates allow |
| StatsReading.ReservoirIsMostSalient | src/operations/compose.cpp:390-496 | every composed reservoir entry is a template one reservoir remembered and top_k does not list, with its lines in both documents and the verdict of exactly what the entry shows; the most salient come first |
| StatsReading.LeftOutIsWeaker | src/operations/compose.cpp:390-496 | a remembered template of some salience is only left out behind a reservoir filled to its declared size with stronger ones, or equal ones of smaller ids |
| StatsReading.BandsAreGreatest | src/operations/compose.cpp:390-496 | a composed entry shows the greatest surprise and novelty either reservoir remembered |
| StatsReading.TailIsLoudest | src/operations/compose.cpp:498-541 | a tail summary is there if and only if there are lines and templates neither list carries, and its loudest count is the lines of the most frequent of those |
| StatsReading.EntropyReads | src/operations/compose.cpp:543-561 | the entropy of a composed document is taken over its lines, with one count for every template listed and one for the two tails when they hold any |
| StatsReading.RowLabels | src/operations/compose.cpp:322-496 | each composed row's labels are those resolved from what each document gives the template, a reservoir row's coordinate its level and innermost location where both carry a cube |
| StatsReading.ViewLabels | src/operations/compose.cpp:77-100 | a document gives a template the labels of its last reservoir entry, else of its last top_k entry, else none |
| StatsReading.SizesAreSmaller | src/operations/compose.cpp:27-39 | each declared size of a composed document is the smaller one declared, the one declared when only one is |
| StatsLaws.StatsCommute | src/operations/compose.cpp:285-561 | composed statistics do not depend on the order of the operands, for any salience |
| StatsLaws.PartsMakeWhole | src/operations/compose.cpp:322-541 | composed top_k, reservoir and tail share no template, are every listed template, and count every listed line |
| StatsLaws.ComposeConserves | src/operations/compose.cpp:286-561 | composed statistics account for exactly what the two inputs account for; unique_templates is the sum of the three sizes, and the counts fed to the entropy add up to the same |
| StatsLaws.TreeConserves | src/operations/compose.cpp:286-561 | however documents are composed, top_k, reservoir and tail count every observed line |
| Rfc3339.BytesCompareAsInstants | src/stats/wire_format.cpp:43-78 | accepted texts compare byte by byte exactly as the instants they name (section 5.6 of RFC 3339) |
| Rfc3339.EpochIsZero | src/stats/wire_format.cpp:43-78 | midnight on 1 January 1970 is the instant zero |
| Rfc3339.FormatParseRoundTrip | src/stats/wire_format.cpp:43-78 | an accepted text is the format of its instant, and every formattable instant parses back |
| Rfc3339.CalendarInFigures | src/stats/wire_format.cpp:43-78 | which dates there are, month by month with the leap rule, and the second each starts, counted from 1970, in closed form |
| Rfc3339.TextInFigures | src/stats/wire_format.cpp:43-78 | the twenty bytes of an instant one by one |
| Envelopes.EnvelopeSpansBounds | src/operations/compose.cpp:1082-1103 | the merged envelope writes the earliest start and the latest end, and its duration is their difference |
| Envelopes.EnvelopesCommute | src/operations/compose.cpp:1082-1103 | envelopes merge commutatively, with the unstamped one as identity |
| Envelopes.EnvelopesAssociate | src/operations/compose.cpp:1082-1103 | envelopes merge associatively |
| Envelopes.OrderFlips | src/operations/compose.cpp:1117-1127 | swapping the operands flips the window order, so argument position never supplies one |
| DocumentReading.OrderTells | src/operations/compose.cpp:1117-1127 | one window is earlier if and only if both have times, it ends by the start of the other, and starts before it |
| ChurnAlgebra.ProductIsMonoid | api/metalog.api.cppm:301-342 | the churn product is associative with the empty range as left identity, and as right identity if and only if the operand spans something or is the empty range |
| ChurnAlgebra.JoinIsCommutativeMonoid | api/metalog.api.cppm:344-360 | the churn join is a commutative monoid |
| ChurnAlgebra.ProductCoversBoth | api/metalog.api.cppm:301-342 | the product of the churns of two window ranges is the churn of all their windows one after the other: turns, unknowns, first and last |
| ChurnAlgebra.UnlistedRange | api/metalog.api.cppm:280-296 | the churn of an element no list carries is that of windows all absent, or all unknown where lists are cut |
| ChurnAlgebra.JoinIsStronger | api/metalog.api.cppm:344-360 | the join of two views of one window is the stronger of present, unknown, absent and none, and present if and only if either is |
| Behaviors.MergeBehavior | src/operations/compose.cpp:976-1043 | the accumulator loop returns the merged behavior block, each pooled probability the mean of both sides' weighed by their counts |
| TableReading.MergedAreMostFrequent | src/operations/compose.cpp:976-1043 | a merged block keeps the most frequent n-grams, each counted as often as both blocks list its id, its probability their mean weighed by those counts, as many as the smaller size allows |
| Behaviors.TablesCommuteExactly | src/operations/compose.cpp:1002-1040 | uncut, two n-gram tables pool to the same table either way round if and only if no id stands for two sequences between them |
| Behaviors.BehaviorsCommuteExactly | src/operations/compose.cpp:976-1043 | merging two behavior blocks commutes if and only if no n-gram either order keeps is under a collided id |
| Behaviors.CollisionsDoNotCommute | src/operations/compose.cpp:1013-1017 | two one-entry blocks whose sequences share an id merge to different blocks |
| ComposeRun.ComposeDocuments | src/operations/compose.cpp:1199-1282 | gates, builders and presence fold together return the composed document or the first refusal |
| DocumentReading.RefusedFor | src/operations/compose.cpp:1199-1228 | a pair is refused for the first of text cap, canonicalization version, retention profile, semantic identity and window bound that applies, and composed if and only if none does |
| DocumentReading.CarriedMembers | src/operations/compose.cpp:1229-1246 | lines add up, the shared text cap stays, and a version, a profile or a transport is carried if and only if both declare the same |
| DocumentReading.SourceInCommon | src/operations/compose.cpp:41-66 | the common source keeps the values and tags both give alike and adds up the hosts of different sources |
| DocumentReading.RulesetReads | src/operations/compose.cpp:943-965 | a ruleset is carried only where both have one: the one whose packages come first |
| DocumentReading.PresenceReads | src/operations/compose.cpp:1129-1197 | each row's presence is the earlier document's followed by the later's when one window lies before the other, else their join; spans add up or the longer stays, and the summary counts turned rows, turns and unknowns |
| DocumentReading.ElementReads | src/operations/compose.cpp:1146-1180 | a template's presence in a document is that of its first listing, or all absent or all unknown over the span |
| ComposeDocument.DocumentsCommute | src/operations/compose.cpp:1199-1282 | either order refuses for the same gate, or composes to the same whole document if and only if no n-gram the merge keeps is under a collided id |
| ComposeDocument.CollisionFreeDocumentsCommute | src/operations/compose.cpp:1199-1282 | two documents whose n-gram tables share no collided id compose to the same document either way round |
| ComposeDocument.ComposedCountsEveryLine | src/operations/compose.cpp:1264-1276 | a composed document counts the lines of both inputs as lines observed, as top_k, reservoir and tail, and at the all-star cell of its cube |
| WindowEngine.Engine.constructor | src/engine/engine.cpp:68-79 | a new engine holds an empty, closed window and applies the configured n-gram size clamped to those formed |
| WindowEngine.Engine.Create | src/engine/engine.cpp:68-79 | there is no engine if and only if the text cap is one no document may declare |
| WindowEngine.SizesFormed | src/engine/engine.cpp:68-79 | a configured size up to two forms bigrams, any greater one trigrams |
| WindowEngine.Engine.OpenWindow | src/engine/engine.cpp:162-166 | an open, empty window; the registry survives |
| WindowEngine.Engine.DiscardWindow | src/engine/engine.cpp:183-186 | a closed, empty window; the registry survives |
| WindowEngine.Engine.ResetWindowState | src/engine/engine.cpp:1414-1446 | everything of the window goes, the registry stays |
| WindowEngine.Engine.ContentTemplateIdFor | src/engine/engine.cpp:188-233 | refuses if and only if the content id is new to window and registry and admission says no, and then changes nothing; otherwise the dense id stands for the content id |
| WindowEngine.Engine.AccountNgram | src/engine/engine.cpp:235-258 | one n-gram more: the bounded table keeps refining exact counting |
| WindowEngine.Engine.AccountNgramInto | src/engine/engine.cpp:260-280 | forms the n-gram the ring completes and advances the ring |
| WindowEngine.Engine.TraceRingFor | src/engine/engine.cpp:282-297 | a known trace moves nothing; a new one at the bound evicts the oldest; map and queue stay in step |
| WindowEngine.Engine.RecordSpan | src/engine/engine.cpp:299-331 | the first span under an id wins, the bound evicts the oldest, the parent waits for close |
| WindowEngine.Engine.CountLine | src/engine/engine.cpp:415-449 | the bucket and the cube joint of the line count one more, and stay exact tallies of the lines ingested |
| WindowEngine.Engine.IngestLookedUpEvent | src/engine/engine.cpp:415-532 | one admitted line: counted, then observed as a span or as the next record of its own stream |
| WindowEngine.Engine.IngestEvent | src/engine/engine.cpp:401-412 | a line is refused as a whole, leaving the engine as it was, or accepted as a whole |
| WindowEngine.Engine.ResolveSpanEdges | src/engine/engine.cpp:333-392 | every declared edge finds a live parent and enters its own bounded table, or is counted as an orphan |
| WindowEngine.Engine.CloseWindow | src/engine/engine.cpp:535-580 | the document is a function of the counted state, accounts for every line ingested, and the window is reset |
| WindowEngine.Engine.EveryLineCounted | src/engine/engine.cpp:415-449 | on every run the buckets and the cube base each add up to the lines ingested |
| WindowCounts.JointCounts | src/engine/engine.cpp:415-449 | on every counted state the cube base counts, for each level, component and role, exactly the ingested lines that have all three |
| WindowCounts.BucketCounts | src/engine/engine.cpp:415-449 | a bucket counts exactly its template's ingested lines: how many, at each level, declared at it, of each role and component, where the first stands, and whether all were echoed |
| WindowCounts.BucketsAreTemplates | src/engine/engine.cpp:415-449 | a template has a bucket if and only if it has an ingested line |
| WindowCounts.DeclaredReads | src/stats/salience.cpp:58-124 | a dominant level counts as declared if and only if some line of the template at that level declared it |
| WindowEngine.Engine.NgramTableExact | src/engine/engine.cpp:235-258 | on every run the retained keys are exactly the first distinct n-grams formed up to the cap, each with its exact number of occurrences, and the dropped counter is exactly all other occurrences |
| WindowEngine.Engine.NgramsAreStreamWindows | src/engine/engine.cpp:260-297 | while the traces of a window fit the bound, the n-grams formed are exactly the consecutive windows of each stream's own records |
| WindowEngine.Engine.NgramsAreStayWindows | src/engine/engine.cpp:260-297 | on every run, whatever was evicted, the n-grams formed are exactly the consecutive windows within each stay of each stream |
| Residency.StaysAreSegments | src/engine/engine.cpp:282-297 | the stays of a stream are consecutive segments of its own records, and all of them |
| Residency.LiveIsAdmitted | src/engine/engine.cpp:282-297 | a trace was admitted as often as it was evicted, and once more if it is live |
| Residency.FormedIsKept | src/engine/engine.cpp:260-297 | over any enumeration of the streams, a bounded history forms exactly what the streams' stays form, together |
| Residency.EvictionCosts | src/engine/engine.cpp:282-297 | a trace forms only n-grams of its own records, loses at most n-gram size minus one for each of its evictions, and none when it was never evicted |
| Residency.OneEvictionOneNgram | src/engine/engine.cpp:286-295 | an eviction costs at most one n-gram if and only if n-grams are bigrams |
| Residency.OneEvictionTwoTrigrams | src/engine/engine.cpp:286-295 | a history in which one eviction costs two trigrams |
| WindowEngine.Engine.InternalIdsStandForContent | src/engine/engine.cpp:188-233 | two records share an internal id if and only if they share a content id |
| WindowEngine.EnqueuedValid | src/engine/engine.cpp:282-321 | looking a key up keeps a table and its queue equal as key sets, duplicate-free and within the bound |
| WindowEngine.DocumentUnique | src/engine/engine.cpp:535-580 | one counted state has one document: no hash order of any table reaches it |
| BoundedTable.RetainedAreFirst | src/engine/engine.cpp:235-258 | a capped table keeps exactly the first distinct keys offered |
| BoundedTable.TotalIsKept | src/engine/engine.cpp:235-258 | the kept counts add up to the total |
| Streams.FormedAreWindows | src/engine/engine.cpp:260-297 | over any enumeration of the streams, a history forms exactly their consecutive windows together |
| Streams.RingFollows | src/engine/engine.cpp:260-280 | a ring holding the last two ids of a stream forms what the stream forms and goes on holding them |
| Transitions.BuildTransitions | src/engine/engine.cpp:668-682 | every edge of the graph weighs what the n-grams opening with it count |
| Transitions.IncomingSurprise | src/engine/engine.cpp:683-709 | each template's surprise is the band of its likeliest incoming edge |
| Transitions.EdgesAreCounted | src/engine/engine.cpp:668-709 | the edges compared are exactly those the n-gram table gives: what a source's n-grams count on the way to a template out of all they count |
| Transitions.SurpriseUnique | src/engine/engine.cpp:683-709 | no iteration order of the transition maps can change a template's surprise |
| PathReading.EdgeWeighs | src/engine/engine.cpp:668-682 | there is an edge if and only if some n-gram opens with the two templates in turn; it weighs what those n-grams count together |
| PathReading.LikeliestDecides | src/engine/engine.cpp:683-709 | a template surprises by the edge into it that takes the greatest share of its source, the more observed of equals |
| PathReading.BusiestIsMostObserved | src/engine/engine.cpp:1165-1207 | the successor taken is the one most observed, of equals the lowest id |
| PathReading.PathBegins | src/engine/engine.cpp:1165-1225 | a dominant path begins with the template that has the most lines, of equals the one first given an id |
| PathReading.SurpriseOfWindow | src/engine/engine.cpp:117-141 | every template of a window that keeps a reservoir or n-grams has the surprise of its likeliest way in, once an n-gram was formed |
| DominantPath.BuildDominantPath | src/engine/engine.cpp:1165-1207 | the walk takes the busiest successor at each step, revisits no template, and stops only when it must |
| DominantPath.DominantPathUnique | src/engine/engine.cpp:1165-1225 | a window has one dominant path, simple and at most one longer than the step bound |
| SalienceScores.DominantIsUnique | src/stats/salience.cpp:58-124 | the dominant level, role and component are one value each, whatever order the votes are read in |
| SalienceScores.DominantHasMost | src/stats/salience.cpp:58-124 | the dominant level has the most votes, of equals the most severe with Unknown last; the role of equals the highest id, the component of equals the first text |
| SalienceScores.SalienceScore | src/stats/salience.cpp:156-219 | the method returns the salience of the evidence |
| SalienceScores.SalienceIsSoftMax | src/stats/salience.cpp:156-219 | the score is the strongest band any axis offers scaled by rarity, its axis the first to offer it; zero if and only if no axis speaks; never above full scale |
| SalienceScores.ScoreInFigures | src/stats/salience.cpp:156-219 | Fatal speaks at 100, a terminator at 90, Error at 80, a failure cue at 70, Warn at 30; the strongest counts, times 100, 90, 60 or 30 by the template's share of the lines, and the axis is the first that speaks so strongly |
| SalienceScores.BandsInFigures | src/stats/salience.cpp:126-154 | the surprise of an edge by its share of what leaves its source and the novelty of a template by where in its window it first stood, in per cent |
| WindowDocument.ScoresWithinScale | src/stats/salience.cpp:126-219 | no template of a closed window scores above the full scale |
| Reservoir.AdmitReservoir | src/engine/engine.cpp:854-966 | the two passes return the reserve followed by the general admits of the ranked candidates |
| Reservoir.AdmissionWithin | src/engine/engine.cpp:854-966 | at most the size, no template twice, and at least min(reserve, size, available) error-class entries |
| Reservoir.GeneralIff | src/engine/engine.cpp:944-966 | a candidate is a general admit if and only if it is not reserved, there is room when it is reached, and its kind has had fewer than the cap of better-ranked admits |
| Reservoir.UncappedIsBestOfRest | src/engine/engine.cpp:944-966 | without a per-kind cap the general admits are the best of the rest, as many as fit |
| Reservoir.LeftOutIsSaturated | src/engine/engine.cpp:944-966 | a candidate left out while room remains is of a kind better-ranked general admits have filled |
| Reservoir.AdmissionForgetsOrder | src/engine/engine.cpp:862-868 | the reservoir does not depend on the order candidates were collected in |
| ReservoirReading.AdmittedInRank | src/engine/engine.cpp:854-966 | the reserve and the general admits each stand by salience and then id, and the reserve holds every error-class candidate unless it is full |
| ReservoirReading.ReservoirEntryReads | src/engine/engine.cpp:815-853 | a reservoir entry shows its template's own lines and labels, and its salience is the score of exactly the window's evidence for it |
| ReservoirReading.KindsWithin | src/engine/engine.cpp:944-966 | where a cap per kind is set, the general admits hold no more candidates of any kind |
| ReservoirReading.ErrorClassReads | src/engine/engine.cpp:868-885 | a template is of the error class if and only if its role ends a run or its level is Error or Fatal |
| ReservoirReading.ClosedRowsPresent | src/engine/engine.cpp:1018-1034 | every row of a closed window with lines says its template was there in that one window |
| WindowClose.KindKeyIsInjective | src/engine/engine.cpp:876-885 | two templates share a kind key if and only if they share role and level |
| WindowClose.LabelBuckets | src/stats/salience.cpp:58-124 | each bucket gets its dominant level with provenance, role and component |
| WindowClose.CloseStatistics | src/engine/engine.cpp:730-1015 | the builders together return the statistics of the frozen window |
| StatsReading.ClosedTopKIsMostFrequent | src/engine/engine.cpp:730-800 | a closed top_k lists the templates with the most lines, ties to the smaller id, as many as its size and the templates allow |
| StatsReading.ClosedEntropyReads | src/engine/engine.cpp:968-1015 | the entropy of a closed window is taken over its lines, with one count for every template |
| WindowClose.ClosedConserves | src/engine/engine.cpp:730-1015 | top_k, reservoir and tail share no template, are all of them and count every line; the counts fed to the entropy add up to the lines |
| WindowDocument.CloseDocument | src/engine/engine.cpp:535-580 | the document of the counted state: statistics, behavior, dominant path and cube, each accounting for the lines |
| WindowDocument.FrozenUnique | src/engine/engine.cpp:117-141 | capped buckets, labels and surprises are determined by the counted state |
| WindowDocument.CubeUnique | src/engine/engine.cpp:1264-1277 | the window's joint has one cube |
| WindowBehavior.BuildTopNgrams | src/engine/engine.cpp:1064-1109 | the prefix and sort loops return the most frequent n-grams, each named by content with its share of what its prefix goes on to |
| TableReading.ClosedAreMostFrequent | src/engine/engine.cpp:1037-1109 | a closed block lists the most observed n-grams, each by the names of its templates, with its observations and their part of all that began as it did; one left out was observed no more often |
| WindowBehavior.ProbabilitiesAddUp | src/engine/engine.cpp:1064-1109 | the probabilities after one prefix add up to one |
| WindowBehavior.NamesTellApart | src/engine/engine.cpp:1064-1109 | two n-grams of known ids have one name if and only if they are one, so the sort has no ties |
| WindowBehavior.BlockCounts | src/engine/engine.cpp:1064-1109 | the block counts no more than the table, and all of it while the n-grams fit the cap |
| WindowBehavior.BuildBehavior | src/engine/engine.cpp:1037-1062 | no block without n-grams; otherwise size, cap, top n-grams, and the dropped observations when there are any |
| KeyCap.CapKeys | src/engine/engine.cpp:95-113 | extraction then re-insertion leaves at each key the sum of the counts that end up there, no key capped twice |
| KeyCap.RecapUnique | src/engine/engine.cpp:95-113 | the result does not depend on the iteration order of the table |
| KeyCap.RecapKeepsTotal | src/engine/engine.cpp:95-113 | re-keying loses no count |
| TextCap.CapText | src/metalog.api.impl.cpp:44-64 | a text shorter than the cap whole, a longer one as prefix, tildes and digest |
| TextCap.CappedShape | src/metalog.api.impl.cpp:30-64 | a longer text takes exactly the cap, is cut between code points, carries one to four tildes and stays well-formed UTF-8 |
| TextCap.CapDecides | src/metalog.api.impl.cpp:30-64 | a cap leaves one text, at most the cap long, and exactly the cap if and only if the text was not shorter |
| TextCap.CappedInFigures | src/metalog.api.impl.cpp:30-64 | a capped text keeps its prefix, then tildes, then the sixteen lower-case digits of the digest's first eight bytes |
| TextCap.CapInFigures | src/metalog.api.impl.cpp:30-64 | the caps a document may declare are the powers of two from 32 to 4096 |
| Divergences.ComputeDivergence | src/stats/statistics.cpp:41-96 | the accumulator loop returns the two divergences over the union of keys |
| Divergences.SelfDivergenceIsZero | src/stats/statistics.cpp:41-96 | a table does not diverge from itself, for any logarithm |
| Divergences.JsIsSymmetric | src/stats/statistics.cpp:41-158 | the Jensen-Shannon divergence does not depend on the order of the tables, for any logarithm |
| Divergences.DivergenceInFigures | src/stats/statistics.cpp:41-96 | both divergences as explicit sums over every key once: counts raised by one against totals raised by the number of keys, rounded, halved and kept in range |
| Latency.AggregateDurationByComponent | src/operations/diff.cpp:433-456 | the nested loops pool the duration histograms of each component |
| Latency.DurationsArePooled | src/operations/diff.cpp:433-456 | a component's pooled durations hold, bin by bin and in all, what the histograms on the schedule hold of the entries naming it |
| Latency.ComputeOrdinalW1 | api/metalog.api.cppm:110-167 | the loop returns the bucket and direction of the exact Wasserstein-1 distance |
| Latency.VerdictTurns | api/metalog.api.cppm:110-167 | swapped histograms keep the bucket and turn the direction; a histogram has not moved from itself |
| Latency.DirectionIsOfMeans | api/metalog.api.cppm:110-167 | the drift is up if and only if the mean bin of the later durations is the higher, and down if and only if it is the lower |
| Latency.SizeIsOfDistance | api/metalog.api.cppm:110-167 | the size is high from a distance of five bins, medium from two, low from a half |
| Latency.OneBinShift | api/metalog.api.cppm:110-167 | durations that move from one bin to another drift by the bins between, up to the longer |
| Latency.ComponentLatencyShifts | src/operations/diff.cpp:464-490 | the components timed on both sides at least 32 times whose durations moved, each with its verdict |
| Latency.ShiftedExactly | src/operations/diff.cpp:464-490 | a component shifts if and only if both sides time it thirty-two times or more and its verdict has a size and a direction |
| Latency.SelfShifts | src/operations/diff.cpp:464-490 | no component has shifted from itself |
| DiffRun.DiffTemplateDeltas | src/operations/diff.cpp:37-84 | a row per template of either side ranked by absolute delta then id, with the new and the vanished ones |
| DiffRun.DiffBranchingDelta | src/operations/diff.cpp:87-126 | the rows of templates both sides branch on, and none when no entropy moved |
| DiffRun.DiffNgramDelta | src/operations/diff.cpp:135-192 | new, vanished and re-rated n-grams of one order; a mismatch of orders is recorded instead |
| DiffRun.DiffHistograms | src/operations/diff.cpp:268-331 | a row per slot tracked on both sides, ranked by divergence |
| DiffRun.DiffReservoirDelta | src/operations/diff.cpp:504-579 | salient templates the other side does not remember, and the frontier crossings between the two memories |
| DiffRun.DiffDocuments | src/operations/diff.cpp:583-645 | refuses for the first contract the pair does not share, otherwise returns the whole comparison, repeated rows included |
| DiffReading.TemplateRowsRead | src/operations/diff.cpp:37-84 | every template of either side has one row with both counts and the current less the previous; rows stand by how far they moved and then by id; new and vanished are those only one side counts |
| DiffReading.BranchingRowsRead | src/operations/diff.cpp:87-126 | branching rows carry both entropies and their difference, the furthest moved first |
| DiffReading.RatesRead | src/operations/diff.cpp:135-192 | new and vanished sequences are exactly those of ids one side lacks; re-rated rows carry both probabilities and their difference, the furthest moved first |
| DiffReading.HistogramRowReads | src/operations/diff.cpp:279-331 | a histogram row carries both entropies, totals and cardinalities, the difference of the last, and the divergence |
| DiffReading.HistogramsInOrder | src/operations/diff.cpp:279-331 | histogram rows stand by divergence, the greatest first, then by template and parameter |
| DiffReading.ReservoirRead | src/operations/diff.cpp:504-579 | a crossing goes into failure if and only if only the current level fails, out of it if and only if only the previous one does; rows stand by id |
| DiffReading.SalientRead | src/operations/diff.cpp:534-579 | emerged and vanished are exactly the salient templates of one side that the other does not remember |
| DiffReading.TailRowReads | src/operations/diff.cpp:395-430 | a tail row carries both sides and current less previous, the rate being the loudest template's part of the lines |
| Outcome.ComparisonOutcomeOf | src/operations/diff.cpp:667-716 | asks the witnesses in the source's order and returns changed if and only if one of them holds |
| Outcome.UnchangedExactly | src/operations/diff.cpp:583-716 | two documents compare as unchanged if and only if every template is counted alike, no divergence, the same branching where both branch, the same n-grams at the same probabilities, tails alike, every cube coordinate has lines on both sides or neither, each reservoir is remembered on its side of the failure frontier, and every paired slot is alike |
| DiffLaws.SelfDiffIsSilent | src/operations/diff.cpp:583-716 | comparing a well-formed document with itself is unchanged and withholds nothing, for any fixed-point logarithm; Outcome.UnchangedExactly gives the outcome of every other pair |
| DiffLaws.DiffIsDual | src/operations/diff.cpp:583-645 | comparing the other way round mirrors the whole comparison if and only if no re-rated n-gram id collided and no counted row of the cubes lies in a shifted component; each condition decides its own part, and the shifts always turn |
| DiffLaws.MirroredCube | src/operations/diff.cpp:583-645 | the cube comparison mirrors if and only if no counted row lies in a component whose latency shifted, at the state both cubes are read at |
| DiffLaws.MirroredNGrams | src/operations/diff.cpp:135-192 | n-gram deltas mirror if and only if no re-rated id collided |
| DiffLaws.CollidingRatesDoNotMirror | src/operations/diff.cpp:160-183 | one colliding pair for which the mirror fails |
| Pipeline.ClosedCountsEveryLine | src/engine/engine.cpp:535-580 | the document of a closed window counts every line it ingested |
| Pipeline.EveryIngestedLineCounted | src/operations/compose.cpp:1199-1282 | however closed windows are composed, pair by pair in any tree, the document counts every line they ingested, three ways |
| Pipeline.ClosedIsWellFormed | src/engine/engine.cpp:730-966 | a closed window lists every template once, as comparing it assumes |
| Pipeline.ClosedWindowIsSilent | src/operations/diff.cpp:583-716 | a closed window compared with itself is unchanged, whatever it ingested |

## Findings

Where the code does not meet a property its own comments or documentation state for all inputs, the model keeps the
code and the project proves exactly when the property holds.

- *Composition is not commutative across an n-gram id collision.* `merge_behavior` keeps the sequence of whichever
  operand it absorbs first under an id (src/operations/compose.cpp:1013-1017), so two sequences that share an id make
  the merged block depend on the operand order (`Behaviors.CollisionsDoNotCommute`). `ComposeDocument.DocumentsCommute`
  proves it is the only failure: documents commute if and only if no kept n-gram is under a collided id.
- *Comparison is not dual across such a collision.* A re-rated n-gram is named by the current side's sequence
  (src/operations/diff.cpp:174-183); `DiffLaws.DiffIsDual` and `DiffLaws.CollidingRatesDoNotMirror` give the exact
  condition and a failing pair.
- *The cell budget needs a start the WHERE chain has.* `compose_cubes` starts the search at the depth the inputs' axes
  declare; from a depth beyond the chain no step drops WHERE and the search gives up over budget
  (`GuardrailLimits.GuardrailExactly`). Every cube this producer builds declares a depth the chain has.
- *Banding keeps the Error frontier only from a start below it.* The comment at src/cube/cube.cpp:418-419 says no
  banding crosses it; the search also starts from the floor the inputs' axes declare, and from a floor above Error
  every base has lower levels folded into Error or beyond (`Guardrail.FrontierKept`, an equivalence on the start).
- *An eviction can cost two n-grams.* The comment at src/engine/engine.cpp:286-287 allows an eviction at most one
  cross-record edge. That holds exactly for bigrams (`Residency.OneEvictionOneNgram`); with trigrams one eviction can
  cost two (`Residency.OneEvictionTwoTrigrams`), and never more (`Residency.EvictionCosts`).
- *Borders do not mirror under latency shifts.* The comparison pins shifts on the current side only, so swapping the
  sides moves the pins. `ShiftDuality.DiffDualExactly` proves the borders trade if and only if WHERE is dropped at the
  common state or no counted row of either cube lies in a shifted component, `DiffLaws.DiffIsDual` carries it to
  whole comparisons, and `ShiftDuality.ShiftedBordersDoNotTrade` is a failing pair.

## Left out

- WindowEngine.Engine.CloseWindow: requires at most 2^32 - 1 joints, because component ids are 32-bit and the source does not check that they fit; its document has the members WindowDocument.CloseDocument builds.
- Composition.BuildClosedCube: requires the same bound on distinct components.
- Composition.ComposeCubes: requires component ids within each block's dictionary and the two dictionaries within 32-bit ids, as every block this producer builds or reads has.
- ComposeRun.ComposeDocuments: requires one slot per parameter index in each entry's histograms, which api/metalog.api.cppm:9 declares an invariant of them, and cubes whose dictionaries fit 32-bit ids together.
- StatsBuilders.ComposeStatistics: requires the same one slot per parameter index.
- Histograms.MergeFieldHistograms: requires the same, since repeated slots would tie in a sort that promises no order of ties.
- DiffLaws.SelfDiffIsSilent: requires one entry per template in each list and one slot per parameter; `Pipeline.ClosedIsWellFormed` proves them of every closed window.
- DiffLaws.DiffIsDual: requires the same of both sides.
- DiffRun.DiffTemplateDeltas: does not carry the two frequencies, which are copied from the entries.
- DiffRun.DiffReservoirDelta: does not carry the frequencies of its rows, copied likewise.
- WindowEngine.Engine.RecordSpan: does not queue linked span ids.
- WindowEngine.Engine.IngestLookedUpEvent: does not take in parameter values, sketches or ordinals.
- WindowEngine.Engine.ResolveSpanEdges: does not resolve span links or service edges.
- WindowClose.CloseStatistics: does not build field histograms or ordinal histograms.
- WindowDocument.CloseDocument: does not build branching, stability, acquisition, span-edge and service-edge blocks.
- WindowDocument.FrozenUnique: does not cap parameter values or service edges, which the window does not hold here.
- JcsWriter.AppendJcsNumber: does not model the rounding and shortest digits of the rounded form, which is an arbitrary function here.
- Latency.ComputeOrdinalW1: does not model the 128-bit reducer's width.
- CubeReading.BorderCounts: requires a direction of every shift with a size, which `Outcome.ShiftsAreDirected` proves of the shifts a comparison computes.
- CubeReading.BordersTell: requires the same.
- TableReading.ClosedAreMostFrequent: requires n-grams of one template or more, which the engine forms only.
- PathReading.EdgeWeighs: requires n-grams of two templates or more, which the engine forms only.
- Integer widths: counts and sums do not wrap.
- Floating point: frequencies, probabilities, entropies and divergences are reals or are represented by the counts they are computed from; the 128-bit fixed-point logarithm is a parameter.
- Level and role spellings: cube coordinates hold ids, so level_from_spec and role_from_string round trips are outside the block round trip.
- The axis kinds and chain values of the cube's axes, and the wire forms of every block; serialization as a whole.
- Ingest of parameter values and ordinals: field histograms, HyperLogLog sketches and ordinal accumulators; closed windows carry no histograms here.
- Service edges and span links: pending link edges, build_service_edges, service_edge_delta.
- Span edges after their table: the ranked cut of build_span_edges and span_edge_delta.
- build_branching at close; comparison takes branching rows as given.
- build_stability, build_acquisition and cube_cardinality.
- ordinal_histogram_deltas, which only pair rows and judge nothing.
- Template ids: a natural number stands for the hash and its rendered text, in one order.
- TemplateRegistry merge, lookup and display forms of capped text.
- The envelope stamped at close, comparability identifiers and the re-derivation coordinate of a raw window.
- Exceptions carry a reason as a value instead of a message.
