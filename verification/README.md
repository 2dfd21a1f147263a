# Lumice verification models

Dafny models of the algorithmic cores of the Lumice repository, a ray tracer for ice-crystal halos, with proofs of what
those cores are for. The cores fall into four groups.

**Hexagonal-prism geometry, exact.** A prism's cross-section is the intersection of six half-planes with fixed
directions. The benchmark enumerates the crossings of the twelve non-opposite pairs of lines, keeps the feasible ones,
drops repeats, and flags a face when two corners lie on it. The model uses the benchmark's own substitution, which
makes the directions integers and the offsets arbitrary real numbers, and proves that the corner count tells a solid
from a degenerate body, that the corner list is exact, when a cached set of six corners may be reused, and when a face
dies under uniform erosion. For any polyhedron it settles when a cache of plane triples that the benchmark's verdict
accepts holds the vertices. (`PrismGeometry`, `PrismCorners`, `ClosedFormPrism`, `PrismReuse`, `CacheVerdict`,
`CacheExact`, `CachePyramid`, `PrismErosion`)

**Band-sum brightness estimator.** Production code: bisection on sorted events, an accumulation with an effective sample
size, a spherical-quadrilateral membership test, the placement of a point mass, and the linear form of a pose row.
Doubles are read as reals, with NaN and division by zero kept as separate values. (`PixelQuad`, `BandSum`, `TwistRow`)

**Graphs, text and state machines.** A depth-first cycle finder, an include-once expander, a byte-to-literal printer,
two comment strippers written independently of each other, two walkers that attribute statements to loops, and a
positional reader of unified diffs. (`CycleFinder`, `IncludeExpander`, `CLiteral`, `CommentStrip`, `CommentDelete`,
`CommentPieces`, `LoopScan`, `FatalAsserts`, `Cascade`, `CascadeLoops`, `CascadeText`, `CascadeTold`, `Decimal`,
`DiffText`, `DiffReader`, `DiffPaths`, `DiffExact`)

**Accounting and protocol.** A merger of shard reports, a duration gate with a median-based machine factor, and a
notification protocol with a retry queue in which any call to the issue tracker may fail before or after taking
effect. (`ReportMerger`, `MergedReports`, `MergedContents`, `MergedOrder`, `MachineFactor`, `PhaseGate`,
`IssueTracker`, `IssueNotifier`, `NotifierRuns`, `NotifierCalls`, `NotifierSettles`, `NotifierLasting`,
`NotifierSpaces`)

`Wrappers`, `Collections`, `Reals` and `Vectors` hold the few general definitions the others share.

Code that changes state step by step is a method with its loop, or a class with its fields, proved equal to a
specification function or against a direct statement; the theorems are lemmas about those functions. `dafny verify
dfyconfig.toml` covers the whole project.

## Where the code does not do what is said of it

Each item names the lemma that gives the exact condition under which the code meets the statement, and one that gives
an input at which it does not.

- **Death of a face is not a local event in general** (`bench/bench_geom_closedform.cpp:1152-1161` calls it a default
  assumption). It is local while both neighbours are present; over all insets it is local exactly when the face's gap
  does not exceed two bounds set by the far faces (`PrismErosion.DiesLocallyIff`). The benchmark's own perturbation of
  two far faces moves a death, at offsets in the benchmark's range (`PrismErosion.FarFaceMatters`).
- **The cache verdict accepts wrong caches of a pyramid.** The fuzz calls an accepted sample whose vertices are not the
  cached ones fatal (`bench/bench_crystal.cpp:331-332`). For a bounded body, whatever its planes, an accepted cache
  holds the vertices exactly when its triples close along edges (`CacheExact.ExactIff`), as the triples of a body do
  whose vertices lie on three planes each (`CacheExact.SimpleIsExact`), the prism among them. The pyramid has rings of
  vertices on four planes, of which the cache keeps three (`CachePyramid.CachedFirstThree`): no accepted sample of it
  is right (`CachePyramid.PyramidNeverExact`), and one is exhibited (`CachePyramid.PyramidFalseAccept`).
- **A file whose name does not print as it is loses its lines**, and so may one renamed from such a name. A name with a
  space is followed by a tab, a name with a control character, a quote or a backslash prints in quotes, and one of the
  wider Unicode line breaks in a name breaks its line. The reader takes the lines for those of another file, the silent
  failure its comment sets out to exclude (`scripts/check_new_refs.py:256-265`); a space is enough
  (`DiffPaths.SpaceMisread`). Where an old name breaks its line, the new name after it is not read and the lines are
  lost (`DiffPaths.RenameMisread`). Every added line is found under its file's name, and nothing else is, exactly when
  every file that gains a line has a name without these, and the head of its section ends in a piece that starts like
  an old name, with no hunk header in it (`DiffPaths.NamesReadIff`); a head whose names are on one line each does
  (`DiffPaths.PlainHeadHeard`).
- **A payload that holds a line break of its own can impersonate a diff line.** The reader promises safety for quoted
  patches inside files (`scripts/check_new_refs.py:256-265`), but it splits the text at every Unicode line break,
  while a diff is printed in newline-terminated lines; a form feed followed by a plus sign is enough
  (`DiffExact.FormFeedIsUnsafe`). A text is read back in every diff exactly when nothing after such a break opens a
  section, is a hunk header, or starts with a plus sign (`DiffExact.SafeIff`). Without such breaks the promise holds
  for every payload.
- **The cascade check has one kind of false alarm and one kind of miss** once a loop body holds control flow: a
  driving call behind control flow is taken for the next pass's first action, and a `continue` after the last report
  silences the check although the next pass is reached, as the script's own text says of `continue`
  (`scripts/check_loop_fatal_asserts.py:125-131`). `CascadeLoops.VerdictWrongIff` characterises both;
  `CascadeLoops.MissExists` and `CascadeLoops.FalseAlarmExists` show them.
- **The two comment strippers do not read every text alike**, as their own comments warn. They go through a text in the
  same states exactly when no token read as code is a raw-string opener or a digit separator
  (`CommentDelete.SameReadingIff`), and then their outputs agree (`CommentDelete.StrippersAgree`). On a family of raw
  string literals, with whatever follows them, the outputs do not agree (`CommentDelete.RawStringDisagrees`).
- **A deferred record changes its namespace** (`scripts/local_throughput_gate.py:983-992, 1007-1018`): a drill's
  record deferred for want of a query is judged in the namespace of the run that replays it, so it can open an issue
  in the real namespace (`NotifierSpaces.DrillOpensRealIssue`). It stays where it was recorded exactly when the
  replaying run is of that namespace or nothing there calls for an action (`NotifierSpaces.DeferredStaysIff`).
- **A passing run can leave an issue open.** With the staleness clock overridden, or a stale period shorter than the
  time between two clock readings, a pass raises the stale alarm itself, exactly when neither it nor an error was open
  (`NotifierSettles.RealPassFromEmptyQueue`, and for any queue `NotifierSettles.RealPassClearsIff`); an empty tracker
  is such a case (`NotifierSettles.PassLeavesStale`).
- **A queued action outlives the record that supersedes it.** The leg's next real pass is to close its issues
  (`doc/testing/performance-testing.md:525-530`), yet a create that was queued before a pass is retried after it and
  opens an issue that the pass has made obsolete (`NotifierLasting.SupersededActionReopens`). What a record left open
  stays, over all later runs whose records leave the same and whatever calls fail, exactly when each queued item on
  its own would leave it so (`NotifierLasting.StaysIff`).

One clause turns out to decide nothing: the third part of the cache verdict (`bench/bench_crystal.cpp:385-399`) is
implied by the second at its pair of tolerances (`CacheVerdict.CoincidenceIsRedundant`).

## Model

| member | source | states |
|---|---|---|
| PrismGeometry.Intersect | bench/bench_geom_closedform.cpp:95-98 | The point Cramer's rule yields satisfies both line equations, for any two lines with a nonzero determinant. |
| PrismGeometry.ConstantDeterminant | bench/bench_geom_closedform.cpp:89-96 | Every non-opposite pair of lines has the same determinant in magnitude and every other pair has determinant zero, so no intersection is ill-conditioned. |
| PrismGeometry.CornerIsVertex | bench/bench_geom_closedform.cpp:89-121 | Every feasible crossing of any of the twelve pairs is one of six named vertices, given by minima of the offsets. |
| PrismGeometry.InteriorPoint | bench/bench_geom_closedform.cpp:1054-1055 | If the duality conditions on the offsets hold strictly, some point satisfies all six half-planes strictly. |
| PrismCorners.AtMostSix | bench/bench_geom_closedform.cpp:108-120 | No list of distinct corners has more than six entries, so the capacity test of twelve never drops a corner. |
| PrismCorners.ThreeCornersIffSolid | bench/bench_geom_closedform.cpp:1046-1055 | Three corners or more exactly when some point is strictly inside all half-planes, and one or more exactly when some point is inside. |
| PrismCorners.FacePresentIff | bench/bench_geom_closedform.cpp:123-132 | The region meets line i in two distinct points exactly when five linear inequalities between the offsets hold. |
| PrismCorners.FaceFlagIff | bench/bench_geom_closedform.cpp:123-132 | Two listed corners lie on line i exactly when the region meets that line in two distinct points. |
| ClosedFormPrism.AdmittedByAll | bench/bench_geom_closedform.cpp:99-107 | The inner loop accepts a point exactly when it satisfies all six half-planes. |
| ClosedFormPrism.IsDuplicate | bench/bench_geom_closedform.cpp:108-115 | The scan finds a point exactly when it is already among the recorded corners. |
| ClosedFormPrism.CountOn | bench/bench_geom_closedform.cpp:125-130 | The count reaches two exactly when two recorded corners lie on the line. |
| ClosedFormPrism.EnumerateCorners | bench/bench_geom_closedform.cpp:89-121 | The double loop leaves exactly the feasible crossings of non-opposite lines, pairwise distinct. |
| ClosedFormPrism.ClosedFormPrism | bench/bench_geom_closedform.cpp:75-134 | The result lists exactly the corners, each once and at most six, and flags exactly the faces the region meets in two points. |
| PrismReuse.CachedInsideAll | bench/bench_geom_closedform.cpp:466-481 | All six adjacent-pair corners pass every half-plane exactly when each offset is at most the sum of its two neighbours. |
| PrismReuse.ReuseExact | bench/bench_geom_closedform.cpp:466-481 | When the criterion accepts, the corners of the body are exactly the six cached ones. |
| PrismReuse.CachedDistinctIff | bench/bench_crystal.cpp:361-399 | Under the criterion the cached corners are pairwise distinct exactly when no non-incident line touches one, and exactly when the local inequalities are strict. |
| PrismReuse.SixCornersIff | bench/bench_geom_closedform.cpp:466-500 | The body has six corners exactly when the local inequalities are strict. |
| PrismReuse.AllPresentIff | bench/bench_geom_closedform.cpp:123-132 | All six faces are present exactly when the local inequalities are strict. |
| PrismReuse.CriterionOne | bench/bench_geom_closedform.cpp:466-481 | The early-exit double loop accepts exactly when every cached corner passes every half-plane. |
| CacheVerdict.Verdict | bench/bench_crystal.cpp:364-399 | The loops accept exactly when no vertex is cut off, none lies on a non-incident plane within the tolerance, and no two coincide, for any planes, triples and positions. |
| CacheVerdict.CoincidenceIsRedundant | bench/bench_crystal.cpp:375-399 | For re-solved vertices with unit-bounded normals the concurrency clause implies the coincidence clause, so the verdict is the concurrency clause alone. |
| CacheVerdict.PrismVerdict | bench/bench_crystal.cpp:361-399 | On a prism with its twelve vertices and eight planes, all eight offsets free, the whole verdict is one inequality per face and one for the height, at every positive tolerance. |
| CacheVerdict.NoFalseAccept | bench/bench_crystal.cpp:361-399 | When the verdict accepts a prism, its corners are the six cached ones and all six faces bound it. |
| CacheVerdict.RejectIsNear | bench/bench_crystal.cpp:361-399 | When the verdict rejects a prism, it is flatter than the tolerance, or moving one face out by less than the tolerance loses the six corners. |
| CacheExact.ExactIff | bench/bench_crystal.cpp:324-399 | On any bounded body an accepted cache holds each vertex once and nothing else exactly when, from each of its triples and for each plane given up, another triple shares the two other planes. |
| CacheExact.SimpleIsExact | bench/bench_crystal.cpp:221-242 | Triples taken from a bounded body whose vertices lie on three planes each, re-solved on any planes whatever, are the vertices whenever the verdict accepts. |
| CacheExact.PrismIsExact | bench/bench_crystal.cpp:361-399 | The prism's twelve triples, re-solved on any eight planes, are the vertices whenever the verdict accepts. |
| CachePyramid.CachedFirstThree | bench/bench_crystal.cpp:221-242 | At each of the regular pyramid's 24 distinct vertices the cached triple is the first three planes through it. |
| CachePyramid.PyramidNotClosed | bench/bench_crystal.cpp:221-242 | Those triples do not close along edges. |
| CachePyramid.PyramidNeverExact | bench/bench_crystal.cpp:324-399 | No accepted sample of the pyramid has the cached points as its vertices. |
| CachePyramid.PyramidFalseAccept | bench/bench_crystal.cpp:324-399 | Moving the twelve pyramidal faces out by growing amounts gives a sample that the verdict accepts, at the benchmark's slope and tolerance among others, and that has a vertex outside the cache. |
| PrismErosion.DeadStaysDead | bench/bench_geom_closedform.cpp:1183-1196 | A face absent at one inset is absent at every larger one. |
| PrismErosion.LocalWhileNeighboursLive | bench/bench_geom_closedform.cpp:1155-1161 | While both neighbours are present, a face is present exactly when its eroded offset is below the sum of theirs, whatever the far faces are. |
| PrismErosion.FirstDeath | bench/bench_geom_closedform.cpp:1183-1196 | All six faces live exactly below the least of the six gaps, and at that inset a face of least gap is dead. |
| PrismErosion.DiesLocallyIff | bench/bench_geom_closedform.cpp:1155-1157 | A face's death is set by its own gap for every inset exactly when that gap exceeds neither far bound. |
| PrismErosion.FarFaceMatters | bench/bench_geom_closedform.cpp:1155-1157 | A concrete hexagon on which the benchmark's perturbation of far faces moves the death of face 0. |
| PrismErosion.FindDeath | bench/bench_geom_closedform.cpp:1179-1198 | The scan records for each face the first of the insets tried that is without it, or minus one. |
| PrismErosion.ScanFindsLeastGap | bench/bench_geom_closedform.cpp:1179-1198 | An inset tried by the scan is below the least gap exactly when no face's recorded death comes at or before it. |
| PixelQuad.PixelContains | src/analytic/band_sum.cpp:170-192 | The loops accept a direction exactly when it faces the corners' sum and is not on both sides of the edges. |
| PixelQuad.RotationInvariant | src/analytic/band_sum.hpp:30-31 | Starting the corner cycle elsewhere changes no answer. |
| PixelQuad.ReversalInvariant | src/analytic/band_sum.hpp:30-31 | Reversing the corner cycle changes no answer: either orientation describes the pixel. |
| Vectors.Cramer | src/analytic/band_sum.cpp:183-190 | Cramer's rule in three dimensions: the edge determinants are the coordinates of the direction in the corners. |
| PixelQuad.ContainsIffCone | src/analytic/band_sum.cpp:170-192 | For strictly convex corners that face their sum, a direction is accepted exactly when it is a nonzero non-negative combination of the four. |
| PixelQuad.ContainsIffConeOriented | src/analytic/band_sum.cpp:170-192 | The same for corners listed in either orientation. |
| BandSum.LowerBound | src/analytic/band_sum.cpp:228-231 | Bisection on sorted deviations returns the first index not below the bound. |
| BandSum.CornerBand | src/analytic/band_sum.cpp:213-219 | The band is the least and greatest deviation of the four corners. |
| BandSum.Accumulate | src/analytic/band_sum.cpp:236-249 | The loop returns the sum, the sum of squares and the number of positive contributions of the range. |
| BandSum.BandSumOnEvents | src/analytic/band_sum.cpp:194-257 | One record is appended per pixel: singular where the pixel holds the incident or the opposite direction, otherwise the estimate over exactly the range between the two lower bounds. |
| BandSum.PixelMeans | src/analytic/band_sum.cpp:194-257 | What the numbers of a regular pixel are, from the events and the density alone: the band of its corners, the sums and counts of exactly the weighted densities in it, and a value that times 2 pi n, the width and the sine is their sum. |
| BandSum.SingularIff | src/analytic/band_sum.cpp:220-226 | For strictly convex corners that face their sum, a pixel is singular exactly when the incident direction or its opposite is a non-negative combination of the corners. |
| BandSum.SummedIffInBand | src/analytic/band_sum.cpp:227-231 | An event is summed exactly when its deviation lies in the half-open band. |
| BandSum.SumBounds | src/analytic/band_sum.cpp:236-249 | For non-negative contributions the sum of squares is at most the squared sum, which is at most the positive count times the sum of squares. |
| BandSum.EffectiveSizeBounds | src/analytic/band_sum.cpp:250-252 | The effective size lies between one and the positive count whenever the sum of squares is positive, and is zero otherwise. |
| BandSum.CountsOrdered | src/analytic/band_sum.cpp:250-252 | In every regular record the effective size, the positive count and the count are ordered, for non-negative weights and densities. |
| BandSum.Conservation | src/analytic/band_sum.cpp:227-254 | Consecutive bands that tile an interval count every event of it once, and each value times 2 pi n, the width of the band and the sine at the centre adds up to the total weight of those events. |
| BandSum.PlacePointMass | src/analytic/band_sum.cpp:300-319 | The mass goes to the first pixel that contains the incident direction, and every other record is zero. |
| BandSum.MassConserved | src/analytic/band_sum.cpp:300-319 | Values times solid angles add up to the mass when some pixel contains the incident direction and to zero otherwise. |
| TwistRow.LeastAligned | src/analytic/band_sum.cpp:99-105 | The chosen axis has the least component in magnitude. |
| TwistRow.RejectedIsLong | src/analytic/band_sum.cpp:106-112 | The rejected axis is normal to the direction and keeps two thirds of its squared length, so normalising it is safe. |
| TwistRow.MakeTwistRow | src/analytic/band_sum.cpp:98-122 | The coefficients are those of an orthonormal frame around the direction, and for a unit sun frame every twist's row has unit length and the sun's product with the direction. |
| TwistRow.RowOfARotation | src/analytic/band_sum.cpp:98-129 | At every twist the row is a unit vector whose product with the direction is the sun's component. |
| CycleFinder.RankedIsAcyclic | scripts/check_header_split.py:127-150 | A graph whose nodes carry a rank that drops along edges has no closed walk. |
| CycleFinder.BackEdgeCloses | scripts/check_header_split.py:135-136 | An edge from the top of the stack back into it closes a simple cycle along real edges. |
| CycleFinder.Search.Visit | scripts/check_header_split.py:131-144 | A visit returns a simple cycle, or blackens the node, restores the stack and keeps every colour. |
| CycleFinder.Search.FollowAll | scripts/check_header_split.py:134-141 | Either a simple cycle is found or every successor of the node is black. |
| CycleFinder.FindCycle | scripts/check_header_split.py:127-150 | A returned list is a simple cycle along real edges, and none is returned exactly when the graph has no closed walk. |
| IncludeExpander.Expander.ResolveLocalIncludes | scripts/embed_metal_artifacts.py:98-125 | The recursive replacement over the shared set computes the expansion function, on every include graph. |
| IncludeExpander.TraceIsNew | scripts/embed_metal_artifacts.py:117-122 | Every file newly seen is inlined once. |
| IncludeExpander.InlinesExactlyReachable | scripts/embed_metal_artifacts.py:98-125 | From a fresh start the inlined files are exactly those reachable through existing targets, each once. |
| IncludeExpander.DepthFirstOrder | scripts/embed_metal_artifacts.py:98-125 | Files are inlined in the order in which unfolding the include tree depth-first first meets them. |
| IncludeExpander.EachPlaceOnce | scripts/embed_metal_artifacts.py:98-125 | The output holds the remaining text of each newly inlined file exactly once and of no other file. |
| IncludeExpander.NoLiveDirective | scripts/embed_metal_artifacts.py:98-125 | No directive whose target exists survives, wherever it was written. |
| IncludeExpander.InlinedOnce | scripts/embed_metal_artifacts.py:98-125 | The whole promise on a fresh start: each reachable file's own text once, and no live directive. |
| CLiteral.CEscape | scripts/embed_metal_artifacts.py:63-92 | The byte loop prints the literal the specification describes. |
| CLiteral.RoundTrip | scripts/embed_metal_artifacts.py:63-92 | Reading the printed literal as a C++ compiler does gives the bytes back, for every byte string. |
| CLiteral.LiteralIsVisible | scripts/embed_metal_artifacts.py:63-92 | The literal holds visible characters and line breaks only, one line break for each of the source. |
| CommentStrip.StripKeepingOffsets | scripts/check_policies.py:266-335 | The index loop computes the offset-preserving stripping. |
| CommentStrip.OffsetsPreserved | scripts/check_policies.py:266-335 | The output is the text with the comment positions blanked, newlines kept, all else verbatim. |
| CommentStrip.LengthAndNewlines | scripts/check_policies.py:266-335 | The output has the text's length and its newlines in the same places. |
| CommentStrip.NoCommentLeft | scripts/check_policies.py:266-335 | Read again, the output holds no comment. |
| CommentStrip.Idempotent | scripts/check_policies.py:266-335 | Stripping twice is stripping once. |
| CommentPieces.EveryText | scripts/check_policies.py:266-335 | Every text is a run of single characters, comments, literals and, for the deleting stripper, raw strings, with an ending that may be inside one; each stands where the grammar of the stripper admits it. |
| CommentPieces.PiecesBlanked | scripts/check_policies.py:266-335 | The offset-preserving stripper, piece by piece: a comment, closed or not, becomes spaces and its newlines, and every other piece is kept. |
| CommentDelete.StripComments | scripts/count_gui_test_lines.py:67-196 | The six-state loop computes the deleting stripping, raw strings and digit separators included, and deletes no newline, so line numbering is unchanged. |
| CommentDelete.DeleteKeepsLines | scripts/count_gui_test_lines.py:67-196 | For every text and reader state the output is the text with characters other than newlines deleted, and has as many newlines. |
| CommentDelete.CountText | scripts/count_gui_test_lines.py:199-200 | The count is the number of lines of the stripped text that hold a visible character. |
| CommentPieces.PiecesLeft | scripts/count_gui_test_lines.py:67-196 | The deleting stripper, piece by piece: of a comment only its newlines stay, and every other piece is kept, raw strings of every delimiter of up to sixteen characters and digit separators included. |
| CommentPieces.CountIsOfLines | scripts/count_gui_test_lines.py:199-200 | The count is of the line numbers at which a visible character stands. |
| CommentDelete.SameReadingIff | scripts/count_gui_test_lines.py:67-196 | The two strippers go through a text in the same states, token by token, exactly when no token read as code is a raw-string opener or a digit separator. |
| CommentDelete.UnspelledIsSimple | scripts/count_gui_test_lines.py:67-196 | A text in which neither is spelled anywhere meets that condition. |
| CommentDelete.DeletesWhatTheOtherBlanks | scripts/count_gui_test_lines.py:67-196 | On a text that meets it, the deleting stripper keeps exactly what the other does not blank. |
| CommentDelete.StrippersAgree | scripts/check_policies.py:266-335 | On such text, deleting the blanked positions of one output gives the other output. |
| CommentDelete.SameLineCount | scripts/count_gui_test_lines.py:199-200 | On such text both outputs have the same visible lines, and so the same count. |
| CommentDelete.RawStringDisagrees | scripts/count_gui_test_lines.py:67-196 | A closed raw string that opens with a quote and two slashes is kept whole by the deleting stripper, and what the other leaves unblanked is not that, whatever text follows. |
| LoopScan.NestedIsTree | scripts/check_loop_fatal_asserts.py:436-496 | Every properly nested token stream is the flattening of a forest. |
| LoopScan.LiteralSkipped | scripts/check_loop_fatal_asserts.py:436-496 | A literal in code, escapes included, yields no token, and code goes on behind it. |
| LoopScan.LiteralUnclosed | scripts/check_loop_fatal_asserts.py:436-496 | A literal that does not end yields nothing to the end of the text. |
| LoopScan.CodeCharacter | scripts/check_loop_fatal_asserts.py:436-496 | Any character of code that is no quote yields one token, for a brace an opening or closing one. |
| LoopScan.LineOfCounts | scripts/check_loop_fatal_asserts.py:480 | The line of a position is one more than the number of newlines before it. |
| FatalAsserts.FindViolationsInText | scripts/check_loop_fatal_asserts.py:436-496 | The character loop reports what the walk over the tokens reports. |
| FatalAsserts.NearestIsInnermost | scripts/check_loop_fatal_asserts.py:471-481 | The backward scan of the stack finds a for exactly when it is the innermost for or lambda around the position. |
| FatalAsserts.HitIsDeserved | scripts/check_loop_fatal_asserts.py:471-481 | A position is reported once with its for when it deserves it and not at all otherwise. |
| FatalAsserts.WalkerRefinesTree | scripts/check_loop_fatal_asserts.py:436-496 | On any properly nested text, position by position in order: an assert is reported, with the line of a for, exactly when some brace around it opens that for and no brace inside that one opens a for or a lambda; stated on the tables and the positions of the braces. |
| Cascade.FindNearestLoop | scripts/check_loop_fatal_asserts.py:584-593 | The backward scan finds frame k exactly when it is a loop and every frame above it is neither a loop nor a lambda. |
| Cascade.DisarmToLambda | scripts/check_loop_fatal_asserts.py:610-617 | Index by index, a return disarms the loop frames with no lambda above them and leaves every other frame as it was. |
| Cascade.FindForCascadeInText | scripts/check_loop_fatal_asserts.py:499-642 | The character loop reports what the walk over the tokens reports, in order. |
| CascadeLoops.CaughtMeansDrivesPending | scripts/check_loop_fatal_asserts.py:499-520 | The two-flag machine catches exactly the driving calls made while a report is pending, over any sequence of passes. |
| CascadeLoops.CascadeCriterion | scripts/check_loop_fatal_asserts.py:512-527 | Some number of passes makes a driving call while a report is pending exactly when one pass does, or a report carries over to a call at the top. |
| CascadeLoops.ReportCriterion | scripts/check_loop_fatal_asserts.py:569-609 | What the frame reports, in terms of one pass: a forward hit, or a frame left armed and a driving call. |
| CascadeLoops.HitsTold | scripts/check_loop_fatal_asserts.py:569-609 | What a loop reports, in order: for each driving call with a report pending in the pass, the line of the call, the line of the last report before it, and the kind of loop; a wrap-around hit has the first call and the last report. |
| CascadeLoops.ExactWithoutControlFlow | scripts/check_loop_fatal_asserts.py:499-527 | With no break, continue or return in the body, the check reports exactly when some number of passes can cascade, wrap-around included. |
| CascadeLoops.VerdictWrongIff | scripts/check_loop_fatal_asserts.py:125-131 | With control flow, the exact conditions of the one false alarm and the one miss. |
| CascadeLoops.MissExists | scripts/check_loop_fatal_asserts.py:125-131 | A body on which the check is silent and the passes can cascade. |
| CascadeLoops.FalseAlarmExists | scripts/check_loop_fatal_asserts.py:610-622 | A body on which the check reports and no number of passes cascades. |
| CascadeText.BodyWalk | scripts/check_loop_fatal_asserts.py:545-627 | Walking a loop body touches that loop's frame alone, but for what a return disarms outside, and leaves the rest of the walk as it was. |
| CascadeText.OwnLinesIncrease | scripts/check_loop_fatal_asserts.py:570-593 | Reports and calls on lines of their own are met in increasing line order, which the wrap-around test relies on. |
| CascadeText.TextVerdict | scripts/check_loop_fatal_asserts.py:499-642 | The check's output for a text falls into what it says before a loop, of it, and after it; for a loop with no inner loop or lambda and one event a line, the middle part tells each driving call made while a report is pending with both lines and the loop's kind, and is there exactly when the passes can cascade, but for the two exceptions. |
| CascadeTold.CascadeIsTold | scripts/check_loop_fatal_asserts.py:499-642 | The whole output for any text, loops in loops, lambdas and several events on a line included: which hits, with which lines, kind and order, told from the tokens, the positions of the braces and the tables. |
| Decimal.NumberOfPrinted | scripts/check_new_refs.py:275 | The decimal printing of a number reads back as that number. |
| DiffText.SplitAtNewline | scripts/check_new_refs.py:255 | Splitting distributes over texts joined after a newline. |
| DiffText.PrefixOnFirstPiece | scripts/check_new_refs.py:255 | Text put before a line lengthens its first piece and leaves the others. |
| DiffText.HeaderReadsBack | scripts/check_new_refs.py:186 | A printed hunk header gives its new-file start back, whatever heading follows. |
| DiffReader.AddedLines | scripts/check_new_refs.py:224-281 | The line loop computes the reader's fold over the split text. |
| DiffReader.PassedOverIff | scripts/check_new_refs.py:266-281 | Inside a hunk a line leaves the reader as it is exactly when it opens no section, adds nothing and is no header with another number. |
| DiffReader.ReadsBack | scripts/check_new_refs.py:224-281 | Reading a printed diff gives for each name, as the reader takes it, the union of the new-file ranges of the sections whose name it hears, for every payload without a live break, header look-alikes included. |
| DiffReader.DeletedAddsNothing | scripts/check_new_refs.py:266-281 | The section of a deleted file records nothing, whatever its hunks hold. |
| DiffPaths.ReadNameIff | scripts/check_new_refs.py:270-272 | A name on one line is taken for itself exactly when it has no space and nothing that prints in quotes, and for a longer name otherwise. |
| DiffPaths.NamesReadIff | scripts/check_new_refs.py:224-281 | Every added line is recorded under its file's name, and nothing else is, exactly when every file that gains a line has a name that prints as it is and a head after which the name is heard. |
| DiffPaths.PlainHeadHeard | scripts/check_new_refs.py:266-281 | After a head whose names, the old one included, are on one line each the new name is heard. |
| DiffPaths.SpaceMisread | scripts/check_new_refs.py:270-272 | A line added to a file with a space in its name is recorded under that name and a tab. |
| DiffPaths.RenameMisread | scripts/check_new_refs.py:254-281 | A line added to a plainly named file that is renamed from a name with a line separator is recorded nowhere. |
| DiffExact.SafeIff | scripts/check_new_refs.py:255-281 | A payload text is read back in every diff exactly when nothing after its breaks looks like a live diff line. |
| DiffExact.FormFeedIsUnsafe | scripts/check_new_refs.py:255-281 | A form feed followed by a plus sign is not read back in every diff. |
| ReportMerger.MergeReports | scripts/gtest_parallel.py:126-203 | The loops over reports, suites and cases compute the merge, with the same first problem. |
| ReportMerger.MergeCases | scripts/gtest_parallel.py:148-175 | The case loop computes the state after the suite and counts what it executed. |
| MergedReports.MergesIff | scripts/gtest_parallel.py:126-182 | Reports merge exactly when each is sound, its root, suites and cases checked field by field, and the executed cases are the selected ones, each once. |
| MergedReports.MergeFails | scripts/gtest_parallel.py:126-182 | A refused merge names the first fault met: of the first report at fault, in it the first suite and case, or else the cases missing from the selection and beyond it. |
| MergedContents.MergedSuiteHolds | scripts/gtest_parallel.py:164-175 | Each suite keeps every executed case listed for it, and one idle entry for a case that ran in no shard. |
| MergedContents.RunsKept | scripts/gtest_parallel.py:164-175 | The executed cases of a merged suite are those listed for it, unchanged and in their order, and it holds no case that is not listed for it. |
| MergedOrder.MergedIsFaithful | scripts/gtest_parallel.py:183-203 | The published suites are in name order, one for each name listed, each holding the executed cases listed for it and counting its cases, failures, disabled and skipped ones and adding up their time; and the root's tests, failures, disabled cases and time are the sums over them. |
| MergedOrder.TotalsCountExecuted | scripts/gtest_parallel.py:183-203 | On success no failure is counted, and the cases not disabled are as many as were selected. |
| MergedOrder.EachNameOnceIff | scripts/gtest_parallel.py:164-175 | Each merged suite holds each case name once exactly when executed cases of one suite and one name agree on their class. |
| MergedOrder.EachNameOnce | scripts/gtest_parallel.py:164-175 | It does when each class is its suite's name. |
| MergedOrder.VerdictOrderFree | scripts/gtest_parallel.py:126-182 | Whether reports merge does not depend on their order. |
| MergedOrder.StatusesOrderFree | scripts/gtest_parallel.py:126-203 | Nor do the listed suites, their sizes, or the status each holds a case under. |
| MachineFactor.SortCount | scripts/check_test_durations.py:331 | Sorting keeps how many values have any property. |
| MachineFactor.MedianWithin | scripts/check_test_durations.py:331 | If fewer than half the values fall below one bound, and above another, the median falls between. |
| MachineFactor.MedianIsMiddle | scripts/check_test_durations.py:331 | The median is the mean of the value or two values in the middle, by how many values are below and how many are not above. |
| MachineFactor.ComputeMachineFactor | scripts/check_test_durations.py:304-333 | A factor is computed exactly when every ruler has a finite positive reading; an error names exactly the missing ids, or else exactly the broken ones. |
| MachineFactor.FactorMeans | scripts/check_test_durations.py:331-333 | The ratios times the calibrated seconds are the readings, the raw factor is the middle of the ratios, and the factor is the point of the band nearest to it. |
| MachineFactor.Breakdown | scripts/check_test_durations.py:304-333 | If every ruler but fewer than half reads between two multiples of its calibrated seconds, the raw factor is between the two, whatever the others read. |
| MachineFactor.FactorScales | scripts/check_test_durations.py:331-333 | On a machine c times slower the raw factor is c times larger. |
| MachineFactor.SlowerSameVerdict | scripts/check_test_durations.py:395-441 | While the raw factor stays in the band, a machine c times slower changes no verdict. |
| MachineFactor.SameVerdictIff | scripts/check_test_durations.py:395-441 | From inside the band, the verdict is the same for every phase time exactly when the scaled factor is still inside. |
| PhaseGate.CheckPhases | scripts/check_test_durations.py:336-489 | The loops over phases and budgets give the findings of the specification in its order: unbudgeted phases, missing reasons, then each budget's own. |
| PhaseGate.GateTells | scripts/check_test_durations.py:336-489 | Everything the gate says, finding by finding: the unbudgeted phases, the budgets without a reason, and the errors, notices and warnings of each budget of the job, and nothing else. |
| PhaseGate.GateInOrder | scripts/check_test_durations.py:345-489 | The gate speaks first of phases, then of reasons, then of budgets, each once and in the order they are listed. |
| PhaseGate.JudgedInOrder | scripts/check_test_durations.py:363-489 | A budget gives at most one complaint, behind the missing cache report, at most one notice, and the recalibration before the excuse. |
| PhaseGate.JudgeTells | scripts/check_test_durations.py:363-489 | Everything said of a fully reported budget, with its numbers: which complaint, against the summed seconds, the miss allowance or the normalised limit; the notice; the recalibration warning; the excuse. |
| PhaseGate.UnreportedIs | scripts/check_test_durations.py:354-362 | A budget with phases not reported gives one error that names exactly these. |
| PhaseGate.GreenIff | scripts/check_test_durations.py:336-489 | No error is raised exactly when every reported phase is budgeted, every budget justified, and every budget of the job fully reported, with the cache report or rulers it needs, and with the sum of its phases within its limits, or excused from them by a cold build. |
| PhaseGate.JudgedOnce | scripts/check_test_durations.py:464-484 | A fully reported budget is noticed, complained about or excused, and one of these only; it is excused exactly when it is over its limits, contains the build, and the exception is enabled. |
| PhaseGate.NormalisedIsCheck | scripts/check_test_durations.py:425-441 | On a machine-normalised budget being within the limits is the verdict that a uniform slowdown keeps. |
| IssueTracker.TitlesDiffer | scripts/local_throughput_gate.py:345-347 | No two of the twelve titles print alike. |
| IssueTracker.DecideNotifications | scripts/local_throughput_gate.py:361-395 | The decision procedure builds the actions of the decision table. |
| IssueTracker.DecisionTable | scripts/local_throughput_gate.py:361-395 | The decision table row by row: which action, on which kind, with which body, under which condition. |
| IssueTracker.DecisionOrder | scripts/local_throughput_gate.py:361-395 | No kind is acted on twice, and the kinds are in the order fail, error, stale. |
| IssueNotifier.Notifier.ApplyAction | scripts/local_throughput_gate.py:929-947 | An action against a fresh query is refused, moot or applied, with the effect it has when the call fails before or after it. |
| IssueNotifier.Notifier.NotifyLeg | scripts/local_throughput_gate.py:983-1004 | A record is judged against the open issues, its failed actions queued, or the record deferred when the query fails. |
| IssueNotifier.Notifier.ReplayPending | scripts/local_throughput_gate.py:1007-1018 | The queue is emptied and every item tried again in order. |
| IssueNotifier.Notifier.RunGate | scripts/local_throughput_gate.py:1104-1155 | A run reads the state from disk, replays the queue, reports each leg and saves, unless it is a dry run. |
| NotifierRuns.NeverTwice | scripts/local_throughput_gate.py:929-937 | Over any sequence of runs, whatever calls fail and however, no two issues with one title are open. |
| NotifierRuns.NothingLost | scripts/local_throughput_gate.py:983-1018 | Over any sequence of runs every decided action is applied, moot or on disk, and every record judged or on disk. |
| NotifierRuns.DryRunChangesNothing | scripts/local_throughput_gate.py:995-997 | A dry run changes neither the tracker nor the state on disk. |
| NotifierCalls.ApplyMeans | scripts/local_throughput_gate.py:929-947 | What one action does to every title when its query or its call fails, before or after taking effect. |
| NotifierCalls.NotifyDecides | scripts/local_throughput_gate.py:983-1004 | A record that finds the tracker is judged, and all its actions are recorded as decided. |
| NotifierCalls.RunClock | scripts/local_throughput_gate.py:1130-1147 | Whatever calls fail, a leg's clock on disk is set by the run that really measures it, and by no other. |
| NotifierCalls.OutageKeepsQueue | scripts/local_throughput_gate.py:983-1018 | A run that reaches nothing keeps the queue in its order, puts its own records behind it, and changes no issue. |
| NotifierSettles.DecisionLeaves | scripts/local_throughput_gate.py:361-395 | What the decided actions leave open, kind by kind, for every status, flag and set of open kinds. |
| NotifierSettles.NotifyComments | scripts/local_throughput_gate.py:379-383 | With no failed call a record comments on the open fail issue when it fails again, and on nothing else. |
| NotifierSettles.BothOpenedIff | scripts/local_throughput_gate.py:385-394 | With neither open before, one record opens both an error and a stale issue exactly when it is a stale error. |
| NotifierSettles.ReplayLeaves | scripts/local_throughput_gate.py:1007-1018 | With no failed call a replay empties the queue and leaves each leg as the queued items say, one after another. |
| NotifierSettles.RunSettles | scripts/local_throughput_gate.py:1104-1155 | With no failed call a run empties the queue, and what it leaves open of each leg is determined by what was open and queued before it, by the leg's outcome, and by whether so many days have passed since the last measurement on record or the creation of the state. |
| NotifierSettles.StaleFromNothing | scripts/local_throughput_gate.py:511-523 | From an empty queue and tracker the stale issue is open afterwards exactly when so many days have passed since the leg's last measurement or, if there is none, since the state was created. |
| NotifierSettles.RealPassClearsIff | scripts/local_throughput_gate.py:389-395 | A real pass leaves its leg without open issues unless the alarm is due and neither it nor an error is open once the queue is replayed, and only then. |
| NotifierSettles.RealPassFromEmptyQueue | scripts/local_throughput_gate.py:389-395 | The same from an empty queue, as a condition on the clock and on what is open before the run. |
| NotifierSettles.PassLeavesStale | scripts/local_throughput_gate.py:1140-1147 | A pass from an empty tracker and queue that leaves the stale issue open. |
| NotifierSettles.RealFailLeavesIff | scripts/local_throughput_gate.py:379-395 | A real fail leaves the fail issue open, and the stale one closed exactly under the same condition. |
| NotifierSettles.RealRunSettles | scripts/local_throughput_gate.py:1130-1147 | On the real clock neither raises the alarm: a pass leaves nothing open, a fail leaves fail open and stale closed. |
| NotifierLasting.StaysIff | scripts/local_throughput_gate.py:983-1018 | What is open of a leg stays open over all later runs that agree with it, dry runs and runs of the other namespace included, and whatever calls fail, exactly when every queued item on its own would leave it as it is. |
| NotifierLasting.SupersededActionReopens | scripts/local_throughput_gate.py:1007-1018 | A fail whose create is refused, a pass whose replay is refused, and a run that measures nothing: nothing is open after the pass, and the fail issue after the last. |
| NotifierSpaces.OtherSpaceUntouched | scripts/local_throughput_gate.py:983-1018 | A run leaves every issue of another namespace alone that no queued action names. |
| NotifierSpaces.DecidesNothingIff | scripts/local_throughput_gate.py:376-395 | A record decides nothing exactly when every guard of the decision is false. |
| NotifierSpaces.DeferredStaysIff | scripts/local_throughput_gate.py:983-992 | A deferred record stays in its namespace exactly when the replaying run is of it, or the guards of the decision are all false there. |
| NotifierSpaces.DrillOpensRealIssue | scripts/local_throughput_gate.py:1007-1018 | A drill's deferred failing record opens an issue in the real namespace on a real run that measures nothing. |

## Left out

Of the modelled files:

- Floating-point rounding throughout: doubles and floats are real numbers, and the positive tolerances of the prism
  enumeration are read as exact comparisons. The tolerances of the cache verdict are kept as parameters.
- The exact integer corner count used as an oracle beside the closed form, sampling, timing counters and plots.
- PrismErosion.FindDeath: calls the closed form of this model where the benchmark calls the production construction,
  which is not part of this model.
- CacheVerdict.PrismVerdict: the ground truth the benchmark compares with, a production vertex solve, is not part of
  this model; the comparison is with the exact corners of the prism instead.
- BandSum.BandSumOnEvents: the density's evaluation and the pose rows are a parameter, the events a given sorted list,
  the angular distance and the sine functions of the caller's choice; the width of the integer counts is not modelled.
- BandSum.PlacePointMass: how the mass is computed (the lattice mean and the panel average) is left out.
- TwistRow.MakeTwistRow: the square root is a parameter known only by its square.
- CycleFinder.FindCycle: the order in which the keys are visited is a parameter; the script sorts them.
- IncludeExpander.Expander.ResolveLocalIncludes: directives are given items and paths given resolved; reading files and
  matching the directive are left out. The text handed in has no place in the seen set, as in the script, so a file may
  inline the text that includes it once more.
- CommentDelete.StrippersAgree: that the outputs agree is stated one way; the condition is exact for the states the
  strippers go through, and texts read in different states may still come out alike.
- CommentDelete.StripComments: the character classes of the script's language are parameters.
- FatalAsserts.FindViolationsInText: the positions of for bodies, lambdas and asserts are given; matching them is left
  out.
- Cascade.FindForCascadeInText: the positions of loops, reports, driving calls and control flow are given; the second
  shape the script looks for, repeated calls of one lambda, is left out.
- CascadeText.TextVerdict: that the hits are there exactly when the passes can cascade is said of a loop with no inner
  loop or lambda and one event a line, the gaps the script documents; what is reported is told for any text.
- DiffReader.ReadsBack: names are sequences of characters, so names that are not valid UTF-8 are left out; only the
  default `a/` and `b/` prefixes and ASCII digits are read.
- DiffPaths.NamesReadIff: a diff has one section for a file; a section that adds no line is taken to have a new name on
  one line; and no old name is taken to break so that a piece of its own starts with three plus signs and a space.
- ReportMerger.MergeReports: reading XML is left out, reports are given as trees; messages, attributes copied from the
  first report of a suite, and the exact spelling of totals are not modelled. Which of two idle entries of one name is
  kept, and so its time, may depend on the order of the reports; status and counts may not.
- PhaseGate.CheckPhases: the texts of messages, the two notices about the run as a whole, and the loading of registry
  and reports are left out; the order in which phases are named is a parameter, which the script sorts, and whether a
  reason is more than blank or the placeholder is given.
- CachePyramid.PyramidFalseAccept: the sine and cosine of the wedge enter as the slope, any real number from a half to
  one.
- IssueTracker.DecideNotifications: issue bodies are given texts.
- IssueNotifier.Notifier.RunGate: the lock, the measurement itself, a crash between two saves, and the limit of a
  hundred issues per query are left out.
- NotifierRuns.NeverTwice: a query that works is taken to see the tracker as it is; the script lists issues through a
  search index, which may lag behind a create.
- NotifierRuns.NothingLost: a comment whose call failed after taking effect is made again, so comments may repeat;
  the retry is at least once.

Of the rest of the repository: the ray tracer itself, crystal construction from parameters, sampling of event
discovery, rendering, the application and its interface, the other gates and release scripts. They are outside these
models or would add only easy members.
