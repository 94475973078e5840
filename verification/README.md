# A Dafny model of the workflow and document tools

This project models the algorithmic and protocol cores of the repository's browser and agent code, and proves what
they promise. `dafny verify dfyconfig.toml` checks everything.

**The edge router** of the workflow page (`Routing*.dfy`). Edges between workflow tasks are drawn as orthogonal
polylines. The router lays a grid of lines through the obstacles, runs a best-first search over (x, y, direction) with
a hand-written heap and lazy deletion, rebuilds the path from parent links, drops collinear points and rounds corners.
`RoutingGrid` says what an admissible walk is and what it costs; `RoutingSearchInvariant` and `RoutingSearch` prove the
search finds a cheapest one, or finds none exactly when there is none; `RoutingLines` says which lines the grid has and
that an edge can always go round everything if it gets away from its ports; `RoutingSimplify`, `RoutingPath`,
`RoutingDrawing` and `RoutingRoute` carry this to the polyline and the curves that are drawn; `RoutingConflicts` and
`RoutingFreeCrossing` compare what was charged with what is drawn. Ghost state (the expanded keys and the walk of
every known state) replaces the closed set that the code does not keep.

**Base58** (`Base58Numbers.dfy`, `Base58.dfy`). Big-number base conversion in fixed buffers with a carry loop. The
logarithmic buffer size is modelled by what it is in exact arithmetic: the least size that holds every input of the
given length. Decoding inverts encoding on all inputs, encoding inverts decoding exactly on strings over the alphabet,
and the errors for a leftover carry cannot occur.

**Stored ZIP archives** (`Crc32.dfy`, `StoredZip.dfy`), after PKWARE APPNOTE.TXT sections 4.3.7, 4.3.12, 4.3.16 and
4.4.7. The bit-serial CRC-32 separates strings that differ within four consecutive bytes. A reader that starts at the
end record, walks the central directory and follows every offset gives back what the writer was given, exactly when
all counts, names and sizes fit their fields.

**The markdown document service** (`Markdown*.dfy`). A line machine parses a document whose ids live in a sidecar; a
printer writes both. `MarkdownSections` says what a parse finds in any text, section by section and block by block. Printing what was parsed and parsing it again gives the same document, ids included. The only
exceptions are improper titles, sidecars that bring in what the printed form cannot carry, and carriage returns left
inside a paragraph; the condition is exact and read off the inputs.

**The workflow editor** (`WorkflowEditor.dfy`). In-place edits of tasks, connections, layout and start node keep five
facts, among them that the `run-workflows` coordinator exists exactly when some task allows sub-flows.

**Client protocols** (`LiveUpdates.dfy`, `LogMirror.dfy`, `PageChangeGuard.dfy`, `OnlyOfficeHost.dfy`). Each is a step
relation `Next` over the events of its environment, with every `await` a boundary between steps, and a class whose
methods are the code of the handlers. The class proves that each handler is the step it should be; the lemmas about
`Run` hold for every interleaving of events.

**Batching and text deltas** (`CommitBatches.dfy`, `TextDelta.dfy`). Greedy batches are proved fewest, and the computed
text delta smallest, over all alternatives.

## Where the code falls short of its description

- The router charges conflicts grid step by grid step, so a crossing that falls exactly on a grid point of a straight
  run is charged to neither step. `CostOfRoute` gives the exact difference between the cost that is minimised and the
  cost of the drawn route. Where no earlier leg runs properly through a grid point on an inner grid line there is none
  (`CostAsDrawn`), and the route returned is the cheapest as drawn. `CrossingOnGridLineIsFree` shows that a free crossing
  is the rule for legs on grid lines, and `CheapestWalkCrossesFree` gives a board where every cheapest walk, and so the
  route that the router returns (`RouteAcrossEarlier`), runs straight across an earlier edge.
- A shown log can miss an event until the next poll, which a reopened stream triggers with its first snapshot. An event
  that arrives during a fetch makes a reload due, and that reload is dropped when, at the moment the fetch completes, the
  page is hidden (`EventCanBeLost`) or no log is shown (`EventCanBeLostInSight`, on a page that is visible throughout:
  showing the log again makes an unforced load, which is skipped). `OnlyDroppedReloadsLose` says that no other step loses
  an event that the page can receive, whatever is shown, and `LosesOnlyByDropping` the same of whole runs.
- A task that is added after a deletion can be put onto another: its place is chosen by the number of tasks
  (`AddAfterDeleteOverlaps`). While tasks are only added, they never touch (`AddKeepsTidy`, `AllowKeepsTidy`).
- The page's "show" event connects at once although a retry is armed; if that stream fails too, one of the two retries is
  not cancelled when the page is hidden (`RetryCanOutliveHiding`). It opens nothing then (`StrayRetryIsHarmless`).
- Base58 decoding does not reject characters with codes above 255: each of them clears the lowest byte of the number.
  `WideCharacterSlipsThrough` decodes one away; `RejectedExactly` and `EncodeDecode` are the exact conditions.
- The markdown round trip fails for a text without a title line when the file name's stem is not a proper title
  (`BlankStemIsLost`), and for stored information text with a heading line, which adds a chapter on every save and read
  (`StoredHeadingsAddChapters`). A line inside a paragraph that ends with two carriage returns loses one of them
  (`StrayReturnIsLost`). `RoundTripExactly` is the exact condition for every text and every sidecar.
- The ZIP writer does not reject names, sizes or counts beyond their fields. `LongNameIsLost` gives an archive that does
  not read back; `ReadWriteExactly` is the exact condition. Neither caller can get there by names or counts: both pass the
  same three short names, and with those everything reads back below four gigabytes (`PackageReadsBack`).

## Model

| member | source | states |
|---|---|---|
| RoutingQueue.Queue.Push | roboTeamAgent/public/workflow-routing.js:35-44 | sifting up keeps the heap order, and the queue holds exactly one entry more |
| RoutingQueue.Queue.Pop | roboTeamAgent/public/workflow-routing.js:45-58 | gives an entry of least score and takes exactly that entry out; an empty queue gives nothing and stays empty |
| RoutingQueue.Queue.FillHole | roboTeamAgent/public/workflow-routing.js:47-56 | sifting down from a hole at the root restores the heap order and loses no entry |
| RoutingQueue.RootIsLeast | roboTeamAgent/public/workflow-routing.js:40-53 | heap order between neighbours makes the root least of all |
| RoutingGeometry.BlockedMeansEntering | roboTeamAgent/public/workflow-routing.js:8-12 | the comparison test holds if and only if some point of the leg lies strictly inside the box |
| RoutingGeometry.UnblockedStaysOut | roboTeamAgent/public/workflow-routing.js:8-12 | a leg that passes the test has no point strictly inside the box, whatever the box |
| RoutingGeometry.ConflictCost | roboTeamAgent/public/workflow-routing.js:14-31 | the loop adds four per unit of overlap with near parallel legs and a hundred per proper crossing |
| RoutingGeometry.ConflictIsUndirected | roboTeamAgent/public/workflow-routing.js:14-31 | a leg conflicts equally in both directions of travel |
| RoutingGeometry.ParallelConflict | roboTeamAgent/public/workflow-routing.js:14-23 | parallel legs less than twelve apart cost four for every unit that they have in common, and others nothing |
| RoutingGeometry.ApartConflict | roboTeamAgent/public/workflow-routing.js:14-23 | parallel legs that have nothing in common cost nothing |
| RoutingGeometry.CrossingConflict | roboTeamAgent/public/workflow-routing.js:24-28 | perpendicular legs cost a hundred if and only if some point is inside both, and otherwise nothing |
| RoutingGrid.CostIsLengthBendsAndConflicts | roboTeamAgent/public/workflow-routing.js:132-133 | the cost of a walk is its length, plus 70 per change of direction, plus its conflicts |
| RoutingGrid.EstimateIsConsistent | roboTeamAgent/public/workflow-routing.js:132-136 | every step costs something and at least what it gains on the straight-line estimate |
| RoutingGrid.EstimateIsAdmissible | roboTeamAgent/public/workflow-routing.js:132-136 | no walk costs less than it gains on the straight-line estimate |
| RoutingGrid.Key | roboTeamAgent/public/workflow-routing.js:112 | numbering the states loses nothing: the number determines column, row and direction |
| RoutingGrid.GoalIsUnique | roboTeamAgent/public/workflow-routing.js:123 | only one state of the grid is the goal |
| RoutingSearchInvariant.OpeningOk | roboTeamAgent/public/workflow-routing.js:113-117 | the initial maps and queue satisfy the search invariant |
| RoutingSearchInvariant.DropOutdated | roboTeamAgent/public/workflow-routing.js:121 | throwing away an entry whose cost is outdated keeps the invariant |
| RoutingSearchInvariant.CurrentIsOpen | roboTeamAgent/public/workflow-routing.js:120-121 | an up-to-date popped entry belongs to a key never expanded before, and popped scores do not decrease |
| RoutingSearchInvariant.CloseCurrent | roboTeamAgent/public/workflow-routing.js:120-123 | expanding a popped entry of least score keeps the invariant |
| RoutingSearchInvariant.ImprovedIsOpen | roboTeamAgent/public/workflow-routing.js:132-137 | a key that is improved has not been expanded, is not the start, and scores at least what was last popped |
| RoutingSearchInvariant.Improve | roboTeamAgent/public/workflow-routing.js:134-137 | storing an improved state, its parent and its queue entry keeps the invariant |
| RoutingSearchInvariant.NoImprovement | roboTeamAgent/public/workflow-routing.js:135 | skipping a neighbour that is known at no greater cost keeps the invariant |
| RoutingSearchInvariant.ParentOfKnown | roboTeamAgent/public/workflow-routing.js:137-144 | a state's walk is its parent's walk and one node more; only the start has no parent |
| RoutingSearchInvariant.ParentIsCheaper | roboTeamAgent/public/workflow-routing.js:132-137 | a parent is cheaper than its child by exactly the cost of the step, so the parent chain strictly decreases |
| RoutingSearchInvariant.WalkIsAccounted | roboTeamAgent/public/workflow-routing.js:119-139 | along every admissible walk the search knows each node at no greater cost, or the walk already costs at least the best open score |
| RoutingSearchInvariant.GoalIsOptimal | roboTeamAgent/public/workflow-routing.js:120-123 | when the goal is the least current entry, no admissible walk to the goal is cheaper |
| RoutingSearchInvariant.EmptyQueueMeansNoWalk | roboTeamAgent/public/workflow-routing.js:119-139 | when the queue has run dry, no admissible walk reaches the goal |
| RoutingSearch.Search.constructor | roboTeamAgent/public/workflow-routing.js:113-117 | sets up the start state and establishes the invariant |
| RoutingSearch.Search.Neighbour | roboTeamAgent/public/workflow-routing.js:125-131 | the guards let the search go exactly where the grid's definition of a step allows |
| RoutingSearch.Search.Charge | roboTeamAgent/public/workflow-routing.js:132-133 | the cost computed for a neighbour is the cost so far plus the cost of the step |
| RoutingSearch.Search.Relax | roboTeamAgent/public/workflow-routing.js:124-138 | one direction of the expansion keeps the invariant and closes no key |
| RoutingSearch.Search.Record | roboTeamAgent/public/workflow-routing.js:136-137 | updates the three maps and the queue, and nothing else |
| RoutingSearch.Search.Expand | roboTeamAgent/public/workflow-routing.js:124-138 | expands exactly one key that was not expanded before, all of it within the finite set of keys |
| RoutingSearch.Search.Run | roboTeamAgent/public/workflow-routing.js:118-139 | terminates; what it finds is a cheapest admissible walk to the goal, and it finds nothing only if there is none |
| RoutingSearch.Search.Rebuild | roboTeamAgent/public/workflow-routing.js:142-145 | following the parents back from the goal ends at the start and gives the points of the found walk in order |
| RoutingSimplify.Simplify | roboTeamAgent/public/workflow-routing.js:61-73 | the loop computes the simplification that the next rows speak about |
| RoutingSimplify.SimplifiedTurns | roboTeamAgent/public/workflow-routing.js:65-70 | whatever the input, no three consecutive points of the result are in line |
| RoutingSimplify.SimplifiedKeepsEnds | roboTeamAgent/public/workflow-routing.js:61-73 | first and last point stay |
| RoutingSimplify.SimplifiedRepresents | roboTeamAgent/public/workflow-routing.js:61-73 | a polyline that never turns back keeps its length and, as a set, exactly its points |
| RoutingSimplify.SimplifiedIgnoresRepeats | roboTeamAgent/public/workflow-routing.js:64 | the doubled end points that the caller passes change nothing |
| RoutingSimplify.FirstLegKept | roboTeamAgent/public/workflow-routing.js:61-73 | the route leaves along the first leg of the walk |
| RoutingSimplify.FallbackIsClean | roboTeamAgent/public/workflow-routing.js:146-147 | the route drawn when no corridor exists is axis-parallel, turns at every inner point and joins the two ends |
| RoutingPath.RoundedPath | roboTeamAgent/public/workflow-routing.js:75-95 | the loops emit the commands that the next rows speak about, with radii that are halved until the corner is free |
| RoutingPath.Shrunk | roboTeamAgent/public/workflow-routing.js:83-91 | halving stops, and at a corner square that collides with nothing or at a radius below one |
| RoutingPath.RoundingsFit | roboTeamAgent/public/workflow-routing.js:79-85 | the two roundings of a leg never use more than the leg |
| RoutingPath.CornerIsFree | roboTeamAgent/public/workflow-routing.js:86-90 | a corner that keeps the clearance never ends with a colliding square |
| RoutingPath.CurveStaysInSquare | roboTeamAgent/public/workflow-routing.js:80-81 | the curve at a corner stays in the square spanned by its ends |
| RoutingPath.DrawnPathIsFree | roboTeamAgent/public/workflow-routing.js:75-95 | no point of the drawn path, on straight pieces or curves, comes within the margin of an obstacle |
| RoutingPath.DrawnPathInBounds | roboTeamAgent/public/workflow-routing.js:149-150 | nothing is drawn outside the rectangle of the route's corners |
| RoutingDrawing.CollidingIsNear | roboTeamAgent/public/workflow-routing.js:86-88 | the test for a corner square holds if and only if some point of the square comes within three of an obstacle |
| RoutingDrawing.ShrunkIsFirst | roboTeamAgent/public/workflow-routing.js:83-91 | halving stops at the first radius whose square is free or that is below one |
| RoutingDrawing.RouteIsDrawn | roboTeamAgent/public/workflow-routing.js:75-95 | the path starts at the first point, never lifts the pen, has for every corner one line and one curve around it between points at the same distance on both legs, with the first suitable of 28, half of either leg, and their halvings, and ends at the last point |
| RoutingDrawing.RouteIsCovered | roboTeamAgent/public/workflow-routing.js:75-95 | every point of the route outside the corner squares is drawn |
| RoutingDrawing.DrawnStaysClear | roboTeamAgent/public/workflow-routing.js:75-95 | where the route keeps eight clear of the obstacles, nothing drawn comes within three of one |
| RoutingRoute.SortedDistinct | roboTeamAgent/public/workflow-routing.js:109 | the grid lines are the given values, each once, in increasing order |
| RoutingRoute.WalkIsClean | roboTeamAgent/public/workflow-routing.js:125-126 | because the search never turns back, its polyline has no empty leg and never retraces one |
| RoutingRoute.WalkIsClear | roboTeamAgent/public/workflow-routing.js:101-102 | no point of an admissible walk lies strictly inside an obstacle grown by the clearance |
| RoutingRoute.LengthOfWalk | roboTeamAgent/public/workflow-routing.js:132 | the length the search pays for is the length of the polyline |
| RoutingRoute.CornersAreBends | roboTeamAgent/public/workflow-routing.js:61-73 | the simplified route has exactly one inner point per bend of the walk |
| RoutingConflicts.ConflictSplits | roboTeamAgent/public/workflow-routing.js:14-31 | cutting a straight leg in two keeps its conflict with an earlier leg, except that a proper crossing exactly at the cut is charged to the whole leg only |
| RoutingConflicts.DrawnConflicts | roboTeamAgent/public/workflow-routing.js:61-73 | the drawn legs conflict with exactly what the grid steps were charged for, plus a hundred per proper crossing at an inner grid point of a straight run |
| RoutingConflicts.NoFreeCrossings | roboTeamAgent/public/workflow-routing.js:132-133 | there is no such crossing if and only if no earlier perpendicular leg properly crosses a straight run at one of its grid points |
| RoutingRoute.CostOfRoute | roboTeamAgent/public/workflow-routing.js:132-147 | length, corners and conflicts of the drawn route cost what was minimised plus a hundred per such crossing, and the same if and only if there is none |
| RoutingRoute.CheapestWhenDrawn | roboTeamAgent/public/workflow-routing.js:97-148 | the route found is at most its own free crossings dearer, as drawn, than any other admissible route |
| RoutingRoute.CostAsDrawn | roboTeamAgent/public/workflow-routing.js:14-31 | where no earlier leg runs properly through a grid point on an inner grid line, every walk costs exactly what its drawn route costs |
| RoutingRoute.OffTheLinesMeetsNone | roboTeamAgent/public/workflow-routing.js:103-110 | in particular when no vertical earlier leg lies on a vertical grid line and no horizontal one on a horizontal one |
| RoutingRoute.CheapestIsCheapestDrawn | roboTeamAgent/public/workflow-routing.js:97-148 | there, the route of a cheapest walk is, as drawn, at most as dear as that of any admissible walk |
| RoutingRoute.GuideLines | roboTeamAgent/public/workflow-routing.js:103-110 | half way between the ends and 28 units outside each port there is always a grid line |
| RoutingLines.ColumnsAre | roboTeamAgent/public/workflow-routing.js:103-110 | a vertical line is one of the grid if and only if it goes through an end, the middle, 28 outside a port, a side of an obstacle grown by eight, 28 beyond all of these, or 16 beside an earlier vertical leg |
| RoutingLines.RowsAre | roboTeamAgent/public/workflow-routing.js:103-110 | likewise for horizontal lines, without the ports |
| RoutingLines.OuterRowIsOpen | roboTeamAgent/public/workflow-routing.js:101-110 | nothing blocks a leg along the lines beyond everything |
| RoutingLines.RoutableAround | roboTeamAgent/public/workflow-routing.js:97-139 | an edge is routable if it can leave its ports and go along the columns outside them to such a line |
| RoutingLines.RowIsRoutable | roboTeamAgent/public/workflow-routing.js:97-139 | the edge from the first to the third of three tasks in a row is routable |
| RoutingLines.RouteInRow | roboTeamAgent/public/workflow-routing.js:97-151 | the router finds a sound route for it |
| RoutingFreeCrossing.CrossingOnGridLineIsFree | roboTeamAgent/public/workflow-routing.js:24-28 | no step is charged for crossing an earlier perpendicular leg that lies on a grid line |
| RoutingFreeCrossing.StraightIsCheapest | roboTeamAgent/public/workflow-routing.js:112-139 | where nothing blocks or conflicts on the straight line, the straight walk is a cheapest one and costs its length |
| RoutingFreeCrossing.OnlyStraightIsCheapest | roboTeamAgent/public/workflow-routing.js:112-139 | through such a corridor every cheapest walk is the straight one, without a bend |
| RoutingFreeCrossing.CheapestWalkCrossesFree | roboTeamAgent/public/workflow-board.js:83-91 | on a board of four tasks every cheapest walk costs its length alone, although its drawn route is the straight line across an earlier edge and costs exactly a crossing more, wherever that edge turns |
| RoutingFreeCrossing.RouteAcrossEarlier | roboTeamAgent/public/workflow-board.js:83-91 | on that board the router returns the straight line, which costs a crossing more than what was minimised |
| RoutingRoute.WalkGivesSoundRoute | roboTeamAgent/public/workflow-routing.js:97-148 | the route is axis-parallel, has no repeated or collinear points, leaves and arrives on the required sides and clears every obstacle, curves included |
| RoutingRoute.EdgeRoute | roboTeamAgent/public/workflow-routing.js:97-151 | unroutable if and only if no admissible walk exists; otherwise the route comes from a walk that none beats, is sound, lies within the reported bounds, and where no earlier leg meets a grid point is the cheapest as drawn |
| Base58Numbers.SizeIsLeast | explorer/utils/base58.js:4-5 | the buffer size is the least s whose power of the base exceeds the number, also for empty input |
| Base58Numbers.ValueBound | explorer/utils/base58.js:43-61 | a digit string of length n stands for a number from 0 to below base to the n |
| Base58Numbers.RepresentIsRight | explorer/utils/base58.js:62-71 | every number has a digit string without leading zeros that stands for it |
| Base58Numbers.RepresentIsUnique | explorer/utils/base58.js:62-71 | it has only one |
| Base58.AlphabetCode | explorer/utils/base58.js:1-3 | position by position, the alphabet holds the numerals without 0, the capitals without I and O, and the small letters without l |
| Base58.CharOfIsInjective | explorer/utils/base58.js:11-18 | no character occurs twice |
| Base58.BuildBaseMap | explorer/utils/base58.js:7-18 | the table holds the position of every alphabet character and 255 elsewhere; the ambiguity error is never raised |
| Base58.CarryStep | explorer/utils/base58.js:52-54 | one cell of the carry loop keeps the sum of buffer and carry, and keeps the carry below 256 (58 for decoding) |
| Base58.LoopDone | explorer/utils/base58.js:51-59 | when the loop stops nothing is left to carry, the cells above the low ones are zero, and the value is the product plus the digit |
| Base58.MultiplyAdd | explorer/utils/base58.js:50-59 | the buffer's value becomes old value times factor plus digit, with no carry left, if the result fits |
| Base58.RoomForDigit | explorer/utils/base58.js:44-59 | the allocated size always has room for the next digit, so the "Non-zero carry" errors are unreachable |
| Base58.Spell | explorer/utils/base58.js:67-71 | one leader per leading zero byte, then the digits in the alphabet |
| Base58.Encode | explorer/utils/base58.js:31-73 | always succeeds, with leaders for the leading zeros and the only minimal digits of the remaining number |
| Base58.CopyOut | explorer/utils/base58.js:126-132 | one zero byte per leader, then the bytes of the number |
| Base58.Decode | explorer/utils/base58.js:75-133 | for every string: rejects it exactly when a character below 256 is outside the alphabet, otherwise gives the bytes of the number read, and never a carry error |
| Base58.ConversionIsReversible | explorer/utils/base58.js:34-60 | converting digits between any two bases and back gives the original digits, leading zeros included |
| Base58.DecodeEncode | explorer/utils/base58.js:20-133 | decoding the encoding of any byte string gives the byte string |
| Base58.EncodeDecode | explorer/utils/base58.js:20-133 | encoding what was decoded gives the string back if and only if it is a string over the alphabet |
| Base58.ReadIsBounded | explorer/utils/base58.js:95-116 | the number read so far stays below 58 to the number of characters, wide characters included, so the buffer has room |
| Base58.LastCellCleared | explorer/utils/base58.js:100-110 | the carry that is not a number takes the lowest byte out of the buffer |
| Base58.RejectedExactly | explorer/utils/base58.js:100-104 | which strings are rejected, and that only characters above 255 can slip through |
| Base58.WideCharacterSlipsThrough | explorer/utils/base58.js:100-110 | "2" followed by any wide character, a string outside the alphabet, decodes to no bytes |
| Base58.WideClearsLastByte | explorer/utils/base58.js:100-110 | a wide character multiplies what was decoded before it, less its last byte, by 58 |
| Base58.EveryValidStringIsAnEncoding | explorer/utils/base58.js:75-133 | every string over the alphabet is the encoding of some byte string |
| Base58.LeadersAreZeros | explorer/utils/base58.js:34-42 | leading zero bytes and leading '1' characters correspond one to one |
| Crc32.AddByte | explorer/services/document/storedZip.js:4-7 | the inner loop applies eight shifts to the register after mixing in the byte |
| Crc32.Crc | explorer/services/document/storedZip.js:1-10 | the loops compute the checksum that the next rows speak about |
| Crc32.ShiftIsLinear | explorer/services/document/storedZip.js:6 | one bit step is linear over GF(2) |
| Crc32.ShiftsAreInjective | explorer/services/document/storedZip.js:5-7 | any number of bit steps loses nothing |
| Crc32.SuffixKeepsDifference | explorer/services/document/storedZip.js:3-8 | the same bytes never make two different registers equal |
| Crc32.WindowIsReversible | explorer/services/document/storedZip.js:3-8 | registers that become equal after at most four bytes differed only in as many low bytes, and equal ones received equal bytes |
| Crc32.DetectsBurst | explorer/services/document/storedZip.js:1-10 | strings of equal length that differ only within four consecutive bytes have different checksums |
| Crc32.CheckValue | explorer/services/document/storedZip.js:1-10 | the checksum of "123456789" is 0xcbf43926, as for every CRC-32 of this kind |
| StoredZip.ByteList.AppendUint16 | explorer/services/document/storedZip.js:12-14 | pushes the two low bytes, low byte first |
| StoredZip.ByteList.AppendUint32 | explorer/services/document/storedZip.js:16-23 | pushes the four low bytes, low byte first |
| StoredZip.ByteList.AppendBytes | explorer/services/document/storedZip.js:25-29 | pushes all the bytes in order |
| StoredZip.ByteList.AppendLocal | explorer/services/document/storedZip.js:42-54 | pushes exactly one local record |
| StoredZip.ByteList.AppendCentral | explorer/services/document/storedZip.js:56-73 | pushes exactly one directory record with the given offset |
| StoredZip.ByteList.AppendEnd | explorer/services/document/storedZip.js:78-85 | pushes exactly one end record |
| StoredZip.BuildStoredZip | explorer/services/document/storedZip.js:31-87 | writes all local records, the directory whose offsets point at them, and the end record |
| StoredZip.ReadsBack16 | explorer/services/document/storedZip.js:12-14 | a 16-bit field reads back as its number modulo 2^16 |
| StoredZip.ReadsBack32 | explorer/services/document/storedZip.js:16-23 | a 32-bit field reads back as its number modulo 2^32 |
| StoredZip.LocalIsRead | explorer/services/document/storedZip.js:42-54 | a local record reads back with its name, content, checksum and both sizes |
| StoredZip.CentralIsRead | explorer/services/document/storedZip.js:56-73 | a directory record reads back with name, checksum, sizes, offset and the place of the next record |
| StoredZip.EntryIsRead | explorer/services/document/storedZip.js:36-74 | following a directory record's offset gives an entry whose two headers agree and whose checksum is right |
| StoredZip.PiecesHeld | explorer/services/document/storedZip.js:36-74 | every record lies where the offsets say |
| StoredZip.DirectoryIsRead | explorer/services/document/storedZip.js:36-77 | walking the directory from any record on gives the remaining entries in order |
| StoredZip.LocalStartBytes | explorer/services/document/storedZip.js:42-47 | a local record starts with its four signature bytes, version 20, and zeros for flags, method, time and date |
| StoredZip.CentralStartBytes | explorer/services/document/storedZip.js:56-62 | so does a directory record, with the version twice |
| StoredZip.CentralEndBytes | explorer/services/document/storedZip.js:67-72 | it has no extra field, comment, disk number or attributes |
| StoredZip.EndStartBytes | explorer/services/document/storedZip.js:78-85 | the end record starts with its four signature bytes, names the first disk only, and has no comment |
| StoredZip.ReadWrite | explorer/services/document/storedZip.js:31-87 | reading what was written gives back every entry, in order |
| StoredZip.ReadWriteExactly | explorer/services/document/storedZip.js:31-87 | that happens if and only if names stay below 2^16 bytes, the count below 2^16, and the local and the directory part each below 2^32 bytes |
| StoredZip.LongNameIsLost | explorer/services/document/storedZip.js:51 | a name of 65536 bytes leaves zero in its length field, and the archive does not read back |
| StoredZip.SizesOf | explorer/services/document/storedZip.js:42-73 | how long the local and the directory part are |
| StoredZip.PackageReadsBack | explorer/services/document/documentDocxExport.js:49-53 | with the three names that both callers pass, everything reads back if and only if the contents stay 137 bytes below 2^32 |
| MarkdownDocument.Parse | explorer/services/markdownDocumentService.js:15-132 | the loop over the lines, with its buffers and current chapter, gives the document that the theorems speak about |
| MarkdownDocument.PrintChapter | explorer/services/markdownDocumentService.js:151-161 | pushes the heading and the paragraphs of one chapter, each behind an empty line |
| MarkdownDocument.Serialize | explorer/services/markdownDocumentService.js:134-190 | gives the printed text and the sidecar that the theorems speak about |
| MarkdownRoundTrip.EntriesRemember | explorer/services/markdownDocumentService.js:178-186 | the printed sidecar remembers every chapter and paragraph id by position |
| MarkdownRoundTrip.HashesAreRead | explorer/services/markdownDocumentService.js:59-75 | a printed title or heading line is recognised as what it is and gives its text back |
| MarkdownRoundTrip.ParagraphRuns | explorer/services/markdownDocumentService.js:82-89 | reading one printed paragraph adds it, split into lines and joined once more, with the id the sidecar remembers |
| MarkdownRoundTrip.ChapterRuns | explorer/services/markdownDocumentService.js:64-75 | reading one printed chapter adds it with its id, title and paragraphs |
| MarkdownRoundTrip.BodyRuns | explorer/services/markdownDocumentService.js:55-92 | reading all printed chapters gives all of them |
| MarkdownRoundTrip.EndDoesNotMatter | explorer/services/markdownDocumentService.js:163-167 | dropping blank lines at the end and ending with a line feed makes no difference to the parser |
| MarkdownRoundTrip.PrintThenParse | explorer/services/markdownDocumentService.js:15-190 | parsing what was printed of a normal document gives exactly that document, with every paragraph split and joined once more and no id generated anew |
| MarkdownRoundTrip.PrintThenParseText | explorer/services/markdownDocumentService.js:15-190 | without the copy of the information text in the sidecar, parsing the printed text gives it back too, split and joined once more |
| MarkdownSections.SectionsKeepLines | explorer/services/markdownDocumentService.js:55-92 | preamble and sections of a text, put together, are the text |
| MarkdownSections.SectionsHaveOneHeading | explorer/services/markdownDocumentService.js:64-75 | of every section only the first line is a heading |
| MarkdownSections.BlocksKeepLines | explorer/services/markdownDocumentService.js:82-90 | the blocks of a section, put together, are its lines that are not blank |
| MarkdownSections.InfoIsPreamble | explorer/services/markdownDocumentService.js:77-95 | without stored information text, it is the trimmed join of the lines before the first heading, but for the title line |
| MarkdownSections.ChaptersAreSections | explorer/services/markdownDocumentService.js:64-125 | every section of a text gives one chapter, with the heading as title, the trimmed join of every block as a paragraph, and stored ids or else generated ones |
| MarkdownSections.NoSectionsOneChapter | explorer/services/markdownDocumentService.js:107-125 | a text without headings gives one chapter with the stored title or "Chapter 1" and one empty paragraph |
| MarkdownSections.TitleIsFirst | explorer/services/markdownDocumentService.js:59-62 | the title is the text of the first title line |
| MarkdownSections.TitleFallsBack | explorer/services/markdownDocumentService.js:97-105 | without a title line the title is the stored one, trimmed, else the stem of the file name, else a fixed text |
| MarkdownSections.VariablesAreKept | explorer/services/markdownDocumentService.js:205-218 | every stored variable is kept in order, with its id or a generated one, its name or old name, and empty texts for what is missing |
| MarkdownSections.SidecarIsComplete | explorer/services/markdownDocumentService.js:169-187 | whatever the document, its sidecar has version 1, the printed title, the trimmed information text, all comments, and for every chapter its title and all ids, generated where they are missing |
| MarkdownSections.PrintedEndsOnce | explorer/services/markdownDocumentService.js:163-167 | whatever the document, the printed text ends with one line feed behind a visible character |
| MarkdownSections.DecimalReadsBack | explorer/services/markdownDocumentService.js:107-115 | the numbers of default chapter titles are the decimal digits of their positions |
| MarkdownSections.StemOfName | explorer/services/markdownDocumentService.js:235-241 | a file name without its last extension; a dot in front only is no extension |
| MarkdownSections.IdsAreDistinct | explorer/services/markdownDocumentService.js:44-71 | with an empty sidecar all ids of chapters and paragraphs differ if generated ids do |
| MarkdownText.SplitJoin | explorer/services/markdownDocumentService.js:17 | splitting undoes joining, but for one carriage return in front of each line feed |
| MarkdownText.RelinedIsFixed | explorer/services/markdownDocumentService.js:17 | splitting and joining once more leaves a text as it is if and only if it has no carriage return in front of a line feed |
| MarkdownRoundTrip.RelinedIsSame | explorer/services/markdownDocumentService.js:29-45 | it leaves a document as it is if and only if no paragraph has one |
| MarkdownReturns.TitleStandsAside | explorer/services/markdownDocumentService.js:59-62 | reading a text is, but for the title, reading it without its title line |
| MarkdownReturns.RunTracks | explorer/services/markdownDocumentService.js:55-92 | what the machine has collected keeps a carriage return if and only if a line read below a heading ends with one and the next line continues its paragraph |
| MarkdownReturns.ParsedIsSteady | explorer/services/markdownDocumentService.js:15-132 | a parsed document keeps one inside a paragraph if and only if the text has such a line |
| MarkdownNormalForm.HeadingIsGood | explorer/services/markdownDocumentService.js:60-70 | the text taken from a title or heading line is nonempty, trimmed and one line |
| MarkdownNormalForm.StepKeepsOk | explorer/services/markdownDocumentService.js:55-90 | every line keeps titles proper, paragraphs free of headings and blank lines, and ids nonempty |
| MarkdownNormalForm.CompletedIsNormal | explorer/services/markdownDocumentService.js:111-125 | completing a chapter gives it a proper title and at least a placeholder paragraph with an id |
| MarkdownHeadings.RunCounts | explorer/services/markdownDocumentService.js:64-75 | a text has exactly as many chapters as heading lines |
| MarkdownHeadings.PrintedChapters | explorer/services/markdownDocumentService.js:142-167 | parsing printed text finds a chapter for every chapter and for every heading line in the information text |
| MarkdownNormalForm.ChaptersAreNormal | explorer/services/markdownDocumentService.js:107-125 | the chapters of a parsed document are normal unless its only one got an improper stored title |
| MarkdownNormalForm.ParsedIsNormal | explorer/services/markdownDocumentService.js:15-132 | for every sidecar, one parse gives a normal document if and only if its title is proper, stored information text is trimmed and without headings, the version is 1 and no improper stored chapter title is used |
| MarkdownNormalForm.AgainIsTidy | explorer/services/markdownDocumentService.js:15-190 | whatever was printed, the second parse has version 1, trimmed information text, proper titles, and a chapter more for every heading line in the information text |
| MarkdownNormalForm.RoundTripExactly | explorer/services/markdownDocumentService.js:15-190 | for every text and every sidecar, print and parse gives the parsed document back if and only if the text has a title line or its fallback is proper, the sidecar brings in nothing improper, and no line inside a paragraph keeps a carriage return at its end |
| MarkdownNormalForm.FirstOpenRoundTrip | explorer/services/markdownDocumentService.js:94-109 | with an empty sidecar it does if and only if the text has a title line, or there is no file name, or the stem is a proper title, and no carriage return is stray |
| MarkdownNormalForm.BlankStemIsLost | explorer/services/markdownDocumentService.js:100-101 | an empty file named " a.md" does not survive print and parse |
| MarkdownNormalForm.StoredHeadingsAddChapters | explorer/services/markdownDocumentService.js:94-95 | stored information text with a heading line gives more chapters after print and parse |
| MarkdownNormalForm.NoReturnsNoneStray | explorer/services/markdownDocumentService.js:17 | texts without carriage returns have no stray one |
| MarkdownNormalForm.StrayReturnIsLost | explorer/services/markdownDocumentService.js:17-45 | a paragraph of two lines, the first ending with two carriage returns, does not survive print and parse |
| WorkflowEditor.SyncRestores | roboTeamAgent/public/workflow-editor.js:269-282 | bringing the coordinator in step restores all facts about tasks, edges and layout and leaves every ordinary task alone |
| WorkflowEditor.SyncedIsFixed | roboTeamAgent/public/workflow-editor.js:269-282 | it changes nothing in a valid graph |
| WorkflowEditor.MovedBeside | roboTeamAgent/public/workflow-editor.js:460-470 | moving a task is a permutation that puts it right before or after the target and keeps the order of the others |
| WorkflowEditor.AddPutsFirst | roboTeamAgent/public/workflow-editor.js:702-713 | a new task comes first, with a layout of its own, disturbs nothing else, and becomes the start node exactly when there was no ordinary task |
| WorkflowEditor.PlacesAreRows | roboTeamAgent/public/workflow-editor.js:236 | places run in rows of four from (40, 40), 240 apart, the rows 150 apart |
| WorkflowEditor.PlacesAreApart | roboTeamAgent/public/workflow-editor.js:236 | tasks of 190 by 70 in different places do not touch |
| WorkflowEditor.AddKeepsTidy | roboTeamAgent/public/workflow-editor.js:702-713 | while tasks have different ones of the first places, as many as there are tasks, a new task touches no other |
| WorkflowEditor.AllowKeepsTidy | roboTeamAgent/public/workflow-editor.js:269-276 | nor does the coordinator when it appears |
| WorkflowEditor.AddAfterDeleteOverlaps | roboTeamAgent/public/workflow-editor.js:706 | after the deletion of a task that allows no sub-flows, the next task is put onto the one in the last place |
| WorkflowEditor.DeleteRemovesOnly | roboTeamAgent/public/workflow-editor.js:681-691 | deleting takes away the task, its edges, and the coordinator with its edges when no creator is left; all other tasks and edges stay in their order, and all other positions stay |
| WorkflowEditor.DeletePassesEntryOn | roboTeamAgent/public/workflow-editor.js:688 | deleting the start node makes the first remaining ordinary task the start node, and none if there is none; deleting another task leaves it alone |
| WorkflowEditor.DeleteAsksExactly | roboTeamAgent/public/workflow-editor.js:682-683 | the question is asked if and only if the coordinator goes with the task |
| WorkflowEditor.DisallowAsksExactly | roboTeamAgent/public/workflow-editor.js:647-652 | the question is asked if and only if the coordinator goes and takes a connection with it |
| WorkflowEditor.DisallowRemovesOnly | roboTeamAgent/public/workflow-editor.js:646-659 | disallowing sub-flows clears one flag and takes away exactly the edges and the coordinator that depended on it; the rest keeps its order and positions |
| WorkflowEditor.AllowAdds | roboTeamAgent/public/workflow-editor.js:646-659 | allowing sub-flows adds the flag, one edge and, the first time, the coordinator |
| WorkflowEditor.AllowAgain | roboTeamAgent/public/workflow-editor.js:653-657 | allowing sub-flows again puts back a deleted connection to the coordinator and changes nothing else |
| WorkflowEditor.FirstOrdinaryIsEntry | roboTeamAgent/public/workflow-editor.js:688 | the new start node is the first ordinary task, or empty if there is none |
| WorkflowEditor.EditKeepsValid | roboTeamAgent/public/workflow-editor.js:269-289 | every edit that the page offers keeps the five facts |
| WorkflowEditor.EditingKeepsValid | roboTeamAgent/public/workflow-editor.js:269-289 | so does every sequence of edits |
| WorkflowEditor.DeleteUndoesAdd | roboTeamAgent/public/workflow-editor.js:681-713 | deleting a task just added gives the graph back |
| WorkflowEditor.DeleteUndoesConnect | roboTeamAgent/public/workflow-editor.js:283-289 | deleting a connection just drawn gives the graph back |
| WorkflowEditor.DisallowUndoesAllow | roboTeamAgent/public/workflow-editor.js:646-659 | disallowing right after allowing gives the graph back |
| WorkflowEditor.Editor.SyncCoordinator | roboTeamAgent/public/workflow-editor.js:269-282 | the in-place updates, in their order, give the graph that is in step |
| WorkflowEditor.Editor.ConnectTasks | roboTeamAgent/public/workflow-editor.js:283-289 | appends the edge unless it is a loop or enters the coordinator from a task that is no creator; keeps the five facts |
| WorkflowEditor.Editor.MoveTask | roboTeamAgent/public/workflow-editor.js:460-470 | the two splices move the task beside the target; nothing happens when read-only; keeps the five facts |
| WorkflowEditor.Editor.AddTask | roboTeamAgent/public/workflow-editor.js:702-713 | a new first task with a layout, made the start node if there was none; keeps the five facts |
| WorkflowEditor.Editor.DeleteTask | roboTeamAgent/public/workflow-editor.js:681-691 | deletes unless the question about the last creator is declined; keeps the five facts |
| WorkflowEditor.Editor.ToggleCreator | roboTeamAgent/public/workflow-editor.js:646-659 | sets the flag unless the question about the last creator is declined; keeps the five facts |
| WorkflowEditor.Editor.SetEntryTask | roboTeamAgent/public/workflow-editor.js:639-644 | changes the start node only; keeps the five facts |
| WorkflowEditor.Editor.DeleteSelectedEdge | roboTeamAgent/public/workflow-editor.js:771-775 | removes the selected edge only; keeps the five facts |
| LiveUpdates.RunKeepsInv | roboTeamAgent/public/workflow-live-updates.js:3-61 | over every interleaving: only the current stream is unclosed; none is open while hidden, suspended or disposed; an active page has a stream or an armed retry, or polls if there are no streams |
| LiveUpdates.AtMostOneStream | roboTeamAgent/public/workflow-live-updates.js:10-52 | two unclosed streams are the same one, and then the page is visible, not suspended and not disposed |
| LiveUpdates.ClosedStaysSilent | roboTeamAgent/public/workflow-live-updates.js:23-39 | a superseded stream is never opened again and delivers nothing more |
| LiveUpdates.MessagesAreAnswered | roboTeamAgent/public/workflow-live-updates.js:27-36 | which callbacks each of the six events of an open stream causes, and with which data |
| LiveUpdates.DeliversExactly | roboTeamAgent/public/workflow-live-updates.js:27-36 | over a whole run, the callbacks made are those for the messages that come from a stream while it is open, in order |
| LiveUpdates.FallbackStartsExactly | roboTeamAgent/public/workflow-live-updates.js:4-9 | a resync of an open stream or a poll starts a fallback if and only if the page is active and none is running; nothing else does |
| LiveUpdates.FallbacksDoNotOverlap | roboTeamAgent/public/workflow-live-updates.js:4-9 | over a whole run, the fallbacks started are those ended and at most one that is running |
| LiveUpdates.StateFollowsPage | roboTeamAgent/public/workflow-live-updates.js:46-61 | hidden, suspended, disposed and the address follow the page's events, and a disposed observer is not suspended or resumed |
| LiveUpdates.ReconnectFollowsPage | roboTeamAgent/public/workflow-live-updates.js:46-49 | after a reconnect an active page listens to the address of the current page |
| LiveUpdates.BackOff | roboTeamAgent/public/workflow-live-updates.js:37-44 | retries wait between five seconds and a minute, strictly longer after each failure until the minute is reached |
| LiveUpdates.DelayDoubles | roboTeamAgent/public/workflow-live-updates.js:43 | the wait is five seconds and doubles with every failure up to a minute |
| LiveUpdates.OpenEndsBackOff | roboTeamAgent/public/workflow-live-updates.js:23-26 | an open of the current stream ends polling and makes the next wait five seconds |
| LiveUpdates.FirstFailureWaitsFive | roboTeamAgent/public/workflow-live-updates.js:37-43 | so is the first wait of a page |
| LiveUpdates.DisconnectingCancels | roboTeamAgent/public/workflow-live-updates.js:10-13 | hiding, leaving and disposing close the stream, stop polling and cancel the retry |
| LiveUpdates.RetryCanOutliveHiding | roboTeamAgent/public/workflow-live-updates.js:37-52 | a run after which a hidden page has a retry armed |
| LiveUpdates.StrayRetryIsHarmless | roboTeamAgent/public/workflow-live-updates.js:43 | a retry that fires on an inactive page, or beside an open stream, opens nothing |
| LiveUpdates.RetryBringsStream | roboTeamAgent/public/workflow-live-updates.js:43 | an active page without a stream has an armed retry, and firing it opens a stream |
| LiveUpdates.DisposedIsFinal | roboTeamAgent/public/workflow-live-updates.js:57-61 | once disposed: no stream, no polling, no delivery, no fallback, whatever happens |
| LiveUpdates.Observer.constructor | roboTeamAgent/public/workflow-live-updates.js:3-55 | starts by connecting when the page is visible |
| LiveUpdates.Observer.RunFallback | roboTeamAgent/public/workflow-live-updates.js:4-9 | starts a fallback only when none is running and the page is active |
| LiveUpdates.Observer.Disconnect | roboTeamAgent/public/workflow-live-updates.js:10-13 | closes the stream and clears both timers |
| LiveUpdates.Observer.Connect | roboTeamAgent/public/workflow-live-updates.js:19-22 | opens a stream to the page's address when active and without one; polls when streams are unavailable |
| LiveUpdates.Observer.OnOpen | roboTeamAgent/public/workflow-live-updates.js:23-26 | an open of the current stream ends polling and back-off; any other is ignored |
| LiveUpdates.Observer.OnMessage | roboTeamAgent/public/workflow-live-updates.js:27-36 | a message of the current stream makes its callbacks or starts a fallback; any other is ignored |
| LiveUpdates.Observer.OnError | roboTeamAgent/public/workflow-live-updates.js:37-44 | the current stream is closed and replaced by polling and a retry; any other error is ignored |
| LiveUpdates.Observer.OnRetry | roboTeamAgent/public/workflow-live-updates.js:43 | a fired retry connects |
| LiveUpdates.Observer.OnVisibility | roboTeamAgent/public/workflow-live-updates.js:50 | hiding disconnects, showing connects |
| LiveUpdates.Observer.OnPageHide | roboTeamAgent/public/workflow-live-updates.js:51 | suspends and disconnects |
| LiveUpdates.Observer.OnPageShow | roboTeamAgent/public/workflow-live-updates.js:52 | resumes and connects |
| LiveUpdates.Observer.ReconnectStream | roboTeamAgent/public/workflow-live-updates.js:46-49 | a stream to the right address is kept; otherwise it is replaced and the back-off starts anew |
| LiveUpdates.Observer.DisposeAll | roboTeamAgent/public/workflow-live-updates.js:57-61 | disposes and disconnects |
| LogMirror.RunKeepsInv | roboTeamAgent/public/roboflow.js:520-569 | over every interleaving: cached logs are prefixes of the server's, and what was heard is cached, being fetched, due for a reload, or marked as missed |
| LogMirror.MirrorIsFaithful | roboTeamAgent/public/roboflow.js:524-705 | every cached log is a prefix of the server's; with nothing pending and no error the shown log covers every event received, unless a due reload could not be made |
| LogMirror.EventIsNoticedExactly | roboTeamAgent/public/roboflow.js:692-705 | for every log event, received or not: it is taken care of if and only if the page can load, or it is already covered, or it continues the cached log, or a reload is due, or an error is shown |
| LogMirror.OnlyDroppedReloadsLose | roboTeamAgent/public/roboflow.js:520-569 | for every event that the page can receive, whatever is shown: all that was heard for the current request stays cached, under way, due or behind a shown error if and only if the event is not the end of a fetch that brings too little, with a reload due, while the page is hidden, has no log element or shows no log |
| LogMirror.LosesOnlyByDropping | roboTeamAgent/public/roboflow.js:520-569 | over whole runs of such events, that holds at every moment if and only if no such fetch ends in the run |
| LogMirror.FetchIsNoticedExactly | roboTeamAgent/public/roboflow.js:561-568 | a completed fetch leaves nothing behind if and only if no reload was due, or the page can load, or the fetch already brought everything |
| LogMirror.EventCanBeLost | roboTeamAgent/public/roboflow.js:561-568 | a run of receivable events in which the page is hidden while a dirty fetch completes, and that ends with a visible, settled view that misses an event |
| LogMirror.EventCanBeLostInSight | roboTeamAgent/public/roboflow.js:533-599 | the same on a page that is visible throughout: another phase without a log is selected while the dirty fetch completes, and selecting the first one again reloads nothing |
| LogMirror.MissedOnlyWhenAway | roboTeamAgent/public/roboflow.js:525-528 | a reload is missed only while the page is hidden, has no log element or shows something else |
| LogMirror.PollCatchesUp | roboTeamAgent/public/roboflow.js:685-690 | the next poll of a visible page, once its fetch completes, holds the whole log of the server |
| LogMirror.PollCatchesUpAfterFetch | roboTeamAgent/public/roboflow.js:685-690 | a poll that finds a fetch pending brings the whole log with a second fetch, whether the first succeeds or fails |
| LogMirror.LoadExactly | roboTeamAgent/public/roboflow.js:524-545 | a load starts a fetch if and only if the page can load, none is under way, and the load is forced, not to be skipped or the first for its key; otherwise it changes nothing but that a forced one is remembered |
| LogMirror.AskedForLoads | roboTeamAgent/public/roboflow.js:583-690 | showing a log, refreshing the page and polling fetch it |
| LogMirror.EventExactly | roboTeamAgent/public/roboflow.js:692-705 | an event that the cache covers changes nothing, one that continues it is appended, and any other starts a fetch or makes a reload due |
| LogMirror.StateFollowsEvents | roboTeamAgent/public/roboflow.js:524-705 | what is shown, the page, the server, what was heard and the revision follow their own events only |
| LogMirror.ForcedLoadRestores | roboTeamAgent/public/roboflow.js:524-543 | a forced load makes good whatever was just heard, or marks it as missed |
| LogMirror.SettleKeepsInv | roboTeamAgent/public/roboflow.js:561-568 | the end of a fetch, with its reload of a dirty request, keeps the invariant |
| LogMirror.AppendKeepsInv | roboTeamAgent/public/roboflow.js:692-705 | a live event keeps the invariant, appended or not |
| LogMirror.RevisionNeverDecreases | roboTeamAgent/public/roboflow.js:660-662 | the applied flow revision never decreases |
| LogMirror.RevisionIsGreatest | roboTeamAgent/public/roboflow.js:660-662 | over a whole run, the applied revision is the greatest that has come for the selected flow |
| LogMirror.LogView.LoadLog | roboTeamAgent/public/roboflow.js:524-543 | starts a fetch, marks a pending one dirty or does nothing, exactly as the step says |
| LogMirror.LogView.FetchSucceeded | roboTeamAgent/public/roboflow.js:545-568 | stores the fetched log, clears the error and reloads if dirty |
| LogMirror.LogView.FetchFailed | roboTeamAgent/public/roboflow.js:555-568 | stores the error and reloads if dirty |
| LogMirror.LogView.AppendLiveLog | roboTeamAgent/public/roboflow.js:692-705 | ignores what is covered, appends what continues the cache, reloads otherwise |
| LogMirror.LogView.PollLog | roboTeamAgent/public/roboflow.js:685-690 | forces a reload of the shown log |
| LogMirror.LogView.SelectPhase | roboTeamAgent/public/roboflow.js:583-588 | shows an invocation and loads its log |
| LogMirror.LogView.ApplyFlow | roboTeamAgent/public/roboflow.js:660-662 | applies only flows of the selected id with no lower revision |
| PageChangeGuard.RunKeepsInv | explorer/services/runtime/pageChangeGuards.js:57-100 | the invariant about counter, pending entry and joins holds over every interleaving |
| PageChangeGuard.JoinIsNotOverridden | explorer/services/runtime/pageChangeGuards.js:57-100 | a joined mount was the latest page change, and every later one belongs to a request that started after the joining one |
| PageChangeGuard.JoinedMountIsShown | explorer/services/runtime/pageChangeGuards.js:64-76 | a join happens only onto the element on the page, of the same component, without presenter and without page data, and changes nothing |
| PageChangeGuard.PendingOverRuns | explorer/services/runtime/pageChangeGuards.js:57-100 | the pending entry describes the last page change of the run, and is settled if and only if that has settled since |
| PageChangeGuard.JoinsExactly | explorer/services/runtime/pageChangeGuards.js:57-75 | in any run, a request joins if and only if it asks without page data and with the hash preserved, no request is registering, and the last page change is still mounting that component on the page without a presenter |
| PageChangeGuard.RequestsFollowEvents | explorer/services/runtime/pageChangeGuards.js:57-100 | phases, counter and page follow the events: every request counts from registration to its page change or failure |
| PageChangeGuard.NobodyWaits | explorer/services/runtime/pageChangeGuards.js:78-94 | no event of another request touches a request's phase or what it asked for, so its completion, whenever it comes, changes the page to its component and makes its entry pending |
| PageChangeGuard.CounterIsExact | explorer/services/runtime/pageChangeGuards.js:60-83 | the counter is the number of requests between registration and page change, failed registrations included |
| PageChangeGuard.Guard.ChangeToDynamicPage | explorer/services/runtime/pageChangeGuards.js:62-80 | joins exactly when allowed, and otherwise starts a registration |
| PageChangeGuard.Guard.AfterRegistration | explorer/services/runtime/pageChangeGuards.js:81-94 | changes the page and makes the new entry the pending one |
| PageChangeGuard.Guard.RegistrationFailed | explorer/services/runtime/pageChangeGuards.js:81-83 | only counts down |
| PageChangeGuard.Guard.Settle | explorer/services/runtime/pageChangeGuards.js:95-98 | settles the entry of its own request only |
| OnlyOfficeHost.RunKeepsInv | explorer/services/onlyoffice/onlyoffice-editor-host.js:207-288 | the invariant about generations, editors and pending work holds over every interleaving |
| OnlyOfficeHost.OneLiveEditor | explorer/services/onlyoffice/onlyoffice-editor-host.js:84-97 | every created editor but the current one has been destroyed, no generation has two, and the current one is of the newest generation and shows the key last asked for |
| OnlyOfficeHost.OnlyNewestMounts | explorer/services/onlyoffice/onlyoffice-editor-host.js:231-264 | a script load creates an editor if and only if its generation is the newest and the host is connected, and then no other editor is there |
| OnlyOfficeHost.StaleCallbacksAreIgnored | explorer/services/onlyoffice/onlyoffice-editor-host.js:249-274 | callbacks of an older generation leave the runtime alone; those of the newest retire it |
| OnlyOfficeHost.ActiveExactly | explorer/services/onlyoffice/onlyoffice-editor-host.js:141-156 | in any run, a session is active if and only if the host is connected and has a container, the nonempty key is the one asked for last, and the newest generation has an editor that is neither destroyed nor retired |
| OnlyOfficeHost.MountEstablishes | explorer/services/onlyoffice/onlyoffice-editor-host.js:231-265 | a mount of the newest generation gives the session asked for, active and with its status image under way; a constructor that throws gives a keyed session without editor |
| OnlyOfficeHost.GenerationsFollow | explorer/services/onlyoffice/onlyoffice-editor-host.js:213-229 | every render that is not kept from starting and every clear begins the next generation, and nothing else does |
| OnlyOfficeHost.LoadsFollow | explorer/services/onlyoffice/onlyoffice-editor-host.js:226-234 | a generation waits for the script from its render until the script has loaded or failed |
| OnlyOfficeHost.ImagesFollow | explorer/services/onlyoffice/onlyoffice-editor-host.js:265-275 | a status image is under way from the mount until it settles |
| OnlyOfficeHost.PromiseIsExact | explorer/services/onlyoffice/onlyoffice-editor-host.js:265-275 | after any run the promise is set if and only if the image of the newest generation is under way |
| OnlyOfficeHost.HostFollowsPage | explorer/services/onlyoffice/onlyoffice-editor-host.js:158-172 | connection follows the page; the container appears with a mount and goes with a clear |
| OnlyOfficeHost.RetiringWarnings | explorer/services/onlyoffice/onlyoffice-editor-host.js:5 | the warnings that retire an editor are exactly those with the six codes |
| OnlyOfficeHost.OnlyOwnCallbacksRetire | explorer/services/onlyoffice/onlyoffice-editor-host.js:249-274 | when a run ends with a retired generation, one of that generation's own callbacks came during the run |
| OnlyOfficeHost.RetiredStaysDown | explorer/services/onlyoffice/onlyoffice-editor-host.js:218-224 | without a clear and without another key, a retired session creates no editor in any run |
| OnlyOfficeHost.RetryMounts | explorer/services/onlyoffice/onlyoffice-editor-host.js:218-264 | a clear, or another key, followed by a render and the script, mounts a fresh editor |
| OnlyOfficeHost.ActiveStaysUp | explorer/services/onlyoffice/onlyoffice-editor-host.js:141-156 | an active session keeps its editor through renders of the same key, ordinary warnings and anything that older generations do |
| OnlyOfficeHost.EditorHost.IsOnlyOfficeEditorActive | explorer/services/onlyoffice/onlyoffice-editor-host.js:141-156 | active means mounted, not retired, connected, of this nonempty key and with a container |
| OnlyOfficeHost.EditorHost.DestroyEditor | explorer/services/onlyoffice/onlyoffice-editor-host.js:84-97 | destroys the current editor, if any, and forgets it |
| OnlyOfficeHost.EditorHost.RenderOnlyOfficeEditor | explorer/services/onlyoffice/onlyoffice-editor-host.js:207-231 | starts a new generation unless the session is active or retired with the same key |
| OnlyOfficeHost.EditorHost.Mount | explorer/services/onlyoffice/onlyoffice-editor-host.js:231-265 | mounts for the newest generation in a connected host, and does nothing otherwise |
| OnlyOfficeHost.EditorHost.OnError | explorer/services/onlyoffice/onlyoffice-editor-host.js:249-254 | retires its own generation if that is the newest |
| OnlyOfficeHost.EditorHost.OnWarning | explorer/services/onlyoffice/onlyoffice-editor-host.js:255-261 | so do the six inactive warnings, and no other |
| OnlyOfficeHost.EditorHost.OnImageFailure | explorer/services/onlyoffice/onlyoffice-editor-host.js:266-271 | retires the newest generation and destroys its editor |
| OnlyOfficeHost.EditorHost.OnImageSettled | explorer/services/onlyoffice/onlyoffice-editor-host.js:272-274 | clears the promise of the newest generation only |
| OnlyOfficeHost.EditorHost.ClearOnlyOfficeEditor | explorer/services/onlyoffice/onlyoffice-editor-host.js:278-288 | destroys the editor and makes every earlier generation stale |
| CommitBatches.RenderedDiffFits | gitAgent/lib/git-commit-message.js:70-76 | with the limit of 5000 that every caller uses, a rendered diff respects it, keeping the first and last 2460 characters of longer ones |
| CommitBatches.RenderedLines | gitAgent/lib/git-commit-message.js:70-76 | the path is on the first line, a line that announces the diff follows, and then the diff or a remark that there is none |
| CommitBatches.CharsAreExact | gitAgent/lib/git-commit-message.js:78-80 | the running count of a batch is the length of its rendered diffs, separators included, plus two |
| CommitBatches.TruncationFits | gitAgent/lib/git-commit-message.js:46-51 | for any limit: the result respects it if and only if the text does already or the limit is at least 618 |
| CommitBatches.TruncationKeepsEnds | gitAgent/lib/git-commit-message.js:49-50 | where a cut fits, it keeps a start and an end of the text that do not overlap |
| CommitBatches.ShortLimitRepeats | gitAgent/lib/git-commit-message.js:49-50 | for limits that no caller uses: a text of up to 300 characters comes out twice |
| CommitBatches.PieceIsNotFull | gitAgent/lib/git-commit-message.js:110-111 | inside a batch that respects the limits, no piece was too full for its next item |
| CommitBatches.StaysAhead | gitAgent/lib/git-commit-message.js:109-118 | a greedy batch that starts no earlier than a batch of any other split ends no earlier |
| CommitBatches.GreedyIsLeast | gitAgent/lib/git-commit-message.js:109-119 | no order-preserving split within the limits has fewer batches than a greedy one |
| CommitBatches.BatchItems | gitAgent/lib/git-commit-message.js:107-119 | splits a category in order, without empty batches, each a single item or within both limits, in the fewest batches |
| CommitBatches.GroupItems | gitAgent/lib/git-commit-message.js:98-101 | every category has its items in the order of the input |
| CommitBatches.BatchAll | gitAgent/lib/git-commit-message.js:103-120 | batches come in category order, with a least split of every category |
| CommitBatches.BuildSemanticBatches | gitAgent/lib/git-commit-message.js:95-132 | with given or default limits, labels every batch of the least splits with its number and the total when there are several |
| CommitBatches.PartsAreNumbered | gitAgent/lib/git-commit-message.js:122-130 | numbers run from 1 to the total and say which batch of the category it is |
| CommitBatches.LabelsAreDistinct | gitAgent/lib/git-commit-message.js:129 | no two batches have the same label |
| CommitBatches.BatchesPartition | gitAgent/lib/git-commit-message.js:99-120 | every item is in exactly one batch, a batch of its category, and categories keep the order of the input |
| CommitBatches.DefaultBatchesFit | gitAgent/lib/git-commit-message.js:4-6 | with the default limits a batch exceeds the character limit only if a path has more than 6985 characters |
| TextDelta.ComputeTextDelta | explorer/services/crdt/markdownCrdtClient.js:9-44 | nothing if and only if the texts are equal; otherwise a delta that turns one into the other, with deletion and insertion both least and the latest possible start |
| TextDelta.KeptParts | explorer/services/crdt/markdownCrdtClient.js:38-43 | any delta that does the job keeps a common start and a common end |
| TextDelta.ScansKeepMost | explorer/services/crdt/markdownCrdtClient.js:19-36 | no common start is longer than the first scan's, and none keeps more together with a common end |
| TextDelta.ScansGiveBest | explorer/services/crdt/markdownCrdtClient.js:19-43 | the two scans give a best delta |
| TextDelta.BestIsUnique | explorer/services/crdt/markdownCrdtClient.js:38-43 | there is only one best delta |
| TextDelta.InverseIsBest | explorer/services/crdt/markdownCrdtClient.js:9-44 | the delta computed for going back is the inverse: same place, deleted and inserted text exchanged |

## Left out

- Drawing, focus, dialogs, themes, styles and all other rendering; `confirm` answers are parameters.
- `fetch`, event sources, CSRF, authentication, agent calls, child processes and language-model prompts; where a
  protocol needs one, its completion is an event of the environment.
- Floating point: coordinates and costs of the router are real numbers, and the base58 buffer sizes are the exact values
  that the logarithms approximate.
- The text of the SVG path: `RoutingPath` models its commands, not the number formatting.
- Base58: conversion of strings and arrays to bytes before encoding, and the type errors. Strings are sequences of 16-bit
  codes.
- StoredZip.BuildStoredZip: takes names and contents as bytes; UTF-8 encoding and the order of object keys are not
  modelled.
- MarkdownNormalForm.RoundTripExactly: generated ids are taken to be nonempty, as those of `generateId` are.
- Markdown: values that the service only copies (comments, metadata, variable types) are strings, and a non-string text
  or a missing sidecar field is its default; `createEmptyDocument` is not modelled.
- WorkflowEditor: task fields that the five facts do not mention (prompt, skills, environment), saving, coverage checks
  and the selection are not modelled; fresh ids come from the caller.
- LiveUpdates: parsing of event data and the callbacks' own errors; removed listeners are handlers that do nothing once
  disposed.
- LogMirror: that log events reach only a visible page with its log element is taken from the page, not derived; logs
  are bytes and events are pieces of the server's log; decoding of chunks that split a character, the delay before an
  unforced reload and the rendering of the final response are not modelled beyond the flag `skip`.
- PageChangeGuard: a page change that throws before it returns a promise; the installation checks.
- OnlyOfficeHost: loading the script and the status image are steps that succeed or fail; counters are unbounded, so
  the resets of unsafe integers are left out, and callbacks do not run inside a constructor or a destroy call.
- CommitBatches: `categorizePath` and the displayed path are fields of an item, so any total classification is covered;
  limits are integers, and labels are values rather than text.
- TextDelta: conversion of null and non-string arguments.
- Single-flight caches, listener registries, keymaps, filters, validators, path normalisers and the document parser
  behind helpers that are not shown: they would add easy members or rest on code outside the repository.
