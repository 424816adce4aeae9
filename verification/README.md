# Verified model of flyto-robotics

This project models the parts of flyto-robotics that decide whether a machine moves, stops or
remembers, and proves what they promise. Check everything with `dafny verify dfyconfig.toml`.

Five subsystems are modelled, each with its in-place objects as classes and its rules as functions:

* **Braking** (`BrakingEnvelope`, `BrakingGuard`, `GuardRun`): the room a LiDAR sweep leaves, the
  stopping law and its square-root inverse, the plan of a drive, the staleness limit, the guard
  re-judged on every scan, and the end-to-end theorem that a planned drive comes to rest with no
  return nearer than the clearance floor.
* **Device-event journal** (`DeviceEvent`, `EventAcceptance`, `CanonicalJson`, `Cursor`, `Journal`,
  `JournalFiles`, `JournalStore`, `JournalPages`, `JournalCursors`, `JournalReader`, `JournalSession`,
  `JournalExample`): exactly which events and files are accepted, a bounded append-only file with
  oldest-first retention, opaque cursors and byte- and item-bounded pages, against any cursor text, any
  interleaving of appends with a reader that resumes, and a reader that drains.
* **Arm** (`ArmProfile`, `ArmBus`, `ArmMotion`, `ArmGrip`, `ArmCalls`, `ArmAdapter`, and the theorems
  in `ArmSetpoints`, `ArmSafety`, `ArmContracts`, `ArmEvidence`, `ArmGripEvidence`, `ArmTiming`,
  `ArmOverrun`, `ArmGripOverrun`, `ArmLiveness`, `ArmGraspLiveness`, `ArmExample`, `ArmRuns`, `ArmLatches`,
  `ArmStarts`, `ArmStops`, `ArmStalls`, `ArmInterleaving`): setpoint loops with cancelled, deadline, stall and arrival
  exits, measured stops, latched faults and the gripper. A bus is any functions of any state, among them whether a
  stop has been asked for, so safety is proved against every bus and every time of a stop; liveness is
  proved on the simulated one with nobody asking for a stop. `SerialArmAdapter` is the object itself,
  every method proved to do what its function says.
* **Goal replacement** (`GoalReplacement`, `GoalRuns`, `GoalDistances`): which goal drives a call while
  its guard replaces it with slower ones, and what each of those asks for, over every interleaving with
  messages and failed sends.
* **Smaller cores**: the facility lease runtime and its event log (`FacilityCatalog`,
  `FacilityRuntime`, `FacilityReplay`, `FacilityRuns`, `FacilityEvents`), the plan policy, parser and printer
  (`Capabilities`, `PlanPolicy`, `PlanCodec`, `PlanAcceptance`), the camera progress parser (`FrameProgress`).

A straight-line method of a class is proved to do exactly what its function says, on every exit, and has
no row below: the rows name the loops and the entry points of the classes, and what is proved of the
functions.

Numbers the program holds as floats are `real`, a square root is any function that is one, infinity
is a constructor of its own, time is what a call is told or what its sleeps add up to. Hashes, text
normalisation and secret patterns are function parameters with their laws stated. The journal's JSON
text is written out (`CanonicalJson`) and proved to lose nothing; a decoder is any function that
undoes it. `JournalExample` exhibits an environment that meets every law, an event its contract
accepts and written journals of every length.

Where the program does not meet what it is for, the exact condition is proved and an input shown:

* A guard whose period credit is under two polls can stop past the floor
  (`GuardRun.CreditUnderTwoPollsBreaches`, for every such profile); with two polls it never does, and a
  profile's runs all stay clear exactly then (`GuardRun.RunsStayClearExactlyWhen`).
* A cursor is refused exactly when its position needs more than sixteen digits
  (`JournalPages.IssuedCursorRefusedExactlyWhen`; a journal and its cursor in
  `JournalExample.IssuedCursorIsRefused`).
* A joint named `frame` takes the key a phase keeps its frame under, and one named `held` the key a
  grasp keeps its verdict under; the published evidence is met exactly when that is not so
  (`ArmEvidence`, `ArmGripEvidence`; completed calls of arms with such joints in
  `ArmExample.OneJointMoves` and `ArmExample.OneJointGrasps`). The profile parser accepts both names.
* A motion at the top of its loop honours every stop exactly when the stop flag is set while one is
  not over, so a stop that is not over when a motion clears the flag is lost on it
  (`ArmInterleaving.StopsHonouredExactlyWhen`, `ArmInterleaving.ClearedStopsHonouredExactlyWhen`; a
  whole run in `ArmInterleaving.RequestBeforeClearIsLost`).
* A profile's control period may be so long that its own row's time does not cover a move. Every move
  on every bus ends in time exactly when the row covers every pass the deadline allows and the
  settling (`ArmOverrun.MovesEndInTimeExactlyWhen`; the bus that takes that long in
  `ArmOverrun.LongestMoveHappens`, a profile it overruns in `ArmOverrun.SlowProfileOverruns`). So with
  grasps and with releases, where the longest grasp slips after its contact and is reached exactly when a
  stall window fits into the passes after the first (`ArmGripOverrun.GripsEndInTimeExactlyWhen`,
  `ArmGripOverrun.SlowGripsOverrun`).
* The result of the goal that is really driving is dropped exactly while a slower one is being sent;
  if that send fails, nothing answers the call (`GoalRuns.ResultLostInFailedSend`).
* A handoff that raises part-way can hold a lease no event tells of
  (`FacilityReplay.HandoffRebuildsExactlyWhen`, `FacilityRuns.UnrecordedLease`); so can a change of
  health (`FacilityReplay.SetHealthRebuildsExactlyWhen`, `FacilityRuns.UnrecordedHealth`).
* Progress lines of at most `n` bytes are read alike however the stream is cut exactly when a line and
  one more chunk fit the buffer, `n <= 3584` (`FrameProgress.ChunksNeverMatterExactlyWhen`): a line of
  3585 bytes, well under the buffer's 4096, can be read as a counter it is not
  (`FrameProgress.LineMisread`).

Where code and documentation differ the model follows the code: a blank journal file has no header
line to index, which the model reports as a bad header; exporting a journal that was never written
hands out a cursor with no journal's identity, which the next export refuses, so cursor properties
are stated for a journal that has been written (`JournalCursors.UnwrittenServesExactlyWhen` says what
becomes of one that has not).

## Model

| member | source | states |
|---|---|---|
| BrakingEnvelope.StopsWithinExactlyAtMaxSpeed | flyto_robotics/braking_envelope.py:185-206 | a speed stops within a room if and only if it is at most the maximum speed for that room: the square-root formula is the exact inverse of the stopping law, infinite room included |
| BrakingEnvelope.RoomToFloor | flyto_robotics/braking_envelope.py:430-459 | the loop over the beams finds the room the specification gives, with the return that gives it |
| BrakingEnvelope.RoomIsLeast | flyto_robotics/braking_envelope.py:430-459 | the measured room is at most the room of every return ahead within the floor's width, and one return attains it, or none limits the drive |
| BrakingEnvelope.ClearWithinRoom | flyto_robotics/braking_envelope.py:430-459 | while the robot is within the measured room no return comes nearer than the smaller of the floor and its initial range |
| BrakingEnvelope.AcceptedPlanFits | flyto_robotics/braking_envelope.py:705-749 | in either governance mode an accepted drive is no faster than asked, not slower than the minimum and could stop in the room; a planned one is no farther than asked and its distance plus its stopping distance fits, a re-sent one keeps the distance asked for |
| BrakingEnvelope.AcceptedPlanIsLargest | flyto_robotics/braking_envelope.py:705-749 | a plan gives nothing away: in either mode the fraction of any speed is within the planned speed if and only if it is within the one asked for and that speed itself could stop in the room, and any distance is within a planned one if and only if it is within the one asked for and leaves the room to stop |
| BrakingEnvelope.PlannedSpeedIsLargest | flyto_robotics/braking_envelope.py:727-735 | the same of the speed of every plan in either mode, refused ones included |
| BrakingEnvelope.RefusedExactlyWhen | flyto_robotics/braking_envelope.py:723-749 | over profile, room and request: a plan is refused as unable to stop if and only if the request is under the least speed or the speed whose fraction is the least one could not stop in the room; and as too short if and only if it is not that, the drive is planned before it is sent and asks for the least distance, and some speed the plan may use leaves less than that |
| BrakingEnvelope.PlannedDriveStaysClear | flyto_robotics/braking_envelope.py:430-459 | a drive accepted from the room its own sweep measured travels its distance and its stopping distance with every return clear of the floor, or no nearer than it started |
| BrakingEnvelope.ResolvedConservatively | flyto_robotics/braking_envelope.py:217-276 | measurements only lengthen the latency and declarations only lower the deceleration, both within their clamps, and the latency beyond the period credit still covers every measured part but the scan period |
| BrakingEnvelope.ResolvedExactly | flyto_robotics/braking_envelope.py:217-276 | exactly what each measurement and declaration makes of latency and deceleration; a credit is given if and only if it is within the measured scan period and, with the rest of the measured total, within the latency |
| BrakingEnvelope.ScanStaleLimit | flyto_robotics/braking_envelope.py:359-385 | the limit never exceeds the rate limit, the ceiling, or, when bound to the floor, the blind time to it |
| BrakingEnvelope.StaleLimitExactlyWhen | flyto_robotics/braking_envelope.py:359-385 | an age is within the limit if and only if it is within what is configured or some measured interval covers it, and within the ceiling and the blind time where those bind |
| BrakingEnvelope.BlindTimeLeavesRoom | flyto_robotics/braking_envelope.py:340-356 | an age within the blind time, judged at a speed at least the robot's, leaves the stopping distance and all that age and one poll use beyond the credit |
| BrakingEnvelope.BlindTimeIsExact | flyto_robotics/braking_envelope.py:340-356 | judged at the robot's own speed the bound is exact: an age is within it if and only if one more poll still leaves the stopping distance |
| BrakingGuard.DriveGuard.Judge | flyto_robotics/generic_ros2_adapter.py:1137-1177 | one scan: blind, clearance or slower speed, with the latest and the least room seen, as the guard's function says |
| BrakingGuard.ScanTripsExactlyWhen | flyto_robotics/generic_ros2_adapter.py:1137-1177 | a scan trips if and only if it cannot be read, or the room it shows is at most the stopping distance of the faster of the guard's and the measured speed, or a drive that can be slowed could not stop there from even the slowest; then as blind or as clearance |
| BrakingGuard.ScanSlowsExactlyWhen | flyto_robotics/generic_ros2_adapter.py:1156-1177 | a scan that trips nothing asks for a slower speed if and only if the drive can be re-sent, the speed a clear step under its own is the fraction of could not stop in the room, and the last slow-down is long enough ago; what it asks for is the given fraction of the fastest speed that can stop there, and can itself |
| BrakingGuard.ScanNotesRoom | flyto_robotics/generic_ros2_adapter.py:1137-1155 | the latest room and the least room seen are those of the readable scans |
| BrakingGuard.DriveGuard.CheckScanFresh | flyto_robotics/generic_ros2_adapter.py:1180-1221 | a waiter's look: a receipt younger than one poll is left to the scan's own check, an older one trips past the stale limit |
| BrakingGuard.LookTripsExactlyWhen | flyto_robotics/generic_ros2_adapter.py:1180-1221 | a look trips if and only if no scan ever came, or the last one is older than a poll and than what the rates, the ceiling or the room allow |
| BrakingGuard.CheckGuards | flyto_robotics/generic_ros2_adapter.py:1133-1178 | every guarded drive is judged on the same scan and none affects another |
| GuardRun.StopsWithinOverrun | flyto_robotics/generic_ros2_adapter.py:1133-1221 | over every run of scans and looks that ends in a trip, whatever the credit, the robot travels at most speed times what two polls exceed the credit past the room the last passed scan showed |
| GuardRun.TrippedRunStaysClear | flyto_robotics/generic_ros2_adapter.py:1133-1221 | with credit for two polls, over every such run and scan timing, no return ever comes nearer than the smaller of the floor and its range when the run began |
| GuardRun.PlannedDriveNeverBreachesFloor | flyto_robotics/generic_ros2_adapter.py:1133-1221 | end to end: a drive planned from its sweep's room and watched by its guard comes to rest, tripped or at its planned stop, with every return that was outside the floor still outside it |
| GuardRun.CreditUnderTwoPollsBreaches | flyto_robotics/generic_ros2_adapter.py:1188-1189 | for every profile whose credit is under two polls there is a drive within its budget whose stale trip leaves a return inside the floor |
| GuardRun.RunsStayClearExactlyWhen | flyto_robotics/generic_ros2_adapter.py:1133-1221 | over every drive, set of returns and timing of scans and looks, tripped runs of a profile leave no return nearer than the floor or its range at the start if and only if the credit covers two polls, there is no floor to keep, or the credit exceeds the latency, which no budget allows |
| DeviceEvent.ParseIdempotent | flyto_robotics/device_events.py:770-841 | an event read back from its own JSON is itself: every normalisation is idempotent and the bound hash agrees |
| EventAcceptance.AcceptedExactlyWhen | flyto_robotics/device_events.py:770-841 | said of the value alone: it is accepted if and only if it is an object of exactly the required and some of the optional fields, with identifiers and codes of their patterns, at most sixteen of those, sequence, vocabulary and time in range, a message of at most 200 characters without control characters that is no secret, a redaction block and a hash that, where given, agree, and a size within 16384 bytes; and it is then exactly the event it says |
| EventAcceptance.MessageIsShown | flyto_robotics/device_events.py:499-511 | a message is accepted if and only if it is null or a text without control characters that, its whitespace collapsed, has at most 200 characters and is no secret |
| EventAcceptance.RedactionIsFit | flyto_robotics/device_events.py:576-617 | a redaction block is accepted if and only if every field it has says what the stored block will, or leaves free text open |
| DeviceEvent.ActionCodesIdempotent | flyto_robotics/device_events.py:513-518 | parsing the action codes kept of a list gives the same codes |
| DeviceEvent.DistinctKeepsFirst | flyto_robotics/device_events.py:513-518 | later codes only add to what earlier ones gave, so each is kept where it first stands |
| DeviceEvent.MessageIdempotent | flyto_robotics/device_events.py:499-511 | a public message, collapsed and bounded, is accepted again as it is |
| Text.CollapseIdempotent | flyto_robotics/device_events.py:499-511 | collapsing the whitespace of a message twice is collapsing it once |
| Text.WordsSplitAtSpaces | flyto_robotics/device_events.py:499-511 | text on either side of a whitespace is split into words on its own |
| Text.WordIsItsOwn | flyto_robotics/device_events.py:499-511 | a run without whitespace is its own only word, which with the split settles every text's words |
| Text.StripIdempotent | flyto_robotics/ai_planner.py:214-217 | stripping leaves nothing to strip |
| Text.StripTakesSpaces | flyto_robotics/ai_planner.py:214-217 | stripping takes off whitespace and nothing else, and all there is at either end |
| CanonicalJson.EncodePrefix | flyto_robotics/device_events.py:619-627 | nothing is lost: two values with the same text, whatever delimited bytes follow them, are the same value, key order, escapes, UTF-8, integers and floats included |
| CanonicalJson.InOrder | flyto_robotics/device_events.py:619-627 | every key of an object is written once, in the order of code points |
| CanonicalJson.EncodeHasNoNewline | flyto_robotics/device_events.py:998-1000 | the text of any value is one line |
| CanonicalJson.RecordSize | flyto_robotics/device_events.py:180-185 | framing an event as a record costs thirty bytes and the digits of its position |
| CanonicalJson.HeaderSize | flyto_robotics/device_events.py:990-995 | a header costs its contract, its identity and 43 bytes more |
| Cursor.CursorReadsBackExactlyWhen | flyto_robotics/device_events.py:843-884 | a cursor decodes to what it was issued for if and only if its position is below ten to the sixteenth, and is refused otherwise |
| Cursor.CursorsDistinct | flyto_robotics/device_events.py:843-864 | two positions of one journal never share a cursor |
| Decimal.DecimalRoundTrip | flyto_robotics/device_events.py:847-864 | a printed position reads back and has no leading zero, which the cursor pattern demands |
| Lines.SplitJoin | flyto_robotics/device_events.py:1181-1206 | newline-free lines written with their newlines split back into themselves with nothing unfinished |
| Lines.SplitConcat | flyto_robotics/device_events.py:1228-1236 | splitting distributes over concatenation: adding bytes to a file changes only its last piece |
| Journal.StoredLoads | flyto_robotics/device_events.py:1181-1206 | the bytes of a journal load again, to exactly the header and records they were written from |
| JournalFiles.LoadsExactlyWhen | flyto_robotics/device_events.py:1181-1226 | whoever wrote it, a file loads as a journal if and only if it is within its bound, ends with a line, and its lines are a header of that identity and records of accepted events whose numbers follow without a break |
| JournalFiles.HeaderDecodes | flyto_robotics/device_events.py:1288-1300 | a line is read as a header if and only if it names a journal by 32 hexadecimal digits and holds nothing else |
| JournalFiles.RecordDecodes | flyto_robotics/device_events.py:1310-1323 | a line is read as a record if and only if it holds a position from one on and an event the contract accepts, and nothing else |
| JournalFiles.BlankLinesAreSkipped | flyto_robotics/device_events.py:1201 | blank lines are no lines, wherever they stand |
| Journal.StoredSize | flyto_robotics/device_events.py:1257-1272 | the length of the file is what retention counts |
| Journal.Retain | flyto_robotics/device_events.py:1257-1272 | the loop drops the oldest lines the drop count says and tells whether it dropped any |
| Journal.DropCount | flyto_robotics/device_events.py:1257-1272 | never all of the records are dropped, and dropping stops only when both bounds hold or one record is left |
| Journal.RetainsLongestSuffix | flyto_robotics/device_events.py:1257-1272 | when the newest line fits on its own, what is kept is the longest suffix within both bounds; the early exit never leaves a bound violated |
| Journal.SelectPage | flyto_robotics/device_events.py:1145-1177 | the selection loop returns the page the specification gives, or its error |
| Journal.SelectSkips | flyto_robotics/device_events.py:1145-1177 | records at or before the position are passed over and nothing else is |
| Journal.SelectTakesLargestPage | flyto_robotics/device_events.py:1145-1177 | what is selected is the largest run of waiting records within both bounds |
| Journal.PageIsLargest | flyto_robotics/device_events.py:1145-1177 | a page exceeds neither bound and one more record would exceed one |
| JournalStore.VerifyCursorTag | flyto_robotics/device_events.py:1126-1143 | a cursor's tag is accepted exactly when it is that of the retained record at its position, or its position is not retained or the start |
| JournalStore.DeviceEventJournal.Open | flyto_robotics/device_events.py:955-978 | bounds outside their hard limits are refused; otherwise an empty journal |
| JournalStore.DeviceEventJournal.Configured | flyto_robotics/device_events.py:955-978 | a journal within the hard limits starts with no file and nothing appended |
| JournalStore.DeviceEventJournal.Append | flyto_robotics/device_events.py:980-1013 | succeeds exactly for an event the contract accepts that fits on its own; then the history grows by that record, the file is exactly the header and the longest suffix within both bounds, and a failure changes nothing; the file never outgrows its byte bound |
| JournalStore.DeviceEventJournal.Publish | flyto_robotics/device_events.py:1001-1013 | a first append or one that drops records rewrites the file, any other adds one line; either way the file is the kept lines |
| JournalStore.DeviceEventJournal.ReadBack | flyto_robotics/device_events.py:1181-1206 | a valid journal's file loads as its identity and its retained records |
| JournalStore.DeviceEventJournal.Export | flyto_robotics/device_events.py:1027-1097 | an export checks cursor, bounds, identity, position and tag in the code's order and returns the page the specification gives |
| JournalStore.AppendStep | flyto_robotics/device_events.py:980-1013 | after an append the retained records are the longest suffix of everything ever appended within both bounds and end with the newest |
| JournalPages.ContractIsSound | flyto_robotics/device_events.py:770-841 | the event contract meets what the journal needs: whatever it parses is stored small enough and reads back as itself |
| JournalPages.RecordFitsPage | flyto_robotics/device_events.py:635-684 | one maximal record fits the smallest page a caller may ask for while positions have at most 33 digits, so selection never has to refuse |
| JournalPages.ExportGivesRest | flyto_robotics/device_events.py:1027-1097 | from an issued cursor the page is the largest run within the bounds of what is left after it, with a gap exactly when retention dropped some of that |
| JournalPages.IssuedCursorRefusedExactlyWhen | flyto_robotics/device_events.py:866-884 | a cursor the journal issued is refused if and only if its position has outgrown the sixteen digits of the cursor pattern |
| JournalCursors.CursorResumesExactlyWhen | flyto_robotics/device_events.py:1027-1097 | of every cursor text that can be read, whoever issued it: an export succeeds if and only if the cursor names this journal or none, its position has been reached and, where that record is retained, its tag is that record's; then it is the largest page after that position with its journal, cursor and gap; otherwise the error of the first of these that fails |
| JournalCursors.RefusedUnread | flyto_robotics/device_events.py:1056-1058 | an unreadable cursor, then a limit and then a byte bound out of range are refused whatever the journal holds |
| JournalCursors.UnwrittenServesExactlyWhen | flyto_robotics/device_events.py:1063-1088 | a journal nothing was written to serves the empty cursor alone; every other that can be read is another journal's |
| JournalReader.ReaderIsNeverMisled | flyto_robotics/device_events.py:1027-1097 | over every interleaving of appends with retention and reads no issued cursor is refused, records arrive strictly increasing and as appended, whatever was skipped had been dropped and a page said so, and without a gap the reader holds exactly the records up to its cursor |
| JournalReader.PageAccountsForMissing | flyto_robotics/device_events.py:1027-1097 | what a page leaves missing was missing before or lies in what retention dropped ahead of it, and then the page sets its gap |
| JournalReader.DrainTerminates | flyto_robotics/device_events.py:1027-1097 | exporting again from each returned cursor under any legal bounds comes to a complete page |
| JournalReader.DrainIsComplete | flyto_robotics/device_events.py:1145-1177 | a drain concatenates to exactly the retained records after the cursor in order, no page exceeds its bounds or is empty while a record waits |
| JournalReader.JournalKeepsPromises | flyto_robotics/device_events.py:932-1097 | the journal is such a service as long as positions fit a cursor |
| JournalReader.NewReader | flyto_robotics/device_events.py:866-884 | a reader that has no cursor yet is consistent with any written journal |
| JournalSession.Append | flyto_robotics/device_events.py:980-1013 | an append of the journal object is a legal append of the reader's world, or changes nothing |
| JournalSession.Export | flyto_robotics/device_events.py:1027-1097 | an export of the journal object is the one the reader is served |
| JournalSession.Run | flyto_robotics/device_events.py:932-1097 | any sequence of deliveries and fetches on a written journal object leaves its reader consistent: no fetch fails, and what ReaderIsNeverMisled says holds of the object |
| JournalExample.ExampleIsSound | flyto_robotics/device_events.py:619-627 | an environment exists that meets every law the journal is proved from: the canonical text has a decoder because it loses nothing |
| JournalExample.ExampleIsStored | flyto_robotics/device_events.py:770-841 | its contract accepts an event, which a journal can hold |
| JournalExample.ServingKnowsExample | flyto_robotics/device_events.py:980-1013 | journals of every length below ten to the sixteenth are known to the service, with a new reader consistent |
| JournalExample.ExampleGrows | flyto_robotics/device_events.py:980-1013 | one more append to such a journal is a legal step of its reader's world |
| JournalExample.IssuedCursorIsRefused | flyto_robotics/device_events.py:866-884 | a journal of one retained record, after ten to the sixteenth appends, refuses the cursor it issued for it |
| ArmProfile.ParseGripper | flyto_robotics/arm_adapter.py:243-291 | a parsed gripper travels its joint's limits, releases within them, and its object gap and release are far enough from closed |
| ArmProfile.ParsesExactlyWhen | flyto_robotics/arm_adapter.py:243-291 | exactly which gripper tables are accepted, and that closed is the lower limit and open the upper one if and only if it closes toward the minimum |
| ArmProfile.ReleaseRangeIsOpen | flyto_robotics/arm_adapter.py:154-167 | in either closing direction every release target is within the joint's limits and at least as open as the release position |
| ArmBus.SimulatedArmBus.ReadPositions | flyto_robotics/arm_bus.py:129-161 | a read moves the servos, lets every object act in turn and reports what is not missing; nothing when disconnected; an object on a joint the bus does not have stops it there, with everything before it done |
| ArmBus.SimulatedArmBus.MoveServos | flyto_robotics/arm_bus.py:152-159 | the loop over the goals moves each joint once, in any order |
| ArmBus.SimulatedArmBus.ApplyAll | flyto_robotics/arm_bus.py:129-144 | the loop over the objects blocks, slips or lets go as the specification says, up to the first on an unknown joint |
| ArmAdapter.Complete | flyto_robotics/arm_adapter.py:427-435 | the loop over the declared joints takes each one's value, or fails at the first missing one |
| ArmAdapter.Drift | flyto_robotics/arm_adapter.py:715-719 | the loop finds the largest distance of any joint from its reference |
| ArmAdapter.Advance | flyto_robotics/arm_adapter.py:679-681 | the loop moves every joint's setpoint one rate-limited step toward its target, once |
| ArmAdapter.Note | flyto_robotics/arm_adapter.py:689-692 | exactly the joints that moved enough take a new reference and a new time |
| ArmAdapter.SerialArmAdapter.Sample | flyto_robotics/arm_adapter.py:715-719 | the sampling loop gives the last pose and the largest drift of any joint in any sample |
| ArmAdapter.Verdict | flyto_robotics/arm_adapter.py:693-707 | a stall is looked for before an arrival |
| ArmAdapter.SerialArmAdapter.MovePass | flyto_robotics/arm_adapter.py:665-707 | one time around a move's loop is one pass of the specification: stop flag, deadline, step, stop flag again, write, sleep, read, progress, stall, arrival |
| ArmAdapter.SerialArmAdapter.MoveLoop | flyto_robotics/arm_adapter.py:665-707 | the loop ends, as the specification's loop does |
| ArmAdapter.SerialArmAdapter.GripOnce | flyto_robotics/arm_adapter.py:868-933 | one time around a grip's loop is one pass of the specification |
| ArmAdapter.SerialArmAdapter.GripLoop | flyto_robotics/arm_adapter.py:858-933 | the loop of a grasp or release ends, as the specification's does |
| ArmAdapter.SerialArmAdapter.SampleJaws | flyto_robotics/arm_adapter.py:942-946 | the jaws' last position and largest drift over the hold |
| ArmAdapter.SerialArmAdapter.Invoke | flyto_robotics/arm_adapter.py:496-523 | a halt always runs, a kept call id gets its result again, anything else is dispatched and kept unless refused |
| ArmSetpoints.StepFollowsLine | flyto_robotics/arm_adapter.py:679-681 | the loop's rate-limited step is the next point of the straight line from the measured start to the target |
| ArmSetpoints.LineIsRateLimited | flyto_robotics/arm_adapter.py:679-681 | every setpoint lies between start and target, at most one step from the last, and is the target exactly from the write its gap needs on |
| ArmSafety.PassTrace | flyto_robotics/arm_adapter.py:665-688 | a pass that finds a stop requested, at the top or under the lock, writes nothing and cancels; any other writes the one advanced setpoint |
| ArmSafety.LoopWritesLine | flyto_robotics/arm_adapter.py:665-707 | whatever the bus reports and whenever a stop is asked for, a move's loop writes the points of the line one after another and nothing else, and arrives only with the target written and read back within tolerance; a cancelled loop may have advanced one point it did not write |
| ArmSafety.MoveStaysInLimits | flyto_robotics/arm_adapter.py:616-707 | whatever the bus reports, every goal a move writes is within the declared limits, the hold before torque included |
| ArmSafety.GripLoopWritesLine | flyto_robotics/arm_adapter.py:878-901 | so do the jaws, whenever a stop is asked for |
| ArmSafety.GripStaysInLimits | flyto_robotics/arm_adapter.py:838-933 | every goal a grasp or release writes is within the declared limits |
| ArmSafety.InvokeStaysInLimits | flyto_robotics/arm_adapter.py:496-523 | whatever is called and whatever the bus reports, no call writes a motion goal outside the limits or for an undeclared joint |
| ArmLatches.RunsStayInLimits | flyto_robotics/arm_adapter.py:496-603 | nor does any run of calls |
| ArmLatches.UnacceptedRunsNeverMove | flyto_robotics/arm_adapter.py:558-572 | while a profile's limits are not accepted no run of calls writes a motion goal, turns a torque on for a motion or ends a motion |
| ArmStarts.StartsExactlyWhen | flyto_robotics/arm_adapter.py:616-656 | over any bus a motion starts if and only if every joint is read within its limits, the pose is one it may start from, and torque is or comes on; it starts from the pose read, and one that may not start asks nothing of the bus |
| ArmStarts.EnablesExactlyWhen | flyto_robotics/arm_adapter.py:631-645 | with any torque off the goals become the pose read and only then is torque turned on, so nothing moves when it comes on; it is on if and only if each step was answered and all of it reads back on |
| ArmContracts.MoveRow | flyto_robotics/arm_contracts.py:86-140 | the loop publishes one bounded parameter and one arrival spec per joint, and the time budget |
| ArmContracts.HaltRow | flyto_robotics/arm_contracts.py:143-183 | in hold mode one held-still spec per joint, none for torque off |
| ArmContracts.RowBoundsAreTargets | flyto_robotics/arm_contracts.py:86-101 | the arguments within the row's published bounds are exactly those the adapter accepts as targets |
| ArmContracts.ReleaseBoundsAreTargets | flyto_robotics/arm_contracts.py:248-264 | the arguments within a release row's bounds are exactly those the adapter accepts as a release target |
| ArmEvidence.CompletedMoveArrived | flyto_robotics/arm_adapter.py:665-729 | a move completes only within tolerance of every target and with every joint staying within the settle drift, and reports the poses it judged |
| ArmEvidence.CompletedMoveMeetsItsRow | flyto_robotics/arm_contracts.py:86-115 | a completed move satisfies every arrival spec its row publishes if and only if no joint is named `frame` |
| ArmEvidence.ConfirmedHoldStayed | flyto_robotics/arm_adapter.py:1059-1094 | a stop confirmed in hold mode kept every joint within the stop drift of where it was held, and reports both poses |
| ArmEvidence.CompletedHaltMeetsItsRow | flyto_robotics/arm_contracts.py:143-156 | a completed halt satisfies every spec its row publishes under the same condition; a torque-off row publishes none |
| ArmEvidence.MaxDriftIsLeastBound | flyto_robotics/arm_adapter.py:715-719 | the drift reported bounds every joint's distance and is one of them |
| ArmGripEvidence.CompletedGraspGrips | flyto_robotics/arm_adapter.py:902-972 | a grasp completes only with the jaws stopped short of closed by the object gap and still there after the hold |
| ArmGripEvidence.GrippingIsNotClosed | flyto_robotics/arm_adapter.py:279-290 | the jaws of a completed grasp are never within position tolerance of closed, in either closing direction |
| ArmGripEvidence.CompletedGraspMeetsItsRow | flyto_robotics/arm_contracts.py:212-245 | a completed grasp satisfies both specs of its row if and only if its joint is not named `held` or the jaws moved exactly one radian; under a hold drift below one radian if and only if it is not so named |
| ArmGripEvidence.CompletedReleaseMeetsItsRow | flyto_robotics/arm_contracts.py:248-264 | a completed release satisfies its row if and only if its joint is not named `frame`, and leaves jaws the next grasp takes as open |
| ArmGripEvidence.ReleasedIsOpenEnough | flyto_robotics/arm_adapter.py:844-856 | in either closing direction jaws within tolerance of a release target read as open to the next grasp |
| ArmGripEvidence.GraspAfterRelease | flyto_robotics/arm_adapter.py:844-856 | a grasp that reads jaws a release left open is refused exactly when some joint reads outside its limits |
| ArmTiming.MoveEndsInTime | flyto_robotics/arm_contracts.py:112-125 | over any bus a move ends within its row's timeout on every exit, cancelled included, when the row covers the longest move: every pass the deadline allows and the settling |
| ArmOverrun.MovesEndInTimeExactlyWhen | flyto_robotics/arm_contracts.py:112-125 | every move on every such bus ends within its row's timeout if and only if the row covers the longest move |
| ArmOverrun.LongestMoveHappens | flyto_robotics/arm_adapter.py:658-729 | for every profile a bus on which a move completes and takes exactly that long |
| ArmOverrun.SlowProfileOverruns | flyto_robotics/arm_contracts.py:112-125 | a profile with a period of ten seconds has a move that completes after its row's timeout |
| ArmTiming.ShortPeriodIsCovered | flyto_robotics/arm_contracts.py:112-125 | a period of at most two seconds and a stop's time is short enough: only one of the settling and the stop follows the loop |
| ArmTiming.GripEndsInTime | flyto_robotics/arm_contracts.py:186-209 | over any bus a grasp or release ends within its row's timeout on every exit, cancelled, or slipping and then stopping, included, when the row covers the longest grip that can happen |
| ArmGripOverrun.GripsEndInTimeExactlyWhen | flyto_robotics/arm_contracts.py:186-264 | every grasp, or every release, on every such bus ends within its row's timeout if and only if the row covers the longest one that can happen |
| ArmGripOverrun.LongestGripHappens | flyto_robotics/arm_adapter.py:862-1003 | for every profile a bus on which a release takes every pass, arrives in the last and completes; and, if a stall window fits into the passes after the first, one on which a grasp makes contact in the last pass, slips and is stopped, taking exactly the longest time |
| ArmGripOverrun.SlowGripsOverrun | flyto_robotics/arm_contracts.py:186-264 | a profile with a period of ten seconds has a grasp and a release that end after their rows' timeouts |
| ArmTiming.ShortPeriodCoversGrips | flyto_robotics/arm_contracts.py:186-209 | a period of at most two seconds is short enough for any grip |
| ArmTiming.HaltEndsInTime | flyto_robotics/arm_contracts.py:157-178 | a halt always ends within its row's timeout |
| ArmTiming.LoopTakes | flyto_robotics/arm_adapter.py:658-707 | a move's loop is left at most one period after its deadline |
| ArmTiming.LoopTakesPasses | flyto_robotics/arm_adapter.py:658-707 | and takes at most the passes that may start by the deadline |
| ArmTiming.GripLoopTakes | flyto_robotics/arm_adapter.py:862-933 | so is a grip's |
| ArmTiming.GripLoopTakesPasses | flyto_robotics/arm_adapter.py:862-933 | and takes at most the passes that may start by the deadline, ending in contact at the earliest a pass and a stall window after it began |
| ArmMotion.OnePassLess | flyto_robotics/arm_adapter.py:665-688 | each pass leaves fewer passes before the deadline: the loops end on every bus |
| ArmLiveness.LineEndsWhenNeeded | flyto_robotics/arm_adapter.py:679-681 | the setpoint is the target exactly from the largest gap over the step, rounded up, at least one |
| ArmLiveness.LoopArrivesInTime | flyto_robotics/arm_adapter.py:665-707 | on a healthy simulated bus the loop arrives with the writes needed if and only if the last of them starts by the deadline |
| ArmLiveness.HealthyMove | flyto_robotics/arm_adapter.py:647-729 | a move on a healthy simulated bus completes with every joint exactly at target after exactly those writes if their time fits the deadline, and times out otherwise |
| ArmLiveness.HealthyMoveCompletes | flyto_robotics/arm_adapter.py:605-614 | the call itself, given accepted limits, in-limit targets and no latched fault, completes if and only if its writes fit the deadline |
| ArmLiveness.NewBusIsHealthy | flyto_robotics/arm_bus.py:83-110 | a new simulated bus whose servos keep up is such a bus, whatever its pose and torque |
| ArmGraspLiveness.LoopMakesContact | flyto_robotics/arm_adapter.py:868-933 | closing on an object that stays put, the loop never mistakes the way for a stall, an empty grip or the target: it ends after the first pass in contact, jaws at the object, if that pass starts by the deadline, and out of time otherwise |
| ArmGraspLiveness.GraspOfObject | flyto_robotics/arm_adapter.py:838-972 | on a healthy simulated bus with one object farther from closed than the object gap, a grasp from open jaws completes holding it if a pass in contact starts by the deadline, and times out holding nothing otherwise |
| ArmGraspLiveness.GraspCompletesExactlyWhen | flyto_robotics/arm_adapter.py:789-813 | the call itself, with accepted limits and no latched fault, completes if and only if a pass in contact starts by the deadline |
| ArmGraspLiveness.GraspHoldsObject | flyto_robotics/arm_adapter.py:838-972 | a deadline that allows closing all the way and a stall window more is enough for the grasp to complete |
| ArmGraspLiveness.NewBusOffers | flyto_robotics/arm_bus.py:83-127 | a new simulated bus with an object placed between its jaws is such a bus |
| ArmExample.OneJointMoves | flyto_robotics/arm_contracts.py:86-115 | whatever its joint is named a one-joint arm completes a move, and meets its row's evidence if and only if the name is not `frame` |
| ArmExample.OneJointGrasps | flyto_robotics/arm_contracts.py:212-245 | and a grasp that holds its object, with evidence met if and only if the name is not `held` |
| ArmGraspLiveness.ReadWithObject | flyto_robotics/arm_bus.py:129-161 | reading moves the jaws where their servo takes them but never past the object, which is met when they reach it and let go of only after that |
| ArmRuns.WatcherIsRight | flyto_robotics/arm_adapter.py:558-572 | a watcher of the trace that never objected means: no motion write after a bus fault without a complete state read between, none after an unconfirmed stop without a confirmed one, no call id ends two motions |
| ArmLatches.RunsAreSafe | flyto_robotics/arm_adapter.py:496-603 | over any bus and any run of calls the trace has those three properties |
| ArmLatches.InvokeKeeps | flyto_robotics/arm_adapter.py:496-523 | every call keeps the latches agreeing with the trace and the kept results covering every motion that ended |
| ArmLatches.StopKeeps | flyto_robotics/arm_adapter.py:1012-1046 | a stop latches how it ended, from any state |
| ArmStops.TorqueOffStopsExactlyWhen | flyto_robotics/arm_adapter.py:1012-1057 | over any bus a torque-off stop's one command is to turn torque off and it writes no goal; it is confirmed if and only if that was answered and the reading after it has every declared joint off |
| ArmStops.SimulatedTorqueOff | flyto_robotics/arm_bus.py:177-183 | on the simulated bus it leaves every torque off, and is confirmed if and only if the bus is connected and either heeds it or had every declared joint's torque off already |
| ArmStops.HoldStopsExactlyWhen | flyto_robotics/arm_adapter.py:1059-1094 | over any bus a holding stop is confirmed if and only if the pose was read, it was written back as the goal, torque was turned on and all of it reads on, and every sample keeps every joint within the stop drift of that pose; its trace is then just that write and that command |
| ArmStops.MoveStopsExactlyWhen | flyto_robotics/arm_adapter.py:647-746 | over any bus a move carries a stop's report if and only if it stalled or timed out; then that stop is the last thing in its trace and the report is that stop's own |
| ArmStops.GripStopsExactlyWhen | flyto_robotics/arm_adapter.py:838-972 | over any bus a grip that stalled, timed out or slipped ends with a stop and carries that stop's report; any other that does found no object, and one that found none without a stop had closed all the way |
| ArmStops.StateReadExactlyWhen | flyto_robotics/arm_adapter.py:452-494 | a state read completes, reports the positions read and forgets that the state was unknown if and only if positions and torques both come complete; otherwise it says whether the bus or its answer was at fault |
| ArmStalls.MoveStallsRightly | flyto_robotics/arm_adapter.py:686-702 | over any bus, reading by reading: a move is given up only at a reading by which some joint short of its setpoint has made no progress for the window, naming only such joints, and at every reading each other joint is at its setpoint or made progress within the window |
| ArmStalls.GripStallsRightly | flyto_robotics/arm_adapter.py:900-932 | over any bus the jaws' loop ends by what it read either at the target or stuck short of their setpoint for the window, as a stall, as closed on too little, or as on an object only after closing by some progress to no less than its least width; and while it goes on they are neither |
| ArmLatches.RefusedWroteNothing | flyto_robotics/arm_adapter.py:555-629 | a refused call wrote nothing to the bus, took no time, left both latches as they were and is not kept |
| ArmLatches.KeptResultIsFinal | flyto_robotics/arm_adapter.py:500-503 | a call id that has a result keeps it through any later calls |
| ArmInterleaving.StopsWin | flyto_robotics/arm_adapter.py:662-684 | from the top of a setpoint loop with the flag set for any stop not over, over every interleaving with any number of safe stops: once such a stop has held the lock no setpoint is written, after the flag is set at most the one already checked is, and once any stop wrote a hold pose the last goal on the bus is a stop's hold pose |
| ArmInterleaving.StopsHonouredExactlyWhen | flyto_robotics/arm_adapter.py:662-684 | a motion at the top of its loop, wherever its stops are, honours every stop over every interleaving if and only if the flag is set whenever one is not over |
| ArmInterleaving.ClearedStopsHonouredExactlyWhen | flyto_robotics/arm_adapter.py:574-579 | a motion that clears the flag honours every stop if and only if none was under way or waiting then |
| ArmInterleaving.NoSetpointOnceHeld | flyto_robotics/arm_adapter.py:1007-1018 | once a safe stop holds the bus lock nothing that happens writes another setpoint |
| ArmInterleaving.OneSetpointAfterRequest | flyto_robotics/arm_adapter.py:682-685 | after the flag is set at most one more setpoint is written, and only if its check under the lock had passed |
| ArmInterleaving.StepKeeps | flyto_robotics/arm_adapter.py:878-896 | every step of every thread keeps the lock's owner, the flag and the order of writes consistent |
| ArmInterleaving.RequestBeforeClearIsLost | flyto_robotics/arm_adapter.py:574-579 | a run in which a stop requested before the motion clears the flag completes and the motion still writes over its hold |
| ArmInterleaving.UnflaggedStopIsLost | flyto_robotics/arm_adapter.py:682-685 | from any top of a loop with a stop not over and the flag clear, that stop can be carried out whole and the next setpoint written after it |
| GoalReplacement.RosbridgeGoals.HandleMessage | flyto_robotics/generic_ros2_adapter.py:4029-4056 | a result or feedback of a goal that is not the call's current one changes nothing; any other is stored under its call |
| GoalReplacement.RosbridgeGoals.BeginSlowDown | flyto_robotics/generic_ros2_adapter.py:4818-4859 | a due slow-down takes the next id, becomes current and remembers what it replaces; near the end it only clears the request |
| GoalDistances.SlowDownBeginsExactlyWhen | flyto_robotics/generic_ros2_adapter.py:4818-4859 | a slow-down begins if and only if a slower speed is due on an active drive that may be re-sent and more than 0.02 m of it is left; what it sends is that distance at that speed |
| GoalDistances.ReplacementsAskForTheRest | flyto_robotics/generic_ros2_adapter.py:4818-4884 | over every run, by its history: each replacement begun asks for the distance of the drive the call started with less what had been travelled, more than 0.02 m, at a speed a scan had allowed with nothing since to take it back |
| GoalReplacement.RosbridgeGoals.RollBack | flyto_robotics/generic_ros2_adapter.py:4873-4878 | a failed send makes the replaced goal current again and disowns the new id |
| GoalReplacement.RosbridgeGoals.ForgetGoalIds | flyto_robotics/generic_ros2_adapter.py:4880-4884 | the loop lets go of exactly the call's ids |
| GoalRuns.AnswersComeFromDrivers | flyto_robotics/generic_ros2_adapter.py:4755-4792 | over every run, a result that answers a call came from the goal driving the call when the message was handled, by the history of begun and failed sends; replacement ids never repeat and are no call's own |
| GoalRuns.ReplacedGoalEndsNothing | flyto_robotics/generic_ros2_adapter.py:4040-4047 | over every run, a result of a goal of the call that is not driving it changes the result of no call |
| GoalRuns.AcceptedGoalAnswersExactlyWhen | flyto_robotics/generic_ros2_adapter.py:4040-4054 | over every run, the result of the goal the server last accepted is stored if and only if no replacement is being sent |
| GoalRuns.ResultLostInFailedSend | flyto_robotics/generic_ros2_adapter.py:4873-4878 | for every re-sendable drive a run in which the running goal's result is dropped, the send fails and nothing answers the call |
| GoalRuns.SlowIdsDistinct | flyto_robotics/generic_ros2_adapter.py:4838-4842 | replacement ids of calls without the mark differ by call and by number |
| GoalRuns.StepKeeps | flyto_robotics/generic_ros2_adapter.py:4818-4884 | every step keeps the books naming the goal the history says is driving |
| GoalRuns.ReplacementsAreSlower | flyto_robotics/generic_ros2_adapter.py:1172-1177 | over every run each replacement is under nine tenths of the speed before it |
| FacilityCatalog.SelectionIsFirst | flyto_robotics/facility_resources.py:156-202 | a selection exists exactly when a healthy resource of the kind covers the zone, comes before every other such resource, and lists all of them |
| FacilityCatalog.LocalFirst | flyto_robotics/facility_resources.py:186-202 | a fallback serves a zone exactly when no healthy resource of the kind is in it |
| FacilityCatalog.SelectionIgnoresCatalogOrder | flyto_robotics/facility_resources.py:156-202 | the order in which a catalog lists its resources never matters |
| FacilityRuntime.FacilityResourceRuntime.Handoff | flyto_robotics/facility_resources.py:299-388 | a handoff does what the specification says on every path, including what it keeps when it raises |
| FacilityRuntime.FacilityResourceRuntime.SetHealth | flyto_robotics/facility_resources.py:245-297 | so does a change of health |
| FacilityRuntime.FacilityResourceRuntime.Resource | flyto_robotics/facility_resources.py:433-438 | the loop finds the first resource of that id or says why not |
| FacilityReplay.HandoffRebuildsExactlyWhen | flyto_robotics/facility_resources.py:299-388 | after any handoff, returned or raised, replaying the events rebuilds leases and health if and only if it did not bind a resource without room, time or a reason to record it |
| FacilityReplay.SetHealthRebuildsExactlyWhen | flyto_robotics/facility_resources.py:245-297 | after any change of health, returned or raised, replaying rebuilds both if and only if what it changed could be recorded |
| FacilityEvents.HandoffReturnsExactlyWhen | flyto_robotics/facility_resources.py:299-388 | a handoff returns if and only if kind and zone are identifiers, its dependency can be read, some resource serves, and there is time, a reason and room for the events of that one |
| FacilityEvents.ReturnedHandoffTells | flyto_robotics/facility_resources.py:299-388 | it then leases the first resource of all that serve, under the dependency stated or else that resource's own, leaves every other kind as it was, and its events, numbered on, name the adapter, the endpoint, the candidates in order and what was let go |
| FacilityEvents.ReturnedHealthTells | flyto_robotics/facility_resources.py:245-297 | a change of health that returns takes effect on that resource alone, ends its lease and no other when it is lost, and tells of the change, of whether another resource serves, and of the release |
| FacilityEvents.FrameTells | flyto_robotics/facility_resources.py:231-243 | a frame is told of if and only if it is the first of a known resource's stream and there is time and room |
| FacilityEvents.StreamsAnnouncedOnce | flyto_robotics/facility_resources.py:231-243 | over any run of calls, returning or raising, each stream is announced at most once |
| FacilityRuns.RunsReplay | flyto_robotics/facility_resources.py:205-388 | in every run whose calls all return (or raise before changing anything) replaying rebuilds leases and health, each lease event fits the ones before it, and every lease is a healthy resource of its kind covering its zone |
| FacilityRuns.HandoffServes | flyto_robotics/facility_resources.py:299-388 | a handoff leaves only leases that serve, even when it raises |
| FacilityRuns.SetHealthServes | flyto_robotics/facility_resources.py:245-297 | a change of health that returns leaves only leases that serve |
| FacilityRuns.AcquiredThenReleased | flyto_robotics/facility_resources.py:342-379 | between two acquisitions of a kind lies a release of that kind |
| FacilityRuns.UnrecordedLease | flyto_robotics/facility_resources.py:351-370 | a handoff outside the run window binds a resource and records nothing |
| FacilityRuns.UnrecordedHealth | flyto_robotics/facility_resources.py:245-275 | a change of health outside the run window takes a resource down and records nothing |
| Capabilities.ValidatedIsIdempotent | flyto_robotics/capabilities.py:150-195 | normalising an argument twice is normalising it once, for every type of argument |
| Capabilities.ValidateArguments | flyto_robotics/capabilities.py:249-278 | the loops fill in, default and check the arguments as the specification says, conditions compared as Python compares: true, 1 and 1.0 are equal |
| Capabilities.FilledSettles | flyto_robotics/capabilities.py:257-267 | filled-in arguments are each normal, and none is missing that is required or has a default |
| Capabilities.ValidatedArgumentsStay | flyto_robotics/capabilities.py:249-278 | normalising the arguments of a call is idempotent for any definition whose defaults satisfy their own specs |
| PlanAcceptance.ArgumentAcceptedExactlyWhen | flyto_robotics/capabilities.py:150-195 | an argument is accepted if and only if, normalised, it meets its spec: a number within both bounds, a boolean, a safe text among the choices, a printable text |
| PlanAcceptance.ArgumentsAcceptedExactlyWhen | flyto_robotics/capabilities.py:249-278 | a call's arguments are accepted, and as what, if and only if their names are known, each given one meets its spec, none required is missing, each is held normalised or by default, and every one called for is there |
| PlanAcceptance.SpecsAreLast | flyto_robotics/capabilities.py:252 | of several specs of one name the last counts |
| PlanAcceptance.EqualByAmount | flyto_robotics/capabilities.py:268-277 | values are compared as Python has it: they are equal if and only if they are the same with every number and boolean taken by its amount, at any depth |
| PlanPolicy.CheckColors | flyto_robotics/ai_planner.py:237-267 | the loop accepts exactly the steps whose declared next colour differs from their own and is that of the next motion step, a line |
| PlanPolicy.NextMotion | flyto_robotics/ai_planner.py:249-256 | the first motion step after another one, or none |
| PlanPolicy.CheckApprovals | flyto_robotics/ai_planner.py:269-294 | the loop accepts exactly the steps whose asks and resumes pair up, one ask to one later resume with ids of their own and no motion between |
| PlanPolicy.ValidatePlanPolicy | flyto_robotics/ai_planner.py:229-294 | the checks accept exactly the plans the policy allows, where a plan that moves also ends in a safe stop |
| PlanCodec.ParsePlan | flyto_robotics/ai_planner.py:297-389 | parsing is the specification's, which judges the steps by the stated policy |
| PlanCodec.ParseSteps | flyto_robotics/ai_planner.py:332-372 | steps are parsed in order up to the first that fails |
| PlanCodec.StepReadsBack | flyto_robotics/ai_planner.py:332-372 | a parsed step printed and parsed again is the same step |
| PlanCodec.PlanReadsBack | flyto_robotics/ai_planner.py:429-450 | a parsed plan printed and parsed again is the same plan, for any registry whose defaults satisfy their own specs |
| PlanAcceptance.ParsedPlanMeets | flyto_robotics/ai_planner.py:297-389 | a parsed plan asks for nothing the registry does not declare: at most 64 steps of different names, allowed together, each of a registered capability in a bounded time with every argument within its spec |
| PlanAcceptance.StepAcceptedExactlyWhen | flyto_robotics/ai_planner.py:332-372 | a step is accepted, as this one, if and only if it is an object of the five fields that says it, of a registered capability, in a bounded time |
| PlanAcceptance.PlanAcceptedExactlyWhen | flyto_robotics/ai_planner.py:297-389 | an answer is accepted, as this plan, if and only if it is an object of the six fields that says it: its version, a known kind of source, at most 64 accepted steps of different names that are allowed together, and a goal that is not blank |
| FrameProgress.RecordsRise | flyto_robotics/camera_sources.py:293-307 | accepted counters strictly rise and stay within 63 bits |
| FrameProgress.NoneMissed | flyto_robotics/camera_sources.py:293-307 | every well-formed counter within 63 bits is at most the last accepted one: none that would beat it is missed |
| FrameProgress.RecordsAreSaid | flyto_robotics/camera_sources.py:291-307 | every accepted counter is one some line says |
| FrameProgress.FrameExactlyWhen | flyto_robotics/camera_sources.py:294-302 | a line is the counter of a number if and only if it says `frame=`, that number in decimal, zeros before it allowed, in at most 19 digits, and then carriage returns only |
| FrameProgress.TakeLines | flyto_robotics/camera_sources.py:291-307 | the loop takes every whole line of the buffer and leaves the unfinished rest |
| FrameProgress.ConsumeProgress | flyto_robotics/camera_sources.py:270-308 | reading accepts the counters the specification gives of bytes and of text, and proves a frame exactly when one was accepted and no read raised |
| FrameProgress.ChunksNeverMatter | flyto_robotics/camera_sources.py:36-39 | while lines are at most 3584 bytes any chunks of at most 512 bytes accept the same frames as splitting the whole stream |
| FrameProgress.ChunksNeverMatterExactlyWhen | flyto_robotics/camera_sources.py:287-290 | all streams whose lines are at most n bytes accept, in whatever chunks of at most 512 bytes, the frames of splitting the whole stream if and only if n is at most 3584 |
| FrameProgress.LineMisread | flyto_robotics/camera_sources.py:287-290 | a line of 3585 bytes that is no counter is accepted as one |

## Left out

- Rounding of floats, trigonometry and header timestamps: beams are points in the frame of travel and a non-finite number is what it does to a comparison.
- PlannedDriveNeverBreachesFloor: covers planned governance, a positive fraction (at infinite room a fraction of zero has no real value), static returns every readable scan shows, and a look at least every poll; the drop of speed of a pre-empted drive is not instantaneous and is left to the guard's own rule.
- `LatencyEstimator` and the navigation-leg guard: windows of samples and a second, simpler check.
- Occlusion and moving obstacles: a scan shows every static return or cannot be read.
- The journal's file descriptors, permissions, links, locks and syncing, and crashes between two writes: one locked writer at a time over a byte sequence.
- SHA-256, the secret and personal-data patterns, the RFC 3339 (section 5.6) timestamp check and the walk over details: parameters of `DeviceEvent` and `Journal` with the laws used of them.
- `arm_state` and the texts of results: results keep outcome, reason, phases, whether something is held, and the stop afterwards.
- How a host judges evidence: flyto-core is not part of this model; `ArmContracts.Meets` reads each spec as its row describes it.
- GraspOfObject: one object that does not slip; a slipping object is covered only by what every completed grasp proves.
- PlaceObject: the object it returns is a value, so a caller that changes it later changes nothing on the bus.
- SimulatedArmBus.ReadPositions: the KeyError of an object on an unknown joint leaves the simulated bus as the program does, but an adapter over it is told of it as of any other bus error.
- ReadState: the torque, the accepted limits and the joints outside them that a state read also reports are not in its result.
- CheckGuards: judges guarded drives only; the navigation-leg guards of the same loop are left out.
- StopsWin: is about setpoint loops; enabling torque before one writes without looking at the flag, and so may a motion begun after the stop.
- Two threads waiting on one call id, reconnects and the bound on remembered calls: `GoalRuns` has one waiter for a call on one connection.
- Which dependency contract a facility binding asks for and how it is assessed: a band and a parsed-or-not verdict; catalog parsing; rounding of event times.
- Which exception an unhashable field of a plan raises: any refusal. Routing, capability catalogues and workflow compilation.
- Unicode NFKC: any function that is idempotent and under which a part of a normalised text is normalised. Lone surrogates are no characters here.
- ROS, websockets, SSH, HTTP, subprocesses and Gazebo: foreign transports, of which the model has the messages they deliver.
- Inflation escape, path clearance, motion outcome, places, missions, the camera gateway and the command line: plumbing or decision tables that would only add easier members.
