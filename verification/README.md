# Organic Scheduler: a Dafny model of the network model and the constraint builder

The Organic Scheduler computes the transmission times of periodic frames in a
time-sensitive network. The network is a set of end systems and switches
joined by links. Every frame has one sender and one or more receivers. For
each receiver it has a list of candidate paths through the links. For every
link it may cross, the frame owns an *offset*: a grid of transmission times,
with one entry per instance (one per period) and per replica.

The scheduler turns these objects into integer constraints for an SMT solver.
Each constraint pass adds one family of constraints:

- **Path selector.** Each receiver uses exactly one of its candidate paths.
- **Offset variables.** Every transmission lies inside its instance's window
  and finishes before the deadline. Instances repeat with the period.
- **Path choice.** As the C code builds it, each receiver whose candidate
  paths cross a link gets its own use test, and the tests are joined with OR:
  one receiver whose paths over the link are unselected lets the offset stay
  unused, whatever the other receivers select. The corrected pass
  (`Routing.ChoosePath`) makes a frame use a link exactly when a selected path
  crosses it; see "## Findings".
- **Contention freedom.** Two frames on the same link never overlap when their
  windows can meet.
- **Path dependency.** Along a path, each hop starts after the previous one has
  finished and the switch has forwarded it.
- **End-to-end delay.** The last hop of a path ends within the frame's
  end-to-end delay of the first.

This project models these parts as pure functions:

- Links (`link.dfy`).
- Frames with their offsets, offset list and link accelerator (`frame.dfy`).
- The network: its counts, protocol parameters, frames, links and path catalog
  (`network.dfy`).
- The formula builders and the window test (`formula.dfy`).
- The constraint passes (`optimizator.dfy` and `routing.dfy`).

The solver's constraint language appears as a small datatype in
`constraint.dfy`. Its meaning is the predicate `Holds` over an environment
that gives every solver variable an integer. Each pass builds a list of
constraints. Its contract states, for every environment, what it means for
all of them to hold. The main safety theorem, `Optimizator.NoOverlap`,
combines two passes. It shows that any environment satisfying the offset
variable and contention constraints schedules two frames on the same link
without overlap.

The model follows the Z3 branch of every solver switch. A solver variable is
named by its frame, link, instance and replica, or by its frame, receiver and
path. The path-selection mode is a boolean argument `selection`. It is true
when path selectors exist.

## Model

| member | source | states |
|---|---|---|
| Links.InitLink | Scheduler/Scheduler/Link.c:21-31 | a new link is wired and not configured (speed -1) |
| Links.SetLink | Scheduler/Scheduler/Link.c:41-55 | succeeds exactly for a positive speed, and the link then carries that speed and medium; otherwise the speed error |
| Links.SetLinkSpeed | Scheduler/Scheduler/Link.c:80-93 | succeeds exactly for a positive speed; the medium is kept |
| Links.SetLinkType | Scheduler/Scheduler/Link.c:118-127 | stores the medium and keeps the speed |
| Links.SetLinkIsSpeedThenType | Scheduler/Scheduler/Link.c:41-127 | setting both at once is the same as setting the speed and then the medium |
| Frames.InitFrame | Scheduler/Scheduler/Frame.c:23-38 | a new frame has negative period, deadline and size, an offset list holding only the end marker and no accelerator, so it does not satisfy the timing envelope |
| Frames.CodesDistinct | Scheduler/Scheduler/Frame.h:59-81 | different frame errors report different codes |
| Frames.SetPeriod | Scheduler/Scheduler/Frame.c:110-123 | accepted exactly when positive; only the period changes |
| Frames.SetDeadline | Scheduler/Scheduler/Frame.c:148-165 | accepted exactly when positive and not above the period; each refusal has its own error; only the deadline changes |
| Frames.SetSize | Scheduler/Scheduler/Frame.c:190-203 | accepted exactly when positive; only the size changes |
| Frames.SetEndToEndDelay | Scheduler/Scheduler/Frame.c:228-245 | accepted exactly when positive and not above the deadline; only the delay changes |
| Frames.SetStarting | Scheduler/Scheduler/Frame.c:270-287 | accepted exactly when non-negative and below the deadline; only the starting time changes |
| Frames.SetSenderId | Scheduler/Scheduler/Frame.c:312-325 | accepted exactly when non-negative; only the sender changes |
| Frames.SetReceiversId | Scheduler/Scheduler/Frame.c:351-372 | an empty list is refused with nothing changed; otherwise the frame always records the full number of receivers, the ids are copied in order up to the first negative one, which is refused with the receiver error, and the entries from it on are left uninitialised (0); only the receivers change |
| Frames.StoreReceivers | Scheduler/Scheduler/Frame.c:362-370 | copying the identifiers one at a time into a store of the full count, stopping at the first negative one, gives exactly the frame and error of `Frames.SetReceiversId` |
| Frames.SettersKeepChain | Scheduler/Scheduler/Frame.c:110-287 | on a frame that satisfies the timing envelope, every accepted setter keeps it, except a period below the stored deadline and a deadline that the stored starting time or end-to-end delay exceeds |
| Frames.NoDeadlineBeforePeriod | Scheduler/Scheduler/Frame.c:148-165 | a fresh frame refuses every deadline until its period is set |
| Frames.SetNumInstances | Scheduler/Scheduler/Frame.c:397-410 | accepted exactly when positive; only that field changes |
| Frames.SetReplicas | Scheduler/Scheduler/Frame.c:435-448 | accepted exactly when non-negative; only that field changes |
| Frames.SetTimeslotSize | Scheduler/Scheduler/Frame.c:473-486 | accepted exactly when positive; only that field changes |
| Frames.SetOffsetLink | Scheduler/Scheduler/Frame.c:596-609 | accepted exactly when positive; only the link changes |
| Frames.PrepareOffset | Scheduler/Scheduler/Frame.c:791-812 | succeeds exactly when instances are positive and replicas non-negative, and then gives a grid of exactly that shape; the other fields are kept |
| Frames.SetOffset | Scheduler/Scheduler/Frame.c:646-675 | succeeds exactly when the cell is inside the grid and the value non-negative; then that one cell holds the value and every other cell and field is unchanged |
| Frames.GetOffset | Scheduler/Scheduler/Frame.c:619-635 | a negative instance or replica gives the matching error; for a cell inside the grid, exactly the transmission time stored there |
| Frames.SetThenGetOffset | Scheduler/Scheduler/Frame.c:619-675 | reading a cell after a write gives the written value for that cell and the old value for every other cell |
| Frames.AddNewOffset | Scheduler/Scheduler/Frame.c:547-571 | claims the end marker for a link not yet in the list and appends a new end marker; for a link already present it fails and leaves the list unchanged |
| Frames.AddNewOffsetKeepsList | Scheduler/Scheduler/Frame.c:547-571 | on a well-formed list a new node is added exactly for a real link not yet present; the list stays well formed and its links grow by exactly that link |
| Frames.AddNewOffsetTwice | Scheduler/Scheduler/Frame.c:547-571 | adding the same link again fails and changes nothing |
| Frames.InitHash | Scheduler/Scheduler/Frame.c:47-63 | succeeds exactly for a positive number of links and then maps every link to no offset |
| Frames.InitIndexed | Scheduler/Scheduler/Frame.c:47-63 | a fresh frame with a fresh accelerator satisfies the accelerator invariant |
| Frames.AddAcceleratorHash | Scheduler/Scheduler/Frame.c:72-85 | the node's link now maps to that node; every other link and field is unchanged |
| Frames.GetFrameOffsetByLink | Scheduler/Scheduler/Frame.c:823-831 | with a sound accelerator, a position found for a link is a real node on that link; with a complete one, any real node on the link is the position found |
| Frames.OffsetOn | Scheduler/Scheduler/Frame.c:823-831 | the offset the accelerator gives for a link is present exactly when the lookup finds it, and is an offset on that link |
| Frames.LookupComplete | Scheduler/Scheduler/Frame.c:823-831 | under the accelerator invariant, a lookup finds an offset exactly when the list has a node on that link |
| Frames.RegisterOffset | Scheduler/Scheduler/Frame.c:72-85 | adding a node for a new link and then registering it keeps the accelerator invariant, and the link becomes reachable through the accelerator |
| Networks.Empty | Scheduler/Scheduler/Network.c:17-23 | before anything is read, every count and time is 0 |
| Networks.SetNumFrames | Scheduler/Scheduler/Network.c:585-594 | accepted exactly when positive; then exactly that many frames exist, each in the state of a new frame |
| Networks.SetNumSwitches | Scheduler/Scheduler/Network.c:612-620 | accepted exactly when positive; only that count changes |
| Networks.SetNumEndSystems | Scheduler/Scheduler/Network.c:638-646 | accepted exactly when positive; only that count changes |
| Networks.SetNumLinks | Scheduler/Scheduler/Network.c:664-673 | accepted exactly when positive; then exactly that many links exist, each in the state of a new link (not configured) |
| Networks.SetSwitchMinimumTime | Scheduler/Scheduler/Network.c:691-699 | accepted exactly when non-negative; only that time changes |
| Networks.SetProtocolPeriod | Scheduler/Scheduler/Network.c:717-725 | accepted exactly when positive; only the period changes |
| Networks.SetProtocolTime | Scheduler/Scheduler/Network.c:743-755 | accepted exactly when positive and strictly below the stored period; each refusal has its own error |
| Networks.ProtocolSetupIff | Scheduler/Scheduler/Network.c:717-755 | setting the period and then the time succeeds exactly when 0 < time < period, and the protocol then fits in its period; before any period is set, every time is refused |
| Networks.AddFrameInformation | Scheduler/Scheduler/Network.c:779-813 | an index at or beyond the frame count changes nothing; for a non-negative index below it, it succeeds exactly when the timing satisfies the envelope, and then the frame holds it and, when links exist, an empty accelerator of one entry per link |
| Networks.AddLink | Scheduler/Scheduler/Network.c:834-853 | an index at or beyond the link count changes nothing; for a non-negative index below it, the medium is stored, and the call succeeds exactly for a positive speed |
| Networks.InitPathStructure | Scheduler/Scheduler/Network.c:860-879 | succeeds exactly when there are end systems, and then every pair of end systems has an empty path list |
| Networks.AddPath | Scheduler/Scheduler/Network.c:918-944 | accepted exactly for a non-empty path between nodes of the network; then that pair's list grows by the path and every other list is unchanged |
| Networks.GetPath | Scheduler/Scheduler/Network.c:889-907 | a path exists exactly when both ids are end systems and the index is inside their list, and it is that list's entry |
| Networks.AddPathThenGetPath | Scheduler/Scheduler/Network.c:889-944 | a path just added is found at the end of its pair's list; earlier paths are unchanged |
| Networks.GetPathAsWritten | Scheduler/Scheduler/Network.c:889-907 | as written, the lookup gets past the guard exactly for end systems and an index beyond the pair's path count; past it, it finds a path exactly when the index is inside the sender's own list, that list's entry, while the corrected lookup finds nothing |
| Networks.GuardHidesEveryPath | Scheduler/Scheduler/Network.c:902 | as written, the count guard hides every path that exists |
| Networks.WrongCellExample | Scheduler/Scheduler/Network.c:906 | as written, a lookup past the guard reads the sender's own cell and returns a path that does not exist |
| Formulas.FixedDistance | Scheduler/Scheduler/Optimizator.c:71-135 | holds exactly when the second offset is the first plus the distance; with path selection, an unused first offset forces the second to be unused |
| Formulas.OffsetRange | Scheduler/Scheduler/Optimizator.c:150-209 | holds exactly when the offset is strictly above the minimum, or unused under path selection, and at most the maximum |
| Formulas.AvoidIntersection | Scheduler/Scheduler/Optimizator.c:270-375 | holds exactly when one transmission ends before the other starts, or the first offset is unused under path selection |
| Formulas.MaximumDistance | Scheduler/Scheduler/Optimizator.c:394-487 | holds exactly when the second offset is at most the distance after the first |
| Formulas.MinimumDistance | Scheduler/Scheduler/Optimizator.c:506-567 | holds exactly when the second offset is at least the distance after the first, or the path's selector is 0 under path selection |
| Formulas.OffsetsShareInterval | Scheduler/Scheduler/Optimizator.c:225-251 | for frames that start before their deadline, the test holds exactly when each instance window starts before the other ends; it never holds for two empty windows |
| Formulas.ShareSymmetric | Scheduler/Scheduler/Optimizator.c:225-251 | the window test does not depend on the order of the frames |
| Formulas.ShareIffCommonInstant | Scheduler/Scheduler/Optimizator.c:225-251 | for frames that start before their deadline, the test holds exactly when the two instance windows have an instant in common |
| Formulas.RangeInsideWindow | Scheduler/Scheduler/Optimizator.c:788-791 | a transmission in the admissible range of an instance starts and ends inside that instance's window |
| Formulas.DisjointWindowsSeparate | Scheduler/Scheduler/Optimizator.c:225-251 | two transmissions in the ranges of instances whose windows do not meet cannot overlap |
| Optimizator.CellConstraints | Scheduler/Scheduler/Optimizator.c:783-803 | the constraints of one cell hold exactly when it lies in its instance's range (or is unused under selection) and sits one period per instance after cell (0,0) |
| Optimizator.CreateOffsetVariables | Scheduler/Scheduler/Optimizator.c:763-810 | the pass holds exactly when every cell of every offset of every frame is placed in its range and follows its period |
| Optimizator.InstancesFollowPeriod | Scheduler/Scheduler/Optimizator.c:797-803 | without path selection, cell (i, r) equals cell (0, 0) plus i periods |
| Optimizator.PairBlock | Scheduler/Scheduler/Optimizator.c:1038-1050 | the pair's constraint holds exactly when, if the windows can meet, the two transmissions do not overlap |
| Optimizator.ContentionFree | Scheduler/Scheduler/Optimizator.c:1011-1062 | the pass holds exactly when every pair of cells of an earlier and a later frame on the same link whose windows can meet is kept apart |
| Optimizator.NoOverlap | Scheduler/Scheduler/Optimizator.c:1011-1062 | when the offset variable and contention passes hold, two used cells of different frames on the same link never overlap, whether or not their windows meet |
| Routing.SelectorBoundsMeaning | Scheduler/Scheduler/Optimizator.c:712-743 | a receiver's selector constraints hold exactly when its selectors are 0 or 1 and exactly one is 1 |
| Routing.InitPathSelector | Scheduler/Scheduler/Optimizator.c:658-755 | the pass holds exactly when every receiver of every frame has exactly one candidate path selected |
| Routing.NoPathNoSchedule | Scheduler/Scheduler/Optimizator.c:740-743 | in the model, a receiver without a candidate path makes the selector pass unsatisfiable, since its selectors (none) add up to 0 and not 1 |
| Routing.SelectorsAreBits | Scheduler/Scheduler/Optimizator.c:719-724 | under the pass every selector is 0 or 1 |
| Routing.PathUsersMembers | Scheduler/Scheduler/Optimizator.c:853-862 | the selectors collected for a link are exactly those of the candidate paths that cross it |
| Routing.Choice | Scheduler/Scheduler/Optimizator.c:869-877 | holds exactly when the offset is used if some collected selector is set, and unused otherwise |
| Routing.ChoosePath | Scheduler/Scheduler/Optimizator.c:818-901 | with non-negative selectors, the corrected pass holds exactly when every node of every frame whose link some candidate crosses is used exactly when a selected path crosses it |
| Routing.SelectedPathsClaimTheirLinks | Scheduler/Scheduler/Optimizator.c:818-901 | under the selector pass and the corrected choice pass, an offset is used exactly when a selected path of its frame crosses its link |
| Routing.AnyOf | Scheduler/Scheduler/Optimizator.c:887-896 | the combined constraint holds exactly when one of the per-receiver constraints does, and is absent when there are none |
| Routing.ChoosePathAsWritten | Scheduler/Scheduler/Optimizator.c:818-901 | with non-negative selectors, the pass as written holds exactly when, for every node of every frame whose link some candidate crosses, at least one receiver with a candidate path over the link agrees with the offset: used if one of its own paths over the link is selected, unused otherwise |
| Routing.AsWrittenAdmitsIntended | Scheduler/Scheduler/Optimizator.c:864-896 | with non-negative selectors, every assignment the corrected choice pass admits is also admitted by the pass as written |
| Routing.AsWrittenLetsOneReceiverDecide | Scheduler/Scheduler/Optimizator.c:864-896 | as written, one receiver whose paths through the link are unselected lets the offset be unused, whatever the other receivers select |
| Routing.ChoosePathAsWrittenDropsLink | Scheduler/Scheduler/Optimizator.c:864-896 | a valid selection in which a selected path crosses a link, but whose offset there is 0, satisfies the pass as written and not the corrected pass |
| Routing.TimeslotOn | Scheduler/Scheduler/Frame.c:456-464 | the timeslot of the frame's offset on a link, or the missing-offset code when the frame has none there |
| Routing.FramePathDependent | Scheduler/Scheduler/Optimizator.c:1070-1107 | succeeds exactly when both ends of every hop of every candidate path have an offset in the frame, and otherwise fails with -204; on success its constraints hold exactly when every hop is ordered |
| Routing.PathDependentMeaning | Scheduler/Scheduler/Optimizator.c:1086-1103 | the constraints hold exactly when every hop of every candidate path starts after the previous link's timeslot plus the switch minimum time, or its path is unselected under path selection |
| Routing.PathFollowedInOrder | Scheduler/Scheduler/Optimizator.c:1092-1100 | along a path whose hops all hold, any later position starts at least the timeslot plus the switch minimum time after any earlier one |
| Routing.FrameEndToEndDelay | Scheduler/Scheduler/Optimizator.c:1115-1154 | succeeds exactly when the first and last link of every candidate path have an offset in the frame, and otherwise fails with -203; on success its constraints hold exactly when every candidate path ends in time |
| Routing.EndToEndMeaning | Scheduler/Scheduler/Optimizator.c:1134-1149 | the constraints hold exactly when, on every candidate path, the last transmission ends within the end-to-end delay of the first one's start |

## Left out

- File input (the XML readers), the printing functions and `main` are left out. They only move the same values in and out.
- The solver itself and the Gurobi branches are left out. Constraints are data with a meaning (`Constraints.Holds`), and the solver's search is not modelled.
- The objective (`initialize_distances` and its use), `check_solver`, the hyperperiod and link-utilization helpers are left out. They produce no constraint of the passes named above.
- Memory management (`malloc`, `realloc`, `free`) and NULL checks are left out. The linked list and the accelerator become a sequence and positions into it.
- Integer widths are not modelled: `int` and `long long` are unbounded. Overflow in `period * instance` or in the distances is outside the model.
- Fields the C code leaves uninitialised are 0 or empty in the model, with two exceptions:
- Networks.SetNumFrames: the C code only allocates the frames. The model gives each one the state of `Frames.InitFrame` (period, deadline and size -1, an offset list holding only the end marker), since no value of uninitialised memory can be stated.
- Networks.SetNumLinks: the C code only allocates the links. The model gives each one the state of `Links.InitLink` (speed -1, wired), for the same reason.
- The end-systems hash is taken as given. No reader for it is part of this model.
- `get_num_paths` is not defined in the code this model covers. The passes use the length of the pair's catalog list through `Networks.PathsBetween`, the corrected lookup.
- A link beyond the size of a frame's accelerator counts as having no offset, where the C code would read outside the array.
- Frames.GetOffset: `get_offset` checks only for negative indices and reads any other cell unchecked, past the grid when the index is too large. The model requires a cell inside the grid for non-negative indices.
- Networks.AddFrameInformation: a negative index passes the C guard, which only tests the upper bound, and writes before the frames array. The model requires a non-negative index below the frame count.
- Networks.AddLink: a negative index passes the C guard, which only tests the upper bound, and writes before the links array. The model requires a non-negative index below the link count.
- When a pass fails part-way, the constraints it asserted before the failure are not modelled. The pass returns only the error.
- Routing.FrameEndToEndDelay: an empty path makes the C code read `path[0]`. The model treats its first and last link as absent, so the pass fails.
- `get_z3_offset`'s own index checks are not modelled. They only reject negative indices, which the passes never pass.
- Offsets with zero replicas: `set_replicas` accepts 0 and `prepare_offset` then allocates rows of no cells, so `create_offset_variables` creates no variable for the offset. `choose_path_z3`, `frame_path_dependent` and `frame_end_to_end_delay` still read cell (0, 0), past the allocation. The model does not read memory: it names the solver variable `Cell(frame, link, 0, 0)` in those passes as if the cell existed, with no range constraint on it.
- Routing.NoPathNoSchedule: with no candidate path, the C code calls `Z3_mk_add` with zero arguments, which Z3 reports as an error rather than building a sum. The model reads the empty sum as 0, as the Gurobi branch's empty `GRBaddconstr` does, so the pass is unsatisfiable instead of failing.
- Routing.ChoosePath: a node whose link no candidate path crosses gets no constraint in either version. The contract states nothing about it, and neither does the one of `Routing.ChoosePathAsWritten`.
- The crashes that the defective `get_path` and `choose_path_z3` cause in the rest of the program are left out. The passes use the corrected lookup.

Where the code and its documentation disagree, the model follows the code:

- `add_new_offset` returns NULL, not the node, when the link is already present.
- `set_period` is not checked against the stored deadline, nor `set_protocol_period` against the stored protocol time.
- `set_offset_range` makes the lower bound strict, although its comment says "at least".
- `set_fixed_distance` sets the second offset to the first plus the distance.
- `set_offset_link` rejects link 0.
- `add_frame_information` takes the six arguments of its definition.
- `avoid_intersection`'s path-selection escape tests only the first offset.
- `frame_end_to_end_delay` passes no selector, so the end-to-end constraint also binds unselected paths.

## Findings

| source | as written | input that shows it | evidently intended | confidence | as-written member | corrected member |
|---|---|---|---|---|---|---|
| Scheduler/Scheduler/Network.c:902 | the guard returns NULL when the path index is below the number of paths | any existing path index p < length of the pair's list gives no path | return NULL when the index is at or beyond the number of paths | high, not executed | Networks.GuardHidesEveryPath | Networks.GetPath |
| Scheduler/Scheduler/Network.c:906 | the path is read from the cell (sender, sender) | `WrongCellWitness`, sender 0, receiver 1, index 1 returns `[8]`, though no path 0→1 exists | read the cell (sender, receiver) | high, not executed | Networks.WrongCellExample | Networks.GetPath |
| Scheduler/Scheduler/Optimizator.c:864-896 | the per-receiver use tests of a link are joined with OR | `ChoiceWitness`: receiver 1 selects [5], receiver 2 selects [6], offset on link 5 is 0 | the offset is used exactly when any selected path of any receiver crosses the link | medium, not executed | Routing.ChoosePathAsWrittenDropsLink | Routing.ChoosePath |
