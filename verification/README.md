# Verification of the CADR simulator's core

This project models the parts of the simulator whose comments promise something that no one function
says by itself, and proves those promises of the model. Each module follows one component; a class has
the fields its source struct has and steps them in place, and where a component is a state machine its
methods are tied to a function of the state before, about which the lemmas for all inputs and all runs
are proved.

- **The gate evaluator** (`Netlist`, `Components`, `SweepOrder`, `Levelize`, `Chip`). A board of gates
  over nets, what a gate computes and how drivers resolve being uninterpreted. Levelling is Tarjan's
  algorithm on an explicit stack and a greedy order within each feedback group; settling visits only
  the dirty groups.
- **The recorder** (`BitStream`, `Lzw`, `Screens`, `Recorder`). The GIF LZW encoder is checked against a
  decoder written from Appendix F of the GIF89a specification, which keeps its own table one entry behind;
  the canvas is what the screens' words and the clocks' seconds make; the frames of a recording are checked
  against replaying them.
- **QUUX's disk file** (`Bytes`, `Vhd`, `DynamicVhd`, `SmallVhd`, `DiskFile`). A dynamic VHD as Microsoft's Virtual
  Hard Disk Image Format Specification lays it out, as a sequence of bytes; a write is a splice. The
  flat disk it stands for is a function of the file and the table.
- **The bus interface** (`Oscillator`, `Timing`, `MemoryTwin`, `Backplane`, `Unibus`, `Arbitration`,
  `BusInterface`). The two Unibus masters' arbitration over every interleaving of what can befall it,
  the memory boards' twins clocked lazily, the timeout counter's oscillator, and what the interface
  promises the other machine on the debug cable.
- **The debug cable's far end** (`DebugCable`), **the clock generator** (`ClockGenerator`), **the memory
  cache** (`LruCache`), **the checkpoint's packing** (`Checkpoint`), **block-disk's transfers**
  (`BlockTransfers`) and **the pack label** (`PackLabel`).

Times are natural numbers of nanoseconds; where the code uses the greatest `u64` for "never", or a
saturating sum, the model has the same number and the same sum. Nothing here was executed.

Five promises in the source's comments and assertions do not hold as they stand; the code was followed,
and the exact condition proved:

- A full settle and an incremental one agree, "the two must agree" (`src/chip.rs:1987-1991`), but for a
  gate that reads its own output alone in its group, which `settle` can leave dirty and report settled.
  `Chip.RingStaysDirty` has the board, and the net a full settle then moves; `Chip.FullSettleMovesNothing`
  says a settle that reports nothing has come to rest exactly when every such gate's net is at its level, and
  that a full settle then moves no net. That it moves none says as much where those nets have one driver;
  with a second, the net can be moved there and back.
- A write to an unallocated block of a VHD reads back (`src/disk_image.rs:31-37`), but for the one sector
  number that is the mark of a block not allocated: `DynamicVhd.Dynamic.WriteSector` says when, and that
  the disk is then as it was; `SmallVhd.SmallLoses` has such a file.
- What this side promises the debugger's peer with a request out is the earliest a new event can appear
  (`src/busint.rs:1863-1887`), but not once that request is answered: `Arbitration.FirstPromiseOutlived` has
  the run, and `Arbitration.PromiseOutExactly` the condition, met only within 505 ns of the request's timeout.
- The answer to come, once a request is taken, is that request's (`src/cable.rs:1393-1394`), but for a
  request before it, given up on whose release is still to come: `DebugCable.EarlierAnswerSeen` has the run
  from a connector just plugged in, and `DebugCable.EarlierAnswerExactly` the condition, which is that the
  one on the connector was unanswered when the next was taken.
- No event of the clock generator's is due before its time (`src/clock.rs:544-558`), but when it is held in
  mid-cycle, as the debug cable's far end holds it under reset (`src/cable.rs:1291-1294`):
  `ClockGenerator.HeldTooLong` has the run, and `ClockGenerator.OrderExactly` and `HoldExactly` say how long
  a hold can be, and where, with nothing lost.

## Model

| member | source | states |
|---|---|---|
| Components.Tarjan | src/chip.rs:3091-3140 | the explicit stacks and loops emit every node once, in groups whose members reach each other and none emitted later |
| Components.ExactlyComponents | src/chip.rs:1084-1085 | two nodes are in one group exactly when each reaches the other, and a node reaches only its own group and those emitted before it |
| Components.Step | src/chip.rs:3100-3137 | one turn of the work stack keeps the search's invariant: the gray path, the low links, and what has been emitted |
| Components.PopComponent | src/chip.rs:3120-3130 | the stack is popped down to and including the root, and exactly those leave it |
| SweepOrder.OrderWithin | src/chip.rs:3056-3085 | a permutation of the group in which each gate taken waits on as few untaken feeders as any left does |
| SweepOrder.TakingLifts | src/chip.rs:3070-3082 | taking a gate lifts what each other waits on by exactly the edges from the one to the other |
| Levelize.LevelOrder | src/chip.rs:1050-1091 | every placed gate is in one group; two share a group exactly when each feeds the other through whatever placed gates; every producer's group is its consumer's or earlier; and in each group next is always a gate on whose pins as few of those left are as on any |
| Levelize.NoFeedbackIsSingles | src/chip.rs:1043-1049 | every group is one gate that does not read its own output exactly when no gate feeds itself, at once or through others |
| Levelize.SharesExactly | src/chip.rs:1084-1090 | two gates of the order share a group exactly when a path of feeds leads each way |
| Levelize.ForwardOnly | src/chip.rs:1084-1090 | reversed, the components put no feed from a later group to an earlier |
| Levelize.GroupNumbers | src/chip.rs:1425-1450 | the group number kept for each gate is where the order has it |
| Chip.CountUpdate | src/chip.rs:1881-1905 | flagging or clearing one gate moves the count of dirty gates by exactly what changed |
| Chip.Chip.constructor | src/chip.rs:1050-1137 | a board as built is levelled and valid: every placed gate dirty, its group flagged, the count right |
| Chip.Chip.Soil | src/chip.rs:1881-1888 | flags a gate the evaluator visits, its group with it, and keeps the count |
| Chip.Chip.CleanGate | src/chip.rs:1900-1905 | clears one gate and keeps the count |
| Chip.Chip.MarkReaders | src/chip.rs:1910-1922 | exactly the placed gates reading the net become dirty, their groups flagged |
| Chip.Chip.ResolveNet | src/chip.rs:2549-2584 | with clean gates' levels trusted and dirty ones re-evaluated, the net takes the resolution of its drivers and of what drives it from outside |
| Chip.Chip.SweepGate | src/chip.rs:1471-1513 | a turn of a feedback sweep at one gate, a new unknown held back: unchanged means the nets are as they were and the gate is clean |
| Chip.Chip.VisitFeedback | src/chip.rs:1464-1528 | a feedback group is swept until nothing changes, at most the limit, or reported |
| Chip.Chip.VisitNext | src/chip.rs:1432-1463 | the next flagged group at or after where the pass stands is the least, and nothing flagged is passed over |
| Chip.Chip.EvaluateAlone | src/chip.rs:1448-1463 | a gate alone in its group is left dirty exactly when it reads its own output and its net moved |
| Chip.Chip.Settle | src/chip.rs:1425-1531 | afterwards no placed gate is dirty but after a group reported unsettled, or one that feeds itself alone, and such a gate with its net to itself exactly when that net is not as it was; clean gates' levels are their evaluations and driven nets their resolutions; a board at rest is left as it is |
| Chip.Chip.RestsExactly | src/chip.rs:1425-1531 | with nothing reported, the board is at rest exactly when each gate that feeds itself alone has its net at its level |
| Chip.Chip.MarkEveryGate | src/chip.rs:1947-1959 | every placed gate dirty, every group flagged, the count the number of placed gates |
| Chip.Chip.SettleAll | src/chip.rs:1992-1998 | as settle, from every gate dirty |
| Chip.Chip.Drive | src/chip.rs:1293-1299 | a net driven from outside is resolved with it, its readers marked, the invariant kept |
| Chip.Chip.SetNet | src/chip.rs:1236-1256 | a net set moves that net alone and marks its readers; the invariant is kept but for that net, if it is driven |
| Chip.Chip.UpdatePart | src/chip.rs:2511-2537 | a part that changes what it holds marks its gates, the invariant kept |
| Chip.CleanIsAtRest | src/chip.rs:1425-1531 | with no gate dirty the board is at rest: every driven net is the resolution of its drivers, evaluated afresh |
| Chip.RestIsUnique | src/chip.rs:1987-1991 | on a board no gate of which feeds itself, two resting states with the same undriven nets, outside drivers and parts are one |
| Chip.SettlesAgree | src/chip.rs:1987-1998 | on a board no gate of which feeds itself, settling incrementally and settling from every gate end in the same nets, with nothing dirty or reported |
| Chip.FullSettleMovesNothing | src/chip.rs:1987-1998 | on any board, a settle that reports nothing has come to rest exactly when every gate that feeds itself alone has its net at its level, and then a full settle moves no net and leaves nothing dirty; and where those gates have their nets to themselves, a full settle that reports nothing and moves no net came to rest too |
| Chip.RingStaysDirty | src/chip.rs:1448-1463 | a gate alone in its group that inverts its own output is left dirty with nothing reported, and a full settle then moves its net |
| BitStream.BitWriter.Put | src/capture.rs:773-781 | the bits written are the bits before and then the code's, low bit first |
| BitStream.BitWriter.Finish | src/capture.rs:783-788 | the bytes hold the bits written and then zeros to a whole byte |
| Lzw.Encode | src/capture.rs:720-763 | an Appendix F decoder, stopped at the number of pixels, reads back exactly the pixels, and then the end code or fewer bits than a code |
| Lzw.Pixel | src/capture.rs:738-758 | one pixel keeps encoder and decoder in step: table one entry behind, the code not yet in it, widths, and the clear when full |
| Lzw.EmitsString | src/capture.rs:744-751 | a code written is the encoder's string to the decoder, whether or not the decoder has entered it |
| Lzw.Restarts | src/capture.rs:752-757 | the clear written once the table has filled starts both tables over |
| Recorder.ChangedRect | src/capture.rs:457-477 | none exactly when the canvases are the same, else the least rectangle that holds every difference |
| Recorder.LeastIsOne | src/capture.rs:455-456 | there is one least rectangle |
| Recorder.LaidIs | src/capture.rs:236-252 | a rectangle that holds every difference, taken from the new canvas and laid over the old, is the new |
| Recorder.TakePixels | src/capture.rs:237-240 | the rectangle's pixels row by row |
| Screens.OwnLine | src/tv.rs:733-738 | a pixel shown is a bit of a word of its own line, and so of one the sample compares |
| Screens.UnchangedLooks | src/capture.rs:163-185 | screens whose words, size and polarity are as they were, within the same seconds, make the same canvas |
| Screens.CanvasIsSmall | src/capture.rs:202-225 | every pixel of the canvas is one of the two the encoder is given |
| Screens.InksWithin | src/capture.rs:654-693 | a clock keeps to its own columns, clear of the line's edges |
| Recorder.Recorder.LooksSame | src/capture.rs:171-182 | the comparison says whether all that the canvas is made of is as it was |
| Recorder.Recorder.Sample | src/capture.rs:161-250 | the frames replayed are always the canvas the last sample's screens and seconds make; a frame is made exactly when the canvas changed, shortcut or not, of the least rectangle, and times the one before |
| Recorder.Recorder.AddFrame | src/capture.rs:231-247 | the frame's data decodes to the rectangle's pixels, and the frames replay to the new canvas |
| Recorder.Recorder.ShowsWhole | src/capture.rs:265-271 | the frames stay up from the first sample's instant to the last sample's and a second more |
| Vhd.Reopens | src/disk_image.rs:163-202 | a sound image's file opens as that image and size, by its footer or by the copy at 0 |
| Vhd.SurvivesCut | src/disk_image.rs:31-37 | after any number of bytes of a new block and of the footer after it, the file opens, sound, as the disk it was |
| Vhd.EnteredSteady | src/disk_image.rs:248-251 | the table entry written, in the file and in memory alike, keeps the extents disjoint and clear of header and table |
| Vhd.EntriesUpdated | src/disk_image.rs:191-192 | four big-endian bytes written are one table entry and no other |
| DynamicVhd.CutShort | src/disk_image.rs:238-253 | an allocation cut short anywhere before its entry, or after it, opens as the old disk until the entry is written, then as the new |
| DynamicVhd.CutAnywhere | src/disk_image.rs:238-253 | so of any file its footer ends and any data that is nowhere a footer's beginning, with nothing asked of the cut file |
| DynamicVhd.TornEntry | src/disk_image.rs:248-251 | cut short within the entry's four bytes, it opens with the sector those bytes and ones make: the new disk if that is the one meant, the old if it is the mark of a block not allocated, and else an image no longer steady, its block reaching the end of the file, footer and all, and every other block as it was |
| DynamicVhd.RunIsFlat | src/disk_image.rs:224-254 | over every run of writes the image stays steady and its disk is the flat disk those of them kept make |
| DynamicVhd.RoomKeepsAll | src/disk_image.rs:224-254 | with room for a block a write below the sector number that marks a block not allocated, all are kept |
| DynamicVhd.RunReads | src/disk_image.rs:213-254 | so a sector reads back the last data written to it and kept, or what the disk held |
| SmallVhd.SmallIsSound | src/disk_image.rs:163-202 | whole files, footers and headers with their checksums, that are sound and open as their images |
| SmallVhd.SmallLoses | src/disk_image.rs:238-251 | one of them takes a write and loses it |
| SmallVhd.SmallKeeps | src/disk_image.rs:238-251 | in any smaller, the sector written is the disk |
| DynamicVhd.BlockAdded | src/disk_image.rs:238-253 | a block appended and named makes the disk the old one with that sector written, and marks it in the bitmap |
| DynamicVhd.LostWrite | src/disk_image.rs:238-251 | at the sector number that is the mark of a block not allocated, the disk is as it was |
| DynamicVhd.BitSet | src/disk_image.rs:228-235 | setting a clear bit of a byte sets it and leaves every other |
| DynamicVhd.Dynamic.Read | src/disk_image.rs:213-221 | a sector read is that sector of the disk |
| DynamicVhd.Dynamic.WriteSector | src/disk_image.rs:224-254 | written, the disk differs in that sector alone; refused past what an entry holds, nothing changes; the image stays steady, table and file agreeing, and no bitmap bit is cleared |
| DiskFile.Disk.ReadBlock | src/disk_image.rs:468-476 | a block is the one kept, else the file's, else none |
| DiskFile.Disk.WriteBlock | src/disk_image.rs:481-508 | a block written reads back and every other is as it was; read-only, the file is untouched and only what it does not hold is kept |
| Oscillator.CatchUp | src/chip.rs:2361-2367 | from any first guess the loops end at exactly the toggles due |
| Oscillator.DueExactly | src/chip.rs:477-482 | a toggle has come by an instant exactly when its number is at most the number due |
| Oscillator.CatchUpAnyhow | src/chip.rs:2356-2367 | caught up at any instants on the way, the toggles are those of one step to the last |
| Oscillator.FirstFall | src/chip.rs:487-496 | the first odd toggle strictly after an instant |
| Oscillator.GatedRiseAfter | src/chip.rs:517-530 | the first of the section's rises after an instant, every one before it no later than it |
| Oscillator.TimeoutWithin | src/busint.rs:112-121 | a cycle nothing answers ends more than 5.5 and at most 6.5 periods after its grant, a debug cycle more than 13.5 and at most 14.5 |
| Oscillator.TimeoutBoundsMet | src/busint.rs:112-114 | both ends of that are met with |
| MemoryTwin.RisingEdgeAfter | src/busint.rs:392-402 | the first rising edge strictly after an instant |
| MemoryTwin.ChangesFrom | src/busint.rs:543-562 | an Xbus clock edge changes a board exactly from the instant it foretells |
| MemoryTwin.AcknowledgedWithin | src/busint.rs:572-590 | a request is acknowledged eleven edges after the first past it and the board's idle, at most thirteen later behind a refresh, and within 1052 ns |
| MemoryTwin.MemoryBoard.XbusClock | src/busint.rs:481-489 | an edge changes the board exactly from the instant it foretells |
| MemoryTwin.MemoryBoard.RefreshBefore | src/busint.rs:517-536 | a refresh runs exactly when one is asked for and the instant foretold has come, and none is asked for after it |
| MemoryTwin.MemoryBoard.Request | src/busint.rs:572-590 | at most one refresh goes first: the loop turns twice at most |
| MemoryTwin.MemoryBoard.UnibusReset | src/busint.rs:498-513 | held, no refresh runs; released, one that stuck is over 416 to 470 ns on, and the one-shot starts again as it is released |
| Backplane.LazyIsEager | src/busint.rs:1345-1354 | any step of boards clocked only when one can change is the step of boards clocked at every edge, and the instant kept stays no later than any board's |
| Backplane.LazyRunsAsEager | src/busint.rs:1345-1354 | so over every run, with the same acknowledgements |
| Backplane.Boards.MclkEdge | src/busint.rs:1585-1591 | the edge leaves the boards as they would be clocked at every edge |
| Backplane.Boards.Request | src/busint.rs:1672-1679 | a request, and the instant kept lowered to its board's |
| Backplane.Boards.Released | src/busint.rs:1530-1535 | a release, and the instant kept lowered to its board's |
| Backplane.Boards.UnibusReset | src/busint.rs:1539-1545 | a reset of every board, and the instant kept reckoned again |
| Arbitration.StepSafe | src/busint.rs:1580-1801 | whatever befalls the interface, the debug master never has the bus with the processor, one grant is out, and a master always serves a request |
| Arbitration.EdgedSafe | src/busint.rs:1580-1801 | so at every master clock edge |
| Arbitration.DebugEdgeSafe | src/busint.rs:2147-2202 | so in the debug master's own step, a grant taken from the processor included |
| Arbitration.AdvancedSafe | src/busint.rs:2032-2101 | so in the debug master's asynchronous events, the bus taken at the end of the processor's cycle included |
| Arbitration.MastershipKept | src/busint.rs:1559-1567 | with edges at least 100 ns apart and time running forward, the processor has the Unibus from the edge that gives it to the end of its cycle |
| Arbitration.RunKept | src/busint.rs:1580-1801 | so over every run |
| Arbitration.SetMasterSafe | src/busint.rs:2212-2244 | the debug master set over a bus the processor has let go keeps one master and one grant, and moves nothing of the processor's |
| Arbitration.ArbitrationGives | src/busint.rs:1694-1796 | the processor is made master only past its SACK, or selected, of a bus the debug master does not hold; granted only with no grant of the other's out or asked for; and its cycle goes out only after |
| Arbitration.DebugEdgeGives | src/busint.rs:2147-2202 | the debug master is made master only of a bus let go, its SACK an edge old; granted only with no grant of the processor's out, but one taken from it before its SACK |
| Arbitration.EarliestHolds | src/busint.rs:1863-1887 | a request out not being answered, every step's event is dated no earlier than the earliest it could be, which never falls |
| Arbitration.NoSoonerHolds | src/busint.rs:1863-1887 | answers taken or not, a bound no later than the soonest request and a release at the timeout holds of every step's event and goes on holding |
| Arbitration.PromiseIsEarly | src/busint.rs:1869-1887 | asked at an edge already taken, the promise is no later than that |
| Arbitration.PromiseKept | src/busint.rs:1863-1887 | no event of any run after it is dated before the promise, with edges at least 135 ns apart; of a request out when it is asked, as long as that one is not answered |
| Arbitration.PromiseOutExactly | src/busint.rs:1863-1887 | asked with a request out and nothing of the other machine's on the bus, the promise holds over every run, answers and all, exactly when the release is no later than a next request could be |
| Arbitration.FirstPromiseOutlived | src/busint.rs:1863-1887 | the first debug cycle after power on makes a promise its answer outlives |
| BusInterface.Busint.MclkEdge | src/busint.rs:1580-1801 | an edge is the step of the state before, and keeps it safe |
| BusInterface.Busint.RequestCycle | src/busint.rs:1498-1507 | a cycle asked for keeps one master and one grant |
| BusInterface.Busint.Arbitrate | src/busint.rs:1694-1796 | a step gives the processor the bus, a grant or its cycle only as the two masters' rules allow |
| BusInterface.Busint.StepDebug | src/busint.rs:2147-2202 | a step gives the debug master the bus or a grant only as the rules allow, and keeps it safe |
| BusInterface.Busint.Advance | src/busint.rs:2032-2101 | every asynchronous step whose instant has come, the loop ending |
| BusInterface.Busint.Settle | src/busint.rs:2088-2100 | the loop's turns are the strobe's end, or the lift and then the release |
| BusInterface.Busint.Latch | src/busint.rs:2106-2144 | the strobe's latch, and the timeout counted again from the oscillator's first rise past the inhibit's lifting |
| BusInterface.Busint.RequestDebug | src/busint.rs:1923-1947 | a request taken exactly when the cable is idle by its instant |
| BusInterface.Busint.ReleaseDebug | src/busint.rs:1961-1982 | a request lifted, and with it any answer or word that was still to come |
| BusInterface.Busint.PollAck | src/busint.rs:2386-2418 | the acknowledgement if it has risen, the debugger's own timeout made a release |
| BusInterface.Busint.FinishCycle | src/busint.rs:2453-2458 | the cycle ends, acknowledged or not, and when the request of one acknowledged rises is remembered |
| BusInterface.Busint.DebugOutAnswer | src/busint.rs:1848-1861 | an answer is taken exactly when a request waits and has not timed out |
| BusInterface.Busint.DebugOutPromise | src/busint.rs:1869-1887 | what it returns, asked at an edge just taken, is no later than any event to come of a request not answered could be |
| DebugCable.SettledValid | src/cable.rs:1233-1255 | what is held stays an optional release, an optional request and that request's release, in order, and all of it is to come once settled |
| DebugCable.MadeValid | src/cable.rs:1233-1255 | a request goes only on a free connector, at its own instant, and a release clears the connector and the answer |
| DebugCable.AskedValid | src/cable.rs:1373-1397 | a request from the wire, taken or refused, keeps it so |
| DebugCable.UnpluggedFree | src/cable.rs:1430-1434 | the cable pulled, nothing is held and the connector is free |
| DebugCable.DebugIn.DebugUnplug | src/cable.rs:1427-1434 | what is held is dropped and the request on the connector lifted at the clock's own instant |
| DebugCable.RunsValid | src/cable.rs:1066-1069 | so over every run of requests, releases, boards' events and the cable pulled: never more than three held, in order, all of it to come |
| DebugCable.EarlierAnswerExactly | src/cable.rs:1166-1183 | an answer can be seen while a request taken is held exactly when the one on the connector was unanswered as it was taken |
| DebugCable.NoEarlierAnswer | src/cable.rs:1393-1394 | when it was not, no run shows an answer till the request goes on |
| DebugCable.EarlierAnswerSeen | src/cable.rs:1166-1183 | from a connector just plugged in, a request released but not yet lifted is acknowledged while the next is held |
| DebugCable.DebugIn.SettleDue | src/cable.rs:1233-1255 | the loop does exactly that, and leaves at most three held |
| DebugCable.DebugIn.DebugRequestAt | src/cable.rs:1373-1397 | taken exactly when none is held, the connector is or will be free, and it is not dated behind the last |
| DebugCable.DebugIn.DebugReleaseAt | src/cable.rs:1402-1421 | a release with nothing outstanding is nothing, and one dated behind the last is refused |
| DebugCable.DebugIn.RunTo | src/cable.rs:1325-1335 | the boards reach the limit and no further; what is held is made in order, each at its own instant, and what is left is past the limit |
| ClockGenerator.StepStands | src/clock.rs:488-558 | over any speeds, ILONG, hangs, resets and passes, held anywhere, the generator stands somewhere in a cycle, as long as each tap is chosen before its read phase is over |
| ClockGenerator.RunStands | src/clock.rs:488-558 | so over every run |
| ClockGenerator.OrderExactly | src/clock.rs:544-558 | over every run, holds in mid-cycle and all, its events to come stay in order, none before the time, exactly when each tap is chosen no more than its read phase past the cycle's start |
| ClockGenerator.HeldTooLong | src/cable.rs:1291-1294 | held 15 ns before a tap of 75 is chosen, an event is due 5 ns before the time |
| ClockGenerator.HoldExactly | src/clock.rs:544-558 | one hold leaves the rest of its cycle in order, every output at its own instant, exactly when it falls with no output left to move, or past TPTSE's with the tap not chosen and is no longer than what is then left of the read phase |
| ClockGenerator.StandsInOrder | src/clock.rs:378-381 | wherever it stands, pending events are in order, none before the time |
| ClockGenerator.Windows | src/clock.rs:488-530 | what the cycle has been held not counted, TPWP is high exactly from 30 to 60 ns past the read phase, TPTSE low exactly from 5 to 25, TPCLK and TPWPIRAM in theirs |
| ClockGenerator.WaitsLow | src/clock.rs:496-500 | waiting at the start of a cycle, nothing is up but TPTSE |
| ClockGenerator.TenTransitions | src/chip.rs:2399-2408 | an unheld cycle is ten transitions, the tenth the first at phase 0 again, and lasts the read phase chosen at its fourth and 60 ns |
| ClockGenerator.LateScheduled | src/clock.rs:400-412 | the tap's events fall in among what is left of the cycle in their order, the pulse's end before the restart |
| ClockGenerator.Behavioral.AdvanceClock | src/clock.rs:488-530 | a transition of the generator leaves it in order exactly when the tap it chooses, if it chooses one, is in time, and then standing in a cycle |
| ClockGenerator.Behavioral.PassTime | src/clock.rs:544-558 | time passed: held, in mid-cycle or not, all that is to come moves with it and the cycle's start does not |
| ClockGenerator.Behavioral.Schedule | src/clock.rs:378-381 | an event goes after every other due by its instant |
| LruCache.Cache.Read | src/cache.rs:135-151 | a read hits exactly when its line was read since the last invalidate and fewer other lines of its set than there are ways have been read since |
| LruCache.Cache.Holds | src/cache.rs:154-157 | so does holding, touching nothing |
| LruCache.Cache.Invalidate | src/cache.rs:161-165 | everything dropped, the counts kept |
| LruCache.HitsExactly | src/cache.rs:133-151 | the most recent distinct lines of a set, cut to its ways, hold a line exactly by its stack distance |
| LruCache.PlaceIsDistance | src/cache.rs:133-151 | a line's place in its set is how many others of it have been read since |
| LruCache.MoreWaysHit | src/cache.rs:133-151 | with as many sets, more ways never lose a hit |
| LruCache.SetsHoldWords | src/cache.rs:98-111 | a shape that passes its check has sets that hold its words exactly |
| Checkpoint.Pack | src/checkpoint.rs:514-537 | the packing is the runs of zeros and literals, in order |
| Checkpoint.Unpack | src/checkpoint.rs:548-567 | the unpacking is the decoder's, errors included |
| Checkpoint.RoundTrip | src/checkpoint.rs:513-567 | every body up to the most one can be unpacks to itself |
| Checkpoint.VarintRoundTrip | src/checkpoint.rs:486-511 | every 64-bit count reads back, at any offset, and the reading stops at its end |
| Checkpoint.RunsAreTight | src/checkpoint.rs:520-531 | no run of literals holds four zeros together, and every run but the first begins with four |
| Checkpoint.PackedSize | src/checkpoint.rs:514-537 | packing adds at most four bytes to a body under 2^21 |
| BlockTransfers.RoundTrip | src/block_disk.rs:192-290 | with disk enough, a write and then a read through the same list leaves each word of the pages moved as it comes back, and every other as it was |
| BlockTransfers.PackedRoundTrip | src/block_disk.rs:30-40 | packed, memory is as it was |
| BlockTransfers.ThereAndBack | src/block_disk.rs:192-290 | step by step, though the read rewrites the list it follows |
| BlockTransfers.ReadKeeps | src/block_disk.rs:38-40 | a read changes no word but of the pages it moved whole, so the page it stopped in is untouched |
| BlockTransfers.Ends | src/block_disk.rs:265-289 | the address left names the final block to move, or the first that could not |
| BlockTransfers.Follow | src/block_disk.rs:215-289 | the list followed in memory it may itself rewrite moves what the transfer of the list moves; the loop ends by the blocks left |
| BlockTransfers.BlockDisk.Start | src/block_disk.rs:192-290 | START moves memory and disk in place as the list says, with its errors, its address and its time |
| BlockTransfers.KeptIs | src/block_disk.rs:235-245 | the packed pair keeps a forty-bit word, the 4-byte pair its low half under the unboxed tag |
| PackLabel.WordsOpen | src/band.rs:370-415 | a label that fits is a block, and opens as the label with its text clean, for any descriptor width |
| PackLabel.ComesBack | src/band.rs:370-415 | every field and partition comes back exactly when no name holds a NUL and no other text ends in a NUL or a blank |
| PackLabel.OwnName | src/band.rs:314-316 | a name comes back exactly when it holds no NUL |
| PackLabel.OwnText | src/band.rs:323-325 | a text is its own trimmed exactly when it ends in neither |
| PackLabel.LabelWords | src/band.rs:563-601 | the block filled in place, or none when a name, a text or the table does not fit |
| PackLabel.PutText | src/band.rs:340-348 | text goes into its words and nowhere else, or is refused |
| PackLabel.LayOut | src/band.rs:546-556 | each entry from one on is pushed up to the end of the one before, if it is not past it |
| PackLabel.LaidClear | src/band.rs:526-556 | no entry moves down and none overlaps the one before |
| PackLabel.LaidLeast | src/band.rs:526-545 | of all the starts that do neither, those are the least |
| PackLabel.Initialize | src/band.rs:473-514 | a fresh pack's partitions, one after another |
| PackLabel.FreshApart | src/band.rs:496-512 | they are apart and past the first track, and those sized in cylinders begin at one |

## Left out

- Parts, drive resolution, netlist parsing and the processor engines: what a gate computes and how drivers resolve are functions of the board.
- The evaluator's generation counts, net stamps, sleeping-part heuristic and the list of dirty parts: none of them decides a net's level.
- The evaluator's dirty-group words are sets of their set bits, and its flat order and group starts are the nested order they flatten.
- Chip.Chip.Settle: does not say a group reported unsettled had no fixpoint, because the sweep limit is a heuristic the source only reports.
- Chip.Chip.SetNet: promises the invariant but for the net set, because the source sets driven nets too and trusts the caller to settle.
- A gate with no output net, or one on a supply, keeps the level it was last given, because the source never resolves its net; nothing reads that level.
- The rest of a part's update, edges and snapshots: Chip.Chip.UpdatePart takes the new value as given.
- Lzw.Encode: says the end code is read or fewer bits than a code are left, because the encoder writes it at its own width, which can be a bit short of the decoder's.
- GIF headers, sub-blocks, palettes and the color recorder: the frames' rectangles, times and LZW data are modelled.
- Recorder.Recorder.Sample: takes the screens to stay of the size the first sample found, as the source asserts of their width; and the canvas as the value of its pixels, the loops that paint it one at a time not being modelled.
- File handles, paths and failing reads or writes of the file itself: a file is bytes that take what is written.
- DynamicVhd.CutShort: asks that what the file is left ending in is not itself taken for a footer, because the source tells a footer by its bytes alone; DynamicVhd.CutAnywhere asks it of the data written instead.
- DiskFile.Disk: a block's words are its bytes, the low byte of each first; opening, saving and loading it are not modelled.
- The bus interface's Xbus answers, I/O board answers and the cache, buffer and memory that answer QUUX off the Xbus come in as functions or as an instant; the memory boards' own timing is in `MemoryTwin` and `Backplane`.
- `debug_in_promise`, `keep_timing_model`, the address decode and the registers' contents: they rest on engine code outside these files or are one-branch facts.
- BusInterface.Busint.FinishCycle: keeps the interface safe but for a cycle that waits on the debug cable, which the engines never finish.
- BusInterface.Busint.RequestDebug: refuses a request the source asserts cannot come.
- Wide-integer overflow of nanosecond counters: times are bounded where the source compares with the greatest one, and unbounded elsewhere.
- ClockGenerator.StepStands: says nothing of where a generator stands once a tap has been chosen late, until a reset.
- The boards behind the debug cable's far end: an acknowledgement is a function of the instant and the request, and the boards' own events always lie ahead.
- BlockTransfers.BlockDisk: status, interrupt and checkpoint registers, the transfer log's entries, and blocks the file cannot deliver are not modelled.
- PackLabel.Open: its errors are one, and text read is by bytes as the label's own writer leaves it.
