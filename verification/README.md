# ArchInstallus, modelled in Dafny

ArchInstallus drives an Arch Linux installation from a Flipper Zero. It has
three Flipper apps and a PC companion, and this project models the core of
each.

- **The simple app** (`SimpleApp`) counts a progress value from 0 to 100 in
  steps of 5. It switches the displayed stage every 20. OK starts a run and
  Back stops it.
- **The complete app** (`CompleteApp`) is a session record. A worker moves it
  through fifteen phases, from hardware detection to cleanup. Each phase walks
  a fixed table of sub-steps that write a step percentage. After each phase
  succeeds, a fixed overall-progress milestone is written. OK starts the
  session. Back pauses and resumes it, or resets it once it has finished. The
  main loop maps the current phase to an overall percentage.
- **The USB app** (`RealApp`) talks to the PC. Hello and disk detection each
  read one reply. Every later phase reads replies in a monitoring loop until
  one settles it. The main loop polls the PC and copies its status text into a
  64-byte buffer.
- **The PC companion** (`Companion`) is a USB client. It frames each command
  as two hex digits and an ASCII payload, and decodes replies that start with
  a 9-byte header. It polls the long-running phases and chains the
  installation steps on the first disk that was found.

Two modules are shared by all four:

- `Wire` is the byte format: the hex command prefix, ASCII encoding and
  decoding, little-endian 32-bit fields, and the response layout.
- `Polling` is the rule every phase uses to settle on an outcome, and the
  "stop at the first failure" chain.

`Arith` and `Seqs` hold small arithmetic and sequence facts the proofs use.

How things are modelled:

- State the C code updates in place is a `class`: `Session`, `App`,
  `RealApp` and `Client`. Ghost logs record every value the code writes, in
  order: step percentages, milestones, states entered, commands sent.
- Each method's contract ties its new state to a pure function of the old
  state, such as `OnInput`, `OnTick`, `RunFrom`, `Outcomes` or `PlanRange`.
  The properties are proved as lemmas about those functions.
- The transport is a parameter. For each exchange it says whether the write
  worked and which replies the reads return. A read past the last reply
  counts as a failed read.
- The complete app's phases never fail, and their methods prove `ok`. Its
  failure branches are kept in the worker, where they are unreachable. The USB
  app and the companion fail depending on the replies, and the model keeps
  those paths.

## Model

| member | source | states |
|---|---|---|
| Wire.Hex2 | flipper-zero-app-real/src/archinstallus_real.c:81 | `%02X` of a byte is exactly two upper-case hex digits whose value, high digit first, is the byte |
| Wire.CommandText | flipper-zero-app-real/src/archinstallus_real.c:81 | the command text is the byte's two hex digits followed by the payload; a NULL payload prints as nothing |
| Wire.ParseCommandText | flipper-zero-app-real/src/archinstallus_real.c:81 | reading a command text fails exactly when it is shorter than two characters or does not start with two upper-case hex digits |
| Wire.CommandTextRoundTrip | flipper-zero-app-real/src/archinstallus_real.c:81 | reading back the text of any command and payload gives that command and payload |
| Wire.CommandTextCanonical | flipper-zero-app-real/src/archinstallus_real.c:81 | every text that reads back is the text of what it reads back to, so the format is one-to-one |
| Wire.EncodeAscii | pc-companion/archinstallus_pc.py:70 | `encode('ascii')` succeeds exactly when every character is below 128, and then the bytes are the character codes |
| Wire.DecodeAsciiIgnore | pc-companion/archinstallus_pc.py:90 | `decode('ascii', errors='ignore')` yields ASCII text no longer than its input, and as long exactly when every byte is below 128 |
| Wire.DecodeAsciiIgnoreByte | pc-companion/archinstallus_pc.py:90 | one byte decodes to its character when below 128 and to nothing otherwise |
| Wire.DecodeAsciiIgnoreCons | pc-companion/archinstallus_pc.py:90 | decoding a byte string decodes its first byte and then the rest |
| Wire.DecodeAsciiIgnoreConcat | pc-companion/archinstallus_pc.py:90 | decoding works byte by byte: the decoding of two joined byte strings is the two decodings joined |
| Wire.DecodeAsciiOfEncoded | pc-companion/archinstallus_pc.py:90 | decoding the ASCII encoding of an ASCII text gives the text back |
| Wire.DecodeAsciiKeepsAll | pc-companion/archinstallus_pc.py:90 | all-ASCII bytes lose nothing in decoding and re-encode to the same bytes |
| Wire.EncodePacket | pc-companion/archinstallus_pc.py:70 | a packet exists exactly when the payload is ASCII, and it is two bytes longer than the payload |
| Wire.PacketRoundTrip | pc-companion/archinstallus_pc.py:70 | decoding the packet of any ASCII payload gives back the command and the payload |
| Wire.PacketCanonical | pc-companion/archinstallus_pc.py:70 | every packet that decodes is the encoding of what it decodes to |
| Wire.U32FromLE | pc-companion/archinstallus_pc.py:88-89 | a 4-byte little-endian field is below 2^32 |
| Wire.U32RoundTrip | pc-companion/archinstallus_pc.py:88-89 | reading the little-endian bytes of any 32-bit value gives the value |
| Wire.U32RoundTripBytes | pc-companion/archinstallus_pc.py:88-89 | writing back the value of any 4 bytes gives the same bytes |
| Wire.DecodeResponse | pc-companion/archinstallus_pc.py:86-92 | a reply decodes exactly when it has at least 9 bytes; the command is byte 0, status and progress are the little-endian values of bytes 1-4 and 5-8, and the text is the ignore-errors ASCII decoding of the bytes from 9 on |
| Wire.EncodeResponse | flipper-zero-app-real/src/archinstallus_real.c:55-60 | the bytes of a response as the decoder reads them back: the 9-byte header followed by the text alone, without the NUL padding of the fixed data field |
| Wire.ResponseRoundTrip | pc-companion/archinstallus_pc.py:86-92 | decoding the encoding of any encodable response gives the response |
| Wire.ResponseRoundTripBytes | pc-companion/archinstallus_pc.py:86-92 | a reply of at least 9 bytes with an ASCII tail decodes and re-encodes byte for byte |
| Polling.Classify | pc-companion/archinstallus_pc.py:126-134 | status 0 is success, status 1 means read again, and any larger status is failure; each holds in both directions |
| Polling.PollFromSettles | pc-companion/archinstallus_pc.py:121-134 | the loop run one read at a time succeeds exactly when the first read that is not "in progress" is a success |
| Polling.SettlesIgnoresLaterReads | pc-companion/archinstallus_pc.py:126-128 | once a read has settled the phase as a success, later replies cannot change the outcome |
| Polling.FailureIsFinal | pc-companion/archinstallus_pc.py:123-134 | a failed read or an error status settles the phase as a failure, whatever follows |
| Polling.ProgressOnlyNeverSettles | pc-companion/archinstallus_pc.py:129-131 | replies that are all "in progress" never make the phase succeed |
| Polling.FailureAfterProgressBlocks | pc-companion/archinstallus_pc.py:121-134 | a failure after nothing but "in progress" replies fails the phase |
| Polling.FirstFalseFromIsFirst | pc-companion/archinstallus_pc.py:227-268 | the first failing step at or after k: every step before it succeeds, and it fails |
| Polling.FirstFalseIsFirst | pc-companion/archinstallus_pc.py:227-268 | a chain gets through exactly when every step succeeds, and otherwise stops at the first that fails |
| CompleteApp.Code | complete-flipper-app/src/archinstallus.c:45-64 | the enum values: Idle is 0, Complete 16, Error 17, none above 17 |
| CompleteApp.PhaseOrderFollowsEnum | complete-flipper-app/src/archinstallus.c:564-680 | the worker runs fifteen phases, the k-th having enum value k + 1 |
| CompleteApp.Milestone | complete-flipper-app/src/archinstallus.c:564-680 | the milestone written after a phase is between 5 and 100 |
| CompleteApp.MilestonesRise | complete-flipper-app/src/archinstallus.c:564-680 | the milestones follow the phase order, rise strictly, and the last is 100 |
| CompleteApp.StepCount | complete-flipper-app/src/archinstallus.c:236-562 | each counted phase's table has between 1 and 100 entries |
| CompleteApp.StepValueBounds | complete-flipper-app/src/archinstallus.c:256 | `((i + 1) * 100) / n` is at most 100, and exactly 100 after the last entry |
| CompleteApp.StepValueRises | complete-flipper-app/src/archinstallus.c:256 | with at most 100 entries the step percentage rises strictly from entry to entry |
| CompleteApp.SubStepScheduleShape | complete-flipper-app/src/archinstallus.c:254-258 | a counted loop writes positive percentages that rise strictly to 100 |
| CompleteApp.ScheduleShape | complete-flipper-app/src/archinstallus.c:156-562 | in every phase the step percentage starts at 0, rises strictly and ends at 100 |
| CompleteApp.StepLogBounded | complete-flipper-app/src/archinstallus.c:156-680 | across any number of phases every step percentage written is within 0..100, earlier writes are kept, and after a phase the last one is 100 |
| CompleteApp.DisksAfterRun | complete-flipper-app/src/archinstallus.c:197-308 | from disk detection on the record holds one disk, with 4 partitions once partitioning has run and mounted once mounting has, whatever it held before |
| CompleteApp.PartitionLabelOverruns | complete-flipper-app/src/archinstallus.c:254-258 | as written, partitioning leaves the label 9 of 8, the numerator above the denominator, while every other counted phase ends on n of n |
| CompleteApp.StepLabelsInRange | complete-flipper-app/src/archinstallus.c:254-258 | with the table size as denominator the labels count 1 of n up to n of n, one per entry, and end where the labels as written end in every phase but partitioning |
| CompleteApp.OnInput | complete-flipper-app/src/archinstallus.c:736-777 | the input callback keeps both percentages within 0..100 |
| CompleteApp.OnlyOkAndBackPressesAct | complete-flipper-app/src/archinstallus.c:740-775 | releases, repeats and the arrow keys change nothing |
| CompleteApp.OkStartsOnlyFromIdle | complete-flipper-app/src/archinstallus.c:742-757 | OK changes the session exactly when it is idle and stopped; it then sets running and unpaused and never touches the state or the percentages |
| CompleteApp.BackTwiceRestoresPause | complete-flipper-app/src/archinstallus.c:759-763 | during a run Back flips the pause flag, and pressing it twice restores everything but the status text |
| CompleteApp.OkWhilePausedIgnored | complete-flipper-app/src/archinstallus.c:742-757 | OK during a paused run changes nothing, although the label says "Press OK to continue" |
| CompleteApp.BackResetsTerminal | complete-flipper-app/src/archinstallus.c:764-770 | Back after completion or error resets to idle with both percentages at 0, after which OK starts a run |
| CompleteApp.TickProgress | complete-flipper-app/src/archinstallus.c:844-900 | in every phase the main loop shows that phase's milestone |
| CompleteApp.OnTick | complete-flipper-app/src/archinstallus.c:844-900 | the main loop changes only the overall percentage and keeps it within 0..100 |
| CompleteApp.TickAgreesWithWorker | complete-flipper-app/src/archinstallus.c:844-900 | for every phase, the main loop shows the same percentage the worker writes once the phase succeeds |
| CompleteApp.TickMonotone | complete-flipper-app/src/archinstallus.c:844-900 | from the first phase to Complete, in enum order, the main loop's percentage never decreases |
| CompleteApp.TickKeepsIdleErrorPaused | complete-flipper-app/src/archinstallus.c:844-900 | an idle, failed, paused or stopped session keeps its percentage |
| CompleteApp.BarWidth | complete-flipper-app/src/archinstallus.c:713 | the 8-bit bar width is below 256; up to 100 % it is the floor of 116/100 of the percentage, at most 116 |
| CompleteApp.BarArith | complete-flipper-app/src/archinstallus.c:713 | up to 100 % neither the 32-bit product nor the 8-bit store truncates |
| CompleteApp.BarWidthMonotone | complete-flipper-app/src/archinstallus.c:713 | up to 100 % the bar grows with the percentage, is empty at 0 and fills the 116-pixel track at 100 |
| CompleteApp.Session.constructor | complete-flipper-app/src/archinstallus.c:793-829 | a new session is idle, stopped, unpaused, at 0 %, with no disk and no error |
| CompleteApp.Session.EnterPhase | complete-flipper-app/src/archinstallus.c:156-160 | a phase opens by setting its state and label and writing step 0 |
| CompleteApp.Session.RunSubSteps | complete-flipper-app/src/archinstallus.c:254-258 | a counted loop writes exactly the phase's schedule and ends at 100 with the last label as written, which for partitioning is 9 of 8 |
| CompleteApp.Session.DetectHardware | complete-flipper-app/src/archinstallus.c:156-195 | hardware detection succeeds after writing 0, 20, 40, 60, 80, 100 |
| CompleteApp.Session.DetectDisks | complete-flipper-app/src/archinstallus.c:197-219 | disk detection records exactly one disk, so its "no disks" check always passes |
| CompleteApp.Session.DetectNetwork | complete-flipper-app/src/archinstallus.c:221-234 | network detection succeeds after writing 0, 50, 100 |
| CompleteApp.Session.RunCountedPhase | complete-flipper-app/src/archinstallus.c:236-562 | partitioning to cleanup succeed after their schedules, leaving the last label as written; partitioning records 4 partitions and mounting marks the disk mounted |
| CompleteApp.Session.RunPhase | complete-flipper-app/src/archinstallus.c:156-562 | any phase enters its state, writes 0 and then its schedule, leaves step progress at 100 and the phase's last label, and changes the disk record as that phase does; disk detection succeeds exactly when it found a disk |
| CompleteApp.Session.RunStage | complete-flipper-app/src/archinstallus.c:564-680 | phase k writes its step percentages, label and disk change, then the worker writes its milestone on success, or the phase's error text on failure |
| CompleteApp.Session.RunStages | complete-flipper-app/src/archinstallus.c:564-680 | the phases run in order, each writing its step percentages and changing the disk record, each success writes its milestone, and the run stops in the first phase that fails, showing its last label |
| CompleteApp.Session.PerformInstallation | complete-flipper-app/src/archinstallus.c:564-680 | returns 0 with state Complete at 100 % after all fifteen phases, their step percentages and milestones, leaving one disk with 4 partitions, mounted; or -1 in the failing phase with its last label, its error text and the previous milestone |
| CompleteApp.Session.Finish | complete-flipper-app/src/archinstallus.c:676-677 | the worker's last step sets the state Complete and the completion label |
| CompleteApp.Session.HandleInput | complete-flipper-app/src/archinstallus.c:736-777 | the callback's effect is `OnInput` of the old session |
| CompleteApp.Session.MainLoopTick | complete-flipper-app/src/archinstallus.c:843-900 | the loop's effect is `OnTick` of the old session |
| SimpleApp.OnInput | flipper-zero-app/src/archinstallus.c:70-99 | the input callback never changes the progress |
| SimpleApp.InputStartsAndStops | flipper-zero-app/src/archinstallus.c:70-99 | OK starts a run whenever none is going, even after completion; Back stops a running one; nothing else acts |
| SimpleApp.Body | flipper-zero-app/src/archinstallus.c:106-135 | one pass writes the loop value to the progress |
| SimpleApp.BodyFollowsStage | flipper-zero-app/src/archinstallus.c:108-135 | stepping by 5, the state after each pass is the stage its progress belongs to, and only the pass for 100 clears running |
| SimpleApp.StageOrdered | flipper-zero-app/src/archinstallus.c:108-135 | stages follow the enum order as the progress grows |
| SimpleApp.RunFrom | flipper-zero-app/src/archinstallus.c:105 | the loop from value i writes at most (100 - i) / 5 + 1 values |
| SimpleApp.UninterruptedFrom | flipper-zero-app/src/archinstallus.c:102-139 | from any multiple of 5, a run left alone writes every remaining step and ends Complete at 100, stopped |
| SimpleApp.UninterruptedRunCompletes | flipper-zero-app/src/archinstallus.c:102-139 | a run left alone writes 0, 5, ..., 100 and ends Complete and stopped |
| SimpleApp.CancelledFrom | flipper-zero-app/src/archinstallus.c:102-139 | a Back press before value c stops the run idle, writing exactly the values before c |
| SimpleApp.CancelledRunStops | flipper-zero-app/src/archinstallus.c:83-89 | a cancelled run ends idle, stopped, with the progress at the last value written, and never completes |
| SimpleApp.StoppedRunIsNoOp | flipper-zero-app/src/archinstallus.c:105 | without the running flag the loop writes nothing |
| SimpleApp.OkThenTickCompletes | flipper-zero-app/src/archinstallus.c:171-177 | from start-up, OK and one main-loop pass complete the installation, and OK again runs it once more to the same end |
| SimpleApp.BarWidth | flipper-zero-app/src/archinstallus.c:63 | the 8-bit bar width is below 256 |
| SimpleApp.BarWidthIsProgress | flipper-zero-app/src/archinstallus.c:63 | within 0..100 the bar is exactly as many pixels long as the progress |
| SimpleApp.PercentTextIgnoresProgress | flipper-zero-app/src/archinstallus.c:60 | as written, the screen shows "100%" at 0 % as at 100 % |
| SimpleApp.DecimalRoundTrip | flipper-zero-app/src/archinstallus.c:60 | the decimal digits of a number read back as the number |
| SimpleApp.PercentTextShowsProgress | flipper-zero-app/src/archinstallus.c:60 | the corrected text is the progress in digits and a percent sign; it reads back as the progress, so different values show different texts |
| SimpleApp.App.constructor | flipper-zero-app/src/archinstallus.c:154-158 | the app starts idle, stopped, at 0 %, with "Ready - Press OK" |
| SimpleApp.App.HandleInput | flipper-zero-app/src/archinstallus.c:70-99 | the callback's effect is `OnInput` of the old app |
| SimpleApp.App.Pass | flipper-zero-app/src/archinstallus.c:106-135 | one pass's effect is `Body`, and it logs the value written |
| SimpleApp.App.SimulateInstallation | flipper-zero-app/src/archinstallus.c:102-139 | the loop ends in the final snapshot of `RunFrom` and logs exactly its writes |
| SimpleApp.App.MainLoopTick | flipper-zero-app/src/archinstallus.c:171-177 | the main loop runs the simulation only when running and not complete |
| RealApp.ReadVerdict | flipper-zero-app-real/src/archinstallus_real.c:177-190 | a failed read or an error status fails the phase; only a STATUS reply with status 0 succeeds; replies to other commands are skipped |
| RealApp.MonitorPhase | flipper-zero-app-real/src/archinstallus_real.c:169-193 | a monitored phase succeeds exactly when its command was sent and the first reply that settles it is a success |
| RealApp.SingleReplyStricterThanMonitor | flipper-zero-app-real/src/archinstallus_real.c:136-166 | hello and disk detection succeed only where a monitor would, but fail on a late success that a monitor accepts |
| RealApp.StubReplySucceedsAtOnce | flipper-zero-app-real/src/archinstallus_real.c:107-133 | the reply the file transport makes up settles every exchange as a success on its first read, once the command was written |
| RealApp.StagesRise | flipper-zero-app-real/src/archinstallus_real.c:330-367 | along a run the state (in enum order) and the progress rise strictly, and only the last stage is Complete at 100 |
| RealApp.OnInput | flipper-zero-app-real/src/archinstallus_real.c:415-447 | the input callback changes neither the progress nor the connection flag |
| RealApp.InputStartsAndStops | flipper-zero-app-real/src/archinstallus_real.c:415-447 | OK acts only when stopped and Back only when running; a finished run needs Back, then OK |
| RealApp.CText | flipper-zero-app-real/src/archinstallus_real.c:495-496 | a C string is the NUL-free prefix of the buffer up to the first NUL |
| RealApp.StatusCopyFits | flipper-zero-app-real/src/archinstallus_real.c:496-497 | the copied status fits the 64-byte buffer with its NUL, is a prefix of the reply, and is the whole text whenever that fits |
| RealApp.OnTick | flipper-zero-app-real/src/archinstallus_real.c:487-504 | the main loop changes neither the state, nor the progress, nor the running flag |
| RealApp.TickReflectsReply | flipper-zero-app-real/src/archinstallus_real.c:487-504 | a successful STATUS reply marks the PC connected and shows its text when it has any; any other reply marks it disconnected; a failed read changes nothing |
| RealApp.RealApp.constructor | flipper-zero-app-real/src/archinstallus_real.c:462-467 | the app starts idle, stopped, at 0 %, disconnected, with "Ready - Press OK" |
| RealApp.RealApp.RunMonitoredStages | flipper-zero-app-real/src/archinstallus_real.c:330-364 | partition to configure run in order, each entering its state and progress and sending its command; the run stops at the first failure, in that stage, or ends in the configure stage at 90 % |
| RealApp.RealApp.PerformRealInstallation | flipper-zero-app-real/src/archinstallus_real.c:316-373 | returns 0 exactly when all eight exchanges succeed, ending Complete at 100 after sending FINISH; otherwise -1, recording the connect or detect failure or stopping in the failing stage |
| RealApp.RealApp.HandleInput | flipper-zero-app-real/src/archinstallus_real.c:415-447 | the callback's effect is `OnInput` of the old app |
| RealApp.RealApp.MainLoopTick | flipper-zero-app-real/src/archinstallus_real.c:487-504 | the loop's effect is `OnTick` of the old app for the reply read |
| Companion.Reply | pc-companion/archinstallus_pc.py:77-97 | a reply exists exactly when the client is connected, the read returns data, and the data holds at least 9 bytes |
| Companion.ReplyVerdict | pc-companion/archinstallus_pc.py:121-134 | a phase fails on no reply or on a status above 1; the command byte is not looked at |
| Companion.CommandByteOnlyCheckedOnFlipper | pc-companion/archinstallus_pc.py:126-128 | a status-0 reply to another command counts as success here, but a Flipper monitor skips it |
| Companion.Split | pc-companion/archinstallus_pc.py:112 | `str.split` always yields at least one piece |
| Companion.SplitJoin | pc-companion/archinstallus_pc.py:112 | joining the pieces gives the text back, no piece holds the separator, and the pieces of ASCII text are ASCII |
| Companion.DisksNonEmptyIffReplyOk | pc-companion/archinstallus_pc.py:106-115 | the disk list is non-empty exactly when the detection reply succeeds, and an empty reply text gives the one name "" |
| Companion.PlanRangeAt | pc-companion/archinstallus_pc.py:227-268 | a stretch of the plan holds exactly the steps it names, in order |
| Companion.PlanOpens | pc-companion/archinstallus_pc.py:231-236 | the plan opens with hello ("PC_READY") and the disk detection, whatever the disk |
| Companion.PlanRangeSplit | pc-companion/archinstallus_pc.py:227-268 | two consecutive stretches of the plan make up their union |
| Companion.Written | pc-companion/archinstallus_pc.py:63-75 | a send writes at most one packet, one exactly when it succeeds, and that packet decodes to the step |
| Companion.PlanWrittenSplit | pc-companion/archinstallus_pc.py:227-268 | the packets two consecutive stretches of the plan write make up those of their union |
| Companion.PlanWrittenAt | pc-companion/archinstallus_pc.py:227-268 | when every step of a stretch can send, the stretch writes one packet per step, in order, each decoding to its plan entry |
| Companion.PlanWrittenOpens | pc-companion/archinstallus_pc.py:231-236 | the opening writes at most the hello packet and then the disk-detection packet |
| Companion.OpeningOutcomes | pc-companion/archinstallus_pc.py:231-241 | hello succeeds when its one reply has status 0; disk detection when it yields at least one name |
| Companion.StepOkSends | pc-companion/archinstallus_pc.py:227-268 | a step that succeeds has sent its plan entry |
| Companion.SuccessSendsEveryStep | pc-companion/archinstallus_pc.py:227-268 | in a run that gets through, every one of the eight steps sent |
| Companion.SuccessWritesWholePlan | pc-companion/archinstallus_pc.py:227-268 | a run that gets through wrote eight packets, in plan order, each decoding to its step's command and payload |
| Companion.TargetStepOk | pc-companion/archinstallus_pc.py:241-266 | from partitioning on, a step's outcome is that of its plan entry on the first disk, and only mounting reads a single reply |
| Companion.TargetDiskIsAscii | pc-companion/archinstallus_pc.py:241-244 | the first disk name is ASCII, so the partition payload always encodes |
| Companion.MountDoesNotPoll | pc-companion/archinstallus_pc.py:157-165 | an "in progress" reply before a success fails the mount step, although a polling phase would succeed on it |
| Companion.Client.constructor | pc-companion/archinstallus_pc.py:37-39 | a new client has no device and is not connected |
| Companion.Client.Connect | pc-companion/archinstallus_pc.py:41-61 | connecting succeeds exactly when the device is found and set up; a failure leaves the connected flag as it was |
| Companion.Client.Disconnect | pc-companion/archinstallus_pc.py:270-278 | the flag clears only when there is a device and releasing it works |
| Companion.Client.SendCommand | pc-companion/archinstallus_pc.py:63-75 | sending succeeds exactly when connected, with an ASCII payload and a working write; exactly then one packet is written, and it decodes to the command and payload |
| Companion.Client.ReceiveResponse | pc-companion/archinstallus_pc.py:77-97 | the result is `Reply` of the read |
| Companion.Client.Hello | pc-companion/archinstallus_pc.py:99-104 | hello succeeds exactly when the send works and the one reply has status 0; it writes the packet for its command and payload exactly when the send succeeds |
| Companion.Client.DetectDisks | pc-companion/archinstallus_pc.py:106-115 | the result is the reply text split at ';' on success, else the empty list; it writes the packet for its command and payload exactly when the send succeeds |
| Companion.Client.PollPhase | pc-companion/archinstallus_pc.py:117-135 | a polled phase succeeds exactly when the send works and the replies settle it as a success; it writes the packet for its command and payload exactly when the send succeeds |
| Companion.Client.PartitionDisk | pc-companion/archinstallus_pc.py:117-135 | partitioning sends `disk:layout` and polls; it writes the packet for its command and payload exactly when the send succeeds |
| Companion.Client.FormatPartitions | pc-companion/archinstallus_pc.py:137-155 | formatting sends its payload and polls; it writes the packet for its command and payload exactly when the send succeeds |
| Companion.Client.MountFilesystems | pc-companion/archinstallus_pc.py:157-165 | mounting sends its payload and reads one reply, which must have status 0; it writes the packet for its command and payload exactly when the send succeeds |
| Companion.Client.DownloadArch | pc-companion/archinstallus_pc.py:167-185 | downloading sends the mirror and polls; it writes the packet for its command and payload exactly when the send succeeds |
| Companion.Client.InstallSystem | pc-companion/archinstallus_pc.py:187-205 | installing sends the package list and polls; it writes the packet for its command and payload exactly when the send succeeds |
| Companion.Client.ConfigureSystem | pc-companion/archinstallus_pc.py:207-225 | configuring sends its settings and polls; it writes the packet for its command and payload exactly when the send succeeds |
| Companion.Client.RunStep | pc-companion/archinstallus_pc.py:243-266 | step k on the first disk returns that step's outcome, sends that step's plan entry, and writes its packet exactly when the send succeeds |
| Companion.Client.RunTargetSteps | pc-companion/archinstallus_pc.py:243-266 | partitioning to configuring run in order and stop at the first failure, having sent the plan up to and including it and written the packets of those sends |
| Companion.Client.OpenSession | pc-companion/archinstallus_pc.py:231-241 | hello then disk detection; succeeds exactly when both do, and then yields the first disk; the packets written are those of the opening steps tried |
| Companion.Client.PerformInstallation | pc-companion/archinstallus_pc.py:227-268 | succeeds exactly when all eight steps do, having sent the plan in order up to and including the first step that fails, and written the packets of those steps' sends |

## Left out

- Drawing is left out, apart from the bar-width arithmetic and the simple app's percentage text. This covers fonts, coordinates and the labels' exact wording (labels and error messages are datatypes such as `Label`, `ErrorLabel` and `ErrorMsg`).
- The complete and USB apps print the percentage with `%lu%%`. That text is not modelled; `SimpleApp.PercentText` shows what it prints.
- Threads are left out. OK starting the worker thread is modelled as a separate call (`PerformInstallation`, `PerformRealInstallation`). So is the simple app's Back press landing between loop passes: the `backBefore` parameter places it before the check for one value. The main loop and the worker running at the same time is not modelled.
- Delays, logging, the complete app's log buffer and mutex, notifications, vibration and the start time are left out. They have no effect on the modelled state.
- The infinite main loops are modelled one iteration at a time (`MainLoopTick`).
- The complete app's hardware-info and disk-info constants (CPU, memory, disk names and sizes) are not modelled. They are literals that nothing reads back.
- CompleteApp.Session.PerformInstallation: is not proved to return 0, although every phase succeeds. `RunPhase` does not export `ok` (next line), so the worker's failure path stays reachable in the model; it states what a failing run would leave instead.
- CompleteApp.Session.RunPhase: does not promise `ok`, although every phase returns true. Otherwise the worker's failure branches would be dead code the verifier flags. `DetectHardware`, `DetectNetwork` and `RunCountedPhase` each prove `ok`, and `DetectDisks` proves `ok == (diskCount > 0)`.
- The USB app's transport is a pair of files under `/tmp`. The model does not open, create or write those files. It takes "the command was written" and "the replies read" as parameters, and `RealApp.StubReplySucceedsAtOnce` states what the made-up reply of the stub does to them.
- RealApp.RealApp.PerformRealInstallation: logs only the command byte of each exchange. The hello and partition payloads ("ARCHINSTALLUS_V1", "/dev/sda 512M:2G:4G:remain") are not modelled, and neither is the fact that they differ from the companion's (`PC_READY`, `disk:layout`). The outcome of sending FINISH is not looked at, as in the code.
- The USB app's `UsbResponse` has a fixed 1024-byte `data` field (flipper-zero-app-real/src/archinstallus_real.c:55-60), cleared with `memset` before the text is written (:116). `Wire.EncodeResponse` gives only the header and the text, not that NUL padding. A padded reply would decode with trailing NUL characters, and `detect_disks` would keep them in the last disk name.
- The USB app's `send_command` opens `/tmp/usb_command` with `FSOM_CREATE_NEW` (flipper-zero-app-real/src/archinstallus_real.c:90), which fails once the file exists, and nothing removes the file. Every send after the first would then fail, and disk detection with it. The model takes "the command was written" as a parameter per exchange and does not derive this.
- pyusb's `device.read` returns an `array.array('B')` (pc-companion/archinstallus_pc.py:84), which has no `decode` method. Line 90 would raise, line 94 would swallow it, and every reply would come back as `None`. The model decodes the bytes as the code evidently intends, so `Reply` and everything built on it describe the intended client, not that failure.
- pyusb is left out: finding the device, configuring it, claiming and releasing the interface, and the endpoint numbers. Their outcomes are the boolean parameters of `Connect` and `Disconnect`, and the printed exception texts are not modelled.
- A read that raises and a reply shorter than 9 bytes both give `None`, as in the code. A monitor or polling loop that runs out of the given replies treats that as a failed read; the code would block or keep reading.
- The companion's `time.sleep` between polls and every `print` are left out.
- The companion's `main` (pc-companion/archinstallus_pc.py:280-312) only prints, connects, installs and disconnects. It is not part of this model.

## Findings

| source | as written | input that shows it | evidently intended | confidence | as-written member | corrected member |
|---|---|---|---|---|---|---|
| complete-flipper-app/src/archinstallus.c:257 | the partition label prints a literal denominator 8 (`"Partition %d/8"`), but the loop walks nine commands | the last pass, i = 8, prints "Partition 9/8" | the denominator is the table size, 9, so the labels run 1/9 to 9/9 | not executed | CompleteApp.PartitionLabelOverruns | CompleteApp.StepLabelsInRange |
| flipper-zero-app/src/archinstallus.c:60 | the percentage under the bar is the literal "100%" | at start-up, progress 0, the screen already says "100%" | print the progress value followed by "%", as the other apps do with `%lu%%` | not executed | SimpleApp.PercentTextIgnoresProgress | SimpleApp.PercentTextShowsProgress |
