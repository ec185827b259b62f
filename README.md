# ASDF throttle-quadrant host add-on, modelled in Dafny

The host add-on connects a motorised throttle quadrant to a flight simulator.
It runs two threads that share one record without locks:

- The **device thread** (`TQThread`) speaks the ASDF serial protocol with the quadrant. It polls the buttons and the three lever positions, and publishes them. While the auto-throttle (A/T) is engaged, it drives the two throttle levers to the simulator's positions. When A/T disengages, it releases them.
- The **simulator thread** (`SCThread`) keeps its own copy of the quadrant data. It updates that copy from simulator messages, exchanges it with the shared record, and chooses which events and values to send to the aircraft.

The model has seven modules:

- `AsdfProtocol` (`protocol.dfy`): the command and response codes, the lever-set opcode family, the lever and button bits, and the packet record.
- `AsdfCodec` (`codec.dfy`): the frame a packet becomes on the wire, both as intended (`Frame`) and as the C code builds it (`WrittenFrame`). It also holds the response check of `asdf_send` (`Decode`).
- `AsdfLink` (`link.dfy`): the serial port as a class `SerialLink`. The class holds the open flag, the remembered port name and baud rate, the queue of received bytes `rx`, and the log of written bytes `tx`. The send functions and the `cmd_*` commands are methods of this class. What the operating system reports is passed in as parameters: whether a port opened, how many bytes a write or read moved, and what the uninitialised write buffer held.
- `SharedState` (`shared.dfy`): the shared record as a class with its defaults, and the single-writer rule for each field (`Owner`, `OnlyWrites`). It also holds what each thread publishes into the record, as the other thread sees it land (`BySimulator`, `ByDevice`), and the byte/percent conversions `asdf2sc` and `sc2asdf`.
- `DeviceControl` (`device.dfy`): one iteration of the `TQThread` loop.
  - It is specified by the function `Step` and performed in place by `Iteration`.
  - The whole loop is specified by `Run` and performed by `TqThread`.
  - `ResetDeviceOn` is `reset_device` on a `SerialLink`.
  - Inputs are the device's answers (the poll reading, whether a lever command succeeds) and the simulator thread's sync that lands in the record before each iteration. The commands issued come back as a list of operations.
- `ThrottleControl` (`throttle.dfy`): the simulator thread's globals as the class `SimBridge`.
  - The dispatch callback is specified by `Handle`.
  - `syncDataWithSharedStruct` is specified by `SyncSpec`.
  - `setDataOnAircraft` returns a list of action records, specified by `Actions`.
  - Also here: the `sim_running` gate, the loop step, and `SCThread`. Each pass of its loop may first meet a device iteration that lands in the record.
- `Partition` (`partition.dfy`): the two threads together. It proves the fields each side writes are disjoint while both see the same A/T flag. It also shows what happens in the hand-over when they do not.

## Model

| member | source | states |
|---|---|---|
| AsdfProtocol.CommandCodesDistinct | host-add-on/HostAddOn/HostAddOn/ASDFProtocol.h:8-15 | the four fixed command codes and the eight lever-set codes are twelve pairwise distinct bytes |
| AsdfProtocol.ResponseCodesDistinct | host-add-on/HostAddOn/HostAddOn/ASDFProtocol.h:25-32 | ERROR, ACK, RESET, POLL_OK and LVR_RELS_PILOT are pairwise distinct; the lever-release response equals the lever-release command 0x83 |
| AsdfProtocol.LeverBitsPartition | host-add-on/HostAddOn/HostAddOn/ASDFProtocol.h:17-22 | the speed-brake, throttle-1 and throttle-2 bits are pairwise disjoint, their union is 0x70, and it misses the base opcode 0x82 |
| AsdfProtocol.LeverSetListIsFormula | host-add-on/HostAddOn/HostAddOn/ASDFProtocol.h:14-17 | entry m of the lever-set table is 0x82 with m shifted into bits 4..6, for every m below 8 |
| AsdfProtocol.PythonMapAgrees | firmware/asdf_parse_test_new.py:14-23 | the Python console's map, keyed by the mask in three binary digits, gives the same eight opcodes as the C table |
| AsdfProtocol.LeverSetCode | host-add-on/HostAddOn/HostAddOn/ASDFProtocol.cpp:303-308 | the opcode is the table entry for the low three mask bits for every mask, has no bits outside the lever bits apart from 0x82, and is a command code |
| AsdfProtocol.LeverSetPacket | host-add-on/HostAddOn/HostAddOn/ASDFProtocol.cpp:310-346 | the packet carries the mask's opcode and the size the switch chooses (`LeverSetSize`); for a mask up to 7, one byte per selected lever taken in order from the front of the values, each masked to 7 bits and so below 128; for a larger mask, no payload; unused slots stay 0 |
| AsdfProtocol.ButtonStatus | host-add-on/HostAddOn/HostAddOn/ASDFProtocol.h:37-38 | the button test is nonzero exactly when bit i of the bitmap is set, and keeps no other bit |
| AsdfProtocol.Blank | host-add-on/HostAddOn/HostAddOn/ASDFProtocol.h:41-46 | a crafted packet has the given code and size and eight zeroed data slots |
| AsdfCodec.Frame | host-add-on/HostAddOn/HostAddOn/ASDFProtocol.cpp:111-120 | the intended frame has 1 + data_size bytes: the code, then every data byte in order |
| AsdfCodec.WrittenFrame | host-add-on/HostAddOn/HostAddOn/ASDFProtocol.cpp:111-120 | the frame as the loop writes it has 1 + data_size bytes; byte 0 is the code; bytes 1..data_size-1 are data bytes 0..data_size-2; the last position keeps the stale buffer byte |
| AsdfCodec.WrittenFrameIsFrameIff | host-add-on/HostAddOn/HostAddOn/ASDFProtocol.cpp:118-120 | the written frame equals the intended one exactly when there is no payload or the stale byte happens to equal the last data byte |
| AsdfCodec.LeverSetFrameLosesLastValue | host-add-on/HostAddOn/HostAddOn/ASDFProtocol.cpp:118-120 | cmd_lvr_set(0b011, [10, 20]) should put 0xB2, 10, 20 on the wire; on a zeroed buffer it puts 0xB2, 10, 0 |
| AsdfCodec.EmptyFrameIntact | host-add-on/HostAddOn/HostAddOn/ASDFProtocol.cpp:111-120 | a frame without payload (RESET, POLL, LEVER_RELEASE, ASDF) is written as just its code byte |
| AsdfCodec.Decode | host-add-on/HostAddOn/HostAddOn/ASDFProtocol.cpp:155-171 | nothing read fails; a wrong first byte fails; otherwise it succeeds even on a length mismatch, the bytes read overwrite the data area up to the expected number of data bytes, and data_size becomes bytes read minus one |
| AsdfCodec.FrameRoundTrip | host-add-on/HostAddOn/HostAddOn/ASDFProtocol.cpp:111-171 | decoding the intended frame of a packet, expecting its code and size, gives back its code, size and data bytes |
| AsdfCodec.WrittenRoundTripLosesLastValue | host-add-on/HostAddOn/HostAddOn/ASDFProtocol.cpp:118-120 | the same round trip on the frame as written returns 10, 0 for the values 10, 20 |
| AsdfLink.SerialLink.constructor | host-add-on/HostAddOn/HostAddOn/ASDFProtocol.cpp:10-18 | the port starts closed with no remembered name or baud rate and nothing sent or received |
| AsdfLink.SerialLink.InitSerial | host-add-on/HostAddOn/HostAddOn/ASDFProtocol.cpp:16-61 | a given name and a nonzero baud rate are remembered, others keep the previous ones; success returns 0 and opens the port; failure returns -1 and leaves the open flag as it was |
| AsdfLink.SerialLink.CloseSerial | host-add-on/HostAddOn/HostAddOn/ASDFProtocol.cpp:64-68 | the port is marked closed |
| AsdfLink.SerialLink.FlushReceiveBuffer | host-add-on/HostAddOn/HostAddOn/ASDFProtocol.cpp:71-73 | on success the receive queue is empty and the result is nonzero; on failure nothing changes |
| AsdfLink.SerialLink.SerialWrite | host-add-on/HostAddOn/HostAddOn/ASDFProtocol.cpp:88-90 | the bytes the system accepts are appended to what the device has received |
| AsdfLink.SerialLink.SerialRead | host-add-on/HostAddOn/HostAddOn/ASDFProtocol.cpp:93-96 | with enough bytes queued, the bytes read are the front of the queue and are removed from it |
| AsdfLink.SerialLink.ReadRemaining | host-add-on/HostAddOn/HostAddOn/ASDFProtocol.cpp:99-102 | reads the smaller of the requested size and the queued count, from the front of the queue |
| AsdfLink.SerialLink.SendNoRecv | host-add-on/HostAddOn/HostAddOn/ASDFProtocol.cpp:105-131 | on a closed port it fails and writes nothing; otherwise the frame as written goes out; a short write fails |
| AsdfLink.SerialLink.Send | host-add-on/HostAddOn/HostAddOn/ASDFProtocol.cpp:135-174 | fails without writing on a closed port or an expected size above 15; fails after a failed send; otherwise reads expected size + 1 bytes and succeeds exactly when Decode does, with the decoded packet; on failure the expected packet is returned untouched |
| AsdfLink.SerialLink.CmdReset | host-add-on/HostAddOn/HostAddOn/ASDFProtocol.cpp:180-212 | sends 0x80 without a response; a failed send returns before closing, with the port and receive queue unchanged; otherwise it closes and reopens with the remembered name and baud rate, the receive queue is what the rebooted device sent after its first byte, and it succeeds exactly when that first byte is 0x01 |
| AsdfLink.SerialLink.CmdPoll | host-add-on/HostAddOn/HostAddOn/ASDFProtocol.cpp:214-248 | sends 0x81, expects 0x02 with 4 data bytes; on success returns the button bitmap and the three lever bytes; on failure returns no reading; after a complete write the bytes read are gone from the receive queue, otherwise it is unchanged |
| AsdfLink.SerialLink.CmdLvrRels | host-add-on/HostAddOn/HostAddOn/ASDFProtocol.cpp:250-273 | sends 0x83 and succeeds exactly when the answer starts with 0x83; after a complete write the byte read is gone from the receive queue, otherwise it is unchanged |
| AsdfLink.SerialLink.CmdAsdf | host-add-on/HostAddOn/HostAddOn/ASDFProtocol.cpp:276-299 | sends 0xFF and succeeds exactly when the answer starts with ACK; after a complete write the byte read is gone from the receive queue, otherwise it is unchanged |
| AsdfLink.SerialLink.CmdLvrSet | host-add-on/HostAddOn/HostAddOn/ASDFProtocol.cpp:302-361 | writes the lever-set packet's frame as the C code builds it and succeeds exactly when the answer starts with ACK; after a complete write the byte read is gone from the receive queue, otherwise it is unchanged |
| AsdfLink.PollReadingOf | host-add-on/HostAddOn/HostAddOn/ASDFProtocol.cpp:224-239 | a poll reading always has three lever bytes, taken from a zero-initialised data area |
| AsdfLink.PollFullResponse | host-add-on/HostAddOn/HostAddOn/ASDFProtocol.cpp:236-239 | a full POLL_OK answer yields the bitmap and the speed-brake, throttle-1 and throttle-2 bytes in order |
| AsdfLink.PollShortResponse | host-add-on/HostAddOn/HostAddOn/ASDFProtocol.cpp:159-171 | a POLL_OK answer carrying only the bitmap still succeeds and reads every lever as 0 |
| SharedState.BySimulator | host-add-on/HostAddOn/HostAddOn/ThrottleControl.cpp:123-146 | what a simulator sync publishes (the A/T flag, the throttles when that flag is set, and quit on exit) changes only simulator-owned fields, judged by the flag it publishes, and never clears quit |
| SharedState.ByDevice | host-add-on/HostAddOn/HostAddOn/DeviceControl.cpp:75-111 | what a device iteration publishes (buttons, speed brake, and polled throttles that land only while the record's A/T flag is off) changes only device-owned fields |
| SharedState.SharedStruct.constructor | host-add-on/HostAddOn/HostAddOn/SharedStruct.h:20-26 | a fresh record has speed brake 0, both throttles 0, both buttons off, A/T off and quit off |
| SharedState.NoFieldWrittenByBoth | host-add-on/HostAddOn/HostAddOn/SharedStruct.h:10-19 | under the ownership rule `Owner` (speed brake and buttons to the device, A/T and quit to the simulator, throttles to whichever side the A/T flag names), two steps from the same record, one per thread, each keeping to its own fields under the same A/T flag, never change the same field |
| SharedState.DeviceNeverWritesFlags | host-add-on/HostAddOn/HostAddOn/SharedStruct.h:13-18 | a device-side change leaves the A/T flag and quit alone, and the throttles too while A/T is engaged |
| SharedState.SimulatorNeverWritesDeviceFields | host-add-on/HostAddOn/HostAddOn/SharedStruct.h:12-16 | a simulator-side change leaves the speed brake and buttons alone, and the throttles too while A/T is off |
| SharedState.Trunc | host-add-on/HostAddOn/HostAddOn/SharedStruct.cpp:13-15 | the float-to-integer cast truncates toward zero |
| SharedState.ToPercent | host-add-on/HostAddOn/HostAddOn/SharedStruct.cpp:8-10 | asdf2sc is non-negative and maps bytes 0..127 into 0..100 |
| SharedState.ByteRoundTrip | host-add-on/HostAddOn/HostAddOn/SharedStruct.cpp:8-15 | a lever byte 0..127 survives asdf2sc followed by sc2asdf |
| SharedState.ToByte | host-add-on/HostAddOn/HostAddOn/SharedStruct.cpp:13-15 | sc2asdf: whenever 127/100 of the percentage truncates into 0..255, the byte is exactly that truncation, as the C cast gives it |
| SharedState.PercentRoundTrip | host-add-on/HostAddOn/HostAddOn/SharedStruct.cpp:8-15 | sc2asdf maps 0..100 into 0..127, and going back loses less than one step of 100/127 and never overshoots |
| DeviceControl.Buttons | host-add-on/HostAddOn/HostAddOn/DeviceControl.cpp:75-76 | the TOGA flag is bit 0 of the bitmap and the A/T-disengage flag is bit 1 |
| DeviceControl.Step | host-add-on/HostAddOn/HostAddOn/DeviceControl.cpp:62-112 | one iteration, as a value: the record it leaves still holds two throttle levels and two buttons (what it writes is stated by the lemmas below) |
| DeviceControl.FailedPollWritesNothing | host-add-on/HostAddOn/HostAddOn/DeviceControl.cpp:67-72 | a failed poll resets the device, writes no field and keeps the lever flag |
| DeviceControl.PollPublishesButtonsAndSpeedBrake | host-add-on/HostAddOn/HostAddOn/DeviceControl.cpp:75-79 | after a successful poll, whatever the A/T state, the buttons are bits 0 and 1 and the speed brake is lever byte 0 as a percentage |
| DeviceControl.EngagedDrivesLevers | host-add-on/HostAddOn/HostAddOn/DeviceControl.cpp:81-95 | with A/T engaged, exactly one lever-set goes out (`DriveThrottles`), with mask 0b011 and both throttle levels as bytes; no release is sent; the throttles are not written; success locks the levers and failure resets and keeps the flag |
| DeviceControl.DisengagedReleasesFirst | host-add-on/HostAddOn/HostAddOn/DeviceControl.cpp:96-111 | with A/T off and the levers locked, a release is sent before any throttle write; failure resets, keeps the flag and writes no throttle; success releases and publishes the polled throttles |
| DeviceControl.ReleasedFollowsLevers | host-add-on/HostAddOn/HostAddOn/DeviceControl.cpp:98-111 | with A/T off and the levers released, only the poll is sent and the throttles are the polled bytes as percentages |
| DeviceControl.StepKeepsOwnership | host-add-on/HostAddOn/HostAddOn/SharedStruct.h:12-18 | an iteration writes only device-owned fields and never the A/T flag or quit |
| DeviceControl.DriveThrottlesFrame | host-add-on/HostAddOn/HostAddOn/DeviceControl.cpp:84-86 | for throttle levels 0..100 the intended frame is 0xB2 and both bytes unmasked; the frame as written carries a stale byte in place of the right throttle |
| DeviceControl.ThrottlePairPacket | host-add-on/HostAddOn/HostAddOn/ASDFProtocol.cpp:303-346 | for bytes below 128, cmd_lvr_set(0b011, ...) crafts opcode 0xB2 with two data bytes, the left then the right value, unmasked |
| DeviceControl.ThrottlePairFrame | host-add-on/HostAddOn/HostAddOn/ASDFProtocol.cpp:111-120 | that packet's intended frame is 0xB2, left, right; as written it is 0xB2, left and the stale byte |
| DeviceControl.Run | host-add-on/HostAddOn/HostAddOn/DeviceControl.cpp:62-113 | the loop, as a fold that stops on quit over a schedule of simulator writes and device answers: the record it leaves holds two throttle levels and two buttons |
| DeviceControl.RunKeepsOwnership | host-add-on/HostAddOn/HostAddOn/DeviceControl.cpp:62-113 | every iteration writes only device-owned fields of the record it starts from, judged by the A/T flag there, and keeps that flag and quit; when the simulator writes nothing meanwhile, the whole loop never writes the A/T flag or quit, nor the throttles while A/T is engaged |
| DeviceControl.LockThenRelease | host-add-on/HostAddOn/HostAddOn/DeviceControl.cpp:81-111 | inside one run, an iteration with A/T engaged drives and locks the levers; after the simulator publishes A/T off, the next iteration sends the release right after its poll, and the levers count as released exactly when that succeeds |
| DeviceControl.RunStopsOnQuit | host-add-on/HostAddOn/HostAddOn/DeviceControl.cpp:62 | with quit set the loop issues nothing and changes nothing |
| DeviceControl.StepPollsOnce | host-add-on/HostAddOn/HostAddOn/DeviceControl.cpp:67 | each iteration sends exactly one poll |
| DeviceControl.RunPollsOncePerTick | host-add-on/HostAddOn/HostAddOn/DeviceControl.cpp:62-72 | the loop sends at most one poll per scheduled iteration, and exactly one each when quit starts clear and the simulator never raises it |
| DeviceControl.Iteration | host-add-on/HostAddOn/HostAddOn/DeviceControl.cpp:62-112 | updating the shared record in place gives exactly the record, flag and commands of Step |
| DeviceControl.PollLoop | host-add-on/HostAddOn/HostAddOn/DeviceControl.cpp:62-113 | the loop performed in place, with the simulator's writes landing between iterations, leaves exactly the record, lever flag and commands of Run |
| DeviceControl.TqThread | host-add-on/HostAddOn/HostAddOn/DeviceControl.cpp:27-119 | a failed open or flush returns -1 with nothing written; otherwise it resets regardless of the answer, runs the loop as Run says with the levers starting released, and on quit closes the port and returns 0 |
| DeviceControl.ResetDeviceOn | host-add-on/HostAddOn/HostAddOn/DeviceControl.cpp:16-25 | closes, reopens \\.\COM6 at 115200 baud, which are then the remembered parameters, and sends RESET expecting 0x01; a failed open fails with the receive queue unchanged; after a successful open a failed write leaves the port open with an empty queue and fails; after the reset the queue is what the rebooted device sent after its first byte, or empty if the reopen failed |
| ThrottleControl.AxisLandmarks | host-add-on/HostAddOn/HostAddOn/ThrottleControl.cpp:133 | the rescale maps 0 to -16383, 50 to 0 and 100 to 16383 |
| ThrottleControl.AxisOf | host-add-on/HostAddOn/HostAddOn/ThrottleControl.cpp:133 | integer percentages 0..100 land in -16383..16383 |
| ThrottleControl.AxisMonotone | host-add-on/HostAddOn/HostAddOn/ThrottleControl.cpp:133 | the rescale, with C's truncating division, never decreases |
| ThrottleControl.SpeedBrakeAxis | host-add-on/HostAddOn/HostAddOn/ThrottleControl.cpp:133 | any published speed brake 0..100, cast to int and rescaled, lands on the axis |
| ThrottleControl.SyncSpec | host-add-on/HostAddOn/HostAddOn/ThrottleControl.cpp:123-146 | a sync, as a value: both the thread's copy and the shared record keep two throttle levels and two buttons |
| ThrottleControl.SyncDirection | host-add-on/HostAddOn/HostAddOn/ThrottleControl.cpp:123-146 | buttons and rescaled speed brake go to the simulator copy; the A/T flag goes to the record; throttles go to the record when engaged and come from it otherwise; the record's speed brake, buttons and quit are untouched |
| ThrottleControl.SyncKeepsOwnership | host-add-on/HostAddOn/HostAddOn/SharedStruct.h:13-18 | a sync writes only simulator-owned fields, judged by the A/T flag it publishes |
| ThrottleControl.Contains | host-add-on/HostAddOn/HostAddOn/ThrottleControl.cpp:465 | a match is never longer than the string searched |
| ThrottleControl.ContainsIff | host-add-on/HostAddOn/HostAddOn/ThrottleControl.cpp:465 | the substring search succeeds exactly when the name occurs at some position |
| ThrottleControl.Handle | host-add-on/HostAddOn/HostAddOn/ThrottleControl.cpp:320-494 | the callback, as a value on the thread's globals: the copy keeps two throttle levels and two buttons |
| ThrottleControl.HandleAll | host-add-on/HostAddOn/HostAddOn/ThrottleControl.cpp:524 | the messages of one dispatch call handled in order keep the copy's two throttle levels and two buttons |
| ThrottleControl.ClientDataFollowsAnnunciator | host-add-on/HostAddOn/HostAddOn/ThrottleControl.cpp:359-376 | after the PMDG data block, A/T equals the annunciator whatever the switch says, and nothing else changes |
| ThrottleControl.EventTransitions | host-add-on/HostAddOn/HostAddOn/ThrottleControl.cpp:384-458 | TOGA engages A/T and either disengage event clears it; reverse and forward thrust set and clear the reverse flag; SIM and PAUSE copy whether their data is nonzero; no event touches the data, the aircraft flag or quit |
| ThrottleControl.ThrottleSamplesOnlyWhileEngaged | host-add-on/HostAddOn/HostAddOn/ThrottleControl.cpp:325-352 | throttle samples change nothing while A/T is off and replace just their own throttle while it is on |
| ThrottleControl.AircraftLoadedIff | host-add-on/HostAddOn/HostAddOn/ThrottleControl.cpp:460-474 | after the aircraft-path answer the aircraft counts as loaded exactly when the path contains "PMDG 777" |
| ThrottleControl.QuitOnlyOnQuitMessage | host-add-on/HostAddOn/HostAddOn/ThrottleControl.cpp:476-481 | only the QUIT message sets quit, and no message clears it |
| ThrottleControl.RunningNeedsSupportedAircraft | host-add-on/HostAddOn/HostAddOn/ThrottleControl.cpp:119 | after the aircraft-path answer the sim_running gate can be open only if the path contains "PMDG 777" |
| ThrottleControl.InitiallyNotRunning | host-add-on/HostAddOn/HostAddOn/ThrottleControl.cpp:114-119 | the thread starts paused, so the sim_running gate (`Running`) starts closed |
| ThrottleControl.Actions | host-add-on/HostAddOn/HostAddOn/ThrottleControl.cpp:191-265 | TOGA, followed by the request to sample the throttles every frame, exactly when its button is pressed with A/T off; the disengage click, its release and then the request to stop sampling, exactly when its button is pressed with A/T on; the speed brake always; both throttles, last, only with A/T off; never TOGA and disengage together; nothing else |
| ThrottleControl.LoopPass | host-add-on/HostAddOn/HostAddOn/ThrottleControl.cpp:519-526 | one pass of the loop, as a value, keeps both records' shapes (what it writes is stated by the lemmas below) |
| ThrottleControl.SimLoop | host-add-on/HostAddOn/HostAddOn/ThrottleControl.cpp:519-526 | the loop, as a fold that stops once quit is set over a schedule of device writes and dispatch batches, keeps both records' shapes |
| ThrottleControl.LoopPassKeepsOwnership | host-add-on/HostAddOn/HostAddOn/SharedStruct.h:10-19 | a pass writes only simulator-owned fields of the record, judged by the A/T flag it publishes, and writes the throttles only when its sync runs with A/T engaged |
| ThrottleControl.SimLoopKeepsOwnership | host-add-on/HostAddOn/HostAddOn/ThrottleControl.cpp:519-526 | every pass writes only simulator-owned fields of the record it starts from, judged by the flag it publishes; the record's quit is never written during the loop; when the device writes nothing meanwhile, the speed brake and buttons stay as they were and the throttles change only if some pass synced with A/T engaged |
| ThrottleControl.SimLoopStopsOnQuit | host-add-on/HostAddOn/HostAddOn/ThrottleControl.cpp:519 | the loop makes at most one round of calls per batch, does nothing once quit is set, and leaves batches unprocessed only after a quit |
| ThrottleControl.SimBridge.constructor | host-add-on/HostAddOn/HostAddOn/ThrottleControl.cpp:104-117 | the copy starts at throttles 0, speed brake -16383, buttons and flags off; the thread starts paused, not started, no aircraft loaded, not quitting |
| ThrottleControl.SimBridge.Dispatch | host-add-on/HostAddOn/HostAddOn/ThrottleControl.cpp:320-494 | the callback changes the globals exactly as Handle says |
| ThrottleControl.SimBridge.Sync | host-add-on/HostAddOn/HostAddOn/ThrottleControl.cpp:123-146 | the element-by-element copy gives exactly the copy and record of SyncSpec |
| ThrottleControl.SimBridge.CopyButtonsFrom | host-add-on/HostAddOn/HostAddOn/ThrottleControl.cpp:125-126 | the copy's buttons become the record's and nothing else in the copy changes |
| ThrottleControl.SimBridge.CopyThrottlesTo | host-add-on/HostAddOn/HostAddOn/ThrottleControl.cpp:136-137 | the record's throttles become the copy's |
| ThrottleControl.SimBridge.CopyThrottlesFrom | host-add-on/HostAddOn/HostAddOn/ThrottleControl.cpp:141-142 | the copy's throttles become the record's and nothing else in the copy changes |
| ThrottleControl.SimBridge.SetDataOnAircraft | host-add-on/HostAddOn/HostAddOn/ThrottleControl.cpp:191-265 | the calls made are exactly Actions of the current copy, in order |
| ThrottleControl.SimBridge.LoopStep | host-add-on/HostAddOn/HostAddOn/ThrottleControl.cpp:519-526 | the globals, the record and the calls made are exactly those of LoopPass: sync and send only when the sim_running gate is open, then the pending messages handled in order |
| ThrottleControl.SimBridge.ScThread | host-add-on/HostAddOn/HostAddOn/ThrottleControl.cpp:496-543 | a failed connection returns at once, changes no global and only raises quit in the record; otherwise, with the device's writes landing between passes, the globals, the record and the calls made are those of SimLoop, and the thread returns, raising quit in the record, exactly when the loop ended on quit |
| Partition.ThreadsWriteDisjointFields | host-add-on/HostAddOn/HostAddOn/SharedStruct.h:10-19 | from the same record, with both threads holding the same A/T flag, a device iteration and a sync never write the same field |
| Partition.EngagingHandOverOverlaps | host-add-on/HostAddOn/HostAddOn/DeviceControl.cpp:81-111 | in the sync that publishes a newly engaged A/T, both the simulator and a device iteration that read the old flag write the left throttle |

## Left out

- The Win32 serial calls (`CreateFileA`, `GetCommState`/`SetCommState`, `PurgeComm`, `ClearCommError`, `ReadFile`, `WriteFile`) are foreign operating-system calls. Their outcomes are parameters: whether the port opened, whether the purge worked, bytes accepted, bytes read.
- Opening the port is modelled as emptying the receive queue. The `Sleep` delays (200 ms after opening, 3000 ms for the device reset, 1 ms in the simulator loop) are timing only.
- The busy-wait in `asdf_serial_read` has no timeout. It becomes the precondition that the receive queue already holds the requested bytes, on the paths that reach the read.
- AsdfLink.SerialLink.InitSerial: requires a port name shorter than 16 characters, the size of the static buffer. For a longer name the bounds-checked `strcpy_s` calls the invalid-parameter handler, which by default ends the process; that outcome is not modelled.
- AsdfLink.SerialLink.Send: the copy of received bytes also stops at the 8-slot data area. For an expected size of 9..15, which the guard lets through, the C loop writes past `data[8]`. No command uses such a size.
- AsdfLink.SerialLink.CmdReset: when the reopen fails, the byte read comes from a closed handle and is indeterminate. It is a parameter (`junk`).
- The uninitialised contents of `write_buf` are a parameter (`stale`). C gives them no defined value.
- `asdf2sc` and `sc2asdf` use double precision. They are modelled on exact reals.
- SharedState.ToByte: only a percentage of at least 25600/127 (about 201.6) or at most -100/127 scales to a value whose truncation falls outside 0..255. That cast is undefined in C++, and the model wraps it modulo 256. Inside that interval the model gives exactly the C result, as the contract of `SharedState.ToByte` states.
- ThrottleControl.AxisOf: `(int)st.speed_brake * 32766` is 32-bit. The model uses unbounded integers, so overflow above 65540 percent is not modelled.
- Threads, `std::atomic` and `volatile` are left out (the startup in `main.cpp` and the hardware runs in `TQThreadTest.cpp`). The other thread's writes land only between two iterations of a loop, as one step each, given in the schedule. Interleavings inside an iteration are not modelled: for example, the A/T flag changing between the device thread's test of it and its use of the throttle levels.
- DeviceControl.TqThread and ThrottleControl.SimBridge.ScThread: both loops run over a finite schedule of answers or message batches. When the schedule ends first, the model reports the thread as still running.
- DeviceControl.Step: the answers to the lever commands (`setOk`, `releaseOk`) stand for the whole `cmd_lvr_set`/`cmd_lvr_rels` exchange. The `reset_device` they trigger is recorded as an operation. Its own effect on the port is modelled separately by DeviceControl.ResetDeviceOn.
- The SimConnect setup and plumbing are vendor SDK calls and are left out: `SimConnect_Open`, data definitions, subscriptions, `initClientEvents`, `SimConnect_CallDispatch`, `SimConnect_Close`. The data requests that `setRequestLeverFrequency` makes on a SIM start are also left out. In `setDataOnAircraft` those requests appear only as `RequestLevers` actions, and the `HRESULT` values are dropped.
- The aircraft path is a string without NUL bytes. `strstr` on a C string stops at the first NUL.
- `LogV` in `cmd_lvr_set` (`ASDFProtocol.cpp:305`, active because `VERBOSE` is set at line 7) prints `values[0..2]`. For the two-value call `cmd_lvr_set(0b011, throttle_level + 1)` in `TQThread`, `values[2]` reads one element past the three-byte `throttle_level` array. The read only feeds the log line and is not modelled.
- Logging (`Log`, `Err`, `LogV`, `printSharedStruct`, `debug.h`) is left out. So is the interactive Python console, apart from its lever-set map. The legacy 14-byte format of the older console is also left out.

## Findings

| source | as written | input that shows it | evidently intended | confidence | as-written member | corrected member |
|---|---|---|---|---|---|---|
| host-add-on/HostAddOn/HostAddOn/ASDFProtocol.cpp:118-120 | the payload loop starts at buffer index 1 but stops at index `data_size`, so data bytes 0..data_size-2 are copied and the last payload position keeps whatever the uninitialised buffer held | `cmd_lvr_set(0b011, {10, 20})`, as `TQThread` sends it with A/T engaged: the device gets 0xB2, 10 and a stale byte instead of 0xB2, 10, 20, so the right throttle is driven to the stale byte instead of 20 | the frame is the code followed by all `data_size` data bytes (loop bound `i < 1 + data_size`), and decoding it gives back every value | not executed | AsdfCodec.LeverSetFrameLosesLastValue | AsdfCodec.FrameRoundTrip |

`AsdfCodec.WrittenFrame` is the frame as written, and `AsdfLink.SerialLink.SendNoRecv` writes it, as the program does. `AsdfCodec.Frame` is the corrected frame. `AsdfCodec.WrittenFrameIsFrameIff` shows the two differ exactly when there is a payload and the stale byte differs from the last value. Every payload-free command (RESET, POLL, LEVER_RELEASE, ASDF) is unaffected (`AsdfCodec.EmptyFrameIntact`). `DeviceControl.DriveThrottlesFrame` shows the lever set of the device loop is affected.
