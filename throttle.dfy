/**
 * The simulator-side thread: it keeps its own copy of the quadrant data,
 * updates it and a few flags from the simulator's messages, exchanges it
 * with the shared record, and chooses what to send to the aircraft.
 *
 * The simulator connection itself is not modelled: messages arrive as
 * values and the calls the thread would make are returned as action records.
 */
module ThrottleControl {
  import opened Optional
  import opened SharedState

  // ---------------------------------------------------------------------
  // The thread's own copy of the quadrant data
  // ---------------------------------------------------------------------

  /** ThrottleQuadrantData: throttles in percent, speed brake on the simulator's axis. */
  datatype Tqd = Tqd(
    throttleLevel: seq<real>,
    speedBrake: int,
    buttonStatus: seq<bool>,
    isAtEngaged: bool,
    reverseThrust: bool)

  predicate ValidTqd(tc: Tqd) {
    |tc.throttleLevel| == ThrottleNum && |tc.buttonStatus| == ButtonNum
  }

  const SpeedBrakeMin: int := -16383
  const SpeedBrakeMax: int := 16383

  const TqdDefault: Tqd := Tqd([0.0, 0.0], SpeedBrakeMin, [false, false], false, false)

  // ---------------------------------------------------------------------
  // Speed-brake rescale
  // ---------------------------------------------------------------------

  /** C's integer division by 100, truncating toward zero. */
  function CDiv100(a: int): int {
    if a >= 0 then a / 100 else -((-a) / 100)
  }

  /** The axis value for a speed-brake percentage already cast to int; percentages 0..100 land inside the axis range. */
  function AxisOf(n: int): (a: int)
    ensures 0 <= n <= 100 ==> SpeedBrakeMin <= a <= SpeedBrakeMax
  {
    assert 0 <= n <= 100 ==> 0 <= n * 32766 <= 100 * 32766;
    SpeedBrakeMin + CDiv100(n * (SpeedBrakeMax * 2))
  }

  /**
   * The speed-brake rescale of syncDataWithSharedStruct: cast the percentage
   * to int, then scale. The speed brake the device publishes (a percentage
   * 0..100) always lands on the axis.
   */
  function SpeedBrakeAxis(percent: real): (a: int)
    ensures 0.0 <= percent <= 100.0 ==> SpeedBrakeMin <= a <= SpeedBrakeMax
  {
    AxisOf(Trunc(percent))
  }

  /** The rescale fixes the ends and the middle of the range. */
  lemma AxisLandmarks()
    ensures AxisOf(0) == SpeedBrakeMin && AxisOf(50) == 0 && AxisOf(100) == SpeedBrakeMax
  {
  }

  lemma CDiv100Monotone(a: int, b: int)
    requires a <= b
    ensures CDiv100(a) <= CDiv100(b)
  {
    if a >= 0 {
      assert a / 100 <= b / 100;
    } else if b >= 0 {
      assert CDiv100(a) <= 0 <= CDiv100(b);
    } else {
      assert (-b) / 100 <= (-a) / 100;
    }
  }

  /** A larger percentage never gives a smaller axis value. */
  lemma AxisMonotone(m: int, n: int)
    requires m <= n
    ensures AxisOf(m) <= AxisOf(n)
  {
    assert m * 32766 <= n * 32766;
    CDiv100Monotone(m * 32766, n * 32766);
  }

  // ---------------------------------------------------------------------
  // Exchange with the shared record
  // ---------------------------------------------------------------------

  datatype Synced = Synced(tc: Tqd, shared: Shared)

  /**
   * syncDataWithSharedStruct: buttons and the rescaled speed brake come from
   * the shared record, the A/T flag goes to it, and the throttle levels go to
   * the shared record while A/T is engaged and come from it while it is not.
   */
  function SyncSpec(tc: Tqd, s: Shared): (r: Synced)
    requires ValidTqd(tc) && ValidShared(s)
    ensures ValidTqd(r.tc) && ValidShared(r.shared)
  {
    var tc1 := tc.(buttonStatus := s.buttonStatus, speedBrake := SpeedBrakeAxis(s.speedBrake));
    var s1 := s.(isAtEngaged := tc.isAtEngaged);
    if tc.isAtEngaged then Synced(tc1, s1.(throttleLevel := tc.throttleLevel))
    else Synced(tc1.(throttleLevel := s.throttleLevel), s1)
  }

  /** Which way each field travels in a sync. */
  lemma SyncDirection(tc: Tqd, s: Shared)
    requires ValidTqd(tc) && ValidShared(s)
    ensures var r := SyncSpec(tc, s);
      && r.tc.buttonStatus == s.buttonStatus
      && r.shared.isAtEngaged == tc.isAtEngaged
      && r.tc.speedBrake == SpeedBrakeAxis(s.speedBrake)
      && (tc.isAtEngaged ==> r.shared.throttleLevel == tc.throttleLevel && r.tc.throttleLevel == tc.throttleLevel)
      && (!tc.isAtEngaged ==> r.tc.throttleLevel == s.throttleLevel && r.shared.throttleLevel == s.throttleLevel)
      && r.shared.speedBrake == s.speedBrake && r.shared.buttonStatus == s.buttonStatus && r.shared.quit == s.quit
      && r.tc.isAtEngaged == tc.isAtEngaged && r.tc.reverseThrust == tc.reverseThrust
  {
  }

  /**
   * A sync writes only the fields the simulator thread owns, judged by the
   * A/T flag it has just published: the flag itself, and the throttle levels
   * only when that flag says engaged.
   */
  lemma SyncKeepsOwnership(tc: Tqd, s: Shared)
    requires ValidTqd(tc) && ValidShared(s)
    ensures var r := SyncSpec(tc, s);
      OnlyWrites(SimulatorThread, s, r.shared, r.shared.isAtEngaged)
  {
    var r := SyncSpec(tc, s);
    if !tc.isAtEngaged {
      assert r.shared.throttleLevel == s.throttleLevel;
    }
  }

  // ---------------------------------------------------------------------
  // Messages from the simulator
  // ---------------------------------------------------------------------

  datatype RequestId = RequestThrottle1 | RequestThrottle2 | RequestAirPath | RequestPmdgData

  datatype EventId =
    | EventSim | EventPause | EventAircraftLoaded
    | EventAtDisengage1 | EventAtDisengage2 | EventToggleToga | EventSetSpeedBrake
    | EventRevThrust1 | EventRevThrust2 | EventFwdThrust1 | EventFwdThrust2

  /**
   * The messages the dispatch callback receives. Client data carries the two
   * fields of the PMDG 777 data block the thread reads; a system-state answer
   * carries the aircraft path as a string without its terminating NUL.
   */
  datatype SimMessage =
    | SimObjectData(request: RequestId, value: real)
    | ClientData(request: RequestId, atSwPushed: bool, annunAt: bool)
    | Event(event: EventId, data: nat)
    | SystemState(request: RequestId, path: string)
    | QuitMessage
    | Exception(code: nat)
    | Unrecognised

  /** The thread's data and flags at one moment. */
  datatype SimState = SimState(tc: Tqd, simPaused: bool, simStart: bool, aircraftLoaded: bool, quit: bool)

  const SimStateInitial: SimState := SimState(TqdDefault, true, false, false, false)

  /** The aircraft name whose path marks the supported aircraft. */
  const SupportedAircraft: string := "PMDG 777"

  /** `sub` occurs in `s` starting at index `i`. */
  predicate OccursAt(s: string, sub: string, i: int) {
    0 <= i && i + |sub| <= |s| && s[i..i + |sub|] == sub
  }

  /** strstr(s, sub) != NULL, on strings without NUL bytes. */
  function Contains(s: string, sub: string): (r: bool)
    ensures r ==> |sub| <= |s|
    decreases |s|
  {
    if |s| < |sub| then false
    else if s[..|sub|] == sub then true
    else Contains(s[1..], sub)
  }

  /** A slice of the tail of `s` is the slice of `s` one position further on. */
  lemma SliceShift(s: string, a: int, b: int)
    requires 1 <= a <= b <= |s|
    ensures s[1..][a - 1..b - 1] == s[a..b]
  {
  }

  /** Contains finds exactly the strings in which `sub` occurs somewhere. */
  lemma {:induction false} ContainsIff(s: string, sub: string)
    ensures Contains(s, sub) <==> exists i :: OccursAt(s, sub, i)
    decreases |s|
  {
    if |s| < |sub| {
    } else if s[..|sub|] == sub {
      assert OccursAt(s, sub, 0);
    } else {
      ContainsIff(s[1..], sub);
      if Contains(s, sub) {
        var i :| OccursAt(s[1..], sub, i);
        SliceShift(s, i + 1, i + 1 + |sub|);
        assert OccursAt(s, sub, i + 1);
      } else {
        forall i | 0 <= i && i + |sub| <= |s| ensures !OccursAt(s, sub, i) {
          if i > 0 {
            SliceShift(s, i, i + |sub|);
            assert !OccursAt(s[1..], sub, i - 1);
          }
        }
      }
    }
  }

  /** What MyDispatchProcTC does with one message. */
  function Handle(b: SimState, msg: SimMessage): (r: SimState)
    requires ValidTqd(b.tc)
    ensures ValidTqd(r.tc)
  {
    match msg
    case SimObjectData(request, value) =>
      if request == RequestThrottle1 && b.tc.isAtEngaged then
        b.(tc := b.tc.(throttleLevel := b.tc.throttleLevel[ThrottleLeft := value]))
      else if request == RequestThrottle2 && b.tc.isAtEngaged then
        b.(tc := b.tc.(throttleLevel := b.tc.throttleLevel[ThrottleRight := value]))
      else b
    case ClientData(request, _, annunAt) =>
      if request == RequestPmdgData then b.(tc := b.tc.(isAtEngaged := annunAt)) else b
    case Event(event, data) =>
      (match event
      case EventSim => b.(simStart := data != 0)
      case EventPause => b.(simPaused := data != 0)
      case EventToggleToga => b.(tc := b.tc.(isAtEngaged := true))
      case EventRevThrust1 => b.(tc := b.tc.(reverseThrust := true))
      case EventRevThrust2 => b.(tc := b.tc.(reverseThrust := true))
      case EventFwdThrust1 => b.(tc := b.tc.(reverseThrust := false))
      case EventFwdThrust2 => b.(tc := b.tc.(reverseThrust := false))
      case EventAtDisengage1 => b.(tc := b.tc.(isAtEngaged := false))
      case EventAtDisengage2 => b.(tc := b.tc.(isAtEngaged := false))
      case _ => b)
    case SystemState(request, path) =>
      if request == RequestAirPath then b.(aircraftLoaded := Contains(path, SupportedAircraft)) else b
    case QuitMessage => b.(quit := true)
    case Exception(_) => b
    case Unrecognised => b
  }

  /** The messages of one dispatch call, handled in order. */
  function HandleAll(b: SimState, msgs: seq<SimMessage>): (r: SimState)
    requires ValidTqd(b.tc)
    ensures ValidTqd(r.tc)
  {
    if msgs == [] then b else Handle(HandleAll(b, msgs[..|msgs| - 1]), msgs[|msgs| - 1])
  }

  /** After the PMDG data block the A/T flag is the annunciator, whatever the switch says. */
  lemma ClientDataFollowsAnnunciator(b: SimState, atSwPushed: bool, annunAt: bool)
    requires ValidTqd(b.tc)
    ensures var r := Handle(b, ClientData(RequestPmdgData, atSwPushed, annunAt));
      r.tc.isAtEngaged == annunAt && r.(tc := r.tc.(isAtEngaged := b.tc.isAtEngaged)) == b
  {
  }

  /** Changes none of the flags except those it names. */
  predicate KeepsOthers(b: SimState, r: SimState) {
    r.tc.throttleLevel == b.tc.throttleLevel && r.tc.speedBrake == b.tc.speedBrake
    && r.tc.buttonStatus == b.tc.buttonStatus && r.aircraftLoaded == b.aircraftLoaded && r.quit == b.quit
  }

  /**
   * The event transitions: TOGA engages A/T, either disengage event clears
   * it, reverse and forward thrust set and clear the reverse flag, SIM and
   * PAUSE copy whether their data is nonzero, and no event touches the data,
   * the aircraft flag or quit.
   */
  lemma EventTransitions(b: SimState, event: EventId, data: nat)
    requires ValidTqd(b.tc)
    ensures var r := Handle(b, Event(event, data));
      && KeepsOthers(b, r)
      && r.tc.isAtEngaged == (match event
           case EventToggleToga => true
           case EventAtDisengage1 => false
           case EventAtDisengage2 => false
           case _ => b.tc.isAtEngaged)
      && r.tc.reverseThrust == (match event
           case EventRevThrust1 => true
           case EventRevThrust2 => true
           case EventFwdThrust1 => false
           case EventFwdThrust2 => false
           case _ => b.tc.reverseThrust)
      && r.simStart == (if event == EventSim then data != 0 else b.simStart)
      && r.simPaused == (if event == EventPause then data != 0 else b.simPaused)
  {
  }

  /** Throttle samples from the simulator are taken only while A/T is engaged. */
  lemma ThrottleSamplesOnlyWhileEngaged(b: SimState, request: RequestId, value: real)
    requires ValidTqd(b.tc)
    ensures var r := Handle(b, SimObjectData(request, value));
      && (!b.tc.isAtEngaged ==> r == b)
      && (b.tc.isAtEngaged && request == RequestThrottle1 ==> r.tc.throttleLevel == [value, b.tc.throttleLevel[ThrottleRight]])
      && (b.tc.isAtEngaged && request == RequestThrottle2 ==> r.tc.throttleLevel == [b.tc.throttleLevel[ThrottleLeft], value])
  {
  }

  /** The aircraft counts as loaded exactly when its path contains "PMDG 777". */
  lemma AircraftLoadedIff(b: SimState, path: string)
    requires ValidTqd(b.tc)
    ensures Handle(b, SystemState(RequestAirPath, path)).aircraftLoaded
      <==> exists i :: OccursAt(path, SupportedAircraft, i)
  {
    ContainsIff(path, SupportedAircraft);
  }

  /** Only the QUIT message sets quit, and nothing clears it. */
  lemma QuitOnlyOnQuitMessage(b: SimState, msg: SimMessage)
    requires ValidTqd(b.tc)
    ensures Handle(b, msg).quit == (b.quit || msg.QuitMessage?)
  {
  }

  /** sim_running: not paused, started, and the supported aircraft loaded. */
  predicate Running(b: SimState) {
    !b.simPaused && b.simStart && b.aircraftLoaded
  }

  /**
   * Once the simulator has answered the aircraft-path request, the gate can
   * be open only if the path names the supported aircraft.
   */
  lemma RunningNeedsSupportedAircraft(b: SimState, path: string)
    requires ValidTqd(b.tc)
    ensures Running(Handle(b, SystemState(RequestAirPath, path))) ==>
      exists i :: OccursAt(path, SupportedAircraft, i)
  {
    ContainsIff(path, SupportedAircraft);
  }

  /** The thread starts paused, so nothing is exchanged until the simulator says otherwise. */
  lemma InitiallyNotRunning()
    ensures !Running(SimStateInitial)
  {
  }

  // ---------------------------------------------------------------------
  // Actions on the aircraft
  // ---------------------------------------------------------------------

  datatype MouseFlag = LeftSingle | LeftRelease
  datatype Period = EverySimFrame | Never

  /** A call the thread makes on the simulator. */
  datatype SimAction =
    | TransmitToga
    | ClickAtDisengage(flag: MouseFlag)
    | RequestLevers(period: Period)
    | SetSpeedBrake(axis: int)
    | SetThrottle(engine: nat, level: real)

  /**
   * setDataOnAircraft: TOGA (and throttle sampling every frame) when its
   * button is pressed with A/T off; a click and release on the A/T
   * disengage switch (and no more throttle sampling) when its button is
   * pressed with A/T on; always the speed brake; both throttles when A/T is off.
   */
  function Actions(tc: Tqd): (acts: seq<SimAction>)
    requires ValidTqd(tc)
    ensures TransmitToga in acts <==> tc.buttonStatus[ButtonToga] && !tc.isAtEngaged
    ensures ClickAtDisengage(LeftSingle) in acts <==> tc.buttonStatus[ButtonAtDisengage] && tc.isAtEngaged
    ensures forall k :: 0 <= k < |acts| && acts[k] == ClickAtDisengage(LeftSingle) ==>
      k + 1 < |acts| && acts[k + 1] == ClickAtDisengage(LeftRelease)
    ensures SetSpeedBrake(tc.speedBrake) in acts
    ensures forall k :: 0 <= k < |acts| && acts[k].SetThrottle? ==> !tc.isAtEngaged
    ensures !tc.isAtEngaged ==>
      |acts| >= 3 && acts[|acts| - 2..] == [SetThrottle(1, tc.throttleLevel[ThrottleLeft]), SetThrottle(2, tc.throttleLevel[ThrottleRight])]
    ensures !(TransmitToga in acts && ClickAtDisengage(LeftSingle) in acts)
    ensures RequestLevers(EverySimFrame) in acts <==> TransmitToga in acts
    ensures forall k :: 0 <= k < |acts| && acts[k] == TransmitToga ==>
      k + 1 < |acts| && acts[k + 1] == RequestLevers(EverySimFrame)
    ensures RequestLevers(Never) in acts <==> ClickAtDisengage(LeftSingle) in acts
    ensures forall k :: 0 <= k < |acts| && acts[k] == ClickAtDisengage(LeftSingle) ==>
      k + 2 < |acts| && acts[k + 2] == RequestLevers(Never)
    ensures |acts| == (if TransmitToga in acts then 2 else 0) + (if ClickAtDisengage(LeftSingle) in acts then 3 else 0)
      + 1 + (if tc.isAtEngaged then 0 else 2)
  {
    // The TOGA test needs A/T off and the disengage test needs it on, so at most one of them fires.
    if tc.isAtEngaged then
      (if tc.buttonStatus[ButtonAtDisengage]
       then [ClickAtDisengage(LeftSingle), ClickAtDisengage(LeftRelease), RequestLevers(Never)] else [])
      + [SetSpeedBrake(tc.speedBrake)]
    else
      (if tc.buttonStatus[ButtonToga] then [TransmitToga, RequestLevers(EverySimFrame)] else [])
      + [SetSpeedBrake(tc.speedBrake), SetThrottle(1, tc.throttleLevel[ThrottleLeft]), SetThrottle(2, tc.throttleLevel[ThrottleRight])]
  }

  // ---------------------------------------------------------------------
  // The loop of the simulator thread
  // ---------------------------------------------------------------------

  /** The thread's state, the shared record and the calls made, after one or more passes. */
  datatype Pass = Pass(sim: SimState, shared: Shared, acts: seq<SimAction>)
  datatype Loop = Loop(sim: SimState, shared: Shared, sent: seq<seq<SimAction>>)

  /**
   * One pass of the loop in ThrottleControl: exchange with the record and
   * send to the aircraft only while the simulation runs, then dispatch the
   * pending messages.
   */
  function LoopPass(b: SimState, s: Shared, pending: seq<SimMessage>): (p: Pass)
    requires ValidTqd(b.tc) && ValidShared(s)
    ensures ValidTqd(p.sim.tc) && ValidShared(p.shared)
  {
    if Running(b) then
      var y := SyncSpec(b.tc, s);
      Pass(HandleAll(b.(tc := y.tc), pending), y.shared, Actions(y.tc))
    else Pass(HandleAll(b, pending), s, [])
  }

  /**
   * What one pass meets: the device iteration that lands in the record just
   * before it (None when there is none) and the messages its dispatch call finds.
   */
  datatype Batch = Batch(device: Option<DeviceWrite>, messages: seq<SimMessage>)

  predicate ValidBatches(batches: seq<Batch>) {
    forall k :: 0 <= k < |batches| ==> batches[k].device.Some? ==> ValidDeviceWrite(batches[k].device.value)
  }

  /** The record a pass starts from: the device's write, if any, landed in it. */
  function PassStart(s: Shared, batch: Batch): (r: Shared)
    requires ValidShared(s) && (batch.device.Some? ==> ValidDeviceWrite(batch.device.value))
    ensures ValidShared(r) && r.quit == s.quit
    ensures batch.device.None? ==> r == s
    ensures OnlyWrites(DeviceThread, s, r, s.isAtEngaged)
  {
    match batch.device
    case None => s
    case Some(w) => ByDevice(s, w)
  }

  /**
   * The loop over a schedule of batches: it stops once quit is set or the
   * schedule ends; otherwise the device's write lands and one pass runs.
   */
  function SimLoop(b: SimState, s: Shared, batches: seq<Batch>): (o: Loop)
    requires ValidTqd(b.tc) && ValidShared(s) && ValidBatches(batches)
    ensures ValidTqd(o.sim.tc) && ValidShared(o.shared)
    decreases |batches|
  {
    if b.quit || batches == [] then Loop(b, s, [])
    else
      var p := LoopPass(b, PassStart(s, batches[0]), batches[0].messages);
      var rest := SimLoop(p.sim, p.shared, batches[1..]);
      Loop(rest.sim, rest.shared, [p.acts] + rest.sent)
  }

  /** One unfolding of SimLoop. */
  lemma SimLoopUnfold(b: SimState, s: Shared, batches: seq<Batch>)
    requires ValidTqd(b.tc) && ValidShared(s) && ValidBatches(batches) && !b.quit && batches != []
    ensures var p := LoopPass(b, PassStart(s, batches[0]), batches[0].messages);
      var rest := SimLoop(p.sim, p.shared, batches[1..]);
      SimLoop(b, s, batches) == Loop(rest.sim, rest.shared, [p.acts] + rest.sent)
  {
  }

  /** The number of passes of SimLoop whose sync runs with A/T engaged. */
  function EngagedSyncs(b: SimState, s: Shared, batches: seq<Batch>): nat
    requires ValidTqd(b.tc) && ValidShared(s) && ValidBatches(batches)
    decreases |batches|
  {
    if b.quit || batches == [] then 0
    else
      var p := LoopPass(b, PassStart(s, batches[0]), batches[0].messages);
      (if Running(b) && b.tc.isAtEngaged then 1 else 0) + EngagedSyncs(p.sim, p.shared, batches[1..])
  }

  lemma BatchesTail(batches: seq<Batch>)
    requires ValidBatches(batches) && batches != []
    ensures ValidBatches(batches[1..])
  {
    forall k | 0 <= k < |batches[1..]| ensures batches[1..][k] == batches[k + 1] {}
  }

  /** A schedule in which the device thread writes nothing. */
  predicate NoDeviceWrite(batches: seq<Batch>) {
    forall k :: 0 <= k < |batches| ==> batches[k].device.None?
  }

  /**
   * Every pass the loop runs writes only simulator-owned fields of the record
   * it starts from, judged by the A/T flag it publishes.
   */
  ghost predicate EveryPassOwned(b: SimState, s: Shared, batches: seq<Batch>)
    requires ValidTqd(b.tc) && ValidShared(s) && ValidBatches(batches)
    decreases |batches|
  {
    b.quit || batches == [] ||
    var start := PassStart(s, batches[0]);
    var p := LoopPass(b, start, batches[0].messages);
    && OnlyWrites(SimulatorThread, start, p.shared, p.shared.isAtEngaged)
    && EveryPassOwned(p.sim, p.shared, batches[1..])
  }

  /**
   * A pass writes only simulator-owned fields of the record, judged by the
   * A/T flag it publishes, and writes the throttle levels only when it syncs
   * with A/T engaged.
   */
  lemma LoopPassKeepsOwnership(b: SimState, s: Shared, pending: seq<SimMessage>)
    requires ValidTqd(b.tc) && ValidShared(s)
    ensures var p := LoopPass(b, s, pending);
      && OnlyWrites(SimulatorThread, s, p.shared, p.shared.isAtEngaged)
      && (!(Running(b) && b.tc.isAtEngaged) ==> p.shared.throttleLevel == s.throttleLevel)
  {
    if Running(b) {
      SyncKeepsOwnership(b.tc, s);
      SyncDirection(b.tc, s);
    }
  }

  /**
   * Every pass keeps to the simulator thread's fields, and the record's quit
   * flag is never written during the loop. When the device thread writes
   * nothing meanwhile, the record's speed brake and buttons stay as they
   * were, and its throttle levels change only if some pass synced with A/T
   * engaged.
   */
  lemma {:induction false} SimLoopKeepsOwnership(b: SimState, s: Shared, batches: seq<Batch>)
    requires ValidTqd(b.tc) && ValidShared(s) && ValidBatches(batches)
    ensures EveryPassOwned(b, s, batches)
    ensures SimLoop(b, s, batches).shared.quit == s.quit
    ensures NoDeviceWrite(batches) ==> var o := SimLoop(b, s, batches);
      && o.shared.speedBrake == s.speedBrake && o.shared.buttonStatus == s.buttonStatus
      && (EngagedSyncs(b, s, batches) == 0 ==> o.shared.throttleLevel == s.throttleLevel)
    decreases |batches|
  {
    if !b.quit && batches != [] {
      var start := PassStart(s, batches[0]);
      var p := LoopPass(b, start, batches[0].messages);
      LoopPassKeepsOwnership(b, start, batches[0].messages);
      SimulatorNeverWritesDeviceFields(start, p.shared, p.shared.isAtEngaged);
      BatchesTail(batches);
      SimLoopKeepsOwnership(p.sim, p.shared, batches[1..]);
      if NoDeviceWrite(batches) {
        assert start == s;
        assert NoDeviceWrite(batches[1..]) by {
          forall k | 0 <= k < |batches[1..]| ensures batches[1..][k].device.None? {
            assert batches[1..][k] == batches[k + 1];
          }
        }
      }
    }
  }

  /** The loop sends one list of calls per pass it runs, and stops at the first quit message. */
  lemma {:induction false} SimLoopStopsOnQuit(b: SimState, s: Shared, batches: seq<Batch>)
    requires ValidTqd(b.tc) && ValidShared(s) && ValidBatches(batches)
    ensures var o := SimLoop(b, s, batches);
      && |o.sent| <= |batches|
      && (b.quit ==> o == Loop(b, s, []))
      && (|o.sent| < |batches| ==> o.sim.quit)
    decreases |batches|
  {
    if !b.quit && batches != [] {
      var p := LoopPass(b, PassStart(s, batches[0]), batches[0].messages);
      SimLoopStopsOnQuit(p.sim, p.shared, batches[1..]);
    }
  }

  // ---------------------------------------------------------------------
  // The thread's globals and its loop
  // ---------------------------------------------------------------------

  /** The globals of the simulator thread: its copy of the data and its flags. */
  class SimBridge {
    var tc: Tqd
    var simPaused: bool
    var simStart: bool
    var aircraftLoaded: bool
    var quit: bool

    ghost predicate Valid()
      reads this
    {
      ValidTqd(tc)
    }

    function Value(): SimState
      reads this
    {
      SimState(tc, simPaused, simStart, aircraftLoaded, quit)
    }

    constructor ()
      ensures Valid() && Value() == SimStateInitial
    {
      tc := TqdDefault;
      simPaused, simStart, aircraftLoaded, quit := true, false, false, false;
    }

    /** The sim_running gate on the current globals. */
    predicate SimRunning()
      reads this
    {
      Running(Value())
    }

    /** MyDispatchProcTC on one message. */
    method Dispatch(msg: SimMessage)
      requires Valid()
      modifies this
      ensures Valid() && Value() == Handle(old(Value()), msg)
    {
      match msg {
        case SimObjectData(request, value) =>
          if request == RequestThrottle1 {
            if tc.isAtEngaged {
              tc := tc.(throttleLevel := tc.throttleLevel[ThrottleLeft := value]);
            }
          } else if request == RequestThrottle2 {
            if tc.isAtEngaged {
              tc := tc.(throttleLevel := tc.throttleLevel[ThrottleRight := value]);
            }
          }
        case ClientData(request, atSwPushed, annunAt) =>
          if request == RequestPmdgData {
            if atSwPushed {
              tc := tc.(isAtEngaged := true);
            }
            if annunAt {
              tc := tc.(isAtEngaged := true);
            } else {
              tc := tc.(isAtEngaged := false);
            }
          }
        case Event(event, data) =>
          match event {
            case EventSim =>
              // On a start the thread also requests data and the aircraft path; not modelled.
              simStart := data != 0;
            case EventPause =>
              simPaused := data != 0;
            case EventToggleToga =>
              tc := tc.(isAtEngaged := true);
            case EventRevThrust1 =>
              tc := tc.(reverseThrust := true);
            case EventRevThrust2 =>
              tc := tc.(reverseThrust := true);
            case EventFwdThrust1 =>
              tc := tc.(reverseThrust := false);
            case EventFwdThrust2 =>
              tc := tc.(reverseThrust := false);
            case EventAtDisengage1 =>
              tc := tc.(isAtEngaged := false);
            case EventAtDisengage2 =>
              tc := tc.(isAtEngaged := false);
            case _ =>
          }
        case SystemState(request, path) =>
          if request == RequestAirPath {
            aircraftLoaded := Contains(path, SupportedAircraft);
          }
        case QuitMessage =>
          quit := true;
        case Exception(_) =>
        case Unrecognised =>
      }
    }

    /** syncDataWithSharedStruct, copying element by element. */
    method Sync(st: SharedStruct)
      requires Valid() && st.Valid()
      modifies this`tc, st
      ensures Valid() && st.Valid()
      ensures Synced(tc, st.Value()) == SyncSpec(old(tc), old(st.Value()))
    {
      CopyButtonsFrom(st);
      st.isAtEngaged := tc.isAtEngaged;
      tc := tc.(speedBrake := AxisOf(Trunc(st.speedBrake)));
      if tc.isAtEngaged {
        CopyThrottlesTo(st);
      } else {
        CopyThrottlesFrom(st);
      }
    }

    method CopyButtonsFrom(st: SharedStruct)
      requires Valid() && st.Valid()
      modifies this`tc
      ensures Valid() && tc == old(tc).(buttonStatus := st.buttonStatus)
    {
      for i := 0 to ButtonNum
        invariant ValidTqd(tc)
        invariant tc == old(tc).(buttonStatus := tc.buttonStatus)
        invariant forall j :: 0 <= j < i ==> tc.buttonStatus[j] == st.buttonStatus[j]
      {
        tc := tc.(buttonStatus := tc.buttonStatus[i := st.buttonStatus[i]]);
      }
    }

    method CopyThrottlesTo(st: SharedStruct)
      requires Valid() && st.Valid()
      modifies st`throttleLevel
      ensures st.Valid() && st.throttleLevel == tc.throttleLevel
    {
      for i := 0 to ThrottleNum
        invariant st.Valid()
        invariant forall j :: 0 <= j < i ==> st.throttleLevel[j] == tc.throttleLevel[j]
      {
        st.throttleLevel := st.throttleLevel[i := tc.throttleLevel[i]];
      }
    }

    method CopyThrottlesFrom(st: SharedStruct)
      requires Valid() && st.Valid()
      modifies this`tc
      ensures Valid() && tc == old(tc).(throttleLevel := st.throttleLevel)
    {
      for i := 0 to ThrottleNum
        invariant ValidTqd(tc)
        invariant tc == old(tc).(throttleLevel := tc.throttleLevel)
        invariant forall j :: 0 <= j < i ==> tc.throttleLevel[j] == st.throttleLevel[j]
      {
        tc := tc.(throttleLevel := tc.throttleLevel[i := st.throttleLevel[i]]);
      }
    }

    /** setDataOnAircraft: the calls made on the simulator, in order. */
    method SetDataOnAircraft() returns (acts: seq<SimAction>)
      requires Valid()
      ensures acts == Actions(tc)
    {
      acts := [];
      if tc.buttonStatus[ButtonToga] && tc.isAtEngaged == false {
        acts := acts + [TransmitToga, RequestLevers(EverySimFrame)];
      }
      if tc.buttonStatus[ButtonAtDisengage] && tc.isAtEngaged == true {
        acts := acts + [ClickAtDisengage(LeftSingle), ClickAtDisengage(LeftRelease), RequestLevers(Never)];
      }
      acts := acts + [SetSpeedBrake(tc.speedBrake)];
      if tc.isAtEngaged {
        return;
      }
      acts := acts + [SetThrottle(1, tc.throttleLevel[ThrottleLeft])];
      acts := acts + [SetThrottle(2, tc.throttleLevel[ThrottleRight])];
    }

    /**
     * One pass of the loop in ThrottleControl: exchange and send only while
     * the simulation runs, then dispatch the pending messages.
     */
    method LoopStep(st: SharedStruct, pending: seq<SimMessage>) returns (acts: seq<SimAction>)
      requires Valid() && st.Valid()
      modifies this, st
      ensures Valid() && st.Valid()
      ensures Pass(Value(), st.Value(), acts) == LoopPass(old(Value()), old(st.Value()), pending)
    {
      acts := [];
      if SimRunning() {
        Sync(st);
        acts := SetDataOnAircraft();
      }
      ghost var start := Value();
      ghost var shared := st.Value();
      for i := 0 to |pending|
        invariant Valid() && Value() == HandleAll(start, pending[..i])
        invariant st.Valid() && st.Value() == shared
      {
        assert pending[..i + 1][..i] == pending[..i];
        Dispatch(pending[i]);
      }
      assert pending[..|pending|] == pending;
    }

    /**
     * The first pass of a loop that has not seen quit, after the device's
     * write has landed, and what remains of the loop after it.
     */
    method FirstPass(st: SharedStruct, batches: seq<Batch>) returns (acts: seq<SimAction>)
      requires Valid() && st.Valid() && ValidBatches(batches) && !quit && batches != []
      modifies this, st
      ensures Valid() && st.Valid() && ValidBatches(batches[1..])
      ensures var rest := SimLoop(Value(), st.Value(), batches[1..]);
        SimLoop(old(Value()), old(st.Value()), batches) == Loop(rest.sim, rest.shared, [acts] + rest.sent)
    {
      SimLoopUnfold(Value(), st.Value(), batches);
      BatchesTail(batches);
      if batches[0].device.Some? {
        st.WriteByDevice(batches[0].device.value);
      }
      acts := LoopStep(st, batches[0].messages);
    }

    /**
     * SCThread: if the connection opens, loop until quit; whenever the loop
     * ends, or the connection fails, raise quit in the shared record.
     * `batches` holds, for each pass, the device's write that lands before
     * it and the messages its dispatch call finds.
     */
    method ScThread(st: SharedStruct, openOk: bool, batches: seq<Batch>)
      returns (returned: bool, sent: seq<seq<SimAction>>)
      requires Valid() && st.Valid() && ValidBatches(batches)
      modifies this, st
      ensures Valid() && st.Valid()
      ensures !openOk ==>
        returned && sent == [] && Value() == old(Value()) && st.Value() == old(st.Value()).(quit := true)
      ensures openOk ==>
        var o := SimLoop(old(Value()), old(st.Value()), batches);
        && Value() == o.sim && sent == o.sent && returned == o.sim.quit
        && st.Value() == (if returned then o.shared.(quit := true) else o.shared)
    {
      sent := [];
      if openOk {
        ghost var whole := SimLoop(Value(), st.Value(), batches);
        var i := 0;
        while !quit && i < |batches|
          invariant 0 <= i <= |batches| && ValidBatches(batches[i..])
          invariant Valid() && st.Valid()
          invariant var rest := SimLoop(Value(), st.Value(), batches[i..]);
            && rest.sim == whole.sim && rest.shared == whole.shared && sent + rest.sent == whole.sent
          decreases |batches| - i
        {
          var acts := FirstPass(st, batches[i..]);
          assert batches[i..][1..] == batches[i + 1..];
          ghost var rest := SimLoop(Value(), st.Value(), batches[i + 1..]);
          assert sent + [acts] + rest.sent == sent + ([acts] + rest.sent);
          sent := sent + [acts];
          i := i + 1;
        }
        if !quit {
          assert batches[i..] == [];
          return false, sent;
        }
      }
      st.quit := true;
      return true, sent;
    }
  }
}
