/**
 * The device-control thread: opens the serial port, resets the quadrant,
 * then polls it in a loop, publishing buttons and lever positions in the
 * shared record and, while A/T is engaged, driving the throttle levers to
 * the simulator's positions.
 *
 * One loop iteration is specified by the function Step over a snapshot of
 * the shared record; the method Iteration performs it in place. The outcome
 * of each command (the poll reading, or whether a lever command succeeded)
 * is an input, and the commands issued are returned as a list of operations.
 */
module DeviceControl {
  import opened Optional
  import opened AsdfProtocol
  import opened AsdfCodec
  import opened AsdfLink
  import opened SharedState

  /** The port the thread opens, written as the Win32 device path \\.\COM6. */
  const PortName: string := "\\\\.\\COM6"
  const BaudRate: nat := 115200

  /** The commands the thread issues. */
  datatype Command = Reset | Poll | LeverRelease | LeverSet(bitmask: bv8, values: seq<bv8>)

  /** What the thread does to the port, in order. */
  datatype DeviceOp = OpenSerial | FlushReceive | Send(command: Command) | ResetDevice | CloseSerial

  /**
   * What one iteration meets: the simulator thread's sync that lands in the
   * record just before it (None when there is none), the poll reading (None
   * when cmd_poll fails) and whether a lever-set or lever-release would
   * succeed.
   */
  datatype Tick = Tick(simulator: Option<SimulatorWrite>, poll: Option<PollReading>, setOk: bool, releaseOk: bool)

  predicate ValidTick(t: Tick) {
    && (t.simulator.Some? ==> ValidSimulatorWrite(t.simulator.value))
    && (t.poll.Some? ==> |t.poll.value.levers| == 3)
  }

  predicate ValidTicks(ticks: seq<Tick>) {
    forall k :: 0 <= k < |ticks| ==> ValidTick(ticks[k])
  }

  /** The shared record, the lever-released flag and the operations after some iterations. */
  datatype Outcome = Outcome(shared: Shared, released: bool, ops: seq<DeviceOp>)

  /** The two button flags the thread publishes for a poll bitmap. */
  function Buttons(bitmap: bv8): (b: seq<bool>)
    ensures |b| == ButtonNum
    ensures b[ButtonToga] <==> bitmap & 1 == 1
    ensures b[ButtonAtDisengage] <==> bitmap & 2 == 2
  {
    [ButtonStatus(bitmap, ButtonToga) != 0, ButtonStatus(bitmap, ButtonAtDisengage) != 0]
  }

  /** The lever-set command that drives the throttles to the shared record's levels. */
  function DriveThrottles(s: Shared): Command
    requires ValidShared(s)
  {
    LeverSet(3, [ToByte(s.throttleLevel[ThrottleLeft]), ToByte(s.throttleLevel[ThrottleRight])])
  }

  /**
   * One pass of the loop body of TQThread. A failed poll resets the device
   * and changes nothing else. A successful poll publishes the buttons and
   * the speed brake; then with A/T engaged the levers are driven (locking
   * them), and with A/T off the levers are released first if they are
   * locked and the throttle positions are published. A failed lever command
   * resets the device and abandons the iteration.
   */
  function Step(s: Shared, released: bool, t: Tick): (o: Outcome)
    requires ValidShared(s) && ValidTick(t)
    ensures ValidShared(o.shared)
  {
    match t.poll
    case None => Outcome(s, released, [Send(Poll), ResetDevice])
    case Some(r) =>
      var polled := s.(buttonStatus := Buttons(r.buttons), speedBrake := ToPercent(r.levers[0]));
      if s.isAtEngaged then
        if t.setOk then Outcome(polled, false, [Send(Poll), Send(DriveThrottles(s))])
        else Outcome(polled, released, [Send(Poll), Send(DriveThrottles(s)), ResetDevice])
      else if !released && !t.releaseOk then
        Outcome(polled, released, [Send(Poll), Send(LeverRelease), ResetDevice])
      else
        Outcome(polled.(throttleLevel := [ToPercent(r.levers[1]), ToPercent(r.levers[2])]), true,
                [Send(Poll)] + (if released then [] else [Send(LeverRelease)]))
  }

  /** The record an iteration starts from: the one the loop test saw, with the simulator's write, if any, landed in it. */
  function Seen(s: Shared, t: Tick): (r: Shared)
    requires ValidShared(s) && ValidTick(t)
    ensures ValidShared(r) && (s.quit ==> r.quit)
    ensures t.simulator.None? ==> r == s
    ensures t.simulator.Some? ==> OnlyWrites(SimulatorThread, s, r, t.simulator.value.atEngaged)
  {
    match t.simulator
    case None => s
    case Some(w) => BySimulator(s, w)
  }

  /**
   * The loop of TQThread over a schedule: it stops when quit is set or the
   * schedule ends; otherwise the simulator's write lands and one iteration runs.
   */
  function Run(s: Shared, released: bool, ticks: seq<Tick>): (o: Outcome)
    requires ValidShared(s) && ValidTicks(ticks)
    ensures ValidShared(o.shared)
    decreases |ticks|
  {
    if s.quit || ticks == [] then Outcome(s, released, [])
    else
      var first := Step(Seen(s, ticks[0]), released, ticks[0]);
      var rest := Run(first.shared, first.released, ticks[1..]);
      Outcome(rest.shared, rest.released, first.ops + rest.ops)
  }

  // ---------------------------------------------------------------------
  // Properties of one iteration
  // ---------------------------------------------------------------------

  /** A failed poll resets the device and writes nothing. */
  lemma FailedPollWritesNothing(s: Shared, released: bool, t: Tick)
    requires ValidShared(s) && ValidTick(t) && t.poll.None?
    ensures var o := Step(s, released, t);
      o.shared == s && o.released == released && o.ops == [Send(Poll), ResetDevice]
  {
  }

  /**
   * After a successful poll, whatever the A/T state, the buttons are bits 0
   * and 1 of the bitmap and the speed brake is lever byte 0 as a percentage.
   */
  lemma PollPublishesButtonsAndSpeedBrake(s: Shared, released: bool, t: Tick)
    requires ValidShared(s) && ValidTick(t) && t.poll.Some?
    ensures var o := Step(s, released, t);
      && (o.shared.buttonStatus[ButtonToga] <==> t.poll.value.buttons & 1 == 1)
      && (o.shared.buttonStatus[ButtonAtDisengage] <==> t.poll.value.buttons & 2 == 2)
      && o.shared.speedBrake == ToPercent(t.poll.value.levers[0])
  {
  }

  function LeverSetCount(ops: seq<DeviceOp>): nat {
    if ops == [] then 0
    else (if ops[0].Send? && ops[0].command.LeverSet? then 1 else 0) + LeverSetCount(ops[1..])
  }

  /**
   * With A/T engaged and a successful poll, exactly one lever-set is sent,
   * with mask 3 and the simulator's two throttle levels as bytes; the
   * throttle levels are not written; the levers count as locked once it
   * succeeds, and the flag is kept when it fails.
   */
  lemma EngagedDrivesLevers(s: Shared, released: bool, t: Tick)
    requires ValidShared(s) && ValidTick(t) && t.poll.Some? && s.isAtEngaged
    ensures var o := Step(s, released, t);
      && LeverSetCount(o.ops) == 1
      && o.ops[1] == Send(LeverSet(3, [ToByte(s.throttleLevel[ThrottleLeft]), ToByte(s.throttleLevel[ThrottleRight])]))
      && Send(LeverRelease) !in o.ops
      && o.shared.throttleLevel == s.throttleLevel
      && o.released == (if t.setOk then false else released)
      && (ResetDevice in o.ops <==> !t.setOk)
  {
    var o := Step(s, released, t);
    assert LeverSetCount(o.ops[2..]) == 0;
    assert LeverSetCount(o.ops[1..]) == 1;
  }

  /**
   * With A/T off and the levers locked, one lever-release is sent before any
   * throttle level is written; if it fails the throttles are not written and
   * the levers stay locked, if it succeeds they count as released and the
   * polled throttle positions are published.
   */
  lemma DisengagedReleasesFirst(s: Shared, released: bool, t: Tick)
    requires ValidShared(s) && ValidTick(t) && t.poll.Some? && !s.isAtEngaged && !released
    ensures var o := Step(s, released, t);
      && o.ops[..2] == [Send(Poll), Send(LeverRelease)]
      && LeverSetCount(o.ops) == 0
      && o.released == t.releaseOk
      && o.shared.throttleLevel == if t.releaseOk
           then [ToPercent(t.poll.value.levers[1]), ToPercent(t.poll.value.levers[2])]
           else s.throttleLevel
  {
    var o := Step(s, released, t);
    assert LeverSetCount(o.ops[2..]) == 0;
    assert LeverSetCount(o.ops[1..]) == 0;
  }

  /** With A/T off and the levers already released, nothing but the poll is sent and the throttles follow the levers. */
  lemma ReleasedFollowsLevers(s: Shared, released: bool, t: Tick)
    requires ValidShared(s) && ValidTick(t) && t.poll.Some? && !s.isAtEngaged && released
    ensures var o := Step(s, released, t);
      && o.ops == [Send(Poll)]
      && o.released
      && o.shared.throttleLevel == [ToPercent(t.poll.value.levers[1]), ToPercent(t.poll.value.levers[2])]
  {
  }

  /**
   * An iteration writes only the fields the device thread owns: never the
   * A/T flag or quit, and the throttle levels only while A/T is off.
   */
  lemma StepKeepsOwnership(s: Shared, released: bool, t: Tick)
    requires ValidShared(s) && ValidTick(t)
    ensures var o := Step(s, released, t);
      && OnlyWrites(DeviceThread, s, o.shared, s.isAtEngaged)
      && o.shared.isAtEngaged == s.isAtEngaged && o.shared.quit == s.quit
  {
    var o := Step(s, released, t);
    if s.isAtEngaged {
      assert o.shared.throttleLevel == s.throttleLevel;
    }
  }

  /**
   * The lever set the thread sends for throttle levels in 0..100 carries both
   * bytes unmasked in its intended frame, but the frame as written puts a
   * stale byte where the right throttle belongs.
   */
  lemma DriveThrottlesFrame(l: real, r: real, stale: seq<bv8>)
    requires 0.0 <= l <= 100.0 && 0.0 <= r <= 100.0 && |stale| == BufferSize
    ensures var p := LeverSetPacket(3, [ToByte(l), ToByte(r)]);
      && Frame(p) == [0xB2, ToByte(l), ToByte(r)]
      && WrittenFrame(p, stale) == [0xB2, ToByte(l), stale[2]]
  {
    PercentRoundTrip(l);
    PercentRoundTrip(r);
    ThrottlePairFrame(ToByte(l), ToByte(r), stale);
  }

  /** The two-throttle lever set for bytes below 128, intended and as written. */
  lemma ThrottlePairFrame(left: bv8, right: bv8, stale: seq<bv8>)
    requires left < 128 && right < 128 && |stale| == BufferSize
    ensures var p := LeverSetPacket(3, [left, right]);
      && Frame(p) == [0xB2, left, right]
      && WrittenFrame(p, stale) == [0xB2, left, stale[2]]
  {
    ThrottlePairPacket(left, right);
    var p := LeverSetPacket(3, [left, right]);
    var f, w := Frame(p), WrittenFrame(p, stale);
    assert f == [0xB2, left, right] by {
      assert |f| == 3 && f[0] == 0xB2 && f[1] == left && f[2] == right;
    }
    assert w == [0xB2, left, stale[2]] by {
      assert |w| == 3 && w[0] == 0xB2 && w[1] == left && w[2] == stale[2];
    }
  }

  /** The packet cmd_lvr_set(0b011, ...) crafts for bytes below 128. */
  lemma ThrottlePairPacket(left: bv8, right: bv8)
    requires left < 128 && right < 128
    ensures var p := LeverSetPacket(3, [left, right]);
      && WellFormed(p) && p.code == 0xB2 && p.dataSize == 2 && p.data[0] == left && p.data[1] == right
  {
    assert LeverSetSize(3) == 2 && LeverSetCode(3) == 0xB2;
    SevenBitsKept(left);
    SevenBitsKept(right);
  }

  /** Masking to seven bits keeps a byte below 128. */
  lemma SevenBitsKept(x: bv8)
    requires x < 128
    ensures x & 0x7F == x
  {
  }

  // ---------------------------------------------------------------------
  // Properties of the loop
  // ---------------------------------------------------------------------

  lemma OnlyWritesTransitive(side: Side, a: Shared, b: Shared, c: Shared, atEngaged: bool)
    requires ValidShared(a) && ValidShared(b) && ValidShared(c)
    requires OnlyWrites(side, a, b, atEngaged) && OnlyWrites(side, b, c, atEngaged)
    ensures OnlyWrites(side, a, c, atEngaged)
  {
    forall f | Differs(a, c, f) ensures Owner(f, atEngaged) == side {
      if !Differs(a, b, f) {
        assert Differs(b, c, f);
      }
    }
  }

  /** A schedule in which the simulator thread writes nothing. */
  predicate NoSimulatorWrite(ticks: seq<Tick>) {
    forall k :: 0 <= k < |ticks| ==> ticks[k].simulator.None?
  }

  /** A schedule in which the simulator thread never raises quit. */
  predicate NoQuitWrite(ticks: seq<Tick>) {
    forall k :: 0 <= k < |ticks| ==> ticks[k].simulator.None? || !ticks[k].simulator.value.quit
  }

  /**
   * Every iteration the loop runs writes only device-owned fields of the
   * record it starts from, judged by the A/T flag in that record, and keeps
   * that flag and quit.
   */
  ghost predicate EveryIterationOwned(s: Shared, released: bool, ticks: seq<Tick>)
    requires ValidShared(s) && ValidTicks(ticks)
    decreases |ticks|
  {
    s.quit || ticks == [] ||
    var seen := Seen(s, ticks[0]);
    var first := Step(seen, released, ticks[0]);
    && OnlyWrites(DeviceThread, seen, first.shared, seen.isAtEngaged)
    && first.shared.isAtEngaged == seen.isAtEngaged && first.shared.quit == seen.quit
    && EveryIterationOwned(first.shared, first.released, ticks[1..])
  }

  /**
   * Every iteration of the loop keeps to the device thread's fields. When the
   * simulator thread writes nothing meanwhile, the whole loop leaves the A/T
   * flag and quit alone, and with A/T engaged never touches the throttle levels.
   */
  lemma {:induction false} RunKeepsOwnership(s: Shared, released: bool, ticks: seq<Tick>)
    requires ValidShared(s) && ValidTicks(ticks)
    decreases |ticks|
    ensures EveryIterationOwned(s, released, ticks)
    ensures NoSimulatorWrite(ticks) ==> var o := Run(s, released, ticks);
      && OnlyWrites(DeviceThread, s, o.shared, s.isAtEngaged)
      && o.shared.isAtEngaged == s.isAtEngaged && o.shared.quit == s.quit
      && (s.isAtEngaged ==> o.shared.throttleLevel == s.throttleLevel)
  {
    if s.quit || ticks == [] {
    } else {
      var seen := Seen(s, ticks[0]);
      var first := Step(seen, released, ticks[0]);
      StepKeepsOwnership(seen, released, ticks[0]);
      RunKeepsOwnership(first.shared, first.released, ticks[1..]);
      if NoSimulatorWrite(ticks) {
        assert ticks[0].simulator.None?;
        assert NoSimulatorWrite(ticks[1..]) by {
          forall k | 0 <= k < |ticks[1..]| ensures ticks[1..][k].simulator.None? {
            assert ticks[1..][k] == ticks[k + 1];
          }
        }
        var o := Run(s, released, ticks);
        OnlyWritesTransitive(DeviceThread, s, first.shared, o.shared, s.isAtEngaged);
        DeviceNeverWritesFlags(s, o.shared, s.isAtEngaged);
      }
    }
  }

  /**
   * The lock and release edges inside one run: an iteration with A/T engaged
   * drives the levers and locks them; when the simulator then publishes A/T
   * off, the next iteration releases them before anything else.
   */
  lemma LockThenRelease(s: Shared, released: bool, t0: Tick, t1: Tick)
    requires ValidShared(s) && ValidTick(t0) && ValidTick(t1) && !s.quit && s.isAtEngaged
    requires t0.simulator.None? && t0.poll.Some? && t0.setOk
    requires t1.simulator.Some? && !t1.simulator.value.atEngaged && !t1.simulator.value.quit && t1.poll.Some?
    ensures var o := Run(s, released, [t0, t1]);
      && o.ops == [Send(Poll), Send(DriveThrottles(s)), Send(Poll), Send(LeverRelease)]
                  + (if t1.releaseOk then [] else [ResetDevice])
      && o.released == t1.releaseOk
  {
    var ticks := [t0, t1];
    var first := Step(s, released, t0);
    assert Seen(s, t0) == s;
    assert !first.released && !first.shared.quit && first.shared.isAtEngaged;
    assert ticks[1..] == [t1];
    var seen := Seen(first.shared, t1);
    assert !seen.isAtEngaged && !seen.quit;
    var second := Step(seen, false, t1);
    assert [t1][1..] == [];
    assert Run(first.shared, false, [t1]) == Outcome(second.shared, second.released, second.ops + []);
  }

  /** A loop that finds quit already set issues nothing and changes nothing. */
  lemma RunStopsOnQuit(s: Shared, released: bool, ticks: seq<Tick>)
    requires ValidShared(s) && ValidTicks(ticks) && s.quit
    ensures Run(s, released, ticks) == Outcome(s, released, [])
  {
  }

  /**
   * Every iteration starts with a poll, so the loop sends exactly one poll
   * per iteration it runs: with quit clear, one per scheduled answer.
   */
  function PollCount(ops: seq<DeviceOp>): nat {
    if ops == [] then 0 else (if ops[0] == Send(Poll) then 1 else 0) + PollCount(ops[1..])
  }

  lemma PollCountAppend(a: seq<DeviceOp>, b: seq<DeviceOp>)
    ensures PollCount(a + b) == PollCount(a) + PollCount(b)
  {
    if a == [] {
      assert a + b == b;
    } else {
      assert (a + b)[1..] == a[1..] + b;
      PollCountAppend(a[1..], b);
    }
  }

  lemma StepPollsOnce(s: Shared, released: bool, t: Tick)
    requires ValidShared(s) && ValidTick(t)
    ensures PollCount(Step(s, released, t).ops) == 1
  {
    var ops := Step(s, released, t).ops;
    assert ops == [Send(Poll)] + ops[1..];
    PollCountAppend([Send(Poll)], ops[1..]);
    NoPollNoCount(ops[1..]);
  }

  lemma NoPollNoCount(ops: seq<DeviceOp>)
    requires Send(Poll) !in ops
    ensures PollCount(ops) == 0
  {
    if ops != [] {
      NoPollNoCount(ops[1..]);
    }
  }

  lemma {:induction false} RunPollsOncePerTick(s: Shared, released: bool, ticks: seq<Tick>)
    requires ValidShared(s) && ValidTicks(ticks)
    ensures PollCount(Run(s, released, ticks).ops) <= |ticks|
    ensures !s.quit && NoQuitWrite(ticks) ==> PollCount(Run(s, released, ticks).ops) == |ticks|
    decreases |ticks|
  {
    if !s.quit && ticks != [] {
      var seen := Seen(s, ticks[0]);
      var first := Step(seen, released, ticks[0]);
      StepKeepsOwnership(seen, released, ticks[0]);
      StepPollsOnce(seen, released, ticks[0]);
      RunPollsOncePerTick(first.shared, first.released, ticks[1..]);
      PollCountAppend(first.ops, Run(first.shared, first.released, ticks[1..]).ops);
      if NoQuitWrite(ticks) {
        assert !seen.quit;
        assert NoQuitWrite(ticks[1..]) by {
          forall k | 0 <= k < |ticks[1..]|
            ensures ticks[1..][k].simulator.None? || !ticks[1..][k].simulator.value.quit
          {
            assert ticks[1..][k] == ticks[k + 1];
          }
        }
      }
    }
  }

  // ---------------------------------------------------------------------
  // The thread
  // ---------------------------------------------------------------------

  /** How TQThread ended: it returned a code, or it is still looping when the schedule runs out. */
  datatype ThreadExit = Returned(code: int) | StillRunning

  /** One pass of the loop body, performed on the shared record in place. */
  method Iteration(st: SharedStruct, released: bool, t: Tick) returns (nowReleased: bool, ops: seq<DeviceOp>)
    requires st.Valid() && ValidTick(t)
    modifies st
    ensures st.Valid()
    ensures Outcome(st.Value(), nowReleased, ops) == Step(old(st.Value()), released, t)
  {
    ghost var s0 := st.Value();
    nowReleased := released;
    ops := [Send(Poll)];
    if t.poll.None? {
      ops := ops + [ResetDevice];
      return;
    }
    var reading := t.poll.value;
    st.buttonStatus := st.buttonStatus[ButtonToga := ButtonStatus(reading.buttons, ButtonToga) != 0];
    st.buttonStatus := st.buttonStatus[ButtonAtDisengage := ButtonStatus(reading.buttons, ButtonAtDisengage) != 0];
    st.speedBrake := ToPercent(reading.levers[0]);
    assert st.buttonStatus == Buttons(reading.buttons);
    ghost var polled := st.Value();
    assert polled == s0.(buttonStatus := Buttons(reading.buttons), speedBrake := ToPercent(reading.levers[0]));
    if st.isAtEngaged {
      var left := ToByte(st.throttleLevel[ThrottleLeft]);
      var right := ToByte(st.throttleLevel[ThrottleRight]);
      assert LeverSet(3, [left, right]) == DriveThrottles(s0);
      ops := ops + [Send(LeverSet(3, [left, right]))];
      if !t.setOk {
        ops := ops + [ResetDevice];
        return;
      }
      if nowReleased {
        nowReleased := false;
      }
    } else {
      if !nowReleased {
        ops := ops + [Send(LeverRelease)];
        if !t.releaseOk {
          ops := ops + [ResetDevice];
          return;
        }
        nowReleased := true;
      }
      st.throttleLevel := st.throttleLevel[ThrottleLeft := ToPercent(reading.levers[1])];
      st.throttleLevel := st.throttleLevel[ThrottleRight := ToPercent(reading.levers[2])];
      assert st.throttleLevel == [ToPercent(reading.levers[1]), ToPercent(reading.levers[2])];
    }
  }

  lemma TicksTail(ticks: seq<Tick>)
    requires ValidTicks(ticks) && ticks != []
    ensures ValidTicks(ticks[1..])
  {
    forall k | 0 <= k < |ticks[1..]| ensures ticks[1..][k] == ticks[k + 1] {}
  }

  lemma TicksFrom(ticks: seq<Tick>, i: nat)
    requires ValidTicks(ticks) && i <= |ticks|
    ensures ValidTicks(ticks[i..])
  {
    forall k | 0 <= k < |ticks[i..]| ensures ticks[i..][k] == ticks[i + k] {}
  }

  /** A loop that has seen quit or run out of schedule stops where it is. */
  lemma RunDone(s: Shared, released: bool, ticks: seq<Tick>, i: nat)
    requires ValidShared(s) && ValidTicks(ticks) && i <= |ticks| && (s.quit || i == |ticks|)
    ensures ValidTicks(ticks[i..]) && Run(s, released, ticks[i..]) == Outcome(s, released, [])
  {
    TicksFrom(ticks, i);
  }

  /** One unfolding of Run. */
  lemma RunUnfold(s: Shared, released: bool, ticks: seq<Tick>)
    requires ValidShared(s) && ValidTicks(ticks) && !s.quit && ticks != []
    ensures var first := Step(Seen(s, ticks[0]), released, ticks[0]);
      var rest := Run(first.shared, first.released, ticks[1..]);
      Run(s, released, ticks) == Outcome(rest.shared, rest.released, first.ops + rest.ops)
  {
  }

  /**
   * TQThread: open the port and flush it (either failing returns -1), reset
   * the device ignoring the answer, then loop until quit is seen, closing the
   * port on the way out. The levers start out counted as released.
   */
  method TqThread(st: SharedStruct, initOk: bool, flushOk: bool, ticks: seq<Tick>)
    returns (exit: ThreadExit, ops: seq<DeviceOp>)
    requires st.Valid() && ValidTicks(ticks)
    modifies st
    ensures st.Valid()
    ensures !initOk ==> exit == Returned(-1) && ops == [OpenSerial] && st.Value() == old(st.Value())
    ensures initOk && !flushOk ==>
      exit == Returned(-1) && ops == [OpenSerial, FlushReceive] && st.Value() == old(st.Value())
    ensures initOk && flushOk ==>
      var o := Run(old(st.Value()), true, ticks);
      && st.Value() == o.shared
      && ops == [OpenSerial, FlushReceive, Send(Reset)] + o.ops + (if o.shared.quit then [CloseSerial] else [])
      && exit == (if o.shared.quit then Returned(0) else StillRunning)
  {
    ops := [OpenSerial];
    if !initOk {
      return Returned(-1), ops;
    }
    ops := ops + [FlushReceive];
    if !flushOk {
      return Returned(-1), ops;
    }
    // The answer to the initial reset is ignored.
    ops := ops + [Send(Reset)];
    var released, loopOps := PollLoop(st, true, ticks);
    ops := ops + loopOps;
    if st.quit {
      ops := ops + [CloseSerial];
      return Returned(0), ops;
    }
    return StillRunning, ops;
  }

  /**
   * The next iteration of a loop that has not seen quit, after the
   * simulator's write has landed: the commands so far, followed by what
   * remains of the loop, still make up the whole loop.
   */
  method NextIteration(st: SharedStruct, released: bool, ticks: seq<Tick>, i: nat, ghost whole: Outcome, opsBefore: seq<DeviceOp>)
    returns (nowReleased: bool, ops: seq<DeviceOp>)
    requires st.Valid() && ValidTicks(ticks) && !st.quit && i < |ticks|
    requires var rest := Run(st.Value(), released, ticks[i..]);
      Outcome(rest.shared, rest.released, opsBefore + rest.ops) == whole
    modifies st
    ensures st.Valid()
    ensures var rest := Run(st.Value(), nowReleased, ticks[i + 1..]);
      Outcome(rest.shared, rest.released, ops + rest.ops) == whole
  {
    ghost var s0 := st.Value();
    TicksFrom(ticks, i);
    RunAfterFirst(s0, released, ticks[i..], opsBefore, whole);
    assert ticks[i..][1..] == ticks[i + 1..] && ticks[i..][0] == ticks[i];
    if ticks[i].simulator.Some? {
      st.WriteBySimulator(ticks[i].simulator.value);
    }
    assert st.Value() == Seen(s0, ticks[i]);
    var stepOps;
    nowReleased, stepOps := Iteration(st, released, ticks[i]);
    ops := opsBefore + stepOps;
  }

  /** Once the first iteration is done, the commands so far and the rest of the loop still make up the whole loop. */
  lemma RunAfterFirst(s: Shared, released: bool, ticks: seq<Tick>, opsBefore: seq<DeviceOp>, whole: Outcome)
    requires ValidShared(s) && ValidTicks(ticks) && !s.quit && ticks != []
    requires var rest := Run(s, released, ticks);
      Outcome(rest.shared, rest.released, opsBefore + rest.ops) == whole
    ensures ValidTicks(ticks[1..])
    ensures var first := Step(Seen(s, ticks[0]), released, ticks[0]);
      var rest := Run(first.shared, first.released, ticks[1..]);
      Outcome(rest.shared, rest.released, opsBefore + first.ops + rest.ops) == whole
  {
    RunUnfold(s, released, ticks);
    TicksTail(ticks);
    var first := Step(Seen(s, ticks[0]), released, ticks[0]);
    var rest := Run(first.shared, first.released, ticks[1..]);
    assert opsBefore + first.ops + rest.ops == opsBefore + (first.ops + rest.ops);
  }

  /** The loop of TQThread, performed on the shared record in place. */
  method PollLoop(st: SharedStruct, released: bool, ticks: seq<Tick>) returns (nowReleased: bool, ops: seq<DeviceOp>)
    requires st.Valid() && ValidTicks(ticks)
    modifies st
    ensures st.Valid()
    ensures Outcome(st.Value(), nowReleased, ops) == Run(old(st.Value()), released, ticks)
  {
    ghost var whole := Run(st.Value(), released, ticks);
    nowReleased, ops := released, [];
    var i := 0;
    assert ticks[0..] == ticks;
    assert Outcome(whole.shared, whole.released, [] + whole.ops) == whole;
    while !st.quit && i < |ticks|
      invariant 0 <= i <= |ticks| && st.Valid()
      invariant var rest := Run(st.Value(), nowReleased, ticks[i..]);
        Outcome(rest.shared, rest.released, ops + rest.ops) == whole
    {
      nowReleased, ops := NextIteration(st, nowReleased, ticks, i, whole, ops);
      i := i + 1;
    }
    RunDone(st.Value(), nowReleased, ticks, i);
    assert ops + [] == ops;
  }

  /**
   * reset_device: close the port, reopen the thread's port (`openOk` is
   * whether that worked) and reset the device with cmd_reset.
   */
  method ResetDeviceOn(link: SerialLink, openOk: bool, io: WireIo, reopenOk: bool, boot: seq<bv8>, junk: bv8)
    returns (status: Status)
    requires FitsExchange(io, 0, 1)
    requires openOk && io.accepted == 1 && reopenOk ==> |boot| >= 1
    modifies link
    ensures link.portName == PortName && link.baudRate == BaudRate
    ensures !openOk ==> status == Failed(NotInitialized) && !link.initialized && link.tx == old(link.tx)
    ensures !openOk ==> link.rx == old(link.rx)
    ensures openOk ==> link.tx == old(link.tx) + [ResetCode][..io.accepted]
    ensures openOk && io.accepted == 0 ==> link.initialized && status != Done && link.rx == []
    ensures openOk && io.accepted == 1 ==>
      link.initialized == reopenOk &&
      link.rx == (if reopenOk then boot[1..] else []) &&
      (status == Done <==> (if reopenOk then boot[0] else junk) == ResetResp)
  {
    link.CloseSerial();
    var ignored := link.InitSerial(Some(PortName), BaudRate, openOk);
    status := link.CmdReset(io, reopenOk, boot, junk);
  }
}
