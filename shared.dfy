/**
 * The record shared by the device thread and the simulator thread, its
 * defaults, and the rule saying which thread may write which field.
 *
 * The two threads never lock: each field has one writer at any moment,
 * fixed by the field itself or, for the throttle levels, by the A/T flag.
 */
module SharedState {
  import opened Optional

  const ThrottleNum: nat := 2
  const ButtonNum: nat := 2

  /** throttle_idx_t */
  const ThrottleLeft: nat := 0
  const ThrottleRight: nat := 1

  /** button_idx_t; also the bit of each button in the POLL bitmap. */
  const ButtonToga: nat := 0
  const ButtonAtDisengage: nat := 1

  /** A snapshot of the shared record. Percentages are exact reals here. */
  datatype Shared = Shared(
    speedBrake: real,
    throttleLevel: seq<real>,
    buttonStatus: seq<bool>,
    isAtEngaged: bool,
    quit: bool)

  predicate ValidShared(s: Shared) {
    |s.throttleLevel| == ThrottleNum && |s.buttonStatus| == ButtonNum
  }

  /** The record as the program creates it. */
  const Default: Shared := Shared(0.0, [0.0, 0.0], [false, false], false, false)

  /** The shared record itself; both threads update its fields in place. */
  class SharedStruct {
    var speedBrake: real
    var throttleLevel: seq<real>
    var buttonStatus: seq<bool>
    var isAtEngaged: bool
    var quit: bool

    ghost predicate Valid()
      reads this
    {
      |throttleLevel| == ThrottleNum && |buttonStatus| == ButtonNum
    }

    function Value(): (s: Shared)
      reads this
      ensures Valid() ==> ValidShared(s)
    {
      Shared(speedBrake, throttleLevel, buttonStatus, isAtEngaged, quit)
    }

    constructor ()
      ensures Valid() && Value() == Default
      ensures speedBrake == 0.0 && throttleLevel == [0.0, 0.0] && buttonStatus == [false, false]
      ensures !isAtEngaged && !quit
    {
      speedBrake := 0.0;
      throttleLevel := [0.0, 0.0];
      buttonStatus := [false, false];
      isAtEngaged := false;
      quit := false;
    }

    /** The simulator thread's sync, seen from the device thread: it lands between two iterations. */
    method WriteBySimulator(w: SimulatorWrite)
      requires Valid() && ValidSimulatorWrite(w)
      modifies this
      ensures Valid() && Value() == BySimulator(old(Value()), w)
    {
      isAtEngaged := w.atEngaged;
      if w.atEngaged {
        throttleLevel := w.throttleLevel;
      }
      quit := quit || w.quit;
    }

    /** A device iteration, seen from the simulator thread: it lands between two passes. */
    method WriteByDevice(w: DeviceWrite)
      requires Valid() && ValidDeviceWrite(w)
      modifies this
      ensures Valid() && Value() == ByDevice(old(Value()), w)
    {
      speedBrake := w.speedBrake;
      buttonStatus := w.buttonStatus;
      if !isAtEngaged && w.throttleLevel.Some? {
        throttleLevel := w.throttleLevel.value;
      }
    }
  }

  // ---------------------------------------------------------------------
  // Field ownership
  // ---------------------------------------------------------------------

  datatype Field = SpeedBrakeLevel | ThrottleLevel(index: nat) | Button(index: nat) | AtEngaged | Quit

  datatype Side = DeviceThread | SimulatorThread

  /**
   * The writer of each field: the device thread owns the speed brake and the
   * buttons, the simulator thread owns the A/T flag and quit, and the
   * throttle levels belong to the simulator while A/T is engaged and to the
   * device while it is not.
   */
  function Owner(f: Field, atEngaged: bool): Side {
    match f
    case SpeedBrakeLevel => DeviceThread
    case Button(_) => DeviceThread
    case ThrottleLevel(_) => if atEngaged then SimulatorThread else DeviceThread
    case AtEngaged => SimulatorThread
    case Quit => SimulatorThread
  }

  /** Field `f` holds different values in `a` and `b`. */
  predicate Differs(a: Shared, b: Shared, f: Field)
    requires ValidShared(a) && ValidShared(b)
  {
    match f
    case SpeedBrakeLevel => a.speedBrake != b.speedBrake
    case ThrottleLevel(i) => i < ThrottleNum && a.throttleLevel[i] != b.throttleLevel[i]
    case Button(i) => i < ButtonNum && a.buttonStatus[i] != b.buttonStatus[i]
    case AtEngaged => a.isAtEngaged != b.isAtEngaged
    case Quit => a.quit != b.quit
  }

  /** Going from `a` to `b`, `side` changed only fields it owns while the A/T flag is `atEngaged`. */
  ghost predicate OnlyWrites(side: Side, a: Shared, b: Shared, atEngaged: bool)
    requires ValidShared(a) && ValidShared(b)
  {
    forall f :: Differs(a, b, f) ==> Owner(f, atEngaged) == side
  }

  /**
   * Two steps taken from the same record under the same A/T flag, one by
   * each thread, each keeping to its own fields, never change the same field.
   */
  lemma NoFieldWrittenByBoth(a: Shared, byDevice: Shared, bySimulator: Shared, atEngaged: bool)
    requires ValidShared(a) && ValidShared(byDevice) && ValidShared(bySimulator)
    requires OnlyWrites(DeviceThread, a, byDevice, atEngaged)
    requires OnlyWrites(SimulatorThread, a, bySimulator, atEngaged)
    ensures forall f :: !(Differs(a, byDevice, f) && Differs(a, bySimulator, f))
  {
  }

  /** What the device thread may never change: the A/T flag and quit. */
  lemma DeviceNeverWritesFlags(a: Shared, b: Shared, atEngaged: bool)
    requires ValidShared(a) && ValidShared(b)
    requires OnlyWrites(DeviceThread, a, b, atEngaged)
    ensures b.isAtEngaged == a.isAtEngaged && b.quit == a.quit
    ensures atEngaged ==> b.throttleLevel == a.throttleLevel
  {
    assert !Differs(a, b, AtEngaged) && !Differs(a, b, Quit);
    if atEngaged {
      assert !Differs(a, b, ThrottleLevel(0)) && !Differs(a, b, ThrottleLevel(1));
    }
  }

  /** What the simulator thread may never change: the speed brake and the buttons. */
  lemma SimulatorNeverWritesDeviceFields(a: Shared, b: Shared, atEngaged: bool)
    requires ValidShared(a) && ValidShared(b)
    requires OnlyWrites(SimulatorThread, a, b, atEngaged)
    ensures b.speedBrake == a.speedBrake && b.buttonStatus == a.buttonStatus
    ensures !atEngaged ==> b.throttleLevel == a.throttleLevel
  {
    assert !Differs(a, b, SpeedBrakeLevel);
    assert !Differs(a, b, Button(0)) && !Differs(a, b, Button(1));
    if !atEngaged {
      assert !Differs(a, b, ThrottleLevel(0)) && !Differs(a, b, ThrottleLevel(1));
    }
  }

  // ---------------------------------------------------------------------
  // What the other thread writes between two iterations
  // ---------------------------------------------------------------------

  /**
   * What a simulator sync publishes into the record: the A/T flag, the
   * throttle levels when that flag is set, and on the way out the quit flag.
   */
  datatype SimulatorWrite = SimulatorWrite(atEngaged: bool, throttleLevel: seq<real>, quit: bool)

  predicate ValidSimulatorWrite(w: SimulatorWrite) {
    |w.throttleLevel| == ThrottleNum
  }

  /**
   * What a device iteration publishes into the record: the buttons and the
   * speed brake, and the polled throttle levels (None when the iteration
   * publishes none), which land only while the record's A/T flag is off.
   */
  datatype DeviceWrite = DeviceWrite(speedBrake: real, buttonStatus: seq<bool>, throttleLevel: Option<seq<real>>)

  predicate ValidDeviceWrite(w: DeviceWrite) {
    |w.buttonStatus| == ButtonNum && (w.throttleLevel.Some? ==> |w.throttleLevel.value| == ThrottleNum)
  }

  /** The record after a simulator write: only simulator-owned fields change, judged by the flag it publishes, and quit is never cleared. */
  function BySimulator(s: Shared, w: SimulatorWrite): (r: Shared)
    requires ValidShared(s) && ValidSimulatorWrite(w)
    ensures ValidShared(r) && OnlyWrites(SimulatorThread, s, r, w.atEngaged)
    ensures s.quit ==> r.quit
  {
    s.(isAtEngaged := w.atEngaged,
       throttleLevel := if w.atEngaged then w.throttleLevel else s.throttleLevel,
       quit := s.quit || w.quit)
  }

  /** The record after a device write: only device-owned fields change, judged by the flag in the record. */
  function ByDevice(s: Shared, w: DeviceWrite): (r: Shared)
    requires ValidShared(s) && ValidDeviceWrite(w)
    ensures ValidShared(r) && OnlyWrites(DeviceThread, s, r, s.isAtEngaged)
  {
    s.(speedBrake := w.speedBrake,
       buttonStatus := w.buttonStatus,
       throttleLevel := if !s.isAtEngaged && w.throttleLevel.Some? then w.throttleLevel.value else s.throttleLevel)
  }

  // ---------------------------------------------------------------------
  // Lever byte <-> percentage
  // ---------------------------------------------------------------------

  /** C's conversion of a floating-point value to an integer: truncation toward zero. */
  function Trunc(x: real): (n: int)
    ensures 0.0 <= x ==> n as real <= x < n as real + 1.0
    ensures x < 0.0 ==> n as real - 1.0 < x <= n as real
  {
    if x >= 0.0 then x.Floor else -((-x).Floor)
  }

  /** asdf2sc: a lever byte 0..127 as a percentage 0..100. */
  function ToPercent(v: bv8): (p: real)
    ensures 0.0 <= p
    ensures v <= 127 ==> p <= 100.0
  {
    (v as int) as real * 100.0 / 127.0
  }

  /**
   * sc2asdf: a percentage as a lever byte, truncating (the cast to unsigned
   * char). Whenever the scaled percentage truncates to 0..255 the byte is
   * exactly that truncation, as the C cast gives it; only outside that
   * interval does the model's wrap modulo 256 come into play.
   */
  function ToByte(p: real): (b: bv8)
    ensures -100.0 < p * 127.0 < 25600.0 ==> b as int == Trunc(p * 127.0 / 100.0)
  {
    var n := Trunc(p * 127.0 / 100.0);
    SmallByte(n);
    (n % 256) as bv8
  }

  /** A whole number 0..255 is its own byte. */
  lemma SmallByte(n: int)
    ensures 0 <= n < 256 ==> ((n % 256) as bv8) as int == n
  {
  }

  /** Scaling a whole number down to a percentage and back up again is exact. */
  lemma ScaleBack(k: int)
    ensures Trunc(k as real * 100.0 / 127.0 * 127.0 / 100.0) == k
  {
    var r := k as real;
    var p := r * 100.0 / 127.0;
    assert p * 127.0 == r * 100.0;
    assert p * 127.0 / 100.0 == r;
  }

  /** A lever byte survives the trip to a percentage and back. */
  lemma ByteRoundTrip(v: bv8)
    requires v <= 127
    ensures ToByte(ToPercent(v)) == v
  {
    var p := ToPercent(v);
    assert 0.0 <= p * 127.0 <= 12700.0;
    ScaleBack(v as int);
    assert ToByte(p) as int == v as int;
  }

  /**
   * A percentage in 0..100 becomes a byte in 0..127 and comes back at most
   * one step (100/127) lower, never higher.
   */
  lemma PercentRoundTrip(p: real)
    requires 0.0 <= p <= 100.0
    ensures ToByte(p) <= 127
    ensures 0.0 <= p - ToPercent(ToByte(p)) < 100.0 / 127.0
  {
    var x := p * 127.0 / 100.0;
    var t := Trunc(x);
    assert 0 <= t <= 127;
    assert ToByte(p) as int == t;
    assert t as real <= x < t as real + 1.0;
    assert ToPercent(ToByte(p)) == t as real * 100.0 / 127.0;
  }
}
