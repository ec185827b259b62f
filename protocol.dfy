/** A value that may be absent. */
module Optional {
  datatype Option<+T> = None | Some(value: T)
}

/**
 * Constants of the ASDF serial protocol spoken between the host add-on and
 * the throttle-quadrant device: command and response codes, the lever-set
 * opcode family, lever and button bits, and the packet record.
 */
module AsdfProtocol {

  // ---------------------------------------------------------------------
  // Command codes (host to device)
  // ---------------------------------------------------------------------

  const ResetCode: bv8 := 0x80
  const PollCode: bv8 := 0x81
  const LeverReleaseCode: bv8 := 0x83
  /** CMD_ASDF, reserved for debugging: the device only acknowledges it. */
  const EchoCode: bv8 := 0xFF

  /** The eight lever-set opcodes, indexed by the 3-bit lever mask. */
  const LeverSetList: seq<bv8> := [0x82, 0x92, 0xA2, 0xB2, 0xC2, 0xD2, 0xE2, 0xF2]
  const LeverSetEmpty: bv8 := 0x82

  /** Lever bits inside a lever-set opcode. */
  const SpeedBrakeBit: bv8 := 1 << 6
  const Throttle1Bit: bv8 := 1 << 5
  const Throttle2Bit: bv8 := 1 << 4
  const LeverMask: bv8 := SpeedBrakeBit | Throttle1Bit | Throttle2Bit

  // ---------------------------------------------------------------------
  // Response codes (device to host)
  // ---------------------------------------------------------------------

  const ErrorResp: bv8 := 0xFF
  const AckResp: bv8 := 0x00
  const ResetResp: bv8 := 0x01
  const PollOkResp: bv8 := 0x02
  const ReleasePilotResp: bv8 := 0x03
  const ReleaseResp: bv8 := 0x83

  /** Longest time the device needs to reboot, in milliseconds. */
  const MaxDeviceResetMs: nat := 3000

  /** Number of data bytes an ASDF packet can hold. */
  const PacketCapacity: nat := 8

  /**
   * An ASDF packet: a code, a fixed 8-byte data area and the number of data
   * bytes in use (to send, or expected / actually received).
   */
  datatype Packet = Packet(code: bv8, data: seq<bv8>, dataSize: nat)

  /** The shape of the C struct: eight data slots, at most eight in use. */
  predicate WellFormed(p: Packet) {
    |p.data| == PacketCapacity && p.dataSize <= PacketCapacity
  }

  /** The packet `{ code, { 0 }, dataSize }` that every command crafts. */
  function Blank(code: bv8, dataSize: nat): (p: Packet)
    ensures |p.data| == PacketCapacity && p.code == code && p.dataSize == dataSize
    ensures forall i :: 0 <= i < PacketCapacity ==> p.data[i] == 0
  {
    Packet(code, seq(PacketCapacity, _ => 0), dataSize)
  }

  /** Every code a host may send: four fixed commands and the lever-set family. */
  const CommandCodes: seq<bv8> := [ResetCode, PollCode, LeverReleaseCode, EchoCode] + LeverSetList

  /** Every code a device may answer with, ERROR included. */
  const ResponseCodes: seq<bv8> := [ErrorResp, AckResp, ResetResp, PollOkResp, ReleasePilotResp]

  predicate Distinct(s: seq<bv8>) {
    forall i, j :: 0 <= i < j < |s| ==> s[i] != s[j]
  }

  lemma CommandCodesDistinct()
    ensures |CommandCodes| == 12 && Distinct(CommandCodes)
  {
  }

  lemma ResponseCodesDistinct()
    ensures Distinct(ResponseCodes)
    ensures ReleaseResp == LeverReleaseCode
  {
  }

  /** The three lever bits are pairwise disjoint, fill 0x70 and avoid the base opcode. */
  lemma LeverBitsPartition()
    ensures SpeedBrakeBit & Throttle1Bit == 0 && SpeedBrakeBit & Throttle2Bit == 0
    ensures Throttle1Bit & Throttle2Bit == 0
    ensures LeverMask == 0x70
    ensures LeverMask & LeverSetEmpty == 0
  {
  }

  // ---------------------------------------------------------------------
  // Lever-set opcodes
  // ---------------------------------------------------------------------

  /**
   * The opcode `0x82 | ((bitmask << 4) & 0x70)` that cmd_lvr_set sends: only
   * the low three bits of the mask reach the opcode, and the result is the
   * table entry for them, whatever the mask.
   */
  function LeverSetCode(bitmask: bv8): (cmd: bv8)
    ensures cmd == LeverSetList[(bitmask & 7) as int]
    ensures cmd & !LeverMask == LeverSetEmpty
    ensures cmd in CommandCodes
  {
    LeverSetEmpty | ((bitmask << 4) & LeverMask)
  }

  /** The table is the formula: entry m is the base with m shifted into bits 4..6. */
  lemma LeverSetListIsFormula()
    ensures |LeverSetList| == 8
    ensures forall m: nat :: m < 8 ==> LeverSetList[m] == LeverSetEmpty | ((m as bv8) << 4)
  {
  }

  /**
   * The Python console's CMD_LVR_SET_MAP, keyed by the mask written as three
   * binary digits.
   */
  const PythonLeverSetMap: map<string, bv8> := map[
    "000" := 0x82, "001" := 0x92, "010" := 0xA2, "011" := 0xB2,
    "100" := 0xC2, "101" := 0xD2, "110" := 0xE2, "111" := 0xF2]

  /** Three binary digits of a mask below 8, most significant first. */
  function BinaryDigits(m: bv8): (s: string)
    requires m <= 7
    ensures |s| == 3
  {
    [if m & 4 != 0 then '1' else '0', if m & 2 != 0 then '1' else '0', if m & 1 != 0 then '1' else '0']
  }

  lemma PythonMapAgrees()
    ensures forall m: bv8 :: m <= 7 ==>
      BinaryDigits(m) in PythonLeverSetMap && PythonLeverSetMap[BinaryDigits(m)] == LeverSetList[m as int]
  {
  }

  /** The three levers, in the order lever-set payloads list them. */
  datatype Lever = SpeedBrake | Throttle1 | Throttle2

  /** The levers a lever-set opcode for `bitmask` selects, in payload order. */
  function SelectedLevers(bitmask: bv8): seq<Lever> {
    var cmd := LeverSetCode(bitmask);
    (if cmd & SpeedBrakeBit != 0 then [SpeedBrake] else [])
    + (if cmd & Throttle1Bit != 0 then [Throttle1] else [])
    + (if cmd & Throttle2Bit != 0 then [Throttle2] else [])
  }

  /** The number of payload bytes the switch in cmd_lvr_set chooses. */
  function LeverSetSize(bitmask: bv8): nat {
    if bitmask == 0 then 0
    else if bitmask == 1 || bitmask == 2 || bitmask == 4 then 1
    else if bitmask == 3 || bitmask == 5 || bitmask == 6 then 2
    else if bitmask == 7 then 3
    else 0
  }

  /**
   * The lever-set packet: opcode from the mask, one 7-bit value per selected
   * lever taken from the front of `values` (popcount of the mask many), and
   * an empty payload for a mask above 7.
   */
  function LeverSetPacket(bitmask: bv8, values: seq<bv8>): (p: Packet)
    requires LeverSetSize(bitmask) <= |values|
    ensures WellFormed(p)
    ensures p.code == LeverSetList[(bitmask & 7) as int]
    ensures p.dataSize == if bitmask <= 7 then |SelectedLevers(bitmask)| else 0
    ensures forall i :: 0 <= i < p.dataSize ==> p.data[i] == values[i] & 0x7F && p.data[i] < 0x80
    ensures forall i :: p.dataSize <= i < PacketCapacity ==> p.data[i] == 0
  {
    var n := LeverSetSize(bitmask);
    Packet(LeverSetCode(bitmask),
           seq(PacketCapacity, i requires 0 <= i < PacketCapacity => if i < n then values[i] & 0x7F else 0),
           n)
  }

  // ---------------------------------------------------------------------
  // Buttons
  // ---------------------------------------------------------------------

  /** getButtonStatus: the bitmap masked down to bit `i`. */
  function ButtonStatus(bitmap: bv8, i: nat): (r: bv8)
    requires i < 8
    ensures r != 0 <==> (bitmap >> i) & 1 == 1
    ensures r & !(1 << i) == 0
  {
    bitmap & (1 << i)
  }

  /** The decoded response to POLL: the button bitmap and three lever bytes. */
  datatype PollReading = PollReading(buttons: bv8, levers: seq<bv8>)
}
