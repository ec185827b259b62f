/**
 * The ASDF wire format: the frame a packet becomes on the wire, and how a
 * response read back from the device is checked and unpacked.
 *
 * A frame is the code byte followed by the packet's data bytes; the wire has
 * no length prefix, so the receiver is told how many bytes to expect.
 */
module AsdfCodec {
  import opened AsdfProtocol

  /** Why a send failed; the C code reports every one of them as -1. */
  datatype Fault = NotInitialized | SizeOverflow | ShortWrite | EmptyResponse | WrongCode

  datatype Status = Done | Failed(fault: Fault)

  datatype Result<+T> = Ok(value: T) | Err(fault: Fault)

  /** Size of the local write and read buffers of asdf_send_no_recv and asdf_send. */
  const BufferSize: nat := 16

  /** The intended frame of a packet: its code, then its `dataSize` data bytes. */
  function Frame(p: Packet): (f: seq<bv8>)
    requires WellFormed(p)
    ensures |f| == 1 + p.dataSize && f[0] == p.code
    ensures forall i :: 1 <= i <= p.dataSize ==> f[i] == p.data[i - 1]
  {
    [p.code] + p.data[..p.dataSize]
  }

  /**
   * The frame asdf_send_no_recv actually writes. Its copy loop starts at
   * buffer index 1 but stops before index `dataSize`, so buffer positions
   * 1..dataSize-1 receive data bytes 0..dataSize-2 and position `dataSize`
   * keeps whatever the uninitialised buffer held (`stale`).
   */
  function WrittenFrame(p: Packet, stale: seq<bv8>): (w: seq<bv8>)
    requires WellFormed(p) && |stale| == BufferSize
    ensures |w| == 1 + p.dataSize && w[0] == p.code
    ensures forall i :: 1 <= i < p.dataSize ==> w[i] == p.data[i - 1]
    ensures p.dataSize >= 1 ==> w[p.dataSize] == stale[p.dataSize]
  {
    seq(1 + p.dataSize, i requires 0 <= i < 1 + p.dataSize =>
      if i == 0 then p.code else if i < p.dataSize then p.data[i - 1] else stale[i])
  }

  /**
   * The written frame is the intended one exactly when there is no payload
   * or the stale byte happens to equal the last data byte.
   */
  lemma WrittenFrameIsFrameIff(p: Packet, stale: seq<bv8>)
    requires WellFormed(p) && |stale| == BufferSize
    ensures WrittenFrame(p, stale) == Frame(p)
        <==> p.dataSize == 0 || stale[p.dataSize] == p.data[p.dataSize - 1]
  {
    var w, f := WrittenFrame(p, stale), Frame(p);
    assert |w| == |f|;
    if p.dataSize == 0 || stale[p.dataSize] == p.data[p.dataSize - 1] {
      forall i | 0 <= i < |w| ensures w[i] == f[i] {
        if i > 0 {
          assert f[i] == p.data[i - 1];
        }
      }
    } else {
      assert w[p.dataSize] != f[p.dataSize];
    }
  }

  /**
   * cmd_lvr_set(0b011, [10, 20]) on a zeroed stack: the device receives
   * 0xB2, 10 and a stale 0 instead of 0xB2, 10, 20. The second throttle value
   * never reaches the wire.
   */
  lemma LeverSetFrameLosesLastValue()
    ensures var p := LeverSetPacket(3, [10, 20]);
      && Frame(p) == [0xB2, 10, 20]
      && WrittenFrame(p, seq(BufferSize, _ => 0)) == [0xB2, 10, 0]
  {
    var p := LeverSetPacket(3, [10, 20]);
    assert p.dataSize == 2;
    assert p.data[..2] == [10, 20];
  }

  /**
   * Packs the bytes read behind the code into the 8-byte data area, keeping
   * the slots no byte reached (asdf_send's copy loop): only the first `n`
   * slots, the number of data bytes expected, are ever written.
   */
  function Overlay(base: seq<bv8>, bytes: seq<bv8>, n: nat): seq<bv8> {
    seq(|base|, i requires 0 <= i < |base| => if i < n && i < |bytes| then bytes[i] else base[i])
  }

  /**
   * The response check of asdf_send on the bytes actually read: nothing read
   * fails, a code other than the expected one fails whatever follows it, and a
   * length that differs from the expected one is accepted; the data bytes
   * that arrived overwrite the expected packet's data area, up to the number
   * of data bytes expected, and `dataSize` becomes the number of data bytes
   * received.
   */
  function Decode(expected: Packet, read: seq<bv8>): (r: Result<Packet>)
    requires |expected.data| == PacketCapacity
    ensures |read| == 0 ==> r == Err(EmptyResponse)
    ensures |read| > 0 && read[0] != expected.code ==> r == Err(WrongCode)
    ensures r.Ok? <==> |read| > 0 && read[0] == expected.code
    ensures r.Ok? ==> r.value.code == expected.code && r.value.dataSize == |read| - 1
    ensures r.Ok? ==> |r.value.data| == PacketCapacity
    ensures r.Ok? ==> forall i :: 0 <= i < PacketCapacity ==>
      r.value.data[i] == if i < expected.dataSize && i < |read| - 1 then read[i + 1] else expected.data[i]
    ensures r.Ok? && |read| <= PacketCapacity + 1 ==> WellFormed(r.value)
  {
    if |read| == 0 then Err(EmptyResponse)
    else if read[0] != expected.code then Err(WrongCode)
    else Ok(Packet(read[0], Overlay(expected.data, read[1..], expected.dataSize), |read| - 1))
  }

  /**
   * Round trip of the intended frame: a device that answers with the frame of
   * packet `p` is decoded, by a receiver expecting p's code and size, into
   * p's code, size and data bytes.
   */
  lemma FrameRoundTrip(p: Packet, base: seq<bv8>)
    requires WellFormed(p) && |base| == PacketCapacity
    ensures var r := Decode(Packet(p.code, base, p.dataSize), Frame(p));
      && r.Ok? && r.value.code == p.code && r.value.dataSize == p.dataSize
      && r.value.data[..p.dataSize] == p.data[..p.dataSize]
  {
    var f := Frame(p);
    var r := Decode(Packet(p.code, base, p.dataSize), f);
    assert f[0] == p.code;
    forall i | 0 <= i < p.dataSize ensures r.value.data[i] == p.data[i] {
      assert f[i + 1] == p.data[i];
    }
  }

  /**
   * The round trip as written fails: decoding the frame of
   * cmd_lvr_set(0b011, [10, 20]) yields 10 and the stale 0.
   */
  lemma WrittenRoundTripLosesLastValue()
    ensures var p := LeverSetPacket(3, [10, 20]);
      var r := Decode(Packet(p.code, Blank(0, 0).data, 2), WrittenFrame(p, seq(BufferSize, _ => 0)));
      r.Ok? && r.value.data[..2] == [10, 0] && p.data[..2] == [10, 20]
  {
    LeverSetFrameLosesLastValue();
  }

  /** A frame without payload (RESET, POLL, LEVER_RELEASE, ASDF) is written intact. */
  lemma EmptyFrameIntact(p: Packet, stale: seq<bv8>)
    requires WellFormed(p) && |stale| == BufferSize && p.dataSize == 0
    ensures WrittenFrame(p, stale) == Frame(p) == [p.code]
  {
    WrittenFrameIsFrameIff(p, stale);
  }
}
