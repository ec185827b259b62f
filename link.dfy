/**
 * The host end of the serial link and the ASDF command layer on top of it.
 *
 * The operating system's serial port is replaced by an abstract byte link:
 * a flag saying whether the port is open, the port name and baud rate
 * remembered for reconnecting, the queue of bytes received and not yet read,
 * and the log of every byte written. What the operating system reports back
 * (whether a port opened, how many bytes a write or a read moved) is passed in.
 */
module AsdfLink {
  import opened Optional
  import opened AsdfProtocol
  import opened AsdfCodec

  /**
   * What the operating system does during one command: the prior contents of
   * the uninitialised 16-byte write buffer, the number of bytes the write
   * reports written, and the number of bytes the read reports read.
   */
  datatype WireIo = WireIo(stale: seq<bv8>, accepted: nat, got: nat)

  /** The wire conditions under which a command with `payload` data bytes and `reply` response bytes is well defined. */
  predicate FitsExchange(io: WireIo, payload: nat, reply: nat) {
    |io.stale| == BufferSize && io.accepted <= 1 + payload && io.got <= reply
  }

  class SerialLink {
    var initialized: bool
    var portName: string
    var baudRate: nat
    /** Bytes received from the device and not yet read. */
    var rx: seq<bv8>
    /** Every byte written to the device so far. */
    var tx: seq<bv8>

    constructor ()
      ensures !initialized && portName == "" && baudRate == 0 && rx == [] && tx == []
    {
      initialized, portName, baudRate, rx, tx := false, "", 0, [], [];
    }

    /**
     * asdf_init_serial: remember a given port name and a non-zero baud rate,
     * then open the remembered port. `openOk` is whether the operating system
     * opened and configured it.
     */
    method InitSerial(port: Option<string>, baud: nat, openOk: bool) returns (status: int)
      requires port.Some? ==> |port.value| < 16
      modifies this
      ensures portName == if port.Some? then port.value else old(portName)
      ensures baudRate == if baud != 0 then baud else old(baudRate)
      ensures status == if openOk then 0 else -1
      ensures initialized == (openOk || old(initialized))
      ensures rx == (if openOk then [] else old(rx)) && tx == old(tx)
    {
      if port.Some? && portName != port.value {
        portName := port.value;
      }
      if baud != 0 && baudRate != baud {
        baudRate := baud;
      }
      if !openOk {
        return -1;
      }
      rx := [];
      initialized := true;
      // The 200 ms settle delay is not modelled.
      return 0;
    }

    /** asdf_close_serial. */
    method CloseSerial()
      modifies this`initialized
      ensures !initialized
    {
      initialized := false;
    }

    /** asdf_flush_receive_buffer: `purged` is whether the purge succeeded; the result is nonzero on success. */
    method FlushReceiveBuffer(purged: bool) returns (ok: bool)
      modifies this`rx
      ensures ok == purged
      ensures rx == if purged then [] else old(rx)
    {
      if purged {
        rx := [];
      }
      ok := purged;
    }

    /** asdf_available: the number of bytes waiting to be read. */
    function Available(): nat
      reads this
    {
      |rx|
    }

    /** Bytes arriving from the device. */
    method Deliver(bytes: seq<bv8>)
      modifies this`rx
      ensures rx == old(rx) + bytes
    {
      rx := rx + bytes;
    }

    /** asdf_serial_write: the operating system takes `accepted` bytes of `buf`. */
    method SerialWrite(buf: seq<bv8>, accepted: nat) returns (written: nat)
      requires accepted <= |buf|
      modifies this`tx
      ensures written == accepted
      ensures tx == old(tx) + buf[..accepted]
    {
      tx := tx + buf[..accepted];
      written := accepted;
    }

    /**
     * asdf_serial_read: waits until `size` bytes are queued (the wait has no
     * timeout, so the queue must already hold them), then reads; the
     * operating system reports `got` bytes read.
     */
    method SerialRead(size: nat, got: nat) returns (bytes: seq<bv8>)
      requires 0 < size <= |rx| && got <= size
      modifies this`rx
      ensures bytes == old(rx)[..got] && rx == old(rx)[got..]
    {
      bytes := rx[..got];
      rx := rx[got..];
    }

    /** asdf_serial_read_remaining: reads what is queued, at most `size` bytes, without waiting. */
    method ReadRemaining(size: nat) returns (bytes: seq<bv8>)
      modifies this`rx
      ensures |bytes| == if |old(rx)| >= size then size else |old(rx)|
      ensures old(rx) == bytes + rx
    {
      var truncated := if Available() >= size then size else Available();
      bytes := rx[..truncated];
      rx := rx[truncated..];
    }

    /**
     * asdf_send_no_recv: writes the frame of `pkt` as the C code builds it
     * and fails on a closed port or a short write.
     */
    method SendNoRecv(pkt: Packet, stale: seq<bv8>, accepted: nat) returns (status: Status)
      requires WellFormed(pkt) && |stale| == BufferSize && accepted <= 1 + pkt.dataSize
      modifies this`tx
      ensures !initialized ==> status == Failed(NotInitialized) && tx == old(tx)
      ensures initialized ==> tx == old(tx) + WrittenFrame(pkt, stale)[..accepted]
      ensures initialized ==> status == if accepted == 1 + pkt.dataSize then Done else Failed(ShortWrite)
    {
      if !initialized {
        return Failed(NotInitialized);
      }
      var buf := new bv8[BufferSize](i => if 0 <= i < |stale| then stale[i] else 0);
      var size: nat := 0;
      buf[size] := pkt.code & 0xFF;
      size := size + 1;
      var i := size;
      while i < pkt.dataSize && i < BufferSize
        modifies buf
        invariant 1 <= i <= if pkt.dataSize < 1 then 1 else pkt.dataSize
        invariant buf[0] == pkt.code
        invariant forall k :: 1 <= k < i ==> buf[k] == pkt.data[k - 1]
        invariant forall k :: i <= k < BufferSize ==> buf[k] == stale[k]
      {
        buf[i] := pkt.data[i - size];
        i := i + 1;
      }
      size := size + pkt.dataSize;
      var frame := buf[..size];
      assert frame == WrittenFrame(pkt, stale);
      var written := SerialWrite(frame, accepted);
      if written != size {
        return Failed(ShortWrite);
      }
      return Done;
    }

    /**
     * asdf_send: sends `pkt`, then reads `expected.dataSize + 1` bytes and
     * checks them against `expected`. On success the received packet carries
     * the bytes read; on failure the expected packet is handed back untouched.
     */
    method Send(pkt: Packet, expected: Packet, io: WireIo) returns (status: Status, recvd: Packet)
      requires WellFormed(pkt) && |expected.data| == PacketCapacity
      requires FitsExchange(io, pkt.dataSize, expected.dataSize + 1)
      requires initialized && expected.dataSize <= 15 && io.accepted == 1 + pkt.dataSize
        ==> |rx| >= expected.dataSize + 1
      modifies this`tx, this`rx
      ensures !old(initialized) || expected.dataSize > 15 ==> tx == old(tx) && rx == old(rx) && recvd == expected
      ensures !old(initialized) ==> status == Failed(NotInitialized)
      ensures old(initialized) && expected.dataSize > 15 ==> status == Failed(SizeOverflow)
      ensures old(initialized) && expected.dataSize <= 15 ==>
        tx == old(tx) + WrittenFrame(pkt, io.stale)[..io.accepted]
      ensures old(initialized) && expected.dataSize <= 15 && io.accepted < 1 + pkt.dataSize ==>
        status == Failed(ShortWrite) && rx == old(rx) && recvd == expected
      ensures old(initialized) && expected.dataSize <= 15 && io.accepted == 1 + pkt.dataSize ==>
        rx == old(rx)[io.got..] &&
        var r := Decode(expected, old(rx)[..io.got]);
        (r.Ok? ==> status == Done && recvd == r.value) &&
        (r.Err? ==> status == Failed(r.fault) && recvd == expected)
    {
      recvd := expected;
      if !initialized {
        return Failed(NotInitialized), recvd;
      }
      if expected.dataSize > 15 {
        return Failed(SizeOverflow), recvd;
      }
      status := SendNoRecv(pkt, io.stale, io.accepted);
      if status != Done {
        return;
      }
      var readBuf := SerialRead(expected.dataSize + 1, io.got);
      if |readBuf| == 0 {
        return Failed(EmptyResponse), recvd;
      }
      // A length other than the expected one is only reported.
      if readBuf[0] != expected.code {
        return Failed(WrongCode), recvd;
      }
      var data := expected.data;
      var i := 0;
      while i < expected.dataSize && i < |readBuf| - 1 && i < PacketCapacity
        invariant 0 <= i <= PacketCapacity && i <= |readBuf| - 1
        invariant |data| == PacketCapacity
        invariant forall k :: 0 <= k < i ==> data[k] == readBuf[k + 1]
        invariant forall k :: i <= k < PacketCapacity ==> data[k] == expected.data[k]
      {
        data := data[i := readBuf[i + 1]];
        i := i + 1;
      }
      recvd := Packet(readBuf[0], data, |readBuf| - 1);
      assert data == Overlay(expected.data, readBuf[1..], expected.dataSize);
      status := Done;
    }

    /**
     * cmd_reset: sends RESET without waiting for an answer, closes the port,
     * reopens it with the remembered name and baud rate (`reopenOk` is whether
     * that worked; the result is not checked), and expects one RESET byte.
     * `boot` is what the rebooted device sends on the new connection; on a
     * port that failed to reopen the byte read is indeterminate (`junk`).
     */
    method CmdReset(io: WireIo, reopenOk: bool, boot: seq<bv8>, junk: bv8) returns (status: Status)
      requires FitsExchange(io, 0, 1)
      requires initialized && io.accepted == 1 && reopenOk ==> |boot| >= 1
      modifies this
      ensures portName == old(portName) && baudRate == old(baudRate)
      ensures old(initialized) ==> tx == old(tx) + [ResetCode][..io.accepted]
      ensures !old(initialized) ==> tx == old(tx) && status == Failed(NotInitialized)
      ensures !old(initialized) || io.accepted == 0 ==>
        status != Done && initialized == old(initialized) && rx == old(rx)
      ensures old(initialized) && io.accepted == 1 ==>
        initialized == reopenOk &&
        rx == (if reopenOk then boot[1..] else old(rx)) &&
        (status == Done <==> (if reopenOk then boot[0] else junk) == ResetResp)
    {
      var pkt := Blank(ResetCode, 0);
      EmptyFrameIntact(pkt, io.stale);
      status := SendNoRecv(pkt, io.stale, io.accepted);
      if status != Done {
        return;
      }
      CloseSerial();
      // Sleep(MaxDeviceResetMs) is not modelled.
      var ignored := InitSerial(None, 0, reopenOk);
      var code: bv8;
      if reopenOk {
        Deliver(boot);
        var bytes := SerialRead(1, 1);
        code := bytes[0];
      } else {
        code := junk;
      }
      if code != ResetResp {
        return Failed(WrongCode);
      }
      return Done;
    }

    /**
     * cmd_poll: sends POLL and expects POLL_OK with four data bytes; on success
     * the button bitmap and the speed-brake, throttle 1 and throttle 2 bytes.
     */
    method CmdPoll(io: WireIo) returns (status: Status, reading: Option<PollReading>)
      requires FitsExchange(io, 0, 5)
      requires initialized && io.accepted == 1 ==> |rx| >= 5
      modifies this`tx, this`rx
      ensures tx == if old(initialized) then old(tx) + [PollCode][..io.accepted] else old(tx)
      ensures rx == if old(initialized) && io.accepted == 1 then old(rx)[io.got..] else old(rx)
      ensures status == Done <==> old(initialized) && io.accepted == 1 && io.got > 0 && old(rx)[0] == PollOkResp
      ensures reading.Some? <==> status == Done
      ensures reading.Some? ==> reading.value == PollReadingOf(old(rx)[..io.got])
    {
      var pkt := Blank(PollCode, 0);
      EmptyFrameIntact(pkt, io.stale);
      var recvd;
      status, recvd := Send(pkt, Blank(PollOkResp, 4), io);
      if status != Done {
        return status, None;
      }
      reading := Some(PollReading(recvd.data[0], [recvd.data[1], recvd.data[2], recvd.data[3]]));
    }

    /** cmd_lvr_rels: sends LEVER_RELEASE and expects its 0x83 echo with no data. */
    method CmdLvrRels(io: WireIo) returns (status: Status)
      requires FitsExchange(io, 0, 1)
      requires initialized && io.accepted == 1 ==> |rx| >= 1
      modifies this`tx, this`rx
      ensures tx == if old(initialized) then old(tx) + [LeverReleaseCode][..io.accepted] else old(tx)
      ensures rx == if old(initialized) && io.accepted == 1 then old(rx)[io.got..] else old(rx)
      ensures status == Done <==> old(initialized) && io.accepted == 1 && io.got == 1 && old(rx)[0] == ReleaseResp
    {
      var pkt := Blank(LeverReleaseCode, 0);
      EmptyFrameIntact(pkt, io.stale);
      var recvd;
      status, recvd := Send(pkt, Blank(ReleaseResp, 0), io);
    }

    /** cmd_asdf: sends the debug command and expects ACK with no data. */
    method CmdAsdf(io: WireIo) returns (status: Status)
      requires FitsExchange(io, 0, 1)
      requires initialized && io.accepted == 1 ==> |rx| >= 1
      modifies this`tx, this`rx
      ensures tx == if old(initialized) then old(tx) + [EchoCode][..io.accepted] else old(tx)
      ensures rx == if old(initialized) && io.accepted == 1 then old(rx)[io.got..] else old(rx)
      ensures status == Done <==> old(initialized) && io.accepted == 1 && io.got == 1 && old(rx)[0] == AckResp
    {
      var pkt := Blank(EchoCode, 0);
      EmptyFrameIntact(pkt, io.stale);
      var recvd;
      status, recvd := Send(pkt, Blank(AckResp, 0), io);
    }

    /**
     * cmd_lvr_set: sends the lever-set packet for `bitmask` (written with the
     * frame defect of asdf_send_no_recv) and expects ACK with no data.
     */
    method CmdLvrSet(bitmask: bv8, values: seq<bv8>, io: WireIo) returns (status: Status)
      requires LeverSetSize(bitmask) <= |values|
      requires FitsExchange(io, LeverSetSize(bitmask), 1)
      requires initialized && io.accepted == 1 + LeverSetSize(bitmask) ==> |rx| >= 1
      modifies this`tx, this`rx
      ensures tx == if old(initialized) then old(tx) + WrittenFrame(LeverSetPacket(bitmask, values), io.stale)[..io.accepted] else old(tx)
      ensures rx == if old(initialized) && io.accepted == 1 + LeverSetSize(bitmask) then old(rx)[io.got..] else old(rx)
      ensures status == Done <==>
        old(initialized) && io.accepted == 1 + LeverSetSize(bitmask) && io.got == 1 && old(rx)[0] == AckResp
    {
      var pkt := LeverSetPacket(bitmask, values);
      var recvd;
      status, recvd := Send(pkt, Blank(AckResp, 0), io);
    }
  }

  /**
   * What cmd_poll makes of the bytes read: the data area starts zeroed, so
   * slots a short answer did not reach read as 0.
   */
  function PollReadingOf(read: seq<bv8>): (r: PollReading)
    ensures |r.levers| == 3
  {
    var data := Overlay(Blank(PollOkResp, 4).data, if |read| > 0 then read[1..] else [], 4);
    PollReading(data[0], data[1..4])
  }

  /** A full POLL_OK answer yields its four data bytes in order. */
  lemma PollFullResponse(buttons: bv8, speedBrake: bv8, throttle1: bv8, throttle2: bv8)
    ensures PollReadingOf([PollOkResp, buttons, speedBrake, throttle1, throttle2])
      == PollReading(buttons, [speedBrake, throttle1, throttle2])
  {
  }

  /**
   * A POLL_OK answer with only the bitmap still succeeds (the length mismatch
   * is only reported) and reads every lever as 0.
   */
  lemma PollShortResponse(buttons: bv8)
    ensures PollReadingOf([PollOkResp, buttons]) == PollReading(buttons, [0, 0, 0])
  {
  }
}
