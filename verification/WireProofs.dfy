/** The two ends of the wire agree, and together they implement a register file. */
module WireProofs {
  import opened Prelude
  import opened Codec
  import opened DriveSpec
  import opened Telegram
  import opened Gateway

  // ------------------------------------------------------------ two validators, one language

  /** Over all byte strings, the driver accepts as a request exactly what the simulator's
      strict parser accepts as a gateway request, its size table aside; with the table, the
      simulator refuses exactly the frames whose count is not the object's size. */
  lemma ValidatorsAgree(frame: seq<Byte>)
    ensures var parsed := ParseGatewayRequest(frame, Strictness(true, false));
            ValidateGatewayRequest(frame, None).Ok? <==> parsed.Ok? && parsed.value.Gateway?
    ensures var parsed := ParseGatewayRequest(frame, Strictness(true, true));
            ValidateGatewayRequest(frame, None).Ok? && SizeMatches(IndexOf(frame), frame[18])
            <==> parsed.Ok? && parsed.value.Gateway?
  {
  }

  /** Without the telegram switch the simulator accepts more, never less. */
  lemma TolerantParserAcceptsMore(frame: seq<Byte>, objectSize: bool)
    ensures ParseGatewayRequest(frame, Strictness(true, objectSize)).Ok? ==>
              ParseGatewayRequest(frame, Strictness(false, objectSize))
              == ParseGatewayRequest(frame, Strictness(true, objectSize))
  {
  }

  /** A frame with the bytes cleared that the protocol reserves. */
  function Cleared(frame: seq<Byte>): (cleared: seq<Byte>)
    requires |frame| >= 19
    ensures |cleared| == |frame|
  {
    frame[10 := 0][11 := 0][15 := 0][16 := 0][17 := 0]
  }

  /** And what it tolerates is exactly that: it reads a frame as the strict one would if the reserved
      bytes were zero. */
  lemma TolerantParserIgnoresReserved(frame: seq<Byte>, objectSize: bool)
    requires |frame| >= 19
    ensures ParseGatewayRequest(frame, Strictness(false, objectSize))
            == ParseGatewayRequest(Cleared(frame), Strictness(true, objectSize))
  {
    assert Cleared(frame)[19..] == frame[19..];
  }

  /** The sizes by which the strict simulator judges a request are those of its own replies; an
      object without one is read in the size asked for. The controlword is never read back. */
  lemma SizeTableIsRight(d: Drive, index: int, subindex: int, length: nat)
    requires index != 0x6040
    ensures var read, size := ReadObject(d, index, subindex, length), ObjectSize(index);
            && (read.Ok? && size.Some? ==> |read.value| == size.value)
            && (size.None? ==> read.Ok? && |read.value| == length)
    ensures ObjectSize(0x6040) == Some(2)
  {
  }

  /** The frame that carries the same fields as this one. */
  function Rebuilt(adu: seq<Byte>): seq<Byte>
    requires |adu| >= HEADER_LENGTH && adu[9] in {READ, WRITE} && |adu| <= HEADER_LENGTH + 4
  {
    Frame(TransactionId(adu), UnitId(adu), adu[9], IndexOf(adu), SubindexOf(adu), adu[18], adu[HEADER_LENGTH..])
  }

  lemma RebuiltWhenValid(adu: seq<Byte>)
    requires HEADER_LENGTH <= |adu| <= HEADER_LENGTH + 4 && adu[9] in {READ, WRITE}
    ensures Rebuilt(adu) == adu <==>
              && ProtocolId(adu) == 0 && |adu| == 6 + MbapLength(adu)
              && adu[7] == FUNCTION_CODE && adu[8] == MEI_TYPE && ReservedAreZero(adu)
  {
    var r := Rebuilt(adu);
    assert r[19..] == adu[19..];
    assert r[0] == adu[0] && r[1] == adu[1] && r[6] == adu[6] && r[9] == adu[9];
    assert r[12] == adu[12] && r[13] == adu[13] && r[14] == adu[14] && r[18] == adu[18];
    if ProtocolId(adu) == 0 && |adu| == 6 + MbapLength(adu) && adu[7] == FUNCTION_CODE && adu[8] == MEI_TYPE
        && ReservedAreZero(adu) {
      assert r[..19] == adu[..19];
      assert r == r[..19] + r[19..] && adu == adu[..19] + adu[19..];
    }
  }

  /** The driver accepts as requests exactly the telegrams it can build. */
  lemma RequestLanguage(adu: seq<Byte>)
    ensures ValidateGatewayRequest(adu, Some(false)).Ok? <==>
              && |adu| == HEADER_LENGTH
              && BuildReadAdu(TransactionId(adu), UnitId(adu), IndexOf(adu), SubindexOf(adu), adu[18]) == Ok(adu)
    ensures ValidateGatewayRequest(adu, Some(true)).Ok? <==>
              && HEADER_LENGTH < |adu| <= HEADER_LENGTH + 4
              && BuildWriteAdu(TransactionId(adu), UnitId(adu), IndexOf(adu), SubindexOf(adu), adu[HEADER_LENGTH..])
                 == Ok(adu)
  {
    if HEADER_LENGTH <= |adu| <= HEADER_LENGTH + 4 && adu[9] in {READ, WRITE} {
      RebuiltWhenValid(adu);
    }
  }

  /** The driver accepts as replies exactly the frames the simulator's builder can produce for a
      read of 1 to 4 bytes or a write of at most 4 echoed bytes, and every exception frame. */
  lemma ReplyLanguage(adu: seq<Byte>)
    ensures ValidateGatewayResponse(adu).Ok? <==>
              || (ValidateMbap(adu).Ok? && |adu| >= 9 && adu[7] == EXCEPTION_CODE)
              || (&& HEADER_LENGTH <= |adu| <= HEADER_LENGTH + 4 && adu[9] in {READ, WRITE}
                  && adu[18] == |adu| - HEADER_LENGTH && (adu[9] == READ ==> adu[18] >= 1)
                  && adu == BuildGatewayResponse(adu[..2], UnitId(adu), adu[9], IndexOf(adu), SubindexOf(adu), adu[18],
                                                 adu[HEADER_LENGTH..], false))
  {
    if HEADER_LENGTH <= |adu| <= HEADER_LENGTH + 4 && adu[9] in {READ, WRITE} {
      RebuiltWhenValid(adu);
      SameBuilder(adu);
    }
  }

  /** Both ends lay a frame out in the same way. */
  lemma SameBuilder(adu: seq<Byte>)
    requires HEADER_LENGTH <= |adu| <= HEADER_LENGTH + 4 && adu[9] in {READ, WRITE}
    ensures BuildGatewayResponse(adu[..2], UnitId(adu), adu[9], IndexOf(adu), SubindexOf(adu), adu[18],
                                 adu[HEADER_LENGTH..], false) == Rebuilt(adu)
  {
  }


  predicate BuiltFor(request: seq<Byte>, tid: int, unit: int, control: int, index: int, subindex: int, count: int,
                     data: seq<Byte>) {
    && |request| == HEADER_LENGTH + |data|
    && TransactionId(request) == tid && UnitId(request) == unit && request[9] == control
    && IndexOf(request) == index && SubindexOf(request) == subindex && request[18] == count
    && request[HEADER_LENGTH..] == data
    && ValidateGatewayRequest(request, None) == Ok(())
  }

  lemma BuiltRead(tid: int, unit: int, index: int, subindex: int, count: int)
    ensures var built := BuildReadAdu(tid, unit, index, subindex, count);
            && (built.Ok? <==> 1 <= count <= 4 && Addressable(tid, unit, index, subindex))
            && (built.Err? ==> built.error == ValueError)
            && (built.Ok? ==> BuiltFor(built.value, tid, unit, READ, index, subindex, count, []))
  {
  }

  lemma BuiltWrite(tid: int, unit: int, index: int, subindex: int, data: seq<Byte>)
    ensures var built := BuildWriteAdu(tid, unit, index, subindex, data);
            && (built.Ok? <==> 1 <= |data| <= 4 && Addressable(tid, unit, index, subindex))
            && (built.Err? ==> built.error == ValueError)
            && (built.Ok? ==> BuiltFor(built.value, tid, unit, WRITE, index, subindex, |data|, data))
  {
  }

  // ------------------------------------------------------------ one exchange

  /** The simulator takes the frame for the request it was built as. */
  predicate Accepts(strict: Strictness, index: int, count: int) {
    strict.objectSize ==> SizeMatches(index, count)
  }

  lemma RequestIsParsed(request: seq<Byte>, strict: Strictness, tid: int, unit: Byte, control: int, index: int,
                        subindex: int, count: int, data: seq<Byte>)
    requires BuiltFor(request, tid, unit, control, index, subindex, count, data) && Accepts(strict, index, count)
    ensures Framed(request)
    ensures ParseGatewayRequest(request, strict) == Ok(Gateway(unit, control, index, subindex, count, data))
  {
  }

  lemma ReplyIsParsed(tid: seq<Byte>, unit: Byte, control: int, index: int, subindex: int, count: int, data: seq<Byte>)
    requires |tid| == 2 && 0 <= index < 0x1_0000 && 0 <= subindex < 256 && 1 <= count <= 4
    requires (control == READ && |data| == count) || (control == WRITE && data == [])
    ensures var reply := BuildGatewayResponse(tid, unit, control, index, subindex, count, data, control == WRITE);
            ParseAdu(reply, None, STRICT)
            == Ok(Response((tid[0] as int) * 256 + tid[1], unit, control, index, subindex, |data|, data))
  {
    var reply := BuildGatewayResponse(tid, unit, control, index, subindex, count, data, control == WRITE);
    assert reply[HEADER_LENGTH..] == data;
  }

  /** A read request is answered by one frame, which decodes to what the object holds. The
      connection dies without an answer exactly when the stored value cannot be encoded. */
  lemma ReadExchange(d: Drive, strict: Strictness, tid: int, unit: int, index: int, subindex: int, size: int,
                     signed: bool, now: int)
    requires 1 <= size <= 4 && Addressable(tid, unit, index, subindex) && Accepts(strict, index, size)
    ensures var request := BuildReadAdu(tid, unit, index, subindex, size);
            request.Ok? && (
            var served, stored := Serve(d, request.value, strict, now), ReadObject(d, index, subindex, size);
            && served.drive == d
            && (stored.Err? ==> served == Served(d, None, false))
            && (stored.Ok? ==>
                  && served.reply.Some? && served.open
                  && DecodeReadInt(served.reply.value, request.value, signed, STRICT)
                     == FromCodec(UnpackInt(FitTo(stored.value, size), signed, Little))))
  {
    BuiltRead(tid, unit, index, subindex, size);
    var request := BuildReadAdu(tid, unit, index, subindex, size).value;
    RequestIsParsed(request, strict, tid, unit, READ, index, subindex, size, []);
    var stored := ReadObject(d, index, subindex, size);
    if stored.Ok? {
      ReplyIsParsed(request[..2], unit, READ, index, subindex, size, FitTo(stored.value, size));
    }
  }

  /** A write request is acknowledged by one frame, and the drive stores exactly the bytes sent. */
  lemma WriteExchange(d: Drive, strict: Strictness, tid: int, unit: int, index: int, subindex: int, value: int,
                      size: int, signed: bool, now: int)
    requires SupportedSize(size) && InRange(value, size, signed)
    requires Addressable(tid, unit, index, subindex) && Accepts(strict, index, size)
    ensures var data := PackInt(value, size, signed, Little).value;
            var request := BuildWriteInt(tid, unit, index, subindex, value, size, signed);
            request.Ok? && (
            var served := Serve(d, request.value, strict, now);
            && served.drive == WriteObject(d, index, subindex, data, now)
            && served.reply.Some? && served.open
            && ParseWriteResponse(served.reply.value, request.value, STRICT) == Ok(()))
  {
    PackThenUnpack(value, size, signed, Little);
    var data := PackInt(value, size, signed, Little).value;
    BuiltWrite(tid, unit, index, subindex, data);
    var request := BuildWriteInt(tid, unit, index, subindex, value, size, signed).value;
    RequestIsParsed(request, strict, tid, unit, WRITE, index, subindex, size, data);
    ReplyIsParsed(request[..2], unit, WRITE, index, subindex, size, []);
  }

  // ------------------------------------------------------------ a register file

  predicate SpecialToRead(index: int) {
    index in {STATUSWORD, HOMING_STATUS, POSITION_ACTUAL, VELOCITY_ACTUAL, MODES_OF_OPERATION,
              MODES_OF_OPERATION_DISPLAY, TARGET_POSITION, PROFILE_VELOCITY, PROFILE_ACCELERATION,
              PROFILE_DECELERATION, TARGET_VELOCITY, HOMING_METHOD, POSITION_WINDOW, POSITION_RANGE_LIMIT}
  }

  predicate Register32(index: int) {
    index in {TARGET_POSITION, PROFILE_VELOCITY, PROFILE_ACCELERATION, PROFILE_DECELERATION, TARGET_VELOCITY}
  }

  /** Objects that keep what is written to them, with their size; objects the simulator does
      not know keep any size. */
  predicate Writable(index: int, subindex: int, size: int) {
    || (Register32(index) && size == 4)
    || (index == POSITION_RANGE_LIMIT && subindex in {1, 2} && size == 4)
    || (index in {MODES_OF_OPERATION, HOMING_METHOD} && size == 1)
    || (!SpecialToRead(index) && SupportedSize(size))
  }

  lemma FullWidthReadsBack(raw: seq<Byte>, signed: bool)
    requires SupportedSize(|raw|)
    ensures PackInt(UnpackInt(FitTo(raw, |raw|), signed, Little).value, |raw|, signed, Little) == Ok(raw)
  {
    assert FitTo(raw, |raw|) == raw;
    UnpackThenPack(raw, signed, Little);
  }

  lemma ControlwordKeepsBytes(d: Drive, cw: int, now: int)
    ensures ApplyControlword(d, cw, now).od == d.od
  {
  }

  /** The bytes written are the bytes read back; the mode register does so only while the
      mode is not negative. */
  lemma StoredReadsBack(d: Drive, index: int, subindex: int, raw: seq<Byte>, now: int)
    requires Writable(index, subindex, |raw|)
    ensures var stored := ReadObject(WriteObject(d, index, subindex, raw, now), index, subindex, |raw|);
            if index == MODES_OF_OPERATION && SignedOf(raw, 1) < 0 then stored.Err? else stored == Ok(raw)
  {
    FullWidthReadsBack(raw, true);
    FullWidthReadsBack(raw, false);
    if index == MODES_OF_OPERATION {
      ModeReadsBack(d, subindex, raw, now);
    } else if !SpecialToRead(index) {
      ControlwordKeepsBytes(Keep(d, index, subindex, raw), UnsignedOf(raw, 2), now);
      assert FitTo(raw, |raw|) == raw;
    } else if index == HOMING_METHOD {
      Pow256Values();
      UnpackThenPack(FitTo(raw, 1), false, Little);
    }
  }

  lemma ModeReadsBack(d: Drive, subindex: int, raw: seq<Byte>, now: int)
    requires |raw| == 1
    ensures var after := WriteObject(d, MODES_OF_OPERATION, subindex, raw, now);
            var stored := ReadObject(after, MODES_OF_OPERATION, subindex, 1);
            if SignedOf(raw, 1) < 0 then stored.Err? else stored == Ok(raw)
  {
    assert FitTo(raw, 1) == raw;
    Pow256Values();
    UnpackThenPack(raw, true, Little);
  }

  /** Register file: an integer in range, written through the whole stack and read through the
      whole stack with nothing in between, comes back, whatever the transaction ids. The one
      exception is a mode outside 0..127, whose read kills the connection without an answer. */
  lemma WriteThenRead(d: Drive, strict: Strictness, tid: int, tid': int, unit: int, index: int, subindex: int,
                      value: int, size: int, signed: bool, now: int)
    requires SupportedSize(size) && InRange(value, size, signed) && Writable(index, subindex, size)
    requires Addressable(tid, unit, index, subindex) && Addressable(tid', unit, index, subindex)
    requires Accepts(strict, index, size)
    ensures var write := BuildWriteInt(tid, unit, index, subindex, value, size, signed);
            var read := BuildReadAdu(tid', unit, index, subindex, size);
            write.Ok? && read.Ok? && (
            var first := Serve(d, write.value, strict, now);
            var second := Serve(first.drive, read.value, strict, now);
            && first.reply.Some? && ParseWriteResponse(first.reply.value, write.value, STRICT) == Ok(())
            && second.drive == first.drive
            && (index == MODES_OF_OPERATION && !(0 <= value < 128) ==> second.reply.None? && !second.open)
            && (index == MODES_OF_OPERATION ==> 0 <= value < 128 ==> second.reply.Some?)
            && (index != MODES_OF_OPERATION ==> second.reply.Some?)
            && (second.reply.Some? ==> DecodeReadInt(second.reply.value, read.value, signed, STRICT) == Ok(value)))
  {
    PackThenUnpack(value, size, signed, Little);
    var data := PackInt(value, size, signed, Little).value;
    assert FitTo(data, size) == data;
    WriteExchange(d, strict, tid, unit, index, subindex, value, size, signed, now);
    StoredReadsBack(d, index, subindex, data, now);
    if index == MODES_OF_OPERATION {
      SignOfPackedByte(value, signed);
    }
    ReadExchange(WriteObject(d, index, subindex, data, now), strict, tid', unit, index, subindex, size, signed, now);
  }

  lemma SignOfPackedByte(value: int, signed: bool)
    requires InRange(value, 1, signed)
    ensures PackInt(value, 1, signed, Little).Ok?
    ensures SignedOf(PackInt(value, 1, signed, Little).value, 1) < 0 <==> !(0 <= value < 128)
  {
    Pow256Values();
    var data := PackInt(value, 1, signed, Little).value;
    assert FitTo(data, 1) == data;
    var unsigned := if signed && value < 0 then 256 + value else value;
    ValueOfBytes(unsigned, 1);
  }

  /** What a write may change besides its own object. */
  predicate Coupled(index: int, subindex: int, readIndex: int, readSubindex: int) {
    || (index == readIndex && (subindex == readSubindex || SpecialToRead(index)))
    || (index == MODES_OF_OPERATION && readIndex in {MODES_OF_OPERATION_DISPLAY, STATUSWORD})
    || (index == POSITION_RANGE_LIMIT && readIndex == POSITION_ACTUAL)
    || (index == CONTROLWORD && readIndex in {STATUSWORD, HOMING_STATUS, VELOCITY_ACTUAL, TARGET_VELOCITY})
  }

  lemma RegisterWriteKeeps(d: Drive, index: int, subindex: int, raw: seq<Byte>, signed: int, byte: int,
                           readIndex: int, readSubindex: int, length: nat)
    requires index !in {MODES_OF_OPERATION, POSITION_RANGE_LIMIT, CONTROLWORD}
    requires !Coupled(index, subindex, readIndex, readSubindex)
    ensures ReadObject(Keep(d, index, subindex, raw).(regs := StoreRegister(d.regs, index, signed, byte)),
                       readIndex, readSubindex, length)
            == ReadObject(d, readIndex, readSubindex, length)
  {
  }

  lemma LimitWriteKeeps(d: Drive, subindex: int, raw: seq<Byte>, value: int, readIndex: int, readSubindex: int,
                        length: nat)
    requires !Coupled(POSITION_RANGE_LIMIT, subindex, readIndex, readSubindex)
    ensures var after := WriteLimit(Keep(d, POSITION_RANGE_LIMIT, subindex, raw), subindex, value);
            ReadObject(after, readIndex, readSubindex, length)
            == ReadObject(d, readIndex, readSubindex, length)
  {
  }

  lemma ModeWriteKeeps(d: Drive, subindex: int, raw: seq<Byte>, mode: int, readIndex: int, readSubindex: int,
                       length: nat)
    requires !Coupled(MODES_OF_OPERATION, subindex, readIndex, readSubindex)
    ensures var after := Keep(d, MODES_OF_OPERATION, subindex, raw).(mode := mode, display := mode);
            ReadObject(after, readIndex, readSubindex, length)
            == ReadObject(d, readIndex, readSubindex, length)
  {
  }

  lemma ControlwordWriteKeeps(d: Drive, subindex: int, raw: seq<Byte>, cw: int, now: int, readIndex: int,
                              readSubindex: int, length: nat)
    requires !Coupled(CONTROLWORD, subindex, readIndex, readSubindex)
    ensures ReadObject(ApplyControlword(Keep(d, CONTROLWORD, subindex, raw), cw, now), readIndex, readSubindex, length)
            == ReadObject(d, readIndex, readSubindex, length)
  {
    ControlwordKeeps(Keep(d, CONTROLWORD, subindex, raw), cw, now);
  }

  /** Writes do not leak: every read not coupled to the object written returns what it did. */
  lemma OtherObjectsKeep(d: Drive, index: int, subindex: int, raw: seq<Byte>, now: int, readIndex: int,
                         readSubindex: int, length: nat)
    requires !Coupled(index, subindex, readIndex, readSubindex)
    ensures ReadObject(WriteObject(d, index, subindex, raw, now), readIndex, readSubindex, length)
            == ReadObject(d, readIndex, readSubindex, length)
  {
    if index == MODES_OF_OPERATION {
      ModeWriteKeeps(d, subindex, raw, SignedOf(raw, 1), readIndex, readSubindex, length);
    } else if index == POSITION_RANGE_LIMIT {
      LimitWriteKeeps(d, subindex, raw, SignedOf(raw, 4), readIndex, readSubindex, length);
    } else if index == CONTROLWORD {
      ControlwordWriteKeeps(d, subindex, raw, UnsignedOf(raw, 2), now, readIndex, readSubindex, length);
    } else {
      RegisterWriteKeeps(d, index, subindex, raw, SignedOf(raw, 4), UnsignedOf(raw, 1), readIndex, readSubindex,
                         length);
    }
  }

  lemma ControlwordKeeps(d: Drive, cw: int, now: int)
    ensures var after := ApplyControlword(d, cw, now);
            && after.od == d.od && after.axis.position == d.axis.position && after.limits == d.limits
            && after.mode == d.mode && after.display == d.display
            && after.regs == d.regs.(targetVelocity := after.regs.targetVelocity)
  {
  }

  // ------------------------------------------------------------ strict matching

  /** In strict mode a read decodes exactly when the frame is a well-formed read reply to this
      very request. What is decoded is the received data, or, when it is shorter than asked
      for, its zero-extended unsigned value, signed or not. */
  lemma StrictRead(adu: seq<Byte>, request: seq<Byte>, signed: bool)
    requires ValidateGatewayRequest(request, Some(false)).Ok?
    ensures var decoded := DecodeReadInt(adu, request, signed, STRICT);
            && (decoded.Ok? <==>
                  && ValidateGatewayResponse(adu).Ok? && adu[7] != EXCEPTION_CODE && adu[9] == READ
                  && TransactionId(adu) == TransactionId(request) && UnitId(adu) == UnitId(request)
                  && IndexOf(adu) == IndexOf(request) && SubindexOf(adu) == SubindexOf(request))
            && (decoded.Ok? ==>
                  var data := adu[HEADER_LENGTH..];
                  && 1 <= |data| == adu[18] <= 4
                  && |ParseReadResponse(adu, request, STRICT).value| == Max(request[18], |data|)
                  && decoded.value == (if |data| < request[18] then LittleValue(data)
                                       else UnpackInt(data, signed, Little).value))
  {
    if ValidateGatewayResponse(adu).Ok? && adu[7] != EXCEPTION_CODE && adu[9] == READ {
      var data := adu[HEADER_LENGTH..];
      if |data| < request[18] {
        ZeroExtension(data, request[18] - |data|, signed);
      }
    }
  }

  /** In strict mode a reply acknowledges a write exactly when it is a well-formed reply, and no
      exception, with the transaction id, unit, index and sub-index of the request. */
  lemma StrictWrite(adu: seq<Byte>, request: seq<Byte>)
    requires ValidateGatewayRequest(request, Some(true)).Ok?
    ensures ParseWriteResponse(adu, request, STRICT).Ok? <==>
              && ValidateGatewayResponse(adu).Ok? && adu[7] == 0x2B
              && adu[0] == request[0] && adu[1] == request[1] && adu[6] == request[6]
              && adu[12] == request[12] && adu[13] == request[13] && adu[14] == request[14]
  {
  }

  /** A reply with its transaction id and its unit replaced by those of the request, as far as the
      policy does not look at them. */
  function Patched(adu: seq<Byte>, request: seq<Byte>, policy: Policy): seq<Byte>
    requires |request| >= HEADER_LENGTH
  {
    if |adu| < 7 then adu
    else
      var numbered := if policy.tidMismatchOk then adu[0 := request[0]][1 := request[1]] else adu;
      if policy.unitWildcardOk && adu[6] in {0x00, 0xFF} then numbered[6 := request[6]] else numbered
  }

  /** What the policy tolerates is exactly a foreign transaction id and a wildcard unit: a reply is
      parsed as a strict driver would parse it with these replaced. */
  lemma ToleranceIsExact(adu: seq<Byte>, request: seq<Byte>, policy: Policy)
    requires |request| >= HEADER_LENGTH
    ensures ParseReadResponse(adu, request, policy) == ParseReadResponse(Patched(adu, request, policy), request, STRICT)
    ensures ParseWriteResponse(adu, request, policy)
            == ParseWriteResponse(Patched(adu, request, policy), request, STRICT)
  {
    var patched := Patched(adu, request, policy);
    assert ValidateGatewayResponse(adu) == ValidateGatewayResponse(patched);
    if |adu| >= HEADER_LENGTH {
      assert patched[HEADER_LENGTH..] == adu[HEADER_LENGTH..];
    }
  }

  /** In strict mode a frame with another transaction id is neither a value nor an acknowledge. */
  lemma StaleReplyIsRefused(adu: seq<Byte>, request: seq<Byte>, signed: bool)
    requires |request| >= HEADER_LENGTH && |adu| >= 7 && TransactionId(adu) != TransactionId(request)
    ensures DecodeReadInt(adu, request, signed, STRICT).Err?
    ensures ParseWriteResponse(adu, request, STRICT).Err?
  {
  }

  /** Whatever the simulator sends back carries the transaction id of the frame it answers. */
  lemma ReplyEchoesTransactionId(d: Drive, frame: seq<Byte>, strict: Strictness, now: int)
    ensures var served := Serve(d, frame, strict, now);
            served.reply.Some? ==>
              |served.reply.value| >= 7 && TransactionId(served.reply.value) == TransactionId(frame)
  {
  }

  /** A complete frame: its length field counts 2 to 260 bytes, all of which are there. */
  predicate Complete(frame: seq<Byte>) {
    && |frame| >= 8
    && var length := (frame[4] as int) * 256 + frame[5]; 2 <= length <= 260 && |frame| == 6 + length
  }

  /** What a frame that is no gateway request is answered with: exception 1 when it is complete but
      has another function code, exception 3 when it does not parse, and nothing when it is not
      complete; bit 7 marks the function code, and the drive is left alone. The connection goes on
      only after a frame that parses, and not when what it asks for cannot be read. */
  lemma ExceptionsAreServed(d: Drive, frame: seq<Byte>, strict: Strictness, now: int)
    ensures var served, parsed := Serve(d, frame, strict, now), ParseGatewayRequest(frame, strict);
            && (!Complete(frame) ==> served.reply.None? && !served.open && served.drive == d)
            && (Complete(frame) && (parsed.Err? || frame[7] != 0x2B) ==>
                  && served.drive == d && served.open == parsed.Ok?
                  && served.reply
                     == Some([frame[0], frame[1], 0, 0, 0, 3, frame[6],
                              if frame[7] < 0x80 then frame[7] + 0x80 else frame[7], if parsed.Err? then 3 else 1]))
            && (Complete(frame) && parsed.Ok? && frame[7] == 0x2B ==> served.open == served.reply.Some?)
  {
    if Framed(frame) {
      ExceptionBytes(frame[..2], frame[6], frame[7], 0x01);
      ExceptionBytes(frame[..2], frame[6], frame[7], 0x03);
    }
  }

  lemma ExceptionBytes(tid: seq<Byte>, unit: Byte, func: Byte, code: Byte)
    requires |tid| == 2
    ensures BuildException(tid, unit, func, code)
            == [tid[0], tid[1], 0, 0, 0, 3, unit, if func < 0x80 then func + 0x80 else func, code]
  {
    assert tid == [tid[0], tid[1]];
  }

  /** The driver's validator accepts every reply to a gateway request, and an exception frame
      exactly when its function code is that of the gateway. */
  lemma RepliesAreAccepted(d: Drive, frame: seq<Byte>, strict: Strictness, now: int)
    requires Framed(frame)
    ensures var served, parsed := Serve(d, frame, strict, now), ParseGatewayRequest(frame, strict);
            && (parsed.Ok? && parsed.value.Gateway? && served.reply.Some? ==>
                  ValidateGatewayResponse(served.reply.value).Ok? && served.reply.value[7] != EXCEPTION_CODE)
            && (parsed.Err? || parsed.value.NotGateway? ==>
                  served.reply.Some?
                  && (ValidateGatewayResponse(served.reply.value).Ok? <==> frame[7] in {0x2B, 0xAB}))
  {
    var parsed := ParseGatewayRequest(frame, strict);
    if parsed.Ok? && parsed.value.Gateway? {
      var r := parsed.value;
      var tid := frame[..2];
      if r.control == 1 {
        ReplyIsParsed(tid, r.unit, WRITE, r.index, r.subindex, r.count, []);
      } else {
        var stored := ReadObject(d, r.index, r.subindex, r.count);
        if stored.Ok? {
          ReplyIsParsed(tid, r.unit, READ, r.index, r.subindex, r.count, FitTo(stored.value, r.count));
        }
      }
    }
  }
}
