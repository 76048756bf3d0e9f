/** The simulator's side of the wire: the request parser, the response builders and one turn of
    the connection handler of simulator.py. */
module Gateway {
  import opened Prelude
  import opened DriveSpec
  import opened Telegram

  datatype Request =
    | NotGateway(unit: Byte, func: Byte)
    | Gateway(unit: Byte, control: int, index: int, subindex: int, count: int, data: seq<Byte>)

  /** The two environment switches of the simulator. */
  datatype Strictness = Strictness(telegram: bool, objectSize: bool)

  /** Sizes of the objects the simulator knows; `None` for all others. */
  function ObjectSize(index: int): Option<nat> {
    if index in {CONTROLWORD, STATUSWORD, HOMING_STATUS} then Some(2)
    else if index in {MODES_OF_OPERATION, MODES_OF_OPERATION_DISPLAY, HOMING_METHOD} then Some(1)
    else if index in {POSITION_ACTUAL, VELOCITY_ACTUAL, TARGET_POSITION, PROFILE_VELOCITY, PROFILE_ACCELERATION,
                      PROFILE_DECELERATION, TARGET_VELOCITY, POSITION_WINDOW, POSITION_RANGE_LIMIT} then Some(4)
    else None
  }

  predicate SizeMatches(index: int, count: int) {
    ObjectSize(index).Some? ==> count == ObjectSize(index).value
  }

  /** Every parse error of the source is a ValueError. Its check that the body has at least
      13 bytes cannot fail after the first two. */
  function ParseGatewayRequest(frame: seq<Byte>, strict: Strictness): Checked<Request> {
    var _ :- Check(|frame| >= 19, ValueError);
    var length := Word(frame, 4);
    var _ :- Check(Word(frame, 2) == 0 && |frame| == 6 + length, ValueError);
    if frame[7] != 0x2B then Ok(NotGateway(frame[6], frame[7])) else
    var control, count := frame[9], frame[18];
    var _ :- Check(frame[8] == 0x0D && control in {0, 1} && 1 <= count <= 4, ValueError);
    var _ :- Check(strict.telegram ==>
                     && frame[10] == 0 && frame[11] == 0
                     && frame[15] == 0 && frame[16] == 0 && frame[17] == 0, ValueError);
    var _ :- Check(length == (if control == 0 then 13 else 13 + count), ValueError);
    var index := Word(frame, 12);
    var _ :- Check(strict.objectSize ==> SizeMatches(index, count), ValueError);
    Ok(Gateway(frame[6], control, index, frame[14], count, if control == 0 then [] else frame[19..]))
  }

  function BuildException(tid: seq<Byte>, unit: Byte, func: Byte, code: Byte): seq<Byte>
    requires |tid| == 2
  {
    tid + [0, 0, 0, 3] + [unit, if func >= 0x80 then func else func + 0x80, code]
  }

  /** The reply to a write is always the bare header with a zero count. */
  function BuildGatewayResponse(tid: seq<Byte>, unit: Byte, control: int, index: int, subindex: int, count: int,
                                data: seq<Byte>, handshake: bool): seq<Byte>
    requires |tid| == 2 && 0 <= index < 0x1_0000 && 0 <= subindex < 256 && 0 <= control < 256 && 0 <= count < 256
    requires |data| <= 4
  {
    var header := [0x2B, 0x0D, control, 0, 0, index / 256, index % 256, subindex, 0, 0, 0];
    if handshake then tid + [0, 0, 0, 13, unit] + header + [0]
    else tid + [0, 0, 0, 13 + |data|, unit] + header + [count] + data
  }

  /** What one frame does to the drive, what is sent back, and whether the connection stays. */
  datatype Served = Served(drive: Drive, reply: Option<seq<Byte>>, open: bool)

  /** Framing of the byte stream: the length field counts 2 to 260 bytes after itself. */
  predicate Framed(frame: seq<Byte>) {
    |frame| >= 8 && 2 <= Word(frame, 4) <= 260 && |frame| == 6 + Word(frame, 4)
  }

  function Serve(d: Drive, frame: seq<Byte>, strict: Strictness, now: int): Served {
    if !Framed(frame) then Served(d, None, false)
    else
      var tid := frame[..2];
      match ParseGatewayRequest(frame, strict)
      case Err(_) => Served(d, Some(BuildException(tid, frame[6], frame[7], 0x03)), false)
      case Ok(NotGateway(unit, func)) => Served(d, Some(BuildException(tid, unit, func, 0x01)), true)
      case Ok(Gateway(unit, control, index, subindex, count, data)) =>
        if control == 0 then
          match ReadObject(d, index, subindex, count)
          case Err(_) => Served(d, None, false)
          case Ok(raw) =>
            var reply := BuildGatewayResponse(tid, unit, control, index, subindex, count, FitTo(raw, count), false);
            Served(d, Some(reply), true)
        else
          var reply := BuildGatewayResponse(tid, unit, control, index, subindex, count, [], true);
          Served(WriteObject(d, index, subindex, data, now), Some(reply), true)
  }
}
