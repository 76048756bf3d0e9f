/** The driver's side of the wire: protocol/validator.py, protocol/gateway_telegram.py and
    protocol/sdo.py. A telegram is the whole ADU; byte numbers are those of the manual. */
module Telegram {
  import opened Prelude
  import opened Codec

  datatype ProtocolError =
    | FormatError
    | ValidationError
    | ResponseMismatch
    | ValueError
    | GatewayException(functionCode: int, exceptionCode: int)

  type Checked<+T> = Result<T, ProtocolError>

  const FUNCTION_CODE: int := 0x2B
  const EXCEPTION_CODE: int := 0xAB
  const MEI_TYPE: int := 0x0D
  const HEADER_LENGTH: nat := 19
  const READ: int := 0
  const WRITE: int := 1

  // ------------------------------------------------------------ fields of an ADU

  function Word(adu: seq<Byte>, i: nat): (w: nat)
    requires i + 1 < |adu|
    ensures w < 0x1_0000
  {
    (adu[i] as int) * 256 + adu[i + 1]
  }

  function TransactionId(adu: seq<Byte>): nat
    requires |adu| >= 7
  {
    Word(adu, 0)
  }

  function ProtocolId(adu: seq<Byte>): nat
    requires |adu| >= 7
  {
    Word(adu, 2)
  }

  function MbapLength(adu: seq<Byte>): nat
    requires |adu| >= 7
  {
    Word(adu, 4)
  }

  function UnitId(adu: seq<Byte>): Byte
    requires |adu| >= 7
  {
    adu[6]
  }

  function IndexOf(adu: seq<Byte>): nat
    requires |adu| >= HEADER_LENGTH
  {
    Word(adu, 12)
  }

  function SubindexOf(adu: seq<Byte>): Byte
    requires |adu| >= HEADER_LENGTH
  {
    adu[14]
  }

  predicate ReservedAreZero(adu: seq<Byte>)
    requires |adu| >= HEADER_LENGTH
  {
    adu[10] == 0 && adu[11] == 0 && adu[15] == 0 && adu[16] == 0 && adu[17] == 0
  }

  // ------------------------------------------------------------ validator.py

  function ValidateMbap(adu: seq<Byte>): Checked<()> {
    var _ :- Check(|adu| >= 7, FormatError);
    var _ :- Check(ProtocolId(adu) == 0, ValidationError);
    Check(|adu| == 6 + MbapLength(adu), ValidationError)
  }

  function ValidateGatewayRequest(adu: seq<Byte>, expectWrite: Option<bool>): Checked<()> {
    var _ :- ValidateMbap(adu);
    var _ :- Check(|adu| >= HEADER_LENGTH, ValidationError);
    var _ :- Check(adu[7] == FUNCTION_CODE && adu[8] == MEI_TYPE, ValidationError);
    var _ :- Check(adu[9] in {READ, WRITE}, ValidationError);
    var _ :- Check(expectWrite == None || adu[9] == (if expectWrite.value then WRITE else READ), ValidationError);
    var _ :- Check(ReservedAreZero(adu), ValidationError);
    var _ :- Check(1 <= adu[18] <= 4, ValidationError);
    if adu[9] == READ then
      Check(MbapLength(adu) == 13 && |adu| == HEADER_LENGTH, ValidationError)
    else
      Check(MbapLength(adu) == 13 + adu[18] && |adu| == HEADER_LENGTH + adu[18], ValidationError)
  }

  function ValidateGatewayResponse(adu: seq<Byte>): Checked<()> {
    var _ :- ValidateMbap(adu);
    var _ :- Check(|adu| >= 9, ValidationError);
    if adu[7] == EXCEPTION_CODE then Ok(()) else
    var _ :- Check(adu[7] == FUNCTION_CODE && adu[8] == MEI_TYPE, ValidationError);
    var _ :- Check(|adu| >= HEADER_LENGTH, ValidationError);
    var _ :- Check(adu[9] in {READ, WRITE}, ValidationError);
    var _ :- Check(ReservedAreZero(adu), ValidationError);
    var _ :- Check(adu[18] <= 4 && (adu[9] == READ ==> adu[18] >= 1), ValidationError);
    Check(|adu| == HEADER_LENGTH + adu[18], ValidationError)
  }

  // ------------------------------------------------------------ gateway_telegram.py

  function WordBytes(w: int): (bytes: seq<Byte>)
    requires 0 <= w < 0x1_0000
    ensures |bytes| == 2 && (bytes[0] as int) * 256 + bytes[1] == w
  {
    [w / 256, w % 256]
  }

  /** MBAP header, gateway header through byte 18, and the data. */
  function Frame(tid: int, unit: int, control: int, index: int, subindex: int, count: int,
                 data: seq<Byte>): (adu: seq<Byte>)
    requires 0 <= tid < 0x1_0000 && 0 <= unit < 256 && control in {READ, WRITE}
    requires 0 <= index < 0x1_0000 && 0 <= subindex < 256 && 0 <= count < 256 && |data| <= 4
    ensures |adu| == HEADER_LENGTH + |data|
  {
    WordBytes(tid) + [0, 0] + WordBytes(13 + |data|)
    + [unit, FUNCTION_CODE, MEI_TYPE, control, 0, 0] + WordBytes(index) + [subindex, 0, 0, 0, count] + data
  }

  predicate Addressable(tid: int, unit: int, index: int, subindex: int) {
    0 <= tid < 0x1_0000 && 0 <= unit < 256 && 0 <= index < 0x1_0000 && 0 <= subindex < 256
  }

  function BuildReadAdu(tid: int, unit: int, index: int, subindex: int, count: int): Checked<seq<Byte>> {
    var _ :- Check(1 <= count <= 4 && Addressable(tid, unit, index, subindex), ValueError);
    var adu := Frame(tid, unit, READ, index, subindex, count, []);
    var _ :- ValidateGatewayRequest(adu, Some(false));
    Ok(adu)
  }

  function BuildWriteAdu(tid: int, unit: int, index: int, subindex: int, data: seq<Byte>): Checked<seq<Byte>> {
    var _ :- Check(1 <= |data| <= 4 && Addressable(tid, unit, index, subindex), ValueError);
    var adu := Frame(tid, unit, WRITE, index, subindex, |data|, data);
    var _ :- ValidateGatewayRequest(adu, Some(true));
    Ok(adu)
  }

  datatype Response = Response(tid: int, unit: int, control: int, index: int, subindex: int, count: int,
                               data: seq<Byte>)

  /** What the runtime policy tolerates; strict mode tolerates nothing. */
  datatype Policy = Policy(tidMismatchOk: bool, unitWildcardOk: bool)

  const STRICT: Policy := Policy(false, false)

  function MatchRequest(r: Response, request: seq<Byte>, policy: Policy): Checked<Response>
    requires |request| >= HEADER_LENGTH
  {
    var _ :- Check(r.unit == UnitId(request) || (r.unit in {0x00, 0xFF} && policy.unitWildcardOk), ResponseMismatch);
    var _ :- Check(r.index == IndexOf(request) && r.subindex == SubindexOf(request), ResponseMismatch);
    var _ :- Check(r.tid == TransactionId(request) || policy.tidMismatchOk, ResponseMismatch);
    if request[9] == WRITE then Ok(r) else
    var _ :- Check(|r.data| == r.count, ResponseMismatch);
    var wanted := request[18];
    if r.count < wanted then
      Ok(r.(count := wanted, data := r.data + Zeros(wanted - r.count)))
    else Ok(r)
  }

  function ParseAdu(adu: seq<Byte>, request: Option<seq<Byte>>, policy: Policy): Checked<Response>
    requires request.Some? ==> |request.value| >= HEADER_LENGTH
  {
    var _ :- ValidateGatewayResponse(adu);
    if adu[7] == EXCEPTION_CODE then
      Err(GatewayException(adu[7], adu[8]))
    else
      var r := Response(TransactionId(adu), UnitId(adu), adu[9], IndexOf(adu), SubindexOf(adu), adu[18],
                        adu[HEADER_LENGTH..]);
      if request.Some? then MatchRequest(r, request.value, policy) else Ok(r)
  }

  // ------------------------------------------------------------ sdo.py

  function ParseReadResponse(adu: seq<Byte>, request: seq<Byte>, policy: Policy): Checked<seq<Byte>>
    requires |request| >= HEADER_LENGTH
  {
    var r :- ParseAdu(adu, Some(request), policy);
    var _ :- Check(r.control == READ && |r.data| == r.count, ResponseMismatch);
    Ok(r.data)
  }

  function ParseWriteResponse(adu: seq<Byte>, request: seq<Byte>, policy: Policy): Checked<()>
    requires |request| >= HEADER_LENGTH
  {
    var r :- ParseAdu(adu, Some(request), policy);
    if r.count == 0 then Check(r.data == [], ResponseMismatch)
    else Check(|r.data| == r.count, ResponseMismatch)
  }

  function FromCodec<T>(r: Result<T, CodecError>): Checked<T> {
    match r
    case Ok(value) => Ok(value)
    case Err(_) => Err(ValueError)
  }

  function DecodeReadInt(adu: seq<Byte>, request: seq<Byte>, signed: bool, policy: Policy): Checked<int>
    requires |request| >= HEADER_LENGTH
  {
    var data :- ParseReadResponse(adu, request, policy);
    FromCodec(UnpackInt(data, signed, Little))
  }

  function BuildWriteInt(tid: int, unit: int, index: int, subindex: int, value: int, size: int,
                         signed: bool): Checked<seq<Byte>> {
    var data :- FromCodec(PackInt(value, size, signed, Little));
    BuildWriteAdu(tid, unit, index, subindex, data)
  }
}
