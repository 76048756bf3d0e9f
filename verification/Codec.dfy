/** Integers in 1 to 4 bytes: src/dryve_d1/protocol/codec.py. */
module Codec {
  import opened Prelude

  datatype Endian = Little | Big

  datatype CodecError = UnsupportedSize | OutOfRange

  function Pow256(n: nat): (p: nat)
    ensures p > 0
  {
    if n == 0 then 1 else 256 * Pow256(n - 1)
  }

  predicate SupportedSize(size: int) {
    1 <= size <= 4
  }

  function RangeLow(size: nat, signed: bool): int {
    if signed then -(Pow256(size) / 2) else 0
  }

  /** The first value above the range. */
  function RangeEnd(size: nat, signed: bool): int {
    if signed then Pow256(size) / 2 else Pow256(size)
  }

  predicate InRange(value: int, size: nat, signed: bool) {
    RangeLow(size, signed) <= value < RangeEnd(size, signed)
  }

  function LittleBytes(value: nat, size: nat): (bytes: seq<Byte>)
    ensures |bytes| == size
  {
    if size == 0 then [] else [value % 256] + LittleBytes(value / 256, size - 1)
  }

  function LittleValue(bytes: seq<Byte>): (value: nat)
    ensures value < Pow256(|bytes|)
  {
    if bytes == [] then 0 else bytes[0] + 256 * LittleValue(bytes[1..])
  }

  function Reverse(bytes: seq<Byte>): (r: seq<Byte>)
    ensures |r| == |bytes|
    ensures forall i :: 0 <= i < |bytes| ==> r[i] == bytes[|bytes| - 1 - i]
  {
    seq(|bytes|, i requires 0 <= i < |bytes| => bytes[|bytes| - 1 - i])
  }

  function Order(bytes: seq<Byte>, endian: Endian): (r: seq<Byte>)
    ensures |r| == |bytes|
  {
    if endian.Little? then bytes else Reverse(bytes)
  }

  function PackInt(value: int, size: int, signed: bool, endian: Endian): Result<seq<Byte>, CodecError> {
    if !SupportedSize(size) then
      Err(UnsupportedSize)
    else if !InRange(value, size, signed) then
      Err(OutOfRange)
    else
      var unsigned := if signed && value < 0 then Pow256(size) + value else value;
      Ok(Order(LittleBytes(unsigned, size), endian))
  }

  function UnpackInt(data: seq<Byte>, signed: bool, endian: Endian): Result<int, CodecError> {
    if !SupportedSize(|data|) then
      Err(UnsupportedSize)
    else
      var unsigned := LittleValue(Order(data, endian));
      Ok(if signed && 2 * unsigned >= Pow256(|data|) then unsigned - Pow256(|data|) else unsigned)
  }

  // ---------------------------------------------------------------- proofs

  lemma {:induction false} ValueOfBytes(value: nat, size: nat)
    requires value < Pow256(size)
    ensures LittleValue(LittleBytes(value, size)) == value
  {
    if size > 0 {
      ValueOfBytes(value / 256, size - 1);
      assert LittleBytes(value, size)[1..] == LittleBytes(value / 256, size - 1);
    }
  }

  lemma {:induction false} BytesOfValue(bytes: seq<Byte>)
    ensures LittleBytes(LittleValue(bytes), |bytes|) == bytes
  {
    if bytes != [] {
      BytesOfValue(bytes[1..]);
      assert bytes == [bytes[0]] + bytes[1..];
    }
  }

  /** Byte `k` of the little-endian order is digit `k` to the base 256. */
  lemma LittleDigit(value: nat, size: nat, k: nat)
    requires k < size <= 4
    ensures LittleBytes(value, size)[k] == value / Pow256(k) % 256
  {
    Pow256Values();
    if k > 0 {
      assert LittleBytes(value, size)[k] == LittleBytes(value / 256, size - 1)[k - 1];
      LittleDigit(value / 256, size - 1, k - 1);
    }
  }

  /** The bytes on the wire: digit `k` of the value, taken modulo the width, is byte `k` from the
      front in little-endian order and from the back in big-endian order. */
  lemma BytesOnWire(value: int, size: int, signed: bool, endian: Endian, k: nat)
    requires PackInt(value, size, signed, endian).Ok? && k < size
    ensures var data := PackInt(value, size, signed, endian).value;
            && |data| == size
            && data[if endian.Little? then k else size - 1 - k]
               == value % Pow256(size) / Pow256(k) % 256
  {
    Pow256Values();
    var unsigned := if signed && value < 0 then Pow256(size) + value else value;
    LittleDigit(unsigned, size, k);
    assert unsigned == value % Pow256(size);
  }

  /** The ranges of the eight kinds of integer. */
  lemma RangeBounds(value: int)
    ensures InRange(value, 1, false) <==> 0 <= value <= 0xFF
    ensures InRange(value, 2, false) <==> 0 <= value <= 0xFFFF
    ensures InRange(value, 3, false) <==> 0 <= value <= 0xFF_FFFF
    ensures InRange(value, 4, false) <==> 0 <= value <= 0xFFFF_FFFF
    ensures InRange(value, 1, true) <==> -0x80 <= value <= 0x7F
    ensures InRange(value, 2, true) <==> -0x8000 <= value <= 0x7FFF
    ensures InRange(value, 3, true) <==> -0x80_0000 <= value <= 0x7F_FFFF
    ensures InRange(value, 4, true) <==> -0x8000_0000 <= value <= 0x7FFF_FFFF
  {
    Pow256Values();
  }

  lemma OrderTwice(bytes: seq<Byte>, endian: Endian)
    ensures Order(Order(bytes, endian), endian) == bytes
  {
  }

  lemma Pow256Values()
    ensures Pow256(1) == 0x100 && Pow256(2) == 0x1_0000 && Pow256(3) == 0x100_0000 && Pow256(4) == 0x1_0000_0000
  {
    assert Pow256(1) == 256 * Pow256(0);
    assert Pow256(2) == 256 * Pow256(1);
    assert Pow256(3) == 256 * Pow256(2);
    assert Pow256(4) == 256 * Pow256(3);
  }

  lemma ByteFits(value: int)
    ensures InRange(value, 1, false) <==> 0 <= value < 256
  {
    Pow256Values();
  }

  lemma Int32Fits(value: int)
    ensures InRange(value, 4, true) <==> IsInt32(value)
  {
    Pow256Values();
  }

  /** Packing succeeds exactly on the representable values, and unpacking inverts it. */
  lemma PackThenUnpack(value: int, size: int, signed: bool, endian: Endian)
    ensures PackInt(value, size, signed, endian).Ok? <==> SupportedSize(size) && InRange(value, size, signed)
    ensures PackInt(value, size, signed, endian).Ok? ==>
              var data := PackInt(value, size, signed, endian).value;
              |data| == size && UnpackInt(data, signed, endian) == Ok(value)
  {
    if SupportedSize(size) && InRange(value, size, signed) {
      Pow256Values();
      var unsigned := if signed && value < 0 then Pow256(size) + value else value;
      ValueOfBytes(unsigned, size);
      OrderTwice(LittleBytes(unsigned, size), endian);
    }
  }

  lemma BytesReturn(data: seq<Byte>, endian: Endian)
    ensures Order(LittleBytes(LittleValue(Order(data, endian)), |data|), endian) == data
  {
    BytesOfValue(Order(data, endian));
    OrderTwice(data, endian);
  }

  /** The signed reading of an unsigned value, and back. */
  lemma SignReturns(unsigned: nat, size: nat, signed: bool)
    requires SupportedSize(size) && unsigned < Pow256(size)
    ensures var value := if signed && 2 * unsigned >= Pow256(size) then unsigned - Pow256(size) else unsigned;
            && InRange(value, size, signed)
            && unsigned == if signed && value < 0 then Pow256(size) + value else value
  {
    Pow256Values();
  }

  /** Unpacking succeeds exactly on 1 to 4 bytes, always into range, and packing inverts it. */
  lemma UnpackThenPack(data: seq<Byte>, signed: bool, endian: Endian)
    ensures UnpackInt(data, signed, endian).Ok? <==> SupportedSize(|data|)
    ensures UnpackInt(data, signed, endian).Ok? ==>
              var value := UnpackInt(data, signed, endian).value;
              InRange(value, |data|, signed) && PackInt(value, |data|, signed, endian) == Ok(data)
  {
    if SupportedSize(|data|) {
      BytesReturn(data, endian);
      SignReturns(LittleValue(Order(data, endian)), |data|, signed);
    }
  }

  lemma {:induction false} PaddedValue(data: seq<Byte>, zeros: nat)
    ensures LittleValue(data + Zeros(zeros)) == LittleValue(data)
    decreases |data|, zeros
  {
    if data != [] {
      assert (data + Zeros(zeros))[1..] == data[1..] + Zeros(zeros);
      PaddedValue(data[1..], zeros);
    } else if zeros > 0 {
      assert ([] + Zeros(zeros))[1..] == [] + Zeros(zeros - 1);
      PaddedValue([], zeros - 1);
    }
  }

  /** A short little-endian reply padded with zero bytes decodes, signed or unsigned, to the
      unsigned value of the bytes that did arrive. */
  lemma ZeroExtension(data: seq<Byte>, zeros: nat, signed: bool)
    requires |data| >= 1 && zeros >= 1 && |data| + zeros <= 4
    ensures UnpackInt(data + Zeros(zeros), signed, Little) == Ok(LittleValue(data))
    ensures UnpackInt(data, false, Little) == Ok(LittleValue(data))
  {
    PaddedValue(data, zeros);
    Pow256Values();
  }
}
