/** Below the bus lies the wire: on the simulator, one register access is one exchange of the
    whole protocol stack. */
module BusOnWire {
  import opened Prelude
  import opened Codec
  import opened DriveSpec
  import opened Telegram
  import opened Gateway
  import opened WireProofs
  import Bus

  /** A read of the bus sees what the driver decodes, in strict mode, from the simulator's reply
      to the request it built; it fails exactly when the simulator hangs up instead. */
  lemma ReadIsAnExchange(d: Drive, strict: Strictness, tid: int, unit: int, index: int, subindex: int, size: int,
                         signed: bool, now: int)
    requires 1 <= size <= 4 && Addressable(tid, unit, index, subindex) && Accepts(strict, index, size)
    ensures var request := BuildReadAdu(tid, unit, index, subindex, size);
            request.Ok? && (
            var served, seen := Serve(d, request.value, strict, now), Bus.Seen(d, index, subindex, size, signed);
            && served.drive == d && (served.reply.Some? <==> seen.Ok?)
            && (seen.Ok? ==> DecodeReadInt(served.reply.value, request.value, signed, STRICT) == Ok(seen.value)))
  {
    ReadExchange(d, strict, tid, unit, index, subindex, size, signed, now);
    var stored := ReadObject(d, index, subindex, size);
    if stored.Ok? {
      UnpackThenPack(FitTo(stored.value, size), signed, Little);
    }
  }

  /** A write of the bus does to the drive what the simulator does on receiving the request the
      driver built, and the driver takes the reply for an acknowledge. */
  lemma WriteIsAnExchange(d: Drive, strict: Strictness, tid: int, unit: int, index: int, subindex: int, value: int,
                          size: int, signed: bool, now: int, e: Bus.Event)
    requires SupportedSize(size) && InRange(value, size, signed)
    requires Addressable(tid, unit, index, subindex) && Accepts(strict, index, size)
    requires Bus.Acknowledges(e, index, subindex, value, size, signed) && e.at == now
    ensures var request := BuildWriteInt(tid, unit, index, subindex, value, size, signed);
            request.Ok? && (
            var served := Serve(d, request.value, strict, now);
            && served.drive == Bus.Effect(d, e) && served.reply.Some?
            && ParseWriteResponse(served.reply.value, request.value, STRICT) == Ok(()))
  {
    WriteExchange(d, strict, tid, unit, index, subindex, value, size, signed, now);
  }
}
