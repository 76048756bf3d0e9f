/** Bits of a 16-bit word: src/dryve_d1/cia402/bits.py and the helpers of od/controlword.py.
    A bit is named by its mask (a power of two), as `word & mask` names it in the source. */
module Bits {
  predicate HasBit(word: int, mask: nat)
    requires mask > 0
  {
    (word / mask) % 2 == 1
  }

  function SetBit(word: int, mask: nat): int
    requires mask > 0
  {
    if HasBit(word, mask) then word else word + mask
  }

  function ClearBit(word: int, mask: nat): int
    requires mask > 0
  {
    if HasBit(word, mask) then word - mask else word
  }

  predicate IsWord(word: int) {
    0 <= word < 0x1_0000
  }
}

/** CiA 402 controlword (0x6040): src/dryve_d1/od/controlword.py. */
module Controlword {
  import opened Bits

  const QUICK_STOP_BIT: nat := 0x0004
  const NEW_SET_POINT: nat := 0x0010
  const CHANGE_SET_IMMEDIATELY: nat := 0x0020
  const ABS_REL: nat := 0x0040
  const FAULT_RESET_BIT: nat := 0x0080
  const HALT: nat := 0x0100

  const SHUTDOWN: int := 0x0006
  const SWITCH_ON: int := 0x0007
  const ENABLE_OPERATION: int := 0x000F
  const FAULT_RESET: int := 0x0080

  function QuickStop(base: int): int {
    ClearBit(base, QUICK_STOP_BIT)
  }

  /** The rising edge on bit 4 and the word that takes it back. */
  function PulseNewSetPoint(base: int): (int, int) {
    var setWord := SetBit(base, NEW_SET_POINT);
    (setWord, ClearBit(setWord, NEW_SET_POINT))
  }

  /** Hold bits, bit 5 when the set-point takes effect at once, bit 6 when it is relative. */
  function PositionBase(relative: bool, immediate: bool): int {
    var held := if immediate then SetBit(ENABLE_OPERATION, CHANGE_SET_IMMEDIATELY)
                else ClearBit(ENABLE_OPERATION, CHANGE_SET_IMMEDIATELY);
    if relative then SetBit(held, ABS_REL) else ClearBit(held, ABS_REL)
  }

  function HaltWord(): int {
    SetBit(ENABLE_OPERATION, HALT)
  }

  function SafeHaltWord(): int {
    SetBit(SHUTDOWN, HALT)
  }

  /** The only word of a pulse that can start motion is its first: the second is the first
      without bit 4, and neither asks for halt or fault reset. */
  lemma PulseOfPositionBase(relative: bool, immediate: bool)
    ensures var (setWord, clearWord) := PulseNewSetPoint(PositionBase(relative, immediate));
            && HasBit(setWord, NEW_SET_POINT) && !HasBit(clearWord, NEW_SET_POINT)
            && setWord == clearWord + NEW_SET_POINT
            && IsWord(setWord) && setWord % 16 == 15 && clearWord % 16 == 15
            && !HasBit(setWord, HALT) && !HasBit(setWord, FAULT_RESET_BIT)
            && !HasBit(clearWord, HALT) && !HasBit(clearWord, FAULT_RESET_BIT)
            && HasBit(setWord, ABS_REL) == relative
            && setWord == 0x1F + (if immediate then 0x20 else 0) + (if relative then 0x40 else 0)
  {
  }
}

/** CiA 402 statusword (0x6041): src/dryve_d1/od/statusword.py. */
module Statusword {
  import opened Bits

  const READY_TO_SWITCH_ON: nat := 0x0001
  const SWITCHED_ON: nat := 0x0002
  const OPERATION_ENABLED: nat := 0x0004
  const FAULT: nat := 0x0008
  const QUICK_STOP: nat := 0x0020
  const SWITCH_ON_DISABLED: nat := 0x0040
  const WARNING: nat := 0x0080
  const REMOTE: nat := 0x0200
  const TARGET_REACHED: nat := 0x0400
  const OP_MODE_SPECIFIC: nat := 0x1000
  const BIT_13: nat := 0x2000

  datatype CiA402State =
    | NotReadyToSwitchOn
    | SwitchOnDisabled
    | ReadyToSwitchOn
    | SwitchedOn
    | OperationEnabled
    | QuickStopActive
    | FaultReactionActive
    | Fault
    | Unknown

  /** The order of the tests matters: a fault hides every other pattern. */
  function InferState(sw: int): CiA402State {
    var b0, b1, b2 := HasBit(sw, READY_TO_SWITCH_ON), HasBit(sw, SWITCHED_ON), HasBit(sw, OPERATION_ENABLED);
    var b5, b6 := HasBit(sw, QUICK_STOP), HasBit(sw, SWITCH_ON_DISABLED);
    if HasBit(sw, FAULT) then
      if b0 && b1 && b2 then FaultReactionActive else Fault
    else if !b0 && !b1 && !b2 then
      if b6 then SwitchOnDisabled else NotReadyToSwitchOn
    else if b0 && !b1 && !b2 && !b6 then ReadyToSwitchOn
    else if b0 && b1 && !b2 && !b6 then SwitchedOn
    else if b0 && b1 && b2 && !b6 then
      if b5 then OperationEnabled else QuickStopActive
    else Unknown
  }

  /** No fault, and bits 0, 1, 2 and 6 as given. */
  predicate Pattern(sw: int, bit0: bool, bit1: bool, bit2: bool, bit6: bool) {
    && !HasBit(sw, 0x0008) && HasBit(sw, 0x0001) == bit0 && HasBit(sw, 0x0002) == bit1
    && HasBit(sw, 0x0004) == bit2 && HasBit(sw, 0x0040) == bit6
  }

  /** Bits 0, 1 and 2 set, bits 3 and 6 clear, and bit 5 set. */
  predicate ShowsEnabled(sw: int) {
    Pattern(sw, true, true, true, false) && HasBit(sw, 0x0020)
  }

  /** The same with bit 5 clear. */
  predicate ShowsQuickStop(sw: int) {
    Pattern(sw, true, true, true, false) && !HasBit(sw, 0x0020)
  }

  /** Each of the nine states by the bits of the word alone. */
  lemma StatesByBits(sw: int)
    ensures InferState(sw) == NotReadyToSwitchOn <==> Pattern(sw, false, false, false, false)
    ensures InferState(sw) == SwitchOnDisabled <==> Pattern(sw, false, false, false, true)
    ensures InferState(sw) == ReadyToSwitchOn <==> Pattern(sw, true, false, false, false)
    ensures InferState(sw) == SwitchedOn <==> Pattern(sw, true, true, false, false)
    ensures InferState(sw) == OperationEnabled <==> ShowsEnabled(sw)
    ensures InferState(sw) == QuickStopActive <==> ShowsQuickStop(sw)
    ensures InferState(sw) == FaultReactionActive <==>
              HasBit(sw, 0x0008) && HasBit(sw, 0x0001) && HasBit(sw, 0x0002) && HasBit(sw, 0x0004)
    ensures InferState(sw) == Fault <==>
              HasBit(sw, 0x0008) && !(HasBit(sw, 0x0001) && HasBit(sw, 0x0002) && HasBit(sw, 0x0004))
    ensures InferState(sw) == Unknown <==>
              && !HasBit(sw, 0x0008)
              && (|| (HasBit(sw, 0x0002) && !HasBit(sw, 0x0001))
                  || (HasBit(sw, 0x0004) && !(HasBit(sw, 0x0001) && HasBit(sw, 0x0002)))
                  || (HasBit(sw, 0x0040) && (HasBit(sw, 0x0001) || HasBit(sw, 0x0002) || HasBit(sw, 0x0004))))
    ensures InferState(0x0217) == QuickStopActive && InferState(0x0237) == OperationEnabled
  {
  }
}
