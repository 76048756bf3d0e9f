/** The drive's position range limit: `set_position_limits` and `get_position_limits` of
    src/dryve_d1/api/status_queries.py. */
module PositionLimits {
  import opened Prelude
  import opened Codec
  import opened DriveSpec
  import opened DriveInvariants
  import opened DriveMotion
  import opened Bus

  lemma LimitReachesDrive(d: Drive, e: Event, subindex: int, value: int)
    requires Acknowledges(e, POSITION_RANGE_LIMIT, subindex, value, 4, true)
    ensures Effect(d, e) == WriteLimit(Keep(d, POSITION_RANGE_LIMIT, subindex, e.raw), subindex, value)
  {
    PackThenUnpack(value, 4, true, Little);
    assert FitTo(e.raw, 4) == e.raw;
  }

  lemma {:induction false} TicksKeepLimits(d: Drive, steps: seq<Step>)
    requires EnvSteps(steps, true)
    ensures Run(d, steps).limits == d.limits
    decreases |steps|
  {
    if steps != [] {
      assert EnvStep(steps[0], true);
      TicksKeepLimits(Apply(d, steps[0]), steps[1..]);
    }
  }

  /** Both entries written, with the drive's own steps in between. */
  lemma TwoWrites(d: Drive, e1: Event, between: seq<Step>, e2: Event, low: int, high: int)
    requires Valid(d) && low < high && EnvSteps(between, true)
    requires Acknowledges(e1, POSITION_RANGE_LIMIT, 1, low, 4, true)
    requires Acknowledges(e2, POSITION_RANGE_LIMIT, 2, high, 4, true)
    ensures var after := Effect(Run(Effect(d, e1), between), e2);
            && after.limits == Limits(low, high) && low <= after.axis.position <= high
            && (between == [] ==> after.axis == d.axis.(position := Clamp(Limits(low, high), d.axis.position)))
  {
    var middle := Run(Effect(d, e1), between);
    LimitReachesDrive(d, e1, 1, low);
    LimitReachesDrive(middle, e2, 2, high);
    TicksKeepLimits(Effect(d, e1), between);
    WriteKeepsValid(d, POSITION_RANGE_LIMIT, 1, e1.raw, e1.at);
    RunKeepsValid(Effect(d, e1), between);
    if between == [] {
      TwoLimitWritesAreOneClamp(d, low, high);
    }
  }

  /** The same from the state before the first write's own events. */
  lemma BothWritesLand(start: Drive, before: seq<Step>, e1: Event, between: seq<Step>, e2: Event, low: int, high: int)
    requires Valid(start) && low < high && EnvSteps(before, true) && EnvSteps(between, true)
    requires Acknowledges(e1, POSITION_RANGE_LIMIT, 1, low, 4, true)
    requires Acknowledges(e2, POSITION_RANGE_LIMIT, 2, high, 4, true)
    ensures var was := Run(start, before);
            var after := Effect(Run(Effect(was, e1), between), e2);
            && after.limits == Limits(low, high) && low <= after.axis.position <= high
            && (between == [] ==> after.axis == was.axis.(position := Clamp(Limits(low, high), was.axis.position)))
  {
    RunKeepsValid(start, before);
    TwoWrites(Run(start, before), e1, between, e2, low, high);
  }

  lemma LimitIsSeen(d: Drive, subindex: int)
    requires LimitsFit(d.limits) && subindex in {1, 2}
    ensures Seen(d, POSITION_RANGE_LIMIT, subindex, 4, true)
            == Ok(if subindex == 1 then d.limits.low else d.limits.high)
  {
    Pow256Values();
    PackThenUnpack(d.limits.low, 4, true, Little);
    PackThenUnpack(d.limits.high, 4, true, Little);
    var raw := ReadObject(d, POSITION_RANGE_LIMIT, subindex, 4).value;
    assert FitTo(raw, 4) == raw;
  }

  lemma TwoWritesJoin(was: seq<Event>, middle: seq<Event>, trace: seq<Event>, before: seq<Step>, between: seq<Step>,
                      low: int, high: int)
    requires middle != [] && middle[..|middle| - 1] == was + EnvEvents(before)
    requires Acknowledges(middle[|middle| - 1], POSITION_RANGE_LIMIT, 1, low, 4, true)
    requires trace != [] && trace[..|trace| - 1] == middle + EnvEvents(between)
    requires Acknowledges(trace[|trace| - 1], POSITION_RANGE_LIMIT, 2, high, 4, true)
    ensures TwoWritesMade(was, trace, before, between, low, high)
  {
    var first := |was| + |before|;
    assert trace[..first] == trace[..|trace| - 1][..first];
    assert trace[first] == trace[..|trace| - 1][first];
    assert trace[first + 1..|trace| - 1] == trace[..|trace| - 1][first + 1..];
  }

  /** The trace grew by exactly the two acknowledged writes and what happened before and between. */
  predicate TwoWritesMade(was: seq<Event>, trace: seq<Event>, before: seq<Step>, between: seq<Step>, low: int,
                          high: int) {
    var first := |was| + |before|;
    && |trace| == first + 1 + |between| + 1
    && trace[..first] == was + EnvEvents(before)
    && Acknowledges(trace[first], POSITION_RANGE_LIMIT, 1, low, 4, true)
    && trace[first + 1..|trace| - 1] == EnvEvents(between)
    && Acknowledges(trace[|trace| - 1], POSITION_RANGE_LIMIT, 2, high, 4, true)
  }

  class StatusQueries {
    const bus: RegisterBus
    var connected: bool

    constructor (bus: RegisterBus)
      ensures this.bus == bus && !connected
    {
      this.bus, connected := bus, false;
    }

    /** Two ordered writes. On the simulator they leave exactly the new limits with the axis
        inside; with no engine turn between them, the axis stands where one clamp into the new
        limits puts it, even when the limits in between were inverted. A lower limit that no
        register holds changes nothing, but an upper one is refused only after the lower one
        has been written. */
    method SetPositionLimits(low: int, high: int)
      returns (r: Result<(), Failure>, ghost before: seq<Step>, ghost between: seq<Step>)
      requires bus.Valid()
      modifies bus`trace, bus`between, bus`params, bus.sim
      ensures bus.Valid() && old(bus.trace) <= bus.trace
      ensures !connected ==> r == Err(NotConnected) && bus.trace == old(bus.trace)
      ensures connected && low >= high ==> r == Err(ValueRefused) && bus.trace == old(bus.trace)
      ensures connected && low < high && !IsInt32(low) ==> r == Err(ValueRefused) && bus.trace == old(bus.trace)
      ensures r.Ok? ==> && connected && low < high && IsInt32(low) && IsInt32(high)
                        && bus.params == old(bus.params) + [Param(POSITION_RANGE_LIMIT, 1, low)]
                                                         + [Param(POSITION_RANGE_LIMIT, 2, high)]
                        && TwoWritesMade(old(bus.trace), bus.trace, before, between, low, high)
      ensures bus.live && connected && low < high && IsInt32(low) && IsInt32(high) && Valid(old(bus.sim.View())) ==>
                && r.Ok? && bus.sim.View().limits == Limits(low, high) && low <= bus.sim.View().axis.position <= high
                && EnvSteps(before, true) && EnvSteps(between, true)
                && (between == [] ==>
                      var was := DriveSpec.Run(old(bus.sim.View()), before);
                      bus.sim.View().axis == was.axis.(position := Clamp(Limits(low, high), was.axis.position)))
      ensures bus.live && connected && IsInt32(low) && high > INT32_MAX ==>
                && r == Err(ValueRefused) && bus.sim.View().limits == old(bus.sim.View()).limits.(low := low)
                && bus.params == old(bus.params) + [Param(POSITION_RANGE_LIMIT, 1, low)]
    {
      before, between := [], [];
      if !connected {
        return Err(NotConnected), before, between;
      }
      if low >= high {
        return Err(ValueRefused), before, between;
      }
      r, before, between := WriteBoth(low, high);
    }

    /** The two writes of limits that are in order. */
    method WriteBoth(low: int, high: int)
      returns (r: Result<(), Failure>, ghost before: seq<Step>, ghost between: seq<Step>)
      requires bus.Valid() && low < high
      modifies bus`trace, bus`between, bus`params, bus.sim
      ensures bus.Valid() && old(bus.trace) <= bus.trace
      ensures !IsInt32(low) ==> r == Err(ValueRefused) && bus.trace == old(bus.trace)
      ensures r.Ok? ==> && IsInt32(low) && IsInt32(high)
                        && bus.params == old(bus.params) + [Param(POSITION_RANGE_LIMIT, 1, low)]
                                                         + [Param(POSITION_RANGE_LIMIT, 2, high)]
                        && TwoWritesMade(old(bus.trace), bus.trace, before, between, low, high)
      ensures bus.live && IsInt32(low) && IsInt32(high) && Valid(old(bus.sim.View())) ==>
                && r.Ok? && bus.sim.View().limits == Limits(low, high) && low <= bus.sim.View().axis.position <= high
                && EnvSteps(before, true) && EnvSteps(between, true)
                && (between == [] ==>
                      var was := DriveSpec.Run(old(bus.sim.View()), before);
                      bus.sim.View().axis == was.axis.(position := Clamp(Limits(low, high), was.axis.position)))
      ensures bus.live && IsInt32(low) && high > INT32_MAX ==>
                && r == Err(ValueRefused) && bus.sim.View().limits == old(bus.sim.View()).limits.(low := low)
                && bus.params == old(bus.params) + [Param(POSITION_RANGE_LIMIT, 1, low)]
    {
      before, between := [], [];
      ghost var start := bus.sim.View();
      r := WriteEntry(1, low);
      if r.Err? {
        return;
      }
      before := bus.between;
      ghost var e1, firstTrace := bus.trace[|bus.trace| - 1], bus.trace;
      r := WriteEntry(2, high);
      between := bus.between;
      if r.Ok? {
        TwoWritesJoin(old(bus.trace), firstTrace, bus.trace, before, between, low, high);
      }
      if r.Ok? && bus.live && Valid(start) {
        BothWritesLand(start, before, e1, between, bus.trace[|bus.trace| - 1], low, high);
      }
    }

    method WriteEntry(subindex: int, value: int) returns (r: Result<(), Failure>)
      requires bus.Valid() && subindex in {1, 2}
      modifies bus`trace, bus`between, bus`params, bus.sim
      ensures bus.Valid() && old(bus.trace) <= bus.trace && EnvSteps(bus.between, true)
      ensures r.Ok? ==>
                && bus.trace != []
                && Acknowledges(bus.trace[|bus.trace| - 1], POSITION_RANGE_LIMIT, subindex, value, 4, true)
      ensures r.Ok? ==> IsInt32(value) && bus.trace[..|bus.trace| - 1] == old(bus.trace) + EnvEvents(bus.between)
      ensures bus.params
              == old(bus.params) + (if IsInt32(value) then [Param(POSITION_RANGE_LIMIT, subindex, value)] else [])
      ensures !IsInt32(value) ==>
                r == Err(ValueRefused) && bus.trace == old(bus.trace) && bus.sim.View() == old(bus.sim.View())
      ensures bus.live && IsInt32(value) ==>
                && r.Ok? && bus.sim.View() == Effect(Run(old(bus.sim.View()), bus.between), bus.trace[|bus.trace| - 1])
                && bus.sim.View().limits == StoreLimit(old(bus.sim.View()).limits, subindex, value)
    {
      Int32Fits(value);
      r := bus.Write(POSITION_RANGE_LIMIT, subindex, value, 4, true);
      Extends(old(bus.trace), bus.trace);
      SharedSteps(bus.between, bus.shared);
      if bus.live && r.Ok? {
        TicksKeepLimits(old(bus.sim.View()), bus.between);
        LimitReachesDrive(Run(old(bus.sim.View()), bus.between), bus.trace[|bus.trace| - 1], subindex, value);
      }
    }

    /** The limits in force, lower one first. */
    method GetPositionLimits() returns (r: Result<(int, int), Failure>)
      requires bus.Valid()
      modifies bus`trace, bus`between, bus.sim
      ensures bus.Valid() && old(bus.trace) <= bus.trace
      ensures !connected ==> r == Err(NotConnected) && bus.trace == old(bus.trace)
      ensures bus.live && connected && LimitsFit(old(bus.sim.View()).limits) ==>
                && r == Ok((old(bus.sim.View()).limits.low, old(bus.sim.View()).limits.high))
                && bus.sim.View().limits == old(bus.sim.View()).limits
    {
      if !connected {
        return Err(NotConnected);
      }
      var low := ReadLimit(1);
      if low.Err? {
        return Err(low.error);
      }
      var high := ReadLimit(2);
      if high.Err? {
        return Err(high.error);
      }
      return Ok((low.value, high.value));
    }

    method ReadLimit(subindex: int) returns (r: Result<int, Failure>)
      requires bus.Valid() && subindex in {1, 2}
      modifies bus`trace, bus`between, bus.sim
      ensures bus.Valid() && old(bus.trace) <= bus.trace
      ensures bus.live ==> bus.sim.View().limits == old(bus.sim.View()).limits
      ensures bus.live && LimitsFit(old(bus.sim.View()).limits) ==>
                r == Ok(if subindex == 1 then old(bus.sim.View()).limits.low else old(bus.sim.View()).limits.high)
    {
      r := bus.Read(POSITION_RANGE_LIMIT, subindex, 4, true);
      if bus.live {
        SharedSteps(bus.between, bus.shared);
        TicksKeepLimits(old(bus.sim.View()), bus.between);
        if LimitsFit(bus.sim.View().limits) {
          LimitIsSeen(bus.sim.View(), subindex);
        }
      }
    }
  }

  lemma SharedSteps(steps: seq<Step>, shared: bool)
    requires EnvSteps(steps, shared)
    ensures EnvSteps(steps, true)
  {
    forall i | 0 <= i < |steps| ensures EnvStep(steps[i], true) {
      assert EnvStep(steps[i], shared);
    }
  }

  lemma Extends(before: seq<Event>, after: seq<Event>)
    requires before == after || (after != [] && before <= after[..|after| - 1])
    ensures before <= after
  {
  }
}
