/** Register access as the drivers see it. One bus stands for two environments:
    a live bus ends at a simulated drive, whose engine turns any number of times before every
    access; a bus that is not live ends at an arbitrary drive, which answers anything, loses
    reads and writes, and makes an access raise. BusOnWire shows that on the simulator the
    whole protocol stack performs exactly the accesses below. */
module Bus {
  import opened Prelude
  import opened Bits
  import opened Codec
  import opened DriveSpec
  import opened FakeDrive
  import Controlword

  /** What can come out of a driver call instead of a result. */
  datatype Failure =
    | AccessFailed
    | NotConnected
    | ValueRefused
    | InvalidBootState
    | RemoteDisabled
    | StateTimeout
    | Unhandled
    | NegativeTarget
    | ModeNotConfirmed
    | NotAcknowledged
    | DriveFault
    | MoveTimeout
    | HomingTimeout
    | MotionAborted

  /** What happens on the bus, in order. `Env` is a step of the drive's own or of another task. */
  datatype Event =
    | Env(step: Step)
    | Wrote(index: int, subindex: int, value: int, raw: seq<Byte>, at: int)
    | WriteLost(index: int, subindex: int, value: int)
    | Got(index: int, subindex: int, value: int)
    | ReadLost(index: int, subindex: int)
    | Clock(time: int)
    | AbortPolled(requested: bool)

  function Effect(d: Drive, e: Event): Drive {
    match e
    case Env(step) => Apply(d, step)
    case Wrote(index, subindex, _, raw, at) => WriteObject(d, index, subindex, raw, at)
    case _ => d
  }

  function After(d: Drive, events: seq<Event>): Drive
    decreases |events|
  {
    if events == [] then d else Effect(After(d, events[..|events| - 1]), events[|events| - 1])
  }

  predicate IsWrite(e: Event) {
    e.Wrote? || e.WriteLost?
  }

  /** A controlword without bit 4, as another task that stops or ends a move writes it. */
  predicate WordByOther(step: Step) {
    step.Object? && step.index == CONTROLWORD && !HasBit(UnsignedOf(step.raw, 2), Controlword.NEW_SET_POINT)
  }

  /** What the environment may do between two accesses. */
  predicate EnvStep(step: Step, shared: bool) {
    step.Engine? || (shared && WordByOther(step))
  }

  predicate EnvSteps(steps: seq<Step>, shared: bool) {
    forall i :: 0 <= i < |steps| ==> EnvStep(steps[i], shared)
  }

  function EnvEvents(steps: seq<Step>): (events: seq<Event>)
    ensures |events| == |steps|
    ensures forall i :: 0 <= i < |steps| ==> events[i] == Env(steps[i])
  {
    seq(|steps|, i requires 0 <= i < |steps| => Env(steps[i]))
  }

  /** The integer a register access of this width sees. */
  function Seen(d: Drive, index: int, subindex: int, size: nat, signed: bool): Result<int, Failure>
    requires SupportedSize(size)
  {
    match ReadObject(d, index, subindex, size)
    case Err(_) => Err(AccessFailed)
    case Ok(raw) => Ok(UnpackInt(FitTo(raw, size), signed, Little).value)
  }

  /** The controlwords the driver itself wrote or tried to write. */
  function WordsOf(events: seq<Event>): seq<int>
    decreases |events|
  {
    if events == [] then []
    else
      var earlier, last := WordsOf(events[..|events| - 1]), events[|events| - 1];
      if IsWrite(last) && last.index == CONTROLWORD then earlier + [last.value] else earlier
  }

  /** A write of any other object. */
  datatype Param = Param(index: int, subindex: int, value: int)

  /** The other objects the driver itself wrote or tried to write. */
  function ParamsOf(events: seq<Event>): seq<Param>
    decreases |events|
  {
    if events == [] then []
    else
      var earlier, last := ParamsOf(events[..|events| - 1]), events[|events| - 1];
      if IsWrite(last) && last.index != CONTROLWORD
      then earlier + [Param(last.index, last.subindex, last.value)]
      else earlier
  }

  lemma AppendEvent(d: Drive, events: seq<Event>, e: Event)
    ensures After(d, events + [e]) == Effect(After(d, events), e)
    ensures WordsOf(events + [e]) == WordsOf(events) + (if IsWrite(e) && e.index == CONTROLWORD then [e.value] else [])
    ensures ParamsOf(events + [e])
         == ParamsOf(events)
            + (if IsWrite(e) && e.index != CONTROLWORD then [Param(e.index, e.subindex, e.value)] else [])
  {
    assert (events + [e])[..|events|] == events;
  }

  lemma {:induction false} WordsGrow(before: seq<Event>, after: seq<Event>)
    requires before <= after
    ensures WordsOf(before) <= WordsOf(after)
    decreases |after|
  {
    if before != after {
      WordsGrow(before, after[..|after| - 1]);
    }
  }

  /** The last thing that happened is that this controlword got lost. */
  predicate LostAtEnd(before: seq<Event>, after: seq<Event>, word: int) {
    before < after && after[|after| - 1] == WriteLost(CONTROLWORD, 0, word)
  }

  lemma LostWordIsLast(before: seq<Event>, after: seq<Event>, words: seq<int>, word: int)
    requires before <= after && WordsOf(after) == WordsOf(before) + words
    ensures LostAtEnd(before, after, word) ==> words != [] && words[|words| - 1] == word
  {
    if LostAtEnd(before, after, word) {
      var earlier := WordsOf(after[..|after| - 1]);
      WordsGrow(before, after[..|after| - 1]);
      assert WordsOf(before) + words == earlier + [word];
      assert (WordsOf(before) + words)[|earlier|] == word;
    }
  }

  /** Every look at the clock after the one at `start` shows less than `deadline`. */
  predicate Early(trace: seq<Event>, start: nat, deadline: int) {
    forall k :: start < k < |trace| && trace[k].Clock? ==> trace[k].time < deadline
  }

  /** A wait that began with the look at the clock at `start` went on only while its time lasted:
      every later look but the last shows less than `timeout` more. */
  predicate Punctual(trace: seq<Event>, start: nat, timeout: int) {
    && start < |trace| && trace[start].Clock?
    && forall k, l :: start < k < l < |trace| && trace[k].Clock? && trace[l].Clock? ==>
         trace[k].time < trace[start].time + timeout
  }

  /** From `from` on the clock is looked at nowhere but at `at`. */
  predicate OneLook(trace: seq<Event>, from: nat, at: nat) {
    forall k :: from <= k < |trace| && trace[k].Clock? ==> k == at
  }

  lemma LookStaysEarly(soFar: seq<Event>, trace: seq<Event>, start: nat, deadline: int, at: nat)
    requires soFar <= trace && start < |soFar| && Early(soFar, start, deadline) && OneLook(trace, |soFar|, at)
    requires at < |trace| && trace[at].Clock? ==> trace[at].time < deadline
    ensures Early(trace, start, deadline)
  {
    forall k | start < k < |trace| && trace[k].Clock? ensures trace[k].time < deadline {
      if k < |soFar| { assert trace[k] == soFar[k]; }
    }
  }

  lemma LookIsPunctual(soFar: seq<Event>, trace: seq<Event>, start: nat, timeout: int, at: nat)
    requires soFar <= trace && start < |soFar| && trace[start].Clock?
    requires Early(soFar, start, trace[start].time + timeout) && OneLook(trace, |soFar|, at)
    ensures Punctual(trace, start, timeout)
  {
    forall k, l | start < k < l < |trace| && trace[k].Clock? && trace[l].Clock?
      ensures trace[k].time < trace[start].time + timeout
    {
      if k < |soFar| { assert trace[k] == soFar[k]; }
    }
  }

  /** The looks at the clock from `from` on show times between these two. */
  predicate LooksWithin(trace: seq<Event>, from: nat, first: int, last: int) {
    forall k :: from <= k < |trace| && trace[k].Clock? ==> first <= trace[k].time <= last
  }

  /** Any two looks at the clock after the one at `start` are at least `interval` apart. */
  predicate Paced(trace: seq<Event>, start: nat, interval: int) {
    forall k, l :: start < k < l < |trace| && trace[k].Clock? && trace[l].Clock? ==>
      trace[l].time >= trace[k].time + interval
  }

  /** And so will be one that shows `now` or later. */
  predicate Rested(trace: seq<Event>, start: nat, interval: int, now: int) {
    && Paced(trace, start, interval)
    && forall k :: start < k < |trace| && trace[k].Clock? ==> trace[k].time + interval <= now
  }

  lemma LookIsPaced(soFar: seq<Event>, trace: seq<Event>, start: nat, interval: nat, at: nat, before: int, after: int)
    requires soFar <= trace && start < |soFar| && Rested(soFar, start, interval, before) && before <= after
    requires OneLook(trace, |soFar|, at) && LooksWithin(trace, |soFar|, before, after)
    ensures Paced(trace, start, interval)
    ensures forall now :: now >= after + interval ==> Rested(trace, start, interval, now)
  {
    forall k | start < k < |trace| && trace[k].Clock? ensures trace[k].time <= after {
      if k < |soFar| { assert trace[k] == soFar[k]; }
    }
    forall k, l | start < k < l < |trace| && trace[k].Clock? && trace[l].Clock?
      ensures trace[l].time >= trace[k].time + interval
    {
      if k < |soFar| {
        assert trace[k] == soFar[k];
        if l < |soFar| { assert trace[l] == soFar[l]; }
      }
    }
  }

  class RegisterBus {
    const sim: FakeDriveState
    /** Whether accesses reach the simulated drive. */
    const live: bool
    /** Whether another task may write controlwords without bit 4 between two accesses. */
    const shared: bool
    ghost const start: Drive

    ghost var trace: seq<Event>
    /** The environment's steps just before the last access. */
    ghost var between: seq<Step>
    /** The controlwords this driver wrote or tried to write, in order. */
    ghost var words: seq<int>
    /** The other objects it wrote or tried to write, in order. */
    ghost var params: seq<Param>
    var now: int

    ghost predicate Valid()
      reads this, sim
    {
      (live ==> sim.View() == After(start, trace)) && LogsFit()
    }

    ghost predicate LogsFit()
      reads this
    {
      words == WordsOf(trace) && params == ParamsOf(trace)
    }

    /** Accesses reach the simulated drive and no other task writes to it. */
    predicate Closed() {
      live && !shared
    }

    constructor (sim: FakeDriveState, live: bool, shared: bool, now: int)
      ensures Valid() && trace == [] && words == [] && params == []
      ensures this.sim == sim && this.live == live && this.shared == shared && this.now == now
    {
      this.sim, this.live, this.shared, this.now := sim, live, shared, now;
      start, trace, between, words, params := sim.View(), [], [], [], [];
    }

    /** Before an access: the engine turns, and other tasks write HALT if they may. */
    method Interleave()
      requires Valid()
      modifies this`trace, this`between, sim
      ensures Valid() && EnvSteps(between, shared)
      ensures trace == old(trace) + EnvEvents(between)
      ensures live ==> sim.View() == Run(old(sim.View()), between)
      ensures !live ==> between == [] && sim.View() == old(sim.View())
    {
      between := [];
      assert trace == old(trace) + EnvEvents(between);
      if live {
        var turns: nat :| true;
        for i := 0 to turns
          invariant Valid() && EnvSteps(between, shared)
          invariant trace == old(trace) + EnvEvents(between)
          invariant sim.View() == Run(old(sim.View()), between)
        {
          ghost var step := Turn();
          RunSplit(old(sim.View()), between, [step]);
          assert EnvEvents(between + [step]) == EnvEvents(between) + [Env(step)];
          between := between + [step];
        }
      }
    }

    /** One step of the environment. */
    method Turn() returns (ghost step: Step)
      requires Valid() && live
      modifies this`trace, sim
      ensures Valid() && EnvStep(step, shared)
      ensures trace == old(trace) + [Env(step)] && sim.View() == Apply(old(sim.View()), step)
    {
      var t: int :| true;
      var others: seq<Byte> := *;
      var byOther: bool := *;
      if shared && byOther && !HasBit(UnsignedOf(others, 2), Controlword.NEW_SET_POINT) {
        step := Object(CONTROLWORD, 0, others, t);
        var _ := sim.SdoWrite(CONTROLWORD, 0, others, t);
      } else {
        step := Engine(t);
        sim.EngineTurn(t);
      }
      AppendEvent(start, trace, Env(step));
      trace := trace + [Env(step)];
    }

    method Read(index: int, subindex: int, size: nat, signed: bool) returns (r: Result<int, Failure>)
      requires Valid() && SupportedSize(size)
      modifies this`trace, this`between, sim
      ensures Valid() && EnvSteps(between, shared)
      ensures trace == old(trace) + EnvEvents(between)
                       + [if r.Ok? then Got(index, subindex, r.value) else ReadLost(index, subindex)]
      ensures r.Ok? ==> InRange(r.value, size, signed)
      ensures r.Err? ==> r.error == AccessFailed
      ensures live ==>
                sim.View() == Run(old(sim.View()), between) && r == Seen(sim.View(), index, subindex, size, signed)
      ensures !live ==> between == []
    {
      Interleave();
      if live {
        var raw := sim.SdoRead(index, subindex, size);
        if raw.Err? {
          r := Err(AccessFailed);
        } else {
          UnpackThenPack(FitTo(raw.value, size), signed, Little);
          r := Ok(UnpackInt(FitTo(raw.value, size), signed, Little).value);
        }
      } else if * {
        r := Err(AccessFailed);
      } else {
        UnpackThenPack(Zeros(size), signed, Little);
        var bytes: seq<Byte> :| |bytes| == size && UnpackInt(bytes, signed, Little).Ok?;
        UnpackThenPack(bytes, signed, Little);
        r := Ok(UnpackInt(bytes, signed, Little).value);
      }
      ghost var e := if r.Ok? then Got(index, subindex, r.value) else ReadLost(index, subindex);
      AppendEvent(start, trace, e);
      trace := trace + [e];
    }

    /** The access of a write, not yet recorded. */
    method Deliver(index: int, subindex: int, value: int, size: nat, signed: bool)
      returns (r: Result<(), Failure>, ghost e: Event)
      requires Valid() && SupportedSize(size) && InRange(value, size, signed)
      modifies this`trace, this`between, sim
      ensures LogsFit() && EnvSteps(between, shared) && trace == old(trace) + EnvEvents(between)
      ensures if r.Ok? then Acknowledges(e, index, subindex, value, size, signed)
              else e == WriteLost(index, subindex, value)
      ensures r.Err? ==> r.error == AccessFailed
      ensures live ==> r.Ok? && sim.View() == Effect(Run(old(sim.View()), between), e) == Effect(After(start, trace), e)
      ensures !live ==> between == []
    {
      Interleave();
      PackThenUnpack(value, size, signed, Little);
      var raw := PackInt(value, size, signed, Little).value;
      var at: int :| true;
      e := Wrote(index, subindex, value, raw, at);
      r := Ok(());
      if live {
        var _ := sim.SdoWrite(index, subindex, raw, at);
      } else if * {
        e := WriteLost(index, subindex, value);
        r := Err(AccessFailed);
      }
    }

    /** Write any object but the controlword. */
    method Write(index: int, subindex: int, value: int, size: nat, signed: bool) returns (r: Result<(), Failure>)
      requires Valid() && SupportedSize(size) && index != CONTROLWORD
      modifies this`trace, this`between, this`params, sim
      ensures Valid() && EnvSteps(between, shared)
      ensures !InRange(value, size, signed) ==>
                r == Err(ValueRefused) && trace == old(trace) && params == old(params) && sim.View() == old(sim.View())
      ensures InRange(value, size, signed) ==>
                && |trace| == |old(trace)| + |between| + 1 && trace[..|trace| - 1] == old(trace) + EnvEvents(between)
                && (if r.Ok? then Acknowledges(trace[|trace| - 1], index, subindex, value, size, signed)
                    else trace[|trace| - 1] == WriteLost(index, subindex, value))
                && params == old(params) + [Param(index, subindex, value)]
                && (r.Err? ==> r.error == AccessFailed)
                && (live ==> r.Ok? && sim.View() == Effect(Run(old(sim.View()), between), trace[|trace| - 1]))
      ensures !live ==> between == []
    {
      if !InRange(value, size, signed) {
        between := [];
        return Err(ValueRefused);
      }
      ghost var e;
      r, e := Deliver(index, subindex, value, size, signed);
      AppendEvent(start, trace, e);
      trace := trace + [e];
      params := params + [Param(index, subindex, value)];
    }

    /** Write the controlword. */
    method WriteControlword(word: int) returns (r: Result<(), Failure>)
      requires Valid() && InRange(word, 2, false)
      modifies this`trace, this`between, this`words, sim
      ensures Valid() && EnvSteps(between, shared)
      ensures |trace| == |old(trace)| + |between| + 1 && trace[..|trace| - 1] == old(trace) + EnvEvents(between)
      ensures if r.Ok? then Acknowledges(trace[|trace| - 1], CONTROLWORD, 0, word, 2, false)
              else trace[|trace| - 1] == WriteLost(CONTROLWORD, 0, word)
      ensures words == old(words) + [word]
      ensures r.Err? ==> r.error == AccessFailed
      ensures live ==> r.Ok? && sim.View() == Effect(Run(old(sim.View()), between), trace[|trace| - 1])
      ensures !live ==> between == []
    {
      ghost var e;
      r, e := Deliver(CONTROLWORD, 0, word, 2, false);
      AppendEvent(start, trace, e);
      trace := trace + [e];
      words := words + [word];
    }

    method Monotonic() returns (t: int)
      requires Valid()
      modifies this`trace, this`now
      ensures Valid() && t == now >= old(now) && trace == old(trace) + [Clock(t)]
    {
      t :| t >= now;
      now := t;
      AppendEvent(start, trace, Clock(t));
      trace := trace + [Clock(t)];
    }

    /** Sleeping takes at least one unit of the clock. */
    method Sleep(duration: nat)
      requires Valid()
      modifies this`now
      ensures Valid() && now > old(now) && now >= old(now) + duration
    {
      var slept: nat :| slept >= 1 && slept >= duration;
      now := now + slept;
    }

    /** The abort event, which any other task may set or clear. */
    method PollAbort() returns (requested: bool)
      requires Valid()
      modifies this`trace
      ensures Valid() && trace == old(trace) + [AbortPolled(requested)]
    {
      requested := *;
      AppendEvent(start, trace, AbortPolled(requested));
      trace := trace + [AbortPolled(requested)];
    }
  }

  predicate Acknowledges(e: Event, index: int, subindex: int, value: int, size: nat, signed: bool) {
    && e.Wrote? && e.index == index && e.subindex == subindex && e.value == value
    && PackInt(value, size, signed, Little) == Ok(e.raw)
  }
}
