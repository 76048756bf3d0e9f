/** What the motion helpers share: polling the bus, and writing one controlword. */
module Access {
  import opened Prelude
  import opened Codec
  import opened Bits
  import opened DriveSpec
  import opened DriveControl
  import opened Bus
  import opened Pursuit
  import Controlword

  predicate GotStatus(e: Event) {
    e.Got? && e.index == STATUSWORD
  }

  /** Polling writes nothing: only reads, clock readings, abort polls, and what happens anyway. */
  predicate Polling(e: Event) {
    !IsWrite(e) && (e.Env? ==> EnvStep(e.step, true))
  }

  predicate OnlyPolling(trace: seq<Event>, from: nat) {
    forall i :: from <= i < |trace| ==> Polling(trace[i])
  }

  lemma PollsJoin(before: seq<Event>, middle: seq<Event>, after: seq<Event>)
    requires before <= middle <= after && OnlyPolling(middle, |before|) && OnlyPolling(after, |middle|)
    ensures OnlyPolling(after, |before|)
  {
    forall i | |before| <= i < |after| ensures Polling(after[i]) {
      if i < |middle| { assert after[i] == middle[i]; }
    }
  }

  /** Only ticks and clock readings lie from `first` up to, not including, `last`. */
  predicate NothingBetween(trace: seq<Event>, first: nat, last: nat) {
    last <= |trace| && forall i :: first <= i < last ==> trace[i].Env? || trace[i].Clock?
  }

  predicate TicksBetween(trace: seq<Event>, first: nat, last: nat) {
    last <= |trace| && forall i :: first <= i < last ==> trace[i].Env?
  }

  /** A statusword was read before the event at `i`, and only ticks since. */
  predicate AfterBarrier(trace: seq<Event>, from: nat, i: nat) {
    exists b :: from <= b < i <= |trace| && GotStatus(trace[b]) && TicksBetween(trace, b + 1, i)
  }

  /** The trace went on from a read with ticks only. */
  lemma BarrierHolds(before: seq<Event>, trace: seq<Event>, from: nat, i: nat)
    requires before <= trace && from < |before| <= i <= |trace| && GotStatus(before[|before| - 1])
    requires TicksBetween(trace, |before|, i)
    ensures AfterBarrier(trace, from, i)
  {
    assert trace[|before| - 1] == before[|before| - 1];
  }

  /** Every write of a parameter arrived: only controlwords were lost, if any. */
  predicate NoParamLost(trace: seq<Event>, from: nat) {
    forall i :: from <= i < |trace| && trace[i].WriteLost? ==> trace[i].index == CONTROLWORD
  }

  predicate NothingLost(trace: seq<Event>, from: nat) {
    forall i :: from <= i < |trace| ==> !trace[i].WriteLost? && !trace[i].ReadLost?
  }

  lemma LossesJoin(before: seq<Event>, middle: seq<Event>, after: seq<Event>)
    requires before <= middle <= after && NothingLost(middle, |before|) && NothingLost(after, |middle|)
    ensures NothingLost(after, |before|)
  {
    forall i | |before| <= i < |after| ensures !after[i].WriteLost? && !after[i].ReadLost? {
      if i < |middle| { assert after[i] == middle[i]; }
    }
  }

  lemma ParamsJoin(before: seq<Event>, middle: seq<Event>, after: seq<Event>)
    requires before <= middle <= after && NoParamLost(middle, |before|) && NoParamLost(after, |middle|)
    ensures NoParamLost(after, |before|)
  {
    forall i | |before| <= i < |after| && after[i].WriteLost? ensures after[i].index == CONTROLWORD {
      if i < |middle| { assert after[i] == middle[i]; }
    }
  }

  predicate IsRead(e: Event) {
    e.Got? || e.ReadLost?
  }

  /** The last thing that happened is that an access was lost. */
  predicate LostAccess(trace: seq<Event>) {
    trace != [] && (trace[|trace| - 1].ReadLost? || trace[|trace| - 1].WriteLost?)
  }

  /** The trace grew by ticks and one read. */
  predicate OnePoll(before: seq<Event>, after: seq<Event>) {
    && before < after && OnlyPolling(after, |before|) && TicksBetween(after, |before|, |after| - 1)
    && IsRead(after[|after| - 1])
  }

  /** Nothing but ticks and reads of other objects than the statusword. */
  predicate OtherReads(trace: seq<Event>, from: nat) {
    forall i :: from <= i < |trace| ==> trace[i].Env? || (IsRead(trace[i]) && trace[i].index != STATUSWORD)
  }

  lemma OtherReadsJoin(before: seq<Event>, after: seq<Event>, from: nat)
    requires before <= after && from <= |before| && OtherReads(before, from) && OtherReads(after, |before|)
    ensures OtherReads(after, from)
  {
    forall i | from <= i < |after|
      ensures after[i].Env? || (IsRead(after[i]) && after[i].index != STATUSWORD)
    {
      if i < |before| { assert after[i] == before[i]; }
    }
  }

  /** Up to `to` nothing has ended the wait: no read was lost, no abort was seen, and every
      statusword had bits that keep it waiting. */
  predicate Undecided(trace: seq<Event>, from: nat, to: nat, keeps: int -> bool) {
    && to <= |trace|
    && forall i :: from <= i < to ==>
         && !trace[i].ReadLost? && trace[i] != AbortPolled(true)
         && (GotStatus(trace[i]) ==> keeps(trace[i].value))
  }

  lemma UndecidedJoins(before: seq<Event>, after: seq<Event>, from: nat, to: nat, keeps: int -> bool)
    requires before <= after && Undecided(before, from, |before|, keeps) && Undecided(after, |before|, to, keeps)
    ensures Undecided(after, from, to, keeps)
  {
    forall i | from <= i < to
      ensures && !after[i].ReadLost? && after[i] != AbortPolled(true)
              && (GotStatus(after[i]) ==> keeps(after[i].value))
    {
      if i < |before| { assert after[i] == before[i]; }
    }
  }

  /** A wait timed from `start` that polls without looking at the abort flag and goes on. */
  predicate PollPending(trace: seq<Event>, start: nat, deadline: int, keeps: int -> bool) {
    start < |trace| && Early(trace, start, deadline) && Undecided(trace, start, |trace|, keeps)
  }

  /** Such a wait whose last statusword was read at `j`. */
  predicate PolledUntil(trace: seq<Event>, start: nat, j: nat, timeout: int, keeps: int -> bool) {
    start < j && Punctual(trace, start, timeout) && Undecided(trace, start, j, keeps)
  }

  lemma StillPolling(soFar: seq<Event>, trace: seq<Event>, start: nat, j: nat, deadline: int, keeps: int -> bool)
    requires soFar <= trace && PollPending(soFar, start, deadline, keeps) && OneLook(trace, |soFar|, j + 1)
    requires Undecided(trace, |soFar|, |trace|, keeps)
    requires j + 1 < |trace| && trace[j + 1].Clock? && trace[j + 1].time < deadline
    ensures PollPending(trace, start, deadline, keeps)
  {
    LookStaysEarly(soFar, trace, start, deadline, j + 1);
    UndecidedJoins(soFar, trace, start, |trace|, keeps);
  }

  lemma PollIsDecided(soFar: seq<Event>, trace: seq<Event>, start: nat, j: nat, timeout: int, keeps: int -> bool)
    requires soFar <= trace && start < |soFar| && soFar[start].Clock?
    requires PollPending(soFar, start, soFar[start].time + timeout, keeps) && OneLook(trace, |soFar|, j + 1)
    requires |soFar| <= j && TicksBetween(trace, |soFar|, j)
    ensures PolledUntil(trace, start, j, timeout, keeps) && trace[start] == soFar[start]
  {
    assert trace[start] == soFar[start];
    LookIsPunctual(soFar, trace, start, timeout, j + 1);
    UndecidedJoins(soFar, trace, start, j, keeps);
  }

  /** An abort poll that saw nothing comes before the event at `i`, with no access in between. */
  predicate AfterAbortPoll(trace: seq<Event>, from: nat, i: nat) {
    exists k :: from <= k < i <= |trace| && trace[k] == AbortPolled(false) && NothingBetween(trace, k + 1, i)
  }

  /** Every statusword up to `to` was read after its own look at the abort flag. */
  predicate AbortFirst(trace: seq<Event>, from: nat, to: nat) {
    to <= |trace| && forall i :: from <= i < to && GotStatus(trace[i]) ==> AfterAbortPoll(trace, from, i)
  }

  lemma AbortPollStays(before: seq<Event>, after: seq<Event>, from: nat, later: nat, i: nat)
    requires before <= after && from <= later && AfterAbortPoll(before, later, i)
    ensures AfterAbortPoll(after, from, i)
  {
    var k :| later <= k < i <= |before| && before[k] == AbortPolled(false) && NothingBetween(before, k + 1, i);
    assert after[k] == AbortPolled(false) && NothingBetween(after, k + 1, i);
  }

  lemma AbortFirstJoins(before: seq<Event>, after: seq<Event>, from: nat, to: nat)
    requires before <= after && from <= |before| <= to
    requires AbortFirst(before, from, |before|) && AbortFirst(after, |before|, to)
    ensures AbortFirst(after, from, to)
  {
    forall i | from <= i < to && GotStatus(after[i]) ensures AfterAbortPoll(after, from, i) {
      if i < |before| {
        assert after[i] == before[i];
        AbortPollStays(before, after, from, from, i);
      } else {
        AbortPollStays(after, after, from, |before|, i);
      }
    }
  }

  /** A wait timed from `start` whose rounds began at `from` and go on. */
  predicate Waiting(trace: seq<Event>, start: nat, from: nat, deadline: int, keeps: int -> bool) {
    && start < from <= |trace| && Early(trace, start, deadline)
    && Undecided(trace, from, |trace|, keeps) && AbortFirst(trace, from, |trace|)
  }

  /** A wait timed from `start` whose rounds began at `from`, the last of them at `a`: it went on
      only while its time lasted, and no round but the last had anything to end it. */
  predicate Decided(trace: seq<Event>, start: nat, from: nat, a: nat, timeout: int, keeps: int -> bool) {
    && from <= a < |trace| && trace[a].AbortPolled? && Punctual(trace, start, timeout)
    && Undecided(trace, from, a, keeps) && AbortFirst(trace, from, a)
  }

  lemma StillWaiting(soFar: seq<Event>, trace: seq<Event>, start: nat, from: nat, deadline: int, keeps: int -> bool,
                     at: nat)
    requires soFar <= trace && Waiting(soFar, start, from, deadline, keeps)
    requires OneLook(trace, |soFar|, at) && (at < |trace| && trace[at].Clock? ==> trace[at].time < deadline)
    requires Undecided(trace, |soFar|, |trace|, keeps) && AbortFirst(trace, |soFar|, |trace|)
    ensures Waiting(trace, start, from, deadline, keeps)
  {
    LookStaysEarly(soFar, trace, start, deadline, at);
    UndecidedJoins(soFar, trace, from, |trace|, keeps);
    AbortFirstJoins(soFar, trace, from, |trace|);
  }

  lemma WaitIsDecided(soFar: seq<Event>, trace: seq<Event>, start: nat, from: nat, timeout: int, keeps: int -> bool,
                      at: nat)
    requires soFar < trace && start < |soFar| && soFar[start].Clock? && trace[|soFar|].AbortPolled?
    requires Waiting(soFar, start, from, soFar[start].time + timeout, keeps) && OneLook(trace, |soFar|, at)
    ensures Decided(trace, start, from, |soFar|, timeout, keeps) && trace[start] == soFar[start]
  {
    assert trace[start] == soFar[start];
    LookIsPunctual(soFar, trace, start, timeout, at);
    UndecidedJoins(soFar, trace, from, |soFar|, keeps);
    AbortFirstJoins(soFar, trace, from, |soFar|);
  }

  /** Write one controlword. */
  method WriteWord(bus: RegisterBus, word: int) returns (r: Result<(), Failure>)
    requires bus.Valid() && IsWord(word)
    modifies bus`trace, bus`between, bus`words, bus.sim
    ensures bus.Valid() && old(bus.trace) < bus.trace && bus.words == old(bus.words) + [word]
    ensures r.Err? ==> r.error == AccessFailed && bus.trace[|bus.trace| - 1] == WriteLost(CONTROLWORD, 0, word)
    ensures r.Ok? ==> Acknowledges(bus.trace[|bus.trace| - 1], CONTROLWORD, 0, word, 2, false)
    ensures forall i :: |old(bus.trace)| <= i < |bus.trace| - 1 ==> Polling(bus.trace[i])
    ensures TicksBetween(bus.trace, |old(bus.trace)|, |bus.trace| - 1)
    ensures bus.live ==> r.Ok?
    ensures bus.Closed() ==> EnvSteps(bus.between, false)
    ensures bus.live ==> bus.sim.View() == Effect(Run(old(bus.sim.View()), bus.between), bus.trace[|bus.trace| - 1])
  {
    hide After, WordsOf, ParamsOf;
    WordsArePackable(word);
    r := bus.WriteControlword(word);
    var before := bus.trace[..|bus.trace| - 1];
    assert old(bus.trace) <= before;
    forall i | |old(bus.trace)| <= i < |bus.trace| - 1 ensures Polling(bus.trace[i]) {
      assert bus.trace[i] == before[i] == EnvEvents(bus.between)[i - |old(bus.trace)|];
      assert EnvStep(bus.between[i - |old(bus.trace)|], bus.shared);
    }
  }

  /** Write a controlword that leaves bit 4 low. */
  method WriteQuietWord(bus: RegisterBus, word: int) returns (r: Result<(), Failure>)
    requires bus.Valid() && IsWord(word) && !HasBit(word, Controlword.NEW_SET_POINT)
    modifies bus`trace, bus`between, bus`words, bus.sim
    ensures bus.Valid() && old(bus.trace) < bus.trace && bus.words == old(bus.words) + [word]
    ensures r.Err? ==> r.error == AccessFailed && bus.trace[|bus.trace| - 1] == WriteLost(CONTROLWORD, 0, word)
    ensures r.Ok? ==> Acknowledges(bus.trace[|bus.trace| - 1], CONTROLWORD, 0, word, 2, false)
    ensures QuietFrom(bus.trace, |old(bus.trace)|)
    ensures TicksBetween(bus.trace, |old(bus.trace)|, |bus.trace| - 1)
    ensures r.Ok? ==> NothingLost(bus.trace, |old(bus.trace)|)
    ensures bus.live ==> r.Ok?
    ensures bus.Closed() ==> EnvSteps(bus.between, false)
    ensures bus.live ==> bus.sim.View() == Effect(Run(old(bus.sim.View()), bus.between), bus.trace[|bus.trace| - 1])
  {
    r := WriteWord(bus, word);
    forall i | |old(bus.trace)| <= i < |bus.trace| ensures Quiet(bus.trace[i]) {
      if i < |bus.trace| - 1 { assert Polling(bus.trace[i]); }
    }
  }

  /** Write a parameter that is neither a controlword nor a limit. */
  method WriteQuietParam(bus: RegisterBus, index: int, value: int, size: nat, signed: bool)
    returns (r: Result<(), Failure>)
    requires bus.Valid() && SupportedSize(size) && index !in {CONTROLWORD, POSITION_RANGE_LIMIT}
    modifies bus`trace, bus`between, bus`params, bus.sim
    ensures bus.Valid() && old(bus.trace) <= bus.trace && QuietFrom(bus.trace, |old(bus.trace)|)
    ensures bus.params == old(bus.params) + (if InRange(value, size, signed) then [Param(index, 0, value)] else [])
    ensures r.Ok? ==> InRange(value, size, signed)
    ensures r.Err? ==> if InRange(value, size, signed) then r.error == AccessFailed && |old(bus.trace)| < |bus.trace|
                            && bus.trace[|bus.trace| - 1] == WriteLost(index, 0, value)
                       else r.error == ValueRefused && bus.trace == old(bus.trace)
    ensures bus.live ==> (r.Ok? <==> InRange(value, size, signed)) && (r.Err? ==> r.error == ValueRefused)
    ensures r.Err? && r.error == ValueRefused ==> bus.sim.View() == old(bus.sim.View())
    ensures bus.Closed() ==> EnvSteps(bus.between, false)
    ensures r.Ok? ==> |old(bus.trace)| < |bus.trace|
                      && NothingLost(bus.trace, |old(bus.trace)|)
                      && Acknowledges(bus.trace[|bus.trace| - 1], index, 0, value, size, signed)
    ensures bus.live && r.Ok? ==>
              bus.sim.View() == Effect(Run(old(bus.sim.View()), bus.between), bus.trace[|bus.trace| - 1])
  {
    r := bus.Write(index, 0, value, size, signed);
    if InRange(value, size, signed) {
      AccessIsQuiet(old(bus.trace), bus.between, bus.shared, bus.trace[|bus.trace| - 1]);
      assert bus.trace == old(bus.trace) + EnvEvents(bus.between) + [bus.trace[|bus.trace| - 1]];
    }
  }
}
