/** Profile-position moves with the closed-loop start handshake:
    src/dryve_d1/motion/profile_position.py. */
module ProfilePosition {
  import opened Prelude
  import opened Codec
  import opened Bits
  import opened DriveSpec
  import opened DriveMotion
  import opened Access
  import opened Bus
  import opened Chase
  import opened Preparation
  import opened Pursuit
  import Controlword
  import Statusword

  /** Where the last round of the completion wait began, and where it read the statusword and then,
      if at all, the position. */
  datatype Sight = Sight(round: nat, reached: nat, position: nat)

  /** Where in the trace the decisive events of a move are: the rising edge, the last statusword of
      the acknowledge wait, the trace at the end of this wait and its answer, and the release. */
  datatype Witness =
    Witness(edge: nat, ack: nat, waited: seq<Event>, answer: Result<(), Failure>, release: nat, sight: Sight)

  const NOTHING: Witness := Witness(0, 0, [], Ok(()), 0, Sight(0, 0, 0))

  datatype Config = Config(
    profile: Profile,
    pollInterval: nat,
    moveTimeout: int,
    cycleDelay: nat,
    ackTimeout: int,
    reachedWindow: int,
    verifyMode: bool,
    modeSetTimeout: int,
    modeSettle: nat
  )

  /** The evidence of completion: bit 10, and the position in the window read after it. */
  predicate Evidence(trace: seq<Event>, from: nat, target: Option<int>, window: int, w: Sight) {
    && from <= w.reached < |trace| && GotStatus(trace[w.reached])
    && HasBit(trace[w.reached].value, Statusword.TARGET_REACHED)
    && (target.Some? && window > 0 ==>
          && w.reached < w.position < |trace| && NothingBetween(trace, w.reached + 1, w.position)
          && trace[w.position].Got? && trace[w.position].index == POSITION_ACTUAL
          && Abs(trace[w.position].value - target.value) <= window)
  }

  /** The confirming position is the one the simulated drive had when it was read. */
  predicate PositionIsReal(start: Drive, trace: seq<Event>, target: Option<int>, window: int, w: Sight) {
    target.Some? && window > 0 ==>
      && w.position < |trace| && trace[w.position].Got?
      && Seen(After(start, trace[..w.position]), POSITION_ACTUAL, 0, 4, true) == Ok(trace[w.position].value)
  }

  // ------------------------------------------------------------ how the acknowledge wait ends

  predicate AwaitsAck(sw: int) {
    Unanswered(sw) && !HasBit(sw, 0x0008)
  }

  /** By the statusword at `j`: an answer, a fault without one, or neither at a time at or after
      the deadline; or else by a read that was lost. */
  predicate AckEnds(trace: seq<Event>, j: nat, deadline: int, r: Result<(), Failure>) {
    && j < |trace|
    && match r
       case Ok(_) => j == |trace| - 1 && GotStatus(trace[j]) && !Unanswered(trace[j].value)
       case Err(DriveFault) =>
         j == |trace| - 1 && GotStatus(trace[j]) && Unanswered(trace[j].value) && HasBit(trace[j].value, 0x0008)
       case Err(NotAcknowledged) =>
         && GotStatus(trace[j]) && AwaitsAck(trace[j].value)
         && j + 1 < |trace| && trace[j + 1].Clock? && trace[j + 1].time >= deadline
       case Err(AccessFailed) => trace[|trace| - 1].ReadLost?
       case _ => false
  }

  /** The whole acknowledge wait, which began at `start`, whose last statusword was read at `j`,
      and which the trace ends with. */
  predicate AckResult(trace: seq<Event>, start: nat, j: nat, timeout: int, r: Result<(), Failure>) {
    PolledUntil(trace, start, j, timeout, AwaitsAck) && AckEnds(trace, j, trace[start].time + timeout, r)
  }

  // ------------------------------------------------------------ how the completion wait ends

  /** The statusword at `j` does not complete the move: bit 10 is clear, or the position read at
      `p`, right after it, is outside the window. */
  predicate MissesAt(trace: seq<Event>, j: nat, p: nat, target: Option<int>, window: int) {
    && j < |trace| && GotStatus(trace[j])
    && (HasBit(trace[j].value, 0x0400) ==>
          && target.Some? && window > 0 && j < p < |trace| && TicksBetween(trace, j + 1, p)
          && trace[p].Got? && trace[p].index == 0x6064 && Abs(trace[p].value - target.value) > window)
  }

  ghost predicate Misses(trace: seq<Event>, j: nat, target: Option<int>, window: int) {
    exists p: nat :: MissesAt(trace, j, p, target, window)
  }

  /** The statusword at `j` was read after an abort poll that saw nothing and a look at the clock. */
  predicate Looked(trace: seq<Event>, start: nat, j: nat) {
    exists k :: start <= k < j - 1 && j <= |trace| && trace[k] == AbortPolled(false) && trace[k + 1].Clock?
                && TicksBetween(trace, k + 2, j)
  }

  /** Nothing from `from` up to `to` has ended the wait. */
  ghost predicate Pending(trace: seq<Event>, from: nat, to: nat, target: Option<int>, window: int) {
    && to <= |trace|
    && forall i :: from <= i < to ==>
         && !trace[i].ReadLost? && trace[i] != AbortPolled(true)
         && (GotStatus(trace[i]) ==>
               Looked(trace, from, i) && Misses(trace, i, target, window) && !HasBit(trace[i].value, 0x0008))
  }

  /** The last round, from the abort poll at `a`: the abort, a completion, a fault, or a miss after
      a look at the clock at or after the deadline; or else a read that was lost. */
  predicate RoundEnds(trace: seq<Event>, a: nat, w: Sight, target: Option<int>, window: int, deadline: int,
                      r: Result<(), Failure>) {
    && a < |trace| && trace[a].AbortPolled?
    && if trace[a].requested then a == |trace| - 1 && r == Err(MotionAborted)
       else
         && a + 1 < w.reached < |trace| && trace[a + 1].Clock? && TicksBetween(trace, a + 2, w.reached)
         && match r
            case Ok(_) => Evidence(trace, a, target, window, w)
            case Err(DriveFault) =>
              MissesAt(trace, w.reached, w.position, target, window) && HasBit(trace[w.reached].value, 0x0008)
            case Err(MoveTimeout) =>
              && MissesAt(trace, w.reached, w.position, target, window) && !HasBit(trace[w.reached].value, 0x0008)
              && trace[a + 1].time >= deadline
            case Err(AccessFailed) => trace[|trace| - 1].ReadLost?
            case _ => false
  }

  /** The whole completion wait, which began at `start` and which the trace ends with. */
  ghost predicate WaitResult(trace: seq<Event>, start: nat, w: Sight, target: Option<int>, window: int, timeout: int,
                       r: Result<(), Failure>) {
    && start < w.round && Punctual(trace, start, timeout) && Pending(trace, start, w.round, target, window)
    && RoundEnds(trace, w.round, w, target, window, trace[start].time + timeout, r)
  }

  /** The round begun at `a` looks at the clock once and reads the statusword once, at `j`. */
  predicate Looks(trace: seq<Event>, a: nat, j: nat) {
    && a + 1 < j < |trace| && OneLook(trace, a, a + 1) && Looked(trace, a, j)
    && TicksBetween(trace, a + 2, j) && IsRead(trace[j]) && OtherReads(trace, j + 1)
  }

  lemma RoundLooks(begun: seq<Event>, trace: seq<Event>, j: nat)
    requires |begun| >= 2 && begun[|begun| - 2] == AbortPolled(false) && begun[|begun| - 1].Clock?
    requires begun <= trace && |begun| <= j < |trace|
    requires TicksBetween(trace, |begun|, j) && IsRead(trace[j]) && OtherReads(trace, j + 1)
    ensures Looks(trace, |begun| - 2, j) && trace[|begun| - 2] == AbortPolled(false)
    ensures trace[|begun| - 1] == begun[|begun| - 1]
  {
    assert trace[|begun| - 2] == begun[|begun| - 2] && trace[|begun| - 1] == begun[|begun| - 1];
  }

  lemma RoundIsOver(trace: seq<Event>, w: Sight, target: Option<int>, window: int, deadline: int,
                    r: Result<(), Failure>)
    requires Looks(trace, w.round, w.reached) && trace[w.round] == AbortPolled(false) && trace[w.round + 1].Clock?
    requires r.Ok? ==> Evidence(trace, w.round, target, window, w)
    requires r.Err? ==>
               || (r.error == AccessFailed && trace[|trace| - 1].ReadLost?)
               || (&& MissesAt(trace, w.reached, w.position, target, window)
                   && if HasBit(trace[w.reached].value, 0x0008) then r.error == DriveFault
                      else r.error == MoveTimeout && trace[w.round + 1].time >= deadline)
    ensures RoundEnds(trace, w.round, w, target, window, deadline, r)
  {
  }

  /** A miss at or after the deadline, and the reads for the message. */
  lemma RoundIsLate(begun: seq<Event>, missed: seq<Event>, trace: seq<Event>, w: Sight, target: Option<int>,
                    window: int, deadline: int, error: Failure)
    requires |begun| >= 2 && begun <= missed <= trace && w.round == |begun| - 2
    requires begun[|begun| - 2] == AbortPolled(false) && begun[|begun| - 1].Clock?
    requires begun[|begun| - 1].time >= deadline
    requires |begun| <= w.reached && Looks(missed, w.round, w.reached) && OtherReads(trace, |missed|)
    requires MissesAt(missed, w.reached, w.position, target, window) && !HasBit(missed[w.reached].value, 0x0008)
    requires error == MoveTimeout || (error == AccessFailed && trace[|trace| - 1].ReadLost?)
    ensures Looks(trace, w.round, w.reached)
    ensures RoundEnds(trace, w.round, w, target, window, deadline, Err(error))
  {
    OtherReadsJoin(missed, trace, w.reached + 1);
    assert trace[w.reached] == missed[w.reached] && TicksBetween(trace, |begun|, w.reached);
    RoundLooks(begun, trace, w.reached);
    assert MissesAt(trace, w.reached, w.position, target, window);
    RoundIsOver(trace, w, target, window, deadline, Err(error));
  }

  /** A round that misses is over without a verdict. */
  lemma RoundMisses(begun: seq<Event>, trace: seq<Event>, w: Sight, target: Option<int>, window: int)
    requires |begun| >= 2 && Looks(trace, |begun| - 2, w.reached) && trace[|begun| - 2] == AbortPolled(false)
    requires MissesAt(trace, w.reached, w.position, target, window) && !HasBit(trace[w.reached].value, 0x0008)
    requires forall i :: w.reached < i < |trace| ==> !trace[i].ReadLost?
    requires trace[|begun| - 1].Clock?
    ensures Pending(trace, |begun| - 2, |trace|, target, window)
  {
    assert Misses(trace, w.reached, target, window);
  }

  lemma MissStays(before: seq<Event>, after: seq<Event>, j: nat, target: Option<int>, window: int)
    requires before <= after && Misses(before, j, target, window)
    ensures Misses(after, j, target, window)
  {
    var p: nat :| MissesAt(before, j, p, target, window);
    assert MissesAt(after, j, p, target, window);
  }

  lemma LookStays(before: seq<Event>, after: seq<Event>, from: nat, start: nat, j: nat)
    requires before <= after && from <= start && Looked(before, start, j)
    ensures Looked(after, from, j)
  {
    var k :| start <= k < j - 1 && j <= |before| && before[k] == AbortPolled(false) && before[k + 1].Clock?
             && TicksBetween(before, k + 2, j);
    assert after[k] == AbortPolled(false) && after[k + 1].Clock? && TicksBetween(after, k + 2, j);
  }

  lemma PendingJoins(before: seq<Event>, after: seq<Event>, from: nat, target: Option<int>, window: int)
    requires before <= after && from <= |before| && Pending(before, from, |before|, target, window)
    requires Pending(after, |before|, |after|, target, window)
    ensures Pending(after, from, |after|, target, window)
  {
    forall i | from <= i < |after|
      ensures && !after[i].ReadLost? && after[i] != AbortPolled(true)
              && (GotStatus(after[i]) ==>
                    Looked(after, from, i) && Misses(after, i, target, window) && !HasBit(after[i].value, 0x0008))
    {
      if i < |before| {
        assert after[i] == before[i];
        if GotStatus(before[i]) {
          LookStays(before, after, from, from, i);
          MissStays(before, after, i, target, window);
        }
      } else if GotStatus(after[i]) {
        LookStays(after, after, from, |before|, i);
      }
    }
  }

  lemma PendingStays(before: seq<Event>, after: seq<Event>, from: nat, target: Option<int>, window: int)
    requires before <= after && from <= |before| && Pending(before, from, |before|, target, window)
    ensures Pending(after, from, |before|, target, window)
  {
    forall i | from <= i < |before|
      ensures && !after[i].ReadLost? && after[i] != AbortPolled(true)
              && (GotStatus(after[i]) ==>
                    Looked(after, from, i) && Misses(after, i, target, window) && !HasBit(after[i].value, 0x0008))
    {
      assert after[i] == before[i];
      if GotStatus(before[i]) {
        LookStays(before, after, from, from, i);
        MissStays(before, after, i, target, window);
      }
    }
  }

  ghost predicate MovePending(trace: seq<Event>, start: nat, deadline: int, target: Option<int>, window: int) {
    start < |trace| && Early(trace, start, deadline) && Pending(trace, start, |trace|, target, window)
  }

  lemma MoveBegins(trace: seq<Event>, start: nat, deadline: int, target: Option<int>, window: int, interval: nat,
                   now: int)
    requires start == |trace| - 1 && trace[start].Clock?
    ensures MovePending(trace, start, deadline, target, window) && Rested(trace, start, interval, now)
  {
    assert Pending(trace, start, |trace|, target, window);
  }

  lemma MoveIsPending(soFar: seq<Event>, trace: seq<Event>, start: nat, deadline: int, target: Option<int>, window: int)
    requires soFar <= trace && MovePending(soFar, start, deadline, target, window)
    requires OneLook(trace, |soFar|, |soFar| + 1) && Pending(trace, |soFar|, |trace|, target, window)
    requires |soFar| + 1 < |trace| && trace[|soFar| + 1].Clock? && trace[|soFar| + 1].time < deadline
    ensures MovePending(trace, start, deadline, target, window)
  {
    LookStaysEarly(soFar, trace, start, deadline, |soFar| + 1);
    PendingJoins(soFar, trace, start, target, window);
  }

  lemma MoveIsDecided(soFar: seq<Event>, trace: seq<Event>, start: nat, w: Sight, target: Option<int>, window: int,
                      timeout: int, r: Result<(), Failure>)
    requires soFar <= trace && start < |soFar| == w.round && soFar[start].Clock?
    requires MovePending(soFar, start, soFar[start].time + timeout, target, window)
    requires OneLook(trace, |soFar|, |soFar| + 1)
    requires RoundEnds(trace, |soFar|, w, target, window, soFar[start].time + timeout, r)
    ensures WaitResult(trace, start, w, target, window, timeout, r)
    ensures r.Ok? ==> Evidence(trace, start, target, window, w)
  {
    assert trace[start] == soFar[start];
    LookIsPunctual(soFar, trace, start, timeout, |soFar| + 1);
    PendingStays(soFar, trace, start, target, window);
  }

  class ProfilePosition {
    const bus: RegisterBus
    var cfg: Config
    var drivePositionWindow: Option<int>

    constructor (bus: RegisterBus, cfg: Config)
      ensures this.bus == bus && this.cfg == cfg && drivePositionWindow == None
    {
      this.bus, this.cfg, drivePositionWindow := bus, cfg, None;
    }

    method SetDrivePositionWindow(window: Option<int>)
      modifies this`drivePositionWindow
      ensures drivePositionWindow == if window.Some? && window.value > 0 then window else None
    {
      var w := if window.Some? then window.value else 0;
      drivePositionWindow := if w > 0 then Some(w) else None;
    }

    /** Never tighter than the configuration nor than the drive's own window. */
    function ReachedWindow(): (w: int)
      reads this`cfg, this`drivePositionWindow
      ensures w >= cfg.reachedWindow
      ensures drivePositionWindow.Some? && drivePositionWindow.value != 0 ==> w >= drivePositionWindow.value
      ensures w == cfg.reachedWindow || (drivePositionWindow.Some? && w == drivePositionWindow.value)
    {
      if drivePositionWindow.Some? && drivePositionWindow.value != 0
      then Max(cfg.reachedWindow, drivePositionWindow.value) else cfg.reachedWindow
    }

    /** The two reads that go into the message of a timeout; they can fail themselves. */
    method Diagnose(ghost target: int) returns (r: Result<(), Failure>)
      requires bus.Valid()
      modifies bus`trace, bus`between, bus.sim
      ensures bus.Valid() && old(bus.trace) < bus.trace && OnlyPolling(bus.trace, |old(bus.trace)|)
      ensures OtherReads(bus.trace, |old(bus.trace)|)
      ensures r.Err? ==> r.error == AccessFailed && bus.trace[|bus.trace| - 1].ReadLost?
      ensures bus.Closed() && Pursuing(old(bus.sim.View()), target) ==> r.Ok? && Pursuing(bus.sim.View(), target)
    {
      var commanded := Poll(bus, TARGET_POSITION, 4, true, target);
      if bus.Closed() && Pursuing(old(bus.sim.View()), target) {
        PursuitReports(bus.sim.View(), target);
      }
      if commanded.Err? {
        return Err(commanded.error);
      }
      var _ :- PollPosition(bus, target);
      return Ok(());
    }

    /** One round of the acknowledge wait: a verdict, or none yet. */
    method AckRound(deadline: int, ghost target: int) returns (verdict: Option<Result<(), Failure>>, ghost ack: nat)
      requires bus.Valid()
      modifies bus`trace, bus`between, bus`now, bus.sim
      ensures bus.Valid() && old(bus.trace) < bus.trace && OnlyPolling(bus.trace, |old(bus.trace)|)
      ensures bus.now >= old(bus.now) && (verdict.None? ==> bus.now < deadline)
      ensures LooksWithin(bus.trace, |old(bus.trace)|, old(bus.now), bus.now)
      ensures |old(bus.trace)| <= ack < |bus.trace| && TicksBetween(bus.trace, |old(bus.trace)|, ack)
      ensures OneLook(bus.trace, |old(bus.trace)|, ack + 1)
      ensures verdict.Some? ==> AckEnds(bus.trace, ack, deadline, verdict.value)
      ensures verdict.None? ==>
                && Undecided(bus.trace, |old(bus.trace)|, |bus.trace|, AwaitsAck)
                && ack + 1 < |bus.trace| && bus.trace[ack + 1].Clock? && bus.trace[ack + 1].time < deadline
      ensures bus.Closed() && Pursuing(old(bus.sim.View()), target) && Acknowledged(old(bus.sim.View())) ==>
                verdict.Some? && verdict.value.Ok? && Pursuing(bus.sim.View(), target)
    {
      var sw := PollStatus(bus, target);
      ack := |bus.trace| - 1;
      if sw.Err? {
        return Some(Err(sw.error)), ack;
      }
      if IsAck(sw.value) {
        return Some(Ok(())), ack;
      }
      if HasBit(sw.value, Statusword.FAULT) {
        return Some(Err(DriveFault)), ack;
      }
      var t := bus.Monotonic();
      if t >= deadline {
        var diagnosed := Diagnose(target);
        return Some(Err(if diagnosed.Err? then diagnosed.error else NotAcknowledged)), ack;
      }
      return None, ack;
    }

    /** Wait, with bit 4 held, until bit 12 is set or bit 10 is clear. On the simulator the
        very first poll succeeds. */
    method WaitSetpointAck(timeout: int, ghost target: int) returns (r: Result<(), Failure>, ghost ack: nat)
      requires bus.Valid()
      modifies bus`trace, bus`between, bus`now, bus.sim
      ensures bus.Valid() && old(bus.trace) < bus.trace && OnlyPolling(bus.trace, |old(bus.trace)|)
      ensures bus.now >= old(bus.now)
      ensures AckResult(bus.trace, |old(bus.trace)|, ack, timeout, r)
      ensures Paced(bus.trace, |old(bus.trace)|, cfg.pollInterval)
      ensures bus.Closed() && Pursuing(old(bus.sim.View()), target) && Acknowledged(old(bus.sim.View())) ==>
                && r.Ok? && Pursuing(bus.sim.View(), target)
                && NothingBetween(bus.trace, |old(bus.trace)|, ack)
    {
      hide After, WordsOf, ParamsOf;
      ghost var acknowledged := bus.Closed() && Pursuing(bus.sim.View(), target) && Acknowledged(bus.sim.View());
      var started := bus.Monotonic();
      var deadline := started + timeout;
      while true
        invariant bus.Valid() && old(bus.trace) < bus.trace && OnlyPolling(bus.trace, |old(bus.trace)|)
        invariant bus.now >= old(bus.now)
        invariant bus.trace[|old(bus.trace)|] == Clock(started)
        invariant PollPending(bus.trace, |old(bus.trace)|, deadline, AwaitsAck)
        invariant acknowledged ==>
                    bus.trace == old(bus.trace) + [Clock(started)] && bus.sim.View() == old(bus.sim.View())
        invariant Rested(bus.trace, |old(bus.trace)|, cfg.pollInterval, bus.now)
        decreases deadline - bus.now
      {
        ghost var soFar, was := bus.trace, bus.now;
        var verdict;
        verdict, ack := AckRound(deadline, target);
        LookIsPaced(soFar, bus.trace, |old(bus.trace)|, cfg.pollInterval, ack + 1, was, bus.now);
        PollsJoin(old(bus.trace), soFar, bus.trace);
        if verdict.Some? {
          PollIsDecided(soFar, bus.trace, |old(bus.trace)|, ack, timeout, AwaitsAck);
          return verdict.value, ack;
        }
        StillPolling(soFar, bus.trace, |old(bus.trace)|, ack, deadline, AwaitsAck);
        bus.Sleep(cfg.pollInterval);
      }
    }

    /** The abort flag has priority; the round's time is taken before its reads. */
    method BeginRound() returns (aborted: bool, loopTime: int)
      requires bus.Valid()
      modifies bus`trace, bus`now
      ensures bus.Valid() && old(bus.trace) < bus.trace && OnlyPolling(bus.trace, |old(bus.trace)|)
      ensures bus.trace == old(bus.trace) + [AbortPolled(aborted)] + (if aborted then [] else [Clock(loopTime)])
      ensures bus.now >= old(bus.now) && (!aborted ==> bus.now == loopTime)
    {
      loopTime := 0;
      aborted := bus.PollAbort();
      if !aborted {
        loopTime := bus.Monotonic();
      }
    }

    /** One round of the completion check: bit 10, then the position if it counts. */
    method CheckReached(target: Option<int>, window: int, ghost goal: int, ghost round: nat)
      returns (r: Result<(bool, int), Failure>, ghost w: Sight)
      requires bus.Valid() && (target.Some? ==> goal == target.value)
      modifies bus`trace, bus`between, bus.sim
      ensures bus.Valid() && old(bus.trace) < bus.trace && OnlyPolling(bus.trace, |old(bus.trace)|)
      ensures r.Ok? && r.value.0 ==> Evidence(bus.trace, |old(bus.trace)|, target, window, w)
      ensures r.Ok? && r.value.0 && bus.live ==> PositionIsReal(bus.start, bus.trace, target, window, w)
      ensures w.round == round
      ensures |old(bus.trace)| <= w.reached < |bus.trace| && TicksBetween(bus.trace, |old(bus.trace)|, w.reached)
      ensures IsRead(bus.trace[w.reached]) && OtherReads(bus.trace, w.reached + 1)
      ensures r.Ok? ==> bus.trace[w.reached] == Got(STATUSWORD, 0, r.value.1)
      ensures r.Ok? && !r.value.0 ==>
                && MissesAt(bus.trace, w.reached, w.position, target, window)
                && forall i :: w.reached < i < |bus.trace| ==> !bus.trace[i].ReadLost?
      ensures r.Err? ==> r.error == AccessFailed && bus.trace[|bus.trace| - 1].ReadLost?
      ensures bus.Closed() && Pursuing(old(bus.sim.View()), goal) ==>
                && Pursuing(bus.sim.View(), goal) && r.Ok? && !HasBit(r.value.1, Statusword.FAULT)
                && (r.value.0 ==> bus.sim.View().axis.position == goal)
    {
      w := Sight(round, 0, 0);
      var polled := PollStatus(bus, goal);
      w := w.(reached := |bus.trace| - 1);
      var sw :- polled;
      if !HasBit(sw, Statusword.TARGET_REACHED) {
        return Ok((false, sw)), w;
      }
      if target.None? || window <= 0 {
        return Ok((true, sw)), w;
      }
      var read := PollPosition(bus, goal);
      w := w.(position := |bus.trace| - 1);
      var actual :- read;
      return Ok((Abs(actual - target.value) <= window, sw)), w;
    }

    /** The reads for the message of a timeout, two of which can fail themselves. */
    method Expire(ghost target: int) returns (error: Failure)
      requires bus.Valid()
      modifies bus`trace, bus`between, bus.sim
      ensures bus.Valid() && old(bus.trace) < bus.trace && OnlyPolling(bus.trace, |old(bus.trace)|)
      ensures OtherReads(bus.trace, |old(bus.trace)|)
      ensures error == MoveTimeout || (error == AccessFailed && bus.trace[|bus.trace| - 1].ReadLost?)
      ensures bus.Closed() && Pursuing(old(bus.sim.View()), target) ==>
                Pursuing(bus.sim.View(), target) && error == MoveTimeout
    {
      var diagnosed := Diagnose(target);
      if diagnosed.Err? {
        return diagnosed.error;
      }
      ghost var middle := bus.trace;
      var _ := Poll(bus, MODES_OF_OPERATION_DISPLAY, 1, true, target);
      PollsJoin(old(bus.trace), middle, bus.trace);
      OtherReadsJoin(middle, bus.trace, |old(bus.trace)|);
      return MoveTimeout;
    }

    /** The part of a round after the abort poll and the look at the clock. */
    method ComparedRound(loopTime: int, target: Option<int>, window: int, deadline: int, ghost goal: int)
      returns (verdict: Option<Result<(), Failure>>, ghost w: Sight)
      requires bus.Valid() && (target.Some? ==> goal == target.value) && |bus.trace| >= 2
      requires bus.trace[|bus.trace| - 2] == AbortPolled(false) && bus.trace[|bus.trace| - 1] == Clock(loopTime)
      modifies bus`trace, bus`between, bus.sim
      ensures bus.Valid() && old(bus.trace) < bus.trace && OnlyPolling(bus.trace, |old(bus.trace)|)
      ensures verdict.None? ==> loopTime < deadline
      ensures w.round == |old(bus.trace)| - 2 && Looks(bus.trace, w.round, w.reached)
      ensures verdict.Some? ==> RoundEnds(bus.trace, |old(bus.trace)| - 2, w, target, window, deadline, verdict.value)
      ensures verdict.None? ==> Pending(bus.trace, |old(bus.trace)| - 2, |bus.trace|, target, window)
      ensures verdict.Some? && verdict.value.Ok? && bus.live ==> PositionIsReal(bus.start, bus.trace, target, window, w)
      ensures bus.Closed() && Pursuing(old(bus.sim.View()), goal) ==>
                && Pursuing(bus.sim.View(), goal)
                && (verdict.Some? && verdict.value.Ok? ==> bus.sim.View().axis.position == goal)
                && (verdict.Some? && verdict.value.Err? ==> verdict.value.error == MoveTimeout)
    {
      hide After, WordsOf, ParamsOf;
      var checked;
      checked, w := CheckReached(target, window, goal, |old(bus.trace)| - 2);
      RoundLooks(old(bus.trace), bus.trace, w.reached);
      if checked.Err? || checked.value.0 || HasBit(checked.value.1, Statusword.FAULT) {
        verdict := Some(if checked.Err? then Err(checked.error) else if checked.value.0 then Ok(())
                        else Err(DriveFault));
        RoundIsOver(bus.trace, w, target, window, deadline, verdict.value);
        return;
      }
      ghost var missed := bus.trace;
      RoundMisses(old(bus.trace), missed, w, target, window);
      verdict := None;
      if loopTime >= deadline {
        var error := Expire(goal);
        PollsJoin(old(bus.trace), missed, bus.trace);
        RoundIsLate(old(bus.trace), missed, bus.trace, w, target, window, deadline, error);
        verdict := Some(Err(error));
      }
    }

    /** One round of the completion wait: a verdict, or none yet. */
    method ReachedRound(target: Option<int>, window: int, deadline: int, ghost goal: int)
      returns (verdict: Option<Result<(), Failure>>, ghost w: Sight)
      requires bus.Valid() && (target.Some? ==> goal == target.value)
      modifies bus`trace, bus`between, bus`now, bus.sim
      ensures bus.Valid() && old(bus.trace) < bus.trace && OnlyPolling(bus.trace, |old(bus.trace)|)
      ensures bus.now >= old(bus.now) && (verdict.None? ==> bus.now < deadline)
      ensures LooksWithin(bus.trace, |old(bus.trace)|, old(bus.now), bus.now)
      ensures w.round == |old(bus.trace)| && OneLook(bus.trace, |old(bus.trace)|, |old(bus.trace)| + 1)
      ensures verdict.Some? ==> RoundEnds(bus.trace, |old(bus.trace)|, w, target, window, deadline, verdict.value)
      ensures verdict.Some? && verdict.value.Err? ==>
                verdict.value.error in {AccessFailed, DriveFault, MoveTimeout, MotionAborted}
      ensures verdict.None? ==>
                && Pending(bus.trace, |old(bus.trace)|, |bus.trace|, target, window)
                && |bus.trace| > |old(bus.trace)| + 1 && bus.trace[|old(bus.trace)| + 1].Clock?
                && bus.trace[|old(bus.trace)| + 1].time < deadline
      ensures verdict.Some? && verdict.value.Ok? && bus.live ==> PositionIsReal(bus.start, bus.trace, target, window, w)
      ensures bus.Closed() && Pursuing(old(bus.sim.View()), goal) ==>
                && Pursuing(bus.sim.View(), goal)
                && (verdict.Some? && verdict.value.Ok? ==> bus.sim.View().axis.position == goal)
                && (verdict.Some? && verdict.value.Err? ==> verdict.value.error in {MoveTimeout, MotionAborted})
    {
      var aborted, loopTime := BeginRound();
      if aborted {
        return Some(Err(MotionAborted)), Sight(|old(bus.trace)|, 0, 0);
      }
      ghost var begun := bus.trace;
      verdict, w := ComparedRound(loopTime, target, window, deadline, goal);
      PollsJoin(old(bus.trace), begun, bus.trace);
      assert bus.trace[|old(bus.trace)| + 1] == begun[|old(bus.trace)| + 1];
    }

    /** Wait until bit 10 is set and, when there is a target and a window, the actual position
        confirms it. */
    method WaitTargetReached(target: Option<int>, timeout: int) returns (r: Result<(), Failure>, ghost w: Sight)
      requires bus.Valid()
      modifies bus`trace, bus`between, bus`now, bus.sim
      ensures bus.Valid() && old(bus.trace) < bus.trace && OnlyPolling(bus.trace, |old(bus.trace)|)
      ensures bus.now >= old(bus.now)
      ensures r.Ok? ==> Evidence(bus.trace, |old(bus.trace)|, target, ReachedWindow(), w)
      ensures r.Ok? && bus.live ==> PositionIsReal(bus.start, bus.trace, target, ReachedWindow(), w)
      ensures WaitResult(bus.trace, |old(bus.trace)|, w, target, ReachedWindow(), timeout, r)
      ensures Paced(bus.trace, |old(bus.trace)|, cfg.pollInterval)
      ensures r.Err? ==> r.error in {AccessFailed, DriveFault, MoveTimeout, MotionAborted}
      ensures bus.Closed() && target.Some? && Pursuing(old(bus.sim.View()), target.value) ==>
                && Pursuing(bus.sim.View(), target.value)
                && (r.Ok? ==> bus.sim.View().axis.position == target.value)
                && (r.Err? ==> r.error in {MoveTimeout, MotionAborted})
    {
      hide After, WordsOf, ParamsOf, RoundEnds, Evidence, PositionIsReal, MovePending, Rested, Paced;
      ghost var goal := if target.Some? then target.value else 0;
      ghost var chasing := bus.Closed() && target.Some? && Pursuing(bus.sim.View(), goal);
      var started := bus.Monotonic();
      var deadline := started + timeout;
      var window := ReachedWindow();
      MoveBegins(bus.trace, |old(bus.trace)|, deadline, target, window, cfg.pollInterval, bus.now);
      while true
        invariant bus.Valid() && old(bus.trace) < bus.trace && OnlyPolling(bus.trace, |old(bus.trace)|)
        invariant bus.now >= old(bus.now)
        invariant bus.trace[|old(bus.trace)|] == Clock(started)
        invariant MovePending(bus.trace, |old(bus.trace)|, deadline, target, window)
        invariant chasing ==> Pursuing(bus.sim.View(), goal)
        invariant Rested(bus.trace, |old(bus.trace)|, cfg.pollInterval, bus.now)
        decreases deadline - bus.now
      {
        ghost var soFar, was := bus.trace, bus.now;
        var verdict;
        verdict, w := ReachedRound(target, window, deadline, goal);
        LookIsPaced(soFar, bus.trace, |old(bus.trace)|, cfg.pollInterval, |soFar| + 1, was, bus.now);
        PollsJoin(old(bus.trace), soFar, bus.trace);
        if verdict.Some? {
          MoveIsDecided(soFar, bus.trace, |old(bus.trace)|, w, target, window, timeout, verdict.value);
          return verdict.value, w;
        }
        MoveIsPending(soFar, bus.trace, |old(bus.trace)|, deadline, target, window);
        bus.Sleep(cfg.pollInterval);
      }
    }

    // ---------------------------------------------------------- preparing a move

    /** Write the mode, then look for it in 0x6061. Unless verification is on, a mode that is
        not confirmed, or cannot be read, is left to the handshake. */
    method EnsureMode(ghost target: int) returns (r: Result<(), Failure>, ghost shown: Option<Result<bool, Failure>>)
      requires bus.Valid()
      modifies bus`trace, bus`between, bus`params, bus`now, bus.sim
      ensures bus.Valid() && old(bus.trace) <= bus.trace
      ensures r.Ok? ==> NoParamLost(bus.trace, |old(bus.trace)|)
      ensures bus.params == old(bus.params) + [Param(0x6060, 0, 1)]
      ensures r.Ok? ==> bus.now >= old(bus.now) + Max(10_000, cfg.modeSettle)
      ensures ModeEnsured(|old(bus.trace)|, bus.trace, 1, cfg.modeSetTimeout, shown,
                          true, cfg.verifyMode, r)
      ensures bus.Closed() && Poised(old(bus.sim.View()), target) ==>
                r.Ok? && Poised(bus.sim.View(), target) && bus.sim.View().mode == MODE_PROFILE_POSITION
    {
      ByteFits(MODE_PROFILE_POSITION);
      var written := WriteParameter(bus, MODES_OF_OPERATION, 0, MODE_PROFILE_POSITION, 1, false, target);
      if written.Err? {
        return written, None;
      }
      ghost var from, chosen := |bus.trace|, bus.trace;
      bus.Sleep(Max(10_000, cfg.modeSettle));
      ghost var ready, steps := bus.sim.View(), [];
      var seen;
      seen, steps := AwaitMode(bus, MODE_PROFILE_POSITION, cfg.modeSetTimeout, cfg.pollInterval);
      if bus.Closed() && Poised(old(bus.sim.View()), target) {
        TicksKeepPoised(ready, steps, target);
      }
      ModeWaitOnlyReads(bus.trace, from, MODE_PROFILE_POSITION, cfg.modeSetTimeout, seen);
      ParamsJoin(old(bus.trace), chosen, bus.trace);
      shown := Some(seen);
      assert Acknowledges(bus.trace[from - 1], 0x6060, 0, MODE_PROFILE_POSITION, 1, false);
      assert ModeChecked(|old(bus.trace)|, bus.trace, MODE_PROFILE_POSITION, cfg.modeSetTimeout, seen);
      if !cfg.verifyMode {
        return Ok(()), shown;
      }
      if seen.Err? {
        return Err(seen.error), shown;
      }
      return if seen.value then Ok(()) else Err(ModeNotConfirmed), shown;
    }

    /** Arguments go before the configuration. */
    method Configure(arguments: Profile, ghost target: int) returns (r: Result<(), Failure>)
      requires bus.Valid()
      modifies bus`trace, bus`between, bus`params, bus.sim
      ensures bus.Valid() && old(bus.trace) <= bus.trace
      ensures r.Ok? ==> NoParamLost(bus.trace, |old(bus.trace)|)
      ensures r.Ok? ==> && bus.params == old(bus.params) + arguments.Over(cfg.profile).Writes()
                        && arguments.Over(cfg.profile).AllFit()
      ensures r.Err? ==> WriteFails(bus.trace, arguments.Over(cfg.profile).AllFit(), r.error)
      ensures bus.Closed() && Poised(old(bus.sim.View()), target) ==>
                && Poised(bus.sim.View(), target) && bus.sim.View().mode == old(bus.sim.View()).mode
                && (r.Ok? <==> arguments.Over(cfg.profile).AllFit()) && (r.Err? ==> r.error == ValueRefused)
    {
      r := WriteProfile(bus, arguments.Over(cfg.profile), target);
    }

    /** Mode, parameters, target and the barrier cycle: everything before the rising edge. */
    method Prepare(target: int) returns (r: Result<(), Failure>)
      requires bus.Valid()
      modifies bus`trace, bus`between, bus`params, bus`now, bus.sim
      ensures bus.Valid() && old(bus.trace) <= bus.trace
      ensures r.Ok? ==> && NoParamLost(bus.trace, |old(bus.trace)|)
                        && bus.now >= old(bus.now) + Max(10_000, cfg.modeSettle) + cfg.cycleDelay
      ensures r.Ok? ==> && bus.params == old(bus.params) + MoveWrites(cfg.profile, target)
                        && cfg.profile.AllFit() && IsInt32(target)
                        && |old(bus.trace)| < |bus.trace| && GotStatus(bus.trace[|bus.trace| - 1])
      ensures r.Err? ==> PreparationFails(|old(bus.trace)|, bus.trace, cfg.profile.AllFit() && IsInt32(target),
                                          cfg.verifyMode, 1, cfg.modeSetTimeout, r.error)
      ensures bus.Closed() && Poised(old(bus.sim.View()), target) ==>
                && (r.Ok? ==> Poised(bus.sim.View(), target) && bus.sim.View().mode == MODE_PROFILE_POSITION
                              && bus.sim.View().regs.targetPosition == target)
                && (r.Ok? <==> cfg.profile.AllFit()) && (r.Err? ==> r.error == ValueRefused)
    {
      hide After, WordsOf, ParamsOf;
      ghost var shown;
      r, shown := EnsureMode(target);
      if r.Err? {
        return;
      }
      NoArguments(cfg.profile);
      ghost var chosen := bus.trace;
      var _ :- Configure(DEFAULT_PROFILE, target);
      ghost var configured := bus.trace;
      r := WriteTarget(bus, target, cfg.cycleDelay);
      if r.Ok? {
        ParamsJoin(old(bus.trace), chosen, configured);
        ParamsJoin(old(bus.trace), configured, bus.trace);
      }
    }

    // ---------------------------------------------------------- the handshake

    /** Raise bit 4, wait for the acknowledge, and release bit 4 whatever the wait's outcome.
        The one exit that leaves bit 4 raised is the set word's own write raising. */
    method Handshake(setWord: int, clearWord: int, ghost target: int)
      returns (r: Result<(), Failure>, ghost w: Witness, ghost words: seq<int>)
      requires bus.Valid() && IsWord(setWord) && Holds(setWord) && HasBit(setWord, Controlword.NEW_SET_POINT)
      requires IsWord(clearWord) && Holds(clearWord) && !HasBit(clearWord, Controlword.NEW_SET_POINT)
      modifies bus`trace, bus`between, bus`words, bus`now, bus.sim
      ensures bus.Valid() && old(bus.trace) < bus.trace && bus.words == old(bus.words) + words
      ensures NoParamLost(bus.trace, |old(bus.trace)|) && bus.now >= old(bus.now)
      ensures words == [setWord] || words == [setWord, clearWord]
      ensures words == [setWord] ==>
                r == Err(AccessFailed) && bus.trace[|bus.trace| - 1] == WriteLost(CONTROLWORD, 0, setWord)
      ensures words == [setWord, clearWord] ==>
                && EdgeThenTrail(bus.trace, |old(bus.trace)|, setWord, clearWord, w.edge)
                && Released(bus.trace, clearWord, cfg.ackTimeout, w) && w.release == |bus.trace| - 1
                && TicksBetween(bus.trace, |old(bus.trace)|, w.edge)
                && r == if bus.trace[w.release].WriteLost? then Err(AccessFailed) else w.answer
      ensures r.Ok? ==> words == [setWord, clearWord] && ShookHands(bus.trace, clearWord, w)
      ensures r.Err? ==> r.error in {AccessFailed, DriveFault, NotAcknowledged}
      ensures bus.Closed() && !HasBit(setWord, Controlword.ABS_REL) && Poised(old(bus.sim.View()), target)
              && old(bus.sim.View()).mode == MODE_PROFILE_POSITION
              && old(bus.sim.View()).regs.targetPosition == target ==>
                r.Ok? && Pursuing(bus.sim.View(), target) && NothingBetween(bus.trace, w.edge + 1, w.ack)
    {
      hide After, WordsOf, ParamsOf;
      w, words := NOTHING, [setWord];
      r := RaiseSetPoint(bus, setWord, target);
      if r.Err? {
        return;
      }
      ghost var edge := |bus.trace| - 1;
      ghost var ack;
      r, ack := WaitSetpointAck(cfg.ackTimeout, target);
      ghost var waited := bus.trace;
      words := [setWord, clearWord];
      var released := ReleaseSetPoint(bus, clearWord, target);
      w := NOTHING.(edge := edge, ack := ack, waited := waited, answer := r, release := |bus.trace| - 1);
      ReleaseFollows(waited, bus.trace, |old(bus.trace)|, setWord, clearWord, cfg.ackTimeout, w, released);
      TrailLosesNoParam(bus.trace, |old(bus.trace)|, setWord, clearWord, edge);
      if released.Err? {
        r := Err(released.error);
      }
    }

    method StartAndFinish(setWord: int, clearWord: int, target: int, timeout: int)
      returns (r: Result<(), Failure>, ghost w: Witness, ghost words: seq<int>)
      requires bus.Valid() && IsWord(setWord) && Holds(setWord) && HasBit(setWord, Controlword.NEW_SET_POINT)
      requires IsWord(clearWord) && Holds(clearWord) && !HasBit(clearWord, Controlword.NEW_SET_POINT)
      modifies bus`trace, bus`between, bus`words, bus`now, bus.sim
      ensures bus.Valid() && old(bus.trace) < bus.trace && bus.words == old(bus.words) + words
      ensures NoParamLost(bus.trace, |old(bus.trace)|) && bus.now >= old(bus.now)
      ensures words == [setWord] || words == [setWord, clearWord]
      ensures MoveResult(bus.trace, r, w, |old(bus.trace)|, words, setWord, clearWord, target,
                         Waits(cfg.ackTimeout, timeout, ReachedWindow()))
      ensures r.Ok? && bus.live ==> PositionIsReal(bus.start, bus.trace, Some(target), ReachedWindow(), w.sight)
      ensures words == [setWord, clearWord] ==>
                |old(bus.trace)| <= w.edge < |bus.trace| && TicksBetween(bus.trace, |old(bus.trace)|, w.edge)
      ensures words == [setWord] <==> LostAtEnd(old(bus.trace), bus.trace, setWord)
      ensures r.Err? ==> r.error in {AccessFailed, DriveFault, NotAcknowledged, MoveTimeout, MotionAborted}
      ensures bus.Closed() && !HasBit(setWord, Controlword.ABS_REL) && Poised(old(bus.sim.View()), target)
              && old(bus.sim.View()).mode == MODE_PROFILE_POSITION
              && old(bus.sim.View()).regs.targetPosition == target ==>
                && (r.Ok? ==> bus.sim.View().axis.position == target && Pursuing(bus.sim.View(), target))
                && NothingBetween(bus.trace, w.edge + 1, w.ack)
                && (r.Err? ==> r.error in {MoveTimeout, MotionAborted})
    {
      hide After, WordsOf, ParamsOf, MoveResult, WaitResult, Evidence, PositionIsReal;
      var started;
      started, w, words := Handshake(setWord, clearWord, target);
      ghost var waits := Waits(cfg.ackTimeout, timeout, ReachedWindow());
      LostWordIsLast(old(bus.trace), bus.trace, words, setWord);
      if started.Err? {
        HandshakeEnds(bus.trace, started, w, |old(bus.trace)|, words, setWord, clearWord, target, waits);
        return Err(started.error), w, words;
      }
      ghost var done, released := w.sight, bus.trace;
      r, done := WaitTargetReached(Some(target), timeout);
      w := w.(sight := done);
      MoveEnds(released, bus.trace, r, w, |old(bus.trace)|, setWord, clearWord, target, waits);
      ParamsJoin(old(bus.trace), released, bus.trace);
      LostWordIsLast(old(bus.trace), bus.trace, words, setWord);
    }

    /** An absolute or relative move. Against any drive: a normal return means that an
        acknowledge was read between the set word and the clear word, and that after the clear
        word bit 10 was read and, the window being positive, then a position within the window
        of the commanded number; on every exit the clear word follows the set word unless the
        write of the set word itself raised.
        On the simulator, alone, poised for an absolute move: a normal return means the axis
        stands exactly on the target, the acknowledge came with the first poll, and the only
        ways to fail are the overall timeout, an abort, and parameters that do not fit. */
    method MoveTo(target: int, relative: bool, immediate: bool, timeout: Option<int>)
      returns (r: Result<(), Failure>, ghost w: Witness, ghost words: seq<int>)
      requires bus.Valid()
      modifies bus`trace, bus`between, bus`words, bus`params, bus`now, bus.sim
      ensures bus.Valid() && old(bus.trace) <= bus.trace && bus.words == old(bus.words) + words
      ensures var (setWord, clearWord) := Controlword.PulseNewSetPoint(Controlword.PositionBase(relative, immediate));
              && (words == [] || words == [setWord] || words == [setWord, clearWord])
              && MoveResult(bus.trace, r, w, |old(bus.trace)|, words, setWord, clearWord, target,
                            Waits(cfg.ackTimeout, if timeout.Some? then timeout.value else cfg.moveTimeout,
                                  ReachedWindow()))
      ensures r.Ok? && bus.live ==> PositionIsReal(bus.start, bus.trace, Some(target), ReachedWindow(), w.sight)
      ensures var (setWord, clearWord) := Controlword.PulseNewSetPoint(Controlword.PositionBase(relative, immediate));
              words == [setWord] <==> LostAtEnd(old(bus.trace), bus.trace, setWord)
      ensures |words| == 2 ==> AfterBarrier(bus.trace, |old(bus.trace)|, w.edge)
      ensures words != [] ==> && bus.params == old(bus.params) + MoveWrites(cfg.profile, target)
                              && NoParamLost(bus.trace, |old(bus.trace)|)
                              && bus.now >= old(bus.now) + Max(10_000, cfg.modeSettle) + cfg.cycleDelay
      ensures words == [] ==> && r.Err?
                              && (r.error == NegativeTarget
                                  || PreparationFails(|old(bus.trace)|, bus.trace,
                                                      cfg.profile.AllFit() && IsInt32(target),
                                                      cfg.verifyMode, 1, cfg.modeSetTimeout, r.error))
      ensures r == Err(NegativeTarget) <==> !relative && target < 0
      ensures bus.Closed() && !relative && Poised(old(bus.sim.View()), target) ==>
                && (r.Ok? ==> bus.sim.View().axis.position == target && Pursuing(bus.sim.View(), target))
                && (words != [] ==> NothingBetween(bus.trace, w.edge + 1, w.ack))
                && (r.Err? ==> r.error in {NegativeTarget, ValueRefused, MoveTimeout, MotionAborted})
                && (r == Err(ValueRefused) <==> target >= 0 && !cfg.profile.AllFit())
    {
      hide After, WordsOf, ParamsOf, Evidence, Released, EndsAs, EdgeThenTrail, PositionIsReal, MoveWrites;
      w, words := NOTHING, [];
      if !relative && target < 0 {
        return Err(NegativeTarget), w, words;
      }
      var prepared := Prepare(target);
      var setWord, clearWord := StartWords(relative, immediate);
      LostWordIsLast(old(bus.trace), bus.trace, [], setWord);
      if prepared.Err? {
        return Err(prepared.error), w, words;
      }
      var budget := if timeout.Some? then timeout.value else cfg.moveTimeout;
      ghost var ready := bus.trace;
      r, w, words := StartAndFinish(setWord, clearWord, target, budget);
      MoveFrom(bus.trace, r, w, |old(bus.trace)|, |ready|, words, setWord, clearWord, target,
               Waits(cfg.ackTimeout, budget, ReachedWindow()));
      ParamsJoin(old(bus.trace), ready, bus.trace);
      if words == [setWord, clearWord] {
        BarrierHolds(ready, bus.trace, |old(bus.trace)|, w.edge);
      }
    }

    /** An absolute, immediate move with its own profile parameters, which replace the configured
        ones for its duration only: everything `MoveTo` promises, with these parameters. */
    method MoveToPosition(target: int, velocity: int, accel: int, decel: int, timeout: Option<int>)
      returns (r: Result<(), Failure>, ghost w: Witness, ghost words: seq<int>)
      requires bus.Valid()
      modifies this`cfg, bus`trace, bus`between, bus`words, bus`params, bus`now, bus.sim
      ensures bus.Valid() && cfg == old(cfg)
      ensures old(bus.trace) <= bus.trace && bus.words == old(bus.words) + words
      ensures words == [] || words == [0x3F] || words == [0x3F, 0x2F]
      ensures MoveResult(bus.trace, r, w, |old(bus.trace)|, words, 0x3F, 0x2F, target,
                         Waits(cfg.ackTimeout, if timeout.Some? then timeout.value else cfg.moveTimeout,
                               ReachedWindow()))
      ensures r.Ok? && bus.live ==> PositionIsReal(bus.start, bus.trace, Some(target), ReachedWindow(), w.sight)
      ensures words == [0x3F] <==> LostAtEnd(old(bus.trace), bus.trace, 0x3F)
      ensures |words| == 2 ==> AfterBarrier(bus.trace, |old(bus.trace)|, w.edge)
      ensures words == [] ==>
                && r.Err?
                && (r.error == NegativeTarget
                    || PreparationFails(|old(bus.trace)|, bus.trace,
                                        Profile(Some(velocity), Some(accel), Some(decel)).AllFit() && IsInt32(target),
                                        cfg.verifyMode, 1, cfg.modeSetTimeout, r.error))
      ensures words != [] ==>
                && bus.params == old(bus.params) + MoveWrites(Profile(Some(velocity), Some(accel), Some(decel)), target)
                && NoParamLost(bus.trace, |old(bus.trace)|)
                && bus.now >= old(bus.now) + Max(10_000, cfg.modeSettle) + cfg.cycleDelay
      ensures r == Err(NegativeTarget) <==> target < 0
      ensures bus.Closed() && Poised(old(bus.sim.View()), target) ==>
                && (r.Ok? ==> bus.sim.View().axis.position == target && Pursuing(bus.sim.View(), target))
                && (words != [] ==> NothingBetween(bus.trace, w.edge + 1, w.ack))
                && (r.Err? ==> r.error in {NegativeTarget, ValueRefused, MoveTimeout, MotionAborted})
                && (r == Err(ValueRefused) <==>
                      target >= 0 && !Profile(Some(velocity), Some(accel), Some(decel)).AllFit())
    {
      assert Controlword.PulseNewSetPoint(Controlword.PositionBase(false, true)) == (0x3F, 0x2F);
      var saved := cfg.profile;
      cfg := cfg.(profile := Profile(Some(velocity), Some(accel), Some(decel)));
      r, w, words := MoveTo(target, false, true, timeout);
      cfg := cfg.(profile := saved);
    }

    /** HALT on or off, with the hold bits. */
    method Halt(enabled: bool) returns (r: Result<(), Failure>)
      requires bus.Valid()
      modifies bus`trace, bus`between, bus`words, bus.sim
      ensures bus.Valid() && old(bus.trace) < bus.trace
      ensures bus.words == old(bus.words) + [if enabled then 0x010F else 0x000F]
      ensures if r.Ok?
              then Acknowledges(bus.trace[|bus.trace| - 1], 0x6040, 0, if enabled then 0x010F else 0x000F, 2, false)
              else r.error == AccessFailed && LostAccess(bus.trace)
      ensures QuietFrom(bus.trace, |old(bus.trace)|)
      ensures r.Ok? ==> NothingLost(bus.trace, |old(bus.trace)|)
      ensures bus.live ==> r.Ok?
      ensures bus.live && enabled ==> AtRest(bus.sim.View().flags)
    {
      var word := if enabled then Controlword.HaltWord() else Controlword.ENABLE_OPERATION;
      r := WriteQuietWord(bus, word);
      if bus.live && enabled {
        HaltLands(Run(old(bus.sim.View()), bus.between), bus.trace[|bus.trace| - 1], word);
      }
    }
  }

  /** The three settings a move waits by. */
  datatype Waits = Waits(ackTimeout: int, timeout: int, window: int)

  /** What a move promises whatever the drive does. */
  ghost predicate MoveResult(trace: seq<Event>, r: Result<(), Failure>, w: Witness, from: nat, words: seq<int>,
                             setWord: int, clearWord: int, target: int, waits: Waits) {
    && (words == [setWord] ==>
          r == Err(AccessFailed) && trace != [] && trace[|trace| - 1] == WriteLost(CONTROLWORD, 0, setWord))
    && (words == [setWord, clearWord] ==>
          && EdgeThenTrail(trace, from, setWord, clearWord, w.edge)
          && Released(trace, clearWord, waits.ackTimeout, w)
          && EndsAs(trace, w, target, waits.window, waits.timeout, r))
    && (r.Ok? ==> && words == [setWord, clearWord] && ShookHands(trace, clearWord, w)
                  && Evidence(trace, w.release + 1, Some(target), waits.window, w.sight))
  }

  /** A move that ends with its handshake. */
  lemma HandshakeEnds(trace: seq<Event>, r: Result<(), Failure>, w: Witness, from: nat, words: seq<int>, setWord: int,
                      clearWord: int, target: int, waits: Waits)
    requires r.Err? && (words == [setWord] || words == [setWord, clearWord])
    requires words == [setWord] ==>
               r == Err(AccessFailed) && trace != [] && trace[|trace| - 1] == WriteLost(CONTROLWORD, 0, setWord)
    requires words == [setWord, clearWord] ==>
               && EdgeThenTrail(trace, from, setWord, clearWord, w.edge)
               && Released(trace, clearWord, waits.ackTimeout, w) && w.release == |trace| - 1
               && r == if trace[w.release].WriteLost? then Err(AccessFailed) else w.answer
    ensures MoveResult(trace, r, w, from, words, setWord, clearWord, target, waits)
  {
  }

  lemma PollsTrail(released: seq<Event>, trace: seq<Event>, from: nat, setWord: int, clearWord: int, edge: nat)
    requires released <= trace && OnlyPolling(trace, |released|)
    requires EdgeThenTrail(released, from, setWord, clearWord, edge)
    ensures EdgeThenTrail(trace, from, setWord, clearWord, edge)
  {
    forall i | edge < i < |trace| ensures Trailing(trace[i], clearWord) {
      if i < |released| {
        assert trace[i] == released[i];
      } else {
        assert Polling(trace[i]);
      }
    }
  }

  /** A move that ends with its completion wait. */
  lemma MoveEnds(released: seq<Event>, trace: seq<Event>, r: Result<(), Failure>, w: Witness, from: nat, setWord: int,
                 clearWord: int, target: int, waits: Waits)
    requires released <= trace && OnlyPolling(trace, |released|)
    requires EdgeThenTrail(released, from, setWord, clearWord, w.edge) && ShookHands(released, clearWord, w)
    requires Released(released, clearWord, waits.ackTimeout, w) && w.release == |released| - 1 && w.answer.Ok?
    requires WaitResult(trace, |released|, w.sight, Some(target), waits.window, waits.timeout, r)
    requires r.Ok? ==> Evidence(trace, |released|, Some(target), waits.window, w.sight)
    ensures MoveResult(trace, r, w, from, [setWord, clearWord], setWord, clearWord, target, waits)
  {
    PollsTrail(released, trace, from, setWord, clearWord, w.edge);
    ReleasedStays(released, trace, clearWord, waits.ackTimeout, w);
  }

  lemma MoveFrom(trace: seq<Event>, r: Result<(), Failure>, w: Witness, from: nat, later: nat, words: seq<int>,
                 setWord: int, clearWord: int, target: int, waits: Waits)
    requires from <= later && MoveResult(trace, r, w, later, words, setWord, clearWord, target, waits)
    ensures MoveResult(trace, r, w, from, words, setWord, clearWord, target, waits)
  {
  }

  lemma ReleaseFollows(waited: seq<Event>, trace: seq<Event>, from: nat, setWord: int, clearWord: int, ackTimeout: int,
                       w: Witness, released: Result<(), Failure>)
    requires from <= w.edge < |waited| && waited < trace && OnlyPolling(waited, w.edge + 1)
    requires TicksBetween(waited, from, w.edge) && Acknowledges(waited[w.edge], CONTROLWORD, 0, setWord, 2, false)
    requires w.waited == waited && AckResult(waited, w.edge + 1, w.ack, ackTimeout, w.answer)
    requires TicksBetween(trace, |waited|, |trace| - 1) && w.release == |trace| - 1
    requires forall i :: |waited| <= i < |trace| ==> Trailing(trace[i], clearWord)
    requires if released.Ok? then Acknowledges(trace[|trace| - 1], CONTROLWORD, 0, clearWord, 2, false)
             else trace[|trace| - 1] == WriteLost(CONTROLWORD, 0, clearWord)
    ensures Released(trace, clearWord, ackTimeout, w) && EdgeThenTrail(trace, from, setWord, clearWord, w.edge)
    ensures TicksBetween(trace, from, w.edge)
    ensures released.Ok? && w.answer.Ok? ==> ShookHands(trace, clearWord, w)
  {
    assert trace[w.edge] == waited[w.edge];
    forall i | w.edge < i < |trace| ensures Trailing(trace[i], clearWord) {
      if i < |waited| {
        assert trace[i] == waited[i] && Polling(waited[i]);
      }
    }
    if released.Ok? && w.answer.Ok? {
      assert trace[w.ack] == waited[w.ack];
    }
  }

  lemma ReleasedStays(before: seq<Event>, after: seq<Event>, clearWord: int, ackTimeout: int, w: Witness)
    requires before <= after && Released(before, clearWord, ackTimeout, w)
    ensures Released(after, clearWord, ackTimeout, w) && after[w.release] == before[w.release]
  {
  }

  lemma TrailLosesNoParam(trace: seq<Event>, from: nat, setWord: int, clearWord: int, edge: nat)
    requires EdgeThenTrail(trace, from, setWord, clearWord, edge) && TicksBetween(trace, from, edge)
    ensures NoParamLost(trace, from)
  {
    forall i | from <= i < |trace| && trace[i].WriteLost? ensures trace[i].index == CONTROLWORD {
      if i > edge { assert Trailing(trace[i], clearWord); }
    }
  }

  lemma TrailIsQuiet(trace: seq<Event>, from: nat, setWord: int, clearWord: int, edge: nat, stop: nat)
    requires EdgeThenTrail(trace, from, setWord, clearWord, edge) && edge < stop
    ensures QuietFrom(trace, stop)
  {
    forall i | stop <= i < |trace| ensures Quiet(trace[i]) {
      assert Trailing(trace[i], clearWord);
    }
  }

  /** Another task's stop after the rising edge has the last word: the axis stays where the stop
      found it, and if the move nevertheless succeeds on a position read after the stop, that
      resting place lies within the window of its target. */
  lemma StoppedMove(start: Drive, trace: seq<Event>, from: nat, setWord: int, clearWord: int, w: Witness, stop: nat,
                    target: int, window: int)
    requires EdgeThenTrail(trace, from, setWord, clearWord, w.edge)
    requires w.edge < stop && StoppedByOther(start, trace, stop)
    ensures After(start, trace).axis.position == After(start, trace[..stop]).axis.position
    ensures window > 0 && stop < w.sight.position && Evidence(trace, from, Some(target), window, w.sight)
            && PositionIsReal(start, trace, Some(target), window, w.sight) ==>
              Abs(After(start, trace).axis.position - target) <= window
  {
    TrailIsQuiet(trace, from, setWord, clearWord, w.edge, stop);
    StopBeatsMove(start, trace, stop);
    var read := w.sight.position;
    if window > 0 && stop < read < |trace| {
      PrefixIsStopped(start, trace, read, stop);
      StopBeatsMove(start, trace[..read], stop);
      SeenPositionIsPosition(After(start, trace[..read]));
    }
  }

  lemma SeenPositionIsPosition(d: Drive)
    ensures Seen(d, POSITION_ACTUAL, 0, 4, true).Ok? ==> Seen(d, POSITION_ACTUAL, 0, 4, true) == Ok(d.axis.position)
  {
    Pow256Values();
    PackThenUnpack(d.axis.position, 4, true, Little);
    if ReadObject(d, POSITION_ACTUAL, 0, 4).Ok? {
      PositionIsSeen(d);
    }
  }

  /** The rising edge at `edge`, after `from`, and nothing after it that could start motion. */
  predicate EdgeThenTrail(trace: seq<Event>, from: nat, setWord: int, clearWord: int, edge: nat) {
    && from <= edge < |trace| && Acknowledges(trace[edge], CONTROLWORD, 0, setWord, 2, false)
    && forall i :: edge < i < |trace| ==> Trailing(trace[i], clearWord)
  }

  /** Edge, acknowledge, release, in this order. */
  predicate ShookHands(trace: seq<Event>, clearWord: int, w: Witness) {
    && w.edge < w.ack < w.release < |trace|
    && GotStatus(trace[w.ack]) && !Unanswered(trace[w.ack].value)
    && Acknowledges(trace[w.release], CONTROLWORD, 0, clearWord, 2, false)
  }

  /** The acknowledge wait, right after the edge, and then the write of the clear word. */
  predicate Released(trace: seq<Event>, clearWord: int, ackTimeout: int, w: Witness) {
    && w.edge < |w.waited| <= w.release < |trace| && w.waited <= trace
    && AckResult(w.waited, w.edge + 1, w.ack, ackTimeout, w.answer)
    && TicksBetween(trace, |w.waited|, w.release)
    && (|| Acknowledges(trace[w.release], CONTROLWORD, 0, clearWord, 2, false)
        || trace[w.release] == WriteLost(CONTROLWORD, 0, clearWord))
  }

  /** How a move with both words ends: by the loss of the clear word, by the failure of the
      acknowledge wait, or as the completion wait does. */
  ghost predicate EndsAs(trace: seq<Event>, w: Witness, target: int, window: int, timeout: int,
                         r: Result<(), Failure>)
    requires w.release < |trace|
  {
    if trace[w.release].WriteLost? then r == Err(AccessFailed) && w.release == |trace| - 1
    else if w.answer.Err? then r == w.answer && w.release == |trace| - 1
    else WaitResult(trace, w.release + 1, w.sight, Some(target), window, timeout, r)
  }
}
