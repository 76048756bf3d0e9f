/** Runs of the simulated drive: stopping is final, set-points converge, limits update atomically. */
module DriveMotion {
  import opened Prelude
  import opened Codec
  import opened DriveSpec
  import opened DriveInvariants

  // ------------------------------------------------------------ stop is final

  predicate AtRest(f: Flags) {
    !f.pv && !f.pp && !f.homing
  }

  /** HALT, a fault reset, a quick stop of an enabled drive, any controlword during an
      emergency, or pressing the emergency button. */
  predicate Stops(d: Drive, step: Step) {
    match step
    case Object(index, _, raw, _) =>
      index == CONTROLWORD && (
        var c := Decode(UnsignedOf(raw, 2));
        c.halt || c.faultReset || d.emergency || (c.quickStop && d.state == OperationEnabled))
    case EmergencyButton => !d.emergency
    case _ => false
  }

  predicate WritesLimit(step: Step) {
    step.Object? && step.index == POSITION_RANGE_LIMIT
  }

  /** No step of the run raises bit 4, measured in the state the step meets, or moves a limit. */
  predicate Calm(d: Drive, steps: seq<Step>)
    decreases |steps|
  {
    steps == [] || (!Starts(d, steps[0]) && !WritesLimit(steps[0]) && Calm(Apply(d, steps[0]), steps[1..]))
  }

  lemma ObeyAtRest(d: Drive, c: Command, rising: bool, now: int)
    ensures c.halt || c.faultReset || d.emergency || (c.quickStop && d.state == OperationEnabled)
            || (AtRest(d.flags) && !rising)
            ==> AtRest(Obey(d, c, rising, now).flags) && Obey(d, c, rising, now).axis.position == d.axis.position
  {
  }

  lemma StopStep(d: Drive, step: Step)
    requires Stops(d, step)
    ensures AtRest(Apply(d, step).flags) && Apply(d, step).axis.position == d.axis.position
  {
    if step.Object? {
      var kept, cw := Keep(d, step.index, step.subindex, step.raw), UnsignedOf(step.raw, 2);
      ObeyAtRest(LatchControlword(kept, cw), Decode(cw), RisingEdge(kept, cw), step.at);
    }
  }

  lemma CalmStep(d: Drive, step: Step)
    requires AtRest(d.flags) && !Starts(d, step) && !WritesLimit(step)
    ensures AtRest(Apply(d, step).flags) && Apply(d, step).axis.position == d.axis.position
  {
    if step.Object? && step.index == CONTROLWORD {
      var kept, cw := Keep(d, step.index, step.subindex, step.raw), UnsignedOf(step.raw, 2);
      ObeyAtRest(LatchControlword(kept, cw), Decode(cw), RisingEdge(kept, cw), step.at);
    }
  }

  lemma {:induction false} CalmRun(d: Drive, steps: seq<Step>)
    requires AtRest(d.flags) && Calm(d, steps)
    ensures AtRest(Run(d, steps).flags) && Run(d, steps).axis.position == d.axis.position
    decreases |steps|
  {
    if steps != [] {
      CalmStep(d, steps[0]);
      CalmRun(Apply(d, steps[0]), steps[1..]);
    }
  }

  /** Once a stop has been applied, in whatever state, no later ticks, mode writes, target
      writes, faults, emergencies or words without a rising edge of bit 4 move the axis. */
  lemma StopIsFinal(d: Drive, stop: Step, later: seq<Step>)
    requires Stops(d, stop) && Calm(Apply(d, stop), later)
    ensures Run(d, [stop] + later).axis.position == d.axis.position
    ensures AtRest(Run(d, [stop] + later).flags)
  {
    StopStep(d, stop);
    CalmRun(Apply(d, stop), later);
    assert ([stop] + later)[1..] == later;
  }

  // ------------------------------------------------------------ set-points converge

  /** A set-point is being approached and nothing stands between the axis and the goal. */
  predicate Approaching(d: Drive) {
    && d.state == OperationEnabled && !d.emergency && d.mode == MODE_PROFILE_POSITION && d.flags.pp
    && d.limits.low <= d.axis.position <= d.limits.high
    && d.limits.low <= d.goal <= d.limits.high
  }

  function Distance(d: Drive): nat {
    Abs(d.goal - d.axis.position)
  }

  /** The distance one tick covers: at least one unit, however short the tick. */
  function Stride(d: Drive, dt: nat): (s: nat)
    ensures s >= 1
  {
    Max(1, CruiseSpeed(d.regs.profileVelocity) * dt / MICROSECONDS)
  }

  /** The stride is that of the profile velocity written to object 0x6081. */
  lemma StrideOfObject(d: Drive, v: int, subindex: int, now: int, dt: nat)
    requires 1 <= v <= 20000
    ensures PackInt(v, 4, false, Little).Ok?
    ensures var after := WriteObject(d, 0x6081, subindex, PackInt(v, 4, false, Little).value, now);
            Stride(after, dt) == Max(1, v * dt / 1_000_000)
  {
    Pow256Values();
    PackThenUnpack(v, 4, false, Little);
    var raw := PackInt(v, 4, false, Little).value;
    assert FitTo(raw, 4) == raw;
    SpeedOfObject(v);
  }

  predicate Between(x: int, y: int, z: int) {
    x <= y <= z || z <= y <= x
  }

  lemma ApproachLands(position: int, goal: int, distance: nat)
    ensures var landed := Approach(position, goal, distance);
            && Between(position, landed, goal)
            && Abs(goal - landed) == Max(0, Abs(goal - position) - Max(1, distance))
  {
  }

  /** Each tick covers its stride or lands on the goal; it never overshoots, the clamp never
      bites, and the set-point completes on the tick that lands. */
  lemma TickApproaches(d: Drive, now: int)
    requires Approaching(d) && Distance(d) > 0
    ensures var next, stride := Tick(d, now), Stride(d, TickLength(d.lastTick, now));
            && Distance(next) == Max(0, Distance(d) - stride) && Distance(next) < Distance(d)
            && Between(d.axis.position, next.axis.position, d.goal)
            && next.flags.pp == (Distance(next) > 0)
            && next.axis.targetReached == (Distance(next) == 0) && next.axis.isMoving == (Distance(next) > 0)
            && (Distance(next) > 0 ==> Approaching(next))
            && next.goal == d.goal && next.regs == d.regs && next.limits == d.limits
            && next.lastTick == now
  {
    var dt := TickLength(d.lastTick, now);
    ApproachLands(d.axis.position, d.goal, CruiseSpeed(d.regs.profileVelocity) * dt / MICROSECONDS);
  }

  /** The set-point has completed: the axis stands on the goal and says so. */
  predicate Landed(d: Drive) {
    && d.mode == MODE_PROFILE_POSITION && d.state == OperationEnabled && !d.emergency
    && !d.flags.pp && d.axis == Axis(d.goal, 0, false, true)
  }

  lemma TickStaysLanded(d: Drive, now: int)
    requires Landed(d)
    ensures Landed(Tick(d, now)) && Tick(d, now).goal == d.goal
  {
  }

  lemma LastTickLands(d: Drive, now: int)
    requires Approaching(d) && Distance(d) <= Stride(d, TickLength(d.lastTick, now))
    ensures Landed(Tick(d, now)) && Tick(d, now).goal == d.goal
  {
    if Distance(d) > 0 {
      TickApproaches(d, now);
    }
  }

  /** `k` turns of the engine loop, `period` microseconds apart. */
  function Ticks(d: Drive, period: nat, k: nat): Drive
    decreases k
  {
    if k == 0 then d else Ticks(Tick(d, d.lastTick + period), period, k - 1)
  }

  lemma {:induction false} TicksStayLanded(d: Drive, period: nat, k: nat)
    requires Landed(d)
    ensures Landed(Ticks(d, period, k)) && Ticks(d, period, k).goal == d.goal
    decreases k
  {
    if k > 0 {
      TickStaysLanded(d, d.lastTick + period);
      TicksStayLanded(Tick(d, d.lastTick + period), period, k - 1);
    }
  }

  /** What is left of a distance after `k` strides. */
  function Remaining(distance: nat, stride: nat, k: nat): nat
    decreases k
  {
    if k == 0 then distance else Remaining(Max(0, distance - stride), stride, k - 1)
  }

  lemma {:induction false} RemainingIsDifference(distance: nat, stride: nat, k: nat)
    ensures Remaining(distance, stride, k) == Max(0, distance - k * stride)
    decreases k
  {
    if k > 0 {
      assert k * stride == (k - 1) * stride + stride;
      RemainingIsDifference(Max(0, distance - stride), stride, k - 1);
    }
  }

  lemma StrideStep(d: Drive, period: nat)
    requires Approaching(d) && Distance(d) > 0
    ensures var next, stride := Tick(d, d.lastTick + period), Stride(d, Min(period, MAX_TICK));
            && Distance(next) == Max(0, Distance(d) - stride) && next.goal == d.goal
            && Stride(next, Min(period, MAX_TICK)) == stride
            && (if Distance(d) <= stride then Landed(next)
                else Approaching(next) && next.axis.isMoving && !next.axis.targetReached)
  {
    var now := d.lastTick + period;
    assert TickLength(d.lastTick, now) == Min(period, MAX_TICK);
    TickApproaches(d, now);
    if Distance(d) <= Stride(d, Min(period, MAX_TICK)) {
      LastTickLands(d, now);
    }
  }

  /** What `k` ticks of a running set-point come to. */
  predicate StridesTo(after: Drive, goal: int, left: nat, k: nat) {
    && after.goal == goal && Distance(after) == left
    && (left > 0 ==> Approaching(after) && (k > 0 ==> !after.axis.targetReached && after.axis.isMoving))
    && (left == 0 ==> Landed(after))
  }

  lemma LastStride(d: Drive, period: nat, k: nat)
    requires Approaching(d) && 0 < Distance(d) <= Stride(d, Min(period, MAX_TICK)) && k > 0
    ensures StridesTo(Ticks(d, period, k), d.goal, 0, k)
    ensures Remaining(Distance(d), Stride(d, Min(period, MAX_TICK)), k) == 0
  {
    StrideStep(d, period);
    TicksStayLanded(Tick(d, d.lastTick + period), period, k - 1);
    RemainingIsDifference(0, Stride(d, Min(period, MAX_TICK)), k - 1);
  }

  lemma {:induction false} StridesRemain(d: Drive, period: nat, k: nat)
    requires Approaching(d) && Distance(d) > 0
    ensures StridesTo(Ticks(d, period, k), d.goal, Remaining(Distance(d), Stride(d, Min(period, MAX_TICK)), k), k)
    decreases k
  {
    if k > 0 {
      if Distance(d) <= Stride(d, Min(period, MAX_TICK)) {
        LastStride(d, period, k);
      } else {
        StrideStep(d, period);
        StridesRemain(Tick(d, d.lastTick + period), period, k - 1);
      }
    }
  }

  /** With a fixed tick the axis is exactly `k` strides along while the distance lasts, and on
      the goal, reported reached, from the first tick that exhausts it. */
  lemma FixedStrides(d: Drive, period: nat, k: nat)
    requires Approaching(d) && Distance(d) > 0
    ensures var stride, after := Stride(d, Min(period, MAX_TICK)), Ticks(d, period, k);
            && Distance(after) == Max(0, Distance(d) - k * stride)
            && (k * stride >= Distance(d) <==> Landed(after))
            && (k * stride >= Distance(d) ==> after.axis.position == d.goal)
            && (0 < k * stride < Distance(d) ==> after.axis.isMoving && !after.axis.targetReached)
  {
    StridesRemain(d, period, k);
    RemainingIsDifference(Distance(d), Stride(d, Min(period, MAX_TICK)), k);
  }

  /** The first tick that lands is the one numbered by the ceiling of distance over stride,
      which is the only number between these two bounds. */
  lemma TicksToTarget(d: Drive, period: nat, n: nat)
    requires Approaching(d) && Distance(d) > 0 && n >= 1
    ensures var stride := Stride(d, Min(period, MAX_TICK));
            (n - 1) * stride < Distance(d) <= n * stride
            <==> Landed(Ticks(d, period, n)) && !Landed(Ticks(d, period, n - 1))
  {
    FixedStrides(d, period, n);
    FixedStrides(d, period, n - 1);
  }

  lemma CeilingBounds(distance: nat, stride: nat)
    requires distance > 0 && stride > 0
    ensures var n := (distance + stride - 1) / stride;
            n >= 1 && (n - 1) * stride < distance <= n * stride
  {
    var n := (distance + stride - 1) / stride;
    assert distance + stride - 1 == stride * n + (distance + stride - 1) % stride;
    assert (n - 1) * stride == n * stride - stride;
  }

  predicate OnlyTicks(steps: seq<Step>) {
    forall i :: 0 <= i < |steps| ==> steps[i].Engine?
  }

  /** Whatever the clock does, the position never leaves the stretch between start and goal,
      and as many ticks as there are units of distance always suffice. */
  lemma {:induction false} AnyTicksConverge(d: Drive, steps: seq<Step>)
    requires (Approaching(d) || Landed(d)) && OnlyTicks(steps)
    ensures var after := Run(d, steps);
            && (Approaching(after) || Landed(after)) && after.goal == d.goal
            && Between(d.axis.position, after.axis.position, d.goal)
            && Distance(after) <= Max(0, Distance(d) - |steps|)
            && (|steps| > Distance(d) ==> Landed(after))
    decreases |steps|
  {
    if steps != [] {
      var now, next := steps[0].now, Tick(d, steps[0].now);
      if Landed(d) {
        TickStaysLanded(d, now);
      } else if Distance(d) == 0 {
        LastTickLands(d, now);
      } else {
        TickApproaches(d, now);
        if Distance(next) == 0 { LastTickLands(d, now); }
      }
      AnyTicksConverge(next, steps[1..]);
    }
  }

  // ------------------------------------------------------------ two-step limit update

  /** Writing the lower and then the upper limit leaves one clamp of the old position into the
      new limits, although the limits in between may be inverted. */
  lemma TwoLimitWritesAreOneClamp(d: Drive, low: int, high: int)
    requires WithinLimits(d) && low < high
    ensures var after := WriteLimit(WriteLimit(d, 1, low), 2, high);
            && after.limits == Limits(low, high)
            && after.axis == d.axis.(position := Clamp(Limits(low, high), d.axis.position))
  {
  }

  /** Between the two writes the limits can be inverted; the axis then stands at the old upper
      limit, below the new lower one. */
  lemma InvertedLimitsInBetween(d: Drive, low: int)
    requires WithinLimits(d) && low > d.limits.high
    ensures WriteLimit(d, 1, low).axis.position == d.limits.high < low
  {
  }
}
