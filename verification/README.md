# A verified model of the dryve D1 driver and its simulator

The repository holds both ends of a CiA 402 drive connection: a driver (`src/dryve_d1`) and a
simulated drive (`simulator.py`) that speaks the same wire protocol. This project models both
ends and proves what they do together.

## Layers

| module | file | subject |
|---|---|---|
| `Prelude`, `Codec`, `Bits`, `Controlword`, `Statusword` | `Prelude.dfy`, `Codec.dfy`, `Words.dfy` | integers in bytes, bits of words, state coding |
| `Telegram`, `Gateway`, `WireProofs` | `Telegram.dfy`, `Gateway.dfy`, `WireProofs.dfy` | the driver's and the simulator's side of the wire, and that they agree |
| `DriveSpec`, `DriveInvariants`, `DriveMotion` | same names | the simulated drive as a value, with what every run keeps |
| `FakeDrive` | `FakeDrive.dfy` | the simulated drive as the class it is, refining `DriveSpec` |
| `Bus`, `BusOnWire` | same names | register access as the drivers see it, and that it is one exchange on the wire |
| `DriveControl`, `StateMachine` | `StateMachine.dfy` | CiA 402 bring-up |
| `Access`, `Chase`, `Preparation`, `Pursuit`, `ProfilePosition` | same names | profile-position moves with the closed-loop start handshake |
| `Seeking`, `Homing` | `Homing.dfy` | homing |
| `Turning`, `ProfileVelocity` | `ProfileVelocity.dfy` | velocity commands, as the jog uses them |
| `StopCommand`, `PositionLimits` | same names | the stop command and the two-step limit update |
| `PackagedPosition` | `PackagedPosition.dfy` | the packaged variant of the move |
| `TransactionIds`, `Transport` | `TransactionIds.dfy`, `Session.dfy` | transaction ids; callers, keepalive, lock, socket and server as interleaved steps |
| `Jogging` | `Jog.dfy` | the jog controller and its watchdog as interleaved steps |

Driver protocols run against a `RegisterBus`. A bus that is *live* ends at a `FakeDriveState`
whose engine turns any number of times, at any clock readings, before every access; when it is
also *shared*, other tasks write controlwords without bit 4 in between. A bus that is not live
ends at an arbitrary drive: reads return anything, and accesses raise with or without effect.
Every protocol method has both kinds of contract: what it promises against any drive, as a
statement about the trace of events on the bus, and what it promises against the simulator alone
(`Closed`), as a statement about the drive. Time is in integer microseconds.

## What the proofs brought to light

- A set word whose write raises leaves bit 4 latched, because the write stands before the `try`
  whose `finally` writes the clear word (`src/dryve_d1/motion/profile_position.py:202`). The set
  word of the next move is then no rising edge (`Pursuit.LatchedSetPointBlocksNextStart`). Every
  other exit writes the clear word.
- The homing pulse and the packaged move have no such `finally`: a clear word that raises is not
  repeated, and one after a raising set word is never written. The pulse is cut short exactly when
  one of the two writes is lost (`Homing.Homing.Start`, `PackagedPosition.ProfilePosition.Pulse`).
- The simulator cannot return a negative mode (`DriveInvariants.ModeReadFailsWhenNegative`): it
  hangs up instead.
- Between the failure of one caller and the close of the socket another caller can be handed the
  late reply (`Transport.GapHandsOverAForeignReply`); strict decoding refuses it unless the two
  transaction ids are equal.
- An active jog is unguarded exactly after a stop write in the abort branch of its watchdog has
  raised, until the next press or stop succeeds (`Jogging.ActiveIsGuarded`): the watchdog then
  ends although the jog stays active (`Jogging.RaisingAbortLeavesJogUnguarded`), and no refresh
  brings it back (`Jogging.UnguardedStays`).
- `set_position_limits` refuses an upper limit beyond INT32 only after the lower limit has been
  written.
- A drive that leaves NOT_READY_TO_SWITCH_ON for SWITCH_ON_DISABLED during the bring-up is waited
  for, then refused (`StateMachine.CiA402StateMachine.RunFromReady`).
- `close` of a session does not last: a call that waits for the lock meanwhile, or comes later,
  opens a new connection, and with a keepalive thread configured this clears the stop event
  (`src/dryve_d1/transport/session.py:208-221`), so that calls retry and the keepalive runs again
  (`Transport.WaitingCallUndoesClose`, exactly then: `Transport.CloseHoldsUntilReopened`).
- A retry budget with `max_attempts` of zero or less still makes one attempt
  (`Transport.NoBudgetStillTries`).
- The driver's response validator takes an exception frame for one only when the refused function
  code was 0x2B or 0xAB (`WireProofs.RepliesAreAccepted`).

Where comments or documentation say otherwise, the model follows the code. One such place: the
docstring of `fault_reset` (`src/dryve_d1/cia402/state_machine.py:146-157`) promises one of two
states, but the code is content with any of four.

## Model

| member | source | states |
|---|---|---|
| `Codec.PackThenUnpack` | src/dryve_d1/protocol/codec.py:17-51 | packing succeeds exactly on the values the width can hold, and unpacking gives the value back |
| `Codec.UnpackThenPack` | src/dryve_d1/protocol/codec.py:17-51 | unpacking succeeds exactly on 1 to 4 bytes, always into range, and packing gives the bytes back |
| `Codec.BytesOnWire` | src/dryve_d1/protocol/codec.py:17-51 | byte k of a packed value, from the front in little-endian and from the back in big-endian order, is digit k to the base 256 of the value taken modulo the width |
| `Codec.RangeBounds` | src/dryve_d1/protocol/codec.py:17-51 | the representable values are those between the two literal bounds, for each of the four sizes, signed and unsigned |
| `Codec.ZeroExtension` | src/dryve_d1/protocol/sdo.py:80-88 | a little-endian value padded with zero bytes decodes, signed or unsigned, to the unsigned value of the bytes that arrived |
| `WireProofs.ValidatorsAgree` | src/dryve_d1/protocol/validator.py:48-109 | over all byte strings the driver accepts as a request exactly what the strict simulator parses as a gateway request, the object-size table aside; with the table, the two differ exactly on it |
| `WireProofs.TolerantParserAcceptsMore` | simulator.py:857-937 | the tolerant simulator parses every frame the strict one parses, to the same request |
| `WireProofs.TolerantParserIgnoresReserved` | simulator.py:857-937 | the tolerant simulator reads a frame exactly as the strict one would if its reserved bytes were zero |
| `WireProofs.SizeTableIsRight` | simulator.py:567-611 | the sizes by which the strict simulator judges a request are those of its own replies; an object without one is read in the size asked for |
| `WireProofs.RequestLanguage` | src/dryve_d1/protocol/validator.py:66-109 | the driver accepts as read and write requests exactly the telegrams its own builders can build |
| `WireProofs.ReplyLanguage` | src/dryve_d1/protocol/validator.py:112-172 | the driver accepts as replies exactly the frames the simulator's builder produces for 1 to 4 bytes read or at most 4 bytes echoed, and every exception frame |
| `WireProofs.SameBuilder` | simulator.py:800-854 | simulator and driver lay out a frame in the same way |
| `WireProofs.BuiltRead` | src/dryve_d1/protocol/gateway_telegram.py:96-134 | a read telegram can be built exactly for addressable objects of 1 to 4 bytes; it passes the driver's own validator and carries its fields |
| `WireProofs.BuiltWrite` | src/dryve_d1/protocol/gateway_telegram.py:137-177 | the same for write telegrams, with the data at the end |
| `WireProofs.RequestIsParsed` | simulator.py:857-937 | the simulator parses a built telegram to exactly the fields it was built from |
| `WireProofs.ReplyIsParsed` | simulator.py:800-854 | the driver's strict parser accepts the simulator's reply and extracts exactly its fields and data |
| `WireProofs.ReadExchange` | simulator.py:943-1054 | one read request yields one reply that decodes to what the drive stores, and leaves the drive alone; the simulator hangs up exactly when the object cannot be encoded |
| `WireProofs.WriteExchange` | src/dryve_d1/protocol/sdo.py:90-119 | one write request yields one reply that the strict parser takes for its acknowledge, and the drive stores exactly the bytes sent |
| `WireProofs.StoredReadsBack` | simulator.py:567-669 | what is written to a writable object at its own size is what is read from it next |
| `WireProofs.ModeReadsBack` | simulator.py:567-669 | a mode byte reads back exactly when it is not negative as a signed byte |
| `WireProofs.WriteThenRead` | src/dryve_d1/protocol/sdo.py:80-119 | an integer written through pack, build, parse, store, respond and validate reads back the same through the same path; the one exception is a mode outside 0..127, for which the read gets no reply |
| `WireProofs.OtherObjectsKeep` | simulator.py:613-669 | a write changes no object but its own and the few that the drive couples to it |
| `WireProofs.ControlwordKeeps` | simulator.py:247-310 | no controlword changes position, mode, limits, stored objects or any parameter except the target velocity |
| `WireProofs.StrictRead` | src/dryve_d1/protocol/gateway_telegram.py:230-326 | in strict mode a read decodes if and only if the frame is a well-formed read reply with the transaction id, unit, index and sub-index of the request; the data has the longer of the two lengths, and a short reply yields its zero-extended unsigned value |
| `WireProofs.StrictWrite` | src/dryve_d1/protocol/gateway_telegram.py:230-326 | in strict mode a frame acknowledges a write if and only if it is a well-formed reply, no exception, with the transaction id, unit, index and sub-index of the request |
| `WireProofs.ToleranceIsExact` | src/dryve_d1/protocol/gateway_telegram.py:230-326 | under any policy a reply is parsed exactly as a strict driver would parse it with the transaction id, and a wildcard unit, replaced by those of the request as far as the policy tolerates them |
| `WireProofs.StaleReplyIsRefused` | src/dryve_d1/protocol/gateway_telegram.py:267-290 | a reply with another transaction id is decoded neither as a value nor as an acknowledge |
| `WireProofs.ReplyEchoesTransactionId` | simulator.py:787-854 | whatever the simulator sends carries the transaction id of the frame it answers |
| `WireProofs.ExceptionsAreServed` | simulator.py:787-854 | the exact bytes that answer a frame that is no gateway request: exception 1 for another function code, exception 3 for one that does not parse, nothing for an incomplete frame; the drive is left alone, and the connection goes on exactly after a frame that parses and can be served |
| `WireProofs.RepliesAreAccepted` | src/dryve_d1/protocol/validator.py:112-172 | every reply to an accepted request passes the driver's response validator; an exception frame passes exactly when the refused function code was that of the gateway |
| `BusOnWire.ReadIsAnExchange` | src/dryve_d1/protocol/sdo.py:110-115 | a register read as the drivers see it is one exchange of the whole stack, and fails exactly when the simulator hangs up |
| `BusOnWire.WriteIsAnExchange` | src/dryve_d1/protocol/sdo.py:117-119 | a register write as the drivers see it is one exchange of the whole stack, with the same effect on the drive |
| `Controlword.PulseOfPositionBase` | src/dryve_d1/od/controlword.py:36-113 | of the two words of a pulse only the first has bit 4; both hold the drive enabled, ask for neither halt nor fault reset, and bit 6 says whether the move is relative |
| `Statusword.StatesByBits` | src/dryve_d1/od/statusword.py:75-129 | over every word each of the nine states is inferred if and only if bits 0, 1, 2, 3, 5 and 6 are as stated for it; so QUICK_STOP_ACTIVE exactly when bits 0, 1 and 2 are set and bits 3, 5 and 6 are clear |
| `DriveSpec.CommandsByBits` | simulator.py:247-310 | which command a controlword is, and which of its flags are up, by its bits |
| `DriveSpec.ClimbByBits` | simulator.py:278-298 | where a word takes the state by its bits, from whatever state; a single word can enable |
| `DriveSpec.SpeedOfObject` | simulator.py:387-423 | the cruise speed is the amount of object 0x6081 up to 20000, and 5000 when it is 0 |
| `DriveSpec.TravelTruncates` | simulator.py:425-436 | a velocity tick covers the product of speed and time in whole units, rounded toward zero |
| `DriveSpec.TickLengthOfTime` | simulator.py:316-330 | a tick lasts the time since the one before, but not less than nothing nor more than a tenth of a second |
| `DriveSpec.HomingTimeOfWay` | simulator.py:498-513 | homing lasts as long as the way takes at the given speed, rounded down, but at least 0.3 s and at most 1.5 s |
| `DriveInvariants.StatuswordBits` | simulator.py:517-565 | each statusword bit is set if and only if the drive is in the condition it stands for |
| `DriveInvariants.StateBitsAre` | simulator.py:517-565 | bits 0 to 6 of the simulated statusword by the drive state, each an equivalence |
| `DriveInvariants.StateReadsBack` | src/dryve_d1/od/statusword.py:75-129 | the state the driver infers from the statusword is the drive's state; a fault shows as FAULT, or as FAULT_REACTION_ACTIVE exactly when it strikes an enabled drive |
| `DriveInvariants.ReportedStates` | src/dryve_d1/od/statusword.py:98-129 | over every run QUICK_STOP_ACTIVE and undecodable words are never reported, a fault is reported exactly when there is one, and a fault-free state reads back as itself |
| `DriveInvariants.StepKeepsValid` | simulator.py:247-442 | every engine tick, object write, emergency press and injected fault keeps the invariant: position where the limits put it, INT32 ranges, at most one motion flag, mode display equal to mode, acknowledge only with bit 4 held, never target-reached and moving at once, FAULT only with a fault, never QUICK_STOP_ACTIVE |
| `DriveInvariants.RunKeepsValid` | simulator.py:141-218 | the invariant holds after every run |
| `DriveInvariants.SoftLimitSafety` | simulator.py:460-464 | after every run the position lies between ordered limits, or on the upper one when they are inverted, and position and velocity always encode as INT32 |
| `DriveInvariants.MotionStartsAtRisingEdge` | simulator.py:247-310 | a motion flag turns on only at a rising edge of bit 4 written to an enabled, fault-free drive outside an emergency, in the mode of the flag |
| `DriveInvariants.ModeReadFailsWhenNegative` | simulator.py:579-584 | reading the mode fails exactly when it is negative |
| `DriveMotion.StopStep` | simulator.py:247-310 | HALT, fault reset, quick stop of an enabled drive, any word in an emergency and the emergency button end all motion where the axis is |
| `DriveMotion.StopIsFinal` | simulator.py:247-442 | once a stop has been applied, no ticks, mode and target writes, faults, emergencies and words without a rising edge move the axis |
| `DriveMotion.TickApproaches` | simulator.py:387-423 | a tick of an active set-point covers its stride or lands on the goal, never overshoots, and the clamp never bites |
| `DriveMotion.FixedStrides` | simulator.py:387-423 | with a fixed tick the axis is exactly k strides along after k ticks, and reports target reached exactly from the tick that exhausts the distance |
| `DriveMotion.StrideOfObject` | simulator.py:387-423 | after a velocity from 1 to 20000 has been written to 0x6081, the stride of a tick is that velocity times the tick |
| `DriveMotion.TicksToTarget` | simulator.py:387-423 | n is the number of the first tick that lands if and only if (n-1) strides are less than the distance and n strides are not |
| `DriveMotion.CeilingBounds` | simulator.py:387-423 | the ceiling of distance over stride is such an n |
| `DriveMotion.AnyTicksConverge` | simulator.py:316-423 | under any sequence of ticks the axis stays between start and goal and lands after at most as many ticks as there are units of distance, plus one |
| `DriveMotion.TwoLimitWritesAreOneClamp` | simulator.py:652-662 | lower limit then upper limit leave one clamp of the old position into the new limits, also when the limits in between are inverted |
| `DriveMotion.InvertedLimitsInBetween` | simulator.py:460-464 | between the two writes the axis can stand below the new lower limit |
| `FakeDrive.FakeDriveState.constructor` | simulator.py:146-217 | a new drive is the initial state |
| `FakeDrive.FakeDriveState.StopMotion` | simulator.py:449-456 | computes the stop of the specification |
| `FakeDrive.FakeDriveState.ClampToSoftLimits` | simulator.py:460-464 | the two comparisons amount to one clamp |
| `FakeDrive.FakeDriveState.StartVelocity` | simulator.py:466-478 | computes the velocity start of the specification |
| `FakeDrive.FakeDriveState.StartPosition` | simulator.py:480-496 | computes the position start of the specification, with the goal between the limits |
| `FakeDrive.FakeDriveState.StartHome` | simulator.py:498-513 | computes the homing start of the specification, forgetting an earlier homing |
| `FakeDrive.FakeDriveState.ObeyControlword` | simulator.py:247-310 | the sequence of early returns computes the specified effect of a controlword |
| `FakeDrive.FakeDriveState.ObeyCommand` | simulator.py:262-298 | each early return leaves exactly the specified state |
| `FakeDrive.FakeDriveState.HomeTurn` | simulator.py:355-385 | computes the specified homing tick, step by step |
| `FakeDrive.FakeDriveState.PositionTurn` | simulator.py:387-423 | the signed step, the minimum step and the overshoot clamp amount to the specified approach |
| `FakeDrive.FakeDriveState.VelocityTurn` | simulator.py:425-436 | computes the specified velocity tick, truncating toward zero |
| `FakeDrive.FakeDriveState.EngineTurn` | simulator.py:316-442 | one turn of the engine loop is one specified tick |
| `FakeDrive.FakeDriveState.ReadStatusword` | simulator.py:517-565 | the bits set one after another make the specified statusword |
| `FakeDrive.FakeDriveState.SdoRead` | simulator.py:567-611 | returns the specified bytes, or fails where the specification does, and changes nothing |
| `FakeDrive.FakeDriveState.SdoWrite` | simulator.py:613-669 | leaves the specified state for every object, sub-index and byte string, and raises exactly on an empty byte string for 0x6060 or 0x6098, having kept the bytes |
| `FakeDrive.FakeDriveState.PressEmergency` | simulator.py:742-750 | toggles the emergency and stops all motion when it goes on |
| `DriveControl.TicksKeepControl` | simulator.py:316-442 | ticks leave state, fault, emergency, last word and mode alone and turn no motion flag on |
| `DriveControl.TicksThenWord` | simulator.py:247-310 | after any ticks, a word without bit 4 moves the state as its command bits say and turns no motion flag on |
| `StateMachine.BringUpWordsStartNothing` | src/dryve_d1/od/controlword.py:61-101 | the words of the state machine are the named ones and none has bit 4 |
| `StateMachine.GoalsByBits` | src/dryve_d1/cia402/state_machine.py:133-144 | the states each wait of the bring-up is content with, by the bits of the statusword |
| `StateMachine.CiA402StateMachine.ReadStatusword` | src/dryve_d1/cia402/state_machine.py:77-87 | a statusword is returned only if it is not 0x2704 and, when required, has REMOTE; each failure says what the last event was: a lost read, 0x2704, or a word without bit 9; the simulator's word is always returned |
| `StateMachine.CiA402StateMachine.WriteControlword` | src/dryve_d1/cia402/state_machine.py:89-90 | writes the low 16 bits of the word, whatever the word; on the simulator the drive then stands where these bits put it |
| `StateMachine.CiA402StateMachine.Command` | src/dryve_d1/cia402/state_machine.py:89-90 | writes exactly this bring-up word; on the simulator the state moves as the table of words says |
| `StateMachine.CiA402StateMachine.WaitForStates` | src/dryve_d1/cia402/state_machine.py:96-111 | returns the first desired state that was read since its start; times out only when nothing since its start showed a desired state and the last poll began at or after the deadline, no earlier poll having begun after it; polls are at least one interval apart; on the simulator the outcome is decided by the state at the start |
| `StateMachine.CiA402StateMachine.QuickStop` | src/dryve_d1/cia402/state_machine.py:120-131 | writes one 0x0002, waits 2 s, and tolerates a drive that never reports the quick stop: then no poll read it, and the last began 2 s or more after the start |
| `StateMachine.CiA402StateMachine.Shutdown` | src/dryve_d1/cia402/state_machine.py:133-135 | success means READY_TO_SWITCH_ON or SWITCH_ON_DISABLED was read last; on the simulator, exactly when the drive then reports one of them |
| `StateMachine.CiA402StateMachine.SwitchOn` | src/dryve_d1/cia402/state_machine.py:137-139 | success means SWITCHED_ON or OPERATION_ENABLED was read last; on the simulator, exactly when the drive then reports one of them |
| `StateMachine.CiA402StateMachine.EnableOperation` | src/dryve_d1/cia402/state_machine.py:141-144 | success means OPERATION_ENABLED was read; on the simulator, exactly when the drive then reports it |
| `StateMachine.CiA402StateMachine.PulseReset` | src/dryve_d1/cia402/state_machine.py:167-175 | writes reset, shutdown and HALT in this order, at least 0.1 s in all; the simulator is then without fault, ready unless in an emergency, and no motion flag was turned on |
| `StateMachine.CiA402StateMachine.FaultReset` | src/dryve_d1/cia402/state_machine.py:146-182 | the reset words are written, all or none on success, only after a statusword with a fault and REMOTE was read, and not written on success only after one without a fault; a reset that returns after writing has read one of the four states it waits for; on the simulator a fault is always removed, and without a fault nothing is written |
| `StateMachine.CiA402StateMachine.ReachReady` | src/dryve_d1/cia402/state_machine.py:203-212 | writes one shutdown word exactly from SWITCH_ON_DISABLED; on the simulator this reaches READY_TO_SWITCH_ON unless in an emergency |
| `StateMachine.CiA402StateMachine.LeaveReady` | src/dryve_d1/cia402/state_machine.py:214-216 | writes one switch-on word exactly from READY_TO_SWITCH_ON; on the simulator this reaches SWITCHED_ON unless in an emergency |
| `StateMachine.CiA402StateMachine.EnableFrom` | src/dryve_d1/cia402/state_machine.py:218-231 | writes the enabling word once, after shutdown and switch on when leaving a quick stop, and nothing in any other state |
| `StateMachine.CiA402StateMachine.RunFromReady` | src/dryve_d1/cia402/state_machine.py:214-231 | a drive found ready or further is enabled, by 0x0007 exactly when bits 0, 1, 2 and 6 read as ready, and by the restart exactly when they read as a quick stop; a state the code has no branch for, such as SWITCH_ON_DISABLED after the not-ready wait, is refused without a write |
| `StateMachine.CiA402StateMachine.RunToOperationEnabled` | src/dryve_d1/cia402/state_machine.py:187-231 | against any drive: a normal return means that no access was lost and that a statusword with bits 0, 1, 2 and 5 set and bits 3 and 6 clear was read after the last word, 0x000F; each step before it was taken exactly when the statusword read right before shows it by its bits: reset on bit 3, 0x0006 on bit 6 alone, 0x0007 on bit 0 alone, the restart (0x0006, 0x0007, 0x000F) on bits 0, 1 and 2 with bit 5 clear, and from a drive that is not ready a wait that ended with the first statusword that is ready or disabled; only acceptable statuswords were acted on and no word had bit 4; a refusal, like every other failure, follows from the last event; after a timeout the trace ends with a wait that began right after the last word written, or right after the first not-ready statusword of the not-ready wait, which fix its desired states and its time limit, in which nothing was written, no desired state was read, and the last poll began at or after the deadline; on the simulator with the emergency off it succeeds from every state, faults included, by exactly the path the state asks for, and turns no motion flag on; with the emergency on it succeeds if and only if the drive was already enabled and fault-free |
| `Pursuit.TicksKeepPursuing` | simulator.py:387-423 | a move under way stays under way or landed through any ticks, and bit 10 is set only on the target |
| `Pursuit.EdgeStartsPursuit` | simulator.py:247-310 | the rising edge captures the set-point, acknowledges it and clears bit 10 at once |
| `Pursuit.EdgeCapturesGoal` | simulator.py:480-496 | the goal captured at the rising edge is the target position, or that many units from the present one when bit 6 is set, brought between the limits |
| `Pursuit.StopBeatsMove` | simulator.py:247-310 | when another task's stop lands after the rising edge, nothing a move still writes restarts the axis |
| `Pursuit.LatchedSetPointBlocksNextStart` | src/dryve_d1/motion/profile_position.py:187-210 | while bit 4 is latched the set word of the next move starts nothing |
| `Chase.RaiseSetPoint` | src/dryve_d1/motion/profile_position.py:198-204 | the set word, written to a poised simulator in position mode, puts it under way and acknowledged |
| `Chase.ReleaseSetPoint` | src/dryve_d1/motion/profile_position.py:205-209 | the clear word lets a move run on |
| `Chase.PollStatus` | src/dryve_d1/motion/profile_position.py:275-300 | on a simulator under way a statusword shows no fault, shows bit 10 only on the target, and acknowledges while bit 4 is held |
| `Preparation.WriteParameter` | src/dryve_d1/motion/profile_position.py:124-134 | a parameter write is logged, is refused exactly when the value does not fit, and leaves a poised drive poised with the new value |
| `Preparation.AwaitMode` | src/dryve_d1/motion/profile_position.py:81-122 | the display is polled, at least one poll interval apart, until it shows the mode, a read is lost, or a poll that shows another mode is followed by a look at the clock at or after the timeout; on the simulator the first poll shows it |
| `Preparation.WriteProfile` | src/dryve_d1/motion/profile_position.py:124-134 | writes exactly what the profile sets, in order; on the simulator it fails exactly when one of the values does not fit |
| `Preparation.ArgumentsGoFirst` | src/dryve_d1/motion/profile_position.py:124-134 | each profile parameter is written as the call gives it, or else as it is configured, or not at all, to 0x6081, 0x6083 and 0x6084 in this order |
| `Preparation.Barrier` | src/dryve_d1/motion/profile_position.py:165-172 | success means a statusword was read and at least one drive cycle passed, failure that this read was lost; a poised drive stays poised |
| `ProfilePosition.ProfilePosition.SetDrivePositionWindow` | src/dryve_d1/motion/profile_position.py:62-68 | only a positive window is kept |
| `ProfilePosition.ProfilePosition.ReachedWindow` | src/dryve_d1/motion/profile_position.py:70-79 | never tighter than the configured window nor than the drive's, and always one of the two |
| `ProfilePosition.ProfilePosition.EnsureMode` | src/dryve_d1/motion/profile_position.py:81-122 | writes 0x6060 = 1 once; with verification on, success means the display was read as 1 last, and failure that it showed another mode until the time was over, or that a read was lost; with it off, neither a wrong nor an unreadable display makes it fail |
| `ProfilePosition.ProfilePosition.Configure` | src/dryve_d1/motion/profile_position.py:124-134 | writes exactly the given parameters, completed from the configuration, in order, none of them lost; on the simulator it fails exactly when one of them does not fit |
| `ProfilePosition.ProfilePosition.Prepare` | src/dryve_d1/motion/profile_position.py:136-186 | mode, configuration and target are written in this order and none of them is lost, with the settling time and one drive cycle after them, and a poised simulator is then ready for the rising edge; a failure is a value that does not fit, a lost access, or, with verification on, a mode that was not shown in its time |
| `ProfilePosition.ProfilePosition.WaitSetpointAck` | src/dryve_d1/motion/profile_position.py:275-323 | returns only after a statusword with bit 12 set or bit 10 clear was read, writing nothing; NotAcknowledged means that the wait began with a look at the clock, that no poll since then was an answer or showed a fault, and that the clock, looked at after the last of them, showed the start plus the timeout or more, as no look before it did; a fault means bit 3 on a statusword that is no answer; polls are at least one interval apart; on the simulator the first poll succeeds |
| `ProfilePosition.ProfilePosition.WaitTargetReached` | src/dryve_d1/motion/profile_position.py:325-401 | returns only after bit 10 and then a position within the window were read; MoveTimeout means that the wait began with a look at the clock, that no round since then completed the move, showed bit 3 or saw the abort, and that the last round looked at the clock at or after the start plus the timeout and then read a statusword that did not complete the move, while every round before it looked earlier; rounds are at least one interval apart; on the simulator it returns only on the target |
| `ProfilePosition.ProfilePosition.Handshake` | src/dryve_d1/motion/profile_position.py:198-210 | after the set word the clear word is always written, unless the write of the set word itself raised; success means edge, acknowledge and release in this order, and failure is a lost word or that of the acknowledge wait, which lasts the configured time |
| `ProfilePosition.ProfilePosition.MoveTo` | src/dryve_d1/motion/profile_position.py:136-210 | against any drive: exactly the preparation was written before the set word and none of it was lost, the last read before the set word being the barrier, a normal return means an acknowledge between set and clear word, then bit 10, then a position within the larger window, and every exit after the set word has the clear word after it; a timeout comes only from a round that looked at the clock when the given time, or else the configured one, had passed since the wait began after the clear word, and read a statusword that did not complete the move; NotAcknowledged likewise with the acknowledge timeout; every other failure names its event; on the simulator, poised and alone, under every tick interleaving: a normal return means the position equals the target, the acknowledge came with the first poll, and the only failures are timeout, abort and parameters that do not fit |
| `ProfilePosition.ProfilePosition.MoveToPosition` | src/dryve_d1/motion/profile_position.py:212-240 | everything stated of the move, the writes, the clear word on every exit, how each timeout comes about and the exact failures included, with the words 0x3F and 0x2F and the caller's parameters; the configuration is restored on every exit |
| `ProfilePosition.ProfilePosition.Halt` | src/dryve_d1/motion/profile_position.py:242-257 | writes HALT with the hold bits, 0x010F, or 0x000F; success means it was acknowledged, failure that it was lost; on the simulator everything is at rest afterwards |
| `ProfilePosition.StoppedMove` | src/dryve_d1/motion/profile_position.py:202-210 | if another task's stop lands after the rising edge, the axis stays where the stop found it, and a move that still returns normally read a position within its window there |
| `Seeking.EdgeStartsSeeking` | simulator.py:498-513 | the start edge forgets an earlier homing before anybody can look |
| `Seeking.EdgeFixesTime` | simulator.py:498-513 | the start edge fixes that time by the way to zero and object 0x6081 |
| `Seeking.TicksKeepSeeking` | simulator.py:355-385 | a homing run stays under way or home through any ticks |
| `Seeking.TickEndsHoming` | simulator.py:355-385 | a tick ends a homing run exactly when the time fixed at its start edge has passed |
| `Seeking.HomingEnds` | simulator.py:355-385 | every homing run ends: one tick at least 1.5 s after the start is enough, whatever the ticks before it did |
| `Seeking.SeekingReports` | simulator.py:554-563 | bit 12 of a homing drive is set if and only if it is home at zero, and bit 13 is clear |
| `Homing.Homing.EnsureMode` | src/dryve_d1/motion/homing.py:63-74 | writes 0x6060 = 6 once; with verification on, success means the display was read as 6 last, failure that it showed another mode until the time was over, or that a read was lost |
| `Homing.Homing.Configure` | src/dryve_d1/motion/homing.py:76-92 | writes exactly the given parameters, completed from the configuration, to their sub-indices in order, none of them lost; the method is masked to a byte and skipped when so configured |
| `Homing.ArgumentsGoFirst` | src/dryve_d1/motion/homing.py:76-92 | the same for the homing method, masked to a byte or skipped, and for 0x6099:1, 0x6099:2 and 0x609A |
| `Homing.Homing.Start` | src/dryve_d1/motion/homing.py:94-119 | success means both words of the pulse were acknowledged, in order; only the set word was written exactly when its write was lost, the pulse failed after both words exactly when the clear word was lost, and no word was written exactly when the barrier read was lost |
| `Homing.Homing.WaitDone` | src/dryve_d1/motion/homing.py:138-156 | the result repeats bits 12 and 13 of the last statusword read, one of which was set; HomingTimeout means that every statusword since the wait began had both clear and that the last round looked at the clock at or after the given time, or else the configured one, and no round before it did; rounds are at least one interval apart; nothing is written |
| `Homing.Homing.Run` | src/dryve_d1/motion/homing.py:121-136 | against any drive: exactly the configuration was written before the start pulse and none of it was lost, and the result comes from a statusword read after it; only the set word was written exactly when the run ended with its loss, and with both words written both were acknowledged in order unless the run ended with the loss of the clear word; a timeout is that of the wait after the pulse; on the simulator, poised, with zero between the limits: a normal return means attained, no error, position 0, also when bit 12 was left over from an earlier homing |
| `Turning.TicksTurn` | simulator.py:425-436 | over any ticks an axis in velocity mode stays inside the limits and never moves against its velocity |
| `Turning.TicksStand` | simulator.py:425-442 | with target velocity 0 in velocity mode the axis stays where it is through any ticks, although its motion flag may stay set |
| `Turning.EdgeTakesVelocity` | simulator.py:466-478 | the rising edge makes the axis turn with the target velocity, or stand when it is 0 |
| `ProfileVelocity.ProfileVelocity.EnsureMode` | src/dryve_d1/motion/profile_velocity.py:60-78 | writes 0x6060 = 3 once; with verification on, success means the display was read as 3 last, one poll interval or more after the write, failure that it showed another mode until the time was over, or that a read was lost; with it off it only waits the settling time; an enabled simulator is then in velocity mode |
| `ProfileVelocity.ProfileVelocity.Configure` | src/dryve_d1/motion/profile_velocity.py:80-90 | writes exactly the given parameters, completed from the configuration, in order, none of them lost |
| `ProfileVelocity.ArgumentsGoFirst` | src/dryve_d1/motion/profile_velocity.py:80-90 | the same for 0x6083, 0x6084 and 0x6085 |
| `ProfileVelocity.ProfileVelocity.SetTargetVelocity` | src/dryve_d1/motion/profile_velocity.py:92-95 | writes the velocity, refused exactly when it is no INT32; 0 stands a simulator in velocity mode still for good |
| `ProfileVelocity.ProfileVelocity.LatchNewSetpoint` | src/dryve_d1/motion/profile_velocity.py:97-103 | writes 0x1F then 0x0F; only 0x1F was written exactly when it was lost, and it failed after both exactly when 0x0F was lost; a simulator in velocity mode then follows the target velocity it had, with bit 4 low again |
| `ProfileVelocity.ProfileVelocity.Stop` | src/dryve_d1/motion/profile_velocity.py:105-121 | writes target velocity 0 and no controlword; success means it was acknowledged, failure that it was lost; a simulator in velocity mode stands |
| `ProfileVelocity.ProfileVelocity.Halt` | src/dryve_d1/motion/profile_velocity.py:123-139 | writes one word with or without HALT, acknowledged on success and lost on failure; nothing is written exactly when an abort was polled and seen |
| `StopCommand.MotionCommands.HaltMotor` | src/dryve_d1/api/motion_commands.py:168-183 | one HALT, or two when the first was lost; success means the last one was acknowledged, failure that it was lost; nothing else was lost |
| `StopCommand.MotionCommands.Decide` | src/dryve_d1/api/motion_commands.py:147-157 | a normal stop looks at the mode display and chooses as the display says: 1 with the position helper, one more 0x010F and no parameter; 3 with the velocity helper, 0x60FF = 0 and no word; else 0x000B; a quick stop never reads the display and chooses 0x000B |
| `StopCommand.MotionCommands.SecondStop` | src/dryve_d1/api/motion_commands.py:147-161 | what it writes is fixed by the mode display it has read: 1 with the position helper, one 0x010F and no parameter; 3 with the velocity helper, 0x60FF = 0 and no word; every other display, and every quick stop, 0x000B and no parameter; completion means that nothing was lost; it writes nothing only after a lost read; on the simulator it fails exactly when the mode cannot be read |
| `StopCommand.MotionCommands.BestEffort` | src/dryve_d1/api/motion_commands.py:137-161 | after HALT the axis is stopped a second time, with the words and the parameter that the mode display read on the way calls for (0x010F on 1, 0x60FF = 0 on 3, else and for a quick stop 0x000B); nothing is written exactly when neither bit 2 nor bit 5 is shown, no machine is connected, or a read was lost; completion means that nothing was lost, and a failed access is the last event; on the simulator the outcome follows from state, mode and what is connected |
| `StopCommand.MotionCommands.ExecuteStop` | src/dryve_d1/api/motion_commands.py:121-166 | never raises, sets the abort flag and changes the token, writes 0x010F first, twice only after a loss, and never a word with bit 4; what it writes after that is fixed by the mode display it has read as for the best-effort part: one more 0x010F, 0x60FF = 0, or 0x000B; completion means that nothing but a HALT was lost; on the simulator the axis is at rest where HALT found it, although other tasks go on writing words without bit 4 |
| `StopCommand.HaltHolds` | src/dryve_d1/api/motion_commands.py:168-183 | an acknowledged HALT followed by quiet events only leaves the axis at rest where it was |
| `PositionLimits.TwoWrites` | simulator.py:652-662 | two limit writes with any ticks between them end in the new limits with the axis inside; with none, in one clamp of the old position |
| `PositionLimits.StatusQueries.SetPositionLimits` | src/dryve_d1/api/status_queries.py:192-210 | refuses min >= max without a write; success means the trace grew by exactly the acknowledged write of min, then that of max, and what happened before and between them; on the simulator exactly these limits are then in force with the axis inside, and without a step between the writes the axis is clamped once; an upper limit beyond INT32 is refused only after the lower one was written |
| `PositionLimits.StatusQueries.GetPositionLimits` | src/dryve_d1/api/status_queries.py:212-218 | reads back the limits in force, lower one first |
| `PackagedPosition.ProfilePosition.WaitStartAck` | packages/cia402/src/cia402/motion/profile_position.py:219-257 | true only after bit 12 set or bit 10 clear was read, or when for 0.5 s no poll did and then the commanded and the actual position were read no more than 250 apart; false when these are further apart |
| `PackagedPosition.ProfilePosition.WaitTargetReached` | packages/cia402/src/cia402/motion/profile_position.py:259-331 | without an acknowledge bit 10 has to be read clear first; returns only on a statusword with bit 10; MoveTimeout means that the last round of one of the two parts looked at the clock when the given time had passed since the wait began, and that neither it nor an earlier round had what it waited for, a fault, or the abort |
| `PackagedPosition.ProfilePosition.Pulse` | packages/cia402/src/cia402/motion/profile_position.py:133-141 | only the set word was written exactly when its write was lost, and the pulse failed after both words exactly when the clear word was lost; otherwise both were acknowledged in order, at least one drive cycle apart |
| `PackagedPosition.ProfilePosition.MoveTo` | packages/cia402/src/cia402/motion/profile_position.py:84-154 | against any drive: none of the preparation was lost; after the whole pulse comes evidence of the start, then a statusword with bit 10; only the set word was written exactly when its write was lost, and with both words written the pulse was acknowledged unless the move ended with the loss of the clear word; a timeout comes only from a round that looked at the clock when the given time, or else the configured one, had passed; on the simulator, poised and alone, a normal return means the position equals the target |
| `TransactionIds.TransactionIdGenerator.Next` | src/dryve_d1/transport/session.py:38-44 | hands out the current id and steps to the next on the circle 1..max |
| `TransactionIds.TransactionIdGenerator.Align` | src/dryve_d1/transport/session.py:46-51 | moves to the given value on the circle 1..max |
| `TransactionIds.IssuedInRange` | src/dryve_d1/transport/session.py:33-51 | for any max >= 1 and any history of calls every id lies in 1..max |
| `TransactionIds.FullRow` | src/dryve_d1/transport/session.py:38-44 | max consecutive calls without an alignment return pairwise distinct ids and restore the generator |
| `TransactionIds.RowIsDistinct` | src/dryve_d1/transport/session.py:38-44 | any two calls less than max apart in an undisturbed row return different ids |
| `Transport.StepKeepsInv` | src/dryve_d1/transport/session.py:161-272 | every step of a caller, the keepalive thread, the server and close keeps the invariant: outside a caller's gap between failure and close, an open socket owes at most the one reply the holder of the lock is waiting for |
| `Transport.OneCallerGetsItsOwnReply` | src/dryve_d1/transport/session.py:161-203 | with one caller and the keepalive thread, over every interleaving, the bytes returned are the server's reply to the exchange of that very request, and there are at most max_attempts exchanges, or one when max_attempts is less |
| `Transport.GivesUpOnlyWhenSpent` | src/dryve_d1/transport/retry.py:52-61 | over every run a call raises for want of retries only when the session was closed, the call had a deadline, or it has made max_attempts attempts, or one when max_attempts is less |
| `Transport.BudgetIsAvailable` | src/dryve_d1/transport/retry.py:52-57 | for every budget and every list of fewer mishaps than it allows attempts, each a refused connection, a send cut short or a late or torn reply, a concrete run in which one attempt after another fails so and the next one returns the server's reply to that very exchange; when every mishap came to an exchange, the k-th exchange is the one that returns |
| `Transport.BudgetIsSpent` | src/dryve_d1/transport/retry.py:52-57 | for every list of as many mishaps as the budget allows attempts, a concrete run in which all attempts fail so, after which no retry is left |
| `Transport.MissingKeepaliveRaises` | src/dryve_d1/transport/session.py:112-130 | a keepalive thread that cannot be started makes the call raise at once, without a retry and with the connection left open |
| `Transport.CloseHoldsUntilReopened` | src/dryve_d1/transport/session.py:132-139 | after a close and until another, no call retries, a failed one can only give up and the keepalive does not start again, exactly as long as no call opens a new connection in a session with a keepalive thread |
| `Transport.WaitingCallUndoesClose` | src/dryve_d1/transport/session.py:112-139 | a concrete run in which a call that waits for the lock during the close opens a new connection, which stays open, and the keepalive can start again |
| `Transport.NoBudgetStillTries` | src/dryve_d1/transport/retry.py:52-57 | a concrete run in which a caller with no or a negative budget makes one exchange, after whose failure it can only give up |
| `Transport.StaleRepliesAreRefused` | src/dryve_d1/transport/session.py:161-203 | with several callers, a whole reply to another exchange is refused by strict decoding unless the two transaction ids are equal |
| `Transport.ForeignReplyNeedsGap` | src/dryve_d1/transport/session.py:194-203 | a caller can be about to take a foreign reply only while another is between its failure and its close |
| `Transport.GapHandsOverAForeignReply` | src/dryve_d1/transport/session.py:194-203 | a concrete interleaving of two callers in which this happens, the reply being whole, or the rest of one read in part |
| `Jogging.ActiveIsGuarded` | src/dryve_d1/motion/jog.py:182-220 | in every reachable state an active jog has a watchdog that is neither over nor cancelled if and only if no watchdog's abort stop has raised since the last successful press or stop; without a raising write, always; an unguarded jog has no such watchdog at all, and a guarded one has no second |
| `Jogging.CachedVelocityIsTrue` | src/dryve_d1/motion/jog.py:89-177 | while no write has raised, whenever the lock is free the cached velocity equals the register, which an inactive jog leaves at 0 |
| `Jogging.StateIsLastAsked` | src/dryve_d1/motion/jog.py:119-141 | over every run the velocity of an active jog is that of the last press or refresh that came back, and its deadline the time it came back plus its time to live, both computed from the list of steps |
| `Jogging.ActiveNoLongerThan` | src/dryve_d1/motion/jog.py:187-220 | with instantaneous accesses none of which raises, a jog is active at most for the time to live of the last press or refresh, counted from when it came back, plus one watch interval |
| `Jogging.StopsNoEarlier` | src/dryve_d1/motion/jog.py:149-158 | no step ends a jog before the time to live of the last press or refresh that came back has passed, unless it was released, closed or aborted |
| `Jogging.PressTakesEffect` | src/dryve_d1/motion/jog.py:88-117 | a press checks the drive if configured, sets the mode if it is not known to be set, writes the velocity and latches it; the jog is then active with this velocity for the time to live, and watched |
| `Jogging.InvalidationForcesMode` | src/dryve_d1/motion/jog.py:160-167 | the first press after the mode was invalidated sets it anew |
| `Jogging.FailedAccessKeepsJog` | src/dryve_d1/motion/jog.py:88-147 | an access that raises ends the call with the lock free and the jog as it was, deadline and mode included; the register has changed only if the access had its effect |
| `Jogging.FailedAccessMovesWatchdog` | src/dryve_d1/motion/jog.py:187-220 | a watchdog goes on after a tick that raised while the jog is active, is over after an abort that raised, and every other watchdog stays as it was |
| `Jogging.RefreshTakesEffect` | src/dryve_d1/motion/jog.py:119-141 | a refresh counts the time to live of an active jog from now, and writes and latches the velocity exactly when it is a new one; an inactive jog stays as it is |
| `Jogging.ReleaseTakesEffect` | src/dryve_d1/motion/jog.py:143-147 | a release ends an active jog with velocity 0 in the register, and leaves an inactive one alone |
| `Jogging.CloseTakesEffect` | src/dryve_d1/motion/jog.py:169-177 | a close ends the jog likewise, forgets the mode, and cancels the watchdog |
| `Jogging.TickTakesEffect` | src/dryve_d1/motion/jog.py:149-158 | a watchdog tick ends an active jog exactly when its deadline has come |
| `Jogging.AbortTakesEffect` | src/dryve_d1/motion/jog.py:194-203 | a watchdog that wakes up and sees the abort ends an active jog, expired or not, and itself |
| `Jogging.RaisingAbortLeavesJogUnguarded` | src/dryve_d1/motion/jog.py:194-203 | a concrete run in which the raising abort stop leaves the jog active without a watchdog |
| `Jogging.UnguardedStays` | src/dryve_d1/motion/jog.py:119-141 | while nobody presses, releases, closes or ticks the jog from outside, refreshes with or without a new velocity, succeeding or raising, bring no watchdog back: such a jog stays active and unguarded however much time passes |

## Left out

- Sockets, the HTTP and event-stream server, client registry, logging, environment variables and configuration models: timeouts, windows and strictness flags are parameters.
- `asyncio` cancellation of driver calls and thread internals: an access is one step, and a task's last check and its end are one step.
- Floating-point time: clock readings are integer microseconds, the homing duration is floored to one, and sleeping takes at least one unit. Back-off delays and their jitter (`src/dryve_d1/transport/retry.py:30-66`) are arbitrary pauses.
- The session and the jog controller as classes: threads and tasks interleave inside their methods, so both are step machines on values; update in place is not captured there.
- Fields of `FakeDriveState` that nothing reads back (`_pp_relative`, `_pp_start_pos`, `_pp_started_at`); fields always written together share one record field.
- A simulated fault has no cause in the simulator; `FaultInjected` stands for one in the runs of `DriveSpec`, and the closed-loop theorems start from drives with or without a fault but inject none on the way.
- Exceptions are told apart as far as the driver handles them differently; `AccessFailed` stands for all transport and protocol errors of one access.
- The message texts of timeouts; the reads that go into them are modelled.
- Completion of relative moves: the code compares the actual position with the offset.
- A stop that lands before the rising edge of a move: the code gives no guarantee.
- Telemetry cache, `is_moving`, idle shutdown, connecting and closing the facade, fault diagnostics, `disable_voltage`, `fault_reset` with recovery: easy facts or no motion. The cached status that a stop may use is an arbitrary statusword.
- The random abort token of a stop is a counter; only that it changes matters.
- `on_reconnect` callbacks, and the moments inside `close`, which is one step of `Transport`.
- The rate limiter of protocol warnings, and transaction-id alignment inside the session steps: alignment is a call of `TransactionIds`.
- The other copies of driver, protocol and simulator under `packages/`, which repeat the modelled code.
- Transport.StaleRepliesAreRefused: says nothing about the rest of a reply that was read in part, which another caller could receive in the gap, because such bytes can be anything.
- Jogging.ActiveNoLongerThan: assumes that accesses take no time and that tasks run when they are due, because no bound holds otherwise.
