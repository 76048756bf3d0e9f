/** The jog controller of src/dryve_d1/motion/jog.py as atomic steps between awaits: callers that
    hold the lock one at a time, watchdog tasks, the target-velocity register and the clock. */
module Jogging {
  import opened Prelude

  datatype JogConfig = JogConfig(watchInterval: nat, stopByHalt: bool, requireEnabled: bool)

  datatype JogState = JogState(active: bool, velocity: int, lastUpdate: int, deadline: int)

  /** A watchdog task is new, asleep until a time, waiting for the lock, or over. */
  datatype Watch = New | Sleeping(wakeAt: int) | WantsTick | WantsAbort | Over

  datatype Dog = Dog(watch: Watch, cancelled: bool)

  /** Who holds the lock, and for what. */
  datatype Job =
    | Press(velocity: int, ttl: int)
    | Refresh(velocity: int, ttl: int)
    | Release
    | CallerTick
    | Close
    | DogTick(dog: nat)
    | DogAbort(dog: nat)
  {
    predicate Starts() {
      Press? || Refresh?
    }

    predicate Expires() {
      CallerTick? || DogTick?
    }
  }

  /** The access the holder of the lock awaits. */
  datatype Stage = Checking | SettingMode | SettingVelocity | Latching | Halting | Zeroing | Unhalting

  datatype Holder = Free | Busy(job: Job, stage: Stage)

  datatype Jog = Jog(
    state: JogState,
    modeReady: bool,
    current: Option<nat>,
    dogs: seq<Dog>,
    holder: Holder,
    register: int,
    now: int,
    orphaned: bool,
    clean: bool
  )

  /** An awaited access succeeds, raises without effect, or raises although it had its effect. */
  datatype Io = Fine | Lost | Unacknowledged

  datatype Action =
    | BeginPress(velocity: int, ttl: int)
    | BeginRefresh(newVelocity: Option<int>, ttl: int)
    | BeginRelease
    | BeginTick
    | BeginClose
    | InvalidateMode
    | Continue(io: Io)
    | DogStarts(k: nat)
    | DogWakes(k: nat, abort: bool)
    | DogAcquires(k: nat)
    | DogDies(k: nat)
    | Advance(to: int)

  // ------------------------------------------------------------ steps

  predicate Awake(s: Jog, k: nat) {
    k < |s.dogs| && !s.dogs[k].cancelled
  }

  predicate Enabled(s: Jog, a: Action) {
    match a
    case Continue(io) => s.holder.Busy?
    case DogStarts(k) => Awake(s, k) && s.dogs[k].watch.New?
    case DogWakes(k, abort) => Awake(s, k) && s.dogs[k].watch.Sleeping? && s.now >= s.dogs[k].watch.wakeAt
    case DogAcquires(k) => Awake(s, k) && (s.dogs[k].watch.WantsTick? || s.dogs[k].watch.WantsAbort?) && s.holder.Free?
    case DogDies(k) => k < |s.dogs| && s.dogs[k].cancelled
    case Advance(to) => to >= s.now
    case _ => s.holder.Free?
  }

  function SetDog(s: Jog, k: nat, watch: Watch): Jog {
    if k < |s.dogs| then s.(dogs := s.dogs[k := s.dogs[k].(watch := watch)]) else s
  }

  /** The head of the watchdog's loop. */
  function LoopHead(s: Jog, c: JogConfig, k: nat): Jog {
    SetDog(s, k, if s.state.active then Sleeping(s.now + c.watchInterval) else Over)
  }

  /** A watchdog exists: the current one unless it is over. */
  function EnsureWatchdog(s: Jog): Jog {
    if s.current.Some? && s.current.value < |s.dogs| && !s.dogs[s.current.value].watch.Over? then s
    else s.(dogs := s.dogs + [Dog(New, false)], current := Some(|s.dogs|))
  }

  function Unlocked(s: Jog): Jog {
    s.(holder := Free)
  }

  /** `close` cancels the current watchdog and forgets it. */
  function Dismissed(s: Jog): Jog {
    if s.current.Some? && s.current.value < |s.dogs|
    then s.(dogs := s.dogs[s.current.value := s.dogs[s.current.value].(cancelled := true)], current := None)
    else s.(current := None)
  }

  /** The normal end of a stopping job: the lock is released and the task goes on. */
  function Finish(s: Jog, c: JogConfig, job: Job): Jog {
    match job
    case Close => Dismissed(Unlocked(s).(modeReady := false))
    case DogTick(k) => LoopHead(Unlocked(s), c, k)
    case DogAbort(k) => SetDog(Unlocked(s), k, Over)
    case _ => Unlocked(s)
  }

  /** The awaited access raises: only a watchdog's tick catches that, and an abort ends its task. */
  function Raise(s: Jog, c: JogConfig, job: Job): Jog {
    match job
    case DogTick(k) => LoopHead(Unlocked(s), c, k)
    case DogAbort(k) => SetDog(Unlocked(s).(orphaned := true), k, Over)
    case _ => Unlocked(s)
  }

  function BeginStop(s: Jog, c: JogConfig, job: Job): Jog {
    if !s.state.active || (job.Expires() && s.now < s.state.deadline) then Finish(s, c, job)
    else s.(holder := Busy(job, if c.stopByHalt then Halting else Zeroing))
  }

  function Stopped(s: Jog, c: JogConfig, job: Job): Jog {
    Finish(s.(state := JogState(false, 0, s.now, s.now), orphaned := false), c, job)
  }

  function Commit(s: Jog, velocity: int, ttl: int): Jog {
    Unlocked(s.(state := JogState(true, velocity, s.now, s.now + ttl)))
  }

  /** A press sets the state and looks after the watchdog; a refresh only sets the state. */
  function Started(s: Jog, job: Job): Jog
    requires job.Starts()
  {
    if job.Press? then EnsureWatchdog(Commit(s, job.velocity, job.ttl)).(orphaned := false)
    else Commit(s, job.velocity, job.ttl)
  }

  function AfterCheck(s: Jog, job: Job): Jog {
    s.(holder := Busy(job, if s.modeReady then SettingVelocity else SettingMode))
  }

  function Move(s: Jog, job: Job, stage: Stage): Jog {
    s.(holder := Busy(job, stage))
  }

  /** What the register holds once the access of this stage has had its effect. */
  function Written(s: Jog, job: Job, stage: Stage): Jog {
    if stage.SettingVelocity? && job.Starts() then s.(register := job.velocity)
    else if stage.Zeroing? then s.(register := 0)
    else s
  }

  /** A write has raised; the check before a press only reads. */
  function Spoiled(s: Jog, stage: Stage): Jog {
    s.(clean := s.clean && stage.Checking?)
  }

  /** The holder's access has succeeded. */
  function Proceed(s: Jog, c: JogConfig, job: Job, stage: Stage): Jog {
    match stage
    case Checking => AfterCheck(s, job)
    case SettingMode => Move(s.(modeReady := true), job, SettingVelocity)
    case SettingVelocity => Move(s, job, Latching)
    case Latching => if job.Starts() then Started(s, job) else Unlocked(s)
    case Halting => Move(s, job, Zeroing)
    case Zeroing => if c.stopByHalt then Move(s, job, Unhalting) else Stopped(s, c, job)
    case Unhalting => Stopped(s, c, job)
  }

  function Answer(s: Jog, c: JogConfig, io: Io): Jog
    requires s.holder.Busy?
  {
    var job, stage := s.holder.job, s.holder.stage;
    match io
    case Fine => Proceed(Written(s, job, stage), c, job, stage)
    case Lost => Raise(Spoiled(s, stage), c, job)
    case Unacknowledged => Raise(Spoiled(Written(s, job, stage), stage), c, job)
  }

  function Do(s: Jog, c: JogConfig, a: Action): Jog
    requires Enabled(s, a)
  {
    match a
    case BeginPress(velocity, ttl) =>
      if c.requireEnabled then Move(s, Press(velocity, ttl), Checking) else AfterCheck(s, Press(velocity, ttl))
    case BeginRefresh(newVelocity, ttl) =>
      if !s.state.active then s
      else if newVelocity.Some? && newVelocity.value != s.state.velocity
      then Move(s, Refresh(newVelocity.value, ttl), SettingVelocity)
      else Commit(s, s.state.velocity, ttl)
    case BeginRelease => BeginStop(s, c, Release)
    case BeginTick => BeginStop(s, c, CallerTick)
    case BeginClose => BeginStop(s, c, Close)
    case InvalidateMode => s.(modeReady := false)
    case Continue(io) => Answer(s, c, io)
    case DogStarts(k) => LoopHead(s, c, k)
    case DogWakes(k, abort) => SetDog(s, k, if abort then WantsAbort else if s.state.active then WantsTick else Over)
    case DogAcquires(k) => BeginStop(s, c, if s.dogs[k].watch.WantsTick? then DogTick(k) else DogAbort(k))
    case DogDies(k) => SetDog(s, k, Over)
    case Advance(to) => s.(now := to)
  }

  function Initial(now: int): Jog {
    Jog(JogState(false, 0, 0, 0), false, None, [], Free, 0, now, false, true)
  }

  predicate Legal(s: Jog, c: JogConfig, actions: seq<Action>)
    decreases |actions|
  {
    actions == [] || (Enabled(s, actions[0]) && Legal(Do(s, c, actions[0]), c, actions[1..]))
  }

  function Run(s: Jog, c: JogConfig, actions: seq<Action>): Jog
    requires Legal(s, c, actions)
    decreases |actions|
  {
    if actions == [] then s else Run(Do(s, c, actions[0]), c, actions[1..])
  }

  // ------------------------------------------------------------ a live watchdog

  predicate Live(d: Dog) {
    !d.watch.Over? && !d.cancelled
  }

  predicate Guarded(s: Jog) {
    s.current.Some? && s.current.value < |s.dogs| && Live(s.dogs[s.current.value])
  }

  /** A watchdog that holds the lock has not been cancelled. */
  predicate OwnDogFits(s: Jog, job: Job) {
    match job
    case DogTick(k) => Awake(s, k)
    case DogAbort(k) => Awake(s, k)
    case _ => true
  }

  predicate Stops(stage: Stage) {
    stage.Halting? || stage.Zeroing? || stage.Unhalting?
  }

  /** Each job is at one of its own stages; a stopping job found the jog active, and a tick
      found it expired. */
  predicate JobFits(s: Jog, job: Job, stage: Stage) {
    if job.Press? then !Stops(stage)
    else if job.Refresh? then s.state.active && (stage.SettingVelocity? || stage.Latching?)
    else s.state.active && Stops(stage) && (job.Expires() ==> s.now >= s.state.deadline) && OwnDogFits(s, job)
  }

  predicate Inv(s: Jog) {
    && (s.state.active && !s.orphaned ==> Guarded(s))
    && (s.current.Some? ==> s.current.value < |s.dogs| && !s.dogs[s.current.value].cancelled)
    && (s.holder.Busy? ==> JobFits(s, s.holder.job, s.holder.stage))
    && (s.orphaned ==> !s.clean)
  }

  lemma FinishKeepsInv(s: Jog, c: JogConfig, job: Job)
    requires Inv(s) && !job.Starts() && (s.state.active ==> !job.DogAbort?) && OwnDogFits(s, job)
    requires job.Close? ==> !s.state.active
    ensures Inv(Finish(s, c, job))
  {
  }

  lemma RaiseKeepsInv(s: Jog, c: JogConfig)
    requires Inv(s) && s.holder.Busy? && (s.holder.job.DogAbort? ==> !s.clean)
    ensures Inv(Raise(s, c, s.holder.job))
  {
  }

  lemma StartedKeepsInv(s: Jog, job: Job)
    requires Inv(s) && job.Starts() && (job.Refresh? ==> s.state.active)
    ensures Inv(Started(s, job))
  {
  }

  lemma BeginStopKeepsInv(s: Jog, c: JogConfig, job: Job)
    requires Inv(s) && s.holder.Free? && !job.Starts() && OwnDogFits(s, job)
    ensures Inv(BeginStop(s, c, job))
  {
    if !s.state.active || (job.Expires() && s.now < s.state.deadline) {
      FinishKeepsInv(s, c, job);
    }
  }

  lemma ProceedKeepsInv(s: Jog, c: JogConfig)
    requires Inv(s) && s.holder.Busy?
    ensures Inv(Proceed(s, c, s.holder.job, s.holder.stage))
  {
    var job, stage := s.holder.job, s.holder.stage;
    if stage.Latching? {
      StartedKeepsInv(s, job);
    } else if stage.Unhalting? || (stage.Zeroing? && !c.stopByHalt) {
      FinishKeepsInv(s.(state := JogState(false, 0, s.now, s.now), orphaned := false, holder := Free), c, job);
    }
  }

  lemma AnswerKeepsInv(s: Jog, c: JogConfig, io: Io)
    requires Inv(s) && s.holder.Busy?
    ensures Inv(Answer(s, c, io))
  {
    var written := Written(s, s.holder.job, s.holder.stage);
    assert Inv(written);
    match io
    case Fine => ProceedKeepsInv(written, c);
    case Lost => RaiseKeepsInv(Spoiled(s, s.holder.stage), c);
    case Unacknowledged => RaiseKeepsInv(Spoiled(written, s.holder.stage), c);
  }

  lemma StepKeepsInv(s: Jog, c: JogConfig, a: Action)
    requires Inv(s) && Enabled(s, a)
    ensures Inv(Do(s, c, a))
  {
    match a
    case Continue(io) => AnswerKeepsInv(s, c, io);
    case BeginRelease => BeginStopKeepsInv(s, c, Release);
    case BeginTick => BeginStopKeepsInv(s, c, CallerTick);
    case BeginClose => BeginStopKeepsInv(s, c, Close);
    case DogAcquires(k) => BeginStopKeepsInv(s, c, if s.dogs[k].watch.WantsTick? then DogTick(k) else DogAbort(k));
    case _ =>
  }

  lemma {:induction false} RunKeepsInv(s: Jog, c: JogConfig, actions: seq<Action>)
    requires Inv(s) && Legal(s, c, actions)
    ensures Inv(Run(s, c, actions))
    decreases |actions|
  {
    if actions != [] {
      StepKeepsInv(s, c, actions[0]);
      RunKeepsInv(Do(s, c, actions[0]), c, actions[1..]);
    }
  }

  /** Nobody watches: every watchdog is over or cancelled. */
  predicate Unwatched(s: Jog) {
    forall k :: 0 <= k < |s.dogs| ==> !Live(s.dogs[k])
  }

  predicate HoldsAsCurrent(s: Jog, k: nat) {
    s.current == Some(k) && Awake(s, k) && (s.dogs[k].watch.WantsTick? || s.dogs[k].watch.WantsAbort?)
  }

  /** A watchdog that holds the lock is the current one. */
  predicate HolderIsCurrent(s: Jog, job: Job) {
    match job
    case DogTick(k) => HoldsAsCurrent(s, k)
    case DogAbort(k) => HoldsAsCurrent(s, k)
    case _ => true
  }

  /** At most the current watchdog is live, and an orphaned jog is active without any. */
  predicate Alone(s: Jog) {
    && (forall k :: 0 <= k < |s.dogs| && Live(s.dogs[k]) ==> s.current == Some(k))
    && (s.orphaned ==> s.state.active && Unwatched(s))
    && (s.holder.Busy? ==> HolderIsCurrent(s, s.holder.job))
  }

  lemma FinishKeepsAlone(s: Jog, c: JogConfig, job: Job)
    requires Inv(s) && Alone(s) && !job.Starts() && HolderIsCurrent(s, job)
    requires (job.DogAbort? || job.Close?) ==> !s.state.active
    ensures Alone(Finish(s, c, job))
  {
  }

  lemma RaiseKeepsAlone(s: Jog, c: JogConfig)
    requires Inv(s) && Alone(s) && s.holder.Busy?
    ensures Alone(Raise(s, c, s.holder.job))
  {
  }

  lemma StartedKeepsAlone(s: Jog, job: Job)
    requires Inv(s) && Alone(s) && job.Starts() && (job.Refresh? ==> s.state.active)
    ensures Alone(Started(s, job))
  {
  }

  lemma BeginStopKeepsAlone(s: Jog, c: JogConfig, job: Job)
    requires Inv(s) && Alone(s) && s.holder.Free? && !job.Starts() && HolderIsCurrent(s, job)
    ensures Alone(BeginStop(s, c, job))
  {
    if !s.state.active || (job.Expires() && s.now < s.state.deadline) {
      FinishKeepsAlone(s, c, job);
    }
  }

  lemma ProceedKeepsAlone(s: Jog, c: JogConfig)
    requires Inv(s) && Alone(s) && s.holder.Busy?
    ensures Alone(Proceed(s, c, s.holder.job, s.holder.stage))
  {
    var job, stage := s.holder.job, s.holder.stage;
    if stage.Latching? {
      StartedKeepsAlone(s, job);
    } else if stage.Unhalting? || (stage.Zeroing? && !c.stopByHalt) {
      FinishKeepsAlone(s.(state := JogState(false, 0, s.now, s.now), orphaned := false, holder := Free), c, job);
    }
  }

  lemma AnswerKeepsAlone(s: Jog, c: JogConfig, io: Io)
    requires Inv(s) && Alone(s) && s.holder.Busy?
    ensures Alone(Answer(s, c, io))
  {
    hide Proceed, Raise;
    var written := Written(s, s.holder.job, s.holder.stage);
    assert Inv(written) && Alone(written);
    match io
    case Fine => ProceedKeepsAlone(written, c);
    case Lost => RaiseKeepsAlone(Spoiled(s, s.holder.stage), c);
    case Unacknowledged => RaiseKeepsAlone(Spoiled(written, s.holder.stage), c);
  }

  lemma StepKeepsAlone(s: Jog, c: JogConfig, a: Action)
    requires Inv(s) && Alone(s) && Enabled(s, a)
    ensures Alone(Do(s, c, a))
  {
    match a
    case Continue(io) => AnswerKeepsAlone(s, c, io);
    case BeginRelease => BeginStopKeepsAlone(s, c, Release);
    case BeginTick => BeginStopKeepsAlone(s, c, CallerTick);
    case BeginClose => BeginStopKeepsAlone(s, c, Close);
    case DogAcquires(k) => BeginStopKeepsAlone(s, c, if s.dogs[k].watch.WantsTick? then DogTick(k) else DogAbort(k));
    case _ =>
  }

  lemma {:induction false} RunKeepsAlone(s: Jog, c: JogConfig, actions: seq<Action>)
    requires Inv(s) && Alone(s) && Legal(s, c, actions)
    ensures Inv(Run(s, c, actions)) && Alone(Run(s, c, actions))
    decreases |actions|
  {
    if actions != [] {
      StepKeepsInv(s, c, actions[0]);
      StepKeepsAlone(s, c, actions[0]);
      RunKeepsAlone(Do(s, c, actions[0]), c, actions[1..]);
    }
  }

  /** Dead-man guarantee, exactly: in every reachable state an active jog has a watchdog that is
      neither over nor cancelled if and only if no watchdog's abort stop has raised since the last
      successful press or stop; without a raising write, always. An unguarded jog has no live
      watchdog at all, and a guarded one has no second. */
  lemma ActiveIsGuarded(now: int, c: JogConfig, actions: seq<Action>)
    requires Legal(Initial(now), c, actions)
    ensures var s := Run(Initial(now), c, actions);
            && (s.state.active ==> (Guarded(s) <==> !s.orphaned))
            && (s.orphaned ==> s.state.active && !s.clean && Unwatched(s))
            && (forall k :: 0 <= k < |s.dogs| && Live(s.dogs[k]) ==> s.current == Some(k))
  {
    RunKeepsAlone(Initial(now), c, actions);
  }

  // ------------------------------------------------------------ the cached velocity

  /** While every write succeeds and only the jog writes the register. */
  predicate RegisterFits(s: Jog) {
    s.clean ==>
      if s.holder.Busy? && s.holder.stage.Latching? && s.holder.job.Starts() then s.register == s.holder.job.velocity
      else if s.holder.Busy? && s.holder.stage.Unhalting? then s.register == 0
      else s.register == if s.state.active then s.state.velocity else 0
  }

  /** The same once the awaited access has had its effect. */
  predicate EffectFits(s: Jog)
    requires s.holder.Busy?
  {
    s.clean ==>
      if s.holder.job.Starts() && (s.holder.stage.SettingVelocity? || s.holder.stage.Latching?)
      then s.register == s.holder.job.velocity
      else if s.holder.stage.Zeroing? || s.holder.stage.Unhalting? then s.register == 0
      else s.register == if s.state.active then s.state.velocity else 0
  }

  lemma ProceedKeepsRegister(s: Jog, c: JogConfig)
    requires Inv(s) && s.holder.Busy? && EffectFits(s)
    ensures RegisterFits(Proceed(s, c, s.holder.job, s.holder.stage))
  {
  }

  lemma AnswerKeepsRegister(s: Jog, c: JogConfig, io: Io)
    requires Inv(s) && RegisterFits(s) && s.holder.Busy?
    ensures RegisterFits(Answer(s, c, io))
  {
    if io.Fine? {
      var written := Written(s, s.holder.job, s.holder.stage);
      assert Inv(written) && EffectFits(written) && written.holder == s.holder;
      ProceedKeepsRegister(written, c);
    }
  }

  lemma StepKeepsRegister(s: Jog, c: JogConfig, a: Action)
    requires Inv(s) && RegisterFits(s) && Enabled(s, a)
    ensures RegisterFits(Do(s, c, a))
  {
    if a.Continue? {
      AnswerKeepsRegister(s, c, a.io);
    }
  }

  lemma {:induction false} RunKeepsRegister(s: Jog, c: JogConfig, actions: seq<Action>)
    requires Inv(s) && RegisterFits(s) && Legal(s, c, actions)
    ensures RegisterFits(Run(s, c, actions))
    decreases |actions|
  {
    if actions != [] {
      StepKeepsInv(s, c, actions[0]);
      StepKeepsRegister(s, c, actions[0]);
      RunKeepsRegister(Do(s, c, actions[0]), c, actions[1..]);
    }
  }

  /** Whenever the lock is free and no write has raised, the cached velocity is what the drive's
      target-velocity register holds, and an inactive jog has left it at zero. */
  lemma CachedVelocityIsTrue(now: int, c: JogConfig, actions: seq<Action>)
    requires Legal(Initial(now), c, actions)
    ensures var s := Run(Initial(now), c, actions);
            s.clean && s.holder.Free? ==> s.register == if s.state.active then s.state.velocity else 0
  {
    RunKeepsRegister(Initial(now), c, actions);
  }

  // ------------------------------------------------------------ what was last asked

  /** A press or refresh that came back: its velocity, when it came back, and its time to live. */
  datatype Ask = Ask(velocity: int, at: int, ttl: int)

  /** The last of them, and the arguments of the call that holds the lock. */
  datatype Memory = Memory(last: Ask, velocity: int, ttl: int)

  /** What one step adds to the memory. Calls are told apart by their arguments and by when they
      give the lock back: a press or a refresh comes back when its last access succeeds, or at once
      when it needs none; a refresh of an inactive jog is ignored. */
  function Remember(m: Memory, s: Jog, a: Action, next: Jog): Memory {
    match a
    case BeginPress(velocity, ttl) => m.(velocity := velocity, ttl := ttl)
    case BeginRefresh(newVelocity, ttl) =>
      var velocity := if newVelocity.Some? then newVelocity.value else m.last.velocity;
      if !s.state.active then m
      else if next.holder.Free? then m.(last := Ask(velocity, s.now, ttl))
      else m.(velocity := velocity, ttl := ttl)
    case Continue(Fine) =>
      if s.holder.Busy? && s.holder.job.Starts() && next.holder.Free? then m.(last := Ask(m.velocity, s.now, m.ttl))
      else m
    case _ => m
  }

  function Remembered(m: Memory, s: Jog, c: JogConfig, actions: seq<Action>): Memory
    requires Legal(s, c, actions)
    decreases |actions|
  {
    if actions == [] then m
    else
      var next := Do(s, c, actions[0]);
      Remembered(Remember(m, s, actions[0], next), next, c, actions[1..])
  }

  function LastAsked(now: int, c: JogConfig, actions: seq<Action>): Ask
    requires Legal(Initial(now), c, actions)
  {
    Remembered(Memory(Ask(0, 0, 0), 0, 0), Initial(now), c, actions).last
  }

  predicate MemoryFits(m: Memory, s: Jog) {
    && (s.state.active ==> s.state == JogState(true, m.last.velocity, m.last.at, m.last.at + m.last.ttl))
    && (s.holder.Busy? && s.holder.job.Starts() ==> s.holder.job.velocity == m.velocity && s.holder.job.ttl == m.ttl)
  }

  lemma ProceedKeepsMemory(m: Memory, s: Jog, c: JogConfig)
    requires MemoryFits(m, s) && s.holder.Busy?
    ensures var next := Proceed(s, c, s.holder.job, s.holder.stage);
            MemoryFits(Remember(m, s, Continue(Fine), next), next)
  {
    var job, stage := s.holder.job, s.holder.stage;
    if stage.Unhalting? || (stage.Zeroing? && !c.stopByHalt) {
      FinishKeepsState(s.(state := JogState(false, 0, s.now, s.now), orphaned := false), c, job);
      assert !Stopped(s, c, job).state.active;
    } else if stage.Latching? && job.Starts() {
      assert Started(s, job).state == JogState(true, job.velocity, s.now, s.now + job.ttl);
    }
  }

  lemma AnswerKeepsMemory(m: Memory, s: Jog, c: JogConfig, io: Io)
    requires Inv(s) && MemoryFits(m, s) && s.holder.Busy?
    ensures MemoryFits(Remember(m, s, Continue(io), Answer(s, c, io)), Answer(s, c, io))
  {
    var written := Written(s, s.holder.job, s.holder.stage);
    match io
    case Fine => ProceedKeepsMemory(m, written, c);
    case Lost => FinishKeepsState(Spoiled(s, s.holder.stage), c, s.holder.job);
    case Unacknowledged => FinishKeepsState(Spoiled(written, s.holder.stage), c, s.holder.job);
  }

  lemma StepKeepsMemory(m: Memory, s: Jog, c: JogConfig, a: Action)
    requires Inv(s) && MemoryFits(m, s) && Enabled(s, a)
    ensures MemoryFits(Remember(m, s, a, Do(s, c, a)), Do(s, c, a))
  {
    if a.Continue? {
      AnswerKeepsMemory(m, s, c, a.io);
    }
  }

  lemma {:induction false} RunKeepsMemory(m: Memory, s: Jog, c: JogConfig, actions: seq<Action>)
    requires Inv(s) && MemoryFits(m, s) && Legal(s, c, actions)
    ensures MemoryFits(Remembered(m, s, c, actions), Run(s, c, actions))
    decreases |actions|
  {
    if actions != [] {
      var next := Do(s, c, actions[0]);
      StepKeepsInv(s, c, actions[0]);
      StepKeepsMemory(m, s, c, actions[0]);
      RunKeepsMemory(Remember(m, s, actions[0], next), next, c, actions[1..]);
    }
  }

  /** Over every run the state of an active jog is that of the last press or refresh that came
      back: its velocity, the time it came back, and that time plus its time to live. */
  lemma StateIsLastAsked(now: int, c: JogConfig, actions: seq<Action>)
    requires Legal(Initial(now), c, actions)
    ensures var s, last := Run(Initial(now), c, actions), LastAsked(now, c, actions);
            s.state.active ==> s.state == JogState(true, last.velocity, last.at, last.at + last.ttl)
  {
    RunKeepsMemory(Memory(Ask(0, 0, 0), 0, 0), Initial(now), c, actions);
  }

  // ------------------------------------------------------------ the time of the stop

  /** Nothing is left to do before `to`: instantaneous accesses let time pass only then. */
  predicate Quiescent(s: Jog, to: int) {
    s.holder.Free? && forall k :: 0 <= k < |s.dogs| ==> Settled(s.dogs[k], to)
  }

  predicate Settled(d: Dog, to: int) {
    d.watch.Over? || (!d.cancelled && d.watch.Sleeping? && to <= d.watch.wakeAt)
  }

  predicate Instantaneous(s: Jog, c: JogConfig, actions: seq<Action>)
    requires Legal(s, c, actions)
    decreases |actions|
  {
    actions == []
    || ((actions[0].Advance? ==> Quiescent(s, actions[0].to)) && Instantaneous(Do(s, c, actions[0]), c, actions[1..]))
  }

  /** The latest time at which an unrefreshed jog can still be active. */
  function LastMoment(s: Jog, c: JogConfig): int {
    Max(s.state.deadline, s.state.lastUpdate) + c.watchInterval
  }

  predicate DogInTime(s: Jog, c: JogConfig, d: Dog) {
    match d.watch
    case New => s.now + c.watchInterval <= LastMoment(s, c)
    case Sleeping(wakeAt) => wakeAt <= LastMoment(s, c)
    case _ => true
  }

  predicate InTime(s: Jog, c: JogConfig) {
    && SleepsInTime(s, c)
    && (s.state.active ==> s.state.lastUpdate <= s.now <= LastMoment(s, c))
    && (s.state.active && s.clean && s.current.Some? && s.current.value < |s.dogs| ==>
          DogInTime(s, c, s.dogs[s.current.value]))
  }

  predicate SleepsInTime(s: Jog, c: JogConfig) {
    forall k :: 0 <= k < |s.dogs| && s.dogs[k].watch.Sleeping? ==> s.dogs[k].watch.wakeAt <= s.now + c.watchInterval
  }

  lemma FinishKeepsTime(s: Jog, c: JogConfig, job: Job)
    requires SleepsInTime(s, c) && !s.state.active
    ensures InTime(Finish(s, c, job), c)
  {
  }

  lemma RaiseKeepsTime(s: Jog, c: JogConfig, job: Job)
    requires InTime(s, c) && (!s.clean || !(job.DogTick? || job.DogAbort?))
    ensures InTime(Raise(s, c, job), c)
  {
  }

  lemma StartedKeepsTime(s: Jog, c: JogConfig, job: Job)
    requires InTime(s, c) && job.Starts()
    ensures InTime(Started(s, job), c)
  {
  }

  lemma ProceedKeepsTime(s: Jog, c: JogConfig)
    requires Inv(s) && InTime(s, c) && s.holder.Busy?
    ensures InTime(Proceed(s, c, s.holder.job, s.holder.stage), c)
  {
    var job, stage := s.holder.job, s.holder.stage;
    if stage.Latching? {
      StartedKeepsTime(s, c, job);
    } else if stage.Unhalting? || (stage.Zeroing? && !c.stopByHalt) {
      FinishKeepsTime(s.(state := JogState(false, 0, s.now, s.now), orphaned := false), c, job);
    }
  }

  lemma AnswerKeepsTime(s: Jog, c: JogConfig, io: Io)
    requires Inv(s) && InTime(s, c) && s.holder.Busy?
    ensures InTime(Answer(s, c, io), c)
  {
    var job, stage := s.holder.job, s.holder.stage;
    var written := Written(s, job, stage);
    assert Inv(written) && InTime(written, c) && written.holder == s.holder;
    match io
    case Fine => ProceedKeepsTime(written, c);
    case Lost => RaiseKeepsTime(Spoiled(s, stage), c, job);
    case Unacknowledged => RaiseKeepsTime(Spoiled(written, stage), c, job);
  }

  lemma StepKeepsTime(s: Jog, c: JogConfig, a: Action)
    requires Inv(s) && InTime(s, c) && Enabled(s, a) && s.clean && (a.Advance? ==> Quiescent(s, a.to))
    ensures InTime(Do(s, c, a), c)
  {
    if a.Continue? {
      AnswerKeepsTime(s, c, a.io);
    } else if a.Advance? && s.state.active {
      assert Settled(s.dogs[s.current.value], a.to);
    }
  }

  lemma FinishKeepsDirt(s: Jog, c: JogConfig, job: Job)
    ensures Finish(s, c, job).clean == s.clean && Raise(s, c, job).clean == s.clean
  {
  }

  lemma ProceedKeepsDirt(s: Jog, c: JogConfig, job: Job, stage: Stage)
    ensures Proceed(s, c, job, stage).clean == s.clean
  {
    FinishKeepsDirt(s.(state := JogState(false, 0, s.now, s.now), orphaned := false), c, job);
  }

  lemma DirtyStays(s: Jog, c: JogConfig, a: Action)
    requires Enabled(s, a) && !s.clean
    ensures !Do(s, c, a).clean
  {
    if a.Continue? {
      var job, stage := s.holder.job, s.holder.stage;
      var written := Written(s, job, stage);
      ProceedKeepsDirt(written, c, job, stage);
      FinishKeepsDirt(Spoiled(s, stage), c, job);
      FinishKeepsDirt(Spoiled(written, stage), c, job);
    }
  }

  lemma {:induction false} DirtyRunStays(s: Jog, c: JogConfig, actions: seq<Action>)
    requires Legal(s, c, actions) && !s.clean
    ensures !Run(s, c, actions).clean
    decreases |actions|
  {
    if actions != [] {
      DirtyStays(s, c, actions[0]);
      DirtyRunStays(Do(s, c, actions[0]), c, actions[1..]);
    }
  }

  lemma {:induction false} RunKeepsTime(s: Jog, c: JogConfig, actions: seq<Action>)
    requires Inv(s) && InTime(s, c) && Legal(s, c, actions) && Instantaneous(s, c, actions)
    ensures Run(s, c, actions).clean ==> InTime(Run(s, c, actions), c)
    decreases |actions|
  {
    if !s.clean {
      DirtyRunStays(s, c, actions);
    } else if actions != [] {
      StepKeepsInv(s, c, actions[0]);
      StepKeepsTime(s, c, actions[0]);
      RunKeepsTime(Do(s, c, actions[0]), c, actions[1..]);
    }
  }

  /** With instantaneous accesses none of which raises, a jog is active at most for the time to
      live of the last press or refresh that came back, counted from then, plus one watch interval. */
  lemma ActiveNoLongerThan(now: int, c: JogConfig, actions: seq<Action>)
    requires Legal(Initial(now), c, actions) && Instantaneous(Initial(now), c, actions)
    ensures var s, last := Run(Initial(now), c, actions), LastAsked(now, c, actions);
            s.clean && s.state.active ==> last.at <= s.now <= last.at + Max(last.ttl, 0) + c.watchInterval
  {
    RunKeepsTime(Initial(now), c, actions);
    StateIsLastAsked(now, c, actions);
  }

  /** A release, a close or an abort is stopping the jog. */
  predicate StopAsked(s: Jog) {
    s.holder.Busy? && (s.holder.job.Release? || s.holder.job.Close? || s.holder.job.DogAbort?)
  }

  /** No step ends a jog before the time to live of the last press or refresh that came back has
      passed, unless it was released, closed or aborted. */
  lemma StopsNoEarlier(now: int, c: JogConfig, actions: seq<Action>, a: Action)
    requires Legal(Initial(now), c, actions) && Enabled(Run(Initial(now), c, actions), a)
    requires Run(Initial(now), c, actions).state.active && !Do(Run(Initial(now), c, actions), c, a).state.active
    ensures var s, last := Run(Initial(now), c, actions), LastAsked(now, c, actions);
            s.now >= last.at + last.ttl || StopAsked(s)
  {
    RunKeepsInv(Initial(now), c, actions);
    StateIsLastAsked(now, c, actions);
    StopNeedsExpiry(Run(Initial(now), c, actions), c, a);
  }

  lemma FinishKeepsState(s: Jog, c: JogConfig, job: Job)
    ensures Finish(s, c, job).state == s.state && Raise(s, c, job).state == s.state
  {
  }

  lemma StopNeedsExpiry(s: Jog, c: JogConfig, a: Action)
    requires Inv(s) && Enabled(s, a) && s.state.active && !Do(s, c, a).state.active
    ensures s.now >= s.state.deadline || StopAsked(s)
  {
    match a
    case BeginRelease => FinishKeepsState(s, c, Release);
    case BeginTick => FinishKeepsState(s, c, CallerTick);
    case BeginClose => FinishKeepsState(s, c, Close);
    case DogAcquires(k) => FinishKeepsState(s, c, if s.dogs[k].watch.WantsTick? then DogTick(k) else DogAbort(k));
    case Continue(io) =>
      FinishKeepsState(Spoiled(s, s.holder.stage), c, s.holder.job);
      FinishKeepsState(Spoiled(Written(s, s.holder.job, s.holder.stage), s.holder.stage), c, s.holder.job);
    case _ =>
  }

  lemma RunFirst(s: Jog, c: JogConfig, actions: seq<Action>, rest: seq<Action>, end: Jog)
    requires actions != [] && actions[1..] == rest && Enabled(s, actions[0])
    requires Legal(Do(s, c, actions[0]), c, rest) && Run(Do(s, c, actions[0]), c, rest) == end
    ensures Legal(s, c, actions) && Run(s, c, actions) == end
  {
  }

  lemma {:induction false} RunAppends(s: Jog, c: JogConfig, first: seq<Action>, rest: seq<Action>)
    requires Legal(s, c, first) && Legal(Run(s, c, first), c, rest)
    ensures Legal(s, c, first + rest) && Run(s, c, first + rest) == Run(Run(s, c, first), c, rest)
    decreases |first|
  {
    if first == [] {
      assert first + rest == rest;
    } else {
      RunAppends(Do(s, c, first[0]), c, first[1..], rest);
      assert (first + rest)[1..] == first[1..] + rest;
    }
  }

  // ------------------------------------------------------------ what each call does

  /** These steps are possible from `s` and lead to `end`. */
  predicate Leads(s: Jog, c: JogConfig, actions: seq<Action>, end: Jog) {
    Legal(s, c, actions) && Run(s, c, actions) == end
  }

  lemma StepLeads(s: Jog, c: JogConfig, a: Action, rest: seq<Action>, end: Jog)
    requires Enabled(s, a) && Leads(Do(s, c, a), c, rest, end)
    ensures Leads(s, c, [a] + rest, end)
  {
    RunFirst(s, c, [a] + rest, rest, end);
  }

  /** The next accesses all succeed. */
  function Succeed(n: nat): seq<Action> {
    if n == 0 then [] else [Continue(Fine)] + Succeed(n - 1)
  }

  lemma SuccessLeads(s: Jog, c: JogConfig, n: nat, end: Jog)
    requires s.holder.Busy? && n > 0 && Leads(Answer(s, c, Fine), c, Succeed(n - 1), end)
    ensures Leads(s, c, Succeed(n), end)
  {
    StepLeads(s, c, Continue(Fine), Succeed(n - 1), end);
  }

  function Asked(s: Jog, velocity: int, ttl: int): Jog {
    s.(state := JogState(true, velocity, s.now, s.now + ttl), register := velocity)
  }

  lemma VelocityIsSet(s: Jog, c: JogConfig, job: Job)
    requires s.holder == Busy(job, SettingVelocity) && job.Starts()
    ensures var end := Asked(s.(holder := Free), job.velocity, job.ttl);
            Leads(s, c, Succeed(2), if job.Press? then EnsureWatchdog(end).(orphaned := false) else end)
  {
    var latching := Answer(s, c, Fine);
    var end := Answer(latching, c, Fine);
    SuccessLeads(latching, c, 1, end);
    SuccessLeads(s, c, 2, end);
  }

  /** An access that raises ends the call with the lock free and the jog as it was, mode and watchdog
      included; the register has changed only if the access had its effect. */
  lemma FailedAccessKeepsJog(s: Jog, c: JogConfig, io: Io)
    requires s.holder.Busy? && !io.Fine?
    ensures var after, job := Answer(s, c, io), s.holder.job;
            && after.holder.Free? && after.state == s.state && after.modeReady == s.modeReady
            && after.current == s.current && after.now == s.now && |after.dogs| == |s.dogs|
            && after.register == (if io.Lost? then s.register
                                  else if s.holder.stage.SettingVelocity? && job.Starts() then job.velocity
                                  else if s.holder.stage.Zeroing? then 0 else s.register)
  {
    hide LoopHead;
    WatchdogLoops(Unlocked(Spoiled(s, s.holder.stage)), c, s.holder.job);
    WatchdogLoops(Unlocked(Spoiled(Written(s, s.holder.job, s.holder.stage), s.holder.stage)), c, s.holder.job);
  }

  lemma WatchdogLoops(s: Jog, c: JogConfig, job: Job)
    ensures job.DogTick? ==> LoopHead(s, c, job.dog) == s.(dogs := LoopHead(s, c, job.dog).dogs)
                             && |LoopHead(s, c, job.dog).dogs| == |s.dogs|
  {
  }

  /** What a watchdog does once the access of this job has raised. */
  function WatchAfterRaise(s: Jog, c: JogConfig, job: Job, k: nat): Watch
    requires k < |s.dogs|
  {
    if job == DogAbort(k) || (job == DogTick(k) && !s.state.active) then Over
    else if job == DogTick(k) then Sleeping(s.now + c.watchInterval)
    else s.dogs[k].watch
  }

  lemma RaiseMovesWatchdog(s: Jog, c: JogConfig, job: Job, k: nat)
    requires k < |s.dogs|
    ensures var dogs := Raise(s, c, job).dogs;
            && |dogs| == |s.dogs| && dogs[k].cancelled == s.dogs[k].cancelled
            && dogs[k].watch == WatchAfterRaise(s, c, job, k)
  {
  }

  /** A watchdog goes on after a tick that raised while the jog is active, and is over after an
      abort that raised; every other watchdog stays as it was. */
  lemma FailedAccessMovesWatchdog(s: Jog, c: JogConfig, io: Io, k: nat)
    requires s.holder.Busy? && !io.Fine? && k < |s.dogs|
    ensures var dogs := Answer(s, c, io).dogs;
            && |dogs| == |s.dogs| && dogs[k].cancelled == s.dogs[k].cancelled
            && dogs[k].watch == WatchAfterRaise(s, c, s.holder.job, k)
  {
    hide Raise;
    RaiseMovesWatchdog(Spoiled(s, s.holder.stage), c, s.holder.job, k);
    RaiseMovesWatchdog(Spoiled(Written(s, s.holder.job, s.holder.stage), s.holder.stage), c, s.holder.job, k);
  }

  /** A press: the enabled check if configured, the mode if it is not known to be set, the
      velocity and the latch; then the jog is active with this velocity until the time to live
      has passed, and the register holds the velocity. */
  lemma PressTakesEffect(s: Jog, c: JogConfig, velocity: int, ttl: int)
    requires s.holder.Free?
    ensures var n := (if c.requireEnabled then 1 else 0) + (if s.modeReady then 0 else 1) + 2;
            Leads(s, c, [BeginPress(velocity, ttl)] + Succeed(n),
                  EnsureWatchdog(Asked(s.(modeReady := true), velocity, ttl)).(orphaned := false))
  {
    var job := Press(velocity, ttl);
    var n := (if c.requireEnabled then 1 else 0) + (if s.modeReady then 0 else 1) + 2;
    var end := EnsureWatchdog(Asked(s.(modeReady := true), velocity, ttl)).(orphaned := false);
    VelocityIsSet(s.(modeReady := true, holder := Busy(job, SettingVelocity)), c, job);
    if !s.modeReady {
      SuccessLeads(s.(holder := Busy(job, SettingMode)), c, 3, end);
    }
    if c.requireEnabled {
      SuccessLeads(s.(holder := Busy(job, Checking)), c, n, end);
    }
    StepLeads(s, c, BeginPress(velocity, ttl), Succeed(n), end);
  }

  /** A press after the mode was invalidated sets it anew, known or not before. */
  lemma InvalidationForcesMode(s: Jog, c: JogConfig, velocity: int, ttl: int)
    requires s.holder.Free?
    ensures Leads(s, c, [InvalidateMode] + ([BeginPress(velocity, ttl)] + Succeed(if c.requireEnabled then 4 else 3)),
                  EnsureWatchdog(Asked(s.(modeReady := true), velocity, ttl)).(orphaned := false))
  {
    var forgotten := s.(modeReady := false);
    var end := EnsureWatchdog(Asked(s.(modeReady := true), velocity, ttl)).(orphaned := false);
    PressTakesEffect(forgotten, c, velocity, ttl);
    assert forgotten.(modeReady := true) == s.(modeReady := true);
    StepLeads(s, c, InvalidateMode, [BeginPress(velocity, ttl)] + Succeed(if c.requireEnabled then 4 else 3), end);
  }

  /** A refresh of an active jog counts the time to live from now; the velocity is written and
      latched exactly when it is a new one. A refresh of an inactive jog changes nothing. */
  lemma RefreshTakesEffect(s: Jog, c: JogConfig, newVelocity: Option<int>, ttl: int)
    requires s.holder.Free?
    ensures var velocity := if newVelocity.Some? then newVelocity.value else s.state.velocity;
            var n := if s.state.active && velocity != s.state.velocity then 2 else 0;
            Leads(s, c, [BeginRefresh(newVelocity, ttl)] + Succeed(n),
                  if !s.state.active then s
                  else if n == 2 then Asked(s, velocity, ttl)
                  else s.(state := JogState(true, velocity, s.now, s.now + ttl)))
  {
    var next := Do(s, c, BeginRefresh(newVelocity, ttl));
    if next.holder.Busy? {
      VelocityIsSet(next, c, next.holder.job);
      StepLeads(s, c, BeginRefresh(newVelocity, ttl), Succeed(2), Asked(s, newVelocity.value, ttl));
    } else {
      StepLeads(s, c, BeginRefresh(newVelocity, ttl), Succeed(0), next);
    }
  }

  /** An inactive jog whose register is zero. */
  function Ended(s: Jog): Jog {
    s.(state := JogState(false, 0, s.now, s.now), register := 0, orphaned := false)
  }

  /** The accesses of a stop: velocity zero, between two HALT words if so configured. */
  function StopAccesses(c: JogConfig): nat {
    if c.stopByHalt then 3 else 1
  }

  lemma StopSucceeds(s: Jog, c: JogConfig, job: Job)
    requires s.holder == Busy(job, if c.stopByHalt then Halting else Zeroing) && !job.Starts()
    ensures Leads(s, c, Succeed(StopAccesses(c)), Finish(Ended(s), c, job))
  {
    var end := Finish(Ended(s), c, job);
    if c.stopByHalt {
      var zeroing := Answer(s, c, Fine);
      var unhalting := Answer(zeroing, c, Fine);
      assert Answer(unhalting, c, Fine) == end;
      SuccessLeads(unhalting, c, 1, end);
      SuccessLeads(zeroing, c, 2, end);
      SuccessLeads(s, c, 3, end);
    } else {
      assert Answer(s, c, Fine) == end;
      SuccessLeads(s, c, 1, end);
    }
  }

  /** A release of an active jog ends it, and one of an inactive jog does nothing. */
  lemma ReleaseTakesEffect(s: Jog, c: JogConfig)
    requires s.holder.Free?
    ensures Leads(s, c, [BeginRelease] + Succeed(if s.state.active then StopAccesses(c) else 0),
                  if s.state.active then Ended(s) else s)
  {
    var next := Do(s, c, BeginRelease);
    if s.state.active {
      StopSucceeds(next, c, Release);
      StepLeads(s, c, BeginRelease, Succeed(StopAccesses(c)), Ended(s));
    } else {
      StepLeads(s, c, BeginRelease, Succeed(0), s);
    }
  }

  /** A close ends the jog likewise, forgets the mode, and cancels and forgets the watchdog. */
  lemma CloseTakesEffect(s: Jog, c: JogConfig)
    requires s.holder.Free? && (s.current.Some? ==> s.current.value < |s.dogs|)
    ensures var ended := (if s.state.active then Ended(s) else s).(modeReady := false, current := None);
            Leads(s, c, [BeginClose] + Succeed(if s.state.active then StopAccesses(c) else 0),
                  if s.current.None? then ended
                  else ended.(dogs := s.dogs[s.current.value := s.dogs[s.current.value].(cancelled := true)]))
  {
    var next := Do(s, c, BeginClose);
    if s.state.active {
      StopSucceeds(next, c, Close);
      StepLeads(s, c, BeginClose, Succeed(StopAccesses(c)), Finish(Ended(next), c, Close));
    } else {
      StepLeads(s, c, BeginClose, Succeed(0), next);
    }
  }

  /** A watchdog tick, by a caller or by the watchdog, ends the jog exactly when it has expired. */
  lemma TickTakesEffect(s: Jog, c: JogConfig)
    requires s.holder.Free?
    ensures var expired := s.state.active && s.now >= s.state.deadline;
            Leads(s, c, [BeginTick] + Succeed(if expired then StopAccesses(c) else 0), if expired then Ended(s) else s)
  {
    var next := Do(s, c, BeginTick);
    if next.holder.Busy? {
      StopSucceeds(next, c, CallerTick);
      StepLeads(s, c, BeginTick, Succeed(StopAccesses(c)), Ended(s));
    } else {
      StepLeads(s, c, BeginTick, Succeed(0), s);
    }
  }

  /** A watchdog that wakes up and sees the abort ends an active jog, expired or not, and itself. */
  lemma AbortTakesEffect(s: Jog, c: JogConfig, k: nat)
    requires s.holder.Free? && s.state.active && Enabled(s, DogWakes(k, true))
    ensures Leads(s, c, [DogWakes(k, true)] + ([DogAcquires(k)] + Succeed(StopAccesses(c))), SetDog(Ended(s), k, Over))
  {
    var awake := Do(s, c, DogWakes(k, true));
    var next := Do(awake, c, DogAcquires(k));
    StopSucceeds(next, c, DogAbort(k));
    assert Finish(Ended(next), c, DogAbort(k)) == SetDog(Ended(s), k, Over);
    StepLeads(awake, c, DogAcquires(k), Succeed(StopAccesses(c)), SetDog(Ended(s), k, Over));
    StepLeads(s, c, DogWakes(k, true), [DogAcquires(k)] + Succeed(StopAccesses(c)), SetDog(Ended(s), k, Over));
  }

  // ------------------------------------------------------------ when the abort stop raises

  const PRESSING: seq<Action> := [Continue(Fine), Continue(Fine), Continue(Fine)]

  /** A first press: mode, velocity and latch, and a new watchdog. */
  lemma FirstPress(now: int, interval: nat, velocity: int, ttl: int)
    ensures Leads(Initial(now), JogConfig(interval, false, false), [BeginPress(velocity, ttl)] + PRESSING,
                  Jog(JogState(true, velocity, now, now + ttl), true, Some(0), [Dog(New, false)],
                      Free, velocity, now, false, true))
  {
    PressTakesEffect(Initial(now), JogConfig(interval, false, false), velocity, ttl);
    assert Succeed(3) == [Continue(Fine)] + ([Continue(Fine)] + ([Continue(Fine)] + Succeed(0)));
    assert Succeed(3) == PRESSING;
  }

  /** The watchdog sees the abort and dies of its own stop. */
  lemma AbortStopRaises(now: int, interval: nat, velocity: int, ttl: int)
    ensures var c := JogConfig(interval, false, false);
            var pressed := Jog(JogState(true, velocity, now, now + ttl), true, Some(0), [Dog(New, false)],
                                Free, velocity, now, false, true);
            var actions := [DogStarts(0), Advance(now + interval), DogWakes(0, true), DogAcquires(0), Continue(Lost)];
            && Legal(pressed, c, actions)
            && Run(pressed, c, actions)
               == Jog(JogState(true, velocity, now, now + ttl), true, Some(0), [Dog(Over, false)],
                      Free, velocity, now + interval, true, false)
  {
    var c := JogConfig(interval, false, false);
    var s0 := Jog(JogState(true, velocity, now, now + ttl), true, Some(0), [Dog(New, false)],
                  Free, velocity, now, false, true);
    var s1 := Do(s0, c, DogStarts(0));
    var s2 := Do(s1, c, Advance(now + interval));
    var s3 := Do(s2, c, DogWakes(0, true));
    var s4 := Do(s3, c, DogAcquires(0));
    var end := Do(s4, c, Continue(Lost));
    var t3 := [DogAcquires(0), Continue(Lost)];
    var t2 := [DogWakes(0, true), DogAcquires(0), Continue(Lost)];
    var t1 := [Advance(now + interval), DogWakes(0, true), DogAcquires(0), Continue(Lost)];
    RunFirst(s4, c, [Continue(Lost)], [], end);
    RunFirst(s3, c, t3, [Continue(Lost)], end);
    RunFirst(s2, c, t2, t3, end);
    RunFirst(s1, c, t1, t2, end);
    RunFirst(s0, c, [DogStarts(0), Advance(now + interval), DogWakes(0, true), DogAcquires(0), Continue(Lost)],
             t1, end);
  }

  /** The exception to the guarantee is real: when the abort branch's stop write raises, the jog
      stays active, the drive keeps its velocity, and no watchdog is left. */
  lemma RaisingAbortLeavesJogUnguarded(now: int, interval: nat, velocity: int, ttl: int)
    ensures var c := JogConfig(interval, false, false);
            var actions := ([BeginPress(velocity, ttl)] + PRESSING)
                           + [DogStarts(0), Advance(now + interval), DogWakes(0, true), DogAcquires(0), Continue(Lost)];
            && Legal(Initial(now), c, actions)
            && var s := Run(Initial(now), c, actions);
               s.holder.Free? && s.state.active && s.register == velocity && !Guarded(s)
  {
    var c := JogConfig(interval, false, false);
    FirstPress(now, interval, velocity, ttl);
    AbortStopRaises(now, interval, velocity, ttl);
    RunAppends(Initial(now), c, [BeginPress(velocity, ttl)] + PRESSING,
               [DogStarts(0), Advance(now + interval), DogWakes(0, true), DogAcquires(0), Continue(Lost)]);
  }

  /** What can happen while nobody presses, releases, closes or ticks the jog from outside. */
  predicate Refreshing(s: Jog) {
    s.holder.Busy? ==> s.holder.job.Refresh? && (s.holder.stage.SettingVelocity? || s.holder.stage.Latching?)
  }

  predicate OnlyRefreshes(a: Action) {
    !(a.BeginPress? || a.BeginRelease? || a.BeginTick? || a.BeginClose?)
  }

  lemma RefreshLeavesUnwatched(s: Jog, c: JogConfig, a: Action)
    requires s.state.active && Refreshing(s) && Unwatched(s) && Enabled(s, a) && OnlyRefreshes(a)
    ensures var next := Do(s, c, a); next.state.active && Refreshing(next) && Unwatched(next)
  {
  }

  /** Refreshes, with or without a new velocity, whether their writes succeed or raise, do not
      bring a watchdog back: while nobody presses, releases, closes or ticks the jog from outside,
      an unguarded jog stays active and unguarded however much time passes. */
  lemma {:induction false} UnguardedStays(s: Jog, c: JogConfig, actions: seq<Action>)
    requires s.state.active && Refreshing(s) && Unwatched(s) && Legal(s, c, actions)
    requires forall i :: 0 <= i < |actions| ==> OnlyRefreshes(actions[i])
    ensures var after := Run(s, c, actions); after.state.active && !Guarded(after) && Unwatched(after)
    decreases |actions|
  {
    if actions != [] {
      assert OnlyRefreshes(actions[0]);
      RefreshLeavesUnwatched(s, c, actions[0]);
      UnguardedStays(Do(s, c, actions[0]), c, actions[1..]);
    }
  }
}
