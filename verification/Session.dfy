/** The session of src/dryve_d1/transport/session.py as interleaved steps: any number of caller
    threads inside `transceive`, the keepalive thread, the lock, one socket, and a server that
    answers the requests of a connection in order, late, or not at all. */
module Transport {
  import opened Prelude
  import opened Telegram
  import opened WireProofs

  /** What the socket has yet to deliver: the reply to exchange `number`, or the rest of a
      reply that was read in part. */
  datatype Item = Whole(number: nat, request: seq<Byte>, reply: seq<Byte>) | Torn

  /** Where a caller stands. `Failed` is the gap between the lock released by an exception and
      the lock taken again to close the socket. */
  datatype Phase =
    | Idle
    | Waiting
    | Holding
    | Ready
    | Receiving(number: nat)
    | Failed
    | Shut
    | Returned(item: Item, own: nat)
    | Raised(gaveUp: bool)

  /** `limited` says whether the call was given a deadline, which only ends the retries early. */
  datatype Caller = Caller(phase: Phase, request: seq<Byte>, attempts: nat, exchanges: nat, limited: bool)

  datatype Holder = Free | ByCaller(index: nat) | ByKeepalive

  datatype Keeper = Resting | Probing | Expecting(number: nat)

  /** The two settings that decide how a failed call goes on: the retry budget, and whether
      there is a keepalive thread. */
  datatype Policy = Policy(maxAttempts: int, keepalive: bool)

  /** `stopped` is the stop event; `closed` remembers that `close` has been called. */
  datatype Session = Session(
    holder: Holder,
    open: bool,
    stream: seq<Item>,
    sent: nat,
    callers: seq<Caller>,
    keeper: Keeper,
    stopped: bool,
    closed: bool,
    policy: Policy
  )

  /** What `connect` does to a session without a socket; the last is a keepalive thread that
      cannot be started although the socket is open. */
  datatype Outcome = Connected | Unreachable | NoKeepalive

  datatype Action =
    | Begin(i: nat, request: seq<Byte>, limited: bool)
    | Acquire(i: nat)
    | Connect(i: nat, outcome: Outcome)
    | Send(i: nat, reply: seq<Byte>)
    | SendFails(i: nat, delivered: bool, reply: seq<Byte>)
    | Receive(i: nat)
    | Fail(i: nat, torn: bool)
    | CloseAfterFailure(i: nat)
    | Retry(i: nat)
    | GiveUp(i: nat)
    | KeepaliveAcquires
    | KeepaliveSends(request: seq<Byte>, reply: seq<Byte>)
    | KeepaliveSkips
    | KeepaliveReceives
    | KeepaliveFails
    | ServerDrops(position: nat)
    | CloseSession

  /** The server puts the transaction id of a request into its reply. */
  predicate Echoes(request: seq<Byte>, reply: seq<Byte>) {
    |request| >= HEADER_LENGTH && |reply| >= 7 && TransactionId(reply) == TransactionId(request)
  }

  predicate At(s: Session, i: nat, phase: Phase) {
    i < |s.callers| && s.callers[i].phase == phase
  }

  predicate Enabled(s: Session, a: Action) {
    match a
    case Begin(i, request, limited) =>
      i < |s.callers| && |request| >= HEADER_LENGTH
      && (s.callers[i].phase.Idle? || s.callers[i].phase.Returned? || s.callers[i].phase.Raised?)
    case Acquire(i) => At(s, i, Waiting) && s.holder == Free
    case Connect(i, outcome) => At(s, i, Holding) && (outcome.NoKeepalive? ==> s.policy.keepalive)
    case Send(i, reply) => At(s, i, Ready) && s.open && Echoes(s.callers[i].request, reply)
    case SendFails(i, delivered, reply) =>
      At(s, i, Ready) && (delivered ==> s.open && Echoes(s.callers[i].request, reply))
    case Receive(i) => i < |s.callers| && s.callers[i].phase.Receiving? && s.open && s.stream != []
    case Fail(i, torn) => i < |s.callers| && s.callers[i].phase.Receiving?
    case CloseAfterFailure(i) => At(s, i, Failed) && s.holder == Free
    case Retry(i) => At(s, i, Shut) && !s.stopped && s.callers[i].attempts < s.policy.maxAttempts
    case GiveUp(i) =>
      At(s, i, Shut) && (s.stopped || s.callers[i].limited || s.callers[i].attempts >= s.policy.maxAttempts)
    case KeepaliveAcquires => s.keeper == Resting && s.holder == Free && s.policy.keepalive && !s.stopped
    case KeepaliveSends(request, reply) => s.keeper == Probing && s.open && Echoes(request, reply)
    case KeepaliveSkips => s.keeper == Probing && !s.open
    case KeepaliveReceives => s.keeper.Expecting? && s.open && s.stream != []
    case KeepaliveFails => s.keeper != Resting
    case ServerDrops(position) => position < |s.stream| && s.stream[position].Whole?
    case CloseSession => true
  }

  function Put(s: Session, i: nat, phase: Phase): Session
    requires i < |s.callers|
  {
    s.(callers := s.callers[i := s.callers[i].(phase := phase)])
  }

  function CountExchange(s: Session, i: nat): Session
    requires i < |s.callers|
  {
    s.(callers := s.callers[i := s.callers[i].(exchanges := s.callers[i].exchanges + 1)])
  }

  function Push(s: Session, request: seq<Byte>, reply: seq<Byte>): Session {
    s.(stream := s.stream + [Whole(s.sent, request, reply)], sent := s.sent + 1)
  }

  /** Reading past a torn reply stays out of step with the replies behind it. */
  function Taken(stream: seq<Item>): seq<Item>
    requires stream != []
  {
    if stream[0].Torn? then stream else stream[1..]
  }

  function Closed(s: Session): Session {
    s.(open := false, stream := [])
  }

  function Do(s: Session, a: Action): (s': Session)
    requires Enabled(s, a)
    ensures |s'.callers| == |s.callers| && s'.policy == s.policy
  {
    match a
    case Begin(i, request, limited) => s.(callers := s.callers[i := Caller(Waiting, request, 1, 0, limited)])
    case Acquire(i) => Put(s, i, Holding).(holder := ByCaller(i))
    case Connect(i, outcome) =>
      if s.open then Put(s, i, Ready)
      else if outcome.Connected? then Put(s, i, Ready).(open := true, stopped := s.stopped && !s.policy.keepalive)
      else if outcome.Unreachable? then Put(s, i, Failed).(holder := Free)
      else Put(s, i, Raised(false)).(holder := Free, open := true)
    case Send(i, reply) => Push(Put(CountExchange(s, i), i, Receiving(s.sent)), s.callers[i].request, reply)
    case SendFails(i, delivered, reply) =>
      var failed := Put(CountExchange(s, i), i, Failed).(holder := Free);
      if delivered then Push(failed, s.callers[i].request, reply) else failed
    case Receive(i) =>
      Put(s, i, Returned(s.stream[0], s.callers[i].phase.number)).(holder := Free, stream := Taken(s.stream))
    case Fail(i, torn) =>
      Put(s, i, Failed).(holder := Free, stream := if torn && s.stream != [] then [Torn] else s.stream)
    case CloseAfterFailure(i) => Closed(Put(s, i, Shut))
    case Retry(i) =>
      var caller := s.callers[i];
      s.(callers := s.callers[i := caller.(phase := Waiting, attempts := caller.attempts + 1)])
    case GiveUp(i) => Put(s, i, Raised(true))
    case KeepaliveAcquires => s.(keeper := Probing, holder := ByKeepalive)
    case KeepaliveSends(request, reply) => Push(s, request, reply).(keeper := Expecting(s.sent))
    case KeepaliveSkips => s.(keeper := Resting, holder := Free)
    case KeepaliveReceives => s.(keeper := Resting, holder := Free, stream := Taken(s.stream))
    case KeepaliveFails => Closed(s).(keeper := Resting, holder := Free)
    case ServerDrops(position) => s.(stream := s.stream[..position] + s.stream[position + 1..])
    case CloseSession => Closed(s).(stopped := true, closed := true)
  }

  predicate Initial(s: Session) {
    && s.holder == Free && !s.open && s.stream == [] && s.keeper == Resting && !s.stopped && !s.closed
    && forall i :: 0 <= i < |s.callers| ==> s.callers[i] == Caller(Idle, [], 0, 0, false)
  }

  predicate Legal(s: Session, actions: seq<Action>)
    decreases |actions|
  {
    actions == [] || (Enabled(s, actions[0]) && Legal(Do(s, actions[0]), actions[1..]))
  }

  function Run(s: Session, actions: seq<Action>): (s': Session)
    requires Legal(s, actions)
    ensures |s'.callers| == |s.callers| && s'.policy == s.policy
    decreases |actions|
  {
    if actions == [] then s else Run(Do(s, actions[0]), actions[1..])
  }

  // ------------------------------------------------------------ the invariant

  predicate InLock(phase: Phase) {
    phase.Holding? || phase.Ready? || phase.Receiving?
  }

  /** Exactly the holder of the lock is inside it. */
  predicate LockFits(s: Session) {
    && (forall i :: 0 <= i < |s.callers| ==> (InLock(s.callers[i].phase) <==> s.holder == ByCaller(i)))
    && (s.holder.ByCaller? ==> s.holder.index < |s.callers|)
    && (s.keeper != Resting <==> s.holder == ByKeepalive)
  }

  /** Some caller is between its failure and its close. */
  predicate Gap(s: Session) {
    exists i :: 0 <= i < |s.callers| && s.callers[i].phase.Failed?
  }

  /** The reply the holder of the lock is waiting for. */
  predicate Expected(s: Session, item: Item) {
    match s.holder
    case Free => false
    case ByCaller(i) =>
      && i < |s.callers| && item.Whole?
      && s.callers[i].phase == Receiving(item.number) && item.request == s.callers[i].request
    case ByKeepalive => item.Whole? && s.keeper == Expecting(item.number)
  }

  /** Outside a gap an open socket owes at most the one reply that is being waited for. */
  predicate StreamFits(s: Session) {
    && (!s.open ==> s.stream == [])
    && (!Gap(s) ==> |s.stream| <= 1 && (s.stream != [] ==> Expected(s, s.stream[0])))
  }

  predicate ItemFits(s: Session, item: Item) {
    item.Whole? ==>
      && item.number < s.sent && Echoes(item.request, item.reply)
      && (s.holder.ByCaller? && s.holder.index < |s.callers|
          && s.callers[s.holder.index].phase == Receiving(item.number) ==>
            item.request == s.callers[s.holder.index].request)
  }

  predicate ItemsFit(s: Session) {
    forall k :: 0 <= k < |s.stream| ==> ItemFits(s, s.stream[k])
  }

  /** A returned reply: a whole one, if it carries the number of the caller's exchange, answers
      the caller's request; with no other caller it always does. */
  predicate Answers(c: Caller, item: Item, own: nat, alone: bool) {
    && (item.Whole? ==> Echoes(item.request, item.reply) && (item.number == own ==> item.request == c.request))
    && (alone ==> item.Whole? && item.number == own)
  }

  predicate CallerFits(c: Caller, maxAttempts: int, alone: bool, closed: bool) {
    && c.attempts <= Max(1, maxAttempts)
    && c.exchanges <= c.attempts
    && (c.phase.Waiting? || c.phase.Holding? || c.phase.Ready? ==> c.exchanges < c.attempts)
    && (!c.phase.Idle? ==> c.attempts >= 1 && |c.request| >= HEADER_LENGTH)
    && (c.phase.Returned? ==> Answers(c, c.phase.item, c.phase.own, alone))
    && (c.phase == Raised(true) ==> closed || c.limited || c.attempts >= maxAttempts)
  }

  predicate CallersFit(s: Session) {
    forall i :: 0 <= i < |s.callers| ==> CallerFits(s.callers[i], s.policy.maxAttempts, |s.callers| == 1, s.closed)
  }

  predicate Inv(s: Session) {
    LockFits(s) && StreamFits(s) && ItemsFit(s) && CallersFit(s) && (s.stopped ==> s.closed)
  }

  lemma InitialFits(s: Session)
    requires Initial(s)
    ensures Inv(s)
  {
  }

  // ------------------------------------------------------------ each step keeps it

  /** A step of a caller outside a gap closes nobody else's. */
  lemma GapStays(s: Session, s': Session, i: nat)
    requires i < |s.callers| == |s'.callers| && !s.callers[i].phase.Failed?
    requires forall k :: 0 <= k < |s.callers| && k != i ==> s'.callers[k] == s.callers[k]
    ensures Gap(s) ==> Gap(s')
  {
    if Gap(s) {
      var j :| 0 <= j < |s.callers| && s.callers[j].phase.Failed?;
      assert s'.callers[j].phase.Failed?;
    }
  }

  /** Steps that touch neither the socket nor the lock. */
  lemma BookkeepingKeepsInv(s: Session, a: Action)
    requires Inv(s) && Enabled(s, a) && (a.Begin? || a.Retry? || a.GiveUp?)
    ensures Inv(Do(s, a))
  {
    var s' := Do(s, a);
    assert forall k :: 0 <= k < |s.callers| && k != a.i ==> s'.callers[k] == s.callers[k];
    GapStays(s, s', a.i);
    forall k | 0 <= k < |s'.stream| ensures ItemFits(s', s'.stream[k]) {
      assert ItemFits(s, s.stream[k]);
    }
  }

  lemma AcquiringKeepsInv(s: Session, a: Action)
    requires Inv(s) && Enabled(s, a) && a.Acquire?
    ensures Inv(Do(s, a))
  {
    var s' := Do(s, a);
    assert forall k :: 0 <= k < |s.callers| && k != a.i ==> s'.callers[k] == s.callers[k];
    GapStays(s, s', a.i);
    hide Gap;
    forall k | 0 <= k < |s'.stream| ensures ItemFits(s', s'.stream[k]) {
      assert ItemFits(s, s.stream[k]);
    }
  }

  lemma ConnectingKeepsInv(s: Session, a: Action)
    requires Inv(s) && Enabled(s, a) && a.Connect?
    ensures Inv(Do(s, a))
  {
    var s' := Do(s, a);
    assert forall k :: 0 <= k < |s.callers| && k != a.i ==> s'.callers[k] == s.callers[k];
    GapStays(s, s', a.i);
    hide Gap;
    forall k | 0 <= k < |s'.stream| ensures ItemFits(s', s'.stream[k]) {
      assert ItemFits(s, s.stream[k]);
    }
  }

  lemma SendingKeepsInv(s: Session, a: Action)
    requires Inv(s) && Enabled(s, a) && a.Send?
    ensures Inv(Do(s, a))
  {
    var s' := Do(s, a);
    assert forall k :: 0 <= k < |s.callers| && k != a.i ==> s'.callers[k] == s.callers[k];
    GapStays(s, s', a.i);
    forall k | 0 <= k < |s'.stream| ensures ItemFits(s', s'.stream[k]) {
      if k < |s.stream| { assert ItemFits(s, s.stream[k]); }
    }
  }

  /** A failure opens a gap, whatever it leaves in the socket. */
  lemma FailingKeepsInv(s: Session, a: Action)
    requires Inv(s) && Enabled(s, a) && a.Fail?
    ensures Inv(Do(s, a))
  {
    var s' := Do(s, a);
    assert Gap(s') by {
      assert s'.callers[a.i].phase.Failed?;
    }
    hide Gap, Expected;
    assert forall k :: 0 <= k < |s.callers| && k != a.i ==> s'.callers[k] == s.callers[k];
    forall k | 0 <= k < |s'.stream| ensures ItemFits(s', s'.stream[k]) {
      if k < |s.stream| { assert ItemFits(s, s.stream[k]); }
    }
  }

  lemma CuttingKeepsInv(s: Session, a: Action)
    requires Inv(s) && Enabled(s, a) && a.SendFails?
    ensures Inv(Do(s, a))
  {
    var s' := Do(s, a);
    assert Gap(s') by {
      assert s'.callers[a.i].phase.Failed?;
    }
    hide Gap, Expected;
    assert forall k :: 0 <= k < |s.callers| && k != a.i ==> s'.callers[k] == s.callers[k];
    forall k | 0 <= k < |s'.stream| ensures ItemFits(s', s'.stream[k]) {
      if k < |s.stream| { assert ItemFits(s, s.stream[k]); }
    }
  }

  /** A whole reply is taken from the front; alone, it is the caller's own. */
  lemma ReceivingKeepsInv(s: Session, a: Action)
    requires Inv(s) && Enabled(s, a) && a.Receive?
    ensures Inv(Do(s, a))
  {
    var s' := Do(s, a);
    assert forall k :: 0 <= k < |s.callers| && k != a.i ==> s'.callers[k] == s.callers[k];
    assert ItemFits(s, s.stream[0]);
    GapStays(s, s', a.i);
    forall k | 0 <= k < |s'.stream| ensures ItemFits(s', s'.stream[k]) {
      assert s'.stream[k] == if s.stream[0].Torn? then s.stream[k] else s.stream[k + 1];
    }
  }

  lemma ClosingKeepsInv(s: Session, a: Action)
    requires Inv(s) && Enabled(s, a) && (a.CloseAfterFailure? || a.CloseSession? || a.KeepaliveFails?)
    ensures Inv(Do(s, a))
  {
  }

  lemma KeepaliveKeepsInv(s: Session, a: Action)
    requires Inv(s) && Enabled(s, a)
    requires a.KeepaliveAcquires? || a.KeepaliveSends? || a.KeepaliveSkips? || a.KeepaliveReceives?
    ensures Inv(Do(s, a))
  {
    var s' := Do(s, a);
    assert Gap(s') == Gap(s);
    forall k | 0 <= k < |s'.stream| ensures ItemFits(s', s'.stream[k]) {
      if a.KeepaliveReceives? {
        assert s'.stream[k] == if s.stream[0].Torn? then s.stream[k] else s.stream[k + 1];
      } else if k < |s.stream| {
        assert ItemFits(s, s.stream[k]);
      }
    }
  }

  lemma DroppingKeepsInv(s: Session, a: Action)
    requires Inv(s) && Enabled(s, a) && a.ServerDrops?
    ensures Inv(Do(s, a))
  {
    var s' := Do(s, a);
    assert Gap(s') == Gap(s);
    forall k | 0 <= k < |s'.stream| ensures ItemFits(s', s'.stream[k]) {
      assert s'.stream[k] == if k < a.position then s.stream[k] else s.stream[k + 1];
    }
  }

  lemma StepKeepsInv(s: Session, a: Action)
    requires Inv(s) && Enabled(s, a)
    ensures Inv(Do(s, a))
  {
    if a.Begin? || a.Retry? || a.GiveUp? { BookkeepingKeepsInv(s, a); }
    else if a.Acquire? { AcquiringKeepsInv(s, a); }
    else if a.Connect? { ConnectingKeepsInv(s, a); }
    else if a.Send? { SendingKeepsInv(s, a); }
    else if a.SendFails? { CuttingKeepsInv(s, a); }
    else if a.Fail? { FailingKeepsInv(s, a); }
    else if a.Receive? { ReceivingKeepsInv(s, a); }
    else if a.CloseAfterFailure? || a.CloseSession? || a.KeepaliveFails? { ClosingKeepsInv(s, a); }
    else if a.ServerDrops? { DroppingKeepsInv(s, a); }
    else { KeepaliveKeepsInv(s, a); }
  }

  lemma {:induction false} RunKeepsInv(s: Session, actions: seq<Action>)
    requires Inv(s) && Legal(s, actions)
    ensures Inv(Run(s, actions))
    decreases |actions|
  {
    if actions != [] {
      StepKeepsInv(s, actions[0]);
      RunKeepsInv(Do(s, actions[0]), actions[1..]);
    }
  }

  // ------------------------------------------------------------ main results

  /** With one caller thread besides the keepalive, over every interleaving: what a call returns
      is the server's reply to the exchange the call's own last attempt sent, for the very
      request it was given; and a call makes at most as many exchanges as the budget allows,
      but always at least one attempt. */
  lemma OneCallerGetsItsOwnReply(s: Session, actions: seq<Action>)
    requires Initial(s) && |s.callers| == 1 && Legal(s, actions)
    ensures var c := Run(s, actions).callers[0];
            && (c.phase.Returned? ==>
                  && c.phase.item.Whole? && c.phase.item.number == c.phase.own
                  && c.phase.item.request == c.request && Echoes(c.request, c.phase.item.reply))
            && c.exchanges <= c.attempts <= Max(1, s.policy.maxAttempts)
  {
    InitialFits(s);
    RunKeepsInv(s, actions);
    var end := Run(s, actions);
    assert CallerFits(end.callers[0], s.policy.maxAttempts, true, end.closed);
  }

  /** Neither a value nor an acknowledge is decoded from a reply with a foreign transaction id. */
  predicate RefusedUnlessSameId(request: seq<Byte>, item: Item, signed: bool)
    requires item.Whole? && |request| >= HEADER_LENGTH && Echoes(item.request, item.reply)
  {
    TransactionId(item.request) != TransactionId(request) ==>
      DecodeReadInt(item.reply, request, signed, STRICT).Err? && ParseWriteResponse(item.reply, request, STRICT).Err?
  }

  /** With several callers a whole reply to another exchange can be returned, but unless the two
      exchanges share a transaction id, strict decoding refuses it. */
  lemma StaleRepliesAreRefused(s: Session, actions: seq<Action>, i: nat, signed: bool)
    requires Initial(s) && i < |s.callers| && Legal(s, actions)
    requires Run(s, actions).callers[i].phase.Returned?
    ensures var c := Run(s, actions).callers[i];
            c.phase.item.Whole? ==>
              && |c.request| >= HEADER_LENGTH && Echoes(c.phase.item.request, c.phase.item.reply)
              && (c.phase.item.number == c.phase.own ==> c.phase.item.request == c.request)
              && RefusedUnlessSameId(c.request, c.phase.item, signed)
  {
    InitialFits(s);
    RunKeepsInv(s, actions);
    var c := Run(s, actions).callers[i];
    assert CallerFits(c, s.policy.maxAttempts, |s.callers| == 1, Run(s, actions).closed);
    if c.phase.item.Whole? && TransactionId(c.phase.item.request) != TransactionId(c.request) {
      StaleReplyIsRefused(c.phase.item.reply, c.request, signed);
    }
  }

  /** A caller can only be about to take a reply that is not its own while some other caller is
      between its failure and its close. */
  lemma ForeignReplyNeedsGap(s: Session, actions: seq<Action>, i: nat)
    requires Initial(s) && Legal(s, actions) && Enabled(Run(s, actions), Receive(i))
    ensures var now := Run(s, actions);
            Gap(now) || (now.stream[0].Whole? && now.stream[0].number == now.callers[i].phase.number
                         && now.stream[0].request == now.callers[i].request)
  {
    InitialFits(s);
    RunKeepsInv(s, actions);
  }

  lemma RunFirst(s: Session, actions: seq<Action>, rest: seq<Action>, end: Session)
    requires actions != [] && actions[1..] == rest && Enabled(s, actions[0])
    requires Legal(Do(s, actions[0]), rest) && Run(Do(s, actions[0]), rest) == end
    ensures Legal(s, actions) && Run(s, actions) == end
  {
  }

  lemma NoSteps(s: Session)
    ensures Legal(s, []) && Run(s, []) == s
  {
  }

  lemma {:induction false} RunAppends(s: Session, first: seq<Action>, rest: seq<Action>)
    requires Legal(s, first) && Legal(Run(s, first), rest)
    ensures Legal(s, first + rest) && Run(s, first + rest) == Run(Run(s, first), rest)
    decreases |first|
  {
    if first == [] {
      assert first + rest == rest;
    } else {
      RunAppends(Do(s, first[0]), first[1..], rest);
      assert (first + rest)[1..] == first[1..] + rest;
    }
  }

  /** What a receive that failed leaves to be read. */
  function Left(first: seq<Byte>, late: seq<Byte>, torn: bool): Item {
    if torn then Torn else Whole(0, first, late)
  }

  /** Two callers, the first of which has just failed to receive and not yet closed the socket. */
  function InGap(first: seq<Byte>, late: seq<Byte>, torn: bool, policy: Policy): Session {
    Session(Free, true, [Left(first, late, torn)], 1,
            [Caller(Failed, first, 1, 1, false), Caller(Idle, [], 0, 0, false)], Resting, false, false, policy)
  }

  function TwoIdle(policy: Policy): Session {
    Session(Free, false, [], 0, [Caller(Idle, [], 0, 0, false), Caller(Idle, [], 0, 0, false)],
            Resting, false, false, policy)
  }

  /** The first caller, connected and about to send. */
  function AboutToSend(first: seq<Byte>, policy: Policy): Session {
    Session(ByCaller(0), true, [], 0, [Caller(Ready, first, 1, 0, false), Caller(Idle, [], 0, 0, false)],
            Resting, false, false, policy)
  }

  lemma FirstConnects(first: seq<Byte>, policy: Policy)
    requires |first| >= HEADER_LENGTH
    ensures var actions := [Begin(0, first, false), Acquire(0), Connect(0, Connected)];
            && Legal(TwoIdle(policy), actions)
            && Run(TwoIdle(policy), actions) == AboutToSend(first, policy)
  {
    var s0 := TwoIdle(policy);
    var s1 := Do(s0, Begin(0, first, false));
    var s2 := Do(s1, Acquire(0));
    var end := Do(s2, Connect(0, Connected));
    RunFirst(s2, [Connect(0, Connected)], [], end);
    RunFirst(s1, [Acquire(0), Connect(0, Connected)], [Connect(0, Connected)], end);
    RunFirst(s0, [Begin(0, first, false), Acquire(0), Connect(0, Connected)], [Acquire(0), Connect(0, Connected)], end);
  }

  lemma FirstFails(first: seq<Byte>, late: seq<Byte>, torn: bool, policy: Policy)
    requires Echoes(first, late)
    ensures var actions := [Send(0, late), Fail(0, torn)];
            && Legal(AboutToSend(first, policy), actions)
            && Run(AboutToSend(first, policy), actions) == InGap(first, late, torn, policy)
  {
    var s3 := AboutToSend(first, policy);
    var s4 := Do(s3, Send(0, late));
    var end := Do(s4, Fail(0, torn));
    RunFirst(s4, [Fail(0, torn)], [], end);
    RunFirst(s3, [Send(0, late), Fail(0, torn)], [Fail(0, torn)], end);
  }

  /** A budget of no attempts, or of a negative number, still makes one exchange; then no step
      but giving up is left to the caller once the socket is closed. */
  lemma NoBudgetStillTries(first: seq<Byte>, late: seq<Byte>, policy: Policy)
    requires Echoes(first, late) && policy.maxAttempts <= 0
    ensures var actions := [Begin(0, first, false), Acquire(0), Connect(0, Connected)]
                           + [Send(0, late), Fail(0, false)];
            && Initial(TwoIdle(policy)) && Legal(TwoIdle(policy), actions)
            && var s := Run(TwoIdle(policy), actions);
               && s.callers[0].exchanges == 1 && s.callers[0].attempts == 1
               && Enabled(s, CloseAfterFailure(0)) && !Enabled(Do(s, CloseAfterFailure(0)), Retry(0))
               && Enabled(Do(s, CloseAfterFailure(0)), GiveUp(0))
  {
    FirstConnects(first, policy);
    FirstFails(first, late, false, policy);
    RunAppends(TwoIdle(policy), [Begin(0, first, false), Acquire(0), Connect(0, Connected)],
               [Send(0, late), Fail(0, false)]);
  }

  /** These steps are possible from `s` and lead to `end`. */
  predicate Leads(s: Session, actions: seq<Action>, end: Session) {
    Legal(s, actions) && Run(s, actions) == end
  }

  lemma LeadsOn(s: Session, first: seq<Action>, middle: Session, rest: seq<Action>, end: Session)
    requires Leads(s, first, middle) && Leads(middle, rest, end)
    ensures Leads(s, first + rest, end)
  {
    RunAppends(s, first, rest);
  }

  lemma OneStep(s: Session, a: Action)
    requires Enabled(s, a)
    ensures Leads(s, [a], Do(s, a))
  {
    NoSteps(Do(s, a));
    RunFirst(s, [a], [], Do(s, a));
  }

  function OneIdle(policy: Policy): Session {
    Session(Free, false, [], 0, [Caller(Idle, [], 0, 0, false)], Resting, false, false, policy)
  }

  // ------------------------------------------------------------ the budget is there

  /** A call gives up only when the session has been closed, its deadline may have passed, or it
      has made every attempt that the budget allows. */
  lemma GivesUpOnlyWhenSpent(s: Session, actions: seq<Action>, i: nat)
    requires Initial(s) && Legal(s, actions) && i < |s.callers|
    requires Run(s, actions).callers[i].phase == Raised(true)
    ensures var end := Run(s, actions);
            end.closed || end.callers[i].limited || end.callers[i].attempts == Max(1, s.policy.maxAttempts)
  {
    InitialFits(s);
    RunKeepsInv(s, actions);
    var end := Run(s, actions);
    assert CallerFits(end.callers[i], s.policy.maxAttempts, |s.callers| == 1, end.closed);
  }

  /** What can make an attempt fail: the connection is refused, the send breaks off before or
      after the server has got the request, or the reply is late or read only in part. */
  datatype Mishap = Refused | Cut(delivered: bool) | Late(torn: bool)

  /** How many of these attempts came to an exchange. */
  function Exchanges(mishaps: seq<Mishap>): nat {
    if mishaps == [] then 0
    else Exchanges(mishaps[..|mishaps| - 1]) + (if mishaps[|mishaps| - 1].Refused? then 0 else 1)
  }

  /** How many of these requests reached the server. */
  function Delivered(mishaps: seq<Mishap>): nat {
    if mishaps == [] then 0
    else Delivered(mishaps[..|mishaps| - 1]) + (if mishaps[|mishaps| - 1] in {Refused, Cut(false)} then 0 else 1)
  }

  lemma {:induction false} ConnectedAttemptsExchange(mishaps: seq<Mishap>)
    requires Refused !in mishaps
    ensures Exchanges(mishaps) == |mishaps|
  {
    if mishaps != [] {
      ConnectedAttemptsExchange(mishaps[..|mishaps| - 1]);
    }
  }

  /** The only caller between two attempts, with the socket closed. */
  function Between(phase: Phase, request: seq<Byte>, attempts: nat, exchanges: nat, sent: nat, policy: Policy): Session
  {
    Session(Free, false, [], sent, [Caller(phase, request, attempts, exchanges, false)], Resting, false, false, policy)
  }

  /** The only caller, connected for its next exchange. */
  function Linked(request: seq<Byte>, attempts: nat, exchanges: nat, sent: nat, policy: Policy): Session {
    Session(ByCaller(0), true, [], sent, [Caller(Ready, request, attempts, exchanges, false)],
            Resting, false, false, policy)
  }

  const LINKS: seq<Action> := [Acquire(0), Connect(0, Connected)]

  lemma Links(request: seq<Byte>, attempts: nat, exchanges: nat, sent: nat, policy: Policy)
    ensures Leads(Between(Waiting, request, attempts, exchanges, sent, policy), LINKS,
                  Linked(request, attempts, exchanges, sent, policy))
  {
    hide Legal, Run;
    var s := Between(Waiting, request, attempts, exchanges, sent, policy);
    var end := Linked(request, attempts, exchanges, sent, policy);
    NoSteps(end);
    assert Do(Do(s, Acquire(0)), Connect(0, Connected)) == end;
    RunFirst(Do(s, Acquire(0)), [Connect(0, Connected)], [], end);
    RunFirst(s, LINKS, [Connect(0, Connected)], end);
  }

  /** One attempt that comes to grief, up to the close of the socket. */
  function Failing(mishap: Mishap, late: seq<Byte>): seq<Action> {
    match mishap
    case Refused => [Acquire(0), Connect(0, Unreachable), CloseAfterFailure(0)]
    case Cut(delivered) => LINKS + [SendFails(0, delivered, late), CloseAfterFailure(0)]
    case Late(torn) => LINKS + [Send(0, late), Fail(0, torn), CloseAfterFailure(0)]
  }

  lemma RefusalFails(request: seq<Byte>, late: seq<Byte>, n: nat, x: nat, sent: nat, policy: Policy)
    ensures Leads(Between(Waiting, request, n, x, sent, policy), Failing(Refused, late),
                  Between(Shut, request, n, x, sent, policy))
  {
    hide Legal, Run;
    var s, end := Between(Waiting, request, n, x, sent, policy), Between(Shut, request, n, x, sent, policy);
    var holding := Do(s, Acquire(0));
    NoSteps(end);
    assert Do(Do(holding, Connect(0, Unreachable)), CloseAfterFailure(0)) == end;
    RunFirst(Do(holding, Connect(0, Unreachable)), [CloseAfterFailure(0)], [], end);
    RunFirst(holding, [Connect(0, Unreachable), CloseAfterFailure(0)], [CloseAfterFailure(0)], end);
    RunFirst(s, Failing(Refused, late), [Connect(0, Unreachable), CloseAfterFailure(0)], end);
  }

  lemma CutFails(delivered: bool, request: seq<Byte>, late: seq<Byte>, n: nat, x: nat, sent: nat, policy: Policy)
    requires Echoes(request, late)
    ensures Leads(Between(Waiting, request, n, x, sent, policy), Failing(Cut(delivered), late),
                  Between(Shut, request, n, x + 1, sent + (if delivered then 1 else 0), policy))
  {
    hide Legal, Run;
    var linked := Linked(request, n, x, sent, policy);
    var end := Between(Shut, request, n, x + 1, sent + (if delivered then 1 else 0), policy);
    var rest := [SendFails(0, delivered, late), CloseAfterFailure(0)];
    NoSteps(end);
    Links(request, n, x, sent, policy);
    assert Do(Do(linked, SendFails(0, delivered, late)), CloseAfterFailure(0)) == end;
    RunFirst(Do(linked, SendFails(0, delivered, late)), [CloseAfterFailure(0)], [], end);
    RunFirst(linked, rest, [CloseAfterFailure(0)], end);
    LeadsOn(Between(Waiting, request, n, x, sent, policy), LINKS, linked, rest, end);
  }

  lemma LateFails(torn: bool, request: seq<Byte>, late: seq<Byte>, n: nat, x: nat, sent: nat, policy: Policy)
    requires Echoes(request, late)
    ensures Leads(Between(Waiting, request, n, x, sent, policy), Failing(Late(torn), late),
                  Between(Shut, request, n, x + 1, sent + 1, policy))
  {
    hide Legal, Run;
    var linked, end := Linked(request, n, x, sent, policy), Between(Shut, request, n, x + 1, sent + 1, policy);
    var asked := Do(linked, Send(0, late));
    var rest := [Send(0, late), Fail(0, torn), CloseAfterFailure(0)];
    NoSteps(end);
    Links(request, n, x, sent, policy);
    assert Do(Do(asked, Fail(0, torn)), CloseAfterFailure(0)) == end;
    RunFirst(Do(asked, Fail(0, torn)), [CloseAfterFailure(0)], [], end);
    RunFirst(asked, [Fail(0, torn), CloseAfterFailure(0)], [CloseAfterFailure(0)], end);
    RunFirst(linked, rest, [Fail(0, torn), CloseAfterFailure(0)], end);
    LeadsOn(Between(Waiting, request, n, x, sent, policy), LINKS, linked, rest, end);
  }

  lemma AttemptFails(mishap: Mishap, request: seq<Byte>, late: seq<Byte>, n: nat, x: nat, sent: nat, policy: Policy)
    requires Echoes(request, late)
    ensures Leads(Between(Waiting, request, n, x, sent, policy), Failing(mishap, late),
                  Between(Shut, request, n, x + (if mishap.Refused? then 0 else 1),
                          sent + (if mishap in {Refused, Cut(false)} then 0 else 1), policy))
  {
    hide Leads;
    match mishap
    case Refused => RefusalFails(request, late, n, x, sent, policy);
    case Cut(delivered) => CutFails(delivered, request, late, n, x, sent, policy);
    case Late(torn) => LateFails(torn, request, late, n, x, sent, policy);
  }

  /** A keepalive thread that cannot be started is no mishap: the call raises at once, is not
      tried again, and leaves the new connection open. */
  lemma MissingKeepaliveRaises(request: seq<Byte>, n: nat, x: nat, sent: nat, policy: Policy)
    requires policy.keepalive
    ensures Leads(Between(Waiting, request, n, x, sent, policy), [Acquire(0), Connect(0, NoKeepalive)],
                  Between(Raised(false), request, n, x, sent, policy).(open := true))
  {
    hide Legal, Run;
    var s := Between(Waiting, request, n, x, sent, policy);
    var end := Between(Raised(false), request, n, x, sent, policy).(open := true);
    assert Do(Do(s, Acquire(0)), Connect(0, NoKeepalive)) == end;
    OneStep(Do(s, Acquire(0)), Connect(0, NoKeepalive));
    RunFirst(s, [Acquire(0), Connect(0, NoKeepalive)], [Connect(0, NoKeepalive)], end);
  }

  /** Attempts that fail in these ways, each followed by a retry. */
  function Retried(mishaps: seq<Mishap>, late: seq<Byte>): seq<Action> {
    if mishaps == [] then []
    else Retried(mishaps[..|mishaps| - 1], late) + (Failing(mishaps[|mishaps| - 1], late) + [Retry(0)])
  }

  /** Where these attempts leave the caller. */
  function AfterMishaps(phase: Phase, request: seq<Byte>, attempts: nat, mishaps: seq<Mishap>, policy: Policy): Session
  {
    Between(phase, request, attempts, Exchanges(mishaps), Delivered(mishaps), policy)
  }

  lemma LastAttemptFails(request: seq<Byte>, late: seq<Byte>, mishaps: seq<Mishap>, policy: Policy)
    requires Echoes(request, late) && mishaps != []
    ensures var n := |mishaps|;
            Leads(AfterMishaps(Waiting, request, n, mishaps[..n - 1], policy), Failing(mishaps[n - 1], late),
                  AfterMishaps(Shut, request, n, mishaps, policy))
  {
    var n := |mishaps|;
    AttemptFails(mishaps[n - 1], request, late, n, Exchanges(mishaps[..n - 1]), Delivered(mishaps[..n - 1]), policy);
  }

  lemma {:induction false} MishapsLeaveBudget(request: seq<Byte>, late: seq<Byte>, mishaps: seq<Mishap>, policy: Policy)
    requires Echoes(request, late) && (mishaps == [] || |mishaps| < policy.maxAttempts)
    ensures Leads(AfterMishaps(Waiting, request, 1, [], policy), Retried(mishaps, late),
                  AfterMishaps(Waiting, request, |mishaps| + 1, mishaps, policy))
  {
    if mishaps != [] {
      var n := |mishaps|;
      var start := AfterMishaps(Waiting, request, 1, [], policy);
      var tried := AfterMishaps(Waiting, request, n, mishaps[..n - 1], policy);
      var failed := AfterMishaps(Shut, request, n, mishaps, policy);
      var end := Do(failed, Retry(0));
      MishapsLeaveBudget(request, late, mishaps[..n - 1], policy);
      LastAttemptFails(request, late, mishaps, policy);
      OneStep(failed, Retry(0));
      LeadsOn(tried, Failing(mishaps[n - 1], late), failed, [Retry(0)], end);
      LeadsOn(start, Retried(mishaps[..n - 1], late), tried, Failing(mishaps[n - 1], late) + [Retry(0)], end);
    }
  }

  /** The call, then `before` up to its last attempt, then `last`. */
  lemma CallLeads(request: seq<Byte>, before: seq<Action>, tried: Session, last: seq<Action>, end: Session,
                  policy: Policy)
    requires |request| >= HEADER_LENGTH
    requires Leads(AfterMishaps(Waiting, request, 1, [], policy), before, tried) && Leads(tried, last, end)
    ensures Initial(OneIdle(policy))
    ensures Leads(OneIdle(policy), [Begin(0, request, false)] + (before + last), end)
  {
    var waiting := AfterMishaps(Waiting, request, 1, [], policy);
    LeadsOn(waiting, before, tried, last, end);
    OneStep(OneIdle(policy), Begin(0, request, false));
    LeadsOn(OneIdle(policy), [Begin(0, request, false)], waiting, before + last, end);
  }

  lemma AttemptWorks(request: seq<Byte>, reply: seq<Byte>, n: nat, x: nat, sent: nat, policy: Policy)
    requires Echoes(request, reply)
    ensures Leads(Between(Waiting, request, n, x, sent, policy), LINKS + [Send(0, reply), Receive(0)],
                  Between(Returned(Whole(sent, request, reply), sent), request, n, x + 1, sent + 1, policy)
                  .(open := true))
  {
    hide Legal, Run;
    var s, linked := Between(Waiting, request, n, x, sent, policy), Linked(request, n, x, sent, policy);
    var asked := Do(linked, Send(0, reply));
    var end := Do(asked, Receive(0));
    NoSteps(end);
    Links(request, n, x, sent, policy);
    RunFirst(asked, [Receive(0)], [], end);
    RunFirst(linked, [Send(0, reply), Receive(0)], [Receive(0)], end);
    LeadsOn(s, LINKS, linked, [Send(0, reply), Receive(0)], end);
  }

  /** The budget is really there: any number of attempts short of it can fail, each in any way,
      and the next one still returns the server's reply to this very exchange. */
  lemma BudgetIsAvailable(request: seq<Byte>, late: seq<Byte>, reply: seq<Byte>, mishaps: seq<Mishap>, policy: Policy)
    requires Echoes(request, late) && Echoes(request, reply) && |mishaps| < Max(1, policy.maxAttempts)
    ensures var actions := [Begin(0, request, false)]
                           + (Retried(mishaps, late) + (LINKS + [Send(0, reply), Receive(0)]));
            && Initial(OneIdle(policy)) && Legal(OneIdle(policy), actions)
            && Run(OneIdle(policy), actions).callers[0]
               == Caller(Returned(Whole(Delivered(mishaps), request, reply), Delivered(mishaps)), request,
                         |mishaps| + 1, Exchanges(mishaps) + 1, false)
    ensures Refused !in mishaps ==> Exchanges(mishaps) == |mishaps|
  {
    var n, x, sent := |mishaps| + 1, Exchanges(mishaps), Delivered(mishaps);
    MishapsLeaveBudget(request, late, mishaps, policy);
    AttemptWorks(request, reply, n, x, sent, policy);
    CallLeads(request, Retried(mishaps, late), AfterMishaps(Waiting, request, n, mishaps, policy),
              LINKS + [Send(0, reply), Receive(0)],
              Between(Returned(Whole(sent, request, reply), sent), request, n, x + 1, sent + 1, policy).(open := true),
              policy);
    if Refused !in mishaps {
      ConnectedAttemptsExchange(mishaps);
    }
  }

  /** And no more than that: once this many attempts have failed, in whatever ways, no retry is left. */
  lemma BudgetIsSpent(request: seq<Byte>, late: seq<Byte>, mishaps: seq<Mishap>, policy: Policy)
    requires Echoes(request, late) && |mishaps| == Max(1, policy.maxAttempts)
    ensures var n := |mishaps|;
            var actions := [Begin(0, request, false)]
                           + (Retried(mishaps[..n - 1], late) + Failing(mishaps[n - 1], late));
            && Initial(OneIdle(policy)) && Legal(OneIdle(policy), actions)
            && var end := Run(OneIdle(policy), actions);
               && end.callers[0] == Caller(Shut, request, n, Exchanges(mishaps), false)
               && !Enabled(end, Retry(0)) && Enabled(end, GiveUp(0))
  {
    var n := |mishaps|;
    MishapsLeaveBudget(request, late, mishaps[..n - 1], policy);
    LastAttemptFails(request, late, mishaps, policy);
    CallLeads(request, Retried(mishaps[..n - 1], late), AfterMishaps(Waiting, request, n, mishaps[..n - 1], policy),
              Failing(mishaps[n - 1], late), AfterMishaps(Shut, request, n, mishaps, policy), policy);
  }

  // ------------------------------------------------------------ after close

  /** Some step opens a new connection. */
  predicate Reopens(s: Session, actions: seq<Action>)
    requires Legal(s, actions)
    decreases |actions|
  {
    actions != []
    && (|| (actions[0].Connect? && actions[0].outcome.Connected? && !s.open)
        || Reopens(Do(s, actions[0]), actions[1..]))
  }

  lemma {:induction false} StoppedUntilReopened(s: Session, actions: seq<Action>)
    requires Legal(s, actions) && CloseSession !in actions
    ensures Run(s, actions).stopped <==> s.stopped && !(s.policy.keepalive && Reopens(s, actions))
    decreases |actions|
  {
    if actions != [] {
      StoppedUntilReopened(Do(s, actions[0]), actions[1..]);
    }
  }

  /** A close leaves no connection behind. Afterwards, up to another close, no call retries, each
      that has failed can only give up, and the keepalive does not start again, exactly as long
      as no call opens a new connection in a session with a keepalive thread. */
  lemma CloseHoldsUntilReopened(s: Session, actions: seq<Action>, i: nat)
    requires Legal(Do(s, CloseSession), actions) && CloseSession !in actions
    ensures !Do(s, CloseSession).open && Do(s, CloseSession).stream == []
    ensures var after := Do(s, CloseSession);
            var end := Run(after, actions);
            if s.policy.keepalive && Reopens(after, actions) then !end.stopped
            else && !Enabled(end, Retry(i)) && !Enabled(end, KeepaliveAcquires)
                 && (At(end, i, Shut) ==> Enabled(end, GiveUp(i)))
  {
    StoppedUntilReopened(Do(s, CloseSession), actions);
  }

  /** The only caller waits for the lock while the session is closed. */
  function ClosedWaiting(request: seq<Byte>, policy: Policy): Session {
    Between(Waiting, request, 1, 0, 0, policy).(stopped := true, closed := true)
  }

  lemma CloseDuringCall(request: seq<Byte>, policy: Policy)
    requires |request| >= HEADER_LENGTH
    ensures Leads(OneIdle(policy), [Begin(0, request, false), CloseSession], ClosedWaiting(request, policy))
  {
    hide Legal, Run;
    var waiting := Between(Waiting, request, 1, 0, 0, policy);
    assert Do(OneIdle(policy), Begin(0, request, false)) == waiting;
    OneStep(waiting, CloseSession);
    RunFirst(OneIdle(policy), [Begin(0, request, false), CloseSession], [CloseSession], ClosedWaiting(request, policy));
  }

  lemma CallReopens(request: seq<Byte>, policy: Policy)
    requires policy.keepalive
    ensures Leads(ClosedWaiting(request, policy), LINKS, Linked(request, 1, 0, 0, policy).(closed := true))
  {
    hide Legal, Run;
    var s, end := ClosedWaiting(request, policy), Linked(request, 1, 0, 0, policy).(closed := true);
    assert Do(Do(s, Acquire(0)), Connect(0, Connected)) == end;
    OneStep(Do(s, Acquire(0)), Connect(0, Connected));
    RunFirst(s, LINKS, [Connect(0, Connected)], end);
  }

  /** And a call that waits for the lock during the close does that: in a session with a keepalive
      thread it opens a new connection, which stays open, and the keepalive can start again. */
  lemma WaitingCallUndoesClose(request: seq<Byte>, reply: seq<Byte>, policy: Policy)
    requires Echoes(request, reply) && policy.keepalive
    ensures var actions := [Begin(0, request, false), CloseSession] + (LINKS + [Send(0, reply), Receive(0)]);
            && Initial(OneIdle(policy)) && Legal(OneIdle(policy), actions)
            && var end := Run(OneIdle(policy), actions);
               end.closed && end.open && !end.stopped && Enabled(end, KeepaliveAcquires)
  {
    hide Legal, Run;
    var linked := Linked(request, 1, 0, 0, policy).(closed := true);
    var asked := Do(linked, Send(0, reply));
    OneStep(asked, Receive(0));
    RunFirst(linked, [Send(0, reply), Receive(0)], [Receive(0)], Do(asked, Receive(0)));
    CallReopens(request, policy);
    LeadsOn(ClosedWaiting(request, policy), LINKS, linked, [Send(0, reply), Receive(0)], Do(asked, Receive(0)));
    CloseDuringCall(request, policy);
    LeadsOn(OneIdle(policy), [Begin(0, request, false), CloseSession], ClosedWaiting(request, policy),
            LINKS + [Send(0, reply), Receive(0)], Do(asked, Receive(0)));
  }

  lemma OutOfTheGap(first: seq<Byte>, late: seq<Byte>, torn: bool, second: seq<Byte>, reply: seq<Byte>, policy: Policy)
    requires Echoes(first, late) && Echoes(second, reply)
    ensures var actions := [Begin(1, second, false), Acquire(1), Connect(1, Connected), Send(1, reply), Receive(1)];
            && Legal(InGap(first, late, torn, policy), actions)
            && Run(InGap(first, late, torn, policy), actions).callers[1].phase == Returned(Left(first, late, torn), 1)
  {
    hide Legal, Run;
    var s5 := InGap(first, late, torn, policy);
    var s6 := Do(s5, Begin(1, second, false));
    var s7 := Do(s6, Acquire(1));
    var s8 := Do(s7, Connect(1, Connected));
    var s9 := Do(s8, Send(1, reply));
    var end := Do(s9, Receive(1));
    var t8 := [Send(1, reply), Receive(1)];
    var t7 := [Connect(1, Connected), Send(1, reply), Receive(1)];
    var t6 := [Acquire(1), Connect(1, Connected), Send(1, reply), Receive(1)];
    NoSteps(end);
    RunFirst(s9, [Receive(1)], [], end);
    RunFirst(s8, t8, [Receive(1)], end);
    RunFirst(s7, t7, t8, end);
    RunFirst(s6, t6, t7, end);
    RunFirst(s5, [Begin(1, second, false), Acquire(1), Connect(1, Connected), Send(1, reply), Receive(1)], t6, end);
  }

  /** The gap is real: when the first caller's receive times out and the second takes the lock
      before the first closes the socket, the second is handed the first one's late reply, or
      the rest of it when the first caller had begun to read it. */
  lemma GapHandsOverAForeignReply(first: seq<Byte>, late: seq<Byte>, torn: bool, second: seq<Byte>, reply: seq<Byte>,
                                  policy: Policy)
    requires Echoes(first, late) && Echoes(second, reply)
    ensures var actions := [Begin(0, first, false), Acquire(0), Connect(0, Connected)] + [Send(0, late), Fail(0, torn)]
                           + [Begin(1, second, false), Acquire(1), Connect(1, Connected), Send(1, reply), Receive(1)];
            && Initial(TwoIdle(policy)) && Legal(TwoIdle(policy), actions)
            && Run(TwoIdle(policy), actions).callers[1].phase == Returned(Left(first, late, torn), 1)
  {
    FirstConnects(first, policy);
    FirstFails(first, late, torn, policy);
    OutOfTheGap(first, late, torn, second, reply, policy);
    RunAppends(TwoIdle(policy), [Begin(0, first, false), Acquire(0), Connect(0, Connected)],
               [Send(0, late), Fail(0, torn)]);
    RunAppends(TwoIdle(policy),
               [Begin(0, first, false), Acquire(0), Connect(0, Connected)] + [Send(0, late), Fail(0, torn)],
               [Begin(1, second, false), Acquire(1), Connect(1, Connected), Send(1, reply), Receive(1)]);
  }
}
