/** The timer service of gps/utils/LocTimer.cpp as a protocol between three parties: client
    threads that start and stop timers, the message thread that owns the heap, and the poll
    thread that is woken by the kernel timer.  Every kernel call and every queue operation
    is a step of its own, so the steps of the three parties interleave freely.

    Main results: no reachable state has lost a timer (`NoTimerIsLost`), no message or heap
    slot refers to a deleted timer, every timer ends at most once (`TimerLivesOnce`), a
    callback is for the timer that was popped exactly unless that one was stopped meanwhile
    (`CallbackIsOwnUnlessStopped`), and once clock and clients rest the service comes to rest
    with every due timer delivered (`ServiceComesToRest`, `ServiceCanComeToRest`). */
module LocTimerProtocol {
  import opened Wrappers
  import opened LocHeap

  // ---------- Deadlines and ranks ----------

  const NANOS_PER_SEC := 1_000_000_000
  const TWO_31 := 0x8000_0000
  const TWO_32 := 0x1_0000_0000

  datatype Timespec = Timespec(sec: int, nsec: int)

  function Nanos(t: Timespec): int {
    t.sec * NANOS_PER_SEC + t.nsec
  }

  /** A normalised time after boot whose seconds fit the `int` that `ranks` computes in.
      The zero time is left out: written to the kernel timer it disarms it. */
  predicate Normal(t: Timespec) {
    0 <= t.sec < TWO_31 && 0 <= t.nsec < NANOS_PER_SEC && 0 < Nanos(t)
  }

  type Deadline = t: Timespec | Normal(t) witness Timespec(1, 0)

  /** A `LocTimerDelegate`: `id` stands for its address, `client` for the `LocTimer` that
      made it. */
  datatype Timer = Timer(id: nat, client: nat, at: Deadline)

  /** Conversion to a 32-bit `int`. */
  function ToInt32(x: int): int {
    (x + TWO_31) % TWO_32 - TWO_31
  }

  /** `LocTimerDelegate::ranks`: the earlier deadline ranks higher. */
  function RanksAt(a: Timespec, b: Timespec): int {
    var rank := ToInt32(b.sec - a.sec);
    if rank == 0 then ToInt32(b.nsec - a.nsec) else rank
  }

  /** The rank decides as the difference in nanoseconds does, as long as the seconds lie
      within `int` range of each other. */
  lemma RankIsEarlierDeadline(a: Timespec, b: Timespec)
    requires 0 <= a.nsec < NANOS_PER_SEC && 0 <= b.nsec < NANOS_PER_SEC
    requires -TWO_31 <= b.sec - a.sec < TWO_31
    ensures RanksAt(a, b) > 0 <==> Nanos(a) < Nanos(b)
    ensures RanksAt(a, b) == 0 <==> Nanos(a) == Nanos(b)
  {
  }

  /** Beyond that range the conversion turns the order around. */
  lemma RankWrapsOutsideIntRange()
    ensures exists a, b :: Nanos(a) < Nanos(b) && RanksAt(b, a) > 0
  {
    var a, b := Timespec(0, 0), Timespec(TWO_31 + 1, 0);
    assert ToInt32(a.sec - b.sec) == TWO_31 - 1;
    assert Nanos(a) < Nanos(b) && RanksAt(b, a) > 0;
  }

  const ranks: Ranking<Timer> := (a: Timer, b: Timer) => RanksAt(a.at, b.at)

  lemma OutRanksIsEarlier(a: Timer, b: Timer)
    ensures OutRanks(ranks, a, b) <==> Nanos(a.at) < Nanos(b.at)
  {
    RankIsEarlierDeadline(a.at, b.at);
  }

  lemma RanksIsStrictWeak()
    ensures StrictWeak(ranks)
  {
    forall a, b ensures OutRanks(ranks, a, b) <==> Nanos(a.at) < Nanos(b.at) {
      OutRanksIsEarlier(a, b);
    }
  }

  /** The deadline `LocTimer::start` computes. */
  function FutureTime(now: Timespec, timeOutInMs: nat): Timespec
    requires 0 <= now.nsec < NANOS_PER_SEC
  {
    var sec := now.sec + timeOutInMs / 1000;
    var nsec := now.nsec + timeOutInMs % 1000 * 1_000_000;
    if nsec >= NANOS_PER_SEC then Timespec(sec + nsec / NANOS_PER_SEC, nsec % NANOS_PER_SEC)
    else Timespec(sec, nsec)
  }

  /** It is exactly `timeOutInMs` after `now`, and normalised. */
  lemma FutureTimeIsExact(now: Timespec, timeOutInMs: nat)
    requires 0 <= now.nsec < NANOS_PER_SEC
    ensures var t := FutureTime(now, timeOutInMs);
      Nanos(t) == Nanos(now) + timeOutInMs * 1_000_000 && 0 <= t.nsec < NANOS_PER_SEC
  {
    assert timeOutInMs == timeOutInMs / 1000 * 1000 + timeOutInMs % 1000;
  }

  // ---------- The protocol state ----------

  datatype Msg = MsgPush(timer: Timer) | MsgRemove(timer: Timer) | MsgExpire

  /** Where the poll thread is in `run` and `LocTimerContainer::expire`. */
  datatype PollPc = Waiting | Woken | Disarmed | Unpolled

  /** Where the message thread is: taking messages, in the pop loop of an expire message with
      `firing` just popped, in `expire()` of a popped timer whose client it has read, or in
      `updateSoonestTime` before its two kernel calls. */
  datatype TaskPc =
    | Idle
    | Expiring(timerOfNow: Timer, firing: Option<Timer>)
    | Calling(timerOfNow: Timer, popped: Timer)
    | Polling(curTop: Timer)
    | Arming(curTop: Timer)

  /** One call of a client's `timeOutCallback`: made by `expire()` of `popped`, when the stop
      it forced on the client ended `ended`. */
  datatype Callback = Callback(popped: Timer, ended: Timer)

  datatype State = State(
    heap: Tree<Timer>, armed: Option<Deadline>, polled: bool,
    queue: seq<Msg>, task: TaskPc, poll: PollPc, now: Deadline,
    mTimer: map<nat, Timer>,  // the timer each client has, if it has one
    // bookkeeping: timers created, stopped by their clients, deleted, and the callbacks made
    started: set<Timer>, stopped: set<Timer>, deleted: set<Timer>, callbacks: seq<Callback>)

  /** `t` is the timer of its client: it was not stopped, by the client or by an `expire()`. */
  predicate Running(s: State, t: Timer) {
    t.client in s.mTimer && s.mTimer[t.client] == t
  }

  /** The timer the message thread has popped and is not done with. */
  function InHand(task: TaskPc): Option<Timer> {
    match task
    case Expiring(_, firing) => firing
    case Calling(_, popped) => Some(popped)
    case _ => None
  }

  function Ended(callbacks: seq<Callback>): seq<Timer> {
    seq(|callbacks|, i requires 0 <= i < |callbacks| => callbacks[i].ended)
  }

  function Popped(callbacks: seq<Callback>): seq<Timer> {
    seq(|callbacks|, i requires 0 <= i < |callbacks| => callbacks[i].popped)
  }

  datatype Update = Keep | Disarm | Arm(curTop: Timer)

  /** What `updateSoonestTime(priorTop)` decides when `curTop` is the top now. */
  function UpdateSoonestTime(curTop: Option<Timer>, priorTop: Option<Timer>): Update {
    if curTop == priorTop then Keep
    else if curTop.None? then Disarm
    else if priorTop.None? || OutRanks(ranks, curTop.value, priorTop.value) then Arm(curTop.value)
    else Keep
  }

  function AfterUpdate(u: Update): TaskPc {
    if u.Arm? then Polling(u.curTop) else Idle
  }

  /** `timerOfNow`, the comparison object of an expire message. */
  function TimerOfNow(now: Deadline): Timer {
    Timer(0, 0, now)
  }

  datatype Action =
    | Start(timer: Timer) | Stop(client: nat) | Tick(now: Deadline)  // clients and clock
    | Dequeue | FireNext | CallBack | AddPoll | SetTime              // message thread
    | Wake | DisarmTimer | RemovePoll | SendExpire                   // poll thread

  /** `start` of a client that has a timer, and `stop` of one that has none, do nothing. */
  ghost predicate Enabled(s: State, a: Action) {
    match a
    case Start(t) => t.client !in s.mTimer && forall u :: u in s.started ==> u.id != t.id
    case Stop(c) => c in s.mTimer
    case Tick(n) => Nanos(s.now) <= Nanos(n)
    case Dequeue => s.task.Idle? && s.queue != []
    case FireNext => s.task.Expiring?
    case CallBack => s.task.Calling?
    case AddPoll => s.task.Polling?
    case SetTime => s.task.Arming?
    case Wake => s.poll.Waiting? && s.polled && s.armed.Some? && Nanos(s.armed.value) <= Nanos(s.now)
    case DisarmTimer => s.poll.Woken?
    case RemovePoll => s.poll.Disarmed?
    case SendExpire => s.poll.Unpolled?
  }

  function ProcMsg(s: State, m: Msg): State {
    match m
    case MsgPush(t) =>
      var heap := Apply(ranks, s.heap, Op.Push(t));
      s.(heap := heap, task := AfterUpdate(UpdateSoonestTime(Top(heap), Top(s.heap))))
    case MsgRemove(t) =>
      var removed := if s.heap.Branch? && Without(ranks, s.heap, t).Some? then Some(t) else None;
      var heap := Apply(ranks, s.heap, Op.Remove(t));
      s.(heap := heap, deleted := s.deleted + {t},
         task := if Top(s.heap) == removed then AfterUpdate(UpdateSoonestTime(Top(heap), None)) else Idle)
    case MsgExpire =>
      s.(heap := Apply(ranks, s.heap, Op.Pop), task := Expiring(TimerOfNow(s.now), Top(s.heap)))
  }

  /** `stop` of a client that has a timer, under the client's lock. */
  function StopClient(s: State, client: nat): State
    requires client in s.mTimer
  {
    s.(mTimer := s.mTimer - {client}, queue := s.queue + [MsgRemove(s.mTimer[client])])
  }

  function PopIfOutRanks(s: State, timerOfNow: Timer): State {
    if s.heap.Branch? && !OutRanks(ranks, timerOfNow, s.heap.data)
    then s.(heap := Apply(ranks, s.heap, Op.Pop), task := Expiring(timerOfNow, Top(s.heap)))
    else s.(task := Expiring(timerOfNow, None))
  }

  /** The head of the loop of an expire message: reads the client of the popped timer, or
      passes over a timer that has none any more, or leaves the loop and updates the kernel
      timer. */
  function Fire(s: State): State
    requires s.task.Expiring?
  {
    var n := s.task.timerOfNow;
    if s.task.firing.None? then s.(task := AfterUpdate(UpdateSoonestTime(Top(s.heap), None)))
    else if Running(s, s.task.firing.value) then s.(task := Calling(n, s.task.firing.value))
    else PopIfOutRanks(s, n)
  }

  /** The rest of `expire()`: it stops the client that it read, whatever timer that has by
      now, and calls back if it had one. */
  function Expire(s: State): State
    requires s.task.Calling?
  {
    var t := s.task.popped;
    if t.client in s.mTimer
    then StopClient(s, t.client).(callbacks := s.callbacks + [Callback(t, s.mTimer[t.client])])
    else s
  }

  function Next(s: State, a: Action): State
    requires Enabled(s, a)
  {
    match a
    case Start(t) => s.(started := s.started + {t}, mTimer := s.mTimer[t.client := t], queue := s.queue + [MsgPush(t)])
    case Stop(c) => StopClient(s, c).(stopped := s.stopped + {s.mTimer[c]})
    case Tick(n) => s.(now := n)
    case Dequeue => ProcMsg(s.(queue := s.queue[1..]), s.queue[0])
    case FireNext => Fire(s)
    case CallBack => PopIfOutRanks(Expire(s), s.task.timerOfNow)
    case AddPoll => s.(polled := true, task := Arming(s.task.curTop))
    case SetTime => s.(armed := Some(s.task.curTop.at), task := Idle)
    case Wake => s.(poll := Woken)
    case DisarmTimer => s.(armed := None, poll := Disarmed)
    case RemovePoll => s.(polled := false, poll := Unpolled)
    case SendExpire => s.(poll := Waiting, queue := s.queue + [MsgExpire])
  }

  function Init(now: Deadline): State {
    State(Empty, None, false, [], Idle, Waiting, now, map[], {}, {}, {}, [])
  }

  /** The state after a trace of actions; `None` if one of them was not enabled. */
  ghost function Exec(s: State, trace: seq<Action>): Option<State> {
    if trace == [] then Some(s)
    else
      var r := Exec(s, trace[..|trace| - 1]);
      if r.Some? && Enabled(r.value, trace[|trace| - 1]) then Some(Next(r.value, trace[|trace| - 1])) else None
  }

  /** The same from a fresh service. */
  ghost function After(boot: Deadline, trace: seq<Action>): Option<State> {
    Exec(Init(boot), trace)
  }

  // ---------- The kernel timer covers the heap ----------

  /** An expire message is queued or on its way. */
  predicate ExpireComing(s: State) {
    !s.poll.Waiting? || MsgExpire in s.queue
  }

  /** A non-empty heap is watched: the kernel timer is armed for its top and polled, or an
      expire message is coming, or the message thread is not done with the heap. */
  predicate Covered(s: State) {
    s.heap.Branch? ==>
      || (s.armed == Some(s.heap.data.at) && s.polled)
      || ExpireComing(s)
      || !s.task.Idle?
  }

  /** What holds inside the message thread's own steps. */
  predicate TaskInv(s: State) {
    match s.task
    case Idle => true
    case Expiring(n, firing) =>
      firing.None? ==> s.heap.Branch? ==> OutRanks(ranks, n, s.heap.data)
    case Calling(_, _) => true
    case Polling(t) => Top(s.heap) == Some(t)
    case Arming(t) => Top(s.heap) == Some(t) && (s.polled || ExpireComing(s))
  }

  ghost predicate KernelInv(s: State) {
    Ordered(ranks, s.heap) && Sized(s.heap) && Covered(s) && TaskInv(s)
  }

  lemma ApplyKeepsKernelHeap(heap: Tree<Timer>, op: Op<Timer>)
    requires Ordered(ranks, heap) && Sized(heap)
    ensures Ordered(ranks, Apply(ranks, heap, op)) && Sized(Apply(ranks, heap, op))
  {
    RanksIsStrictWeak();
    ApplyKeepsHeap(ranks, heap, op);
  }

  /** A push leaves the old top or puts the new timer there because it outranks the old top:
      so whenever the top changes, the kernel timer is set. */
  lemma PushUpdatesKernel(heap: Tree<Timer>, t: Timer)
    requires Ordered(ranks, heap)
    ensures var after := Apply(ranks, heap, Op.Push(t));
      && after.Branch?
      && UpdateSoonestTime(Top(after), Top(heap)) == (if Top(after) == Top(heap) then Keep else Arm(after.data))
  {
    RanksIsStrictWeak();
    if heap.Branch? {
      PushKeepsOrder(ranks, heap, t);
    }
  }

  /** Removing anything but the top leaves the top. */
  lemma RemoveBelowKeepsTop(heap: Tree<Timer>, t: Timer)
    requires heap.Branch? && heap.data != t
    ensures Top(Apply(ranks, heap, Op.Remove(t))) == Top(heap)
  {
  }

  /** The branch of `updateSoonestTime` that stops polling is never taken: no caller passes a
      prior top when the heap has become empty. */
  lemma DisarmBranchIsDead(heap: Tree<Timer>, t: Timer)
    requires Ordered(ranks, heap)
    ensures !UpdateSoonestTime(Top(Apply(ranks, heap, Op.Push(t))), Top(heap)).Disarm?
    ensures !UpdateSoonestTime(Top(heap), None).Disarm?
  {
    PushUpdatesKernel(heap, t);
  }

  lemma MessageKeepsKernelInv(s: State)
    requires KernelInv(s) && Enabled(s, Dequeue)
    ensures KernelInv(Next(s, Dequeue))
  {
    var m := s.queue[0];
    assert s.queue == [m] + s.queue[1..];
    match m
    case MsgPush(t) =>
      ApplyKeepsKernelHeap(s.heap, Op.Push(t));
      PushUpdatesKernel(s.heap, t);
    case MsgRemove(t) =>
      ApplyKeepsKernelHeap(s.heap, Op.Remove(t));
      if s.heap.Branch? && s.heap.data != t {
        RemoveBelowKeepsTop(s.heap, t);
      }
    case MsgExpire =>
      ApplyKeepsKernelHeap(s.heap, Op.Pop);
  }

  /** Every step of every party keeps the kernel timer watching the heap. */
  lemma StepKeepsKernelInv(s: State, a: Action)
    requires KernelInv(s) && Enabled(s, a)
    ensures KernelInv(Next(s, a))
  {
    match a
    case Dequeue => MessageKeepsKernelInv(s);
    case FireNext => ApplyKeepsKernelHeap(s.heap, Op.Pop);
    case CallBack => ApplyKeepsKernelHeap(s.heap, Op.Pop);
    case _ =>
  }

  // ---------- The life of a timer ----------

  function CountMsg(queue: seq<Msg>, m: Msg): nat {
    multiset(queue)[m]
  }

  function Bit(b: bool): nat {
    if b then 1 else 0
  }

  /** How many places hold `t` on its way through the heap. */
  ghost function Places(s: State, t: Timer): nat {
    CountMsg(s.queue, MsgPush(t)) + Occurs(s.heap, t) + Bit(InHand(s.task) == Some(t))
  }

  /** No push of `t` is queued behind its removal. */
  predicate PushedBeforeRemoved(queue: seq<Msg>, t: Timer) {
    forall i, j :: 0 <= i < j < |queue| ==> !(queue[i] == MsgRemove(t) && queue[j] == MsgPush(t))
  }

  /** The accounts of one timer. */
  ghost predicate TimerInv(s: State, t: Timer) {
    // a started timer is running, or was stopped, or was ended by a callback, one of these and once
    && Bit(Running(s, t)) + Bit(t in s.stopped) + multiset(Ended(s.callbacks))[t] == Bit(t in s.started)
    // it is running, or its removal is queued, or it is deleted
    && Bit(Running(s, t)) + CountMsg(s.queue, MsgRemove(t)) + Bit(t in s.deleted) == Bit(t in s.started)
    // it is in one place at most, surely while it runs, and nowhere before and after its life;
    // when its own `expire()` has called back it is in none
    && Places(s, t) + multiset(Popped(s.callbacks))[t] <= Bit(t in s.started)
    && (Running(s, t) ==> Places(s, t) == 1)
    && (t in s.deleted ==> Places(s, t) == 0)
    && PushedBeforeRemoved(s.queue, t)
  }

  /** A client's timer is its own. */
  predicate ClientInv(s: State) {
    forall c :: c in s.mTimer ==> s.mTimer[c].client == c
  }

  lemma QueueAppend(queue: seq<Msg>, m: Msg, x: Msg)
    ensures CountMsg(queue + [m], x) == CountMsg(queue, x) + Bit(x == m)
  {
  }

  lemma CallbackAppend(callbacks: seq<Callback>, c: Callback, x: Timer)
    ensures multiset(Ended(callbacks + [c]))[x] == multiset(Ended(callbacks))[x] + Bit(x == c.ended)
    ensures multiset(Popped(callbacks + [c]))[x] == multiset(Popped(callbacks))[x] + Bit(x == c.popped)
  {
    assert Ended(callbacks + [c]) == Ended(callbacks) + [c.ended];
    assert Popped(callbacks + [c]) == Popped(callbacks) + [c.popped];
  }

  lemma QueueHead(queue: seq<Msg>, x: Msg)
    requires queue != []
    ensures CountMsg(queue, x) == Bit(x == queue[0]) + CountMsg(queue[1..], x)
  {
    assert queue == [queue[0]] + queue[1..];
  }

  lemma HeapAccount(heap: Tree<Timer>, op: Op<Timer>, y: Timer)
    requires Ordered(ranks, heap)
    ensures op.Push? ==> Occurs(Apply(ranks, heap, op), y) == Occurs(heap, y) + Bit(y == op.x)
    ensures op.Pop? ==> Occurs(Apply(ranks, heap, op), y) + Bit(Top(heap) == Some(y)) == Occurs(heap, y)
    ensures op.Remove? ==>
      Occurs(Apply(ranks, heap, op), y) + Bit(y == op.x && Occurs(heap, y) > 0) == Occurs(heap, y)
  {
    RanksIsStrictWeak();
    if heap.Branch? {
      match op
      case Push(x) => PushAddsOne(ranks, heap, x, y);
      case Pop => PopTakesTop(ranks, heap, y);
      case Remove(x) =>
        RemoveFindsStored(ranks, heap, x);
        OccursCounts(heap, x);
        RemoveTakesOne(ranks, heap, x, y);
    }
  }

  lemma NoPushBehindRemove(queue: seq<Msg>, t: Timer)
    requires queue != [] && queue[0] == MsgRemove(t) && PushedBeforeRemoved(queue, t)
    ensures CountMsg(queue[1..], MsgPush(t)) == 0
  {
    forall j | 0 <= j < |queue[1..]| ensures queue[1..][j] != MsgPush(t) {
      assert queue[1..][j] == queue[j + 1];
    }
  }

  lemma OrderSurvives(queue: seq<Msg>, t: Timer, m: Msg)
    requires PushedBeforeRemoved(queue, t)
    ensures queue != [] ==> PushedBeforeRemoved(queue[1..], t)
    ensures m != MsgPush(t) || CountMsg(queue, MsgRemove(t)) == 0 ==> PushedBeforeRemoved(queue + [m], t)
  {
    if CountMsg(queue, MsgRemove(t)) == 0 {
      forall i | 0 <= i < |queue| ensures queue[i] != MsgRemove(t) {
        assert queue[i] in multiset(queue);
      }
    }
  }

  /** What taking the first message off the queue does to the accounts of `t`. */
  lemma TakeMessage(s: State, t: Timer)
    requires TimerInv(s, t) && Enabled(s, Dequeue)
    ensures var rest := s.queue[1..];
      && CountMsg(s.queue, MsgPush(t)) == Bit(s.queue[0] == MsgPush(t)) + CountMsg(rest, MsgPush(t))
      && CountMsg(s.queue, MsgRemove(t)) == Bit(s.queue[0] == MsgRemove(t)) + CountMsg(rest, MsgRemove(t))
      && PushedBeforeRemoved(rest, t)
      && (s.queue[0] == MsgRemove(t) ==> CountMsg(rest, MsgPush(t)) == 0)
  {
    QueueHead(s.queue, MsgPush(t));
    QueueHead(s.queue, MsgRemove(t));
    OrderSurvives(s.queue, t, MsgExpire);
    if s.queue[0] == MsgRemove(t) {
      NoPushBehindRemove(s.queue, t);
    }
  }

  lemma PushKeepsTimerInv(s: State, t: Timer)
    requires KernelInv(s) && TimerInv(s, t) && Enabled(s, Dequeue) && !s.queue[0].MsgRemove?
    ensures TimerInv(Next(s, Dequeue), t)
  {
    if s.queue[0].MsgPush? {
      NewPushKeepsTimerInv(s, t);
    } else {
      TakeMessage(s, t);
      HeapAccount(s.heap, Op.Pop, t);
    }
  }

  lemma NewPushKeepsTimerInv(s: State, t: Timer)
    requires KernelInv(s) && TimerInv(s, t) && Enabled(s, Dequeue) && s.queue[0].MsgPush?
    ensures TimerInv(Next(s, Dequeue), t)
  {
    TakeMessage(s, t);
    HeapAccount(s.heap, Op.Push(s.queue[0].timer), t);
  }

  /** A removal leaves no trace of the timer it deletes. */
  lemma RemoveKeepsTimerInv(s: State, t: Timer)
    requires KernelInv(s) && TimerInv(s, t) && Enabled(s, Dequeue) && s.queue[0].MsgRemove?
    ensures TimerInv(Next(s, Dequeue), t)
  {
    TakeMessage(s, t);
    HeapAccount(s.heap, Op.Remove(s.queue[0].timer), t);
  }

  /** What the removal message of a stopped timer does to the accounts of `t`. */
  lemma StopClientKeeps(s: State, c: nat, t: Timer)
    requires c in s.mTimer && ClientInv(s) && PushedBeforeRemoved(s.queue, t)
    ensures var n, u := StopClient(s, c), s.mTimer[c];
      && (Running(n, t) <==> Running(s, t) && t != u) && Running(s, u)
      && CountMsg(n.queue, MsgRemove(t)) == CountMsg(s.queue, MsgRemove(t)) + Bit(t == u)
      && CountMsg(n.queue, MsgPush(t)) == CountMsg(s.queue, MsgPush(t))
      && PushedBeforeRemoved(n.queue, t)
  {
    var u := s.mTimer[c];
    QueueAppend(s.queue, MsgRemove(u), MsgPush(t));
    QueueAppend(s.queue, MsgRemove(u), MsgRemove(t));
    OrderSurvives(s.queue, t, MsgRemove(u));
  }

  lemma StopKeepsTimerInv(s: State, c: nat, t: Timer)
    requires TimerInv(s, t) && ClientInv(s) && c in s.mTimer
    ensures TimerInv(Next(s, Stop(c)), t)
  {
    StopClientKeeps(s, c, t);
  }

  /** `expire()` of a popped timer lets go of it, and ends the timer its client has. */
  lemma ExpireKeepsTimerInv(s: State, t: Timer)
    requires TimerInv(s, t) && ClientInv(s) && s.task.Calling?
    ensures TimerInv(Expire(s).(task := Expiring(s.task.timerOfNow, None)), t)
  {
    var c := s.task.popped.client;
    if c in s.mTimer {
      StopClientKeeps(s, c, t);
      CallbackAppend(s.callbacks, Callback(s.task.popped, s.mTimer[c]), t);
    }
  }

  lemma PopKeepsTimerInv(s: State, n: Timer, t: Timer)
    requires Ordered(ranks, s.heap) && TimerInv(s.(task := Expiring(n, None)), t)
    ensures TimerInv(PopIfOutRanks(s, n), t)
  {
    HeapAccount(s.heap, Op.Pop, t);
  }

  lemma FireKeepsTimerInv(s: State, t: Timer)
    requires KernelInv(s) && TimerInv(s, t) && Enabled(s, FireNext)
    ensures TimerInv(Next(s, FireNext), t)
  {
    if s.task.firing.Some? && !Running(s, s.task.firing.value) {
      LetGoKeepsTimerInv(s, t);
      PopKeepsTimerInv(s, s.task.timerOfNow, t);
    } else {
      SameHandKeepsTimerInv(s, Next(s, FireNext).task, t);
    }
  }

  /** A timer that does not run may be let go of. */
  lemma LetGoKeepsTimerInv(s: State, t: Timer)
    requires TimerInv(s, t) && s.task.Expiring? && s.task.firing.Some? && !Running(s, s.task.firing.value)
    ensures TimerInv(s.(task := Expiring(s.task.timerOfNow, None)), t)
  {
  }

  lemma SameHandKeepsTimerInv(s: State, task: TaskPc, t: Timer)
    requires TimerInv(s, t) && InHand(task) == InHand(s.task)
    ensures TimerInv(s.(task := task), t)
  {
  }

  lemma CallBackKeepsTimerInv(s: State, t: Timer)
    requires KernelInv(s) && TimerInv(s, t) && ClientInv(s) && Enabled(s, CallBack)
    ensures TimerInv(Next(s, CallBack), t)
  {
    ExpireKeepsTimerInv(s, t);
    PopKeepsTimerInv(Expire(s), s.task.timerOfNow, t);
  }

  lemma StartKeepsTimerInv(s: State, u: Timer, t: Timer)
    requires TimerInv(s, t) && Enabled(s, Start(u))
    ensures TimerInv(Next(s, Start(u)), t)
  {
    QueueAppend(s.queue, MsgPush(u), MsgPush(t));
    QueueAppend(s.queue, MsgPush(u), MsgRemove(t));
    OrderSurvives(s.queue, t, MsgPush(u));
  }

  lemma StepKeepsTimerInv(s: State, a: Action, t: Timer)
    requires KernelInv(s) && TimerInv(s, t) && ClientInv(s) && Enabled(s, a)
    ensures TimerInv(Next(s, a), t)
  {
    match a
    case Dequeue => if s.queue[0].MsgRemove? { RemoveKeepsTimerInv(s, t); } else { PushKeepsTimerInv(s, t); }
    case FireNext => FireKeepsTimerInv(s, t);
    case CallBack => CallBackKeepsTimerInv(s, t);
    case Start(u) => StartKeepsTimerInv(s, u, t);
    case Stop(c) => StopKeepsTimerInv(s, c, t);
    case SendExpire =>
      QueueAppend(s.queue, MsgExpire, MsgPush(t));
      QueueAppend(s.queue, MsgExpire, MsgRemove(t));
      OrderSurvives(s.queue, t, MsgExpire);
    case _ =>
  }

  // ---------- Whose callback it is ----------

  /** A callback goes to the client of the popped timer, and ends that timer unless the client
      stopped it; in between, the timer whose client was read is running or was stopped. */
  ghost predicate OwnerInv(s: State) {
    && (s.task.Calling? ==> Running(s, s.task.popped) || s.task.popped in s.stopped)
    && forall k :: 0 <= k < |s.callbacks| ==> OwnCallback(s.callbacks[k], s.stopped)
  }

  predicate OwnCallback(c: Callback, stopped: set<Timer>) {
    c.ended.client == c.popped.client && (c.ended == c.popped <==> c.popped !in stopped)
  }

  lemma EndedIsCounted(callbacks: seq<Callback>, k: nat)
    requires k < |callbacks|
    ensures multiset(Ended(callbacks))[callbacks[k].ended] > 0
  {
    assert Ended(callbacks)[k] in multiset(Ended(callbacks));
  }

  lemma StopKeepsOwner(s: State, c: nat)
    requires OwnerInv(s) && ClientInv(s) && c in s.mTimer && TimerInv(s, s.mTimer[c])
    ensures OwnerInv(Next(s, Stop(c)))
  {
    var u := s.mTimer[c];
    forall k | 0 <= k < |s.callbacks| ensures OwnCallback(s.callbacks[k], s.stopped + {u}) {
      EndedIsCounted(s.callbacks, k);
    }
  }

  lemma CallBackKeepsOwner(s: State)
    requires OwnerInv(s) && ClientInv(s) && s.task.Calling? && TimerInv(s, s.task.popped)
    ensures OwnerInv(Next(s, CallBack))
  {
    var e := Expire(s);
    forall k | 0 <= k < |e.callbacks| ensures OwnCallback(e.callbacks[k], e.stopped) {
      if k < |s.callbacks| {
        assert e.callbacks[k] == s.callbacks[k];
      }
    }
  }

  lemma StepKeepsOwner(s: State, a: Action)
    requires OwnerInv(s) && ClientInv(s) && Enabled(s, a) && forall t :: TimerInv(s, t)
    ensures OwnerInv(Next(s, a)) && ClientInv(Next(s, a))
  {
    match a
    case Stop(c) => StopKeepsOwner(s, c);
    case CallBack => CallBackKeepsOwner(s);
    case _ =>
  }

  // ---------- Whole runs ----------

  /** The time an expire message read is not in the future. */
  predicate ClockInv(s: State) {
    s.task.Expiring? || s.task.Calling? ==> Nanos(s.task.timerOfNow.at) <= Nanos(s.now)
  }

  ghost predicate Inv(s: State) {
    KernelInv(s) && ClockInv(s) && ClientInv(s) && OwnerInv(s) && forall t :: TimerInv(s, t)
  }

  lemma StepKeepsInv(s: State, a: Action)
    requires Inv(s) && Enabled(s, a)
    ensures Inv(Next(s, a))
  {
    StepKeepsKernelInv(s, a);
    StepKeepsOwner(s, a);
    forall t ensures TimerInv(Next(s, a), t) {
      StepKeepsTimerInv(s, a, t);
    }
  }

  lemma {:induction false} RunKeepsInv(s: State, trace: seq<Action>)
    requires Inv(s)
    ensures var e := Exec(s, trace); e.Some? ==> Inv(e.value)
  {
    if trace != [] {
      var r := Exec(s, trace[..|trace| - 1]);
      RunKeepsInv(s, trace[..|trace| - 1]);
      if r.Some? && Enabled(r.value, trace[|trace| - 1]) {
        StepKeepsInv(r.value, trace[|trace| - 1]);
      }
    }
  }

  lemma EveryRunKeepsInv(boot: Deadline, trace: seq<Action>)
    ensures var r := After(boot, trace); r.Some? ==> Inv(r.value)
  {
    forall t ensures TimerInv(Init(boot), t) {}
    RunKeepsInv(Init(boot), trace);
  }

  /** Main theorem: in every reachable state a running timer waits in the queue, in the heap
      or is just being fired, and a non-empty heap is watched by the kernel timer at the
      deadline of its top, or by an expire message that is queued or on its way, or by the
      message thread still at work. */
  lemma NoTimerIsLost(boot: Deadline, trace: seq<Action>, t: Timer)
    requires After(boot, trace).Some?
    ensures var s := After(boot, trace).value;
      && Covered(s)
      && (Running(s, t) ==> MsgPush(t) in s.queue || t in Elements(s.heap) || InHand(s.task) == Some(t))
  {
    EveryRunKeepsInv(boot, trace);
    var s := After(boot, trace).value;
    assert TimerInv(s, t);
    OccursCounts(s.heap, t);
    if Running(s, t) && MsgPush(t) !in s.queue {
      assert MsgPush(t) !in multiset(s.queue);
    }
  }

  /** Over every interleaving a timer is ended by at most one callback, and by none once a
      client has stopped it; its own `expire()` calls back at most once; and a deleted timer
      is in no queued message, in no heap slot and not in hand. */
  lemma TimerLivesOnce(boot: Deadline, trace: seq<Action>, t: Timer)
    requires After(boot, trace).Some?
    ensures var s := After(boot, trace).value;
      && multiset(Ended(s.callbacks))[t] <= 1 && multiset(Popped(s.callbacks))[t] <= 1
      && (t in s.stopped ==> t !in Ended(s.callbacks))
      && (t in s.deleted ==> !Running(s, t) && MsgPush(t) !in s.queue && MsgRemove(t) !in s.queue
                             && t !in Elements(s.heap) && InHand(s.task) != Some(t))
  {
    EveryRunKeepsInv(boot, trace);
    var s := After(boot, trace).value;
    assert TimerInv(s, t);
    OccursCounts(s.heap, t);
    assert t in Ended(s.callbacks) ==> t in multiset(Ended(s.callbacks));
    assert MsgPush(t) in s.queue ==> MsgPush(t) in multiset(s.queue);
    assert MsgRemove(t) in s.queue ==> MsgRemove(t) in multiset(s.queue);
  }

  /** Main theorem: over every interleaving each callback goes to the client of the timer that
      was popped, and it ends that very timer if and only if the client did not stop it. */
  lemma CallbackIsOwnUnlessStopped(boot: Deadline, trace: seq<Action>, k: nat)
    requires After(boot, trace).Some? && k < |After(boot, trace).value.callbacks|
    ensures var s := After(boot, trace).value;
      var c := s.callbacks[k];
      c.ended.client == c.popped.client && (c.ended == c.popped <==> c.popped !in s.stopped)
  {
    EveryRunKeepsInv(boot, trace);
    assert OwnCallback(After(boot, trace).value.callbacks[k], After(boot, trace).value.stopped);
  }

  /** The same seen from the step that calls back: it does so exactly when the client has a
      timer, for the popped timer exactly when that is still running, and if it is not, the
      client has stopped it. */
  lemma CallbackFollowsClient(boot: Deadline, trace: seq<Action>)
    requires After(boot, trace).Some? && After(boot, trace).value.task.Calling?
    ensures var s := After(boot, trace).value;
      var t, n := s.task.popped, Next(s, CallBack);
      && (n.callbacks == s.callbacks + [Callback(t, t)] <==> Running(s, t))
      && (n.callbacks == s.callbacks <==> t.client !in s.mTimer)
      && (!Running(s, t) ==> t in s.stopped)
  {
    EveryRunKeepsInv(boot, trace);
    var s := After(boot, trace).value;
    var t := s.task.popped;
    if t.client in s.mTimer {
      assert Next(s, CallBack).callbacks[|s.callbacks|] == Callback(t, s.mTimer[t.client]);
    }
  }

  // ---------- Coming to rest ----------

  /** A step of the message or the poll thread. */
  predicate Internal(a: Action) {
    !a.Start? && !a.Stop? && !a.Tick?
  }

  ghost predicate Resting(s: State) {
    forall a :: Internal(a) ==> !Enabled(s, a)
  }

  predicate Due(s: State, t: Timer) {
    Nanos(t.at) <= Nanos(s.now)
  }

  lemma RestingIsIdle(s: State)
    requires Resting(s)
    ensures s.queue == [] && s.task.Idle? && s.poll.Waiting?
    ensures s.polled && s.armed.Some? ==> Nanos(s.now) < Nanos(s.armed.value)
  {
    assert !Enabled(s, Dequeue) && !Enabled(s, FireNext) && !Enabled(s, CallBack) && !Enabled(s, AddPoll) && !Enabled(s, SetTime);
    assert !Enabled(s, Wake) && !Enabled(s, DisarmTimer) && !Enabled(s, RemovePoll) && !Enabled(s, SendExpire);
  }

  lemma StoredNoEarlierThanTop(heap: Tree<Timer>, t: Timer)
    requires Ordered(ranks, heap) && t in Elements(heap)
    ensures heap.Branch? && Nanos(heap.data.at) <= Nanos(t.at)
  {
    RanksIsStrictWeak();
    TopOutrankedByNone(ranks, heap);
    OutRanksIsEarlier(t, heap.data);
  }

  /** When neither thread has anything to do, every timer still running lies in the future. */
  lemma RestingMeansNothingDue(s: State, t: Timer)
    requires Inv(s) && Resting(s) && Running(s, t)
    ensures !Due(s, t)
  {
    RestingIsIdle(s);
    assert TimerInv(s, t);
    OccursCounts(s.heap, t);
    StoredNoEarlierThanTop(s.heap, t);
  }

  // Work left to do, in steps.  A wake-up costs its own four steps and the four of the
  // expire message it sends: 8.  Updating the kernel timer costs two steps and possibly a
  // wake-up: 10.  A removal costs its own step and an update: 11.  Calling back costs a step
  // and a removal: 12.  A timer in hand costs one more, to read its client: 13.  A push costs
  // its own step, an update and the firing: 24.

  function MsgWork(m: Msg): nat {
    match m
    case MsgPush(_) => 24
    case MsgRemove(_) => 11
    case MsgExpire => 4
  }

  function QueueWork(queue: seq<Msg>): nat {
    if queue == [] then 0 else MsgWork(queue[0]) + QueueWork(queue[1..])
  }

  /** A due deadline in the kernel timer is a wake-up to come. */
  function ArmedWork(s: State, at: Deadline): nat {
    if Nanos(at) <= Nanos(s.now) then 8 else 0
  }

  function TaskWork(s: State): nat {
    match s.task
    case Idle => 0
    case Expiring(n, firing) =>
      3 + (if Nanos(n.at) < Nanos(s.now) then 8 else 0) + (if firing.Some? then 13 else 0)
    case Calling(n, _) => 15 + if Nanos(n.at) < Nanos(s.now) then 8 else 0
    case Polling(t) => 2 + ArmedWork(s, t.at)
    case Arming(t) => 1 + ArmedWork(s, t.at)
  }

  function PollWork(s: State): nat {
    (match s.poll
     case Waiting => 0
     case Woken => 7
     case Disarmed => 6
     case Unpolled => 5)
    + if s.armed.Some? && !s.poll.Woken? then ArmedWork(s, s.armed.value) else 0
  }

  function Work(s: State): nat {
    QueueWork(s.queue) + Count(s.heap) * 13 + TaskWork(s) + PollWork(s)
  }

  lemma {:induction false} QueueWorkAppend(queue: seq<Msg>, m: Msg)
    ensures QueueWork(queue + [m]) == QueueWork(queue) + MsgWork(m)
  {
    if queue == [] {
      assert queue + [m] == [m];
    } else {
      assert (queue + [m])[1..] == queue[1..] + [m];
      QueueWorkAppend(queue[1..], m);
    }
  }

  /** How the heap's share of the work changes. */
  lemma HeapWork(heap: Tree<Timer>, op: Op<Timer>)
    requires Ordered(ranks, heap) && Sized(heap)
    ensures op.Push? ==> Count(Apply(ranks, heap, op)) == Count(heap) + 1
    ensures op.Pop? ==> Count(Apply(ranks, heap, op)) + Bit(heap.Branch?) == Count(heap)
    ensures op.Remove? ==> Count(Apply(ranks, heap, op)) <= Count(heap)
  {
    RanksIsStrictWeak();
    if heap.Branch? {
      match op
      case Push(x) => PushKeepsHeap(ranks, heap, x);
      case Pop => PopKeepsHeap(ranks, heap);
      case Remove(x) => RemoveKeepsHeap(ranks, heap, x);
    } else if op.Push? {
      assert Count(Single(op.x)) == 1;
    }
  }

  /** What a message proc does not touch. */
  lemma DequeueWork(s: State)
    requires Enabled(s, Dequeue)
    ensures QueueWork(s.queue) == MsgWork(s.queue[0]) + QueueWork(s.queue[1..])
    ensures Next(s, Dequeue).queue == s.queue[1..]
    ensures PollWork(Next(s, Dequeue)) == PollWork(s)
    ensures TaskWork(Next(s, Dequeue)) <= if s.queue[0].MsgExpire? then 3 + 13 * Bit(s.heap.Branch?) else 10
  {
  }

  lemma MessageTakesWork(s: State)
    requires KernelInv(s) && Enabled(s, Dequeue)
    ensures Work(Next(s, Dequeue)) < Work(s)
  {
    DequeueWork(s);
    match s.queue[0]
    case MsgPush(t) => HeapWork(s.heap, Op.Push(t));
    case MsgRemove(t) => HeapWork(s.heap, Op.Remove(t));
    case MsgExpire => HeapWork(s.heap, Op.Pop);
  }

  /** Leaving the loop takes the last step of the message: the top is later than its clock. */
  lemma LoopExitTakesWork(s: State)
    requires KernelInv(s) && Enabled(s, FireNext) && s.task.firing.None?
    requires Nanos(s.task.timerOfNow.at) <= Nanos(s.now)
    ensures Work(Next(s, FireNext)) < Work(s)
  {
    if s.heap.Branch? {
      OutRanksIsEarlier(s.task.timerOfNow, s.heap.data);
    }
  }

  lemma PopTakesNoWork(s: State, n: Timer)
    requires Ordered(ranks, s.heap) && Sized(s.heap)
    ensures Work(PopIfOutRanks(s, n)) <= Work(s.(task := Expiring(n, None)))
  {
    HeapWork(s.heap, Op.Pop);
  }

  lemma CallBackTakesWork(s: State)
    requires KernelInv(s) && Enabled(s, CallBack)
    ensures Work(Next(s, CallBack)) < Work(s)
  {
    var c := s.task.popped.client;
    if c in s.mTimer {
      QueueWorkAppend(s.queue, MsgRemove(s.mTimer[c]));
    }
    PopTakesNoWork(Expire(s), s.task.timerOfNow);
  }

  lemma FireTakesWork(s: State)
    requires KernelInv(s) && Enabled(s, FireNext) && s.task.firing.Some?
    ensures Work(Next(s, FireNext)) < Work(s)
  {
    if !Running(s, s.task.firing.value) {
      PopTakesNoWork(s, s.task.timerOfNow);
    }
  }

  /** Every step of the two threads takes away some of the finite work. */
  lemma InternalStepTakesWork(s: State, a: Action)
    requires KernelInv(s) && ClockInv(s) && Enabled(s, a) && Internal(a)
    ensures Work(Next(s, a)) < Work(s)
  {
    match a
    case Dequeue => MessageTakesWork(s);
    case FireNext => if s.task.firing.Some? { FireTakesWork(s); } else { LoopExitTakesWork(s); }
    case CallBack => CallBackTakesWork(s);
    case SendExpire => QueueWorkAppend(s.queue, MsgExpire);
    case _ =>
  }

  // ---------- The two threads on their own ----------

  predicate AllInternal(trace: seq<Action>) {
    forall i :: 0 <= i < |trace| ==> Internal(trace[i])
  }

  /** Internal steps read the clock and stop nothing. */
  lemma InternalStepKeepsClients(s: State, a: Action)
    requires Enabled(s, a) && Internal(a)
    ensures var e := Next(s, a);
      e.now == s.now && e.stopped == s.stopped && e.started == s.started
  {
  }

  lemma {:induction false} InternalRun(s: State, trace: seq<Action>)
    requires Inv(s) && AllInternal(trace) && Exec(s, trace).Some?
    ensures var e := Exec(s, trace).value;
      && Inv(e) && |trace| + Work(e) <= Work(s)
      && e.now == s.now && e.stopped == s.stopped && e.started == s.started
  {
    if trace != [] {
      var r, a := Exec(s, trace[..|trace| - 1]), trace[|trace| - 1];
      InternalRun(s, trace[..|trace| - 1]);
      InternalStepTakesWork(r.value, a);
      InternalStepKeepsClients(r.value, a);
      StepKeepsInv(r.value, a);
    }
  }

  /** At rest after steps of its own, the service has delivered what was due before them. */
  lemma RestDelivers(s: State, trace: seq<Action>, t: Timer)
    requires Inv(s) && AllInternal(trace) && Exec(s, trace).Some?
    requires Resting(Exec(s, trace).value) && Running(s, t) && Due(s, t)
    ensures t in Ended(Exec(s, trace).value.callbacks)
  {
    InternalRun(s, trace);
    var e := Exec(s, trace).value;
    assert TimerInv(s, t) && TimerInv(e, t);
    if Running(e, t) {
      RestingMeansNothingDue(e, t);
    }
    assert t in multiset(Ended(e.callbacks));
  }

  /** Main theorem: left alone from any reachable state, the two threads stop after at most
      `Work` steps, whatever their order; and when they have stopped, every timer that was
      running and due has been ended by a callback. */
  lemma ServiceComesToRest(boot: Deadline, before: seq<Action>, trace: seq<Action>, t: Timer)
    requires After(boot, before).Some? && AllInternal(trace)
    requires Exec(After(boot, before).value, trace).Some?
    ensures var s := After(boot, before).value;
      var e := Exec(s, trace).value;
      && |trace| <= Work(s)
      && (Resting(e) && Running(s, t) && Due(s, t) ==> t in Ended(e.callbacks))
  {
    EveryRunKeepsInv(boot, before);
    var s := After(boot, before).value;
    InternalRun(s, trace);
    if Resting(Exec(s, trace).value) && Running(s, t) && Due(s, t) {
      RestDelivers(s, trace, t);
    }
  }

  lemma ExecStep(s: State, trace: seq<Action>, a: Action)
    requires Exec(s, trace).Some? && Enabled(Exec(s, trace).value, a)
    ensures Exec(s, trace + [a]) == Some(Next(Exec(s, trace).value, a))
  {
    assert (trace + [a])[..|trace|] == trace;
  }

  /** A run of the two threads can always be continued until they rest. */
  lemma {:induction false} RunToRest(s: State, trace: seq<Action>) returns (longer: seq<Action>)
    requires Inv(s) && AllInternal(trace) && Exec(s, trace).Some?
    ensures AllInternal(longer) && Exec(s, longer).Some? && Resting(Exec(s, longer).value)
    decreases Work(Exec(s, trace).value)
  {
    var e := Exec(s, trace).value;
    if Resting(e) {
      longer := trace;
    } else {
      var a :| Internal(a) && Enabled(e, a);
      InternalRun(s, trace);
      InternalStepTakesWork(e, a);
      ExecStep(s, trace, a);
      longer := RunToRest(s, trace + [a]);
    }
  }

  /** Main theorem: the threads are never stuck before that.  From every reachable state they
      have a run of at most `Work` steps to a state in which both rest and every timer that
      was running and due has been ended by a callback. */
  lemma ServiceCanComeToRest(boot: Deadline, before: seq<Action>) returns (trace: seq<Action>)
    requires After(boot, before).Some?
    ensures var s := After(boot, before).value;
      && AllInternal(trace) && |trace| <= Work(s) && Exec(s, trace).Some?
      && Resting(Exec(s, trace).value)
      && forall t :: Running(s, t) && Due(s, t) ==> t in Ended(Exec(s, trace).value.callbacks)
  {
    EveryRunKeepsInv(boot, before);
    var s := After(boot, before).value;
    trace := RunToRest(s, []);
    InternalRun(s, trace);
    forall t | Running(s, t) && Due(s, t) ensures t in Ended(Exec(s, trace).value.callbacks) {
      RestDelivers(s, trace, t);
    }
  }

  // ---------- Which timers an expire message takes ----------

  predicate InLoop(task: TaskPc) {
    task.Expiring? || task.Calling?
  }

  /** Inside the loop of an expire message a timer is taken out only from the top of the heap,
      and only when it is due.  (The first one goes when the message is taken, due or not.) */
  lemma LaterPopsAreDue(boot: Deadline, trace: seq<Action>, a: Action, t: Timer)
    requires After(boot, trace).Some? && Enabled(After(boot, trace).value, a)
    requires var s := After(boot, trace).value; InLoop(s.task) && InHand(s.task) != Some(t)
    ensures var s := After(boot, trace).value;
      InHand(Next(s, a).task) == Some(t) ==> Top(s.heap) == Some(t) && Due(s, t)
  {
    EveryRunKeepsInv(boot, trace);
    var s := After(boot, trace).value;
    if InHand(Next(s, a).task) == Some(t) {
      OutRanksIsEarlier(s.task.timerOfNow, t);
    }
  }

  /** And the message thread leaves the loop only when all that stays is later than the time
      the message read; it then sets the kernel timer for the top, if there is one. */
  lemma LoopLeavesNothingDue(boot: Deadline, trace: seq<Action>, a: Action, t: Timer)
    requires After(boot, trace).Some? && Enabled(After(boot, trace).value, a)
    requires var s := After(boot, trace).value; InLoop(s.task) && !InLoop(Next(s, a).task)
    ensures var s := After(boot, trace).value;
      && (t in Elements(s.heap) ==> Nanos(s.task.timerOfNow.at) < Nanos(t.at))
      && Next(s, a).heap == s.heap
      && Next(s, a).task == if s.heap.Empty? then Idle else Polling(s.heap.data)
  {
    EveryRunKeepsInv(boot, trace);
    var s := After(boot, trace).value;
    LoopExit(s, a);
    if t in Elements(s.heap) {
      AllLaterThan(s.heap, s.task.timerOfNow, t);
    }
  }

  lemma LoopExit(s: State, a: Action)
    requires TaskInv(s) && Enabled(s, a) && InLoop(s.task) && !InLoop(Next(s, a).task)
    ensures s.heap.Branch? ==> OutRanks(ranks, s.task.timerOfNow, s.heap.data)
    ensures Next(s, a).heap == s.heap && Next(s, a).task == if s.heap.Empty? then Idle else Polling(s.heap.data)
  {
  }

  lemma AllLaterThan(heap: Tree<Timer>, n: Timer, t: Timer)
    requires Ordered(ranks, heap) && t in Elements(heap) && (heap.Branch? ==> OutRanks(ranks, n, heap.data))
    ensures Nanos(n.at) < Nanos(t.at)
  {
    StoredNoEarlierThanTop(heap, t);
    OutRanksIsEarlier(n, heap.data);
  }

  /** The steps of the poll thread and of the kernel calls: a kernel timer that went off is
      disarmed, taken out of the poll set and turned into one expire message, in this order. */
  lemma WakeBecomesOneExpire(s: State)
    requires Enabled(s, Wake)
    ensures Exec(s, [Wake, DisarmTimer, RemovePoll, SendExpire])
         == Some(s.(armed := None, polled := false, queue := s.queue + [MsgExpire]))
  {
    ExecStep(s, [], Wake);
    ExecStep(s, [] + [Wake], DisarmTimer);
    ExecStep(s, [] + [Wake] + [DisarmTimer], RemovePoll);
    ExecStep(s, [] + [Wake] + [DisarmTimer] + [RemovePoll], SendExpire);
    assert [] + [Wake] + [DisarmTimer] + [RemovePoll] + [SendExpire] == [Wake, DisarmTimer, RemovePoll, SendExpire];
  }

  // ---------- What is not promised: never too early, never for another timer ----------

  /** `t` is the only timer, the kernel timer is set for it, and both threads rest. */
  predicate Watched(s: State, t: Timer) {
    && s.heap == Single(t) && s.armed == Some(t.at) && s.polled && s.queue == [] && s.task.Idle? && s.poll.Waiting?
    && s.started == {t} && s.mTimer == map[t.client := t] && s.callbacks == []
  }

  lemma FirstTimerIsWatched(boot: Deadline, t: Timer) returns (trace: seq<Action>)
    ensures After(boot, trace).Some? && Watched(After(boot, trace).value, t) && After(boot, trace).value.now == boot
  {
    var s := Init(boot);
    ExecStep(s, [], Start(t));
    trace := [] + [Start(t)];
    ExecStep(s, trace, Dequeue);
    trace := trace + [Dequeue];
    ExecStep(s, trace, AddPoll);
    trace := trace + [AddPoll];
    ExecStep(s, trace, SetTime);
    trace := trace + [SetTime];
  }

  /** The clock moves to `n`, the kernel timer goes off and its expire message is queued. */
  lemma ExpireIsSent(s: State, n: Deadline) returns (trace: seq<Action>)
    requires s.poll.Waiting? && s.polled && s.armed.Some?
    requires Nanos(s.now) <= Nanos(n) && Nanos(s.armed.value) <= Nanos(n)
    ensures Exec(s, trace) == Some(s.(armed := None, polled := false, queue := s.queue + [MsgExpire], now := n))
  {
    ExecStep(s, [], Tick(n));
    trace := [] + [Tick(n)];
    ExecStep(s, trace, Wake);
    trace := trace + [Wake];
    ExecStep(s, trace, DisarmTimer);
    trace := trace + [DisarmTimer];
    ExecStep(s, trace, RemovePoll);
    trace := trace + [RemovePoll];
    ExecStep(s, trace, SendExpire);
    trace := trace + [SendExpire];
  }

  /** The client of `t` stops it and somebody starts `late`, before the message thread wakes. */
  lemma LateIsStarted(s: State, t: Timer, late: Timer) returns (trace: seq<Action>)
    requires Watched(s, t) && late.id != t.id
    ensures Exec(s, trace).Some?
    ensures var e := Exec(s, trace).value;
      e == s.(queue := [MsgRemove(t), MsgPush(late)], mTimer := e.mTimer, started := e.started, stopped := e.stopped)
      && Running(e, late)
  {
    ExecStep(s, [], Stop(t.client));
    trace := [] + [Stop(t.client)];
    ExecStep(s, trace, Start(late));
    trace := trace + [Start(late)];
    assert Exec(s, trace).value.queue == [MsgRemove(t), MsgPush(late)];
  }

  /** The expire message finds `late` at the top and pops it unasked. */
  lemma LateTimerIsPopped(s: State, t: Timer, late: Timer) returns (trace: seq<Action>)
    requires s.heap == Single(t) && s.queue == [MsgRemove(t), MsgPush(late), MsgExpire] && s.task.Idle?
    requires Running(s, late) && s.callbacks == []
    ensures Exec(s, trace).Some? && Exec(s, trace).value.now == s.now
    ensures Exec(s, trace).value.callbacks == [Callback(late, late)]
  {
    ExecStep(s, [], Dequeue);
    trace := [] + [Dequeue];
    ExecStep(s, trace, Dequeue);
    trace := trace + [Dequeue];
    ExecStep(s, trace, AddPoll);
    trace := trace + [AddPoll];
    ExecStep(s, trace, SetTime);
    trace := trace + [SetTime];
    ExecStep(s, trace, Dequeue);
    trace := trace + [Dequeue];
    ExecStep(s, trace, FireNext);
    trace := trace + [FireNext];
    ExecStep(s, trace, CallBack);
    trace := trace + [CallBack];
  }

  lemma {:induction false} ExecConcat(s: State, a: seq<Action>, b: seq<Action>)
    requires Exec(s, a).Some?
    ensures Exec(s, a + b) == Exec(Exec(s, a).value, b)
  {
    if b == [] {
      assert a + b == a;
    } else {
      ExecConcat(s, a, b[..|b| - 1]);
      assert (a + b)[..|a + b| - 1] == a + b[..|b| - 1];
    }
  }

  /** A timer can call back before its time, by any amount: an expire message pops its first
      timer without looking at the deadline, and the timer it was sent for may be gone. */
  lemma TimerCanFireEarly(boot: Deadline, t: Timer, late: Timer, n: Deadline) returns (trace: seq<Action>)
    requires late.id != t.id && Nanos(boot) <= Nanos(n)
    requires Nanos(t.at) <= Nanos(n) < Nanos(late.at)
    ensures After(boot, trace).Some?
    ensures var s := After(boot, trace).value;
      s.callbacks == [Callback(late, late)] && Nanos(s.now) < Nanos(late.at)
  {
    var a := FirstTimerIsWatched(boot, t);
    var b := LateIsStarted(After(boot, a).value, t, late);
    ExecConcat(Init(boot), a, b);
    var c := ExpireIsSent(After(boot, a + b).value, n);
    ExecConcat(Init(boot), a + b, c);
    var d := LateTimerIsPopped(After(boot, a + b + c).value, t, late);
    ExecConcat(Init(boot), a + b + c, d);
    trace := a + b + c + d;
  }

  /** The message thread has popped `t` and read its client; the client stops `t` and starts
      `next`; and the message thread stops the client again. */
  lemma RestartIsOvertaken(s: State, t: Timer, next: Timer) returns (trace: seq<Action>)
    requires s.heap == Single(t) && s.queue == [MsgExpire] && s.task.Idle? && s.callbacks == []
    requires s.started == {t} && s.mTimer == map[t.client := t]
    requires next.client == t.client && next.id != t.id
    ensures Exec(s, trace).Some?
    ensures var e := Exec(s, trace).value;
      && e.callbacks == [Callback(t, next)] && t in e.stopped && e.now == s.now
      && MsgPush(next) in e.queue && !Running(e, next)
  {
    ExecStep(s, [], Dequeue);
    trace := [] + [Dequeue];
    ExecStep(s, trace, FireNext);
    trace := trace + [FireNext];
    ExecStep(s, trace, Stop(t.client));
    trace := trace + [Stop(t.client)];
    ExecStep(s, trace, Start(next));
    trace := trace + [Start(next)];
    ExecStep(s, trace, CallBack);
    trace := trace + [CallBack];
  }

  /** A client that stops a timer and starts another, just as the first expires, can be called
      back though its `stop` returned true; and the new timer is ended by that callback, ahead
      of its deadline and still on its way to the heap. */
  lemma RestartCanLoseNewTimer(boot: Deadline, t: Timer, next: Timer, n: Deadline) returns (trace: seq<Action>)
    requires next.client == t.client && next.id != t.id && Nanos(boot) <= Nanos(n)
    requires Nanos(t.at) <= Nanos(n) < Nanos(next.at)
    ensures After(boot, trace).Some?
    ensures var s := After(boot, trace).value;
      && s.callbacks == [Callback(t, next)] && t in s.stopped && Nanos(s.now) < Nanos(next.at)
      && MsgPush(next) in s.queue && !Running(s, next)
  {
    var a := FirstTimerIsWatched(boot, t);
    var b := ExpireIsSent(After(boot, a).value, n);
    ExecConcat(Init(boot), a, b);
    assert [] + [MsgExpire] == [MsgExpire];
    var c := RestartIsOvertaken(After(boot, a + b).value, t, next);
    ExecConcat(Init(boot), a + b, c);
    trace := a + b + c;
  }
}
