/** The AGPS subscriber machines of gps/gnss/Agps.cpp: the base machine, and the data-service
    machine that overrides three of its methods.

    `Machine` is a machine as a value and `Step` what one event makes of it, with every
    report and request it sends appended to `out`.  The lemmas are about whole runs.
    AgpsStateMachine.dfy holds the object whose methods are proved to follow `Step`. */
module Agps {
  import opened Wrappers

  // ---------- Data ----------

  datatype Subscriber = Subscriber(connHandle: int, waitForCloseComplete: bool, isInactive: bool)

  datatype AgpsState = RELEASED | PENDING | ACQUIRED | RELEASING

  datatype AgpsEvent = SUBSCRIBE | UNSUBSCRIBE | GRANTED | EVENT_RELEASED | DENIED

  datatype NotificationType = ALL_SUBSCRIBERS | INACTIVE_SUBSCRIBERS | ACTIVE_SUBSCRIBERS

  /** What a machine sends. */
  datatype Output =
    | OpenStatus(connHandle: int, success: bool)   // mAtlOpenStatusCb
    | CloseStatus(connHandle: int)                 // mAtlCloseStatusCb, success
    | RequestDataConn | ReleaseDataConn            // mFrameworkStatusV4Cb
    | StartDataCall | StopDataCall | CloseDataCall // data service client
    | RetryTimer                                   // loc_timer_start
    | RequestSupl(connHandle: int)                 // AgpsMsgRequestATL for a SUPL machine

  /** The base machine, or the data-service machine with what was registered for it. */
  datatype Kind = Base | DataService(canStop: bool, canStart: bool)

  /** What the data-service client answers to an attempt to start a call. */
  datatype StartResult = Success | EngineBusy | Unsupported | OtherFailure

  const MAX_START_DATA_CALL_RETRIES: nat := 4

  datatype Machine = Machine(
    kind: Kind, state: AgpsState, subscribers: seq<Subscriber>, retries: nat, out: seq<Output>)

  function Fresh(kind: Kind): Machine {
    Machine(kind, RELEASED, [], 0, [])
  }

  // ---------- Lists of subscribers ----------

  predicate Selected(t: NotificationType, s: Subscriber) {
    match t
    case ALL_SUBSCRIBERS => true
    case INACTIVE_SUBSCRIBERS => s.isInactive
    case ACTIVE_SUBSCRIBERS => !s.isInactive
  }

  function Selection(list: seq<Subscriber>, t: NotificationType): seq<Subscriber> {
    if list == [] then []
    else (if Selected(t, list[0]) then [list[0]] else []) + Selection(list[1..], t)
  }

  function Unselected(list: seq<Subscriber>, t: NotificationType): seq<Subscriber> {
    if list == [] then []
    else (if Selected(t, list[0]) then [] else [list[0]]) + Unselected(list[1..], t)
  }

  function WithoutHandle(list: seq<Subscriber>, h: int): seq<Subscriber> {
    if list == [] then []
    else (if list[0].connHandle == h then [] else [list[0]]) + WithoutHandle(list[1..], h)
  }

  predicate HasHandle(list: seq<Subscriber>, h: int) {
    exists i :: 0 <= i < |list| && list[i].connHandle == h
  }

  /** Index of the first subscriber with this handle; the length if there is none. */
  function IndexOf(list: seq<Subscriber>, h: int): (i: nat)
    ensures i <= |list|
    ensures i < |list| ==> list[i].connHandle == h
    ensures forall k :: 0 <= k < i ==> list[k].connHandle != h
  {
    if list == [] || list[0].connHandle == h then 0 else 1 + IndexOf(list[1..], h)
  }

  predicate AnyActive(list: seq<Subscriber>) {
    exists i :: 0 <= i < |list| && !list[i].isInactive
  }

  function FirstActive(list: seq<Subscriber>): (s: Option<Subscriber>)
    ensures s.Some? <==> AnyActive(list)
    ensures s.Some? ==> s.value in list && !s.value.isInactive
  {
    if list == [] then None
    else if !list[0].isInactive then Some(list[0])
    else
      var rest := FirstActive(list[1..]);
      assert AnyActive(list) ==> AnyActive(list[1..]) by {
        if AnyActive(list) {
          var i :| 0 <= i < |list| && !list[i].isInactive;
          assert list[1..][i - 1] == list[i];
        }
      }
      rest
  }

  // ---------- Sending ----------

  /** One notification; the data-service machine does not report a denial but falls back to
      SUPL. */
  function Notices(kind: Kind, e: AgpsEvent, h: int): seq<Output> {
    match e
    case GRANTED => [OpenStatus(h, true)]
    case DENIED => if kind.Base? then [OpenStatus(h, false)] else [RequestSupl(h)]
    case UNSUBSCRIBE => [CloseStatus(h)]
    case EVENT_RELEASED => if kind.Base? then [CloseStatus(h)] else [CloseDataCall, CloseStatus(h)]
    case SUBSCRIBE => []
  }

  function NotifyOne(m: Machine, e: AgpsEvent, h: int): Machine {
    m.(out := m.out + Notices(m.kind, e, h),
       retries := if m.kind.DataService? && e.DENIED? then 0 else m.retries)
  }

  function NoticesTo(kind: Kind, e: AgpsEvent, list: seq<Subscriber>): seq<Output> {
    if list == [] then [] else Notices(kind, e, list[0].connHandle) + NoticesTo(kind, e, list[1..])
  }

  function NotifyAll(m: Machine, e: AgpsEvent, deletes: bool, t: NotificationType): Machine {
    var chosen := Selection(m.subscribers, t);
    m.(out := m.out + NoticesTo(m.kind, e, chosen),
       retries := if m.kind.DataService? && e.DENIED? && chosen != [] then 0 else m.retries,
       subscribers := if deletes then Unselected(m.subscribers, t) else m.subscribers)
  }

  function AddSubscriber(m: Machine, s: Subscriber): Machine {
    if HasHandle(m.subscribers, s.connHandle) then m else m.(subscribers := m.subscribers + [s])
  }

  /** One attempt of the data-service machine to start a call for `h`. */
  function StartCall(m: Machine, h: int, answer: StartResult): Machine {
    var tried := m.(out := m.out + [StartDataCall]);
    match answer
    case Success => tried
    case EngineBusy =>
      var again := tried.(retries := m.retries + 1);
      if again.retries > MAX_START_DATA_CALL_RETRIES then NotifyOne(again, DENIED, h)
      else again.(out := again.out + [RetryTimer])
    case Unsupported => NotifyOne(tried, DENIED, h)
    case OtherFailure => tried
  }

  /** `requestOrReleaseDataConn`; the flag says whether it returned 0. */
  function RequestOrRelease(m: Machine, request: bool, answer: StartResult): (Machine, bool) {
    if m.kind.Base? then (m.(out := m.out + [if request then RequestDataConn else ReleaseDataConn]), true)
    else if !request && m.kind.canStop then (m.(out := m.out + [StopDataCall]), true)
    else
      var first := FirstActive(m.subscribers);
      if first.None? then (m, false)
      else if !m.kind.canStart then (NotifyOne(m, DENIED, first.value.connHandle), false)
      else (StartCall(m, first.value.connHandle, answer), answer.Success?)
  }

  // ---------- Events ----------

  function OnSubscribe(m: Machine, s: Subscriber, answer: StartResult): Machine {
    match m.state
    case RELEASED =>
      var (r, ok) := RequestOrRelease(AddSubscriber(m, s), true, answer);
      if ok then r.(state := PENDING) else r
    case PENDING => AddSubscriber(m, s)
    case ACQUIRED => AddSubscriber(NotifyOne(m, GRANTED, s.connHandle), s)
    case RELEASING => AddSubscriber(m, s)
  }

  /** The subscriber leaves, or stays inactive until the connection is closed. */
  function Leave(m: Machine, k: nat): Machine
    requires k < |m.subscribers|
  {
    var s := m.subscribers[k];
    if s.waitForCloseComplete then m.(subscribers := m.subscribers[k := s.(isInactive := true)])
    else
      var n := NotifyOne(m, UNSUBSCRIBE, s.connHandle);
      n.(subscribers := WithoutHandle(n.subscribers, s.connHandle))
  }

  function OnUnsubscribe(m: Machine, k: nat, answer: StartResult): Machine
    requires k < |m.subscribers|
  {
    if m.state == RELEASED then NotifyOne(m, UNSUBSCRIBE, m.subscribers[k].connHandle)
    else
      var n := Leave(m, k);
      if m.state == RELEASING then
        if n.subscribers == [] then n.(state := RELEASED) else n
      else if n.subscribers == [] then RequestOrRelease(n.(state := RELEASED), false, answer).0
      else if !AnyActive(n.subscribers) then RequestOrRelease(n.(state := RELEASING), false, answer).0
      else n
  }

  function OnGranted(m: Machine): Machine {
    if m.state == PENDING then NotifyAll(m.(state := ACQUIRED), GRANTED, false, ACTIVE_SUBSCRIBERS) else m
  }

  /** RELEASING ends: the inactive subscribers go, the ones that came since start anew. */
  function FinishReleasing(m: Machine, answer: StartResult): Machine {
    var n := NotifyAll(m, EVENT_RELEASED, true, INACTIVE_SUBSCRIBERS);
    if AnyActive(n.subscribers) then RequestOrRelease(n.(state := PENDING), true, answer).0
    else n.(state := RELEASED)
  }

  function OnDenied(m: Machine, answer: StartResult): Machine {
    match m.state
    case RELEASED => m
    case ACQUIRED => m
    case RELEASING => FinishReleasing(m, answer)
    case PENDING => NotifyAll(m.(state := RELEASED), DENIED, true, ALL_SUBSCRIBERS)
  }

  /** The data-service machine takes a release while pending for a denial. */
  function OnReleased(m: Machine, answer: StartResult): Machine {
    match m.state
    case RELEASED => m
    case ACQUIRED => NotifyAll(m.(state := RELEASED), EVENT_RELEASED, true, ALL_SUBSCRIBERS)
    case RELEASING => FinishReleasing(m, answer)
    case PENDING => if m.kind.DataService? then OnDenied(m, answer) else m
  }

  /** What reaches a machine: `requestATL`, `releaseATL` for a handle it knows, reports about
      the connection, and the drop of all subscribers on a modem restart. */
  datatype Event =
    | Request(connHandle: int, wait: bool) | Release(connHandle: int)
    | Granted | Released | Denied | ModemRestart

  function Step(m: Machine, e: Event, answer: StartResult): Machine {
    match e
    case Request(h, wait) => OnSubscribe(m, Subscriber(h, wait, false), answer)
    case Release(h) =>
      var k := IndexOf(m.subscribers, h);
      if k < |m.subscribers| then OnUnsubscribe(m, k, answer) else m
    case Granted => OnGranted(m)
    case Released => OnReleased(m, answer)
    case Denied => OnDenied(m, answer)
    case ModemRestart => m.(subscribers := [])
  }

  /** An event with the answer of the data-service client, should it be asked. */
  datatype Input = Input(event: Event, answer: StartResult)

  function Run(kind: Kind, inputs: seq<Input>): Machine {
    if inputs == [] then Fresh(kind)
    else
      var last := inputs[|inputs| - 1];
      Step(Run(kind, inputs[..|inputs| - 1]), last.event, last.answer)
  }

  // ---------- Shape of the list ----------

  predicate Distinct(list: seq<Subscriber>) {
    forall i, j :: 0 <= i < j < |list| ==> list[i].connHandle != list[j].connHandle
  }

  predicate InactiveWait(list: seq<Subscriber>) {
    forall i :: 0 <= i < |list| ==> list[i].isInactive ==> list[i].waitForCloseComplete
  }

  /** Holds in every run, with modem restarts. */
  predicate ListInv(m: Machine) {
    Distinct(m.subscribers) && InactiveWait(m.subscribers) && (m.state == RELEASED ==> m.subscribers == [])
  }

  /** Holds in runs without modem restarts. */
  predicate ActiveInv(m: Machine) {
    && (m.state == PENDING || m.state == ACQUIRED ==> AnyActive(m.subscribers))
    && (m.state == RELEASING ==> exists i :: 0 <= i < |m.subscribers| && m.subscribers[i].isInactive)
  }

  /** The head of a list stays distinct from what is left of its tail. */
  lemma HeadIsDistinct(list: seq<Subscriber>, u: seq<Subscriber>)
    requires list != [] && forall s :: s in u ==> s in list[1..]
    ensures Distinct(list) ==> Distinct(list[1..])
    ensures Distinct(list) && Distinct(u) ==> Distinct([list[0]] + u)
  {
    if Distinct(list) {
      forall j | 0 <= j < |u| ensures u[j].connHandle != list[0].connHandle {
        assert u[j] in list[1..];
      }
    }
  }

  /** Taking some subscribers out keeps the others. */
  lemma {:induction false} UnselectedKeeps(list: seq<Subscriber>, t: NotificationType, s: Subscriber)
    ensures s in Unselected(list, t) <==> s in list && !Selected(t, s)
  {
    if list != [] {
      UnselectedKeeps(list[1..], t, s);
      assert s in list <==> s == list[0] || s in list[1..];
    }
  }

  lemma {:induction false} WithoutHandleKeeps(list: seq<Subscriber>, h: int, s: Subscriber)
    ensures s in WithoutHandle(list, h) <==> s in list && s.connHandle != h
  {
    if list != [] {
      WithoutHandleKeeps(list[1..], h, s);
      assert s in list <==> s == list[0] || s in list[1..];
    }
  }

  lemma {:induction false} UnselectedIsDistinct(list: seq<Subscriber>, t: NotificationType)
    requires Distinct(list)
    ensures Distinct(Unselected(list, t))
  {
    if list != [] {
      var u := Unselected(list[1..], t);
      forall s | s in u ensures s in list[1..] { UnselectedKeeps(list[1..], t, s); }
      HeadIsDistinct(list, u);
      UnselectedIsDistinct(list[1..], t);
    }
  }

  lemma {:induction false} WithoutHandleIsDistinct(list: seq<Subscriber>, h: int)
    requires Distinct(list)
    ensures Distinct(WithoutHandle(list, h))
  {
    if list != [] {
      var u := WithoutHandle(list[1..], h);
      forall s | s in u ensures s in list[1..] { WithoutHandleKeeps(list[1..], h, s); }
      HeadIsDistinct(list, u);
      WithoutHandleIsDistinct(list[1..], h);
    }
  }

  lemma UnselectedIsSublist(list: seq<Subscriber>, t: NotificationType)
    ensures var u := Unselected(list, t);
      && (forall s :: s in u <==> s in list && !Selected(t, s))
      && (Distinct(list) ==> Distinct(u)) && (InactiveWait(list) ==> InactiveWait(u))
  {
    forall s ensures s in Unselected(list, t) <==> s in list && !Selected(t, s) { UnselectedKeeps(list, t, s); }
    if Distinct(list) { UnselectedIsDistinct(list, t); }
    AllInactiveWait(list, Unselected(list, t));
  }

  lemma WithoutHandleIsSublist(list: seq<Subscriber>, h: int)
    ensures var u := WithoutHandle(list, h);
      && (forall s :: s in u <==> s in list && s.connHandle != h)
      && (Distinct(list) ==> Distinct(u)) && (InactiveWait(list) ==> InactiveWait(u))
  {
    forall s ensures s in WithoutHandle(list, h) <==> s in list && s.connHandle != h { WithoutHandleKeeps(list, h, s); }
    if Distinct(list) { WithoutHandleIsDistinct(list, h); }
    AllInactiveWait(list, WithoutHandle(list, h));
  }

  lemma AllInactiveWait(list: seq<Subscriber>, u: seq<Subscriber>)
    requires forall s :: s in u ==> s in list
    ensures InactiveWait(list) ==> InactiveWait(u)
  {
    forall i | 0 <= i < |u| ensures u[i] in list {}
  }

  lemma AddKeepsList(m: Machine, s: Subscriber)
    requires Distinct(m.subscribers) && InactiveWait(m.subscribers) && !s.isInactive
    ensures var n := AddSubscriber(m, s);
      && Distinct(n.subscribers) && InactiveWait(n.subscribers)
      && (!HasHandle(m.subscribers, s.connHandle) ==> AnyActive(n.subscribers))
      && (AnyActive(m.subscribers) ==> AnyActive(n.subscribers))
      && (forall i :: 0 <= i < |m.subscribers| ==> n.subscribers[i] == m.subscribers[i])
  {
    var n := AddSubscriber(m, s);
    if AnyActive(m.subscribers) {
      var i :| 0 <= i < |m.subscribers| && !m.subscribers[i].isInactive;
      assert n.subscribers[i] == m.subscribers[i];
    }
    if !HasHandle(m.subscribers, s.connHandle) {
      assert n.subscribers[|m.subscribers|] == s;
    }
  }

  lemma LeaveKeepsList(m: Machine, k: nat)
    requires k < |m.subscribers| && Distinct(m.subscribers) && InactiveWait(m.subscribers)
    ensures var n := Leave(m, k);
      Distinct(n.subscribers) && InactiveWait(n.subscribers) && n.state == m.state && n.kind == m.kind
  {
    WithoutHandleIsSublist(m.subscribers, m.subscribers[k].connHandle);
  }

  lemma FinishKeepsList(m: Machine, answer: StartResult)
    requires m.kind.Base? && Distinct(m.subscribers) && InactiveWait(m.subscribers)
    ensures var n := FinishReleasing(m, answer); ListInv(n) && ActiveInv(n)
  {
    UnselectedIsSublist(m.subscribers, INACTIVE_SUBSCRIBERS);
    var u := Unselected(m.subscribers, INACTIVE_SUBSCRIBERS);
    if u != [] {
      assert u[0] in u;
    }
  }

  lemma AllUnselected(list: seq<Subscriber>)
    ensures Unselected(list, ALL_SUBSCRIBERS) == []
  {
  }

  /** The shape of the subscriber list, in every run of the base machine. */
  lemma StepKeepsListInv(m: Machine, e: Event, answer: StartResult)
    requires m.kind.Base? && ListInv(m)
    ensures ListInv(Step(m, e, answer)) && Step(m, e, answer).kind == m.kind
  {
    match e
    case Request(h, wait) => AddKeepsList(m, Subscriber(h, wait, false));
    case Release(h) =>
      var k := IndexOf(m.subscribers, h);
      if k < |m.subscribers| {
        LeaveKeepsList(m, k);
      }
    case Released => EndKeepsListInv(m, e, answer);
    case Denied => EndKeepsListInv(m, e, answer);
    case _ =>
  }

  lemma EndKeepsListInv(m: Machine, e: Event, answer: StartResult)
    requires m.kind.Base? && ListInv(m) && (e.Released? || e.Denied?)
    ensures ListInv(Step(m, e, answer)) && Step(m, e, answer).kind == m.kind
  {
    if m.state == RELEASING {
      FinishKeepsList(m, answer);
    } else {
      AllUnselected(m.subscribers);
    }
  }

  /** Who stays when one subscriber leaves while the connection is being released. */
  lemma LeaveKeepsInactive(m: Machine, k: nat)
    requires k < |m.subscribers| && InactiveWait(m.subscribers) && Distinct(m.subscribers)
    requires exists i :: 0 <= i < |m.subscribers| && m.subscribers[i].isInactive
    ensures var n := Leave(m, k); exists i :: 0 <= i < |n.subscribers| && n.subscribers[i].isInactive
  {
    var i :| 0 <= i < |m.subscribers| && m.subscribers[i].isInactive;
    var n, s := Leave(m, k), m.subscribers[k];
    if s.waitForCloseComplete {
      assert n.subscribers[k].isInactive;
    } else {
      WithoutHandleIsSublist(m.subscribers, s.connHandle);
      assert m.subscribers[i] in n.subscribers;
    }
  }

  /** Without modem restarts somebody active waits for or uses the connection, and somebody
      inactive waits for its end. */
  lemma StepKeepsActiveInv(m: Machine, e: Event, answer: StartResult)
    requires m.kind.Base? && ListInv(m) && ActiveInv(m) && !e.ModemRestart?
    ensures ActiveInv(Step(m, e, answer))
  {
    match e
    case Request(h, wait) => AddKeepsList(m, Subscriber(h, wait, false));
    case Release(h) =>
      var k := IndexOf(m.subscribers, h);
      if k < |m.subscribers| {
        LeaveKeepsList(m, k);
        if m.state == RELEASING {
          LeaveKeepsInactive(m, k);
        } else {
          var n := Leave(m, k);
          assert n.subscribers != [] && !AnyActive(n.subscribers) ==> n.subscribers[0].isInactive;
        }
      }
    case Granted =>
    case Released => if m.state == RELEASING { FinishKeepsList(m, answer); }
    case Denied => if m.state == RELEASING { FinishKeepsList(m, answer); }
  }

  predicate NoModemRestart(inputs: seq<Input>) {
    forall i :: 0 <= i < |inputs| ==> !inputs[i].event.ModemRestart?
  }

  /** In every run of the base machine handles are distinct, only subscribers that wait for
      the close are inactive, and RELEASED means nobody is left.  Without modem restarts,
      PENDING and ACQUIRED mean somebody active, and RELEASING somebody inactive. */
  lemma {:induction false} EveryRunKeepsShape(inputs: seq<Input>)
    ensures var m := Run(Base, inputs);
      m.kind == Base && ListInv(m) && (NoModemRestart(inputs) ==> ActiveInv(m))
  {
    if inputs != [] {
      var before, last := inputs[..|inputs| - 1], inputs[|inputs| - 1];
      EveryRunKeepsShape(before);
      StepKeepsListInv(Run(Base, before), last.event, last.answer);
      if NoModemRestart(inputs) {
        StepKeepsActiveInv(Run(Base, before), last.event, last.answer);
      }
    }
  }

  // ---------- Conservation of connection requests ----------

  function Count(out: seq<Output>, o: Output): nat {
    multiset(out)[o]
  }

  function Bit(b: bool): int {
    if b then 1 else 0
  }

  /** The connection was asked for and is not given back. */
  predicate Held(s: AgpsState) {
    s == PENDING || s == ACQUIRED
  }

  /** The framework takes the connection away: a denial while pending, a release while acquired. */
  predicate TakenAway(m: Machine, e: Event) {
    (e.Denied? && m.state == PENDING) || (e.Released? && m.state == ACQUIRED)
  }

  /** Requests sent, less releases sent, less connections taken away. */
  function Balance(inputs: seq<Input>): int {
    if inputs == [] then 0
    else
      var before, last := inputs[..|inputs| - 1], inputs[|inputs| - 1];
      var m := Run(Base, before);
      var n := Step(m, last.event, last.answer);
      Balance(before) + Open(n.out) - Open(m.out) - Bit(TakenAway(m, last.event))
  }

  function Open(out: seq<Output>): int {
    Count(out, RequestDataConn) - Count(out, ReleaseDataConn)
  }

  /** Notices are no connection requests. */
  lemma {:induction false} NoticesAreNoRequests(e: AgpsEvent, list: seq<Subscriber>)
    ensures RequestDataConn !in NoticesTo(Base, e, list) && ReleaseDataConn !in NoticesTo(Base, e, list)
  {
    if list != [] {
      NoticesAreNoRequests(e, list[1..]);
    }
  }

  lemma NotifyAllSendsNoRequest(m: Machine, e: AgpsEvent, deletes: bool, t: NotificationType)
    requires m.kind.Base?
    ensures Open(NotifyAll(m, e, deletes, t).out) == Open(m.out)
  {
    var notices := NoticesTo(Base, e, Selection(m.subscribers, t));
    NoticesAreNoRequests(e, Selection(m.subscribers, t));
    assert RequestDataConn !in multiset(notices) && ReleaseDataConn !in multiset(notices);
  }

  /** What a step does to the balance is what it does to the state. */
  predicate Balanced(m: Machine, n: Machine, taken: bool) {
    Open(n.out) - Open(m.out) - Bit(taken) == Bit(Held(n.state)) - Bit(Held(m.state))
  }

  lemma SendingBalances(m: Machine, request: bool, answer: StartResult)
    requires m.kind.Base?
    ensures var n := RequestOrRelease(m, request, answer).0;
      Open(n.out) == Open(m.out) + (if request then 1 else -1) && n.state == m.state
  {
  }

  lemma LeaveSendsNoRequest(m: Machine, k: nat)
    requires k < |m.subscribers|
    ensures var n := Leave(m, k); Open(n.out) == Open(m.out) && n.state == m.state && n.kind == m.kind
  {
  }

  lemma RequestBalances(m: Machine, s: Subscriber, answer: StartResult)
    requires m.kind.Base?
    ensures Balanced(m, OnSubscribe(m, s, answer), false)
  {
    SendingBalances(AddSubscriber(m, s), true, answer);
  }

  lemma ReleaseBalances(m: Machine, k: nat, answer: StartResult)
    requires m.kind.Base? && k < |m.subscribers|
    ensures Balanced(m, OnUnsubscribe(m, k, answer), false)
  {
    if m.state != RELEASED {
      LeaveSendsNoRequest(m, k);
      var n := Leave(m, k);
      SendingBalances(n.(state := RELEASED), false, answer);
      SendingBalances(n.(state := RELEASING), false, answer);
    }
  }

  lemma FinishBalances(m: Machine, answer: StartResult)
    requires m.kind.Base? && m.state == RELEASING
    ensures Balanced(m, FinishReleasing(m, answer), false)
  {
    NotifyAllSendsNoRequest(m, EVENT_RELEASED, true, INACTIVE_SUBSCRIBERS);
  }

  lemma TakenAwayBalances(m: Machine, e: Event, answer: StartResult)
    requires m.kind.Base? && (e.Released? || e.Denied?)
    ensures Balanced(m, Step(m, e, answer), TakenAway(m, e))
  {
    if m.state == RELEASING {
      FinishBalances(m, answer);
    } else {
      NotifyAllSendsNoRequest(m.(state := RELEASED), EVENT_RELEASED, true, ALL_SUBSCRIBERS);
      NotifyAllSendsNoRequest(m.(state := RELEASED), DENIED, true, ALL_SUBSCRIBERS);
    }
  }

  lemma StepBalances(m: Machine, e: Event, answer: StartResult)
    requires m.kind.Base?
    ensures Balanced(m, Step(m, e, answer), TakenAway(m, e))
  {
    match e
    case Request(h, wait) => RequestBalances(m, Subscriber(h, wait, false), answer);
    case Release(h) =>
      if IndexOf(m.subscribers, h) < |m.subscribers| {
        ReleaseBalances(m, IndexOf(m.subscribers, h), answer);
      }
    case Granted =>
      NotifyAllSendsNoRequest(m.(state := ACQUIRED), GRANTED, false, ACTIVE_SUBSCRIBERS);
    case ModemRestart =>
    case _ => TakenAwayBalances(m, e, answer);
  }

  /** Over every run, modem restarts included, the balance is one exactly in PENDING and
      ACQUIRED and zero otherwise: no request is sent twice and none is leaked. */
  lemma {:induction false} ConnectionRequestsBalance(inputs: seq<Input>)
    ensures Balance(inputs) == Bit(Held(Run(Base, inputs).state))
  {
    if inputs != [] {
      var before, last := inputs[..|inputs| - 1], inputs[|inputs| - 1];
      ConnectionRequestsBalance(before);
      EveryRunKeepsShape(before);
      StepBalances(Run(Base, before), last.event, last.answer);
    }
  }

  // ---------- Every subscriber gets its reports ----------

  /** Successful opens reported to `h`. */
  function Opens(out: seq<Output>, h: int): nat {
    Count(out, OpenStatus(h, true))
  }

  /** Terminal reports to `h`: a failed open or a close. */
  function Ends(out: seq<Output>, h: int): nat {
    Count(out, OpenStatus(h, false)) + Count(out, CloseStatus(h))
  }

  lemma {:induction false} SelectionKeeps(list: seq<Subscriber>, t: NotificationType, s: Subscriber)
    ensures s in Selection(list, t) <==> s in list && Selected(t, s)
  {
    if list != [] {
      SelectionKeeps(list[1..], t, s);
      assert s in list <==> s == list[0] || s in list[1..];
    }
  }

  lemma {:induction false} SelectionIsSublist(list: seq<Subscriber>, t: NotificationType)
    ensures var u := Selection(list, t);
      (forall s :: s in u <==> s in list && Selected(t, s)) && (Distinct(list) ==> Distinct(u))
  {
    forall s ensures s in Selection(list, t) <==> s in list && Selected(t, s) { SelectionKeeps(list, t, s); }
    if list != [] {
      SelectionIsSublist(list[1..], t);
      HeadIsDistinct(list, Selection(list[1..], t));
    }
  }

  /** Distinct subscribers get one notice each. */
  lemma {:induction false} OneNoticeEach(e: AgpsEvent, list: seq<Subscriber>, h: int)
    requires Distinct(list)
    ensures var n := NoticesTo(Base, e, list);
      && Opens(n, h) == (if e.GRANTED? && HasHandle(list, h) then 1 else 0)
      && Ends(n, h) == (if (e.DENIED? || e.UNSUBSCRIBE? || e.EVENT_RELEASED?) && HasHandle(list, h) then 1 else 0)
  {
    if list != [] {
      OneNoticeEach(e, list[1..], h);
      HasHandleOfTail(list, h);
      var first, rest := Notices(Base, e, list[0].connHandle), NoticesTo(Base, e, list[1..]);
      assert multiset(first + rest) == multiset(first) + multiset(rest);
    }
  }

  lemma HasHandleOfTail(list: seq<Subscriber>, h: int)
    requires list != []
    ensures HasHandle(list, h) <==> list[0].connHandle == h || HasHandle(list[1..], h)
    ensures Distinct(list) && list[0].connHandle == h ==> !HasHandle(list[1..], h)
  {
    forall i | 0 < i < |list| && list[i].connHandle == h ensures list[1..][i - 1].connHandle == h {}
  }

  /** The reports a notification of many adds for `h`. */
  lemma NotifyAllReports(m: Machine, e: AgpsEvent, deletes: bool, t: NotificationType, h: int)
    requires m.kind.Base? && Distinct(m.subscribers)
    ensures var n := NotifyAll(m, e, deletes, t);
      var told := HasHandle(Selection(m.subscribers, t), h);
      && Opens(n.out, h) == Opens(m.out, h) + (if e.GRANTED? && told then 1 else 0)
      && Ends(n.out, h) == Ends(m.out, h) +
           (if (e.DENIED? || e.UNSUBSCRIBE? || e.EVENT_RELEASED?) && told then 1 else 0)
  {
    SelectionIsSublist(m.subscribers, t);
    OneNoticeEach(e, Selection(m.subscribers, t), h);
  }

  /** The accounts of one handle: `joined` once it was requested, `dropped` if a modem restart
      took it.  While it is in the list it got no terminal report, and, when active, exactly
      one open-success if the connection is there and none before.  Once it has left it got
      exactly one terminal report, unless it was dropped. */
  predicate HandleInv(m: Machine, h: int, joined: bool, dropped: bool) {
    && (dropped ==> joined)
    && (HasHandle(m.subscribers, h) ==> joined && !dropped && Ends(m.out, h) == 0)
    && (!HasHandle(m.subscribers, h) ==> Ends(m.out, h) == Bit(joined && !dropped))
    && (!joined ==> Opens(m.out, h) == 0)
    && Opens(m.out, h) <= 1
    && forall k :: 0 <= k < |m.subscribers| && m.subscribers[k].connHandle == h && !m.subscribers[k].isInactive ==>
         Opens(m.out, h) == Bit(m.state == ACQUIRED)
  }

  lemma HasHandleAfterAdd(m: Machine, s: Subscriber, h: int)
    ensures HasHandle(AddSubscriber(m, s).subscribers, h) <==> HasHandle(m.subscribers, h) || h == s.connHandle
  {
    var n := AddSubscriber(m, s);
    if HasHandle(m.subscribers, h) {
      var i :| 0 <= i < |m.subscribers| && m.subscribers[i].connHandle == h;
      assert n.subscribers[i].connHandle == h;
    }
    if !HasHandle(m.subscribers, s.connHandle) {
      assert n.subscribers[|m.subscribers|].connHandle == s.connHandle;
    }
  }

  lemma AddKeepsAccounts(m: Machine, s: Subscriber, h: int, joined: bool, dropped: bool)
    requires m.kind.Base? && HandleInv(m, h, joined, dropped) && (s.connHandle == h ==> !joined)
    requires m.state != ACQUIRED || s.connHandle != h
    ensures HandleInv(AddSubscriber(m, s), h, joined || s.connHandle == h, dropped)
  {
    HasHandleAfterAdd(m, s, h);
  }

  /** The first subscriber of a released machine starts the connection. */
  lemma FirstRequestKeepsAccounts(m: Machine, s: Subscriber, answer: StartResult, h: int, joined: bool, dropped: bool)
    requires m.kind.Base? && m.state == RELEASED && HandleInv(m, h, joined, dropped) && (s.connHandle == h ==> !joined)
    ensures HandleInv(OnSubscribe(m, s, answer), h, joined || s.connHandle == h, dropped)
  {
    AddKeepsAccounts(m, s, h, joined, dropped);
    SendingIsNoReport(AddSubscriber(m, s), true, answer, h);
  }

  /** A subscriber that finds the connection is told before it joins. */
  lemma GrantedRequestKeepsAccounts(m: Machine, s: Subscriber, h: int, joined: bool, dropped: bool)
    requires m.kind.Base? && m.state == ACQUIRED && HandleInv(m, h, joined, dropped)
    requires !s.isInactive && (s.connHandle == h ==> !joined)
    ensures HandleInv(AddSubscriber(NotifyOne(m, GRANTED, s.connHandle), s), h, joined || s.connHandle == h, dropped)
  {
    var n := NotifyOne(m, GRANTED, s.connHandle);
    HasHandleAfterAdd(n, s, h);
    assert Ends(n.out, h) == Ends(m.out, h);
    assert Opens(n.out, h) == Opens(m.out, h) + if s.connHandle == h then 1 else 0;
  }

  lemma RequestKeepsAccounts(m: Machine, s: Subscriber, answer: StartResult, h: int, joined: bool, dropped: bool)
    requires m.kind.Base? && ListInv(m) && HandleInv(m, h, joined, dropped)
    requires !s.isInactive && (s.connHandle == h ==> !joined)
    ensures HandleInv(OnSubscribe(m, s, answer), h, joined || s.connHandle == h, dropped)
  {
    match m.state
    case RELEASED => FirstRequestKeepsAccounts(m, s, answer, h, joined, dropped);
    case ACQUIRED => GrantedRequestKeepsAccounts(m, s, h, joined, dropped);
    case PENDING => AddKeepsAccounts(m, s, h, joined, dropped);
    case RELEASING => AddKeepsAccounts(m, s, h, joined, dropped);
  }

  lemma HasHandleAfterLeave(m: Machine, k: nat, h: int)
    requires k < |m.subscribers|
    ensures HasHandle(Leave(m, k).subscribers, h) <==>
            HasHandle(m.subscribers, h) && (m.subscribers[k].connHandle == h ==> m.subscribers[k].waitForCloseComplete)
  {
    var n, s := Leave(m, k), m.subscribers[k];
    WithoutHandleIsSublist(m.subscribers, s.connHandle);
    if HasHandle(m.subscribers, h) {
      var i :| 0 <= i < |m.subscribers| && m.subscribers[i].connHandle == h;
      if s.waitForCloseComplete {
        assert n.subscribers[i].connHandle == h;
      } else if s.connHandle != h {
        assert m.subscribers[i] in n.subscribers;
      }
    }
    if HasHandle(n.subscribers, h) {
      var i :| 0 <= i < |n.subscribers| && n.subscribers[i].connHandle == h;
      if s.waitForCloseComplete {
        assert m.subscribers[i].connHandle == h;
      } else {
        assert n.subscribers[i] in m.subscribers;
      }
    }
  }

  lemma LeaveKeepsAccounts(m: Machine, k: nat, h: int, joined: bool, dropped: bool)
    requires m.kind.Base? && k < |m.subscribers| && HandleInv(m, h, joined, dropped)
    ensures HandleInv(Leave(m, k), h, joined, dropped)
  {
    var n, s := Leave(m, k), m.subscribers[k];
    HasHandleAfterLeave(m, k, h);
    WithoutHandleIsSublist(m.subscribers, s.connHandle);
    forall j | 0 <= j < |n.subscribers| && n.subscribers[j].connHandle == h && !n.subscribers[j].isInactive
      ensures Opens(n.out, h) == Bit(n.state == ACQUIRED)
    {
      if !s.waitForCloseComplete {
        assert n.subscribers[j] in m.subscribers;
      }
    }
  }

  /** Asking for the connection, or giving it back, is no report to a subscriber. */
  lemma SendingIsNoReport(m: Machine, request: bool, answer: StartResult, h: int)
    requires m.kind.Base?
    ensures var n := RequestOrRelease(m, request, answer).0;
      && n.subscribers == m.subscribers && n.state == m.state
      && Opens(n.out, h) == Opens(m.out, h) && Ends(n.out, h) == Ends(m.out, h)
  {
  }

  /** Without an active subscriber the state may change, and any request may be sent. */
  lemma QuietKeepsAccounts(m: Machine, n: Machine, h: int, joined: bool, dropped: bool)
    requires HandleInv(m, h, joined, dropped) && n.subscribers == m.subscribers
    requires Opens(n.out, h) == Opens(m.out, h) && Ends(n.out, h) == Ends(m.out, h)
    requires n.state == m.state || !AnyActive(m.subscribers)
    ensures HandleInv(n, h, joined, dropped)
  {
  }

  /** A release changes the state only when nobody active is left. */
  lemma ReleaseIsQuiet(m: Machine, k: nat, answer: StartResult, h: int)
    requires m.kind.Base? && k < |m.subscribers| && ListInv(m)
    ensures var l, n := Leave(m, k), OnUnsubscribe(m, k, answer);
      && n.subscribers == l.subscribers && (n.state == l.state || !AnyActive(l.subscribers))
      && Opens(n.out, h) == Opens(l.out, h) && Ends(n.out, h) == Ends(l.out, h)
  {
    var l := Leave(m, k);
    SendingIsNoReport(l.(state := RELEASED), false, answer, h);
    SendingIsNoReport(l.(state := RELEASING), false, answer, h);
  }

  lemma ReleaseKeepsAccounts(m: Machine, k: nat, answer: StartResult, h: int, joined: bool, dropped: bool)
    requires m.kind.Base? && k < |m.subscribers| && ListInv(m) && HandleInv(m, h, joined, dropped)
    ensures HandleInv(OnUnsubscribe(m, k, answer), h, joined, dropped)
  {
    LeaveKeepsAccounts(m, k, h, joined, dropped);
    ReleaseIsQuiet(m, k, answer, h);
    QuietKeepsAccounts(Leave(m, k), OnUnsubscribe(m, k, answer), h, joined, dropped);
  }

  /** Which handles a notification with deletion leaves. */
  lemma HasHandleAfterNotify(list: seq<Subscriber>, t: NotificationType, h: int)
    requires Distinct(list)
    ensures HasHandle(Unselected(list, t), h) <==> HasHandle(list, h) && !HasHandle(Selection(list, t), h)
    ensures HasHandle(Selection(list, t), h) ==> HasHandle(list, h)
  {
    UnselectedIsSublist(list, t);
    SelectionIsSublist(list, t);
    var u, c := Unselected(list, t), Selection(list, t);
    forall i | 0 <= i < |u| ensures u[i] in list && u[i] in u {}
    forall i | 0 <= i < |c| ensures c[i] in list && c[i] in c {}
    if HasHandle(list, h) {
      var i :| 0 <= i < |list| && list[i].connHandle == h;
      assert list[i] in u || list[i] in c;
    }
  }

  /** Telling the chosen subscribers that it is over, and deleting them. */
  lemma EndingKeepsAccounts(m: Machine, e: AgpsEvent, t: NotificationType, h: int, joined: bool, dropped: bool)
    requires m.kind.Base? && Distinct(m.subscribers) && HandleInv(m, h, joined, dropped)
    requires e.DENIED? || e.EVENT_RELEASED?
    ensures HandleInv(NotifyAll(m, e, true, t), h, joined, dropped)
  {
    NotifyAllReports(m, e, true, t, h);
    HasHandleAfterNotify(m.subscribers, t, h);
    UnselectedIsSublist(m.subscribers, t);
    var n := NotifyAll(m, e, true, t);
    forall j | 0 <= j < |n.subscribers| && n.subscribers[j].connHandle == h && !n.subscribers[j].isInactive
      ensures Opens(n.out, h) == Bit(n.state == ACQUIRED)
    {
      assert n.subscribers[j] in m.subscribers;
    }
  }

  lemma FinishKeepsAccounts(m: Machine, answer: StartResult, h: int, joined: bool, dropped: bool)
    requires m.kind.Base? && m.state == RELEASING && Distinct(m.subscribers) && HandleInv(m, h, joined, dropped)
    ensures HandleInv(FinishReleasing(m, answer), h, joined, dropped)
  {
    EndingKeepsAccounts(m, EVENT_RELEASED, INACTIVE_SUBSCRIBERS, h, joined, dropped);
  }

  lemma GrantKeepsAccounts(m: Machine, h: int, joined: bool, dropped: bool)
    requires m.kind.Base? && m.state == PENDING && Distinct(m.subscribers) && HandleInv(m, h, joined, dropped)
    ensures HandleInv(OnGranted(m), h, joined, dropped)
  {
    NotifyAllReports(m.(state := ACQUIRED), GRANTED, false, ACTIVE_SUBSCRIBERS, h);
    SelectionIsSublist(m.subscribers, ACTIVE_SUBSCRIBERS);
    var c := Selection(m.subscribers, ACTIVE_SUBSCRIBERS);
    forall i | 0 <= i < |c| ensures c[i] in m.subscribers && !c[i].isInactive {
      assert c[i] in c;
    }
    forall j | 0 <= j < |m.subscribers| && m.subscribers[j].connHandle == h && !m.subscribers[j].isInactive
      ensures HasHandle(c, h)
    {
      assert m.subscribers[j] in c;
    }
  }

  lemma AllSelected(list: seq<Subscriber>)
    ensures Selection(list, ALL_SUBSCRIBERS) == list
  {
  }

  lemma EndingAllKeepsAccounts(m: Machine, e: AgpsEvent, h: int, joined: bool, dropped: bool)
    requires m.kind.Base? && Distinct(m.subscribers) && HandleInv(m, h, joined, dropped)
    requires e.DENIED? || e.EVENT_RELEASED?
    ensures HandleInv(NotifyAll(m.(state := RELEASED), e, true, ALL_SUBSCRIBERS), h, joined, dropped)
  {
    NotifyAllReports(m.(state := RELEASED), e, true, ALL_SUBSCRIBERS, h);
    AllUnselected(m.subscribers);
    AllSelected(m.subscribers);
  }

  predicate Requested(inputs: seq<Input>, h: int) {
    exists i :: 0 <= i < |inputs| && inputs[i].event.Request? && inputs[i].event.connHandle == h
  }

  /** Every request brings a handle that was not requested before. */
  predicate FreshHandles(inputs: seq<Input>) {
    forall i, j :: 0 <= i < j < |inputs| && inputs[i].event.Request? && inputs[j].event.Request? ==>
      inputs[i].event.connHandle != inputs[j].event.connHandle
  }

  /** A modem restart took the subscriber `h` out of the list. */
  predicate Dropped(inputs: seq<Input>, h: int) {
    inputs != [] &&
    var before, last := inputs[..|inputs| - 1], inputs[|inputs| - 1];
    Dropped(before, h) || (last.event.ModemRestart? && HasHandle(Run(Base, before).subscribers, h))
  }

  lemma TakenAwayKeepsAccounts(m: Machine, e: Event, answer: StartResult, h: int, joined: bool, dropped: bool)
    requires m.kind.Base? && ListInv(m) && HandleInv(m, h, joined, dropped)
    requires e.Granted? || e.Released? || e.Denied?
    ensures HandleInv(Step(m, e, answer), h, joined, dropped)
  {
    if e.Granted? {
      if m.state == PENDING { GrantKeepsAccounts(m, h, joined, dropped); }
    } else if m.state == RELEASING {
      FinishKeepsAccounts(m, answer, h, joined, dropped);
    } else {
      EndingAllKeepsAccounts(m, if e.Released? then EVENT_RELEASED else DENIED, h, joined, dropped);
    }
  }

  lemma StepKeepsAccounts(m: Machine, e: Event, answer: StartResult, h: int, joined: bool, dropped: bool)
    requires m.kind.Base? && ListInv(m) && HandleInv(m, h, joined, dropped)
    requires e.Request? && e.connHandle == h ==> !joined
    ensures HandleInv(Step(m, e, answer), h, joined || (e.Request? && e.connHandle == h),
                      dropped || (e.ModemRestart? && HasHandle(m.subscribers, h)))
  {
    match e
    case Request(u, wait) => RequestKeepsAccounts(m, Subscriber(u, wait, false), answer, h, joined, dropped);
    case Release(u) =>
      var k := IndexOf(m.subscribers, u);
      if k < |m.subscribers| { ReleaseKeepsAccounts(m, k, answer, h, joined, dropped); }
    case ModemRestart =>
    case _ => TakenAwayKeepsAccounts(m, e, answer, h, joined, dropped);
  }

  lemma RequestedAtEnd(inputs: seq<Input>, h: int)
    requires inputs != []
    ensures var before, last := inputs[..|inputs| - 1], inputs[|inputs| - 1].event;
      && (Requested(inputs, h) <==> Requested(before, h) || (last.Request? && last.connHandle == h))
      && (FreshHandles(inputs) && last.Request? && last.connHandle == h ==> !Requested(before, h))
  {
    var before, last := inputs[..|inputs| - 1], inputs[|inputs| - 1].event;
    if Requested(before, h) {
      var i :| 0 <= i < |before| && before[i].event.Request? && before[i].event.connHandle == h;
      assert inputs[i].event.Request? && inputs[i].event.connHandle == h;
    }
  }

  /** Main theorem, over every run of the base machine in which handles are fresh: while a
      subscriber is in the list it has had no terminal report and, when active, exactly one
      open-success if the state is ACQUIRED and none otherwise; once it has left it has had
      exactly one terminal report, unless a modem restart dropped it, which reports nothing. */
  lemma {:induction false} EveryHandleGetsItsReports(inputs: seq<Input>, h: int)
    requires FreshHandles(inputs)
    ensures HandleInv(Run(Base, inputs), h, Requested(inputs, h), Dropped(inputs, h))
  {
    if inputs != [] {
      var before, last := inputs[..|inputs| - 1], inputs[|inputs| - 1];
      EveryHandleGetsItsReports(before, h);
      EveryRunKeepsShape(before);
      RequestedAtEnd(inputs, h);
      StepKeepsAccounts(Run(Base, before), last.event, last.answer, h, Requested(before, h), Dropped(before, h));
    }
  }

  /** Freshness matters.  Asking again for a listed handle keeps its accounts exactly when it
      is not told of a success that it was told of before. */
  lemma RepeatedRequestKeepsAccountsIff(m: Machine, h: int, wait: bool, answer: StartResult, dropped: bool)
    requires m.kind.Base? && HandleInv(m, h, true, dropped) && HasHandle(m.subscribers, h)
    ensures HandleInv(Step(m, Request(h, wait), answer), h, true, dropped) <==> m.state != ACQUIRED || Opens(m.out, h) == 0
  {
    var s := Subscriber(h, wait, false);
    SendingIsNoReport(m, true, answer, h);
    if m.state == ACQUIRED {
      var n := NotifyOne(m, GRANTED, h);
      assert Opens(n.out, h) == Opens(m.out, h) + 1 && Ends(n.out, h) == Ends(m.out, h);
      assert AddSubscriber(n, s) == n;
    } else {
      assert AddSubscriber(m, s) == m;
    }
  }

  /** For an active subscriber that means: exactly when the machine is not ACQUIRED. */
  lemma RepeatedActiveRequestKeepsAccountsIff(m: Machine, k: nat, wait: bool, answer: StartResult, dropped: bool)
    requires m.kind.Base? && k < |m.subscribers| && !m.subscribers[k].isInactive
    requires HandleInv(m, m.subscribers[k].connHandle, true, dropped)
    ensures var h := m.subscribers[k].connHandle;
      HandleInv(Step(m, Request(h, wait), answer), h, true, dropped) <==> m.state != ACQUIRED
  {
    RepeatedRequestKeepsAccountsIff(m, m.subscribers[k].connHandle, wait, answer, dropped);
  }

  /** Freshness matters: a handle requested again while ACQUIRED is told of success twice. */
  lemma RepeatedRequestIsToldTwice(m: Machine, h: int, wait: bool, answer: StartResult)
    requires m.kind.Base? && m.state == ACQUIRED && HasHandle(m.subscribers, h) && Opens(m.out, h) == 1
    ensures var n := Step(m, Request(h, wait), answer);
      Opens(n.out, h) == 2 && n.subscribers == m.subscribers
  {
  }

  // ---------- The data-service machine ----------

  /** Retries never exceed the bound between events, and the list keeps its shape. */
  predicate RetryInv(m: Machine) {
    m.retries <= MAX_START_DATA_CALL_RETRIES && Distinct(m.subscribers) && InactiveWait(m.subscribers)
  }

  lemma NotifyAllKeepsRetryInv(m: Machine, e: AgpsEvent, deletes: bool, t: NotificationType)
    requires RetryInv(m)
    ensures RetryInv(NotifyAll(m, e, deletes, t))
  {
    UnselectedIsSublist(m.subscribers, t);
  }

  lemma SendingKeepsRetryInv(m: Machine, request: bool, answer: StartResult)
    requires m.kind.DataService? && RetryInv(m)
    ensures var n := RequestOrRelease(m, request, answer).0;
      RetryInv(n) && n.kind == m.kind && n.subscribers == m.subscribers
  {
  }

  lemma RequestKeepsRetryInv(m: Machine, s: Subscriber, answer: StartResult)
    requires m.kind.DataService? && RetryInv(m) && !s.isInactive
    ensures var n := OnSubscribe(m, s, answer); RetryInv(n) && n.kind == m.kind
  {
    AddKeepsList(m, s);
    SendingKeepsRetryInv(AddSubscriber(m, s), true, answer);
  }

  lemma ReleaseKeepsRetryInv(m: Machine, k: nat, answer: StartResult)
    requires m.kind.DataService? && RetryInv(m) && k < |m.subscribers|
    ensures var n := OnUnsubscribe(m, k, answer); RetryInv(n) && n.kind == m.kind
  {
    if m.state != RELEASED {
      LeaveKeepsList(m, k);
      var n := Leave(m, k);
      SendingKeepsRetryInv(n.(state := RELEASED), false, answer);
      SendingKeepsRetryInv(n.(state := RELEASING), false, answer);
    }
  }

  lemma EndingKeepsRetryInv(m: Machine, e: Event, answer: StartResult)
    requires m.kind.DataService? && RetryInv(m) && (e.Released? || e.Denied?)
    ensures RetryInv(Step(m, e, answer)) && Step(m, e, answer).kind == m.kind
  {
    if m.state == RELEASING {
      NotifyAllKeepsRetryInv(m, EVENT_RELEASED, true, INACTIVE_SUBSCRIBERS);
      var n := NotifyAll(m, EVENT_RELEASED, true, INACTIVE_SUBSCRIBERS);
      SendingKeepsRetryInv(n.(state := PENDING), true, answer);
    } else {
      NotifyAllKeepsRetryInv(m.(state := RELEASED), EVENT_RELEASED, true, ALL_SUBSCRIBERS);
      NotifyAllKeepsRetryInv(m.(state := RELEASED), DENIED, true, ALL_SUBSCRIBERS);
    }
  }

  lemma StepKeepsRetryInv(m: Machine, e: Event, answer: StartResult)
    requires m.kind.DataService? && RetryInv(m)
    ensures RetryInv(Step(m, e, answer)) && Step(m, e, answer).kind == m.kind
  {
    match e
    case Request(h, wait) => RequestKeepsRetryInv(m, Subscriber(h, wait, false), answer);
    case Release(h) =>
      var k := IndexOf(m.subscribers, h);
      if k < |m.subscribers| { ReleaseKeepsRetryInv(m, k, answer); }
    case Granted => NotifyAllKeepsRetryInv(m.(state := ACQUIRED), GRANTED, false, ACTIVE_SUBSCRIBERS);
    case ModemRestart =>
    case _ => EndingKeepsRetryInv(m, e, answer);
  }

  lemma {:induction false} EveryRunKeepsRetryBound(kind: Kind, inputs: seq<Input>)
    requires kind.DataService?
    ensures var m := Run(kind, inputs); m.kind == kind && RetryInv(m)
  {
    if inputs != [] {
      var before, last := inputs[..|inputs| - 1], inputs[|inputs| - 1];
      EveryRunKeepsRetryBound(kind, before);
      StepKeepsRetryInv(Run(kind, before), last.event, last.answer);
    }
  }

  /** What every run keeps, for the machine at hand. */
  predicate MachineInv(m: Machine) {
    if m.kind.Base? then ListInv(m) else RetryInv(m)
  }

  lemma StepKeepsMachineInv(m: Machine, e: Event, answer: StartResult)
    requires MachineInv(m)
    ensures MachineInv(Step(m, e, answer)) && Step(m, e, answer).kind == m.kind
  {
    if m.kind.Base? {
      StepKeepsListInv(m, e, answer);
    } else {
      StepKeepsRetryInv(m, e, answer);
    }
  }

  /** What the retry timer leads to: `retryCallback` posts a request for the first active
      subscriber, which comes back to the machine. */
  function Retry(m: Machine, answer: StartResult): Machine {
    var first := FirstActive(m.subscribers);
    if first.None? then m else Step(m, Request(first.value.connHandle, true), answer)
  }

  /** `n` retries against an engine that is always busy. */
  function BusyRetries(m: Machine, n: nat): Machine {
    if n == 0 then m else Retry(BusyRetries(m, n - 1), EngineBusy)
  }

  /** A run of `n` busy attempts that do not exhaust the retries. */
  function BusyOutputs(n: nat): seq<Output> {
    if n == 0 then [] else BusyOutputs(n - 1) + [StartDataCall, RetryTimer]
  }

  /** A retry is an attempt for the first active subscriber, which is in the list already. */
  lemma RetryIsAttempt(m: Machine)
    requires m.kind.DataService? && m.kind.canStart && m.state == RELEASED && AnyActive(m.subscribers)
    ensures Retry(m, EngineBusy) == StartCall(m, FirstActive(m.subscribers).value.connHandle, EngineBusy)
  {
    var first := FirstActive(m.subscribers).value;
    assert HasHandle(m.subscribers, first.connHandle);
  }

  lemma {:induction false} BusyRetriesCount(m: Machine, n: nat)
    requires m.kind.DataService? && m.kind.canStart && m.state == RELEASED && AnyActive(m.subscribers)
    requires m.retries + n <= MAX_START_DATA_CALL_RETRIES
    ensures BusyRetries(m, n) == m.(retries := m.retries + n, out := m.out + BusyOutputs(n))
  {
    if n == 0 {
      assert m.out + [] == m.out;
    } else {
      BusyRetriesCount(m, n - 1);
      var p := BusyRetries(m, n - 1);
      RetryIsAttempt(p);
      SentTwo(m.out, BusyOutputs(n - 1), StartDataCall, RetryTimer);
    }
  }

  lemma SentTwo(out: seq<Output>, more: seq<Output>, a: Output, b: Output)
    ensures out + more + [a] + [b] == out + (more + [a, b])
  {
  }

  lemma LastBusyAttempt(p: Machine)
    requires p.kind.DataService? && p.kind.canStart && p.state == RELEASED && AnyActive(p.subscribers)
    requires p.retries == MAX_START_DATA_CALL_RETRIES
    ensures Retry(p, EngineBusy) ==
      p.(retries := 0, out := p.out + [StartDataCall, RequestSupl(FirstActive(p.subscribers).value.connHandle)])
  {
    RetryIsAttempt(p);
    SentTwo(p.out, [], StartDataCall, RequestSupl(FirstActive(p.subscribers).value.connHandle));
    assert p.out + [] == p.out;
  }

  /** The machine before its last retry. */
  lemma BeforeLastRetry(m: Machine, n: nat) returns (p: Machine)
    requires m.kind.DataService? && m.kind.canStart && m.state == RELEASED && AnyActive(m.subscribers)
    requires m.retries + n == MAX_START_DATA_CALL_RETRIES + 1 && 0 < n
    ensures BusyRetries(m, n) == Retry(p, EngineBusy)
    ensures p == m.(retries := MAX_START_DATA_CALL_RETRIES, out := m.out + BusyOutputs(n - 1))
  {
    BusyRetriesCount(m, n - 1);
    p := BusyRetries(m, n - 1);
  }

  /** An engine that is always busy is asked five times in all, counting the attempts before;
      then the first active subscriber is sent to SUPL, once, and the count starts again. */
  lemma BusyEngineFallsBackOnce(m: Machine, n: nat)
    requires m.kind.DataService? && m.kind.canStart && m.state == RELEASED && AnyActive(m.subscribers)
    requires m.retries + n == MAX_START_DATA_CALL_RETRIES + 1 && 0 < n
    ensures BusyRetries(m, n) ==
      m.(retries := 0,
         out := m.out + BusyOutputs(n - 1) + [StartDataCall, RequestSupl(FirstActive(m.subscribers).value.connHandle)])
  {
    var p := BeforeLastRetry(m, n);
    LastBusyAttempt(p);
  }

  /** `n` reports of success to one handle. */
  function Successes(h: int, n: nat): seq<Output> {
    if n == 0 then [] else Successes(h, n - 1) + [OpenStatus(h, true)]
  }

  /** In every other state a retry does not get to the engine: PENDING and RELEASING swallow
      it, since its subscriber is in the list, and ACQUIRED reports success to it again. */
  lemma {:induction false} RetriesElsewhere(m: Machine, n: nat)
    requires m.kind.DataService? && AnyActive(m.subscribers) && m.state != RELEASED
    ensures m.state != ACQUIRED ==> BusyRetries(m, n) == m
    ensures m.state == ACQUIRED ==>
      BusyRetries(m, n) == m.(out := m.out + Successes(FirstActive(m.subscribers).value.connHandle, n))
  {
    if n == 0 {
      assert m.out + [] == m.out;
    } else {
      RetriesElsewhere(m, n - 1);
      RetryElsewhere(BusyRetries(m, n - 1));
      OneMoreSuccess(m.out, FirstActive(m.subscribers).value.connHandle, n);
    }
  }

  lemma RetryElsewhere(m: Machine)
    requires m.kind.DataService? && AnyActive(m.subscribers) && m.state != RELEASED
    ensures m.state != ACQUIRED ==> Retry(m, EngineBusy) == m
    ensures m.state == ACQUIRED ==>
      Retry(m, EngineBusy) == m.(out := m.out + [OpenStatus(FirstActive(m.subscribers).value.connHandle, true)])
  {
    assert HasHandle(m.subscribers, FirstActive(m.subscribers).value.connHandle);
  }

  lemma OneMoreSuccess(out: seq<Output>, h: int, n: nat)
    requires 0 < n
    ensures out + Successes(h, n - 1) + [OpenStatus(h, true)] == out + Successes(h, n)
  {
  }

  lemma {:induction false} SuccessesAreReports(h: int, n: nat)
    ensures forall o :: o in Successes(h, n) ==> o.OpenStatus?
  {
    if n > 0 {
      SuccessesAreReports(h, n - 1);
    }
  }

  /** What the retries send, when the engine stays busy until they are used up. */
  ghost function RetriesSend(m: Machine): (sent: seq<Output>)
    requires m.kind.DataService? && m.kind.canStart && m.retries <= MAX_START_DATA_CALL_RETRIES && AnyActive(m.subscribers)
    ensures BusyRetries(m, MAX_START_DATA_CALL_RETRIES + 1 - m.retries).out == m.out + sent
  {
    var n, h := MAX_START_DATA_CALL_RETRIES + 1 - m.retries, FirstActive(m.subscribers).value.connHandle;
    if m.state == RELEASED then
      BusyEngineFallsBackOnce(m, n);
      assert m.out + BusyOutputs(n - 1) + [StartDataCall, RequestSupl(h)]
          == m.out + (BusyOutputs(n - 1) + [StartDataCall, RequestSupl(h)]);
      BusyOutputs(n - 1) + [StartDataCall, RequestSupl(h)]
    else
      RetriesElsewhere(m, n);
      assert m.out + [] == m.out;
      if m.state == ACQUIRED then Successes(h, n) else []
  }

  lemma {:induction false} BusyOutputsCount(n: nat, h: int)
    ensures Count(BusyOutputs(n), StartDataCall) == n && Count(BusyOutputs(n), RequestSupl(h)) == 0
  {
    if n > 0 {
      BusyOutputsCount(n - 1, h);
    }
  }

  lemma FallBackCount(n: nat, h: int)
    ensures var sent := BusyOutputs(n) + [StartDataCall, RequestSupl(h)];
      && Count(sent, StartDataCall) == n + 1 && Count(sent, RequestSupl(h)) == 1 && sent[|sent| - 1] == RequestSupl(h)
      && StartDataCall in sent && RequestSupl(h) in sent
  {
    BusyOutputsCount(n, h);
    var sent := BusyOutputs(n) + [StartDataCall, RequestSupl(h)];
    assert sent[|sent| - 2] == StartDataCall && sent[|sent| - 1] == RequestSupl(h);
  }

  /** Main theorem on retries, for every state of the machine: they ask the busy engine again,
      five times with the attempts before, and end in one SUPL request for the first active
      subscriber, if and only if the machine is RELEASED; otherwise they do neither. */
  lemma RetriesFallBackIffReleased(m: Machine)
    requires m.kind.DataService? && m.kind.canStart && m.retries <= MAX_START_DATA_CALL_RETRIES && AnyActive(m.subscribers)
    ensures var sent, h := RetriesSend(m), FirstActive(m.subscribers).value.connHandle;
      && (StartDataCall in sent <==> m.state == RELEASED) && (RequestSupl(h) in sent <==> m.state == RELEASED)
      && (m.state == RELEASED ==>
            && Count(sent, StartDataCall) == MAX_START_DATA_CALL_RETRIES + 1 - m.retries
            && Count(sent, RequestSupl(h)) == 1 && sent[|sent| - 1] == RequestSupl(h))
  {
    var h := FirstActive(m.subscribers).value.connHandle;
    var n := MAX_START_DATA_CALL_RETRIES - m.retries;
    if m.state == RELEASED {
      FallBackCount(n, h);
      assert RetriesSend(m) == BusyOutputs(n) + [StartDataCall, RequestSupl(h)];
    } else {
      SuccessesAreReports(h, n + 1);
    }
  }

  /** So the code does not fall back where the connection is asked for as RELEASING ends: the
      machine is PENDING before the engine is asked, whatever it answers.  A busy engine gets
      a retry timer there, and the retries do nothing, however many there are. */
  lemma BusyAfterReleasingIsStuck(m: Machine, e: Event, n: nat)
    requires m.kind.DataService? && m.kind.canStart && m.state == RELEASING && AnyActive(m.subscribers)
    requires m.retries < MAX_START_DATA_CALL_RETRIES && (e.Released? || e.Denied?)
    ensures var p := Step(m, e, EngineBusy);
      && p.state == PENDING && p.retries == m.retries + 1 && AnyActive(p.subscribers)
      && p.subscribers == Unselected(m.subscribers, INACTIVE_SUBSCRIBERS)
      && p.out == NotifyAll(m, EVENT_RELEASED, true, INACTIVE_SUBSCRIBERS).out + [StartDataCall, RetryTimer]
      && BusyRetries(p, n) == p
  {
    ActiveStay(m.subscribers);
    var q := NotifyAll(m, EVENT_RELEASED, true, INACTIVE_SUBSCRIBERS);
    assert q.out + [StartDataCall] + [RetryTimer] == q.out + [StartDataCall, RetryTimer];
    RetriesElsewhere(Step(m, e, EngineBusy), n);
  }

  lemma ActiveStay(list: seq<Subscriber>)
    requires AnyActive(list)
    ensures AnyActive(Unselected(list, INACTIVE_SUBSCRIBERS))
  {
    var i :| 0 <= i < |list| && !list[i].isInactive;
    UnselectedKeeps(list, INACTIVE_SUBSCRIBERS, list[i]);
    var u := Unselected(list, INACTIVE_SUBSCRIBERS);
    var j :| 0 <= j < |u| && u[j] == list[i];
  }

  lemma RunStep(kind: Kind, inputs: seq<Input>, last: Input)
    ensures Run(kind, inputs + [last]) == Step(Run(kind, inputs), last.event, last.answer)
  {
    assert (inputs + [last])[..|inputs|] == inputs;
  }

  lemma OneLeftActive(x: Subscriber, y: Subscriber)
    requires x.isInactive && !y.isInactive
    ensures AnyActive([x, y]) && Unselected([x, y], INACTIVE_SUBSCRIBERS) == [y]
  {
    assert [x, y][1..] == [y] && [y][1..] == [];
    assert !Selected(INACTIVE_SUBSCRIBERS, [x, y][1]);
    assert Unselected([y], INACTIVE_SUBSCRIBERS) == [y] + Unselected([], INACTIVE_SUBSCRIBERS);
  }

  /** The data-service machine has got a connection for `a`. */
  lemma AcquiredRun(kind: Kind, a: int) returns (inputs: seq<Input>)
    requires kind.DataService? && kind.canStart
    ensures var m := Run(kind, inputs);
      m.kind == kind && m.state == ACQUIRED && m.subscribers == [Subscriber(a, true, false)] && m.retries == 0
  {
    var first := Input(Request(a, true), Success);
    RunStep(kind, [], first);
    RunStep(kind, [first], Input(Granted, Success));
    assert [] + [first] == [first];
    inputs := [first] + [Input(Granted, Success)];
    var x := Subscriber(a, true, false);
    var m := AddSubscriber(Fresh(kind), x);
    assert m.subscribers == [x] && FirstActive(m.subscribers) == Some(x);
  }

  /** Then `a` leaves, and `b` asks for it before it is closed. */
  lemma ReleasingRun(kind: Kind, a: int, b: int) returns (inputs: seq<Input>)
    requires kind.DataService? && kind.canStart && a != b
    ensures var m := Run(kind, inputs);
      && m.kind == kind && m.state == RELEASING && m.retries == 0
      && m.subscribers == [Subscriber(a, true, true), Subscriber(b, true, false)]
  {
    var acquired := AcquiredRun(kind, a);
    var leave := Input(Release(a), Success);
    RunStep(kind, acquired, leave);
    var m := Run(kind, acquired);
    assert IndexOf(m.subscribers, a) == 0;
    assert Leave(m, 0).subscribers == [Subscriber(a, true, true)];
    var ask := Input(Request(b, true), Success);
    RunStep(kind, acquired + [leave], ask);
    inputs := acquired + [leave] + [ask];
  }

  /** A run that gets there: one subscriber leaves the connection, another asks for it before
      it is closed, and then the engine is busy. */
  lemma BusyAfterReleasingRun(kind: Kind, a: int, b: int, n: nat) returns (inputs: seq<Input>)
    requires kind.DataService? && kind.canStart && a != b
    ensures var p := Run(kind, inputs);
      && p.state == PENDING && p.subscribers == [Subscriber(b, true, false)] && p.retries == 1
      && BusyRetries(p, n) == p
  {
    var releasing := ReleasingRun(kind, a, b);
    OneLeftActive(Subscriber(a, true, true), Subscriber(b, true, false));
    BusyAfterReleasingIsStuck(Run(kind, releasing), Released, n);
    RunStep(kind, releasing, Input(Released, EngineBusy));
    inputs := releasing + [Input(Released, EngineBusy)];
  }

  /** The requests for SUPL that replace the subscribers of a failed data call. */
  function SuplRequests(list: seq<Subscriber>): seq<Output> {
    seq(|list|, i requires 0 <= i < |list| => RequestSupl(list[i].connHandle))
  }

  lemma {:induction false} DenialsAreSuplRequests(kind: Kind, list: seq<Subscriber>)
    requires kind.DataService?
    ensures NoticesTo(kind, DENIED, list) == SuplRequests(list)
  {
    if list != [] {
      DenialsAreSuplRequests(kind, list[1..]);
    }
  }

  /** A denial while pending, and a release just as well, sends every subscriber of the
      data-service machine to SUPL, once each and in order, and empties the list. */
  lemma FailedCallGoesToSupl(m: Machine, e: Event, answer: StartResult)
    requires m.kind.DataService? && m.state == PENDING && (e.Denied? || e.Released?)
    ensures var n := Step(m, e, answer);
      && n.state == RELEASED && n.subscribers == [] && n.out == m.out + SuplRequests(m.subscribers)
      && (m.subscribers != [] ==> n.retries == 0)
  {
    AllUnselected(m.subscribers);
    AllSelected(m.subscribers);
    DenialsAreSuplRequests(m.kind, m.subscribers);
  }
}
