/** What each event of the AGPS machines of gps/gnss/Agps.cpp sends, told apart by whom it is
    about, and what it does to state and list, for both machines.  Then, over whole runs, that
    a subscriber is listed with the flag of the request that brought it, and what that flag
    decides when it is released. */
module AgpsReports {
  import opened Wrappers
  import opened Agps

  // ---------- Who an output is about ----------

  predicate IsAbout(o: Output, h: int) {
    (o.OpenStatus? || o.CloseStatus? || o.RequestSupl?) && o.connHandle == h
  }

  /** The reports to `h`, and the requests for SUPL in its place, in order. */
  function About(out: seq<Output>, h: int): seq<Output> {
    if out == [] then []
    else About(out[..|out| - 1], h) + if IsAbout(out[|out| - 1], h) then [out[|out| - 1]] else []
  }

  predicate IsConnection(o: Output) {
    !o.OpenStatus? && !o.CloseStatus? && !o.RequestSupl?
  }

  /** What goes to the framework, to the data service client and to the timer, in order. */
  function Connection(out: seq<Output>): seq<Output> {
    if out == [] then []
    else Connection(out[..|out| - 1]) + if IsConnection(out[|out| - 1]) then [out[|out| - 1]] else []
  }

  function Times(o: Output, n: nat): seq<Output> {
    seq(n, i => o)
  }

  lemma {:induction false} AboutConcat(a: seq<Output>, b: seq<Output>, h: int)
    ensures About(a + b, h) == About(a, h) + About(b, h) && Connection(a + b) == Connection(a) + Connection(b)
  {
    if b == [] {
      assert a + b == a;
    } else {
      assert (a + b)[..|a + b| - 1] == a + b[..|b| - 1];
      AboutConcat(a, b[..|b| - 1], h);
    }
  }

  lemma AboutOne(o: Output, h: int)
    ensures About([o], h) == (if IsAbout(o, h) then [o] else [])
    ensures Connection([o]) == if IsConnection(o) then [o] else []
  {
    assert [o][..0] == [];
  }

  lemma AboutTwo(a: Output, b: Output, h: int)
    ensures About([a, b], h) == (if IsAbout(a, h) then [a] else []) + (if IsAbout(b, h) then [b] else [])
    ensures Connection([a, b]) == (if IsConnection(a) then [a] else []) + (if IsConnection(b) then [b] else [])
  {
    assert [a, b] == [a] + [b];
    AboutConcat([a], [b], h);
    AboutOne(a, h);
    AboutOne(b, h);
  }

  // ---------- Subscribers ----------

  predicate ActiveIn(m: Machine, h: int) {
    exists k :: 0 <= k < |m.subscribers| && m.subscribers[k].connHandle == h && !m.subscribers[k].isInactive
  }

  predicate InactiveIn(m: Machine, h: int) {
    exists k :: 0 <= k < |m.subscribers| && m.subscribers[k].connHandle == h && m.subscribers[k].isInactive
  }

  /** Somebody else than `h` is active. */
  predicate OtherActive(m: Machine, h: int) {
    exists k :: 0 <= k < |m.subscribers| && m.subscribers[k].connHandle != h && !m.subscribers[k].isInactive
  }

  lemma SelectedHandles(m: Machine, t: NotificationType, h: int)
    requires Distinct(m.subscribers)
    ensures HasHandle(Selection(m.subscribers, t), h) <==>
            match t { case ALL_SUBSCRIBERS => HasHandle(m.subscribers, h)
                      case ACTIVE_SUBSCRIBERS => ActiveIn(m, h)
                      case INACTIVE_SUBSCRIBERS => InactiveIn(m, h) }
    ensures Distinct(Selection(m.subscribers, t))
  {
    SelectionIsSublist(m.subscribers, t);
    var c := Selection(m.subscribers, t);
    forall k | 0 <= k < |c| ensures c[k] in m.subscribers && Selected(t, c[k]) {
      assert c[k] in c;
    }
    forall k | 0 <= k < |m.subscribers| && Selected(t, m.subscribers[k]) ensures m.subscribers[k] in c {}
  }

  // ---------- One notice each ----------

  lemma {:induction false} NoticesAbout(kind: Kind, e: AgpsEvent, list: seq<Subscriber>, h: int)
    requires Distinct(list)
    ensures About(NoticesTo(kind, e, list), h) == if HasHandle(list, h) then About(Notices(kind, e, h), h) else []
  {
    if list != [] {
      NoticesAbout(kind, e, list[1..], h);
      HasHandleOfTail(list, h);
      HeadNotice(kind, e, list, h);
      NotItsNotice(kind, e, list[0].connHandle, h);
    }
  }

  lemma HeadNotice(kind: Kind, e: AgpsEvent, list: seq<Subscriber>, h: int)
    requires list != []
    ensures About(NoticesTo(kind, e, list), h)
         == About(Notices(kind, e, list[0].connHandle), h) + About(NoticesTo(kind, e, list[1..]), h)
  {
    AboutConcat(Notices(kind, e, list[0].connHandle), NoticesTo(kind, e, list[1..]), h);
  }

  lemma NotItsNotice(kind: Kind, e: AgpsEvent, g: int, h: int)
    ensures g != h ==> About(Notices(kind, e, g), h) == []
  {
    NoticeAbout(kind, e, g, h);
  }

  /** A notice is about its addressee. */
  lemma NoticeAbout(kind: Kind, e: AgpsEvent, g: int, h: int)
    ensures About(Notices(kind, e, g), h) ==
      if g != h || e.SUBSCRIBE? then []
      else if e.GRANTED? then [OpenStatus(h, true)]
      else if e.DENIED? then [if kind.Base? then OpenStatus(h, false) else RequestSupl(h)]
      else [CloseStatus(h)]
    ensures Connection(Notices(kind, e, g)) == if kind.DataService? && e.EVENT_RELEASED? then [CloseDataCall] else []
  {
    if e.EVENT_RELEASED? && kind.DataService? {
      AboutTwo(CloseDataCall, CloseStatus(g), h);
    } else if !e.SUBSCRIBE? {
      OneNotice(kind, e, g);
      AboutOne(Notices(kind, e, g)[0], h);
    }
  }

  lemma OneNotice(kind: Kind, e: AgpsEvent, g: int)
    requires !e.SUBSCRIBE? && (kind.Base? || !e.EVENT_RELEASED?)
    ensures var o := if e.GRANTED? then OpenStatus(g, true)
                     else if e.DENIED? then (if kind.Base? then OpenStatus(g, false) else RequestSupl(g))
                     else CloseStatus(g);
      Notices(kind, e, g) == [o]
  {
  }

  lemma {:induction false} NoticesConnection(kind: Kind, e: AgpsEvent, list: seq<Subscriber>)
    ensures Connection(NoticesTo(kind, e, list)) ==
      if kind.DataService? && e.EVENT_RELEASED? then Times(CloseDataCall, |list|) else []
  {
    if list != [] {
      NoticesConnection(kind, e, list[1..]);
      var g := list[0].connHandle;
      AboutConcat(Notices(kind, e, g), NoticesTo(kind, e, list[1..]), g);
      NoticeAbout(kind, e, g, g);
      OnceMore(CloseDataCall, |list|);
    }
  }

  lemma OnceMore(o: Output, n: nat)
    requires 0 < n
    ensures [o] + Times(o, n - 1) == Times(o, n)
  {
  }

  /** What a notification of some of the subscribers sends. */
  lemma NotifyAllAbout(m: Machine, e: AgpsEvent, deletes: bool, t: NotificationType, h: int)
    requires Distinct(m.subscribers)
    ensures var n, chosen := NotifyAll(m, e, deletes, t), Selection(m.subscribers, t);
      && About(n.out, h) == About(m.out, h) + (if HasHandle(chosen, h) then About(Notices(m.kind, e, h), h) else [])
      && Connection(n.out) == Connection(m.out) +
           (if m.kind.DataService? && e.EVENT_RELEASED? then Times(CloseDataCall, |chosen|) else [])
  {
    var chosen := Selection(m.subscribers, t);
    SelectedHandles(m, t, h);
    AboutConcat(m.out, NoticesTo(m.kind, e, chosen), h);
    NoticesAbout(m.kind, e, chosen, h);
    NoticesConnection(m.kind, e, chosen);
  }

  // ---------- Event by event ----------

  /** A grant is for a machine that waits for one: it has the connection then, and every active
      subscriber is told of success, once; nobody else is told anything. */
  lemma GrantReaches(m: Machine, answer: StartResult, h: int)
    requires Distinct(m.subscribers)
    ensures var n := Step(m, Granted, answer);
      && (m.state != PENDING ==> n == m)
      && (m.state == PENDING ==>
            && n.state == ACQUIRED && n.subscribers == m.subscribers && n.retries == m.retries
            && About(n.out, h) == About(m.out, h) + (if ActiveIn(m, h) then [OpenStatus(h, true)] else [])
            && Connection(n.out) == Connection(m.out))
  {
    if m.state == PENDING {
      NotifyAllAbout(m.(state := ACQUIRED), GRANTED, false, ACTIVE_SUBSCRIBERS, h);
      SelectedHandles(m.(state := ACQUIRED), ACTIVE_SUBSCRIBERS, h);
      NoticeAbout(m.kind, GRANTED, h, h);
    }
  }

  /** A denial while waiting, and to the data-service machine a release as well, ends it for
      everybody: the base machine tells them, the data-service machine asks for SUPL. */
  lemma DenialReaches(m: Machine, e: Event, answer: StartResult, h: int)
    requires Distinct(m.subscribers) && m.state == PENDING
    requires e.Denied? || (e.Released? && m.kind.DataService?)
    ensures var n := Step(m, e, answer);
      && n.state == RELEASED && n.subscribers == []
      && About(n.out, h) == About(m.out, h) +
           (if !HasHandle(m.subscribers, h) then [] else [if m.kind.Base? then OpenStatus(h, false) else RequestSupl(h)])
      && Connection(n.out) == Connection(m.out)
  {
    NotifyAllAbout(m.(state := RELEASED), DENIED, true, ALL_SUBSCRIBERS, h);
    SelectedHandles(m.(state := RELEASED), ALL_SUBSCRIBERS, h);
    NoticeAbout(m.kind, DENIED, h, h);
    AllUnselected(m.subscribers);
  }

  /** A release of the connection in use ends it for everybody. */
  lemma ForcedReleaseReaches(m: Machine, answer: StartResult, h: int)
    requires Distinct(m.subscribers) && m.state == ACQUIRED
    ensures var n := Step(m, Released, answer);
      && n.state == RELEASED && n.subscribers == []
      && About(n.out, h) == About(m.out, h) + (if HasHandle(m.subscribers, h) then [CloseStatus(h)] else [])
      && Connection(n.out) == Connection(m.out) +
           (if m.kind.Base? then [] else Times(CloseDataCall, |m.subscribers|))
  {
    var r := ForcedStep(m, answer);
    NotifyAllAbout(r, EVENT_RELEASED, true, ALL_SUBSCRIBERS, h);
    SelectedHandles(r, ALL_SUBSCRIBERS, h);
    NoticeAbout(m.kind, EVENT_RELEASED, h, h);
    AllSelected(m.subscribers);
  }

  lemma ForcedStep(m: Machine, answer: StartResult) returns (r: Machine)
    requires m.state == ACQUIRED
    ensures r == m.(state := RELEASED)
    ensures var n := Step(m, Released, answer);
      n == NotifyAll(r, EVENT_RELEASED, true, ALL_SUBSCRIBERS) && n.state == RELEASED && n.subscribers == []
  {
    r := m.(state := RELEASED);
    AllUnselected(m.subscribers);
  }

  /** In the states in which they do not fit, denials and releases are ignored. */
  lemma UnexpectedIsIgnored(m: Machine, answer: StartResult)
    ensures m.state == RELEASED || m.state == ACQUIRED ==> Step(m, Denied, answer) == m
    ensures m.state == RELEASED || (m.state == PENDING && m.kind.Base?) ==> Step(m, Released, answer) == m
  {
  }

  /** What an attempt to get the connection sends when `first` is the first active subscriber. */
  function AttemptAbout(m: Machine, first: int, answer: StartResult, h: int): seq<Output> {
    if m.kind.DataService? && first == h && FallsBack(m, answer) then [RequestSupl(h)] else []
  }

  /** The data-service machine gives up at once: there is nobody to ask, the engine cannot, or
      it was busy once too often. */
  predicate FallsBack(m: Machine, answer: StartResult)
    requires m.kind.DataService?
  {
    !m.kind.canStart || answer.Unsupported? || (answer.EngineBusy? && m.retries == MAX_START_DATA_CALL_RETRIES)
  }

  function AttemptConnection(m: Machine, answer: StartResult): seq<Output> {
    if m.kind.Base? then [RequestDataConn]
    else if !m.kind.canStart then []
    else if answer.EngineBusy? && m.retries < MAX_START_DATA_CALL_RETRIES then [StartDataCall, RetryTimer]
    else [StartDataCall]
  }

  /** A busy engine is counted, giving up starts the count again, and nothing else touches it. */
  function RetriesAfter(m: Machine, answer: StartResult): nat {
    if m.kind.Base? then m.retries
    else if FallsBack(m, answer) then 0
    else if answer.EngineBusy? then m.retries + 1
    else m.retries
  }

  /** An attempt asks the framework, or the data service client for the first active subscriber. */
  lemma AttemptReaches(m: Machine, answer: StartResult, h: int)
    requires AnyActive(m.subscribers) && m.retries <= MAX_START_DATA_CALL_RETRIES
    ensures var (n, ok) := RequestOrRelease(m, true, answer);
      && n.state == m.state && n.subscribers == m.subscribers && n.kind == m.kind
      && (ok <==> m.kind.Base? || (m.kind.canStart && answer.Success?))
      && About(n.out, h) == About(m.out, h) + AttemptAbout(m, FirstActive(m.subscribers).value.connHandle, answer, h)
      && Connection(n.out) == Connection(m.out) + AttemptConnection(m, answer)
  {
    var (n, ok) := RequestOrRelease(m, true, answer);
    var first := FirstActive(m.subscribers).value.connHandle;
    AttemptSends(m, answer);
    AboutConcat(m.out, AttemptSent(m, first, answer), h);
    AboutAttempt(m, first, answer, h);
  }

  lemma AttemptCounts(m: Machine, answer: StartResult)
    requires AnyActive(m.subscribers) && m.retries <= MAX_START_DATA_CALL_RETRIES
    ensures RequestOrRelease(m, true, answer).0.retries == RetriesAfter(m, answer)
  {
  }

  function AttemptSent(m: Machine, first: int, answer: StartResult): seq<Output> {
    if m.kind.Base? then [RequestDataConn]
    else if !m.kind.canStart then [RequestSupl(first)]
    else if FallsBack(m, answer) then [StartDataCall, RequestSupl(first)]
    else if answer.EngineBusy? then [StartDataCall, RetryTimer]
    else [StartDataCall]
  }

  lemma AttemptSends(m: Machine, answer: StartResult)
    requires AnyActive(m.subscribers) && m.retries <= MAX_START_DATA_CALL_RETRIES
    ensures var (n, ok) := RequestOrRelease(m, true, answer);
      && n.out == m.out + AttemptSent(m, FirstActive(m.subscribers).value.connHandle, answer)
      && n.state == m.state && n.subscribers == m.subscribers && n.kind == m.kind
      && (ok <==> m.kind.Base? || (m.kind.canStart && answer.Success?))
  {
    var first := FirstActive(m.subscribers).value.connHandle;
    assert m.out + [StartDataCall] + [RequestSupl(first)] == m.out + [StartDataCall, RequestSupl(first)];
    assert m.out + [StartDataCall] + [RetryTimer] == m.out + [StartDataCall, RetryTimer];
  }

  lemma AboutAttempt(m: Machine, first: int, answer: StartResult, h: int)
    requires m.retries <= MAX_START_DATA_CALL_RETRIES
    ensures About(AttemptSent(m, first, answer), h) == AttemptAbout(m, first, answer, h)
    ensures Connection(AttemptSent(m, first, answer)) == AttemptConnection(m, answer)
  {
    var sent := AttemptSent(m, first, answer);
    if |sent| == 1 {
      AboutOne(sent[0], h);
    } else {
      AboutTwo(sent[0], sent[1], h);
      assert sent == [sent[0], sent[1]];
    }
  }

  /** The end of RELEASING when nobody active is left: all are told and gone. */
  lemma EndOfReleasingForAll(m: Machine, e: Event, answer: StartResult, h: int)
    requires Distinct(m.subscribers) && m.state == RELEASING && (e.Released? || e.Denied?)
    requires !AnyActive(m.subscribers)
    ensures var n := Step(m, e, answer);
      && n.state == RELEASED && n.subscribers == []
      && About(n.out, h) == About(m.out, h) + (if InactiveIn(m, h) then [CloseStatus(h)] else [])
      && Connection(n.out) == Connection(m.out) +
           (if m.kind.Base? then [] else Times(CloseDataCall, |Selection(m.subscribers, INACTIVE_SUBSCRIBERS)|))
  {
    var told := TellInactive(m, h);
    StayingHandles(m, h);
    EndOfReleasingStep(m, e, answer, told);
    if told.subscribers != [] {
      UnselectedKeeps(m.subscribers, INACTIVE_SUBSCRIBERS, told.subscribers[0]);
    }
  }

  /** The end of RELEASING when somebody active came since: the active ones stay, in order, and
      the machine is PENDING for them. */
  lemma EndOfReleasingKeepsActive(m: Machine, e: Event, answer: StartResult, h: int)
    requires m.state == RELEASING && (e.Released? || e.Denied?)
    requires AnyActive(m.subscribers) && m.retries <= MAX_START_DATA_CALL_RETRIES
    ensures var n := Step(m, e, answer);
      && n.state == PENDING && n.subscribers == Unselected(m.subscribers, INACTIVE_SUBSCRIBERS)
      && (HasHandle(n.subscribers, h) <==> ActiveIn(m, h)) && AnyActive(n.subscribers)
  {
    var told := NotifyAll(m, EVENT_RELEASED, true, INACTIVE_SUBSCRIBERS);
    StayingHandles(m, h);
    EndOfReleasingStep(m, e, answer, told);
    AttemptSends(told.(state := PENDING), answer);
  }

  /** The inactive ones are told and gone, as in `told`; then the machine, `n`, asks anew. */
  lemma EndOfReleasingForSome(m: Machine, e: Event, answer: StartResult, h: int) returns (told: Machine, n: Machine)
    requires Distinct(m.subscribers) && m.state == RELEASING && (e.Released? || e.Denied?)
    requires AnyActive(m.subscribers) && m.retries <= MAX_START_DATA_CALL_RETRIES
    ensures About(told.out, h) == About(m.out, h) + if InactiveIn(m, h) then [CloseStatus(h)] else []
    ensures Connection(told.out) == Connection(m.out) +
      if m.kind.Base? then [] else Times(CloseDataCall, |Selection(m.subscribers, INACTIVE_SUBSCRIBERS)|)
    ensures n == Step(m, e, answer) && told.subscribers == n.subscribers && AnyActive(n.subscribers)
    ensures About(n.out, h) == About(told.out, h) + AttemptAbout(m, FirstActive(n.subscribers).value.connHandle, answer, h)
    ensures Connection(n.out) == Connection(told.out) + AttemptConnection(m, answer)
  {
    told := TellInactive(m, h);
    n := AsksAnew(m, e, answer, told, h);
    SameAttempt(m, told, answer, h);
  }

  lemma AsksAnew(m: Machine, e: Event, answer: StartResult, told: Machine, h: int) returns (n: Machine)
    requires m.state == RELEASING && (e.Released? || e.Denied?) && m.retries <= MAX_START_DATA_CALL_RETRIES
    requires AnyActive(m.subscribers) && told == NotifyAll(m, EVENT_RELEASED, true, INACTIVE_SUBSCRIBERS)
    ensures n == Step(m, e, answer) && told.subscribers == n.subscribers && AnyActive(n.subscribers)
    ensures About(n.out, h) == About(told.out, h) + AttemptAbout(told, FirstActive(n.subscribers).value.connHandle, answer, h)
    ensures Connection(n.out) == Connection(told.out) + AttemptConnection(told, answer)
  {
    StayingHandles(m, h);
    EndOfReleasingStep(m, e, answer, told);
    n := AttemptOf(told, answer, h);
  }

  lemma AttemptOf(told: Machine, answer: StartResult, h: int) returns (n: Machine)
    requires AnyActive(told.subscribers) && told.retries <= MAX_START_DATA_CALL_RETRIES
    ensures n == RequestOrRelease(told.(state := PENDING), true, answer).0 && n.subscribers == told.subscribers
    ensures About(n.out, h) == About(told.out, h) + AttemptAbout(told, FirstActive(n.subscribers).value.connHandle, answer, h)
    ensures Connection(n.out) == Connection(told.out) + AttemptConnection(told, answer)
  {
    n := RequestOrRelease(told.(state := PENDING), true, answer).0;
    AttemptReaches(told.(state := PENDING), answer, h);
  }

  /** Attempts depend on kind and retries alone. */
  lemma SameAttempt(m: Machine, told: Machine, answer: StartResult, h: int)
    requires m.kind == told.kind && m.retries == told.retries
    ensures forall first :: AttemptAbout(m, first, answer, h) == AttemptAbout(told, first, answer, h)
    ensures AttemptConnection(m, answer) == AttemptConnection(told, answer)
  {
  }

  /** The machine when the inactive subscribers were told. */
  lemma TellInactive(m: Machine, h: int) returns (told: Machine)
    requires Distinct(m.subscribers)
    ensures told == NotifyAll(m, EVENT_RELEASED, true, INACTIVE_SUBSCRIBERS)
    ensures told.state == m.state && told.kind == m.kind && told.retries == m.retries
    ensures told.subscribers == Unselected(m.subscribers, INACTIVE_SUBSCRIBERS)
    ensures About(told.out, h) == About(m.out, h) + if InactiveIn(m, h) then [CloseStatus(h)] else []
    ensures Connection(told.out) == Connection(m.out) +
      if m.kind.Base? then [] else Times(CloseDataCall, |Selection(m.subscribers, INACTIVE_SUBSCRIBERS)|)
  {
    told := NotifyAll(m, EVENT_RELEASED, true, INACTIVE_SUBSCRIBERS);
    NotifyAllAbout(m, EVENT_RELEASED, true, INACTIVE_SUBSCRIBERS, h);
    SelectedHandles(m, INACTIVE_SUBSCRIBERS, h);
    NoticeAbout(m.kind, EVENT_RELEASED, h, h);
  }

  lemma EndOfReleasingStep(m: Machine, e: Event, answer: StartResult, told: Machine)
    requires m.state == RELEASING && (e.Released? || e.Denied?)
    requires told == NotifyAll(m, EVENT_RELEASED, true, INACTIVE_SUBSCRIBERS)
    ensures Step(m, e, answer) ==
      if AnyActive(told.subscribers) then RequestOrRelease(told.(state := PENDING), true, answer).0 else told.(state := RELEASED)
  {
  }

  lemma StayingHandles(m: Machine, h: int)
    ensures var stay := Unselected(m.subscribers, INACTIVE_SUBSCRIBERS);
      (HasHandle(stay, h) <==> ActiveIn(m, h)) && (AnyActive(stay) <==> AnyActive(m.subscribers))
  {
    var stay := Unselected(m.subscribers, INACTIVE_SUBSCRIBERS);
    UnselectedIsSublist(m.subscribers, INACTIVE_SUBSCRIBERS);
    forall k | 0 <= k < |stay| ensures stay[k] in m.subscribers && !stay[k].isInactive {
      assert stay[k] in stay;
    }
    forall k | 0 <= k < |m.subscribers| && !m.subscribers[k].isInactive ensures m.subscribers[k] in stay {}
  }

  /** A request that finds the connection is told so, and one that finds it coming or going is
      told nothing; neither asks for it. */
  lemma RequestWhileBusy(m: Machine, g: int, wait: bool, answer: StartResult, h: int)
    requires m.state != RELEASED
    ensures var n := Step(m, Request(g, wait), answer);
      && n.state == m.state && Connection(n.out) == Connection(m.out)
      && About(n.out, h) == About(m.out, h) + if m.state == ACQUIRED && g == h then [OpenStatus(h, true)] else []
  {
    if m.state == ACQUIRED {
      AboutConcat(m.out, [OpenStatus(g, true)], h);
      AboutOne(OpenStatus(g, true), h);
    }
  }

  /** A request while RELEASED asks for the connection, unless all that are listed are inactive. */
  lemma RequestWhileReleased(m: Machine, g: int, wait: bool, answer: StartResult, h: int)
    requires m.retries <= MAX_START_DATA_CALL_RETRIES && m.state == RELEASED
    requires m.kind.Base? ==> m.subscribers == []
    ensures var n := Step(m, Request(g, wait), answer);
      if HasHandle(m.subscribers, g) && !AnyActive(m.subscribers) then n == m else
      && n.state == (if m.kind.Base? || (m.kind.canStart && answer.Success?) then PENDING else RELEASED)
      && AnyActive(n.subscribers)
      && About(n.out, h) == About(m.out, h) + AttemptAbout(m, FirstActive(n.subscribers).value.connHandle, answer, h)
      && Connection(n.out) == Connection(m.out) + AttemptConnection(m, answer)
  {
    var l := AddSubscriber(m, Subscriber(g, wait, false));
    if !HasHandle(m.subscribers, g) {
      assert !l.subscribers[|m.subscribers|].isInactive;
    }
    RequestStep(m, g, wait, answer, l);
    if AnyActive(l.subscribers) {
      AttemptReaches(l, answer, h);
    }
  }

  lemma RequestStep(m: Machine, g: int, wait: bool, answer: StartResult, l: Machine)
    requires m.state == RELEASED && l == AddSubscriber(m, Subscriber(g, wait, false))
    ensures var (r, ok) := RequestOrRelease(l, true, answer);
      Step(m, Request(g, wait), answer) == if ok then r.(state := PENDING) else r
  {
  }

  /** How the connection is given back when nobody active is left. */
  function GiveBack(kind: Kind): seq<Output> {
    if kind.Base? then [ReleaseDataConn] else if kind.canStop then [StopDataCall] else []
  }

  lemma GivesBack(m: Machine, answer: StartResult)
    requires !AnyActive(m.subscribers)
    ensures RequestOrRelease(m, false, answer).0 == m.(out := m.out + GiveBack(m.kind))
  {
    assert m.out + [] == m.out;
  }

  /** The list without the subscriber at `k`, whose handle is nobody else's. */
  lemma {:induction false} WithoutIndex(list: seq<Subscriber>, k: nat)
    requires Distinct(list) && k < |list|
    ensures WithoutHandle(list, list[k].connHandle) == list[..k] + list[k + 1..]
  {
    var tail, h := list[1..], list[k].connHandle;
    if k == 0 {
      NobodyElse(tail, h);
      assert list[..0] + list[1..] == tail;
    } else {
      WithoutIndex(tail, k - 1);
      assert [list[0]] + (tail[..k - 1] + tail[k..]) == list[..k] + list[k + 1..];
    }
  }

  lemma {:induction false} NobodyElse(list: seq<Subscriber>, h: int)
    requires forall k :: 0 <= k < |list| ==> list[k].connHandle != h
    ensures WithoutHandle(list, h) == list
  {
    if list != [] {
      NobodyElse(list[1..], h);
    }
  }

  /** What a release leaves of the list: one that does not wait is gone, one that waits stays
      where it is, inactive. */
  function ListAfterRelease(list: seq<Subscriber>, k: nat): seq<Subscriber>
    requires k < |list|
  {
    if list[k].waitForCloseComplete then list[k := list[k].(isInactive := true)] else list[..k] + list[k + 1..]
  }

  /** A release of a listed handle, outside RELEASED.  It is told of the close at once unless it
      waits for it; and when nobody active is left of a connection that is held, that is given
      back, and the machine waits for the close if somebody waits. */
  lemma ReleaseReaches(m: Machine, k: nat, answer: StartResult)
    requires Distinct(m.subscribers) && k < |m.subscribers| && m.state != RELEASED
    ensures var s, n := m.subscribers[k], Step(m, Release(m.subscribers[k].connHandle), answer);
      var list := ListAfterRelease(m.subscribers, k);
      var held := m.state == PENDING || m.state == ACQUIRED;
      && n.subscribers == list && n.retries == m.retries
      && n.out == m.out + (if s.waitForCloseComplete then [] else [CloseStatus(s.connHandle)]) +
           (if held && !AnyActive(list) then GiveBack(m.kind) else [])
      && n.state == (if list == [] then RELEASED else if held && !AnyActive(list) then RELEASING else m.state)
  {
    var s := m.subscribers[k];
    assert IndexOf(m.subscribers, s.connHandle) == k;
    WithoutIndex(m.subscribers, k);
    var l := Leave(m, k);
    assert m.out + [] == m.out && l.out + [] == l.out;
    if !AnyActive(l.subscribers) {
      GivesBack(l.(state := RELEASED), answer);
      GivesBack(l.(state := RELEASING), answer);
    }
  }

  /** While RELEASED, as the data-service machine is between retries, a release is answered and
      changes nothing else: the subscriber stays, and the retries go on for it. */
  lemma ReleaseWhileReleased(m: Machine, k: nat, answer: StartResult)
    requires Distinct(m.subscribers) && k < |m.subscribers| && m.state == RELEASED
    ensures var h := m.subscribers[k].connHandle;
      Step(m, Release(h), answer) == m.(out := m.out + [CloseStatus(h)])
  {
    assert IndexOf(m.subscribers, m.subscribers[k].connHandle) == k;
  }

  lemma UnknownReleaseIsIgnored(m: Machine, h: int, answer: StartResult)
    requires !HasHandle(m.subscribers, h)
    ensures Step(m, Release(h), answer) == m
  {
  }

  // ---------- The flag of a subscriber ----------

  /** Some request brought this handle with this flag. */
  predicate Brought(inputs: seq<Input>, h: int, wait: bool) {
    exists i :: 0 <= i < |inputs| && inputs[i].event == Request(h, wait)
  }

  /** A step lists nobody but those that were listed, with the flag they had, and the handle of
      a request, with its flag. */
  lemma StepKeepsFlags(m: Machine, e: Event, answer: StartResult, s: Subscriber)
    requires MachineInv(m) && s in Step(m, e, answer).subscribers
    ensures || (exists k :: 0 <= k < |m.subscribers| && m.subscribers[k].connHandle == s.connHandle
                            && m.subscribers[k].waitForCloseComplete == s.waitForCloseComplete)
            || e == Request(s.connHandle, s.waitForCloseComplete)
  {
    match e
    case Request(g, wait) => RequestList(m, g, wait, answer);
    case Release(g) =>
      var k := IndexOf(m.subscribers, g);
      if k < |m.subscribers| {
        ReleaseList(m, k, answer, s);
      }
    case Released => EndList(m, e, answer, s);
    case Denied => EndList(m, e, answer, s);
    case Granted =>
    case ModemRestart =>
  }

  /** A request lists its handle at the end, active and with its flag, unless it is listed. */
  lemma RequestList(m: Machine, g: int, wait: bool, answer: StartResult)
    ensures var n := Step(m, Request(g, wait), answer);
      n.subscribers == if HasHandle(m.subscribers, g) then m.subscribers else m.subscribers + [Subscriber(g, wait, false)]
  {
  }

  lemma ReleaseList(m: Machine, k: nat, answer: StartResult, s: Subscriber)
    requires Distinct(m.subscribers) && k < |m.subscribers|
    requires s in Step(m, Release(m.subscribers[k].connHandle), answer).subscribers
    ensures exists j :: 0 <= j < |m.subscribers| && m.subscribers[j].connHandle == s.connHandle
                        && m.subscribers[j].waitForCloseComplete == s.waitForCloseComplete
  {
    if m.state == RELEASED {
      ReleaseWhileReleased(m, k, answer);
    } else {
      ReleaseReaches(m, k, answer);
      var list := ListAfterRelease(m.subscribers, k);
      var j :| 0 <= j < |list| && list[j] == s;
      var i := WhereItWas(m.subscribers, k, j);
      assert m.subscribers[i].connHandle == s.connHandle;
    }
  }

  lemma WhereItWas(list: seq<Subscriber>, k: nat, j: nat) returns (i: nat)
    requires k < |list| && j < |ListAfterRelease(list, k)|
    ensures i < |list| && list[i].connHandle == ListAfterRelease(list, k)[j].connHandle
    ensures list[i].waitForCloseComplete == ListAfterRelease(list, k)[j].waitForCloseComplete
  {
    i := if list[k].waitForCloseComplete || j < k then j else j + 1;
  }

  lemma EndList(m: Machine, e: Event, answer: StartResult, s: Subscriber)
    requires e.Released? || e.Denied?
    requires s in Step(m, e, answer).subscribers
    ensures s in m.subscribers
  {
    AllUnselected(m.subscribers);
    UnselectedKeeps(m.subscribers, INACTIVE_SUBSCRIBERS, s);
    if m.state == RELEASING {
      EndOfReleasingList(m, e, answer);
    }
  }

  lemma EndOfReleasingList(m: Machine, e: Event, answer: StartResult)
    requires m.state == RELEASING && (e.Released? || e.Denied?)
    ensures Step(m, e, answer).subscribers == Unselected(m.subscribers, INACTIVE_SUBSCRIBERS)
  {
  }

  lemma {:induction false} EveryRunKeepsMachineInv(kind: Kind, inputs: seq<Input>)
    ensures Run(kind, inputs).kind == kind && MachineInv(Run(kind, inputs))
  {
    if kind.Base? {
      EveryRunKeepsShape(inputs);
    } else {
      EveryRunKeepsRetryBound(kind, inputs);
    }
  }

  /** Main theorem: over every run, of either machine, a listed subscriber has the flag of a
      request that brought its handle; with fresh handles, of the one that did. */
  lemma {:induction false} FlagIsRequested(kind: Kind, inputs: seq<Input>, s: Subscriber)
    requires s in Run(kind, inputs).subscribers
    ensures Brought(inputs, s.connHandle, s.waitForCloseComplete)
    ensures FreshHandles(inputs) ==> !Brought(inputs, s.connHandle, !s.waitForCloseComplete)
  {
    if inputs != [] {
      var before, last := inputs[..|inputs| - 1], inputs[|inputs| - 1];
      EveryRunKeepsMachineInv(kind, before);
      StepKeepsFlags(Run(kind, before), last.event, last.answer, s);
      var list := Run(kind, before).subscribers;
      if last.event == Request(s.connHandle, s.waitForCloseComplete) {
        assert Brought(inputs, s.connHandle, s.waitForCloseComplete);
      } else {
        var k :| 0 <= k < |list| && list[k].connHandle == s.connHandle && list[k].waitForCloseComplete == s.waitForCloseComplete;
        FlagIsRequested(kind, before, list[k]);
        BroughtBefore(inputs, s.connHandle, s.waitForCloseComplete);
      }
      BroughtOnce(inputs, s.connHandle, s.waitForCloseComplete);
    }
  }

  lemma BroughtOnce(inputs: seq<Input>, h: int, wait: bool)
    requires Brought(inputs, h, wait)
    ensures FreshHandles(inputs) ==> !Brought(inputs, h, !wait)
  {
  }

  lemma BroughtBefore(inputs: seq<Input>, h: int, wait: bool)
    requires inputs != [] && Brought(inputs[..|inputs| - 1], h, wait)
    ensures Brought(inputs, h, wait)
  {
    var before := inputs[..|inputs| - 1];
    var i :| 0 <= i < |before| && before[i].event == Request(h, wait);
    assert inputs[i].event == Request(h, wait);
  }

  /** Main theorem on releases: in every run with fresh handles, of either machine, a listed
      handle that is released outside RELEASED is told of the close in that very step, and gone,
      if its request said not to wait; if its request said to wait, nothing is reported to it in
      that step, and it stays, inactive. */
  lemma ReleaseFollowsRequest(kind: Kind, inputs: seq<Input>, h: int, wait: bool, answer: StartResult)
    requires FreshHandles(inputs) && Brought(inputs, h, wait)
    requires HasHandle(Run(kind, inputs).subscribers, h) && Run(kind, inputs).state != RELEASED
    ensures var m, n := Run(kind, inputs), Step(Run(kind, inputs), Release(h), answer);
      && (!wait ==> About(n.out, h) == About(m.out, h) + [CloseStatus(h)] && !HasHandle(n.subscribers, h))
      && (wait ==> About(n.out, h) == About(m.out, h) && InactiveIn(n, h) && !ActiveIn(n, h))
      && |n.subscribers| == |m.subscribers| - if wait then 0 else 1
  {
    EveryRunKeepsMachineInv(kind, inputs);
    var m := Run(kind, inputs);
    var k :| 0 <= k < |m.subscribers| && m.subscribers[k].connHandle == h;
    FlagIsRequested(kind, inputs, m.subscribers[k]);
    ReleaseReaches(m, k, answer);
    ReleaseAbout(m, k, answer);
    AfterReleaseOf(m.subscribers, k);
  }

  lemma ReleaseAbout(m: Machine, k: nat, answer: StartResult)
    requires Distinct(m.subscribers) && k < |m.subscribers| && m.state != RELEASED
    ensures var s, n := m.subscribers[k], Step(m, Release(m.subscribers[k].connHandle), answer);
      About(n.out, s.connHandle) == About(m.out, s.connHandle) + if s.waitForCloseComplete then [] else [CloseStatus(s.connHandle)]
  {
    var s := m.subscribers[k];
    var told := if s.waitForCloseComplete then [] else [CloseStatus(s.connHandle)];
    var back := if (m.state == PENDING || m.state == ACQUIRED) && !AnyActive(ListAfterRelease(m.subscribers, k))
                then GiveBack(m.kind) else [];
    ReleaseReaches(m, k, answer);
    AboutConcat(m.out, told, s.connHandle);
    AboutConcat(m.out + told, back, s.connHandle);
    AboutOne(CloseStatus(s.connHandle), s.connHandle);
    GivingBackIsNoReport(m.kind, s.connHandle);
  }

  lemma GivingBackIsNoReport(kind: Kind, h: int)
    ensures About(GiveBack(kind), h) == []
  {
    AboutOne(ReleaseDataConn, h);
    AboutOne(StopDataCall, h);
  }

  lemma AfterReleaseOf(list: seq<Subscriber>, k: nat)
    requires Distinct(list) && k < |list|
    ensures var after, h := ListAfterRelease(list, k), list[k].connHandle;
      && (!list[k].waitForCloseComplete ==> !HasHandle(after, h) && |after| == |list| - 1)
      && (list[k].waitForCloseComplete ==>
            && |after| == |list| && after[k].connHandle == h && after[k].isInactive
            && forall j :: 0 <= j < |after| && after[j].connHandle == h ==> j == k)
  {
    var after := ListAfterRelease(list, k);
    forall j | 0 <= j < |after| ensures
      after[j] == if list[k].waitForCloseComplete then (if j == k then list[k].(isInactive := true) else list[j])
                  else if j < k then list[j] else list[j + 1]
    {}
  }
}
