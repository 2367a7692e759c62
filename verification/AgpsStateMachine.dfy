/** The machine and manager objects of gps/gnss/Agps.cpp.  Subscribers are values: what the
    source reaches through its current-subscriber pointer is passed as the subscriber to add
    or as the list index of the one that leaves.  The answers of the data-service client are
    a parameter of each event. */
module AgpsStateMachine {
  import opened Wrappers
  import opened Agps

  class AgpsStateMachine {
    const kind: Kind
    var mState: AgpsState
    var mSubscriberList: seq<Subscriber>
    var mRetries: nat
    var out: seq<Output>

    ghost function Model(): Machine
      reads this
    {
      Machine(kind, mState, mSubscriberList, mRetries, out)
    }

    /** What the lemmas of `Agps` prove of every run; each event keeps it. */
    ghost predicate Valid()
      reads this
    {
      MachineInv(Model())
    }

    constructor (kind: Kind)
      ensures Valid() && Model() == Fresh(kind)
    {
      this.kind := kind;
      mState, mSubscriberList, mRetries, out := RELEASED, [], 0, [];
    }

    // ---------- The list ----------

    method GetSubscriber(connHandle: int) returns (k: nat)
      ensures k == IndexOf(mSubscriberList, connHandle)
    {
      k := 0;
      while k < |mSubscriberList| && mSubscriberList[k].connHandle != connHandle
        invariant k <= |mSubscriberList|
        invariant forall i :: 0 <= i < k ==> mSubscriberList[i].connHandle != connHandle
      {
        k := k + 1;
      }
    }

    method AnyActiveSubscribers() returns (any: bool)
      ensures any == AnyActive(mSubscriberList)
    {
      var k := 0;
      while k < |mSubscriberList|
        invariant k <= |mSubscriberList|
        invariant forall i :: 0 <= i < k ==> mSubscriberList[i].isInactive
      {
        if !mSubscriberList[k].isInactive {
          return true;
        }
        k := k + 1;
      }
      return false;
    }

    method GetFirstActiveSubscriber() returns (first: Option<Subscriber>)
      ensures first == FirstActive(mSubscriberList)
    {
      var k := 0;
      while k < |mSubscriberList|
        invariant k <= |mSubscriberList|
        invariant FirstActive(mSubscriberList) == FirstActive(mSubscriberList[k..])
      {
        if !mSubscriberList[k].isInactive {
          return Some(mSubscriberList[k]);
        }
        k := k + 1;
      }
      return None;
    }

    /** Adds the subscriber unless its handle is in the list. */
    method AddSubscriber(s: Subscriber)
      modifies this`mSubscriberList
      ensures Model() == Agps.AddSubscriber(old(Model()), s)
    {
      var k := 0;
      while k < |mSubscriberList|
        invariant k <= |mSubscriberList|
        invariant mSubscriberList == old(mSubscriberList)
        invariant forall i :: 0 <= i < k ==> mSubscriberList[i].connHandle != s.connHandle
      {
        if mSubscriberList[k].connHandle == s.connHandle {
          return;
        }
        k := k + 1;
      }
      mSubscriberList := mSubscriberList + [s];
    }

    /** Erases every subscriber with this handle. */
    method DeleteSubscriber(connHandle: int)
      modifies this`mSubscriberList
      ensures mSubscriberList == WithoutHandle(old(mSubscriberList), connHandle)
    {
      var k := 0;
      while k < |mSubscriberList|
        invariant k <= |mSubscriberList|
        invariant mSubscriberList[..k] + WithoutHandle(mSubscriberList[k..], connHandle)
               == WithoutHandle(old(mSubscriberList), connHandle)
        decreases |mSubscriberList| - k
      {
        ghost var before := mSubscriberList;
        if mSubscriberList[k].connHandle == connHandle {
          mSubscriberList := mSubscriberList[..k] + mSubscriberList[k + 1..];
          assert mSubscriberList[..k] == before[..k] && mSubscriberList[k..] == before[k..][1..];
        } else {
          k := k + 1;
          assert before[..k] == before[..k - 1] + [before[k - 1]] && before[k..] == before[k - 1..][1..];
        }
      }
      assert mSubscriberList[..k] == mSubscriberList;
    }

    // ---------- Notifications ----------

    method NotifyEventToSubscriber(e: AgpsEvent, connHandle: int, deletes: bool)
      modifies this`out, this`mRetries, this`mSubscriberList
      ensures Model() == NotifyOne(old(Model()), e, connHandle).(
                subscribers := if deletes then WithoutHandle(old(mSubscriberList), connHandle) else old(mSubscriberList))
    {
      match e {
        case GRANTED => out := out + [OpenStatus(connHandle, true)];
        case DENIED =>
          if kind.Base? {
            out := out + [OpenStatus(connHandle, false)];
          } else {
            mRetries := 0;
            out := out + [RequestSupl(connHandle)];
          }
        case UNSUBSCRIBE => out := out + [CloseStatus(connHandle)];
        case EVENT_RELEASED =>
          if kind.Base? {
            out := out + [CloseStatus(connHandle)];
          } else {
            out := out + [CloseDataCall, CloseStatus(connHandle)];
          }
        case SUBSCRIBE => out := out + [];
      }
      if deletes {
        DeleteSubscriber(connHandle);
      }
    }

    /** Notifies the chosen subscribers in list order, erasing each after its notice when asked. */
    method NotifyAllSubscribers(e: AgpsEvent, deletes: bool, t: NotificationType)
      modifies this`out, this`mRetries, this`mSubscriberList
      ensures Model() == NotifyAll(old(Model()), e, deletes, t)
    {
      ghost var start := Model();
      var k: nat := 0;
      ghost var rest := mSubscriberList;
      while k < |mSubscriberList|
        invariant k <= |mSubscriberList| && rest == mSubscriberList[k..]
        invariant Finished(Model(), mSubscriberList[..k], rest, e, deletes, t) == NotifyAll(start, e, deletes, t)
        decreases |rest|
      {
        ghost var before, done := Model(), mSubscriberList[..k];
        k := NotifyNext(k, e, deletes, t);
        NotifyStep(before, Model(), done, rest, e, deletes, t);
        rest := rest[1..];
      }
      assert mSubscriberList[..k] == mSubscriberList;
      NothingLeft(Model(), e, deletes, t);
    }

    /** One turn of the loop: notifies the subscriber at `k` if it is chosen. */
    method NotifyNext(k: nat, e: AgpsEvent, deletes: bool, t: NotificationType) returns (next: nat)
      requires k < |mSubscriberList|
      modifies this`out, this`mRetries, this`mSubscriberList
      ensures Model() == AfterNotice(old(Model()), old(mSubscriberList[k]), e, t).(subscribers := mSubscriberList)
      ensures next <= |mSubscriberList| && mSubscriberList[next..] == old(mSubscriberList[k + 1..])
      ensures mSubscriberList[..next] == old(mSubscriberList[..k]) + Stays(old(mSubscriberList[k]), deletes, t)
    {
      next := k;
      var s := mSubscriberList[k];
      if Selected(t, s) {
        NotifyEventToSubscriber(e, s.connHandle, false);
        if deletes {
          mSubscriberList := mSubscriberList[..k] + mSubscriberList[k + 1..];
          assert mSubscriberList[..k] == old(mSubscriberList[..k]) + [];
          assert mSubscriberList[k..] == old(mSubscriberList[k + 1..]);
        } else {
          next := k + 1;
          assert mSubscriberList[..next] == old(mSubscriberList[..k]) + [s];
        }
      } else {
        next := k + 1;
        assert mSubscriberList[..next] == old(mSubscriberList[..k]) + [s];
      }
    }

    // ---------- The data connection ----------

    /** Asks for the connection or gives it back; `ok` stands for the return value 0. */
    method RequestOrReleaseDataConn(request: bool, answer: StartResult) returns (ok: bool)
      modifies this`out, this`mRetries, this`mSubscriberList
      ensures (Model(), ok) == RequestOrRelease(old(Model()), request, answer)
    {
      if kind.Base? {
        out := out + [if request then RequestDataConn else ReleaseDataConn];
        return true;
      }
      if !request && kind.canStop {
        out := out + [StopDataCall];
        return true;
      }
      var subscriber := GetFirstActiveSubscriber();
      if subscriber.None? {
        return false;
      }
      if !kind.canStart {
        NotifyEventToSubscriber(DENIED, subscriber.value.connHandle, false);
        return false;
      }
      DSStartCall(subscriber.value.connHandle, answer);
      return answer.Success?;
    }

    /** One attempt to start a data call; a busy engine is asked again later, a bounded
        number of times. */
    method DSStartCall(connHandle: int, answer: StartResult)
      requires kind.DataService?
      modifies this`out, this`mRetries, this`mSubscriberList
      ensures Model() == StartCall(old(Model()), connHandle, answer)
    {
      out := out + [StartDataCall];
      match answer {
        case EngineBusy =>
          mRetries := mRetries + 1;
          if mRetries > MAX_START_DATA_CALL_RETRIES {
            NotifyEventToSubscriber(DENIED, connHandle, false);
          } else {
            out := out + [RetryTimer];
          }
        case Unsupported => NotifyEventToSubscriber(DENIED, connHandle, false);
        case Success =>
        case OtherFailure =>
      }
    }

    // ---------- Events ----------

    method ProcessSubscribe(subscriber: Subscriber, answer: StartResult)
      requires Valid() && !subscriber.isInactive
      modifies this
      ensures Valid()
      ensures Model() == Step(old(Model()), Request(subscriber.connHandle, subscriber.waitForCloseComplete), answer)
    {
      StepKeepsMachineInv(Model(), Request(subscriber.connHandle, subscriber.waitForCloseComplete), answer);
      match mState {
        case RELEASED =>
          AddSubscriber(subscriber);
          var ok := RequestOrReleaseDataConn(true, answer);
          if ok {
            mState := PENDING;
          }
        case PENDING => AddSubscriber(subscriber);
        case ACQUIRED =>
          NotifyEventToSubscriber(GRANTED, subscriber.connHandle, false);
          AddSubscriber(subscriber);
        case RELEASING => AddSubscriber(subscriber);
      }
    }

    /** Waits for the close, or is told and deleted. */
    method SubscriberLeaves(k: nat)
      requires k < |mSubscriberList|
      modifies this`out, this`mRetries, this`mSubscriberList
      ensures Model() == Leave(old(Model()), k)
    {
      var s := mSubscriberList[k];
      if s.waitForCloseComplete {
        mSubscriberList := mSubscriberList[k := s.(isInactive := true)];
      } else {
        NotifyEventToSubscriber(UNSUBSCRIBE, s.connHandle, true);
      }
    }

    method ProcessUnsubscribe(k: nat, answer: StartResult)
      requires Valid() && k < |mSubscriberList|
      modifies this
      ensures Valid()
      ensures Model() == Step(old(Model()), Release(old(mSubscriberList[k].connHandle)), answer)
    {
      StepKeepsMachineInv(Model(), Release(mSubscriberList[k].connHandle), answer);
      UnsubscribeAt(k, answer);
    }

    method UnsubscribeAt(k: nat, answer: StartResult)
      requires k < |mSubscriberList|
      modifies this
      ensures Model() == OnUnsubscribe(old(Model()), k, answer)
    {
      if mState == RELEASED {
        NotifyEventToSubscriber(UNSUBSCRIBE, mSubscriberList[k].connHandle, false);
        return;
      }
      SubscriberLeaves(k);
      var ok;
      if mState == RELEASING {
        if mSubscriberList == [] {
          mState := RELEASED;
        }
      } else if mSubscriberList == [] {
        mState := RELEASED;
        ok := RequestOrReleaseDataConn(false, answer);
      } else {
        var any := AnyActiveSubscribers();
        if !any {
          mState := RELEASING;
          ok := RequestOrReleaseDataConn(false, answer);
        }
      }
    }

    method ProcessGranted()
      requires Valid()
      modifies this
      ensures Valid() && Model() == Step(old(Model()), Granted, Success)
    {
      StepKeepsMachineInv(Model(), Granted, Success);
      if mState == PENDING {
        mState := ACQUIRED;
        NotifyAllSubscribers(GRANTED, false, ACTIVE_SUBSCRIBERS);
      }
    }

    method ProcessReleased(answer: StartResult)
      requires Valid()
      modifies this
      ensures Valid() && Model() == Step(old(Model()), Released, answer)
    {
      StepKeepsMachineInv(Model(), Released, answer);
      match mState {
        case RELEASED =>
        case ACQUIRED =>
          mState := RELEASED;
          NotifyAllSubscribers(EVENT_RELEASED, true, ALL_SUBSCRIBERS);
        case RELEASING => Finish(answer);
        case PENDING =>
          if kind.DataService? {
            ProcessDenied(answer);
          }
      }
    }

    method ProcessDenied(answer: StartResult)
      requires Valid()
      modifies this
      ensures Valid() && Model() == Step(old(Model()), Denied, answer)
    {
      StepKeepsMachineInv(Model(), Denied, answer);
      match mState {
        case RELEASED =>
        case ACQUIRED =>
        case RELEASING => Finish(answer);
        case PENDING =>
          mState := RELEASED;
          NotifyAllSubscribers(DENIED, true, ALL_SUBSCRIBERS);
      }
    }

    /** The end of RELEASING, the same for both events. */
    method Finish(answer: StartResult)
      modifies this
      ensures Model() == FinishReleasing(old(Model()), answer)
    {
      NotifyAllSubscribers(EVENT_RELEASED, true, INACTIVE_SUBSCRIBERS);
      var any := AnyActiveSubscribers();
      if any {
        mState := PENDING;
        var ok := RequestOrReleaseDataConn(true, answer);
      } else {
        mState := RELEASED;
      }
    }

    method DropAllSubscribers()
      requires Valid()
      modifies this`mSubscriberList
      ensures Valid() && Model() == Step(old(Model()), ModemRestart, Success)
    {
      StepKeepsMachineInv(Model(), ModemRestart, Success);
      while mSubscriberList != []
        decreases |mSubscriberList|
      {
        mSubscriberList := mSubscriberList[1..];
      }
    }
  }

  ghost function AfterNotice(m: Machine, s: Subscriber, e: AgpsEvent, t: NotificationType): Machine {
    if Selected(t, s) then NotifyOne(m, e, s.connHandle) else m
  }

  ghost function Stays(s: Subscriber, deletes: bool, t: NotificationType): seq<Subscriber> {
    if Selected(t, s) && deletes then [] else [s]
  }

  /** The machine once `rest` is notified too, when `done` is what stays of the list so far. */
  ghost function Finished(m: Machine, done: seq<Subscriber>, rest: seq<Subscriber>,
                          e: AgpsEvent, deletes: bool, t: NotificationType): Machine {
    var n := NotifyAll(m.(subscribers := rest), e, deletes, t);
    n.(subscribers := done + n.subscribers)
  }

  /** The head of a list leads its selection, its remainder and its notices. */
  lemma TakeFirst(list: seq<Subscriber>, kind: Kind, e: AgpsEvent, t: NotificationType)
    requires list != []
    ensures list == [list[0]] + list[1..]
    ensures Selected(t, list[0]) ==>
      && Selection(list, t) == [list[0]] + Selection(list[1..], t)
      && Unselected(list, t) == Unselected(list[1..], t)
      && NoticesTo(kind, e, Selection(list, t))
           == Notices(kind, e, list[0].connHandle) + NoticesTo(kind, e, Selection(list[1..], t))
    ensures !Selected(t, list[0]) ==>
      Selection(list, t) == Selection(list[1..], t) && Unselected(list, t) == [list[0]] + Unselected(list[1..], t)
  {
    if Selected(t, list[0]) {
      assert ([list[0]] + Selection(list[1..], t))[1..] == Selection(list[1..], t);
    }
  }

  /** Notifying the head of the rest first changes nothing about the outcome. */
  lemma NotifyStep(before: Machine, after: Machine, done: seq<Subscriber>, rest: seq<Subscriber>,
                   e: AgpsEvent, deletes: bool, t: NotificationType)
    requires rest != [] && after == AfterNotice(before, rest[0], e, t).(subscribers := after.subscribers)
    ensures Finished(after, done + Stays(rest[0], deletes, t), rest[1..], e, deletes, t)
         == Finished(before, done, rest, e, deletes, t)
  {
    TakeFirst(rest, before.kind, e, t);
    OutcomeOfStep(before.out, done, rest[0], rest[1..], before.kind, e, t);
  }

  lemma OutcomeOfStep(out: seq<Output>, done: seq<Subscriber>, s: Subscriber, tail: seq<Subscriber>,
                      kind: Kind, e: AgpsEvent, t: NotificationType)
    ensures out + (Notices(kind, e, s.connHandle) + NoticesTo(kind, e, Selection(tail, t)))
         == out + Notices(kind, e, s.connHandle) + NoticesTo(kind, e, Selection(tail, t))
    ensures done + ([s] + Unselected(tail, t)) == done + [s] + Unselected(tail, t)
    ensures done + ([s] + tail) == done + [s] + tail
    ensures done + [] == done
  {
  }

  lemma NothingLeft(m: Machine, e: AgpsEvent, deletes: bool, t: NotificationType)
    ensures Finished(m, m.subscribers, [], e, deletes, t) == m
  {
    assert m.subscribers + [] == m.subscribers && m.out + [] == m.out;
  }

  // ---------- The manager ----------

  datatype AgpsType = WWAN_ANY | SUPL | SUPL_ES | INVALID

  /** What the manager itself reports, when no machine takes a request or a release. */
  datatype ManagerReport = OpenFailed(connHandle: int) | CloseFailed(connHandle: int)

  /** Calls to the data service client that no machine makes. */
  datatype ClientCall = StopCall | CloseCall | ReleaseClient | InitClient(afterRestart: bool)

  class AgpsManager {
    var mAgnssNif: AgpsStateMachine?
    var mInternetNif: AgpsStateMachine?
    var mDsNif: AgpsStateMachine?
    const useEmergencyPdn: bool
    var reports: seq<ManagerReport>
    var clientCalls: seq<ClientCall>

    ghost predicate Valid()
      reads this, Machines()
    {
      && (mAgnssNif != null ==> mAgnssNif != mInternetNif && mAgnssNif != mDsNif && mAgnssNif.kind.Base? && mAgnssNif.Valid())
      && (mInternetNif != null ==> mInternetNif != mDsNif && mInternetNif.kind.Base? && mInternetNif.Valid())
      && (mDsNif != null ==> mDsNif.kind.DataService? && mDsNif.Valid())
    }

    ghost function Machines(): set<AgpsStateMachine>
      reads this
    {
      (if mAgnssNif == null then {} else {mAgnssNif}) +
      (if mInternetNif == null then {} else {mInternetNif}) +
      (if mDsNif == null then {} else {mDsNif})
    }

    function GetAgpsStateMachine(agpsType: AgpsType): AgpsStateMachine?
      reads this
    {
      match agpsType
      case INVALID => mAgnssNif
      case SUPL => mAgnssNif
      case SUPL_ES => if useEmergencyPdn then mDsNif else mAgnssNif
      case WWAN_ANY => mInternetNif
    }

    constructor (agnss: AgpsStateMachine?, internet: AgpsStateMachine?, ds: AgpsStateMachine?, useEmergencyPdn: bool)
      requires agnss != null ==> agnss != internet && agnss != ds && agnss.kind.Base?
      requires internet != null ==> internet != ds && internet.kind.Base?
      requires ds != null ==> ds.kind.DataService?
      requires (agnss != null ==> agnss.Valid()) && (internet != null ==> internet.Valid()) && (ds != null ==> ds.Valid())
      ensures Valid() && clientCalls == [] && mAgnssNif == agnss && mInternetNif == internet && mDsNif == ds && reports == []
    {
      mAgnssNif, mInternetNif, mDsNif := agnss, internet, ds;
      this.useEmergencyPdn, reports, clientCalls := useEmergencyPdn, [], [];
    }

    /** What an event does that is for the machine `sm`: it steps that machine and no other, or,
        without one, `failure` is reported. */
    twostate predicate Reached(sm: AgpsStateMachine?, e: Event, answer: StartResult, failure: ManagerReport)
      requires Machines() == old(Machines())
      reads this, Machines()
    {
      && reports == old(reports) + (if sm == null then [failure] else [])
      && forall n :: n in Machines() ==> n.Model() == if n == sm then Step(old(n.Model()), e, answer) else old(n.Model())
    }

    /** A plain SUPL request is for the AGNSS machine, one for internet for the internet machine,
        and one for emergency SUPL for the data-service machine, or the AGNSS machine where no
        emergency connection is used.  Only the last kind waits for the close. */
    method RequestATL(connHandle: int, agpsType: AgpsType, answer: StartResult)
      requires Valid()
      modifies this`reports, Machines()
      ensures Valid()
      ensures agpsType == SUPL || agpsType == INVALID ==> Reached(mAgnssNif, Request(connHandle, false), answer, OpenFailed(connHandle))
      ensures agpsType == WWAN_ANY ==> Reached(mInternetNif, Request(connHandle, false), answer, OpenFailed(connHandle))
      ensures agpsType == SUPL_ES && useEmergencyPdn ==> Reached(mDsNif, Request(connHandle, true), answer, OpenFailed(connHandle))
      ensures agpsType == SUPL_ES && !useEmergencyPdn ==> Reached(mAgnssNif, Request(connHandle, true), answer, OpenFailed(connHandle))
    {
      var sm := GetAgpsStateMachine(agpsType);
      if sm == null {
        reports := reports + [OpenFailed(connHandle)];
      } else {
        sm.ProcessSubscribe(Subscriber(connHandle, agpsType == SUPL_ES, false), answer);
      }
    }

    predicate Knows(sm: AgpsStateMachine?, connHandle: int)
      reads sm
    {
      sm != null && HasHandle(sm.mSubscriberList, connHandle)
    }

    /** The search order: the AGNSS, the internet and the data-service machine. */
    method FindHolder(connHandle: int) returns (sm: AgpsStateMachine?, k: nat)
      ensures Knows(mAgnssNif, connHandle) ==> sm == mAgnssNif
      ensures !Knows(mAgnssNif, connHandle) && Knows(mInternetNif, connHandle) ==> sm == mInternetNif
      ensures !Knows(mAgnssNif, connHandle) && !Knows(mInternetNif, connHandle) ==>
        sm == if Knows(mDsNif, connHandle) then mDsNif else null
      ensures sm != null ==>
        && sm in Machines() && k == IndexOf(sm.mSubscriberList, connHandle) < |sm.mSubscriberList|
        && sm.mSubscriberList[k].connHandle == connHandle
    {
      sm, k := null, 0;
      if mAgnssNif != null {
        k := mAgnssNif.GetSubscriber(connHandle);
        if k < |mAgnssNif.mSubscriberList| {
          return mAgnssNif, k;
        }
      }
      if mInternetNif != null {
        k := mInternetNif.GetSubscriber(connHandle);
        if k < |mInternetNif.mSubscriberList| {
          return mInternetNif, k;
        }
      }
      if mDsNif != null {
        k := mDsNif.GetSubscriber(connHandle);
        if k < |mDsNif.mSubscriberList| {
          return mDsNif, k;
        }
      }
    }

    /** A release reaches the first machine that knows the handle and no other. */
    method ReleaseATL(connHandle: int, answer: StartResult)
      requires Valid()
      modifies this`reports, Machines()
      ensures Valid()
      ensures old(Knows(mAgnssNif, connHandle)) ==> Reached(mAgnssNif, Release(connHandle), answer, CloseFailed(connHandle))
      ensures !old(Knows(mAgnssNif, connHandle)) && old(Knows(mInternetNif, connHandle)) ==>
        Reached(mInternetNif, Release(connHandle), answer, CloseFailed(connHandle))
      ensures !old(Knows(mAgnssNif, connHandle)) && !old(Knows(mInternetNif, connHandle)) ==>
        Reached(if old(Knows(mDsNif, connHandle)) then mDsNif else null, Release(connHandle), answer, CloseFailed(connHandle))
    {
      var sm, k := FindHolder(connHandle);
      if sm == null {
        reports := reports + [CloseFailed(connHandle)];
      } else {
        sm.ProcessUnsubscribe(k, answer);
        assert forall n :: n in Machines() && n != sm ==> n.Model() == old(n.Model());
      }
    }

    /** A modem restart drops every subscriber without a report, and starts the data service
        client anew where there is one. */
    method HandleModemSSR()
      requires Valid()
      modifies this`clientCalls, Machines()
      ensures Valid() && reports == old(reports)
      ensures clientCalls == old(clientCalls) +
        if useEmergencyPdn then [StopCall, CloseCall, ReleaseClient, InitClient(true)] else []
      ensures forall n :: n in Machines() ==> n.Model() == Step(old(n.Model()), ModemRestart, Success)
    {
      if mAgnssNif != null {
        mAgnssNif.DropAllSubscribers();
      }
      if mInternetNif != null {
        mInternetNif.DropAllSubscribers();
      }
      if mDsNif != null {
        mDsNif.DropAllSubscribers();
      }
      clientCalls := clientCalls + if useEmergencyPdn then [StopCall, CloseCall, ReleaseClient, InitClient(true)] else [];
    }
  }
}
