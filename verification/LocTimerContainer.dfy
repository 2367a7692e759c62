/** The timer container of gps/utils/LocTimer.cpp as the object the message thread works on:
    a heap of timers and the kernel timer it keeps set, with the three message procs run to
    their end.  The interleaving with the other threads is the matter of
    `LocTimerProtocol`, whose functions the methods here are proved to follow. */
module LocTimerContainer {
  import opened Wrappers
  import opened LocHeap
  import opened LocTimerProtocol

  class LocTimerContainer {
    const heap: LocHeap<Timer>
    var armed: Option<Deadline>
    var polled: bool

    ghost predicate Valid()
      reads this, heap, heap.mTree, heap.Nodes()
    {
      heap.Linked() && heap.ranks == ranks && Ordered(ranks, heap.Model()) && Sized(heap.Model())
    }

    /** The kernel timer and the poll set after `updateSoonestTime` decided `u`. */
    twostate predicate Follows(u: Update)
      reads this
    {
      match u
      case Keep => armed == old(armed) && polled == old(polled)
      case Disarm => armed == None && !polled
      case Arm(t) => armed == Some(t.at) && polled
    }

    constructor ()
      ensures Valid() && fresh(heap) && heap.Model() == Empty && armed == None && !polled
    {
      RanksIsStrictWeak();
      heap := new LocHeap(ranks);
      armed, polled := None, false;
    }

    method UpdateSoonestTime(priorTop: Option<Timer>)
      requires Valid()
      modifies this`armed, this`polled
      ensures Valid()
      ensures Follows(LocTimerProtocol.UpdateSoonestTime(Top(heap.Model()), priorTop))
    {
      var curTop := heap.PeekNode();
      if curTop != priorTop {
        if curTop.None? {
          polled := false;
          armed := None;
        } else if priorTop.None? || OutRanks(ranks, curTop.value, priorTop.value) {
          polled := true;
          armed := Some(curTop.value.at);
        }
      }
    }

    method MsgTimerPush(timer: Timer)
      requires Valid()
      modifies this, heap, heap.Nodes()
      ensures Valid() && fresh(heap.Nodes() - old(heap.Nodes()))
      ensures heap.Model() == Apply(ranks, old(heap.Model()), Op.Push(timer))
      ensures Follows(LocTimerProtocol.UpdateSoonestTime(Top(heap.Model()), Top(old(heap.Model()))))
    {
      ApplyKeepsKernelHeap(heap.Model(), Op.Push(timer));
      var priorTop := heap.PeekNode();
      heap.PushNode(timer);
      UpdateSoonestTime(priorTop);
    }

    method MsgTimerRemove(timer: Timer)
      requires Valid()
      modifies this, heap, heap.Nodes()
      ensures Valid() && heap.Nodes() <= old(heap.Nodes())
      ensures heap.Model() == Apply(ranks, old(heap.Model()), Op.Remove(timer))
      ensures Top(old(heap.Model())) == Some(timer) && heap.Model().Branch? ==>
        armed == Some(heap.Model().data.at) && polled
      ensures Top(old(heap.Model())) != Some(timer) || heap.Model().Empty? ==> armed == old(armed) && polled == old(polled)
    {
      ApplyKeepsKernelHeap(heap.Model(), Op.Remove(timer));
      var priorTop := heap.PeekNode();
      var removed := heap.RemoveNode(timer);
      if priorTop == removed {
        UpdateSoonestTime(None);
      }
    }

    method PopIfOutRanks(timer: Timer) returns (popped: Option<Timer>)
      requires Valid()
      modifies heap, heap.Nodes()
      ensures Valid() && heap.Nodes() <= old(heap.Nodes())
      ensures popped.None? ==>
        heap.Model() == old(heap.Model()) && (heap.Model().Branch? ==> OutRanks(ranks, timer, heap.Model().data))
      ensures popped.Some? ==>
        && heap.Model() == Apply(ranks, old(heap.Model()), Op.Pop)
        && Top(old(heap.Model())) == popped && !OutRanks(ranks, timer, popped.value)
    {
      popped := None;
      var top := heap.PeekNode();
      if top.Some? && !OutRanks(ranks, timer, top.value) {
        ApplyKeepsKernelHeap(heap.Model(), Op.Pop);
        popped := heap.PopNode();
      }
    }

    /** The whole of an expire message: calls `expire()` on the timers in `popped`, in this
        order.  Nothing due is left, the first timer goes unconditionally, every other one
        was due, and the kernel timer is set for what remains. */
    method MsgTimerExpire(now: Deadline) returns (popped: seq<Timer>)
      requires Valid()
      modifies this, heap, heap.Nodes()
      ensures Valid() && heap.Nodes() <= old(heap.Nodes())
      ensures Expired(old(Elements(heap.Model())), now, popped, Elements(heap.Model()))
      ensures old(heap.Model()).Branch? ==> popped != []
      ensures heap.Model().Branch? ==> armed == Some(heap.Model().data.at) && polled
      ensures heap.Model().Empty? ==> armed == old(armed) && polled == old(polled)
    {
      ExpiryIsSorted(heap.Model(), now);
      popped := PopDue(now);
      UpdateSoonestTime(None);
    }

    /** The loop of the expire message. */
    method PopDue(now: Deadline) returns (popped: seq<Timer>)
      requires Valid()
      modifies heap, heap.Nodes()
      ensures Valid() && heap.Nodes() <= old(heap.Nodes())
      ensures Expiry(popped, heap.Model()) == ExpiryOf(old(heap.Model()), now)
    {
      ghost var goal := ExpiryOf(heap.Model(), now);
      popped := [];
      ApplyKeepsKernelHeap(heap.Model(), Op.Pop);
      var timer := heap.PopNode();
      ghost var left := heap.Model();
      while timer.Some?
        invariant Valid() && heap.Nodes() <= old(heap.Nodes()) && left == heap.Model()
        invariant goal == if timer.None? then Expiry(popped, left) else AndThen(popped + [timer.value], DueIn(left, now))
        decreases Count(left) + if timer.None? then 0 else 1
      {
        popped := popped + [timer.value];
        timer := PopIfOutRanks(TimerOfNow(now));
        DueStep(left, now, popped);
        left := heap.Model();
      }
    }
  }

  // ---------- What an expire message does ----------

  /** The timers an expire message takes out, in order, and the heap it leaves. */
  datatype Expiry = Expiry(popped: seq<Timer>, left: Tree<Timer>)

  function AndThen(popped: seq<Timer>, e: Expiry): Expiry {
    e.(popped := popped + e.popped)
  }

  /** Pops for as long as the top is due. */
  function DueIn(heap: Tree<Timer>, now: Deadline): Expiry
    requires Ordered(ranks, heap) && Sized(heap)
    decreases Count(heap)
  {
    if heap.Empty? || OutRanks(ranks, TimerOfNow(now), heap.data) then Expiry([], heap)
    else
      var rest := Apply(ranks, heap, Op.Pop);
      ApplyKeepsKernelHeap(heap, Op.Pop);
      PopTakesEarliest(heap, rest);
      AndThen([heap.data], DueIn(rest, now))
  }

  /** The first pop is unconditional. */
  function ExpiryOf(heap: Tree<Timer>, now: Deadline): Expiry
    requires Ordered(ranks, heap) && Sized(heap)
  {
    if heap.Empty? then Expiry([], heap)
    else
      ApplyKeepsKernelHeap(heap, Op.Pop);
      AndThen([heap.data], DueIn(Apply(ranks, heap, Op.Pop), now))
  }

  lemma DueStep(heap: Tree<Timer>, now: Deadline, popped: seq<Timer>)
    requires Ordered(ranks, heap) && Sized(heap)
    ensures var rest := Apply(ranks, heap, Op.Pop);
      if heap.Empty? || OutRanks(ranks, TimerOfNow(now), heap.data) then AndThen(popped, DueIn(heap, now)) == Expiry(popped, heap)
      else
        && Count(rest) < Count(heap) && Ordered(ranks, rest) && Sized(rest)
        && AndThen(popped, DueIn(heap, now)) == AndThen(popped + [heap.data], DueIn(rest, now))
  {
    if heap.Branch? && !OutRanks(ranks, TimerOfNow(now), heap.data) {
      var rest := Apply(ranks, heap, Op.Pop);
      ApplyKeepsKernelHeap(heap, Op.Pop);
      PopTakesEarliest(heap, rest);
      var more := DueIn(rest, now).popped;
      assert popped + ([heap.data] + more) == popped + [heap.data] + more;
    } else {
      assert popped + [] == popped;
    }
  }

  /** A pop takes out a timer of the earliest deadline. */
  lemma PopTakesEarliest(heap: Tree<Timer>, rest: Tree<Timer>)
    requires Ordered(ranks, heap) && Sized(heap) && heap.Branch? && rest == Apply(ranks, heap, Op.Pop)
    ensures Elements(heap) == Elements(rest) + multiset{heap.data} && Count(rest) < Count(heap)
    ensures forall y :: y in Elements(heap) ==> Nanos(heap.data.at) <= Nanos(y.at)
  {
    RanksIsStrictWeak();
    ApplyKeepsHeap(ranks, heap, Op.Pop);
    forall y | y in Elements(heap) ensures Nanos(heap.data.at) <= Nanos(y.at) {
      StoredNoEarlierThanTop(heap, y);
    }
  }

  /** `popped` left the heap in deadline order, and only its first member may be early. */
  ghost predicate Sorted(start: multiset<Timer>, now: Deadline, popped: seq<Timer>, left: multiset<Timer>) {
    && multiset(popped) + left == start
    && (forall i, j :: 0 <= i < j < |popped| ==> Nanos(popped[i].at) <= Nanos(popped[j].at))
    && (forall i :: 0 < i < |popped| ==> Nanos(popped[i].at) <= Nanos(now))
    && (forall i, y :: 0 <= i < |popped| && y in left ==> Nanos(popped[i].at) <= Nanos(y.at))
  }

  /** What an expire message does to the stored timers. */
  ghost predicate Expired(start: multiset<Timer>, now: Deadline, popped: seq<Timer>, left: multiset<Timer>) {
    Sorted(start, now, popped, left) && forall y :: y in left ==> Nanos(now) < Nanos(y.at)
  }

  lemma OneMoreIsSorted(start: multiset<Timer>, now: Deadline, popped: seq<Timer>, before: multiset<Timer>,
                        timer: Timer, left: multiset<Timer>)
    requires Sorted(start, now, popped, before) && before == left + multiset{timer}
    requires popped != [] ==> Nanos(timer.at) <= Nanos(now)
    requires forall y :: y in before ==> Nanos(timer.at) <= Nanos(y.at)
    ensures Sorted(start, now, popped + [timer], left)
  {
    assert timer in before;
    forall y | y in left ensures y in before {}
  }

  lemma {:induction false} DueAreSorted(start: multiset<Timer>, now: Deadline, popped: seq<Timer>, heap: Tree<Timer>)
    requires Ordered(ranks, heap) && Sized(heap)
    requires Sorted(start, now, popped, Elements(heap)) && popped != []
    ensures var e := AndThen(popped, DueIn(heap, now)); Expired(start, now, e.popped, Elements(e.left))
    decreases Count(heap)
  {
    DueStep(heap, now, popped);
    if heap.Empty? || OutRanks(ranks, TimerOfNow(now), heap.data) {
      NothingDueLeft(heap, now);
    } else {
      var rest := Apply(ranks, heap, Op.Pop);
      OutRanksIsEarlier(TimerOfNow(now), heap.data);
      PopTakesEarliest(heap, rest);
      OneMoreIsSorted(start, now, popped, Elements(heap), heap.data, Elements(rest));
      DueAreSorted(start, now, popped + [heap.data], rest);
    }
  }

  /** What the expire message takes out leaves in deadline order, and all that is due leaves. */
  lemma ExpiryIsSorted(heap: Tree<Timer>, now: Deadline)
    requires Ordered(ranks, heap) && Sized(heap)
    ensures var e := ExpiryOf(heap, now);
      Expired(Elements(heap), now, e.popped, Elements(e.left)) && (heap.Branch? ==> e.popped != [])
  {
    if heap.Branch? {
      FirstIsSorted(heap, now);
      DueAreSorted(Elements(heap), now, [heap.data], Apply(ranks, heap, Op.Pop));
    }
  }

  lemma FirstIsSorted(heap: Tree<Timer>, now: Deadline)
    requires Ordered(ranks, heap) && Sized(heap) && heap.Branch?
    ensures var rest := Apply(ranks, heap, Op.Pop);
      Ordered(ranks, rest) && Sized(rest) && Sorted(Elements(heap), now, [heap.data], Elements(rest))
  {
    var rest := Apply(ranks, heap, Op.Pop);
    ApplyKeepsKernelHeap(heap, Op.Pop);
    PopTakesEarliest(heap, rest);
    OneMoreIsSorted(Elements(heap), now, [], Elements(heap), heap.data, Elements(rest));
    assert [] + [heap.data] == [heap.data];
  }

  lemma NothingDueLeft(model: Tree<Timer>, now: Deadline)
    requires Ordered(ranks, model)
    requires model.Branch? ==> OutRanks(ranks, TimerOfNow(now), model.data)
    ensures forall y :: y in Elements(model) ==> Nanos(now) < Nanos(y.at)
  {
    forall y | y in Elements(model) ensures Nanos(now) < Nanos(y.at) {
      StoredNoEarlierThanTop(model, y);
      OutRanksIsEarlier(TimerOfNow(now), model.data);
    }
  }

  /** A timer is popped before it is due exactly when the top was not due, and then it is the
      first one.  Whether it calls back is for its client: see `CallbackIsOwnUnlessStopped`. */
  lemma AllPoppedAreDueIffTopIsDue(heap: Tree<Timer>, now: Deadline)
    requires Ordered(ranks, heap) && Sized(heap) && heap.Branch?
    ensures var e := ExpiryOf(heap, now);
      (forall i :: 0 <= i < |e.popped| ==> Nanos(e.popped[i].at) <= Nanos(now)) <==> Nanos(heap.data.at) <= Nanos(now)
  {
    ExpiryIsSorted(heap, now);
    assert ExpiryOf(heap, now).popped[0] == heap.data;
  }
}
