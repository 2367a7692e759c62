/** The throttle between the modem's requests for an on-demand position and the framework
    callback (gps/gnss/GnssAdapter.cpp, gps/gnss/GnssAdapter.h).  A value machine says what
    each message does; the object at the end is proved to follow it. */
module Odcpi {
  import opened Wrappers

  datatype OdcpiRequest = OdcpiRequest(isStart: bool, tbfMillis: nat, isEmergencyMode: bool)

  datatype State = State(callbackSet: bool, requestActive: bool, timerActive: bool, stored: OdcpiRequest)

  datatype Event =
    | InitOdcpi(registered: bool)    // the framework sets its callback, perhaps to null
    | Report(request: OdcpiRequest)  // the modem starts or stops a request
    | TimerExpire
    | ModemRestart                   // restartSessions

  const INITIAL := State(false, false, false, OdcpiRequest(true, 0, false))

  /** An emergency request replaces a stored one that is none. */
  predicate Upgrade(s: State, e: Event) {
    e.Report? && e.request.isStart && e.request.isEmergencyMode && !s.stored.isEmergencyMode
  }

  /** The request handed to the framework callback, if there is a call. */
  function Callback(s: State, e: Event): Option<OdcpiRequest> {
    match e
    case Report(r) =>
      if s.callbackSet && r.isStart && ((!s.requestActive && !s.timerActive) || Upgrade(s, e)) then Some(r) else None
    case TimerExpire => if s.requestActive && s.callbackSet then Some(s.stored) else None
    case _ => None
  }

  /** An expiry does not look whether there still is a callback to call. */
  predicate CallsNull(s: State, e: Event) {
    e.TimerExpire? && s.requestActive && !s.callbackSet
  }

  function Step(s: State, e: Event): State {
    match e
    case InitOdcpi(registered) => s.(callbackSet := registered)
    case Report(r) =>
      if !s.callbackSet then s
      else if !r.isStart then s.(requestActive := false)
      else if Callback(s, e).Some? then State(true, true, true, r)
      else s.(requestActive := s.requestActive || s.timerActive, stored := r)
    case TimerExpire => if s.requestActive then s.(timerActive := true) else s.(timerActive := false)
    case ModemRestart => s.(requestActive := false)
  }

  function Run(es: seq<Event>): State {
    if es == [] then INITIAL else Step(Run(es[..|es| - 1]), es[|es| - 1])
  }

  /** What event `i` of a run hands to the framework. */
  function CallbackAt(es: seq<Event>, i: nat): Option<OdcpiRequest>
    requires i < |es|
  {
    Callback(Run(es[..i]), es[i])
  }

  /** A request that is active is watched by the timer. */
  lemma {:induction false} ActiveRequestIsTimed(es: seq<Event>)
    ensures var s := Run(es); s.requestActive ==> s.timerActive
  {
    if es != [] {
      ActiveRequestIsTimed(es[..|es| - 1]);
    }
  }

  /** A request is active only if the callback was set at some time, and the timer calls it
      unless it was set to null since. */
  lemma {:induction false} ActiveRequestHasCallback(es: seq<Event>)
    ensures Run(es).requestActive ==> exists i :: 0 <= i < |es| && es[i] == InitOdcpi(true)
    ensures CallsNull(Run(es), TimerExpire) ==> exists i :: 0 <= i < |es| && es[i] == InitOdcpi(false)
  {
    SetOrUnset(es);
    if es != [] {
      ActiveRequestHasCallback(es[..|es| - 1]);
      SetOrUnset(es[..|es| - 1]);
      forall i | 0 <= i < |es| - 1 ensures es[i] == es[..|es| - 1][i] {}
    }
  }

  lemma {:induction false} SetOrUnset(es: seq<Event>)
    ensures Run(es).callbackSet ==> exists i :: 0 <= i < |es| && es[i] == InitOdcpi(true)
  {
    if es != [] {
      SetOrUnset(es[..|es| - 1]);
      forall i | 0 <= i < |es| - 1 ensures es[i] == es[..|es| - 1][i] {}
    }
  }

  /** Set to null while a request is active, it is called all the same. */
  lemma NullCallbackIsCalled(r: OdcpiRequest)
    requires r.isStart
    ensures CallsNull(Run([InitOdcpi(true), Report(r), InitOdcpi(false)]), TimerExpire)
  {
    var es := [InitOdcpi(true), Report(r), InitOdcpi(false)];
    assert es[..2] == [InitOdcpi(true), Report(r)] && es[..2][..1] == [InitOdcpi(true)];
    assert es[..2][..1][..0] == [];
    assert Run([InitOdcpi(true)]) == Step(Run([]), InitOdcpi(true));
    assert Run(es[..2]) == Step(Run([InitOdcpi(true)]), Report(r));
  }

  /** Once a callback was made, the timer runs until it expires. */
  lemma {:induction false} TimerRunsUntilExpiry(es: seq<Event>, i: nat, j: nat)
    requires i < j <= |es| && CallbackAt(es, i).Some?
    requires forall k :: i < k < j ==> !es[k].TimerExpire?
    ensures Run(es[..j]).timerActive
    decreases j
  {
    assert es[..j][..j - 1] == es[..j - 1];
    if j == i + 1 {
      ActiveRequestIsTimed(es[..i]);
    } else {
      TimerRunsUntilExpiry(es, i, j - 1);
    }
  }

  /** Main theorem: between two callbacks the timer expires, at the later one at the latest,
      unless the later one upgrades a stored request to an emergency. */
  lemma CallbacksAreThrottled(es: seq<Event>, i: nat, j: nat)
    requires i < j < |es| && CallbackAt(es, i).Some? && CallbackAt(es, j).Some?
    ensures (exists k :: i < k <= j && es[k].TimerExpire?) || Upgrade(Run(es[..j]), es[j])
  {
    if forall k :: i < k <= j ==> !es[k].TimerExpire? {
      TimerRunsUntilExpiry(es, i, j);
    }
  }

  function Bit(b: bool): nat {
    if b then 1 else 0
  }

  function Callbacks(es: seq<Event>): nat {
    if es == [] then 0
    else Callbacks(es[..|es| - 1]) + Bit(Callback(Run(es[..|es| - 1]), es[|es| - 1]).Some?)
  }

  function Expiries(es: seq<Event>): nat {
    if es == [] then 0 else Expiries(es[..|es| - 1]) + Bit(es[|es| - 1].TimerExpire?)
  }

  function Upgrades(es: seq<Event>): nat {
    if es == [] then 0
    else Upgrades(es[..|es| - 1]) + Bit(Upgrade(Run(es[..|es| - 1]), es[|es| - 1]))
  }

  /** Counted over a whole run: one callback, one more for every expiry and for every upgrade. */
  lemma {:induction false} CallbackBudget(es: seq<Event>)
    ensures Callbacks(es) + Bit(!Run(es).timerActive) <= 1 + Expiries(es) + Upgrades(es)
  {
    if es != [] {
      CallbackBudget(es[..|es| - 1]);
      ActiveRequestIsTimed(es[..|es| - 1]);
    }
  }

  // ---------- The machine read off the history ----------

  /** The framework set its callback, and not to null since. */
  predicate Listening(es: seq<Event>) {
    exists i :: 0 <= i < |es| && es[i] == InitOdcpi(true) && forall j :: i < j < |es| ==> es[j] != InitOdcpi(false)
  }

  /** Event `i` is a request to start that reached a callback. */
  predicate StartAt(es: seq<Event>, i: nat) {
    i < |es| && es[i].Report? && es[i].request.isStart && Listening(es[..i])
  }

  /** Event `i` ends a request: one to stop that reached a callback, or a modem restart. */
  predicate EndAt(es: seq<Event>, i: nat) {
    i < |es| && (es[i].ModemRestart? || (es[i].Report? && !es[i].request.isStart && Listening(es[..i])))
  }

  /** A request was started and none ended since. */
  predicate RequestOn(es: seq<Event>) {
    exists i :: 0 <= i < |es| && StartAt(es, i) && forall j :: i < j < |es| ==> !EndAt(es, j)
  }

  /** Event `i` sets the timer: a start, or an expiry during a request. */
  predicate SetsTimer(es: seq<Event>, i: nat) {
    i < |es| && (StartAt(es, i) || (es[i].TimerExpire? && RequestOn(es[..i])))
  }

  /** The timer was set and did not expire since. */
  predicate TimerOn(es: seq<Event>) {
    exists i :: 0 <= i < |es| && SetsTimer(es, i) && forall j :: i < j < |es| ==> !es[j].TimerExpire?
  }

  lemma ListeningStep(es: seq<Event>)
    requires es != []
    ensures var b, e := es[..|es| - 1], es[|es| - 1];
      Listening(es) <==> e == InitOdcpi(true) || (e != InitOdcpi(false) && Listening(b))
  {
    var b, e := es[..|es| - 1], es[|es| - 1];
    if Listening(b) && e != InitOdcpi(false) {
      var i :| 0 <= i < |b| && b[i] == InitOdcpi(true) && forall j :: i < j < |b| ==> b[j] != InitOdcpi(false);
      assert es[i] == InitOdcpi(true) && forall j :: i < j < |es| - 1 ==> es[j] == b[j];
    }
    if Listening(es) && e != InitOdcpi(true) {
      var i :| 0 <= i < |es| && es[i] == InitOdcpi(true) && forall j :: i < j < |es| ==> es[j] != InitOdcpi(false);
      assert b[i] == InitOdcpi(true) && forall j :: i < j < |b| ==> b[j] == es[j];
    }
  }

  /** Whether an event starts or ends a request does not depend on what comes later. */
  lemma SamePast(es: seq<Event>, i: nat)
    requires i < |es| - 1
    ensures var b := es[..|es| - 1];
      && es[i] == b[i] && (StartAt(es, i) <==> StartAt(b, i)) && (EndAt(es, i) <==> EndAt(b, i))
      && (SetsTimer(es, i) <==> SetsTimer(b, i))
  {
    assert es[..|es| - 1][..i] == es[..i];
  }

  lemma RequestOnStep(es: seq<Event>)
    requires es != []
    ensures RequestOn(es) <==> StartAt(es, |es| - 1) || (!EndAt(es, |es| - 1) && RequestOn(es[..|es| - 1]))
  {
    var b := es[..|es| - 1];
    forall i | 0 <= i < |b| ensures (StartAt(es, i) <==> StartAt(b, i)) && (EndAt(es, i) <==> EndAt(b, i)) {
      SamePast(es, i);
    }
    if RequestOn(b) && !EndAt(es, |es| - 1) {
      var i :| 0 <= i < |b| && StartAt(b, i) && forall j :: i < j < |b| ==> !EndAt(b, j);
      assert StartAt(es, i) && forall j :: i < j < |es| ==> !EndAt(es, j);
    }
    if RequestOn(es) && !StartAt(es, |es| - 1) {
      var i :| 0 <= i < |es| && StartAt(es, i) && forall j :: i < j < |es| ==> !EndAt(es, j);
      assert StartAt(b, i) && forall j :: i < j < |b| ==> !EndAt(b, j);
    }
  }

  lemma TimerOnStep(es: seq<Event>)
    requires es != []
    ensures TimerOn(es) <==> SetsTimer(es, |es| - 1) || (!es[|es| - 1].TimerExpire? && TimerOn(es[..|es| - 1]))
  {
    if TimerOn(es[..|es| - 1]) && !es[|es| - 1].TimerExpire? {
      TimerStaysOn(es);
    }
    if TimerOn(es) && !SetsTimer(es, |es| - 1) {
      TimerWasOn(es);
    }
  }

  lemma TimerStaysOn(es: seq<Event>)
    requires es != [] && TimerOn(es[..|es| - 1]) && !es[|es| - 1].TimerExpire?
    ensures TimerOn(es)
  {
    var b := es[..|es| - 1];
    var i :| 0 <= i < |b| && SetsTimer(b, i) && forall j :: i < j < |b| ==> !b[j].TimerExpire?;
    SamePast(es, i);
    forall j | i < j < |es| ensures !es[j].TimerExpire? {
      assert j < |b| ==> es[j] == b[j];
    }
  }

  lemma TimerWasOn(es: seq<Event>)
    requires es != [] && TimerOn(es) && !SetsTimer(es, |es| - 1)
    ensures TimerOn(es[..|es| - 1]) && !es[|es| - 1].TimerExpire?
  {
    var b := es[..|es| - 1];
    var i :| 0 <= i < |es| && SetsTimer(es, i) && forall j :: i < j < |es| ==> !es[j].TimerExpire?;
    SamePast(es, i);
    forall j | i < j < |b| ensures !b[j].TimerExpire? {
      assert es[j] == b[j];
    }
  }

  /** Main theorem: over every run the callback is there when the framework set it last; a
      request is active when the last of starts, stops and modem restarts was a start; and the
      timer runs when it was set since it last expired. */
  lemma {:induction false} StateFollowsHistory(es: seq<Event>)
    ensures var s := Run(es);
      (s.callbackSet <==> Listening(es)) && (s.requestActive <==> RequestOn(es)) && (s.timerActive <==> TimerOn(es))
  {
    if es != [] {
      StateFollowsHistory(es[..|es| - 1]);
      ActiveRequestIsTimed(es[..|es| - 1]);
      ListeningStep(es);
      RequestOnStep(es);
      TimerOnStep(es);
    }
  }

  /** What the timer repeats is the last request that was started. */
  lemma {:induction false} TimerRepeatsLastStart(es: seq<Event>, i: nat)
    requires StartAt(es, i) && forall j :: i < j < |es| ==> !StartAt(es, j)
    ensures Run(es).stored == es[i].request
  {
    var n := |es| - 1;
    StateFollowsHistory(es[..n]);
    if i < n {
      SamePast(es, i);
      forall j | i < j < n ensures !StartAt(es[..n], j) { SamePast(es, j); }
      TimerRepeatsLastStart(es[..n], i);
      assert !StartAt(es, n);
    }
  }

  /** Without a start so far the initial request is stored, which is no emergency. */
  lemma {:induction false} NothingStartedYet(es: seq<Event>)
    requires forall j :: 0 <= j < |es| ==> !StartAt(es, j)
    ensures Run(es).stored == INITIAL.stored
  {
    if es != [] {
      var n := |es| - 1;
      StateFollowsHistory(es[..n]);
      forall j | 0 <= j < n ensures !StartAt(es[..n], j) { SamePast(es, j); }
      NothingStartedYet(es[..n]);
      assert !StartAt(es, n);
    }
  }

  /** The last request that was started was for an emergency. */
  predicate EmergencyStored(es: seq<Event>) {
    exists i :: 0 <= i < |es| && StartAt(es, i) && es[i].request.isEmergencyMode
      && forall j :: i < j < |es| ==> !StartAt(es, j)
  }

  lemma {:induction false} StoredFollowsHistory(es: seq<Event>)
    ensures Run(es).stored.isEmergencyMode <==> EmergencyStored(es)
  {
    if forall j :: 0 <= j < |es| ==> !StartAt(es, j) {
      NothingStartedYet(es);
    } else {
      var some :| 0 <= some < |es| && StartAt(es, some);
      var i := LastStart(es, some);
      TimerRepeatsLastStart(es, i);
    }
  }

  lemma LastStart(es: seq<Event>, some: nat) returns (i: nat)
    requires StartAt(es, some)
    ensures StartAt(es, i) && forall j :: i < j < |es| ==> !StartAt(es, j)
    decreases |es| - some
  {
    if j: nat :| some < j < |es| && StartAt(es, j) {
      i := LastStart(es, j);
    } else {
      i := some;
    }
  }

  /** Main theorem: what every event hands to the framework, read off the history.  A start is
      handed on when the timer is off, or when it is for an emergency and the last one was not.
      An expiry hands on the last start when a request is on.  Nothing else is handed on. */
  lemma CallbackFollowsHistory(es: seq<Event>, i: nat)
    requires i < |es|
    ensures var past, e := es[..i], es[i];
      && (e.Report? && StartAt(es, i) && (!TimerOn(past) || (e.request.isEmergencyMode && !EmergencyStored(past))) ==>
            CallbackAt(es, i) == Some(e.request))
      && (e.Report? && !(StartAt(es, i) && (!TimerOn(past) || (e.request.isEmergencyMode && !EmergencyStored(past)))) ==>
            CallbackAt(es, i) == None)
      && (e.TimerExpire? ==> (CallbackAt(es, i).Some? <==> RequestOn(past) && Listening(past)))
      && (!e.Report? && !e.TimerExpire? ==> CallbackAt(es, i) == None)
  {
    StateFollowsHistory(es[..i]);
    StoredFollowsHistory(es[..i]);
    ActiveRequestIsTimed(es[..i]);
  }

  /** What an expiry hands on is the last start. */
  lemma ExpiryRepeatsLastStart(es: seq<Event>, k: nat, i: nat)
    requires k < i < |es| && es[i].TimerExpire? && CallbackAt(es, i).Some?
    requires StartAt(es, k) && forall j :: k < j < i ==> !StartAt(es, j)
    ensures CallbackAt(es, i) == Some(es[k].request)
  {
    var past := es[..i];
    forall j | 0 <= j < i ensures past[j] == es[j] && (StartAt(past, j) <==> StartAt(es, j)) {
      assert past[..j] == es[..j];
    }
    TimerRepeatsLastStart(past, k);
  }

  /** So a request that was stopped, or cut off by a modem restart, is not handed on again:
      nothing is, before the next start. */
  lemma NothingAfterStop(es: seq<Event>, i: nat, j: nat)
    requires i < j < |es| && EndAt(es, i) && forall k :: i < k <= j ==> !StartAt(es, k)
    ensures CallbackAt(es, j) == None
  {
    var past := es[..j];
    forall k | 0 <= k < j ensures past[k] == es[k] && (StartAt(past, k) <==> StartAt(es, k)) && (EndAt(past, k) <==> EndAt(es, k)) {
      assert past[..k] == es[..k];
    }
    assert EndAt(past, i);
    assert !RequestOn(past);
    CallbackFollowsHistory(es, j);
  }

  /** An expiry without a request leaves the timer off, so that the next start is handed on. */
  lemma ExpiryWithoutRequestStopsTimer(es: seq<Event>)
    requires !RequestOn(es)
    ensures !TimerOn(es + [TimerExpire]) && !Run(es + [TimerExpire]).timerActive
  {
    var n := es + [TimerExpire];
    assert n[..|n| - 1] == es;
    TimerOnStep(n);
    StateFollowsHistory(n);
  }

  // ---------- What the throttle lets through ----------

  function CallbacksFrom(s: State, es: seq<Event>): nat
    decreases es
  {
    if es == [] then 0
    else (if Callback(s, es[0]).Some? then 1 else 0) + CallbacksFrom(Step(s, es[0]), es[1..])
  }

  /** `n` times a plain request to start and then an emergency one. */
  function Alternating(n: nat): seq<Event> {
    if n == 0 then []
    else [Report(OdcpiRequest(true, 0, false)), Report(OdcpiRequest(true, 0, true))] + Alternating(n - 1)
  }

  /** The exception counts: each plain request makes room for another upgrade, so these are
      `n` callbacks without one expiry of the timer. */
  lemma {:induction false} AlternatingRequestsAreNotThrottled(s: State, n: nat)
    requires s.callbackSet && s.timerActive && s.stored.isEmergencyMode
    ensures CallbacksFrom(s, Alternating(n)) == n
    ensures forall k :: 0 <= k < |Alternating(n)| ==> !Alternating(n)[k].TimerExpire?
    decreases n
  {
    if n > 0 {
      var a, b := Report(OdcpiRequest(true, 0, false)), Report(OdcpiRequest(true, 0, true));
      var es := Alternating(n);
      assert es[0] == a && es[1..][0] == b && es[1..][1..] == Alternating(n - 1);
      var s2 := Step(Step(s, a), b);
      assert CallbacksFrom(s, es) == CallbacksFrom(Step(s, a), es[1..]);
      assert CallbacksFrom(Step(s, a), es[1..]) == 1 + CallbacksFrom(s2, es[1..][1..]);
      AlternatingRequestsAreNotThrottled(s2, n - 1);
    }
  }

  // ---------- The object ----------

  class OdcpiTimer {
    var mActive: bool

    constructor ()
      ensures !mActive
    {
      mActive := false;
    }

    predicate IsActive()
      reads this
    {
      mActive
    }

    method Start()
      modifies this
      ensures mActive
    {
      mActive := true;
    }

    method Stop()
      modifies this
      ensures !mActive
    {
      mActive := false;
    }

    method Restart()
      modifies this
      ensures mActive
    {
      Stop();
      Start();
    }
  }

  class OdcpiHandler {
    var mOdcpiRequestCb: bool
    var mOdcpiRequestActive: bool
    const mOdcpiTimer: OdcpiTimer
    var mOdcpiRequest: OdcpiRequest
    var callbacks: seq<OdcpiRequest>

    function Model(): State
      reads this, mOdcpiTimer
    {
      State(mOdcpiRequestCb, mOdcpiRequestActive, mOdcpiTimer.mActive, mOdcpiRequest)
    }

    /** The object made the step of `e`, and the callback that goes with it. */
    twostate predicate Stepped(e: Event)
      reads this, mOdcpiTimer
    {
      && Model() == Step(old(Model()), e)
      && callbacks == old(callbacks) +
           (if Callback(old(Model()), e).Some? then [Callback(old(Model()), e).value] else [])
    }

    constructor ()
      ensures Model() == INITIAL && callbacks == [] && fresh(mOdcpiTimer)
    {
      mOdcpiRequestCb, mOdcpiRequestActive, callbacks := false, false, [];
      mOdcpiRequest := OdcpiRequest(true, 0, false);
      mOdcpiTimer := new OdcpiTimer();
    }

    /** Whether the callback is null is all that is kept of it. */
    method InitOdcpi(registered: bool)
      modifies this
      ensures Stepped(Event.InitOdcpi(registered))
    {
      mOdcpiRequestCb := registered;
    }

    method ReportOdcpiRequest(request: OdcpiRequest)
      modifies this, mOdcpiTimer
      ensures Stepped(Report(request))
    {
      if mOdcpiRequestCb {
        if request.isStart {
          if !mOdcpiRequestActive && !mOdcpiTimer.IsActive() {
            callbacks := callbacks + [request];
            mOdcpiRequestActive := true;
            mOdcpiTimer.Start();
          } else if !mOdcpiRequest.isEmergencyMode && request.isEmergencyMode {
            callbacks := callbacks + [request];
            mOdcpiRequestActive := true;
            if mOdcpiTimer.IsActive() {
              mOdcpiTimer.Restart();
            } else {
              mOdcpiTimer.Start();
            }
          } else if !mOdcpiRequestActive && mOdcpiTimer.IsActive() {
            mOdcpiRequestActive := true;
          }
          mOdcpiRequest := request;
        } else {
          mOdcpiRequestActive := false;
        }
      }
    }

    /** Tells whether it called a callback that is null. */
    method OdcpiTimerExpire() returns (calledNull: bool)
      modifies this, mOdcpiTimer
      ensures Stepped(TimerExpire) && calledNull == CallsNull(old(Model()), TimerExpire)
    {
      calledNull := false;
      if mOdcpiRequestActive {
        if mOdcpiRequestCb {
          callbacks := callbacks + [mOdcpiRequest];
        } else {
          calledNull := true;
        }
        mOdcpiTimer.Restart();
      } else {
        mOdcpiTimer.Stop();
      }
    }

    method RestartSessions()
      modifies this
      ensures Stepped(ModemRestart)
    {
      mOdcpiRequestActive := false;
    }
  }
}
