/** The tracking multiplexer of gps/gnss/GnssAdapter.cpp: many client sessions share one
    engine, which each command keeps at the smallest interval by looking at the sessions it
    changes and calling the engine only when it must.  An engine call may fail; then the
    engine stays as it was and the command reports the failure.

    The commands take any set of saved sessions and any state of the engine.  Each leaves the
    engine at the smallest interval if and only if it was there before or the command made an
    engine call that succeeded. */
module Tracking {
  import opened Wrappers

  datatype SessionKey = SessionKey(client: int, id: nat)

  /** `size` is 0 in options nobody has set. */
  datatype Options = Options(size: nat, minInterval: nat, mode: int)

  const UNSET := Options(0, 0, 0)

  type Sessions = map<SessionKey, Options>

  datatype LocationError = SUCCESS | CALLBACK_MISSING | INVALID_PARAMETER | GENERAL_FAILURE | NO_SUCH_SESSION

  // ---------- What the engine has to do ----------

  /** `n` is the smallest interval of the sessions. */
  ghost predicate IsSmallest(s: Sessions, n: nat) {
    (exists k :: k in s && s[k].minInterval == n) && forall k :: k in s ==> n <= s[k].minInterval
  }

  /** The engine runs exactly when there is a session, at the smallest interval. */
  ghost predicate Multiplexed(s: Sessions, running: Option<Options>) {
    (running.None? <==> s == map[]) && (running.Some? ==> IsSmallest(s, running.value.minInterval))
  }

  /** No session was saved with unset options. */
  ghost predicate SizesSet(s: Sessions) {
    forall k :: k in s ==> s[k].size != 0
  }

  /** Another session than `key` already needs an interval of at most `n`. */
  ghost predicate OtherAtMost(s: Sessions, key: SessionKey, n: nat) {
    exists k :: k in s && k != key && s[k].minInterval <= n
  }

  /** The smallest interval of the others decides that. */
  lemma OtherAtMostIff(s: Sessions, key: SessionKey, n: nat, others: nat)
    requires IsSmallest(s - {key}, others)
    ensures OtherAtMost(s, key, n) <==> others <= n
  {
    var k :| k in s - {key} && (s - {key})[k].minInterval == others;
    assert s[k].minInterval == others;
    forall x | x in s && x != key ensures others <= s[x].minInterval {
      assert x in s - {key} && (s - {key})[x] == s[x];
    }
  }

  /** `o` holds the options of a session with the smallest interval, or is unset without one. */
  ghost predicate SmallestOf(s: Sessions, o: Options) {
    if s == map[] then o.size == 0
    else o in s.Values && forall k :: k in s ==> o.minInterval <= s[k].minInterval
  }

  lemma SmallestIsUnique(s: Sessions, m: nat, n: nat)
    requires IsSmallest(s, m) && IsSmallest(s, n)
    ensures m == n
  {
  }

  lemma SmallestOfIsSmallest(s: Sessions, o: Options)
    requires SmallestOf(s, o) && s != map[]
    ensures IsSmallest(s, o.minInterval)
  {
    var k :| k in s && s[k] == o;
  }

  function Min(a: nat, b: nat): nat {
    if a < b then a else b
  }

  /** A session beside others, of which `others` is the smallest interval. */
  lemma JoinedSmallest(s: Sessions, key: SessionKey, o: Options, others: nat)
    requires IsSmallest(s - {key}, others)
    ensures IsSmallest(s[key := o], Min(o.minInterval, others))
  {
    var k :| k in s - {key} && (s - {key})[k].minInterval == others;
    var t := s[key := o];
    assert t[k].minInterval == others && t[key] == o;
    forall x | x in t ensures Min(o.minInterval, others) <= t[x].minInterval {
      assert x != key ==> x in s - {key} && t[x] == (s - {key})[x];
    }
  }

  /** Where the smallest interval is the same, the engine serves both or neither. */
  lemma SameSmallest(s: Sessions, t: Sessions, n: nat, running: Option<Options>)
    requires IsSmallest(s, n) && IsSmallest(t, n)
    ensures Multiplexed(s, running) <==> Multiplexed(t, running)
  {
  }

  /** A new session that does not ask for less than the others changes nothing for the engine. */
  lemma StartKeepsSmallest(s: Sessions, key: SessionKey, o: Options, others: nat, running: Option<Options>)
    requires key !in s && IsSmallest(s, others) && others <= o.minInterval
    ensures Multiplexed(s[key := o], running) <==> Multiplexed(s, running)
  {
    assert s - {key} == s;
    JoinedSmallest(s, key, o, others);
    SameSmallest(s, s[key := o], others, running);
  }

  /** Neither does a change of a session that did not have and does not get the smallest. */
  lemma UpdateKeepsSmallest(s: Sessions, key: SessionKey, o: Options, others: nat, running: Option<Options>)
    requires key in s && IsSmallest(s - {key}, others)
    requires others <= o.minInterval && others <= s[key].minInterval
    ensures Multiplexed(s[key := o], running) <==> Multiplexed(s, running)
  {
    assert s[key := s[key]] == s;
    JoinedSmallest(s, key, s[key], others);
    JoinedSmallest(s, key, o, others);
    SameSmallest(s, s[key := o], others, running);
  }

  /** Nor does the end of a session unless it alone had the smallest interval. */
  lemma StopKeepsSmallest(s: Sessions, key: SessionKey, others: nat, running: Option<Options>)
    requires key in s && IsSmallest(s - {key}, others) && others <= s[key].minInterval
    ensures Multiplexed(s - {key}, running) <==> Multiplexed(s, running)
  {
    assert s[key := s[key]] == s;
    JoinedSmallest(s, key, s[key], others);
    SameSmallest(s, s - {key}, others, running);
  }

  lemma OnlySession(s: Sessions, key: SessionKey)
    requires |s| == 1 && key in s
    ensures s - {key} == map[] && s == map[key := s[key]]
  {
    assert |s.Keys - {key}| == 0;
    assert s.Keys == {key};
  }

  lemma OnlySessionIsSmallest(s: Sessions, key: SessionKey, o: Options)
    requires |s| == 1 && key in s
    ensures Multiplexed(s[key := o], Some(o)) && forall n :: !OtherAtMost(s, key, n)
  {
    OnlySession(s, key);
    var t := s[key := o];
    assert t == map[key := o] && t[key].minInterval == o.minInterval;
  }

  lemma SmallestIsMultiplexed(s: Sessions, o: Options)
    requires IsSmallest(s, o.minInterval)
    ensures Multiplexed(s, Some(o))
  {
  }

  lemma OtherSession(s: Sessions, key: SessionKey)
    requires |s| != 1 && key in s
    ensures s - {key} != map[]
  {
    assert |s| == |s.Keys|;
    assert (s - {key}).Keys == s.Keys - {key};
    assert |s.Keys - {key}| == |s.Keys| - 1;
  }

  /** Only the interval is looked after: two sessions of the same interval, the older one
      stopped, and the engine keeps the mode of the session that is gone. */
  lemma ModeMayBeStale()
    ensures exists s: Sessions, key, o ::
      && key in s && Multiplexed(s, Some(o)) && |s| != 1
      && (forall k :: k in s - {key} ==> !(s[key].minInterval < s[k].minInterval))  // so no engine call
      && Multiplexed(s - {key}, Some(o)) && o !in (s - {key}).Values
  {
    var a, b := SessionKey(1, 1), SessionKey(2, 2);
    var oa, ob := Options(1, 1000, 0), Options(1, 1000, 1);
    var s: Sessions := map[a := oa, b := ob];
    assert s[a].minInterval == 1000;
    assert s - {a} == map[b := ob];
    assert (s - {a})[b].minInterval == 1000;
    assert Multiplexed(s, Some(oa)) && Multiplexed(s - {a}, Some(oa));
    assert s.Keys == {a, b} && |s| == |s.Keys| == 2;
  }

  // ---------- The engine ----------

  datatype Call = StartFix(o: Options, ok: bool) | StopFix(ok: bool)

  class LocApi {
    var running: Option<Options>
    var calls: seq<Call>

    constructor ()
      ensures running == None && calls == []
    {
      running, calls := None, [];
    }

    method Start(o: Options) returns (ok: bool)
      modifies this
      ensures calls == old(calls) + [StartFix(o, ok)]
      ensures running == if ok then Some(o) else old(running)
    {
      ok := *;
      if ok {
        running := Some(o);
      }
      calls := calls + [StartFix(o, ok)];
    }

    method Stop() returns (ok: bool)
      modifies this
      ensures calls == old(calls) + [StopFix(ok)]
      ensures running == if ok then None else old(running)
    {
      ok := *;
      if ok {
        running := None;
      }
      calls := calls + [StopFix(ok)];
    }
  }

  /** A command made no call and succeeded, or one call and succeeded if that did. */
  predicate AtMostOneCall(before: seq<Call>, after: seq<Call>, err: LocationError) {
    || (after == before && err == SUCCESS)
    || (|after| == |before| + 1 && after[..|before|] == before && after[|before|].ok == (err == SUCCESS))
  }

  /** What a call leaves running: the options of a start that succeeded, nothing after a stop
      that succeeded, and what ran before when it failed. */
  function RunningAfter(running: Option<Options>, c: Call): Option<Options> {
    if !c.ok then running else if c.StartFix? then Some(c.o) else None
  }

  /** One of the calls made since `before` succeeded. */
  ghost predicate Helped(before: seq<Call>, after: seq<Call>) {
    exists i :: |before| <= i < |after| && after[i].ok
  }

  /** A call for session `key` to have options `o` beside the others: a start with `o` where that is the
      smallest, and otherwise with the smallest of the others. */
  ghost predicate RestartsFor(s: Sessions, key: SessionKey, o: Options, c: Call) {
    c.StartFix? && if OtherAtMost(s, key, o.minInterval) then SmallestOf(s - {key}, c.o) else c.o == o
  }

  /** A call for the end of a session: a stop if there are no others, and otherwise a start
      with the smallest of them. */
  ghost predicate StopsFor(others: Sessions, c: Call) {
    if others == map[] then c.StopFix? else c.StartFix? && SmallestOf(others, c.o)
  }

  /** How many of the calls failed. */
  function Failures(calls: seq<Call>): nat {
    if calls == [] then 0 else Failures(calls[..|calls| - 1]) + if calls[|calls| - 1].ok then 0 else 1
  }

  function SessionsOf(s: Sessions, client: int): set<SessionKey> {
    set k | k in s && k.client == client
  }

  // ---------- The adapter ----------

  class GnssAdapter {
    const engine: LocApi
    var mTrackingSessions: Sessions

    ghost predicate Valid()
      reads this
    {
      SizesSet(mTrackingSessions)
    }

    /** The engine runs as the sessions need it. */
    ghost predicate Served()
      reads this, engine
    {
      Multiplexed(mTrackingSessions, engine.running)
    }

    /** Calls were only added, and the engine serves the sessions exactly when it did before
        or one of the new calls succeeded. */
    twostate predicate ServedIffHelped()
      reads this, engine
    {
      && old(engine.calls) <= engine.calls
      && (Served() <==> old(Served()) || Helped(old(engine.calls), engine.calls))
    }

    constructor ()
      ensures Valid() && Served() && fresh(engine) && mTrackingSessions == map[]
    {
      engine := new LocApi();
      mTrackingSessions := map[];
    }

    /** The smallest options of the sessions other than `key`, found as the source finds them:
        options of size 0 stand for none yet. */
    method SmallestInterval(key: Option<SessionKey>) returns (smallest: Options)
      requires Valid()
      ensures SmallestOf(if key.None? then mTrackingSessions else mTrackingSessions - {key.value}, smallest)
    {
      smallest := UNSET;
      ghost var others := if key.None? then mTrackingSessions else mTrackingSessions - {key.value};
      var left := mTrackingSessions.Keys;
      while left != {}
        invariant left <= mTrackingSessions.Keys
        invariant smallest.size == 0 ==> forall k :: k in others ==> k in left
        invariant smallest.size != 0 ==> smallest in others.Values
        invariant smallest.size != 0 ==>
          forall k :: k in others && k !in left ==> smallest.minInterval <= others[k].minInterval
      {
        var k :| k in left;
        left := left - {k};
        var o := mTrackingSessions[k];
        if Some(k) != key && (smallest.size == 0 || o.minInterval < smallest.minInterval) {
          assert k in others && others[k] == o;
          smallest := o;
        }
      }
    }

    method StartTracking(o: Options) returns (err: LocationError)
      modifies engine
      ensures err == SUCCESS || err == GENERAL_FAILURE
      ensures engine.calls == old(engine.calls) + [StartFix(o, err == SUCCESS)]
      ensures engine.running == if err == SUCCESS then Some(o) else old(engine.running)
    {
      var ok := engine.Start(o);
      err := if ok then SUCCESS else GENERAL_FAILURE;
    }

    method StopTracking() returns (err: LocationError)
      modifies engine
      ensures err == SUCCESS || err == GENERAL_FAILURE
      ensures engine.calls == old(engine.calls) + [StopFix(err == SUCCESS)]
      ensures engine.running == if err == SUCCESS then None else old(engine.running)
    {
      var ok := engine.Stop();
      err := if ok then SUCCESS else GENERAL_FAILURE;
    }

    /** The engine was not called and the command succeeds, or it was called once, runs what
        that call left, and the command reports a failure of it as a general failure. */
    twostate predicate EngineAnswered(err: LocationError)
      reads engine
    {
      && (err == SUCCESS || err == GENERAL_FAILURE)
      && AtMostOneCall(old(engine.calls), engine.calls, err)
      && engine.running == if engine.calls == old(engine.calls) then old(engine.running)
                           else RunningAfter(old(engine.running), engine.calls[|old(engine.calls)|])
    }

    /** What a multiplex function did so that the sessions can become `s`: at most one call.
        With the call the engine serves them; without it, exactly if it served those it has;
        and a call that failed left the engine as it was. */
    twostate predicate Prepared(s: Sessions, err: LocationError)
      reads this, engine
    {
      && EngineAnswered(err)
      && (err == SUCCESS ==>
            (Multiplexed(s, engine.running) <==> old(Served()) || engine.calls != old(engine.calls)))
      && (err != SUCCESS ==> engine.running == old(engine.running))
    }

    /** Makes room for a session with options `o` that is not saved yet. */
    method StartTrackingMultiplex(key: SessionKey, o: Options) returns (err: LocationError)
      requires Valid() && key !in mTrackingSessions && o.size != 0
      modifies engine
      ensures Prepared(mTrackingSessions[key := o], err)
      ensures engine.calls == old(engine.calls) <==> OtherAtMost(mTrackingSessions, key, o.minInterval)
      ensures engine.calls != old(engine.calls) ==> engine.calls == old(engine.calls) + [StartFix(o, err == SUCCESS)]
    {
      err := SUCCESS;
      if mTrackingSessions == map[] {
        err := StartTracking(o);
        assert (map[key := o])[key].minInterval == o.minInterval;
      } else {
        var smallest := SmallestInterval(None);
        SmallestOfIsSmallest(mTrackingSessions, smallest);
        assert mTrackingSessions - {key} == mTrackingSessions;
        OtherAtMostIff(mTrackingSessions, key, o.minInterval, smallest.minInterval);
        if o.minInterval < smallest.minInterval {
          JoinedSmallest(mTrackingSessions, key, o, smallest.minInterval);
          err := StartTracking(o);
        } else {
          StartKeepsSmallest(mTrackingSessions, key, o, smallest.minInterval, engine.running);
        }
      }
    }

    /** A start command: `key` carries the fresh id `generateSessionId` gave it. */
    method MsgStartTracking(hasCallback: bool, key: SessionKey, o: Options) returns (err: LocationError)
      requires Valid() && key !in mTrackingSessions
      modifies this, engine
      ensures Valid() && ServedIffHelped()
      ensures err == CALLBACK_MISSING <==> !hasCallback
      ensures err == INVALID_PARAMETER <==> hasCallback && o.size == 0
      ensures hasCallback && o.size != 0 ==>
        && EngineAnswered(err)
        && (engine.calls == old(engine.calls) <==> OtherAtMost(old(mTrackingSessions), key, o.minInterval))
        && (engine.calls != old(engine.calls) ==> engine.calls[|old(engine.calls)|] == StartFix(o, err == SUCCESS))
      ensures !hasCallback || o.size == 0 ==> engine.calls == old(engine.calls)
      ensures mTrackingSessions == if err == SUCCESS then old(mTrackingSessions)[key := o] else old(mTrackingSessions)
      ensures err != SUCCESS ==> engine.running == old(engine.running)
    {
      err := SUCCESS;
      if !hasCallback {
        err := CALLBACK_MISSING;
      } else if o.size == 0 {
        err := INVALID_PARAMETER;
      } else {
        err := StartTrackingMultiplex(key, o);
        if err == SUCCESS {
          mTrackingSessions := mTrackingSessions[key := o];
        }
      }
    }

    /** Makes room for new options of a session that exists. */
    method UpdateTrackingMultiplex(key: SessionKey, o: Options) returns (err: LocationError)
      requires Valid() && key in mTrackingSessions && o.size != 0
      modifies engine
      ensures Prepared(mTrackingSessions[key := o], err)
      ensures engine.calls == old(engine.calls) <==>
        OtherAtMost(mTrackingSessions, key, Min(o.minInterval, mTrackingSessions[key].minInterval))
      ensures engine.calls != old(engine.calls) ==>
        RestartsFor(mTrackingSessions, key, o, engine.calls[|old(engine.calls)|])
    {
      err := SUCCESS;
      if |mTrackingSessions| == 1 {
        OnlySessionIsSmallest(mTrackingSessions, key, o);
        err := StartTracking(o);
      } else {
        OtherSession(mTrackingSessions, key);
        var smallest := SmallestInterval(Some(key));
        SmallestOfIsSmallest(mTrackingSessions - {key}, smallest);
        JoinedSmallest(mTrackingSessions, key, o, smallest.minInterval);
        ghost var least := Min(o.minInterval, mTrackingSessions[key].minInterval);
        OtherAtMostIff(mTrackingSessions, key, least, smallest.minInterval);
        OtherAtMostIff(mTrackingSessions, key, o.minInterval, smallest.minInterval);
        if o.minInterval < smallest.minInterval {
          SmallestIsMultiplexed(mTrackingSessions[key := o], o);
          err := StartTracking(o);
        } else if mTrackingSessions[key].minInterval < smallest.minInterval {
          SmallestIsMultiplexed(mTrackingSessions[key := o], smallest);
          err := StartTracking(smallest);
        } else {
          UpdateKeepsSmallest(mTrackingSessions, key, o, smallest.minInterval, engine.running);
        }
      }
    }

    method MsgUpdateTracking(key: SessionKey, o: Options) returns (err: LocationError)
      requires Valid()
      modifies this, engine
      ensures Valid() && ServedIffHelped()
      ensures err == NO_SUCH_SESSION <==> key !in old(mTrackingSessions)
      ensures err == INVALID_PARAMETER <==> key in old(mTrackingSessions) && o.size == 0
      ensures key in old(mTrackingSessions) && o.size != 0 ==>
        && EngineAnswered(err)
        && (engine.calls == old(engine.calls) <==>
              OtherAtMost(old(mTrackingSessions), key, Min(o.minInterval, old(mTrackingSessions)[key].minInterval)))
        && (engine.calls != old(engine.calls) ==>
              RestartsFor(old(mTrackingSessions), key, o, engine.calls[|old(engine.calls)|]))
      ensures key !in old(mTrackingSessions) || o.size == 0 ==> engine.calls == old(engine.calls)
      ensures mTrackingSessions == if err == SUCCESS then old(mTrackingSessions)[key := o] else old(mTrackingSessions)
      ensures err != SUCCESS ==> engine.running == old(engine.running)
    {
      err := NO_SUCH_SESSION;
      if key in mTrackingSessions {
        if o.size == 0 {
          err := INVALID_PARAMETER;
        } else {
          err := UpdateTrackingMultiplex(key, o);
          if err == SUCCESS {
            mTrackingSessions := mTrackingSessions[key := o];
          }
        }
      }
    }

    /** Prepares the engine for the end of a session. */
    method StopTrackingMultiplex(key: SessionKey) returns (err: LocationError)
      requires Valid() && key in mTrackingSessions
      modifies engine
      ensures Prepared(mTrackingSessions - {key}, err)
      ensures engine.calls == old(engine.calls) <==>
        OtherAtMost(mTrackingSessions, key, mTrackingSessions[key].minInterval)
      ensures engine.calls != old(engine.calls) ==>
        StopsFor(mTrackingSessions - {key}, engine.calls[|old(engine.calls)|])
    {
      err := SUCCESS;
      if |mTrackingSessions| == 1 {
        OnlySession(mTrackingSessions, key);
        err := StopTracking();
      } else {
        OtherSession(mTrackingSessions, key);
        var smallest := SmallestInterval(Some(key));
        SmallestOfIsSmallest(mTrackingSessions - {key}, smallest);
        OtherAtMostIff(mTrackingSessions, key, mTrackingSessions[key].minInterval, smallest.minInterval);
        if mTrackingSessions[key].minInterval < smallest.minInterval {
          err := StartTracking(smallest);
        } else {
          StopKeepsSmallest(mTrackingSessions, key, smallest.minInterval, engine.running);
        }
      }
    }

    /** Ends a session if the engine can be prepared for it. */
    method EndSession(key: SessionKey) returns (err: LocationError)
      requires Valid() && key in mTrackingSessions
      modifies this, engine
      ensures Valid() && ServedIffHelped() && err != NO_SUCH_SESSION
      ensures mTrackingSessions == if err == SUCCESS then old(mTrackingSessions) - {key} else old(mTrackingSessions)
      ensures err != SUCCESS ==> engine.running == old(engine.running)
      ensures EngineAnswered(err)
      ensures engine.calls == old(engine.calls) <==>
        OtherAtMost(old(mTrackingSessions), key, old(mTrackingSessions)[key].minInterval)
      ensures engine.calls != old(engine.calls) ==>
        StopsFor(old(mTrackingSessions) - {key}, engine.calls[|old(engine.calls)|])
    {
      err := StopTrackingMultiplex(key);
      if err == SUCCESS {
        mTrackingSessions := mTrackingSessions - {key};
      }
    }

    method MsgStopTracking(key: SessionKey) returns (err: LocationError)
      requires Valid()
      modifies this, engine
      ensures Valid() && ServedIffHelped()
      ensures err == NO_SUCH_SESSION <==> key !in old(mTrackingSessions)
      ensures key in old(mTrackingSessions) ==>
        && EngineAnswered(err)
        && (engine.calls == old(engine.calls) <==>
              OtherAtMost(old(mTrackingSessions), key, old(mTrackingSessions)[key].minInterval))
        && (engine.calls != old(engine.calls) ==>
              StopsFor(old(mTrackingSessions) - {key}, engine.calls[|old(engine.calls)|]))
      ensures key !in old(mTrackingSessions) ==> engine.calls == old(engine.calls)
      ensures mTrackingSessions == if err == SUCCESS then old(mTrackingSessions) - {key} else old(mTrackingSessions)
      ensures err != SUCCESS ==> engine.running == old(engine.running)
    {
      err := NO_SUCH_SESSION;
      if key in mTrackingSessions {
        err := EndSession(key);
      }
    }

    /** Stops the sessions of a client that goes away: all of them, but for one to each engine
        call that failed.  Sessions of others are not touched. */
    method StopClientSessions(client: int)
      requires Valid()
      modifies this, engine
      ensures Valid() && ServedIffHelped()
      ensures mTrackingSessions == old(mTrackingSessions) -
                (SessionsOf(old(mTrackingSessions), client) - SessionsOf(mTrackingSessions, client))
      ensures |SessionsOf(mTrackingSessions, client)| == Failures(engine.calls[|old(engine.calls)|..])
    {
      ghost var all, first, served := mTrackingSessions, engine.calls, Served();
      var left := mTrackingSessions.Keys;
      ghost var ended: set<SessionKey>, kept: set<SessionKey> := {}, {};
      while left != {}
        invariant Valid() && first <= engine.calls
        invariant Served() <==> served || Helped(first, engine.calls)
        invariant mTrackingSessions == all - ended && left <= all.Keys
        invariant ended <= SessionsOf(all, client) && ended !! left
        invariant kept == SessionsOf(all, client) - left - ended && |kept| == Failures(engine.calls[|first|..])
      {
        var k :| k in left;
        KeptGrows(SessionsOf(all, client), left, ended, kept, k);
        EndedGrows(all, ended, k);
        left := left - {k};
        if k.client == client {
          ghost var calls := engine.calls;
          var err := EndSession(k);
          OneMoreCall(first, calls, engine.calls, err);
          if err == SUCCESS {
            ended := ended + {k};
          } else {
            kept := kept + {k};
          }
        }
      }
      EndedAreOwn(all, ended, client);
    }

    /** The engine came up again after a modem restart.  Its answer is not looked at: the
        sessions are served when the call succeeded or the engine served them already. */
    method RestartSessions()
      requires Valid()
      modifies engine
      ensures ServedIffHelped()
      ensures mTrackingSessions == map[] ==> engine.calls == old(engine.calls) && engine.running == old(engine.running)
      ensures mTrackingSessions != map[] ==>
        && |engine.calls| == |old(engine.calls)| + 1
        && engine.calls[|old(engine.calls)|].StartFix? && SmallestOf(mTrackingSessions, engine.calls[|old(engine.calls)|].o)
        && engine.running == RunningAfter(old(engine.running), engine.calls[|old(engine.calls)|])
    {
      if mTrackingSessions == map[] {
        return;
      }
      var smallest := SmallestInterval(None);
      SmallestOfIsSmallest(mTrackingSessions, smallest);
      var ok := engine.Start(smallest);
    }
  }

  lemma OneMoreCall(first: seq<Call>, before: seq<Call>, after: seq<Call>, err: LocationError)
    requires first <= before && AtMostOneCall(before, after, err)
    ensures first <= after
    ensures Failures(after[|first|..]) == Failures(before[|first|..]) + if err == SUCCESS then 0 else 1
    ensures Helped(first, after) <==> Helped(first, before) || Helped(before, after)
  {
    if after != before {
      assert after == before + [after[|before|]];
      assert after[|first|..] == before[|first|..] + [after[|before|]];
    }
    forall i | |first| <= i < |before| ensures before[i] == after[i] {}
  }

  lemma KeptGrows(own: set<SessionKey>, left: set<SessionKey>, ended: set<SessionKey>, kept: set<SessionKey>, k: SessionKey)
    requires kept == own - left - ended && k in left && ended !! left
    ensures k in own ==> own - (left - {k}) - ended == kept + {k} && k !in kept
    ensures k in own ==> own - (left - {k}) - (ended + {k}) == kept
    ensures k !in own ==> own - (left - {k}) - ended == kept
  {
  }

  lemma EndedGrows(all: Sessions, ended: set<SessionKey>, k: SessionKey)
    ensures all - ended - {k} == all - (ended + {k})
  {
  }

  /** What is left of a client's sessions, and of all sessions, when `ended` ended. */
  lemma EndedAreOwn(all: Sessions, ended: set<SessionKey>, client: int)
    requires ended <= SessionsOf(all, client)
    ensures SessionsOf(all - ended, client) == SessionsOf(all, client) - {} - ended
    ensures SessionsOf(all, client) - SessionsOf(all - ended, client) == ended
  {
  }
}
