/** The adapter object that multiplexes tracking sessions onto the engine. Every engine call is taken
    to be accepted; its callback comes later, as a call of EngineCallback or DistanceCallback. */
module TrackingMultiplexer {
  import opened TrackingModel

  /** Options before any session was looked at. */
  const NO_OPTIONS := Options(0, 0, 0, 0, 0)
  const GNSS_POWER_MODE_M2 := 2
  const GNSS_POWER_MODE_M4 := 4

  lemma SingletonKeys(m: map<Key, Options>, k: Key)
    requires k in m
    ensures |m| == 1 <==> m.Keys == {k}
  {
    assert |m.Keys - {k}| == |m.Keys| - 1;
    if |m| == 1 {
      assert m.Keys - {k} == {};
    }
  }

  /** The smallest interval after an update, from that of the other sessions. */
  lemma NeedsAfterUpdate(sessions: map<Key, Options>, k: Key, o: Options, found: bool, ofOthers: nat)
    requires k in sessions && (found <==> sessions.Keys - {k} != {})
    requires found ==> IsMinInterval(sessions - {k}, ofOthers)
    ensures IsMinInterval(sessions[k := o], if found && ofOthers < o.minInterval then ofOthers else o.minInterval)
    ensures !found ==> sessions.Keys == {k} && sessions - {k} == map[]
    ensures found ==> sessions - {k} != map[]
    ensures found ==> (o.minInterval < ofOthers <==>
      forall j :: j in sessions && j != k ==> o.minInterval < sessions[j].minInterval)
  {
    var others, updated := sessions - {k}, sessions[k := o];
    assert k in updated && forall j :: j in others ==> j in updated && updated[j] == others[j];
    assert forall j :: j in updated && j != k ==> j in others && updated[j] == others[j];
    assert forall j :: j in sessions && j != k ==> j in others && others[j] == sessions[j];
    if found {
      var j :| j in sessions.Keys - {k};
      assert j in others;
    } else {
      assert sessions.Keys == {k};
      assert others == map[];
    }
  }

  class Multiplexer {
    const minTracking: nat
    const tbmThreshold: nat
    const distanceSupported: bool
    var mTimeBasedTrackingSessions: map<Key, Options>
    var mDistanceBasedTrackingSessions: map<Key, Options>
    var distanceCalls: seq<DistanceCall>
    var mNHzNeeded: bool
    var mSPEAlreadyRunningAtHighestInterval: bool
    var engine: Engine
    var responses: seq<Key>
    var awaiting: multiset<Key>

    function View(): Mux
      reads this
    {
      Mux(mTimeBasedTrackingSessions, mDistanceBasedTrackingSessions, distanceCalls, mNHzNeeded,
          mSPEAlreadyRunningAtHighestInterval, engine, responses, awaiting)
    }

    constructor (minTracking: nat, tbmThreshold: nat, distanceSupported: bool)
      ensures View() == INITIAL_MUX
      ensures this.minTracking == minTracking && this.tbmThreshold == tbmThreshold
      ensures this.distanceSupported == distanceSupported
    {
      this.minTracking, this.tbmThreshold, this.distanceSupported := minTracking, tbmThreshold, distanceSupported;
      mTimeBasedTrackingSessions, mDistanceBasedTrackingSessions, distanceCalls := map[], map[], [];
      mNHzNeeded, mSPEAlreadyRunningAtHighestInterval := false, false;
      engine, responses, awaiting := Stopped, [], multiset{};
    }

    // -------------------------------------------------------------- engine calls

    method CheckAndSetSPEToRunForNHz(o: Options) returns (alreadyRunning: bool, out: Options)
      modifies this`mSPEAlreadyRunningAtHighestInterval
      ensures alreadyRunning == (mNHzNeeded && old(mSPEAlreadyRunningAtHighestInterval))
      ensures out.minInterval ==
        if mNHzNeeded && !alreadyRunning && o.minInterval > minTracking then minTracking else o.minInterval
      ensures mSPEAlreadyRunningAtHighestInterval ==
        (old(mSPEAlreadyRunningAtHighestInterval) || (mNHzNeeded && o.minInterval > minTracking))
    {
      alreadyRunning, out := false, o;
      if !mNHzNeeded {
      } else if mSPEAlreadyRunningAtHighestInterval {
        alreadyRunning := true;
      } else if out.minInterval > minTracking {
        out := out.(minInterval := minTracking);
        mSPEAlreadyRunningAtHighestInterval := true;
      }
    }

    method ReportResponse(k: Key)
      modifies this`responses
      ensures responses == old(responses) + [k]
    {
      responses := responses + [k];
    }

    /** Also the engine part of an update: the two differ only in what a failed call restores. */
    method StartTimeBasedTracking(k: Key, o: Options)
      modifies this
      ensures EngineStart(minTracking, old(View()), o.minInterval, Client(k), View())
    {
      var alreadyRunning, out := CheckAndSetSPEToRunForNHz(o);
      if !alreadyRunning {
        engine := Running(out);
        awaiting := awaiting + multiset{k};
      } else {
        ReportResponse(k);
      }
    }

    method StopTracking(k: Key)
      modifies this
      ensures View() == old(View()).(engine := Stopped, alreadyHighest := false,
                                     awaiting := old(awaiting) + multiset{k})
    {
      engine := Stopped;
      awaiting := awaiting + multiset{k};
      mSPEAlreadyRunningAtHighestInterval := false;
    }

    // -------------------------------------------------------------- multiplexing

    method StartTimeBasedTrackingMultiplex(k: Key, o: Options) returns (reportNow: bool)
      modifies this
      ensures mTimeBasedTrackingSessions == old(mTimeBasedTrackingSessions)
      ensures StartCall(minTracking, old(View()), k, o, if reportNow then Answered(old(View()), k) else View())
      ensures reportNow ==> View() == old(View())
    {
      reportNow := true;
      ghost var s := View();
      if mTimeBasedTrackingSessions == map[] {
        StartTimeBasedTracking(k, o);
        reportNow := false;
        assert StartWith(minTracking, s, k, o, o.minInterval, 0, 0, View());
      } else {
        var muxed, power := FindNeeds();
        ghost var quality := muxed.quality;
        ghost var calls := StartCalls(s.sessions, o, power, quality);
        ghost var j :| j in s.sessions && s.sessions[j].minInterval == muxed.minInterval;
        assert o.minInterval < muxed.minInterval <==>
          forall i :: i in s.sessions ==> o.minInterval < s.sessions[i].minInterval;
        var updateOptions := false;
        if o.minInterval < muxed.minInterval {
          muxed, updateOptions := muxed.(minInterval := o.minInterval), true;
        }
        if o.powerMode < power {
          muxed, updateOptions := muxed.(powerMode := o.powerMode), true;
        }
        if o.quality > muxed.quality {
          muxed, updateOptions := muxed.(quality := o.quality), true;
        }
        assert IsMinWith(s.sessions, o.minInterval, muxed.minInterval) && updateOptions == calls;
        if updateOptions {
          StartTimeBasedTracking(k, muxed);
          reportNow := false;
        }
        ghost var mid := if reportNow then Answered(s, k) else View();
        assert StartWith(minTracking, s, k, o, muxed.minInterval, power, quality, mid);
      }
    }

    /** The smallest interval, the power mode and the quality of all sessions. */
    method FindNeeds() returns (muxed: Options, power: int)
      requires mTimeBasedTrackingSessions != map[]
      ensures IsMinInterval(mTimeBasedTrackingSessions, muxed.minInterval)
      ensures IsLowestMode(mTimeBasedTrackingSessions, power)
      ensures IsSomeQuality(mTimeBasedTrackingSessions, muxed.quality)
    {
      muxed, power := NO_OPTIONS, GNSS_POWER_MODE_INVALID;
      var found := false;
      ghost var all := mTimeBasedTrackingSessions;
      var left := mTimeBasedTrackingSessions.Keys;
      while left != {}
        invariant left <= all.Keys
        invariant !found ==> left == all.Keys && power == GNSS_POWER_MODE_INVALID
        invariant found ==> exists j :: j in all && all[j].minInterval == muxed.minInterval
        invariant found ==> exists j :: j in all && all[j].powerMode == power
        invariant found ==> IsSomeQuality(all, muxed.quality)
        invariant forall j :: j in all && j !in left ==> muxed.minInterval <= all[j].minInterval
        invariant AllModesValid(all) ==> forall j :: j in all && j !in left ==> power <= all[j].powerMode
        decreases left
      {
        var j :| j in left;
        var it := mTimeBasedTrackingSessions[j];
        left := left - {j};
        if !found || it.minInterval < muxed.minInterval {
          muxed := it;
        }
        if power == GNSS_POWER_MODE_INVALID || it.powerMode < power {
          power := it.powerMode;
        }
        if it.quality > muxed.quality {
          muxed := muxed.(quality := it.quality);
        }
        found := true;
      }
    }

    /** The smallest interval and the power mode of the sessions other than k. */
    method FindOthers(k: Key) returns (found: bool, muxed: Options, power: int)
      ensures found <==> mTimeBasedTrackingSessions.Keys - {k} != {}
      ensures found ==> IsMinInterval(mTimeBasedTrackingSessions - {k}, muxed.minInterval)
      ensures found ==> IsLowestMode(mTimeBasedTrackingSessions - {k}, power)
      ensures !found ==> muxed == NO_OPTIONS && power == GNSS_POWER_MODE_INVALID
    {
      found, muxed, power := false, NO_OPTIONS, GNSS_POWER_MODE_INVALID;
      ghost var others := mTimeBasedTrackingSessions - {k};
      var left := mTimeBasedTrackingSessions.Keys;
      ghost var seen := {};
      while left != {}
        invariant left + seen == mTimeBasedTrackingSessions.Keys && left !! seen
        invariant found <==> seen - {k} != {}
        invariant !found ==> muxed == NO_OPTIONS && power == GNSS_POWER_MODE_INVALID
        invariant found ==> exists j :: j in others && others[j].minInterval == muxed.minInterval
        invariant found ==> exists j :: j in others && others[j].powerMode == power
        invariant forall j :: j in others && j in seen ==> found && muxed.minInterval <= others[j].minInterval
        invariant AllModesValid(others) ==> forall j :: j in others && j in seen ==> power <= others[j].powerMode
        decreases left
      {
        var j :| j in left;
        var it := mTimeBasedTrackingSessions[j];
        left, seen := left - {j}, seen + {j};
        if j != k {
          assert j in others && others[j] == it;
          if !found || it.minInterval < muxed.minInterval {
            muxed, found := it, true;
          }
          if power == GNSS_POWER_MODE_INVALID || it.powerMode < power {
            power := it.powerMode;
          }
        }
      }
    }

    method UpdateTrackingMultiplex(k: Key, o: Options) returns (reportNow: bool)
      requires k in mTimeBasedTrackingSessions
      modifies this
      ensures mTimeBasedTrackingSessions == old(mTimeBasedTrackingSessions)
      ensures UpdateCall(minTracking, old(View()), k, o, if reportNow then Answered(old(View()), k) else View())
      ensures reportNow ==> View() == old(View())
    {
      reportNow := true;
      ghost var s := View();
      var old0 := mTimeBasedTrackingSessions[k];
      var found, muxed, power := FindOthers(k);
      SingletonKeys(mTimeBasedTrackingSessions, k);
      ghost var t := if found && muxed.minInterval < o.minInterval then muxed.minInterval else o.minInterval;
      ghost var lowest := power;
      NeedsAfterUpdate(s.sessions, k, o, found, muxed.minInterval);
      if old0.minInterval != o.minInterval || old0.powerMode != o.powerMode {
        var updateOptions := false;
        if o.minInterval < muxed.minInterval {
          muxed, updateOptions := muxed.(minInterval := o.minInterval), true;
        }
        if o.powerMode < power {
          muxed, updateOptions := muxed.(powerMode := o.powerMode), true;
        }
        if |mTimeBasedTrackingSessions| == 1 {
          muxed, updateOptions := o, true;
        }
        if updateOptions {
          assert muxed.minInterval == t;
          StartTimeBasedTracking(k, muxed);
          reportNow := false;
        }
      }
      assert UpdateWith(minTracking, s, k, o, t, lowest, if reportNow then Answered(s, k) else View());
    }

    method StopTimeBasedTrackingMultiplex(k: Key) returns (reportNow: bool)
      requires k in mTimeBasedTrackingSessions
      modifies this
      ensures mTimeBasedTrackingSessions == old(mTimeBasedTrackingSessions)
      ensures mDistanceBasedTrackingSessions == old(mDistanceBasedTrackingSessions)
      ensures var after := if reportNow then Answered(old(View()), k) else View();
        StopRel(minTracking, old(View()), k, after.(sessions := old(mTimeBasedTrackingSessions) - {k}))
      ensures reportNow ==> View() == old(View())
    {
      reportNow := true;
      ghost var s := View();
      SingletonKeys(mTimeBasedTrackingSessions, k);
      if |mTimeBasedTrackingSessions| == 1 {
        StopTracking(k);
        reportNow := false;
        assert s.sessions - {k} == map[];
      } else {
        var found, muxed, power := FindOthers(k);
        var stopping := mTimeBasedTrackingSessions[k];
        if stopping.minInterval < muxed.minInterval || stopping.powerMode < power {
          muxed := muxed.(powerMode := power);
          StartTimeBasedTracking(k, muxed);
          reportNow := false;
        }
        assert StopWith(minTracking, s, k, muxed.minInterval, power, if reportNow then Answered(s, k) else View());
      }
    }

    // -------------------------------------------------------------- the session maps

    method SaveTrackingSession(k: Key, o: Options)
      modifies this
      ensures View() == Saved(distanceSupported, old(View()), k, o)
    {
      if o.minDistance > 0 && distanceSupported {
        mDistanceBasedTrackingSessions := mDistanceBasedTrackingSessions[k := o];
      } else {
        mTimeBasedTrackingSessions := mTimeBasedTrackingSessions[k := o];
      }
    }

    method EraseTrackingSession(k: Key)
      modifies this
      ensures View() == Erased(old(View()), k)
    {
      if k in mTimeBasedTrackingSessions {
        mTimeBasedTrackingSessions := mTimeBasedTrackingSessions - {k};
      } else {
        mDistanceBasedTrackingSessions := mDistanceBasedTrackingSessions - {k};
      }
    }

    /** A call about a distance-based session. */
    method CallForDistance(c: DistanceCall)
      modifies this
      ensures View() == Calls(old(View()), c)
    {
      distanceCalls := distanceCalls + [c];
    }

    // -------------------------------------------------------------- commands

    /** Never faster than the minimum tracking interval. */
    function Clamped(o: Options): (r: Options)
      ensures r.minInterval >= minTracking && r.minDistance == o.minDistance
      ensures o.minInterval >= minTracking ==> r == o
      ensures o.minInterval < minTracking ==> r.minInterval == minTracking && r.(minInterval := o.minInterval) == o
    {
      if o.minInterval < minTracking then o.(minInterval := minTracking) else o
    }

    /** The options a time-based command works with: a long time between measurements falls back to M2. */
    function Admitted(o: Options): (r: Options)
      ensures r.minInterval >= minTracking && r.minDistance == o.minDistance
      ensures o.minInterval >= minTracking ==> r.minInterval == o.minInterval
      ensures r.powerMode == GNSS_POWER_MODE_M4 ==> r.tbm <= tbmThreshold
      ensures r.powerMode != o.powerMode ==> o.powerMode == GNSS_POWER_MODE_M4 && r.powerMode == GNSS_POWER_MODE_M2
      ensures r.powerMode != o.powerMode ==> o.tbm > tbmThreshold
      ensures r.quality == o.quality && r.tbm == o.tbm
    {
      Clamped(if o.powerMode == GNSS_POWER_MODE_M4 && o.tbm > tbmThreshold
              then o.(powerMode := GNSS_POWER_MODE_M2) else o)
    }

    /** What a start works with: the power mode of a distance-based session is left alone. */
    function Started(o: Options): (r: Options)
      ensures r.minInterval >= minTracking && r.minDistance == o.minDistance
    {
      if o.minDistance > 0 && distanceSupported then Clamped(o) else Admitted(o)
    }

    /** A client without callbacks, or options without a size, are turned away, with no response. */
    method StartTrackingCommand(k: Key, o: Options, hasCallbacks: bool, sizeGiven: bool) returns (accepted: bool)
      modifies this
      ensures accepted == (hasCallbacks && sizeGiven)
      ensures !accepted ==> View() == old(View())
      ensures accepted ==> StepRel(minTracking, distanceSupported, old(View()), Start(k, Started(o)), View())
    {
      accepted := hasCallbacks && sizeGiven;
      if accepted {
        if o.minDistance > 0 && distanceSupported {
          SaveTrackingSession(k, Clamped(o));
          CallForDistance(Starting(k));
        } else {
          StartAndSave(k, Admitted(o));
        }
      }
    }

    /** Multiplexes a time-based session and saves it. */
    method StartAndSave(k: Key, o: Options)
      requires !(o.minDistance > 0 && distanceSupported)
      modifies this
      ensures StartRel(minTracking, old(View()), k, o, View())
    {
      ghost var s := View();
      var reportNow := StartTimeBasedTrackingMultiplex(k, o);
      ghost var mid := if reportNow then Answered(s, k) else View();
      ghost var t: nat, p: int, q: int :| StartWith(minTracking, s, k, o, t, p, q, mid);
      SaveTrackingSession(k, o);
      if reportNow {
        ReportResponse(k);
      }
      assert View() == mid.(sessions := s.sessions[k := o]);
    }

    method UpdateTrackingOptionsCommand(k: Key, o: Options, sizeGiven: bool) returns (accepted: bool)
      modifies this
      ensures accepted ==
        ((k in old(mTimeBasedTrackingSessions) || k in old(mDistanceBasedTrackingSessions)) && sizeGiven)
      ensures !accepted ==> View() == old(View()).(responses := old(responses) + [k])
      ensures accepted ==> StepRel(minTracking, distanceSupported, old(View()), Update(k, Admitted(o)), View())
    {
      var isTimeBased, isDistanceBased := k in mTimeBasedTrackingSessions, k in mDistanceBasedTrackingSessions;
      accepted := (isTimeBased || isDistanceBased) && sizeGiven;
      if !accepted {
        ReportResponse(k);
        return;
      }
      var options := Admitted(o);
      if isTimeBased && options.minDistance > 0 {
        SwitchToDistance(k, options);
      } else if isDistanceBased && options.minDistance == 0 {
        EraseTrackingSession(k);
        CallForDistance(SwitchingToTime(k, options));
      } else if isTimeBased {
        UpdateAndSave(k, options);
      } else {
        CallForDistance(RestartStopping(k, options));
      }
    }

    /** The time-based session is stopped and erased, then saved anew; the answer of the distance call
        that follows is not looked at. */
    method SwitchToDistance(k: Key, o: Options)
      requires k in mTimeBasedTrackingSessions && o.minDistance > 0
      modifies this
      ensures SwitchRel(minTracking, distanceSupported, old(View()), k, o, View())
    {
      ghost var s := View();
      var reportNow := StopTimeBasedTrackingMultiplex(k);
      ghost var after := if reportNow then Answered(s, k) else View();
      ghost var mid := after.(sessions := s.sessions - {k});
      EraseTrackingSession(k);
      if reportNow {
        ReportResponse(k);
      }
      assert View() == mid;
      SaveTrackingSession(k, o);
    }

    method UpdateAndSave(k: Key, o: Options)
      requires k in mTimeBasedTrackingSessions && o.minDistance == 0
      modifies this
      ensures UpdateRel(minTracking, old(View()), k, o, View())
    {
      ghost var s := View();
      var reportNow := UpdateTrackingMultiplex(k, o);
      ghost var mid := if reportNow then Answered(s, k) else View();
      ghost var t: nat, p: int :| UpdateWith(minTracking, s, k, o, t, p, mid);
      SaveTrackingSession(k, o);
      if reportNow {
        ReportResponse(k);
      }
      assert View() == mid.(sessions := s.sessions[k := o]);
    }

    method StopTrackingCommand(k: Key) returns (accepted: bool)
      modifies this
      ensures accepted == (k in old(mTimeBasedTrackingSessions) || k in old(mDistanceBasedTrackingSessions))
      ensures !accepted ==> View() == old(View()).(responses := old(responses) + [k])
      ensures accepted ==> StepRel(minTracking, distanceSupported, old(View()), Stop(k), View())
    {
      accepted := true;
      if k in mTimeBasedTrackingSessions {
        ghost var s := View();
        var reportNow := StopTimeBasedTrackingMultiplex(k);
        ghost var after := if reportNow then Answered(s, k) else View();
        EraseTrackingSession(k);
        if reportNow {
          ReportResponse(k);
        }
        assert View() == after.(sessions := s.sessions - {k});
      } else if k in mDistanceBasedTrackingSessions {
        CallForDistance(Stopping(k));
      } else {
        accepted := false;
        ReportResponse(k);
      }
    }

    // -------------------------------------------------------------- engine and power events

    method EngineCallback(k: Key)
      requires k in awaiting
      modifies this
      ensures StepRel(minTracking, distanceSupported, old(View()), TrackingModel.EngineCallback(k), View())
    {
      awaiting := awaiting - multiset{k};
      ReportResponse(k);
    }

    /** The engine answers one outstanding call about a distance-based session. */
    method DistanceCallback(i: nat, ok: bool)
      requires i < |distanceCalls|
      modifies this
      ensures StepRel(minTracking, distanceSupported, old(View()), TrackingModel.DistanceCallback(i, ok), View())
    {
      var call := distanceCalls[i];
      distanceCalls := distanceCalls[..i] + distanceCalls[i + 1..];
      match call
      case Starting(k) =>
        if !ok {
          EraseTrackingSession(k);
        }
        ReportResponse(k);
      case Stopping(k) =>
        if ok {
          EraseTrackingSession(k);
        }
        ReportResponse(k);
      case SwitchingToTime(k, o) => StartAndSave(k, o);
      case RestartStopping(k, o) =>
        if ok {
          CallForDistance(RestartStarting(k, o));
        }
      case RestartStarting(k, o) =>
        if ok {
          SaveTrackingSession(k, o);
        }
        ReportResponse(k);
    }

    method CheckAndRestartSPESession()
      modifies this
      ensures RestartRel(minTracking, old(View()), View())
    {
      ghost var s := View();
      mSPEAlreadyRunningAtHighestInterval := false;
      ghost var off := View();
      if mTimeBasedTrackingSessions != map[] {
        var k0 :| k0 in mTimeBasedTrackingSessions.Keys;
        var smallest, highest, found := mTimeBasedTrackingSessions[k0], mTimeBasedTrackingSessions[k0], false;
        var left := mTimeBasedTrackingSessions.Keys;
        ghost var keys := left;
        while left != {}
          invariant View() == off && left <= keys
          invariant exists j :: j in keys && s.sessions[j].minInterval == smallest.minInterval
          invariant forall j :: j in keys - left ==> found && smallest.minInterval <= s.sessions[j].minInterval
          decreases left
        {
          var j :| j in left;
          var it := mTimeBasedTrackingSessions[j];
          left := left - {j};
          if !found || it.minInterval < smallest.minInterval {
            smallest := it;
          }
          if !found || (it.powerMode != GNSS_POWER_MODE_INVALID && it.powerMode < highest.powerMode) {
            highest := it;
          }
          found := true;
        }
        highest := highest.(minInterval := smallest.minInterval, minDistance := smallest.minDistance,
                            quality := smallest.quality);
        assert IsMinInterval(s.sessions, highest.minInterval);
        var alreadyRunning, out := CheckAndSetSPEToRunForNHz(highest);
        if !alreadyRunning {
          engine := Running(out);
        }
        assert EngineStart(minTracking, off, highest.minInterval, NoOne, View());
      }
    }

    method RestartSessions()
      modifies this
      ensures StepRel(minTracking, distanceSupported, old(View()), Resume, View())
    {
      mSPEAlreadyRunningAtHighestInterval := false;
      CheckAndRestartSPESession();
    }

    method SuspendSessions()
      modifies this
      ensures StepRel(minTracking, distanceSupported, old(View()), Suspend, View())
    {
      if mTimeBasedTrackingSessions != map[] {
        engine := Stopped;
        mSPEAlreadyRunningAtHighestInterval := false;
      }
    }

    method UpdateNHzRequirement(nHzNeeded: bool)
      modifies this
      ensures StepRel(minTracking, distanceSupported, old(View()), SetNHz(nHzNeeded), View())
    {
      if mNHzNeeded != nHzNeeded {
        mNHzNeeded := nHzNeeded;
        CheckAndRestartSPESession();
      }
    }
  }
}
