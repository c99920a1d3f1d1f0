/** The trip part of the batching adapter: sessions updated in place, and erased while they are walked. */
module BatchingAdapter {
  import opened TripLedger

  class Adapter {
    var mTripSessions: seq<Trip>
    var mOngoingTripDistance: uint32
    var mOngoingTripTBFInterval: uint32
    var mTripWithOngoingTBFDropped: bool
    var mTripWithOngoingTripDistanceDropped: bool
    // Outside the adapter: what the modem counts.
    var odometer: nat
    var batchStart: nat

    ghost function View(): State
      reads this
    {
      State(mTripSessions, mOngoingTripDistance, mOngoingTripTBFInterval, mTripWithOngoingTBFDropped,
            mTripWithOngoingTripDistanceDropped, odometer, batchStart)
    }

    constructor ()
      ensures View() == INITIAL_STATE
    {
      mTripSessions, mOngoingTripDistance, mOngoingTripTBFInterval := [], 0, 0;
      mTripWithOngoingTBFDropped, mTripWithOngoingTripDistanceDropped := false, false;
      odometer, batchStart := 0, 0;
    }

    /** One turn of the loop below: books the distance of one session, and erases it if it is completed,
        setting the flags from its parameters. */
    method BookSession(itt: nat, acc: uint32) returns (erased: bool, id: nat)
      requires itt < |mTripSessions|
      modifies this
      ensures var t := old(mTripSessions)[itt].(thisTrip := Accounted(old(mTripSessions)[itt], acc));
        View() == Turned(old(View()), itt, t) && erased == Completed(t) && id == t.id
    {
      var tripSession := mTripSessions[itt];
      tripSession := tripSession.(thisTrip := Add(tripSession.onRestart, Sub(acc, tripSession.onBatch)));
      id := tripSession.id;
      erased := tripSession.distance <= tripSession.thisTrip;
      if erased {
        mTripSessions := mTripSessions[..itt] + mTripSessions[itt + 1..];
        if tripSession.tbf == mOngoingTripTBFInterval {
          mTripWithOngoingTBFDropped := true;
        }
        if tripSession.distance == mOngoingTripDistance {
          mTripWithOngoingTripDistanceDropped := true;
        }
      } else {
        mTripSessions := mTripSessions[itt := tripSession];
      }
    }

    method BookNext(itt0: nat, acc: uint32, completed0: seq<nat>, defined0: bool, ghost s: State,
                    ghost now: seq<Trip>, ghost done: nat)
      returns (itt: nat, completed: seq<nat>, defined: bool)
      requires itt0 < |mTripSessions| && done < |now| && |mTripSessions| - itt0 == |now| - done
      requires now == Counted(s.trips, acc) && LoopInv(s, now, done, View(), completed0)
      requires defined0 <==> completed0 == []
      modifies this
      ensures itt <= |mTripSessions| && |mTripSessions| - itt == |now| - done - 1
      ensures LoopInv(s, now, done + 1, View(), completed)
      ensures defined <==> completed == []
    {
      itt, completed, defined := itt0, completed0, defined0;
      Turn(s, now, done, View(), itt, completed);
      var erased, id := BookSession(itt, acc);
      if erased {
        completed, defined := completed + [id], false;
      } else {
        itt := itt + 1;
      }
    }

    /** The first loop of a completion report. It reads each erased session once more, which C++ leaves
        undefined: `defined` says whether it never does. The values are those from before. */
    method BookDistance(acc: uint32) returns (completed: seq<nat>, defined: bool)
      modifies this
      ensures defined <==> completed == []
      ensures var now := Counted(old(mTripSessions), acc);
        View() == Dropped(old(View()), now) && completed == Finished(now)
    {
      completed, defined := [], true;
      ghost var s, now := View(), Counted(mTripSessions, acc);
      var itt := 0;
      ghost var done := 0;
      while itt < |mTripSessions|
        invariant 0 <= itt <= |mTripSessions| && done <= |now| && |mTripSessions| - itt == |now| - done
        invariant defined <==> completed == []
        invariant LoopInv(s, now, done, View(), completed)
        decreases |mTripSessions| - itt
      {
        itt, completed, defined := BookNext(itt, acc, completed, defined, s, now, done);
        done := done + 1;
      }
      ListEnd(s.trips, now, mTripSessions);
      NotedEnd(s, now, mTripWithOngoingTBFDropped, mTripWithOngoingTripDistanceDropped, completed);
    }

    /** `acc` is the counter the modem reported. */
    method ReportCompletedTrips(acc: uint32, restartOk: bool) returns (completed: seq<nat>, defined: bool)
      requires acc == Counter(View())
      modifies this
      ensures View() == Step(old(View()), Report(restartOk))
      ensures completed == Finished(Counted(old(mTripSessions), acc)) && (defined <==> completed == [])
    {
      ghost var now := Counted(mTripSessions, acc);
      completed, defined := BookDistance(acc);
      if |completed| > 0 {
        RestartTripBatching(acc, restartOk);
      } else {
        NoneDropped(old(View()), now);
      }
    }

    method Minima() returns (minRemainingDistance: uint32, minTBFInterval: uint32)
      ensures minRemainingDistance == MinRemaining(mTripSessions) && minTBFInterval == MinTbf(mTripSessions)
    {
      minRemainingDistance, minTBFInterval := 0, 0;
      for i := 0 to |mTripSessions|
        invariant minRemainingDistance == MinRemaining(mTripSessions[..i])
        invariant minTBFInterval == MinTbf(mTripSessions[..i])
      {
        var t := mTripSessions[i];
        assert mTripSessions[..i + 1][..i] == mTripSessions[..i];
        if minRemainingDistance == 0 || minRemainingDistance > Sub(t.distance, t.thisTrip) {
          minRemainingDistance := Sub(t.distance, t.thisTrip);
        }
        if minTBFInterval == 0 || minTBFInterval > t.tbf {
          minTBFInterval := t.tbf;
        }
      }
      assert mTripSessions[..|mTripSessions|] == mTripSessions;
    }

    method RestartTripBatching(accumulatedDistance: uint32, restartOk: bool)
      modifies this
      ensures View() == RestartBatching(old(View()), accumulatedDistance, restartOk)
    {
      if mTripSessions == [] {
        mOngoingTripDistance := 0;
        mOngoingTripTBFInterval := 0;
        return;
      }
      var minRemainingDistance, minTBFInterval := Minima();
      var needsRestart := false;
      var ongoingTripDistance, ongoingTripInterval := mOngoingTripDistance, mOngoingTripTBFInterval;
      if !mTripWithOngoingTripDistanceDropped && Sub(ongoingTripDistance, accumulatedDistance) != 0 {
        if minRemainingDistance < Sub(ongoingTripDistance, accumulatedDistance) {
          ongoingTripDistance := minRemainingDistance;
          needsRestart := true;
        }
      } else if minRemainingDistance != 0 {
        ongoingTripDistance := minRemainingDistance;
        needsRestart := true;
      }
      if minTBFInterval < ongoingTripInterval || (minTBFInterval != ongoingTripInterval && mTripWithOngoingTBFDropped) {
        ongoingTripInterval := minTBFInterval;
        needsRestart := true;
      }
      if needsRestart && restartOk {
        FoldBatch(accumulatedDistance);
        mOngoingTripDistance := ongoingTripDistance;
        mOngoingTripTBFInterval := ongoingTripInterval;
        batchStart := odometer;
      }
    }

    method FoldBatch(acc: uint32)
      modifies this`mTripSessions
      ensures mTripSessions == Folded(old(mTripSessions), acc)
    {
      ghost var trips := mTripSessions;
      for i := 0 to |mTripSessions|
        invariant |mTripSessions| == |trips|
        invariant forall k :: 0 <= k < i ==> mTripSessions[k] == Folded(trips, acc)[k]
        invariant forall k :: i <= k < |trips| ==> mTripSessions[k] == trips[k]
      {
        var t := mTripSessions[i];
        t := t.(thisTrip := Add(t.onRestart, Sub(acc, t.onBatch)));
        t := t.(onBatch := 0);
        t := t.(onRestart := t.thisTrip);
        mTripSessions := mTripSessions[i := t];
      }
    }

    /** `acc` is the modem's answer to the query of a join, if there is one. */
    method StartTripBatching(id: nat, distance: uint32, tbf: uint32, acc: uint32, queryOk: bool, restartOk: bool)
      requires acc == Counter(View())
      modifies this
      ensures View() == Step(old(View()), Start(id, distance, tbf, queryOk, restartOk))
    {
      if |mTripSessions| == 0 {
        if restartOk {
          mTripSessions := [Trip(id, 0, 0, 0, distance, tbf, odometer)];
          mOngoingTripDistance, mOngoingTripTBFInterval := distance, tbf;
          batchStart := odometer;
        }
      } else {
        var ongoingTripDistance, ongoingTripInterval := mOngoingTripDistance, mOngoingTripTBFInterval;
        var needsRestart := false;
        if ongoingTripInterval > tbf {
          ongoingTripInterval := tbf;
          needsRestart := true;
        }
        if !queryOk {
          if distance < ongoingTripDistance {
            ongoingTripDistance := distance;
            needsRestart := true;
          }
        } else {
          var remaining := Sub(ongoingTripDistance, acc);
          if distance < remaining {
            ongoingTripDistance := distance;
            needsRestart := true;
          } else if needsRestart {
            ongoingTripDistance := remaining;
          }
          mTripSessions := mTripSessions + [Trip(id, acc, 0, 0, distance, tbf, odometer)];
        }
        if needsRestart {
          mOngoingTripDistance, mOngoingTripTBFInterval := ongoingTripDistance, ongoingTripInterval;
          ForgetBatch();
          if restartOk {
            batchStart := odometer;
          }
        }
      }
    }

    method ForgetBatch()
      modifies this`mTripSessions
      ensures mTripSessions == Forgotten(old(mTripSessions))
    {
      ghost var trips := mTripSessions;
      for i := 0 to |mTripSessions|
        invariant |mTripSessions| == |trips|
        invariant forall k :: 0 <= k < i ==> mTripSessions[k] == Forgotten(trips)[k]
        invariant forall k :: i <= k < |trips| ==> mTripSessions[k] == trips[k]
      {
        var t := mTripSessions[i];
        t := t.(onBatch := 0);
        t := t.(onRestart := t.thisTrip);
        mTripSessions := mTripSessions[i := t];
      }
    }

    method StopTripBatching(id: nat, acc: uint32, restartOk: bool)
      requires acc == Counter(View())
      modifies this
      ensures View() == Step(old(View()), Stop(id, restartOk))
    {
      var i := Position(mTripSessions, id);
      if i < |mTripSessions| {
        var t := mTripSessions[i];
        if t.tbf == mOngoingTripTBFInterval {
          mTripWithOngoingTBFDropped := true;
        }
        if t.distance == mOngoingTripDistance {
          mTripWithOngoingTripDistanceDropped := true;
        }
        mTripSessions := mTripSessions[..i] + mTripSessions[i + 1..];
        assert View() == Erased(old(View()), i);
        if |mTripSessions| == 0 {
          mOngoingTripDistance, mOngoingTripTBFInterval := 0, 0;
        } else {
          RestartTripBatching(acc, restartOk);
        }
      }
    }
  }

  /** One turn of the loop of a report: the session at itt becomes t, and goes if it is completed. */
  function Turned(v: State, itt: nat, t: Trip): State
    requires itt < |v.trips|
  {
    if Completed(t) then
      v.(trips := v.trips[..itt] + v.trips[itt + 1..], tbfDropped := v.tbfDropped || t.tbf == v.ongoingTbf,
         distanceDropped := v.distanceDropped || t.distance == v.ongoingDistance)
    else v.(trips := v.trips[itt := t])
  }

  /** Before the turn for session `done`, the adapter is `v`. */
  ghost predicate LoopInv(s: State, now: seq<Trip>, done: nat, v: State, completed: seq<nat>) {
    && ListInv(s.trips, now, done, v.trips)
    && Noted(s, now, done, v.tbfDropped, v.distanceDropped, completed)
    && v == s.(trips := v.trips, tbfDropped := v.tbfDropped, distanceDropped := v.distanceDropped)
  }

  lemma Turn(s: State, now: seq<Trip>, done: nat, v: State, itt: nat, completed: seq<nat>)
    requires LoopInv(s, now, done, v, completed) && done < |now| && |v.trips| - itt == |now| - done
    ensures itt < |v.trips| && v.trips[itt] == s.trips[done]
    ensures var t := now[done];
      LoopInv(s, now, done + 1, Turned(v, itt, t), if Completed(t) then completed + [t.id] else completed)
  {
    ListTurn(s.trips, now, done, v.trips, itt);
    FlagTurn(s, now, done, v.tbfDropped, v.distanceDropped, completed);
  }

  /** Before the turn for session `done` of a report, the list is `list`. */
  ghost predicate ListInv(trips: seq<Trip>, now: seq<Trip>, done: nat, list: seq<Trip>) {
    done <= |now| == |trips| && list == Unfinished(now[..done]) + trips[done..]
  }

  lemma ListTurn(trips: seq<Trip>, now: seq<Trip>, done: nat, list: seq<Trip>, itt: nat)
    requires ListInv(trips, now, done, list) && done < |now| && |list| - itt == |now| - done
    ensures itt < |list| && list[itt] == trips[done]
    ensures if Completed(now[done]) then ListInv(trips, now, done + 1, list[..itt] + list[itt + 1..])
            else ListInv(trips, now, done + 1, list[itt := now[done]])
  {
    var kept, rest := Unfinished(now[..done]), trips[done..];
    assert now[..done + 1][..done] == now[..done];
    assert |kept| == itt && rest[1..] == trips[done + 1..];
    if Completed(now[done]) {
      assert list[..itt] + list[itt + 1..] == kept + rest[1..];
    } else {
      assert list[itt := now[done]] == (kept + [now[done]]) + rest[1..];
    }
  }

  lemma ListEnd(trips: seq<Trip>, now: seq<Trip>, list: seq<Trip>)
    requires ListInv(trips, now, |now|, list)
    ensures list == Unfinished(now)
  {
    assert now[..|now|] == now && trips[|now|..] == [];
  }

  /** The flags and the list of completed ids after `done` sessions. */
  ghost predicate Noted(s: State, now: seq<Trip>, done: nat, tbfDropped: bool, distanceDropped: bool,
                        completed: seq<nat>)
  {
    && done <= |now| && completed == Finished(now[..done])
    && tbfDropped == (s.tbfDropped || SomeFinishedWithTbf(now[..done], s.ongoingTbf))
    && distanceDropped == (s.distanceDropped || SomeFinishedWithDistance(now[..done], s.ongoingDistance))
  }

  lemma FlagTurn(s: State, now: seq<Trip>, n: nat, tbfDropped: bool, distanceDropped: bool, completed: seq<nat>)
    requires n < |now| && Noted(s, now, n, tbfDropped, distanceDropped, completed)
    ensures var t := now[n];
      if Completed(t) then
        Noted(s, now, n + 1, tbfDropped || t.tbf == s.ongoingTbf, distanceDropped || t.distance == s.ongoingDistance,
              completed + [t.id])
      else Noted(s, now, n + 1, tbfDropped, distanceDropped, completed)
  {
    var before, after := now[..n], now[..n + 1];
    assert after[..n] == before && after == before + [now[n]];
    assert forall t :: t in after <==> t in before || t == now[n];
  }

  lemma NotedEnd(s: State, now: seq<Trip>, tbfDropped: bool, distanceDropped: bool, completed: seq<nat>)
    requires Noted(s, now, |now|, tbfDropped, distanceDropped, completed)
    ensures completed == Finished(now)
    ensures Dropped(s, now) ==
      s.(trips := Unfinished(now), tbfDropped := tbfDropped, distanceDropped := distanceDropped)
  {
    assert now[..|now|] == now;
  }

  lemma {:induction false} NoneDropped(s: State, now: seq<Trip>)
    requires Finished(now) == []
    ensures Dropped(s, now) == s.(trips := now)
  {
    forall t | t in now ensures !Completed(t) {
      FinishedMembers(now, t.id);
    }
    AllUnfinished(now);
  }

  lemma {:induction false} AllUnfinished(now: seq<Trip>)
    requires forall t :: t in now ==> !Completed(t)
    ensures Unfinished(now) == now
  {
    if now != [] {
      var n := |now| - 1;
      assert now == now[..n] + [now[n]];
      AllUnfinished(now[..n]);
    }
  }
}
