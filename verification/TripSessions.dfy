/** Which trips are listed, and how often the batch reports fixes for them. */
module TripSessions {
  import opened TripLedger

  // ---------------------------------------------------------------- who is listed

  predicate IsListed(trips: seq<Trip>, id: nat) {
    exists t :: t in trips && t.id == id
  }

  ghost predicate DistinctIds(trips: seq<Trip>) {
    forall i, j :: 0 <= i < j < |trips| ==> trips[i].id != trips[j].id
  }

  /** The same trips, with other books. */
  predicate SameTrips(a: seq<Trip>, b: seq<Trip>) {
    |a| == |b| && forall i :: 0 <= i < |a| ==> a[i].id == b[i].id && a[i].tbf == b[i].tbf
  }

  lemma SameListed(a: seq<Trip>, b: seq<Trip>, id: nat)
    requires SameTrips(a, b)
    ensures IsListed(a, id) <==> IsListed(b, id)
    ensures DistinctIds(a) <==> DistinctIds(b)
  {
    if t :| t in a && t.id == id {
      var i :| 0 <= i < |a| && a[i] == t;
      assert b[i] in b;
    }
    if t :| t in b && t.id == id {
      var i :| 0 <= i < |b| && b[i] == t;
      assert a[i] in a;
    }
  }

  lemma RestartKeepsTrips(s: State, acc: uint32, ok: bool)
    ensures SameTrips(RestartBatching(s, acc, ok).trips, s.trips)
  {
  }

  lemma JoinLists(s: State, e: Event, id: nat)
    requires e.Start? && s.trips != []
    ensures IsListed(Step(s, e).trips, id) <==> IsListed(s.trips, id) || (id == e.id && e.queryOk)
  {
    var joiner := Trip(e.id, Counter(s), 0, 0, e.distance, e.tbf, s.odometer);
    var trips := s.trips + if e.queryOk then [joiner] else [];
    assert SameTrips(Step(s, e).trips, trips);
    SameListed(Step(s, e).trips, trips, id);
    assert forall t :: t in trips <==> t in s.trips || (e.queryOk && t == joiner);
  }

  lemma ErasedLists(s: State, i: nat, id: nat)
    requires i < |s.trips| && DistinctIds(s.trips)
    ensures IsListed(Erased(s, i).trips, id) <==> IsListed(s.trips, id) && id != s.trips[i].id
  {
    var left := Erased(s, i).trips;
    if t :| t in s.trips && t.id == id && id != s.trips[i].id {
      var j :| 0 <= j < |s.trips| && s.trips[j] == t;
      assert t == if j < i then left[j] else left[j - 1];
    }
    if t :| t in left && t.id == id {
      var j :| 0 <= j < |left| && left[j] == t;
      assert t == if j < i then s.trips[j] else s.trips[j + 1];
    }
  }

  lemma StopLists(s: State, e: Event, id: nat)
    requires e.Stop? && DistinctIds(s.trips)
    ensures IsListed(Step(s, e).trips, id) <==> IsListed(s.trips, id) && id != e.id
  {
    var i := Position(s.trips, e.id);
    if i < |s.trips| {
      var left := Erased(s, i);
      ErasedLists(s, i, id);
      if |s.trips| > 1 {
        RestartKeepsTrips(left, Counter(s), e.restartOk);
        SameListed(Step(s, e).trips, left.trips, id);
      }
    }
  }

  lemma ReportLists(s: State, e: Event, id: nat)
    requires e.Report? && Ledger(s)
    ensures IsListed(Step(s, e).trips, id) <==> exists t :: t in s.trips && t.id == id && !Arrived(s, t)
  {
    var now := Counted(s.trips, Counter(s));
    var left := Unfinished(now);
    CountedUnfinished(s, id);
    if Finished(now) == [] {
      assert forall t :: t in now && Completed(t) ==> IsFinished(now, t.id);
      forall t | t in now ensures !Completed(t) { FinishedMembers(now, t.id); }
      assert IsListed(now, id) <==> IsListed(left, id);
    } else {
      RestartKeepsTrips(Dropped(s, now), Counter(s), e.restartOk);
      SameListed(Step(s, e).trips, left, id);
    }
  }

  lemma CountedUnfinished(s: State, id: nat)
    requires Ledger(s)
    ensures IsListed(Unfinished(Counted(s.trips, Counter(s))), id) <==>
      exists t :: t in s.trips && t.id == id && !Arrived(s, t)
  {
    var now := Counted(s.trips, Counter(s));
    if t :| t in s.trips && t.id == id && !Arrived(s, t) {
      var i :| 0 <= i < |s.trips| && s.trips[i] == t;
      CountedArrives(s, i);
      assert now[i] in now;
    }
    if t :| t in now && t.id == id && !Completed(t) {
      var i :| 0 <= i < |now| && now[i] == t;
      CountedArrives(s, i);
      assert s.trips[i] in s.trips;
    }
  }

  /** What an event means for who is listed: a start with the modem's consent lists its trip, a stop takes it
      out, and a report takes out those that have travelled their distance. */
  predicate ListedAfter(s: State, e: Event, id: nat) {
    match e
    case Travel(_) => IsListed(s.trips, id)
    case Start(j, _, _, queryOk, ok) =>
      IsListed(s.trips, id) || (id == j && if s.trips == [] then ok else queryOk)
    case Report(_) => exists t :: t in s.trips && t.id == id && !Arrived(s, t)
    case Stop(j, _) => IsListed(s.trips, id) && id != j
  }

  /** With balanced books and distinct ids, exactly those trips are listed after an event. */
  lemma ListedExactly(s: State, e: Event, id: nat)
    requires Ledger(s) && DistinctIds(s.trips)
    ensures IsListed(Step(s, e).trips, id) <==> ListedAfter(s, e, id)
  {
    match e
    case Travel(_) =>
    case Start(j, distance, tbf, queryOk, ok) =>
      if s.trips != [] { JoinLists(s, e, id); }
      else if ok { assert FirstTrip(s, j, distance, tbf).trips[0].id == j; }
    case Report(_) => ReportLists(s, e, id);
    case Stop(_, _) => StopLists(s, e, id);
  }

  /** After a report every listed trip has stored what it has travelled. */
  lemma ReportBringsUpToDate(s: State, ok: bool)
    requires Ledger(s)
    ensures forall t :: t in Step(s, Report(ok)).trips ==> Knows(Step(s, Report(ok)), t)
  {
    var now, r := Counted(s.trips, Counter(s)), Step(s, Report(ok));
    CountedIsTravelled(s);
    if Finished(now) != [] {
      var left := Dropped(s, now);
      ReportLeavesLedger(s);
      forall t | t in r.trips ensures Knows(r, t) {
        RestartKnows(left, ok, t);
      }
    }
  }

  lemma ReportLeavesLedger(s: State)
    requires Ledger(s)
    ensures var left := Dropped(s, Counted(s.trips, Counter(s)));
      Ledger(left) && Counter(left) == Counter(s) && forall t :: t in left.trips ==> Knows(left, t)
  {
    var now := Counted(s.trips, Counter(s));
    CountedIsTravelled(s);
    forall t | t in now ensures Balanced(s, t) {
      var i :| 0 <= i < |now| && now[i] == t;
      assert s.trips[i] in s.trips;
    }
  }

  lemma RestartKnows(s: State, ok: bool, t: Trip)
    requires Ledger(s) && forall u :: u in s.trips ==> Knows(s, u)
    requires t in RestartBatching(s, Counter(s), ok).trips
    ensures Knows(RestartBatching(s, Counter(s), ok), t)
  {
    var r := RestartBatching(s, Counter(s), ok);
    var i :| 0 <= i < |r.trips| && r.trips[i] == t;
    if r.trips != s.trips {
      assert s.trips[i] in s.trips;
      FoldedIsBalanced(s, r, s.trips[i], t);
    }
  }

  function Metres(events: seq<Event>): nat {
    if events == [] then 0
    else Metres(events[..|events| - 1]) + if events[|events| - 1].Travel? then events[|events| - 1].metres else 0
  }

  /** Over every run, the odometer shows the metres travelled, and with no trip listed no batch is on record. */
  lemma {:induction false} OdometerAndIdleBatch(events: seq<Event>)
    ensures var s := Run(events);
      s.odometer == Metres(events) && (s.trips == [] ==> s.ongoingDistance == 0 && s.ongoingTbf == 0)
  {
    if events != [] {
      var n := |events| - 1;
      OdometerAndIdleBatch(events[..n]);
      StepMovesOdometer(Run(events[..n]), events[n]);
      StepKeepsIdle(Run(events[..n]), events[n]);
    }
  }

  lemma StepMovesOdometer(s: State, e: Event)
    ensures Step(s, e).odometer == s.odometer + if e.Travel? then e.metres else 0
  {
  }

  predicate IdleIsClear(s: State) {
    s.trips == [] ==> s.ongoingDistance == 0 && s.ongoingTbf == 0
  }

  lemma RestartIsClear(s: State, acc: uint32, ok: bool)
    ensures IdleIsClear(RestartBatching(s, acc, ok))
  {
    RestartKeepsTrips(s, acc, ok);
  }

  lemma StepKeepsIdle(s: State, e: Event)
    requires IdleIsClear(s)
    ensures IdleIsClear(Step(s, e))
  {
    match e
    case Travel(_) =>
    case Start(id, distance, tbf, queryOk, ok) =>
      if s.trips != [] { assert |Step(s, e).trips| >= |s.trips|; }
    case Report(ok) =>
      var now := Counted(s.trips, Counter(s));
      if Finished(now) != [] { RestartIsClear(Dropped(s, now), Counter(s), ok); }
    case Stop(id, ok) =>
      var i := Position(s.trips, id);
      if i < |s.trips| && |s.trips| > 1 { RestartIsClear(Erased(s, i), Counter(s), ok); }
  }

  // ---------------------------------------------------------------- the least interval

  ghost predicate IsLeastTbf(trips: seq<Trip>, v: int) {
    (exists t :: t in trips && t.tbf == v) && forall t :: t in trips ==> v <= t.tbf
  }

  predicate SomeZeroTbf(trips: seq<Trip>) {
    exists t :: t in trips && t.tbf == 0
  }

  /** The zero sentinel does no harm: if some interval is zero, so is the last one. */
  predicate IntervalFound(trips: seq<Trip>)
    requires trips != []
  {
    SomeZeroTbf(trips) ==> trips[|trips| - 1].tbf == 0
  }

  lemma {:induction false} MinTbfOfPositive(trips: seq<Trip>)
    requires trips != []
    ensures exists t :: t in trips && t.tbf == MinTbf(trips)
    ensures MinTbf(trips) == 0 <==> trips[|trips| - 1].tbf == 0
    ensures !SomeZeroTbf(trips) ==> IsLeastTbf(trips, MinTbf(trips))
  {
    var n := |trips| - 1;
    assert trips == trips[..n] + [trips[n]] && trips[n] in trips;
    if n == 0 {
      assert MinTbf(trips[..n]) == 0 && MinTbf(trips) == trips[n].tbf;
    } else {
      MinTbfOfPositive(trips[..n]);
      var t :| t in trips[..n] && t.tbf == MinTbf(trips[..n]);
      assert t in trips;
    }
  }

  /** The loop finds an interval of some trip, and it is the least one if and only if a zero interval, if
      there is one, comes last. */
  lemma MinTbfExactly(trips: seq<Trip>)
    requires trips != []
    ensures exists t :: t in trips && t.tbf == MinTbf(trips)
    ensures IsLeastTbf(trips, MinTbf(trips)) <==> IntervalFound(trips)
  {
    MinTbfOfPositive(trips);
  }

  // ---------------------------------------------------------------- the batch is fast enough

  /** The batch reports fixes at least as often as every trip asks for. */
  predicate Fast(s: State) {
    forall t :: t in s.trips ==> s.ongoingTbf <= t.tbf
  }

  lemma IntervalsCarryOver(a: seq<Trip>, b: seq<Trip>, v: int)
    requires SameTrips(a, b)
    ensures (forall t :: t in a ==> v <= t.tbf) ==> forall t :: t in b ==> v <= t.tbf
    ensures (exists t :: t in a && t.tbf == v) ==> exists t :: t in b && t.tbf == v
  {
    if forall t :: t in a ==> v <= t.tbf {
      forall t | t in b ensures v <= t.tbf {
        var i :| 0 <= i < |b| && b[i] == t;
        assert a[i] in a;
      }
    }
    if t :| t in a && t.tbf == v {
      var i :| 0 <= i < |a| && a[i] == t;
      assert b[i] in b && b[i].tbf == v;
    }
  }

  lemma SameIntervals(a: seq<Trip>, b: seq<Trip>, v: int)
    requires SameTrips(a, b)
    ensures (forall t :: t in a ==> v <= t.tbf) <==> forall t :: t in b ==> v <= t.tbf
    ensures IsLeastTbf(a, v) <==> IsLeastTbf(b, v)
  {
    IntervalsCarryOver(a, b, v);
    IntervalsCarryOver(b, a, v);
  }

  /** A restart with consent that changes the interval gives the batch the least interval of the listed
      trips, if and only if the loop has found it. */
  lemma ChangedIntervalExactly(s: State, acc: uint32)
    requires s.trips != [] && TbfChanges(s)
    ensures var r := RestartBatching(s, acc, true);
      IsLeastTbf(r.trips, r.ongoingTbf) <==> IntervalFound(s.trips)
  {
    var r := RestartBatching(s, acc, true);
    MinTbfExactly(s.trips);
    RestartKeepsTrips(s, acc, true);
    SameIntervals(r.trips, s.trips, MinTbf(s.trips));
  }

  lemma RestartIsFastExactly(s: State, acc: uint32, ok: bool)
    requires s.trips != [] && Fast(s)
    ensures Fast(RestartBatching(s, acc, ok)) <==> !(ok && TbfChanges(s) && !IntervalFound(s.trips))
  {
    var r := RestartBatching(s, acc, ok);
    MinTbfExactly(s.trips);
    RestartKeepsTrips(s, acc, ok);
    SameIntervals(r.trips, s.trips, r.ongoingTbf);
  }

  /** The trips a report leaves, and the trips a stop leaves, before the batch is restarted for them. */
  function Reported(s: State): State {
    Dropped(s, Counted(s.trips, Counter(s)))
  }

  /** The event restarts the batch for an interval that is not the least one. */
  predicate SlowsDown(s: State, e: Event) {
    match e
    case Report(ok) =>
      Finished(Counted(s.trips, Counter(s))) != [] && Reported(s).trips != [] &&
      ok && TbfChanges(Reported(s)) && !IntervalFound(Reported(s).trips)
    case Stop(id, ok) =>
      var i := Position(s.trips, id);
      i < |s.trips| && |s.trips| > 1 && ok && TbfChanges(Erased(s, i)) && !IntervalFound(Erased(s, i).trips)
    case _ => false
  }

  lemma ReportIsFastExactly(s: State, ok: bool)
    requires Fast(s)
    ensures Fast(ReportStep(s, ok)) <==> !SlowsDown(s, Report(ok))
  {
    var now, left := Counted(s.trips, Counter(s)), Reported(s);
    assert SameTrips(now, s.trips);
    SameIntervals(now, s.trips, s.ongoingTbf);
    if Finished(now) != [] && left.trips != [] { RestartIsFastExactly(left, Counter(s), ok); }
  }

  lemma StopIsFastExactly(s: State, id: nat, ok: bool)
    requires Fast(s)
    ensures Fast(StopStep(s, id, ok)) <==> !SlowsDown(s, Stop(id, ok))
  {
    var i := Position(s.trips, id);
    if i < |s.trips| && |s.trips| > 1 { RestartIsFastExactly(Erased(s, i), Counter(s), ok); }
  }

  lemma JoinIsFast(s: State, e: Event)
    requires Fast(s) && e.Start? && s.trips != []
    ensures Fast(Step(s, e))
  {
    var joiner := Trip(e.id, Counter(s), 0, 0, e.distance, e.tbf, s.odometer);
    var trips := s.trips + if e.queryOk then [joiner] else [];
    var r := Step(s, e);
    assert SameTrips(r.trips, trips);
    SameIntervals(r.trips, trips, r.ongoingTbf);
  }

  /** An event keeps the batch fast enough for every listed trip, if and only if it does not restart it for
      an interval that is not the least one. */
  lemma StepIsFastExactly(s: State, e: Event)
    requires Fast(s)
    ensures Fast(Step(s, e)) <==> !SlowsDown(s, e)
  {
    match e
    case Travel(_) =>
    case Start(_, _, _, _, _) => if s.trips != [] { JoinIsFast(s, e); }
    case Report(ok) => ReportIsFastExactly(s, ok);
    case Stop(id, ok) => StopIsFastExactly(s, id, ok);
  }

  predicate NeverSlowsDown(events: seq<Event>) {
    events == [] ||
    var before := events[..|events| - 1];
    NeverSlowsDown(before) && !SlowsDown(Run(before), events[|events| - 1])
  }

  ghost predicate FastThroughout(events: seq<Event>) {
    Fast(Run(events)) && (events == [] || FastThroughout(events[..|events| - 1]))
  }

  /** The batch is fast enough for every listed trip throughout a run, refusals of the modem included, if
      and only if no event slows it down. */
  lemma {:induction false} FastOverRuns(events: seq<Event>)
    ensures FastThroughout(events) <==> NeverSlowsDown(events)
  {
    if events != [] {
      var before := events[..|events| - 1];
      FastOverRuns(before);
      assert FastThroughout(before) ==> Fast(Run(before));
      if Fast(Run(before)) { StepIsFastExactly(Run(before), events[|events| - 1]); }
    }
  }

  /** The shortest run that slows down: of two trips with interval zero one stops, and the batch is restarted
      for the interval of the third. */
  lemma ZeroIntervalSlowsDown()
    ensures var events := [Start(1, 9, 0, true, true), Start(2, 9, 0, true, true), Start(3, 9, 5, true, true),
                           Stop(1, true)];
      Run(events).ongoingTbf == 5 && IsListed(Run(events).trips, 2) && !Fast(Run(events))
  {
    var e1, e2 := Start(1, 9, 0, true, true), Start(2, 9, 0, true, true);
    var e3, e4 := Start(3, 9, 5, true, true), Stop(1, true);
    ThreeStart(e1, e2, e3);
    RunOfFour(e1, e2, e3, e4);
    FirstOfThreeStops(Step(Step(Step(INITIAL_STATE, e1), e2), e3), e4);
  }

  lemma ThreeStart(e1: Event, e2: Event, e3: Event)
    requires e1 == Start(1, 9, 0, true, true) && e2 == Start(2, 9, 0, true, true) && e3 == Start(3, 9, 5, true, true)
    ensures Step(Step(Step(INITIAL_STATE, e1), e2), e3) ==
      State([Trip(1, 0, 0, 0, 9, 0, 0), Trip(2, 0, 0, 0, 9, 0, 0), Trip(3, 0, 0, 0, 9, 5, 0)], 9, 0, false, false, 0, 0)
  {
    var a, b, c := Trip(1, 0, 0, 0, 9, 0, 0), Trip(2, 0, 0, 0, 9, 0, 0), Trip(3, 0, 0, 0, 9, 5, 0);
    assert [a] + [b] == [a, b] && [a, b] + [c] == [a, b, c];
  }

  lemma FirstOfThreeStops(s: State, e: Event)
    requires s.trips == [Trip(1, 0, 0, 0, 9, 0, 0), Trip(2, 0, 0, 0, 9, 0, 0), Trip(3, 0, 0, 0, 9, 5, 0)]
    requires s.ongoingTbf == 0 && e == Stop(1, true)
    ensures var r := Step(s, e); r.ongoingTbf == 5 && IsListed(r.trips, 2) && !Fast(r)
  {
    var left := Erased(s, 0);
    var b, c := Trip(2, 0, 0, 0, 9, 0, 0), Trip(3, 0, 0, 0, 9, 5, 0);
    assert left.trips == [b, c] && [b, c][..1] == [b] && [b][..0] == [];
    assert MinTbf([]) == 0 && MinTbf([b]) == 0 && MinTbf(left.trips) == 5;
    var r := Step(s, e);
    assert r == RestartBatching(left, Counter(s), true) && r.trips[0] in r.trips;
  }

  // ---------------------------------------------------------------- and no faster than needed

  predicate Consents(e: Event) {
    match e
    case Travel(_) => true
    case Start(_, _, tbf, queryOk, ok) => queryOk && ok && tbf > 0
    case Report(ok) => ok
    case Stop(_, ok) => ok
  }

  /** The batch has exactly the least interval. */
  ghost predicate Tight(s: State) {
    !SomeZeroTbf(s.trips) && (s.trips != [] ==> IsLeastTbf(s.trips, s.ongoingTbf))
  }

  /** After a restart with consent: if the trip with the least interval has gone, the flag says so. */
  lemma RestartIsTight(s: State, acc: uint32)
    requires !SomeZeroTbf(s.trips) && Fast(s)
    requires s.tbfDropped || exists t :: t in s.trips && t.tbf == s.ongoingTbf
    ensures Tight(RestartBatching(s, acc, true))
  {
    var r := RestartBatching(s, acc, true);
    RestartKeepsTrips(s, acc, true);
    if s.trips != [] {
      MinTbfOfPositive(s.trips);
      SameIntervals(r.trips, s.trips, r.ongoingTbf);
      SameIntervals(r.trips, s.trips, 1);
    }
  }

  lemma ReportIsTight(s: State)
    requires Tight(s)
    ensures Tight(ReportStep(s, true))
  {
    var now, left := Counted(s.trips, Counter(s)), Reported(s);
    assert SameTrips(now, s.trips);
    SameIntervals(now, s.trips, s.ongoingTbf);
    SameIntervals(now, s.trips, 1);
    if Finished(now) != [] {
      var t :| t in now && t.tbf == s.ongoingTbf;
      assert Completed(t) ==> left.tbfDropped;
      assert !Completed(t) ==> t in left.trips;
      RestartIsTight(left, Counter(s));
    }
  }

  lemma StopIsTight(s: State, id: nat)
    requires Tight(s)
    ensures Tight(StopStep(s, id, true))
  {
    var i := Position(s.trips, id);
    if i < |s.trips| && |s.trips| > 1 {
      var left := Erased(s, i);
      var t :| t in s.trips && t.tbf == s.ongoingTbf;
      var j :| 0 <= j < |s.trips| && s.trips[j] == t;
      assert j != i ==> t == if j < i then left.trips[j] else left.trips[j - 1];
      assert t in left.trips || left.tbfDropped;
      RestartIsTight(left, Counter(s));
    }
  }

  lemma JoinIsTight(s: State, e: Event)
    requires Tight(s) && e.Start? && e.queryOk && e.tbf > 0 && s.trips != []
    ensures Tight(Step(s, e))
  {
    var joiner := Trip(e.id, Counter(s), 0, 0, e.distance, e.tbf, s.odometer);
    var trips, r := s.trips + [joiner], Step(s, e);
    assert SameTrips(r.trips, trips);
    assert forall t :: t in trips <==> t in s.trips || t == joiner;
    SameIntervals(r.trips, trips, r.ongoingTbf);
    SameIntervals(r.trips, trips, 1);
  }

  /** Over every run of trips with positive intervals in which the modem always agrees, the batch has
      exactly the least interval of the listed trips. */
  lemma {:induction false} IntervalIsLeast(events: seq<Event>)
    requires forall e :: e in events ==> Consents(e)
    ensures Tight(Run(events))
  {
    if events != [] {
      var n := |events| - 1;
      var s, e := Run(events[..n]), events[n];
      assert e in events && forall d :: d in events[..n] ==> d in events;
      IntervalIsLeast(events[..n]);
      match e
      case Travel(_) =>
      case Start(_, _, _, _, _) => if s.trips != [] { JoinIsTight(s, e); }
      case Report(_) => ReportIsTight(s);
      case Stop(id, _) => StopIsTight(s, id);
    }
  }

  // ---------------------------------------------------------------- the distance of a new batch

  /** With every session up to date and unfinished, a restart for a new distance ends the batch exactly when
      the first session has travelled its distance. */
  lemma NewBatchEndsWithTheFirst(s: State)
    requires s.trips != [] && Ledger(s) && NewDistance(s)
    requires forall t :: t in s.trips ==> UpToDate(s, t) && t.thisTrip < t.distance
    ensures var r := RestartBatching(s, Counter(s), true);
      OnTime(r) && exists i :: 0 <= i < |r.trips| && r.ongoingDistance - Counter(r) == ToGo(r, r.trips[i])
  {
    var r := RestartBatching(s, Counter(s), true);
    UpToDateRestartOnTime(s);
    RestartOutcome(s, true);
    SentinelFindsMinimum(s.trips);
    var t :| t in s.trips && MinRemaining(s.trips) == t.distance - t.thisTrip;
    var i :| 0 <= i < |s.trips| && s.trips[i] == t;
    RestartedToGo(s, r, t, i);
  }

  lemma RestartedToGo(s: State, r: State, t: Trip, i: nat)
    requires Ledger(s) && i < |s.trips| && s.trips[i] == t && UpToDate(s, t)
    requires r.odometer == s.odometer && |r.trips| == |s.trips|
    requires r.trips[i].distance == t.distance && r.trips[i].joinedAt == t.joinedAt
    ensures ToGo(r, r.trips[i]) == t.distance - t.thisTrip
  {
    assert t in s.trips;
    UpToDateMeansKnows(s, t);
  }

  /** The least that the trips have stored as what remains of them. */
  ghost predicate IsLeastRemaining(trips: seq<Trip>, d: int) {
    (exists t :: t in trips && d == t.distance - t.thisTrip) && forall t :: t in trips ==> d <= t.distance - t.thisTrip
  }

  /** Before the restart that follows, the batch had the distance of a trip that has gone. */
  lemma RestartReplacesDistance(s: State, acc: uint32)
    requires s.trips != [] && s.distanceDropped && forall t :: t in s.trips ==> t.thisTrip < t.distance
    ensures IsLeastRemaining(s.trips, RestartBatching(s, acc, true).ongoingDistance)
  {
    SentinelFindsMinimum(s.trips);
  }

  /** When the trip that the batch had its distance from stops, the batch gets the least distance that the
      others have stored as remaining. */
  lemma StopReplacesDistance(s: State, id: nat)
    requires var i := Position(s.trips, id);
      && i < |s.trips| && |s.trips| > 1 && s.trips[i].distance == s.ongoingDistance
      && forall t :: t in Erased(s, i).trips ==> t.thisTrip < t.distance
    ensures var left := Erased(s, Position(s.trips, id));
      IsLeastRemaining(left.trips, Step(s, Stop(id, true)).ongoingDistance)
  {
    RestartReplacesDistance(Erased(s, Position(s.trips, id)), Counter(s));
  }

  /** When it is completed, the batch gets the least distance that really remains for the others. */
  lemma ReportReplacesDistance(s: State, t: Trip)
    requires Ledger(s) && t in s.trips && Arrived(s, t) && t.distance == s.ongoingDistance
    requires Reported(s).trips != []
    ensures IsLeastRemaining(Reported(s).trips, Step(s, Report(true)).ongoingDistance)
    ensures forall u :: u in Reported(s).trips ==> Knows(s, u)
  {
    var now, left := Counted(s.trips, Counter(s)), Reported(s);
    var i :| 0 <= i < |s.trips| && s.trips[i] == t;
    CountedArrives(s, i);
    assert now[i] in now && left.distanceDropped;
    FinishedMembers(now, now[i].id);
    CountedIsTravelled(s);
    RestartReplacesDistance(left, Counter(s));
  }

  /** A trip that starts or joins with the modem's consent leaves the batch ending in time for every trip, the
      newcomer included, if it did so before and is not overdue. */
  lemma StartIsOnTime(s: State, e: Event)
    requires e.Start? && e.queryOk && e.restartOk && OnTime(s)
    requires s.trips != [] ==> Counter(s) <= s.ongoingDistance
    ensures OnTime(Step(s, e))
  {
    var r := Step(s, e);
    forall i | 0 <= i < |r.trips| ensures r.ongoingDistance - Counter(r) <= ToGo(r, r.trips[i]) {
      if i < |s.trips| { assert ToGo(r, r.trips[i]) == ToGo(s, s.trips[i]); }
    }
  }
}
