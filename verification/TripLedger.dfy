/** Trip batching: many trip sessions share one modem batch, whose distance counter restarts from zero
    whenever the batch is restarted. Distances are unsigned 32-bit metres that wrap around. */
module TripLedger {

  const W := 0x1_0000_0000

  type uint32 = n: int | 0 <= n < 0x1_0000_0000

  /** The value kept in 32 bits. */
  function U(x: int): uint32 {
    x % 0x1_0000_0000
  }

  /** Addition and subtraction on 32 bits. */
  function Add(a: uint32, b: uint32): uint32 {
    if a + b >= W then a + b - W else a + b
  }

  function Sub(a: uint32, b: uint32): uint32 {
    if a >= b then a - b else a - b + W
  }

  /** A trip session. `joinedAt` is the odometer when it joined, which the adapter does not know. */
  datatype Trip = Trip(id: nat, onBatch: uint32, thisTrip: uint32, onRestart: uint32, distance: uint32, tbf: uint32,
                       joinedAt: nat)

  /** The sessions in the order of their ids, the parameters of the ongoing batch, and the flags that a
      trip with these parameters has gone; outside the adapter, the odometer and its value when the
      batch was started. */
  datatype State = State(trips: seq<Trip>, ongoingDistance: uint32, ongoingTbf: uint32, tbfDropped: bool,
                         distanceDropped: bool, odometer: nat, batchStart: nat)

  /** `queryOk` says whether the modem answers the distance query of a join, `restartOk` whether it agrees
      to a restart, if one is asked for. */
  datatype Event =
    | Travel(metres: nat)
    | Start(id: nat, distance: uint32, tbf: uint32, queryOk: bool, restartOk: bool)
    | Report(restartOk: bool)
    | Stop(id: nat, restartOk: bool)

  const INITIAL_STATE := State([], 0, 0, false, false, 0, 0)

  function Travelled(s: State, t: Trip): int {
    s.odometer - t.joinedAt
  }

  /** The distance of the ongoing batch, as the modem reports it. */
  function Counter(s: State): uint32 {
    U(s.odometer - s.batchStart)
  }

  // ---------------------------------------------------------------- one event

  function Accounted(t: Trip, acc: uint32): uint32 {
    Add(t.onRestart, Sub(acc, t.onBatch))
  }

  function Counted(trips: seq<Trip>, acc: uint32): (r: seq<Trip>)
    ensures |r| == |trips|
    ensures forall i :: 0 <= i < |r| ==> r[i] == trips[i].(thisTrip := Accounted(trips[i], acc))
  {
    seq(|trips|, i requires 0 <= i < |trips| => trips[i].(thisTrip := Accounted(trips[i], acc)))
  }

  predicate Completed(t: Trip) {
    t.distance <= t.thisTrip
  }

  function Unfinished(trips: seq<Trip>): (r: seq<Trip>)
    ensures forall t :: t in r <==> t in trips && !Completed(t)
  {
    if trips == [] then []
    else
      var n := |trips| - 1;
      assert trips == trips[..n] + [trips[n]];
      Unfinished(trips[..n]) + if Completed(trips[n]) then [] else [trips[n]]
  }

  function Finished(trips: seq<Trip>): seq<nat> {
    if trips == [] then []
    else
      var n := |trips| - 1;
      Finished(trips[..n]) + if Completed(trips[n]) then [trips[n].id] else []
  }

  predicate IsFinished(trips: seq<Trip>, id: nat) {
    exists t :: t in trips && t.id == id && Completed(t)
  }

  lemma {:induction false} FinishedMembers(trips: seq<Trip>, id: nat)
    ensures id in Finished(trips) <==> IsFinished(trips, id)
  {
    if trips != [] {
      var n := |trips| - 1;
      assert trips == trips[..n] + [trips[n]];
      FinishedMembers(trips[..n], id);
    }
  }

  /** The two loops look for a minimum, with zero for none yet. */
  function MinRemaining(trips: seq<Trip>): uint32 {
    if trips == [] then 0
    else
      var t, m := trips[|trips| - 1], MinRemaining(trips[..|trips| - 1]);
      if m == 0 || m > Sub(t.distance, t.thisTrip) then Sub(t.distance, t.thisTrip) else m
  }

  function MinTbf(trips: seq<Trip>): uint32 {
    if trips == [] then 0
    else
      var t, m := trips[|trips| - 1], MinTbf(trips[..|trips| - 1]);
      if m == 0 || m > t.tbf then t.tbf else m
  }

  datatype Plan = Plan(restart: bool, distance: uint32, tbf: uint32)

  predicate TbfChanges(s: State) {
    MinTbf(s.trips) < s.ongoingTbf || (MinTbf(s.trips) != s.ongoingTbf && s.tbfDropped)
  }

  /** The batch gets the distance `min`. */
  predicate DistanceChanges(ongoing: uint32, acc: uint32, min: uint32, dropped: bool) {
    if !dropped && Sub(ongoing, acc) != 0 then min < Sub(ongoing, acc) else min != 0
  }

  /** Whether to restart the batch, and with what distance and interval. */
  function PlanFor(s: State, acc: uint32): Plan {
    var min := MinRemaining(s.trips);
    var changes := DistanceChanges(s.ongoingDistance, acc, min, s.distanceDropped);
    Plan(changes || TbfChanges(s), if changes then min else s.ongoingDistance,
         if TbfChanges(s) then MinTbf(s.trips) else s.ongoingTbf)
  }

  /** A restart folds the distance of the ended batch into every session. */
  function Folded(trips: seq<Trip>, acc: uint32): (r: seq<Trip>)
    ensures |r| == |trips|
    ensures forall i :: 0 <= i < |r| ==>
      r[i] == trips[i].(thisTrip := Accounted(trips[i], acc), onBatch := 0, onRestart := Accounted(trips[i], acc))
  {
    seq(|trips|, i requires 0 <= i < |trips| =>
      trips[i].(thisTrip := Accounted(trips[i], acc), onBatch := 0, onRestart := Accounted(trips[i], acc)))
  }

  function RestartBatching(s: State, acc: uint32, ok: bool): State {
    if s.trips == [] then s.(ongoingDistance := 0, ongoingTbf := 0)
    else
      var p := PlanFor(s, acc);
      if p.restart && ok then
        s.(trips := Folded(s.trips, acc), ongoingDistance := p.distance, ongoingTbf := p.tbf, batchStart := s.odometer)
      else s
  }

  predicate SomeFinishedWithTbf(trips: seq<Trip>, tbf: uint32) {
    exists t :: t in trips && Completed(t) && t.tbf == tbf
  }

  predicate SomeFinishedWithDistance(trips: seq<Trip>, distance: uint32) {
    exists t :: t in trips && Completed(t) && t.distance == distance
  }

  /** The completed sessions go, and the flags record whether the batch had their parameters. */
  function Dropped(s: State, now: seq<Trip>): State {
    s.(trips := Unfinished(now), tbfDropped := s.tbfDropped || SomeFinishedWithTbf(now, s.ongoingTbf),
       distanceDropped := s.distanceDropped || SomeFinishedWithDistance(now, s.ongoingDistance))
  }

  function ReportStep(s: State, ok: bool): State {
    var now := Counted(s.trips, Counter(s));
    if Finished(now) == [] then s.(trips := now) else RestartBatching(Dropped(s, now), Counter(s), ok)
  }

  function FirstTrip(s: State, id: nat, distance: uint32, tbf: uint32): State {
    s.(trips := [Trip(id, 0, 0, 0, distance, tbf, s.odometer)], ongoingDistance := distance, ongoingTbf := tbf,
       batchStart := s.odometer)
  }

  /** What the join takes for the rest of the ongoing batch: all of it, if the query fails. */
  function RestOfBatch(s: State, queryOk: bool): uint32 {
    if queryOk then Sub(s.ongoingDistance, Counter(s)) else s.ongoingDistance
  }

  predicate JoinRestarts(s: State, distance: uint32, tbf: uint32, queryOk: bool) {
    s.ongoingTbf > tbf || distance < RestOfBatch(s, queryOk)
  }

  /** A join that restarts the batch keeps each session's last known trip distance, as it is. */
  function Forgotten(trips: seq<Trip>): (r: seq<Trip>)
    ensures |r| == |trips|
    ensures forall i :: 0 <= i < |r| ==> r[i] == trips[i].(onBatch := 0, onRestart := trips[i].thisTrip)
  {
    seq(|trips|, i requires 0 <= i < |trips| => trips[i].(onBatch := 0, onRestart := trips[i].thisTrip))
  }

  /** A join whose query fails is answered with success, but its session is not stored. */
  function JoinStep(s: State, id: nat, distance: uint32, tbf: uint32, queryOk: bool, restartOk: bool): State {
    var rest := RestOfBatch(s, queryOk);
    var joiner := if queryOk then [Trip(id, Counter(s), 0, 0, distance, tbf, s.odometer)] else [];
    var trips := s.trips + joiner;
    if !JoinRestarts(s, distance, tbf, queryOk) then s.(trips := trips)
    else
      s.(trips := Forgotten(trips),
         ongoingDistance := if distance < rest then distance else rest,
         ongoingTbf := if s.ongoingTbf > tbf then tbf else s.ongoingTbf,
         batchStart := if restartOk then s.odometer else s.batchStart)
  }

  function Position(trips: seq<Trip>, id: nat): (i: nat)
    ensures i <= |trips| && (i < |trips| ==> trips[i].id == id)
    ensures i == |trips| ==> forall t :: t in trips ==> t.id != id
  {
    if trips == [] then 0 else if trips[0].id == id then 0 else 1 + Position(trips[1..], id)
  }

  function Erased(s: State, i: nat): State
    requires i < |s.trips|
  {
    var t := s.trips[i];
    s.(trips := s.trips[..i] + s.trips[i + 1..], tbfDropped := s.tbfDropped || t.tbf == s.ongoingTbf,
       distanceDropped := s.distanceDropped || t.distance == s.ongoingDistance)
  }

  function StopStep(s: State, id: nat, ok: bool): State {
    var i := Position(s.trips, id);
    if i == |s.trips| then s
    else if |s.trips| == 1 then Erased(s, i).(ongoingDistance := 0, ongoingTbf := 0)
    else RestartBatching(Erased(s, i), Counter(s), ok)
  }

  function Step(s: State, e: Event): State {
    match e
    case Travel(metres) => s.(odometer := s.odometer + metres)
    case Start(id, distance, tbf, queryOk, ok) =>
      if s.trips != [] then JoinStep(s, id, distance, tbf, queryOk, ok)
      else if ok then FirstTrip(s, id, distance, tbf)
      else s
    case Report(ok) => ReportStep(s, ok)
    case Stop(id, ok) => StopStep(s, id, ok)
  }

  function Run(events: seq<Event>): State {
    if events == [] then INITIAL_STATE else Step(Run(events[..|events| - 1]), events[|events| - 1])
  }

  // ---------------------------------------------------------------- the ledger

  /** What the session has on its books matches the odometer, up to wrap-around. */
  predicate Balanced(s: State, t: Trip) {
    t.joinedAt <= s.odometer && Sub(t.onRestart, t.onBatch) == U(s.batchStart - t.joinedAt)
  }

  ghost predicate Ledger(s: State) {
    s.batchStart <= s.odometer && forall t :: t in s.trips ==> Balanced(s, t)
  }

  lemma SumOfWrapped(x: int, y: int)
    ensures U(x + U(y)) == U(x + y)
  {
    var k := y / 0x1_0000_0000;
    assert y == 0x1_0000_0000 * k + U(y);
  }

  lemma CongruentSums(a: int, b: int, c: int)
    requires U(a) == U(b)
    ensures U(a + c) == U(b + c)
  {
    SumOfWrapped(c, a);
    SumOfWrapped(c, b);
  }

  /** The 32-bit operations wrap the true sum and difference. */
  lemma AddSubWrap(a: uint32, b: uint32)
    ensures Add(a, b) == U(a + b) && Sub(a, b) == U(a - b)
  {
  }

  /** A balanced session's trip distance is the metres travelled since it joined. */
  lemma AccountedIsTravelled(s: State, t: Trip)
    requires Balanced(s, t)
    ensures Accounted(t, Counter(s)) == U(Travelled(s, t))
  {
    var own, batch, acc := t.onRestart - t.onBatch, s.odometer - s.batchStart, Counter(s);
    AddSubWrap(t.onRestart, Sub(acc, t.onBatch));
    AddSubWrap(acc, t.onBatch);
    AddSubWrap(t.onRestart, t.onBatch);
    SumOfWrapped(t.onRestart, acc - t.onBatch);
    SumOfWrapped(own, batch);
    CongruentSums(own, s.batchStart - t.joinedAt, batch);
    assert t.onRestart + (acc - t.onBatch) == own + acc;
    assert s.batchStart - t.joinedAt + batch == Travelled(s, t);
  }

  /** The stored trip distance is what a count at this moment would give. The adapter can check it. */
  predicate UpToDate(s: State, t: Trip) {
    t.thisTrip == Accounted(t, Counter(s))
  }

  /** The stored trip distance is the metres travelled since the session joined. */
  predicate Knows(s: State, t: Trip) {
    t.thisTrip == U(Travelled(s, t))
  }

  lemma UpToDateMeansKnows(s: State, t: Trip)
    requires Balanced(s, t)
    ensures UpToDate(s, t) <==> Knows(s, t)
  {
    AccountedIsTravelled(s, t);
  }

  /** Folding the distance of the batch into a balanced session balances it for the new batch. */
  lemma FoldedIsBalanced(s: State, r: State, t: Trip, f: Trip)
    requires Balanced(s, t) && r.odometer == r.batchStart == s.odometer
    requires f.onBatch == 0 && f.onRestart == f.thisTrip == Accounted(t, Counter(s)) && f.joinedAt == t.joinedAt
    ensures Balanced(r, f) && Knows(r, f)
  {
    AccountedIsTravelled(s, t);
  }

  lemma RestartKeepsLedger(s: State, ok: bool)
    requires Ledger(s)
    ensures var r := RestartBatching(s, Counter(s), ok);
      Ledger(r) && (r.batchStart != s.batchStart ==> forall t :: t in r.trips ==> Knows(r, t))
  {
    var r := RestartBatching(s, Counter(s), ok);
    if s.trips != [] && PlanFor(s, Counter(s)).restart && ok {
      forall i | 0 <= i < |r.trips| ensures Balanced(r, r.trips[i]) && Knows(r, r.trips[i]) {
        assert s.trips[i] in s.trips;
        FoldedIsBalanced(s, r, s.trips[i], r.trips[i]);
      }
    }
  }

  lemma CountedIsTravelled(s: State)
    requires Ledger(s)
    ensures forall t :: t in Counted(s.trips, Counter(s)) ==> Balanced(s, t) && Knows(s, t)
  {
    var now := Counted(s.trips, Counter(s));
    forall t | t in now ensures Balanced(s, t) && Knows(s, t) {
      var i :| 0 <= i < |now| && now[i] == t;
      assert s.trips[i] in s.trips;
      AccountedIsTravelled(s, s.trips[i]);
    }
  }

  /** Sessions may go, and flags and batch parameters change, as long as the batch is the same. */
  lemma SameBatchKeepsLedger(s: State, r: State)
    requires s.batchStart <= s.odometer && r.odometer == s.odometer && r.batchStart == s.batchStart
    requires forall t :: t in r.trips ==> Balanced(s, t)
    ensures Ledger(r) && Counter(r) == Counter(s)
  {
    forall t | t in r.trips ensures Balanced(r, t) { assert Balanced(s, t); }
  }

  lemma ReportKeepsLedger(s: State, ok: bool)
    requires Ledger(s)
    ensures Ledger(ReportStep(s, ok))
  {
    CountedIsTravelled(s);
    var now := Counted(s.trips, Counter(s));
    SameBatchKeepsLedger(s, s.(trips := now));
    if Finished(now) != [] {
      var left := Dropped(s, now);
      SameBatchKeepsLedger(s, left);
      RestartKeepsLedger(left, ok);
    }
  }

  lemma StopKeepsLedger(s: State, id: nat, ok: bool)
    requires Ledger(s)
    ensures Ledger(StopStep(s, id, ok))
  {
    var i := Position(s.trips, id);
    if i < |s.trips| {
      var left := Erased(s, i);
      SameBatchKeepsLedger(s, left);
      SameBatchKeepsLedger(s, left.(ongoingDistance := 0, ongoingTbf := 0));
      RestartKeepsLedger(left, ok);
    }
  }

  /** The condition on one stored session under which a join that restarts the batch keeps the ledger: its
      stored distance is up to date, or, if the modem refuses, nothing of the batch was its own. */
  predicate NothingForgotten(s: State, t: Trip, restartOk: bool) {
    t.thisTrip == Accounted(t, if restartOk then Counter(s) else 0)
  }

  /** The condition on a join, which the adapter can check. */
  predicate JoinIsSafe(s: State, distance: uint32, tbf: uint32, queryOk: bool, restartOk: bool) {
    JoinRestarts(s, distance, tbf, queryOk) ==>
      && (queryOk && !restartOk ==> Counter(s) == 0)
      && forall t :: t in s.trips ==> NothingForgotten(s, t, restartOk)
  }

  lemma ForgottenIsBalanced(s: State, r: State, t: Trip, f: Trip, restartOk: bool)
    requires s.batchStart <= s.odometer && Balanced(s, t)
    requires r.odometer == s.odometer && r.batchStart == if restartOk then s.odometer else s.batchStart
    requires f.onBatch == 0 && f.onRestart == t.thisTrip && f.joinedAt == t.joinedAt
    ensures Balanced(r, f) <==> NothingForgotten(s, t, restartOk)
  {
    AccountedIsTravelled(s, t);
    assert Accounted(t, 0) == Sub(t.onRestart, t.onBatch);
    assert Sub(f.onRestart, 0) == t.thisTrip;
  }

  lemma JoinerIsBalanced(s: State, r: State, f: Trip, restartOk: bool)
    requires s.batchStart <= s.odometer
    requires r.odometer == s.odometer && r.batchStart == if restartOk then s.odometer else s.batchStart
    requires f.onBatch == f.onRestart == 0 && f.joinedAt == s.odometer
    ensures Balanced(r, f) <==> restartOk || Counter(s) == 0
  {
    var d := s.odometer - s.batchStart;
    SumOfWrapped(-d, d);
    SumOfWrapped(d, -d);
  }

  lemma RestartingJoinKeepsLedgerExactly(s: State, id: nat, distance: uint32, tbf: uint32, queryOk: bool,
                                         restartOk: bool)
    requires Ledger(s) && JoinRestarts(s, distance, tbf, queryOk)
    ensures Ledger(JoinStep(s, id, distance, tbf, queryOk, restartOk)) <==>
      JoinIsSafe(s, distance, tbf, queryOk, restartOk)
  {
    var r := JoinStep(s, id, distance, tbf, queryOk, restartOk);
    var n := |s.trips|;
    forall i | 0 <= i < n
      ensures r.trips[i] in r.trips && (Balanced(r, r.trips[i]) <==> NothingForgotten(s, s.trips[i], restartOk))
    {
      assert s.trips[i] in s.trips;
      ForgottenIsBalanced(s, r, s.trips[i], r.trips[i], restartOk);
    }
    if queryOk {
      JoinerIsBalanced(s, r, r.trips[n], restartOk);
      assert r.trips[n] in r.trips;
    }
    assert |r.trips| == if queryOk then n + 1 else n;
    if Ledger(r) {
      forall t | t in s.trips ensures NothingForgotten(s, t, restartOk) {
        var i :| 0 <= i < n && s.trips[i] == t;
        assert Balanced(r, r.trips[i]);
      }
    }
  }

  /** A join keeps the ledger if and only if it does not restart the batch, or no session has anything
      left to account: every stored distance is up to date. If the modem then refuses the restart, the
      books have been reset all the same, and nothing may have been travelled in the batch. */
  lemma JoinKeepsLedgerExactly(s: State, id: nat, distance: uint32, tbf: uint32, queryOk: bool, restartOk: bool)
    requires Ledger(s)
    ensures Ledger(JoinStep(s, id, distance, tbf, queryOk, restartOk)) <==>
      JoinIsSafe(s, distance, tbf, queryOk, restartOk)
  {
    if JoinRestarts(s, distance, tbf, queryOk) {
      RestartingJoinKeepsLedgerExactly(s, id, distance, tbf, queryOk, restartOk);
    } else {
      var joiner := Trip(id, Counter(s), 0, 0, distance, tbf, s.odometer);
      SumOfWrapped(0, s.batchStart - s.odometer);
      AddSubWrap(0, Counter(s));
      SumOfWrapped(s.batchStart - s.odometer, 0);
      JoinerOnRunningBatch(s);
    }
  }

  lemma JoinerOnRunningBatch(s: State)
    requires s.batchStart <= s.odometer
    ensures Sub(0, Counter(s)) == U(s.batchStart - s.odometer)
  {
    var d := s.odometer - s.batchStart;
    var k := d / 0x1_0000_0000;
    assert d == 0x1_0000_0000 * k + Counter(s);
  }

  /** With a modem that agrees to the restart, a join keeps the ledger if and only if the stored distance
      of every session is what it has travelled, by the odometer. */
  lemma ConsentedJoinKeepsLedgerExactly(s: State, id: nat, distance: uint32, tbf: uint32, queryOk: bool)
    requires Ledger(s) && JoinRestarts(s, distance, tbf, queryOk)
    ensures Ledger(JoinStep(s, id, distance, tbf, queryOk, true)) <==> forall t :: t in s.trips ==> Knows(s, t)
  {
    JoinKeepsLedgerExactly(s, id, distance, tbf, queryOk, true);
    forall t | t in s.trips ensures NothingForgotten(s, t, true) <==> Knows(s, t) {
      UpToDateMeansKnows(s, t);
    }
  }

  predicate InScope(s: State, e: Event) {
    e.Start? && s.trips != [] ==> JoinIsSafe(s, e.distance, e.tbf, e.queryOk, e.restartOk)
  }

  /** The scope is exact: an event keeps the ledger if and only if it is not an unsafe join. */
  lemma StepKeepsLedger(s: State, e: Event)
    requires Ledger(s)
    ensures Ledger(Step(s, e)) <==> InScope(s, e)
  {
    match e
    case Travel(_) =>
    case Start(id, distance, tbf, queryOk, ok) =>
      if s.trips != [] { JoinKeepsLedgerExactly(s, id, distance, tbf, queryOk, ok); }
    case Report(ok) => ReportKeepsLedger(s, ok);
    case Stop(id, ok) => StopKeepsLedger(s, id, ok);
  }

  predicate AllInScope(events: seq<Event>) {
    events == [] ||
    (AllInScope(events[..|events| - 1]) && InScope(Run(events[..|events| - 1]), events[|events| - 1]))
  }

  lemma {:induction false} LedgerOverRuns(events: seq<Event>)
    requires AllInScope(events)
    ensures Ledger(Run(events))
  {
    if events != [] {
      var n := |events| - 1;
      LedgerOverRuns(events[..n]);
      StepKeepsLedger(Run(events[..n]), events[n]);
    }
  }

  // ---------------------------------------------------------------- completion reports

  /** The session has come as far as it was to go, up to wrap-around. */
  predicate Arrived(s: State, t: Trip) {
    t.distance <= U(Travelled(s, t))
  }

  lemma CountedArrives(s: State, i: nat)
    requires Ledger(s) && i < |s.trips|
    ensures var t := Counted(s.trips, Counter(s))[i];
      t.id == s.trips[i].id && (Completed(t) <==> Arrived(s, s.trips[i]))
  {
    assert s.trips[i] in s.trips;
    AccountedIsTravelled(s, s.trips[i]);
  }

  lemma FinishedHaveArrived(s: State, id: nat)
    requires Ledger(s)
    ensures id in Finished(Counted(s.trips, Counter(s))) <==> exists t :: t in s.trips && t.id == id && Arrived(s, t)
  {
    var now := Counted(s.trips, Counter(s));
    FinishedMembers(now, id);
    if t :| t in s.trips && t.id == id && Arrived(s, t) {
      var i :| 0 <= i < |s.trips| && s.trips[i] == t;
      CountedArrives(s, i);
      assert now[i] in now;
    }
    if t :| t in now && t.id == id && Completed(t) {
      var i :| 0 <= i < |now| && now[i] == t;
      CountedArrives(s, i);
      assert s.trips[i] in s.trips;
    }
  }

  /** Over every run in scope, a report ends exactly the sessions whose distance has been travelled
      since they joined, and leaves the others knowing how far they have come. */
  lemma ReportEndsExactlyTheCompleted(events: seq<Event>, id: nat)
    requires AllInScope(events)
    ensures var s := Run(events);
      id in Finished(Counted(s.trips, Counter(s))) <==> exists t :: t in s.trips && t.id == id && Arrived(s, t)
    ensures var s := Run(events);
      forall t :: t in Unfinished(Counted(s.trips, Counter(s))) ==> Knows(s, t) && t.thisTrip < t.distance
  {
    LedgerOverRuns(events);
    FinishedHaveArrived(Run(events), id);
    CountedIsTravelled(Run(events));
  }

  /** With no completed session the loop that uses zero for "none yet" finds the true minimum of what
      remains, which is positive and does not wrap. */
  lemma {:induction false} SentinelFindsMinimum(trips: seq<Trip>)
    requires trips != [] && forall t :: t in trips ==> t.thisTrip < t.distance
    ensures var m := MinRemaining(trips);
      && m > 0
      && (forall t :: t in trips ==> m <= t.distance - t.thisTrip)
      && (exists t :: t in trips && m == t.distance - t.thisTrip)
  {
    var n := |trips| - 1;
    var last := trips[n];
    assert trips == trips[..n] + [last];
    if n == 0 {
      assert MinRemaining(trips[..n]) == 0;
      assert last in trips;
    } else {
      SentinelFindsMinimum(trips[..n]);
      var t :| t in trips[..n] && MinRemaining(trips[..n]) == t.distance - t.thisTrip;
      assert t in trips && last in trips;
    }
  }

  /** What remains for the session that has the least to go, without wrap-around. */
  function Least(trips: seq<Trip>): int
    requires trips != []
  {
    var n := |trips| - 1;
    var d := trips[n].distance - trips[n].thisTrip;
    if n == 0 || d <= Least(trips[..n]) then d else Least(trips[..n])
  }

  lemma {:induction false} LeastIsMinimum(trips: seq<Trip>)
    requires trips != []
    ensures forall t :: t in trips ==> Least(trips) <= t.distance - t.thisTrip
    ensures exists t :: t in trips && Least(trips) == t.distance - t.thisTrip
  {
    var n := |trips| - 1;
    assert trips == trips[..n] + [trips[n]];
    assert trips[n] in trips;
    if n > 0 {
      LeastIsMinimum(trips[..n]);
      var t :| t in trips[..n] && Least(trips[..n]) == t.distance - t.thisTrip;
      assert t in trips;
    }
  }

  /** The loop finds the true minimum if and only if no session has come further than it was to go, and
      one that has come exactly as far is the last of the list. */
  lemma SentinelFindsMinimumExactly(trips: seq<Trip>)
    requires trips != []
    ensures var last := trips[|trips| - 1];
      MinRemaining(trips) == Least(trips) <==>
      && (forall t :: t in trips ==> t.thisTrip <= t.distance)
      && ((exists t :: t in trips && t.thisTrip == t.distance) ==> last.thisTrip == last.distance)
  {
    var last := trips[|trips| - 1];
    LeastIsMinimum(trips);
    assert MinRemaining(trips) == 0 <==> Sub(last.distance, last.thisTrip) == 0;
    if forall t :: t in trips ==> t.thisTrip < t.distance {
      SentinelFindsMinimum(trips);
    }
  }

  /** So one session past its distance is enough to miss the minimum, whatever else is listed. */
  lemma SentinelWrapsPastCompletion(trips: seq<Trip>, t: Trip)
    requires t in trips && t.distance < t.thisTrip
    ensures MinRemaining(trips) > Least(trips)
  {
    LeastIsMinimum(trips);
  }

  // ---------------------------------------------------------------- the modem wakes up in time

  /** What really remains for a session, negative if it has come further. */
  function ToGo(s: State, t: Trip): int {
    t.distance - U(Travelled(s, t))
  }

  /** The batch ends no later than the first session has travelled its distance. */
  predicate OnTime(s: State) {
    forall i :: 0 <= i < |s.trips| ==> s.ongoingDistance - Counter(s) <= ToGo(s, s.trips[i])
  }

  /** The distance of the batch changes. */
  predicate NewDistance(s: State) {
    DistanceChanges(s.ongoingDistance, Counter(s), MinRemaining(s.trips), s.distanceDropped)
  }

  /** The condition under which the batch ends in time, on what the adapter has before the restart: the new
      distance is computed from stored trip distances, which may be out of date; a restart for the interval
      alone keeps the full distance, though only part of it remains; else the batch goes on as it is. */
  predicate PlansInTime(s: State, ok: bool)
    requires s.trips != []
  {
    var left := Least(Counted(s.trips, Counter(s)));
    if ok && NewDistance(s) then MinRemaining(s.trips) <= left
    else if ok && TbfChanges(s) then s.ongoingDistance <= left
    else s.ongoingDistance - Counter(s) <= left
  }

  lemma LeastIsBound(trips: seq<Trip>, x: int)
    requires trips != []
    ensures x <= Least(trips) <==> forall i :: 0 <= i < |trips| ==> x <= trips[i].distance - trips[i].thisTrip
  {
    LeastIsMinimum(trips);
    assert forall i :: 0 <= i < |trips| ==> trips[i] in trips;
  }

  lemma RestartOutcome(s: State, ok: bool)
    requires s.trips != []
    ensures var r := RestartBatching(s, Counter(s), ok);
      && r.ongoingDistance == (if ok && NewDistance(s) then MinRemaining(s.trips) else s.ongoingDistance)
      && Counter(r) == (if ok && (NewDistance(s) || TbfChanges(s)) then 0 else Counter(s))
      && r.odometer == s.odometer && |r.trips| == |s.trips|
      && forall i :: 0 <= i < |s.trips| ==>
        r.trips[i].distance == s.trips[i].distance && r.trips[i].joinedAt == s.trips[i].joinedAt
  {
  }

  /** For every state whose books are balanced: after restartTripBatching the batch ends in time if and
      only if the plan does. */
  lemma RestartOnTimeExactly(s: State, ok: bool)
    requires s.trips != [] && Ledger(s)
    ensures OnTime(RestartBatching(s, Counter(s), ok)) <==> PlansInTime(s, ok)
  {
    var r, now := RestartBatching(s, Counter(s), ok), Counted(s.trips, Counter(s));
    RestartOutcome(s, ok);
    forall i | 0 <= i < |now| ensures U(Travelled(r, r.trips[i])) == now[i].thisTrip {
      assert s.trips[i] in s.trips;
      AccountedIsTravelled(s, s.trips[i]);
    }
    assert forall i :: 0 <= i < |now| ==> ToGo(r, r.trips[i]) == now[i].distance - now[i].thisTrip;
    LeastIsBound(now, r.ongoingDistance - Counter(r));
  }

  lemma {:induction false} CountedAgain(trips: seq<Trip>, acc: uint32)
    requires forall t :: t in trips ==> t.thisTrip == Accounted(t, acc)
    ensures Counted(trips, acc) == trips
  {
    forall i | 0 <= i < |trips| ensures Counted(trips, acc)[i] == trips[i] { assert trips[i] in trips; }
  }

  /** If the distance does not change, what remains of it is no more than the minimum. */
  lemma UnchangedDistanceSuffices(ongoing: uint32, acc: uint32, min: uint32, dropped: bool)
    requires min > 0 && !DistanceChanges(ongoing, acc, min, dropped)
    ensures ongoing - acc <= min
  {
  }

  /** With every session up to date and unfinished, as after a completion report, only a restart for the
      interval alone can be late. */
  lemma UpToDateRestartOnTime(s: State)
    requires s.trips != [] && Ledger(s)
    requires forall t :: t in s.trips ==> UpToDate(s, t) && t.thisTrip < t.distance
    ensures OnTime(RestartBatching(s, Counter(s), true)) <==>
      !(!NewDistance(s) && TbfChanges(s) && s.ongoingDistance > MinRemaining(s.trips))
  {
    RestartOnTimeExactly(s, true);
    CountedAgain(s.trips, Counter(s));
    SentinelFindsMinimum(s.trips);
    LeastIsMinimum(s.trips);
    if !NewDistance(s) {
      UnchangedDistanceSuffices(s.ongoingDistance, Counter(s), MinRemaining(s.trips), s.distanceDropped);
    }
  }

  // ---------------------------------------------------------------- the shortest failing runs

  lemma RunExtends(events: seq<Event>, e: Event)
    ensures Run(events + [e]) == Step(Run(events), e)
    ensures AllInScope(events + [e]) <==> AllInScope(events) && InScope(Run(events), e)
  {
    assert (events + [e])[..|events|] == events;
  }

  lemma RunOfFour(e1: Event, e2: Event, e3: Event, e4: Event)
    ensures var s1 := Step(INITIAL_STATE, e1);
      var s2 := Step(s1, e2);
      var s3 := Step(s2, e3);
      && Run([e1, e2, e3, e4]) == Step(s3, e4)
      && (InScope(INITIAL_STATE, e1) && InScope(s1, e2) && InScope(s2, e3) && InScope(s3, e4) ==>
           AllInScope([e1, e2, e3, e4]))
  {
    assert [] + [e1] == [e1] && [e1] + [e2] == [e1, e2] && [e1, e2] + [e3] == [e1, e2, e3];
    assert [e1, e2, e3] + [e4] == [e1, e2, e3, e4];
    RunExtends([], e1);
    RunExtends([e1], e2);
    RunExtends([e1, e2], e3);
    RunExtends([e1, e2, e3], e4);
  }

  /** Two trips, the second stopped: the batch is restarted for the first alone. */
  lemma SecondStops(s: State, t: Trip, u: Trip)
    requires s.trips == [t, u] && t.id != u.id && s.batchStart <= s.odometer && Balanced(s, t)
    ensures var left, r := Erased(s, 1), Step(s, Stop(u.id, true));
      && left.trips == [t] && Counter(left) == Counter(s)
      && MinRemaining([t]) == Sub(t.distance, t.thisTrip) && MinTbf([t]) == t.tbf
      && Least(Counted([t], Counter(s))) == t.distance - Accounted(t, Counter(s))
      && (OnTime(r) <==> PlansInTime(left, true))
  {
    assert s.trips[1..] == [u] && Position([u], u.id) == 0 && Position(s.trips, u.id) == 1;
    assert s.trips[..1] + s.trips[2..] == [t];
    assert [t][..0] == [] && MinRemaining([]) == 0 && MinTbf([]) == 0;
    SameBatchKeepsLedger(s, Erased(s, 1));
    RestartOnTimeExactly(Erased(s, 1), true);
  }

  lemma FirstJoins(e: Event)
    requires e == Start(1, 1000, 10, true, true)
    ensures Step(INITIAL_STATE, e) == State([Trip(1, 0, 0, 0, 1000, 10, 0)], 1000, 10, false, false, 0, 0)
    ensures InScope(INITIAL_STATE, e)
  {
  }

  /** A second trip joins at once, before the first has moved, and restarts the batch. */
  lemma SecondJoinsAtOnce(s: State, e: Event, t: Trip, u: Trip)
    requires t == Trip(1, 0, 0, 0, 1000, 10, 0) && u == Trip(2, 0, 0, 0, u.distance, u.tbf, 0)
    requires s == State([t], 1000, 10, false, false, 0, 0) && e == Start(2, u.distance, u.tbf, true, true)
    requires u.distance < 1000 || u.tbf < 10
    ensures var d, i := if u.distance < 1000 then u.distance else 1000, if u.tbf < 10 then u.tbf else 10;
      Step(s, e) == State([t, u], d, i, false, false, 0, 0)
    ensures InScope(s, e)
  {
    assert RestOfBatch(s, true) == 1000 && NothingForgotten(s, t, true);
    assert Step(s, e).trips == [t, u];
  }

  /** From one trip of 1000 m just started, a second one that joins at once, restarts the batch and stops
      after some metres. */
  lemma JoinThenStop(e1: Event, e2: Event, e3: Event, e4: Event, t: Trip, u: Trip)
    requires t == Trip(1, 0, 0, 0, 1000, 10, 0) && u == Trip(2, 0, 0, 0, u.distance, u.tbf, 0)
    requires u.distance < 1000 || u.tbf < 10
    requires e1 == Start(1, 1000, 10, true, true) && e2 == Start(2, u.distance, u.tbf, true, true)
    requires e3.Travel? && e4 == Stop(2, true)
    ensures var d, i := if u.distance < 1000 then u.distance else 1000, if u.tbf < 10 then u.tbf else 10;
      var s := State([t, u], d, i, false, false, e3.metres, 0);
      AllInScope([e1, e2, e3, e4]) && Run([e1, e2, e3, e4]) == Step(s, e4) && Balanced(s, t)
  {
    FirstJoins(e1);
    SecondJoinsAtOnce(Step(INITIAL_STATE, e1), e2, t, u);
    RunOfFour(e1, e2, e3, e4);
  }

  /** A trip of 1000 m, and one of 400 m that shortens the batch and stops after 300 m. The batch is
      restarted for 1000 m from the stored distance of the first trip, which has 700 m left. */
  lemma StopRestartsLate()
    ensures var events := [Start(1, 1000, 10, true, true), Start(2, 400, 10, true, true), Travel(300), Stop(2, true)];
      AllInScope(events) && !OnTime(Run(events))
  {
    var t, u := Trip(1, 0, 0, 0, 1000, 10, 0), Trip(2, 0, 0, 0, 400, 10, 0);
    JoinThenStop(Start(1, 1000, 10, true, true), Start(2, 400, 10, true, true), Travel(300), Stop(2, true), t, u);
    SecondStops(State([t, u], 400, 10, false, false, 300, 0), t, u);
  }

  /** A trip of 1000 m, and one with a shorter interval that stops after 400 m. The batch is restarted for
      the interval alone and keeps its 1000 m, while the first trip has 600 m left. */
  lemma IntervalRestartsLate()
    ensures var events := [Start(1, 1000, 10, true, true), Start(2, 2000, 5, true, true), Travel(400), Stop(2, true)];
      AllInScope(events) && !OnTime(Run(events))
  {
    var t, u := Trip(1, 0, 0, 0, 1000, 10, 0), Trip(2, 0, 0, 0, 2000, 5, 0);
    JoinThenStop(Start(1, 1000, 10, true, true), Start(2, 2000, 5, true, true), Travel(400), Stop(2, true), t, u);
    SecondStops(State([t, u], 1000, 5, false, false, 400, 0), t, u);
  }

  /** A joiner of 100 m comes 400 m on the way and restarts the batch, which forgets the 400 m. */
  lemma SecondJoinsLate(s: State, e: Event, t: Trip)
    requires t == Trip(1, 0, 0, 0, 1000, 10, 0) && s == State([t], 1000, 10, false, false, 400, 0)
    requires e == Start(2, 100, 10, true, true)
    ensures Step(s, e) == State([t, Trip(2, 0, 0, 0, 100, 10, 400)], 100, 10, false, false, 400, 400)
  {
    assert Counter(s) == 400 && RestOfBatch(s, true) == 600;
    assert Step(s, e).trips == [t, Trip(2, 0, 0, 0, 100, 10, 400)];
  }

  /** One trip of 1000 m, 400 m on the way, a joiner of 100 m that restarts the batch. The first trip is
      then booked with no metres at all, and 600 m later it is not known to be complete. */
  lemma RestartingJoinLosesMetres()
    ensures var s := Run([Start(1, 1000, 10, true, true), Travel(400), Start(2, 100, 10, true, true), Travel(600)]);
      && !Ledger(s) && |s.trips| == 2
      && Travelled(s, s.trips[0]) == 1000 && Accounted(s.trips[0], Counter(s)) == 600
  {
    var e1, e2, e3, e4 := Start(1, 1000, 10, true, true), Travel(400), Start(2, 100, 10, true, true), Travel(600);
    var t := Trip(1, 0, 0, 0, 1000, 10, 0);
    FirstJoins(e1);
    SecondJoinsLate(State([t], 1000, 10, false, false, 400, 0), e3, t);
    RunOfFour(e1, e2, e3, e4);
    var s := State([t, Trip(2, 0, 0, 0, 100, 10, 400)], 100, 10, false, false, 1000, 400);
    assert t in s.trips && !Balanced(s, t);
  }
}
