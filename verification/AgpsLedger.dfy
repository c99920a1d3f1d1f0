/** What every run of the AGPS machine keeps: the shape of the subscriber list, one terminal
    notification for every accepted subscription, and one release for every data-connection request. */
module AgpsLedger {
  import opened AgpsModel

  // ---------------------------------------------------------------- state and list

  ghost predicate StateListInv(m: Machine) {
    && Distinct(m.subs)
    && (m.state == Released ==> m.subs == [])
    && (forall s :: s in m.subs && s.isInactive ==> s.waitForCloseComplete)
  }

  /** What also holds as long as the modem has not restarted. */
  ghost predicate SomebodyWaits(m: Machine) {
    && (m.state == Pending || m.state == Acquired ==> AnyActive(m.subs))
    && (m.state == Releasing ==> exists s :: s in m.subs && s.isInactive)
  }

  lemma DistinctMembers(subs: seq<Subscriber>, s: Subscriber, t: Subscriber)
    requires Distinct(subs) && s in subs && t in subs && s.connHandle == t.connHandle
    ensures s == t
  {
  }

  lemma DeactivateMembers(subs: seq<Subscriber>, h: int)
    ensures forall s :: s in Deactivate(subs, h) && s.connHandle != h ==> s in subs
    ensures forall s :: s in subs && s.connHandle != h ==> s in Deactivate(subs, h)
    ensures forall s :: s in subs && s.connHandle == h ==> s.(isInactive := true) in Deactivate(subs, h)
    ensures forall s :: s in Deactivate(subs, h) && s.connHandle == h ==>
      s.isInactive && exists t :: t in subs && t.(isInactive := true) == s
    ensures Distinct(subs) ==> Distinct(Deactivate(subs, h))
  {
    var r := Deactivate(subs, h);
    forall s | s in r
      ensures s.connHandle != h ==> s in subs
      ensures s.connHandle == h ==> s.isInactive && exists t :: t in subs && t.(isInactive := true) == s
    {
      var i :| 0 <= i < |r| && r[i] == s;
      assert subs[i] in subs;
    }
    forall s | s in subs
      ensures s.connHandle != h ==> s in r
      ensures s.connHandle == h ==> s.(isInactive := true) in r
    {
      var i :| 0 <= i < |subs| && subs[i] == s;
      assert r[i] in r;
    }
  }

  lemma AddedMembers(subs: seq<Subscriber>, s: Subscriber)
    ensures forall t :: t in AddedTo(subs, s) <==> t in subs || (!Listed(subs, s.connHandle) && t == s)
    ensures Distinct(subs) ==> Distinct(AddedTo(subs, s))
  {
  }

  lemma StayEveryone(subs: seq<Subscriber>)
    ensures Stay(subs, Everyone) == []
  {
    var r := Stay(subs, Everyone);
    assert forall i :: 0 <= i < |r| ==> r[i] in r;
  }

  lemma ClosedWhileReleasingLeavesActive(m: Machine)
    requires StateListInv(m)
    ensures StateListInv(ClosedWhileReleasing(m).m)
  {
    var left := Stay(m.subs, InactiveOnly);
    if left != [] {
      assert left[0] in left;
      assert AnyActive(left);
    }
  }

  lemma StepKeepsStateListInv(m: Machine, e: Event)
    requires StateListInv(m)
    ensures StateListInv(Step(m, e).m)
  {
    match e
    case Subscribe(h, wait, t) => AddedMembers(m.subs, Subscriber(h, wait, false));
    case Unsubscribe(h) =>
      if Listed(m.subs, h) {
        DeactivateMembers(m.subs, h);
        var s := Lookup(m.subs, h);
        forall t | t in m.subs && t.connHandle == h ensures t == s { DistinctMembers(m.subs, s, t); }
      }
    case _ =>
      StayEveryone(m.subs);
      ClosedWhileReleasingLeavesActive(m);
  }

  lemma StepKeepsSomebodyWaiting(m: Machine, e: Event)
    requires StateListInv(m) && SomebodyWaits(m) && e != ModemRestart
    ensures SomebodyWaits(Step(m, e).m)
  {
    match e
    case Subscribe(h, wait, t) =>
      var s := Subscriber(h, wait, false);
      AddedMembers(m.subs, s);
    case Unsubscribe(h) =>
      if Listed(m.subs, h) {
        DeactivateMembers(m.subs, h);
        var s := Lookup(m.subs, h);
        forall t | t in m.subs && t.connHandle == h ensures t == s { DistinctMembers(m.subs, s, t); }
        var subs := if s.waitForCloseComplete then Deactivate(m.subs, h) else Without(m.subs, h);
        if subs != [] { assert subs[0] in subs; }
      }
    case _ =>
  }

  /** Every reachable machine has distinct handles and an empty list when RELEASED; with no modem
      restart, PENDING and ACQUIRED have an active subscriber and RELEASING an inactive one. */
  lemma {:induction false} ReachableStateList(events: seq<Event>)
    ensures StateListInv(Run(INITIAL_INTERNET_MACHINE, events))
    ensures ModemRestart !in events ==> SomebodyWaits(Run(INITIAL_INTERNET_MACHINE, events))
  {
    if events != [] {
      var n := |events| - 1;
      ReachableStateList(events[..n]);
      StepKeepsStateListInv(Run(INITIAL_INTERNET_MACHINE, events[..n]), events[n]);
      if ModemRestart !in events {
        StepKeepsSomebodyWaiting(Run(INITIAL_INTERNET_MACHINE, events[..n]), events[n]);
      }
    }
  }

  // ---------------------------------------------------------------- the ledger

  /** The history of a run: what was sent, plus when a subscription was taken into the list, when
      a modem restart dropped it, and when the framework ended the connection by itself. */
  datatype Entry = Sent(o: Output) | Accepted(handle: int) | Dropped(handle: int) | EndedByFramework

  function SentAll(out: seq<Output>): (r: seq<Entry>)
    ensures |r| == |out|
    ensures forall i :: 0 <= i < |out| ==> r[i] == Sent(out[i])
  {
    seq(|out|, i requires 0 <= i < |out| => Sent(out[i]))
  }

  function DroppedAll(subs: seq<Subscriber>): seq<Entry> {
    if subs == [] then [] else [Dropped(subs[0].connHandle)] + DroppedAll(subs[1..])
  }

  function Markers(m: Machine, e: Event): seq<Entry> {
    match e
    case Subscribe(h, _, _) => if Listed(m.subs, h) then [] else [Accepted(h)]
    case ModemRestart => DroppedAll(m.subs)
    case ConnReleased => if m.state == Acquired then [EndedByFramework] else []
    case Denied => if m.state == Pending then [EndedByFramework] else []
    case _ => []
  }

  function StepEntries(m: Machine, e: Event): seq<Entry> {
    Markers(m, e) + SentAll(Step(m, e).out)
  }

  function History(m: Machine, events: seq<Event>): seq<Entry> {
    if events == [] then []
    else
      var before := events[..|events| - 1];
      History(m, before) + StepEntries(Run(m, before), events[|events| - 1])
  }

  /** The life of the subscription that currently owns a handle. Broken records a terminal notice
      nobody was owed, a second open-success, an open-failure after an open-success, or a second
      acceptance of a live subscription; it is never left. */
  datatype Phase = Idle | Waiting | Opened | Broken

  function Advance(p: Phase, e: Entry, h: int): Phase {
    match e
    case Accepted(k) => if k != h then p else if p == Idle then Waiting else Broken
    case Dropped(k) => if k != h then p else if p == Waiting || p == Opened then Idle else Broken
    case Sent(Notify(k, OpenSuccess)) => if k != h then p else if p == Waiting then Opened else Broken
    case Sent(Notify(k, OpenFailed)) => if k != h then p else if p == Waiting then Idle else Broken
    case Sent(Notify(k, Close)) => if k != h then p else if p == Waiting || p == Opened then Idle else Broken
    case _ => p
  }

  function Replay(p: Phase, log: seq<Entry>, h: int): Phase
    decreases log
  {
    if log == [] then p else Replay(Advance(p, log[0], h), log[1..], h)
  }

  lemma {:induction false} ReplayConcat(p: Phase, a: seq<Entry>, b: seq<Entry>, h: int)
    ensures Replay(p, a + b, h) == Replay(Replay(p, a, h), b, h)
    decreases a
  {
    if a == [] {
      assert a + b == b;
    } else {
      assert (a + b)[1..] == a[1..] + b;
      ReplayConcat(Advance(p, a[0], h), a[1..], b, h);
    }
  }

  /** A notification round moves the phase of a chosen subscriber once and no other phase. */
  lemma {:induction false} ReplayNotices(p: Phase, subs: seq<Subscriber>, who: Who, n: Notice, h: int)
    requires Distinct(subs)
    ensures Replay(p, SentAll(Notices(subs, who, n)), h) ==
      if exists s :: s in subs && s.connHandle == h && Chosen(who, s) then Advance(p, Sent(Notify(h, n)), h) else p
    decreases subs
  {
    if subs != [] {
      var s, rest := subs[0], subs[1..];
      assert Distinct(rest);
      assert forall t :: t in subs <==> t == s || t in rest;
      var tail := SentAll(Notices(rest, who, n));
      if Chosen(who, s) {
        var first := Sent(Notify(s.connHandle, n));
        assert SentAll(Notices(subs, who, n)) == [first] + tail;
        assert ([first] + tail)[1..] == tail;
        ReplayNotices(Advance(p, first, h), rest, who, n, h);
      } else {
        assert SentAll(Notices(subs, who, n)) == tail;
        ReplayNotices(p, rest, who, n, h);
      }
    }
  }

  lemma {:induction false} ReplayDropped(p: Phase, subs: seq<Subscriber>, h: int)
    requires Distinct(subs)
    ensures Replay(p, DroppedAll(subs), h) == if Listed(subs, h) then Advance(p, Dropped(h), h) else p
    decreases subs
  {
    if subs != [] {
      assert Distinct(subs[1..]);
      assert forall t :: t in subs <==> t == subs[0] || t in subs[1..];
      ReplayDropped(Advance(p, Dropped(subs[0].connHandle), h), subs[1..], h);
    }
  }

  /** The phase a handle may be in, given the machine. */
  ghost predicate Fits(m: Machine, h: int, p: Phase) {
    && p != Broken
    && (p == Idle <==> !Listed(m.subs, h))
    && (forall s :: s in m.subs && s.connHandle == h ==>
      && (m.state == Pending ==> p == Waiting)
      && (!s.isInactive && m.state == Releasing ==> p == Waiting)
      && (!s.isInactive && m.state == Acquired ==> p == Opened))
  }

  /** The one event outside the ledger of h: subscribing, while ACQUIRED, with a handle that has been
      granted and not yet told its end. Its owner can tell. */
  predicate SecondGrant(m: Machine, e: Event, h: int, p: Phase) {
    e.Subscribe? && m.state == Acquired && e.handle == h && p == Opened
  }

  lemma ReplaySmall(p: Phase, a: Entry, b: Entry, h: int)
    ensures Replay(p, [a], h) == Advance(p, a, h)
    ensures Replay(p, [a, b], h) == Advance(Advance(p, a, h), b, h)
  {
    assert [a, b][1..] == [b];
    assert Replay(Advance(p, a, h), [b], h) == Advance(Advance(p, a, h), b, h);
  }

  lemma SubscribeKeepsLedger(m: Machine, e: Event, h: int, p: Phase)
    requires StateListInv(m) && Fits(m, h, p) && e.Subscribe? && !SecondGrant(m, e, h, p)
    ensures Fits(Step(m, e).m, h, Replay(p, StepEntries(m, e), h))
  {
    var k := e.handle;
    AddedMembers(m.subs, Subscriber(k, e.waitForCloseComplete, false));
    var out := Step(m, e).out;
    if Listed(m.subs, k) {
      if out == [] {
        assert StepEntries(m, e) == [];
      } else {
        assert StepEntries(m, e) == [Sent(out[0])];
        ReplaySmall(p, Sent(out[0]), Sent(out[0]), h);
      }
    } else if out == [] {
      assert StepEntries(m, e) == [Accepted(k)];
      ReplaySmall(p, Accepted(k), Accepted(k), h);
    } else {
      assert StepEntries(m, e) == [Accepted(k), Sent(out[0])];
      ReplaySmall(p, Accepted(k), Sent(out[0]), h);
    }
  }

  lemma UnsubscribeKeepsLedger(m: Machine, k: int, h: int, p: Phase)
    requires StateListInv(m) && Fits(m, h, p)
    ensures Fits(Step(m, Unsubscribe(k)).m, h, Replay(p, StepEntries(m, Unsubscribe(k)), h))
  {
    var e := Unsubscribe(k);
    var o := Step(m, e);
    assert StepEntries(m, e) == SentAll(o.out);
    if Listed(m.subs, k) {
      var s := Lookup(m.subs, k);
      forall t | t in m.subs && t.connHandle == k ensures t == s { DistinctMembers(m.subs, s, t); }
      if s.waitForCloseComplete {
        DeactivateMembers(m.subs, k);
        WaitingKeepsLedger(m, s, h, p);
      } else {
        LeavingKeepsLedger(m, s, h, p);
      }
    } else {
      assert SentAll(o.out) == [];
    }
  }

  lemma WaitingKeepsLedger(m: Machine, s: Subscriber, h: int, p: Phase)
    requires StateListInv(m) && Fits(m, h, p) && s in m.subs && s.waitForCloseComplete
    requires forall t :: t in m.subs && t.connHandle == s.connHandle ==> t == s
    ensures Fits(UnsubscribeStep(m, s).m, h, Replay(p, SentAll(UnsubscribeStep(m, s).out), h))
  {
    var o := UnsubscribeStep(m, s);
    DeactivateMembers(m.subs, s.connHandle);
    assert Deactivate(m.subs, s.connHandle) != [];
    if |o.out| == 1 {
      assert SentAll(o.out) == [Sent(o.out[0])];
      ReplaySmall(p, Sent(o.out[0]), Sent(o.out[0]), h);
    }
    assert Replay(p, SentAll(o.out), h) == p;
    assert Listed(o.m.subs, h) <==> Listed(m.subs, h);
  }

  lemma ReplayLeaving(m: Machine, s: Subscriber, h: int, p: Phase)
    requires m.state != Released && !s.waitForCloseComplete
    ensures Replay(p, SentAll(UnsubscribeStep(m, s).out), h) == Advance(p, Sent(Notify(s.connHandle, Close)), h)
  {
    var out := UnsubscribeStep(m, s).out;
    if |out| == 1 {
      assert SentAll(out) == [Sent(out[0])];
      ReplaySmall(p, Sent(out[0]), Sent(out[0]), h);
    } else {
      assert SentAll(out) == [Sent(out[0]), Sent(out[1])];
      ReplaySmall(p, Sent(out[0]), Sent(out[1]), h);
    }
  }

  lemma LeavingKeepsLedger(m: Machine, s: Subscriber, h: int, p: Phase)
    requires StateListInv(m) && Fits(m, h, p) && s in m.subs && !s.waitForCloseComplete
    requires forall t :: t in m.subs && t.connHandle == s.connHandle ==> t == s
    ensures Fits(UnsubscribeStep(m, s).m, h, Replay(p, SentAll(UnsubscribeStep(m, s).out), h))
  {
    var after := UnsubscribeStep(m, s).m;
    assert after.subs == Without(m.subs, s.connHandle);
    ReplayLeaving(m, s, h, p);
    assert Listed(after.subs, h) <==> Listed(m.subs, h) && h != s.connHandle;
  }

  /** Replaying a round of notices between a marker and at most one data-connection call. */
  lemma ReplayRound(p: Phase, ended: bool, subs: seq<Subscriber>, who: Who, n: Notice, call: seq<Output>, h: int)
    requires Distinct(subs) && |call| <= 1 && forall c :: c in call ==> c.DataConn?
    ensures
      var log := (if ended then [EndedByFramework] else []) + SentAll(Notices(subs, who, n) + call);
      Replay(p, log, h) ==
      if exists s :: s in subs && s.connHandle == h && Chosen(who, s) then Advance(p, Sent(Notify(h, n)), h) else p
  {
    var marker := if ended then [EndedByFramework] else [];
    var told := Notices(subs, who, n);
    assert SentAll(told + call) == SentAll(told) + SentAll(call);
    ReplayConcat(p, marker, SentAll(told + call), h);
    ReplayConcat(p, SentAll(told), SentAll(call), h);
    ReplayNotices(p, subs, who, n, h);
    assert Replay(p, marker, h) == p;
    if call != [] {
      assert call[0] in call;
      assert SentAll(call) == [Sent(call[0])];
    }
  }

  lemma ReleaseKeepsLedger(m: Machine, e: Event, h: int, p: Phase)
    requires StateListInv(m) && Fits(m, h, p) && (e.ConnReleased? || e.Denied?) && m.state == Releasing
    ensures Fits(Step(m, e).m, h, Replay(p, StepEntries(m, e), h))
  {
    var call := if AnyActive(Stay(m.subs, InactiveOnly)) then [DataConn(true, m.agpsType)] else [];
    ReplayRound(p, false, m.subs, InactiveOnly, Close, call, h);
    assert Step(m, e).out == Notices(m.subs, InactiveOnly, Close) + call;
    forall s, t | s in m.subs && t in m.subs && s.connHandle == h && t.connHandle == h ensures s == t {
      DistinctMembers(m.subs, s, t);
    }
  }

  lemma AnswerKeepsLedger(m: Machine, e: Event, h: int, p: Phase)
    requires StateListInv(m) && Fits(m, h, p) && (e.Granted? || e.ConnReleased? || e.Denied?)
    ensures Fits(Step(m, e).m, h, Replay(p, StepEntries(m, e), h))
  {
    var o := Step(m, e);
    if e.Granted? && m.state == Pending {
      ReplayRound(p, false, m.subs, ActiveOnly, OpenSuccess, [], h);
      assert o.out == Notices(m.subs, ActiveOnly, OpenSuccess) + [];
    } else if e.ConnReleased? && m.state == Acquired {
      ReplayRound(p, true, m.subs, Everyone, Close, [], h);
      assert o.out == Notices(m.subs, Everyone, Close) + [];
    } else if e.Denied? && m.state == Pending {
      ReplayRound(p, true, m.subs, Everyone, OpenFailed, [], h);
      assert o.out == Notices(m.subs, Everyone, OpenFailed) + [];
    } else if !e.Granted? && m.state == Releasing {
      ReleaseKeepsLedger(m, e, h, p);
    } else {
      assert StepEntries(m, e) == [];
    }
  }

  lemma StepKeepsLedger(m: Machine, e: Event, h: int, p: Phase)
    requires StateListInv(m) && Fits(m, h, p) && !SecondGrant(m, e, h, p)
    ensures Fits(Step(m, e).m, h, Replay(p, StepEntries(m, e), h))
  {
    match e
    case Subscribe(_, _, _) => SubscribeKeepsLedger(m, e, h, p);
    case Unsubscribe(k) => UnsubscribeKeepsLedger(m, k, h, p);
    case ModemRestart =>
      assert StepEntries(m, e) == DroppedAll(m.subs);
      ReplayDropped(p, m.subs, h);
    case _ => AnswerKeepsLedger(m, e, h, p);
  }

  /** A second grant always breaks the ledger. */
  lemma SecondGrantBreaksLedger(m: Machine, e: Event, h: int, p: Phase)
    requires Fits(m, h, p) && SecondGrant(m, e, h, p)
    ensures Replay(p, StepEntries(m, e), h) == Broken
  {
    var a := Sent(Notify(h, OpenSuccess));
    assert StepEntries(m, e) == [a];
    ReplaySmall(p, a, a, h);
  }

  /** The exclusion is exact: an event keeps the ledger if and only if it is not a second grant. */
  lemma StepKeepsLedgerExactly(m: Machine, e: Event, h: int, p: Phase)
    requires StateListInv(m) && Fits(m, h, p)
    ensures Fits(Step(m, e).m, h, Replay(p, StepEntries(m, e), h)) <==> !SecondGrant(m, e, h, p)
  {
    if SecondGrant(m, e, h, p) {
      SecondGrantBreaksLedger(m, e, h, p);
    } else {
      StepKeepsLedger(m, e, h, p);
    }
  }

  /** The phase of a handle after a run. */
  function PhaseAfter(events: seq<Event>, h: int): Phase {
    Replay(Idle, History(INITIAL_INTERNET_MACHINE, events), h)
  }

  predicate NoSecondGrant(events: seq<Event>, h: int) {
    events == [] ||
    var before := events[..|events| - 1];
    && NoSecondGrant(before, h)
    && !SecondGrant(Run(INITIAL_INTERNET_MACHINE, before), events[|events| - 1], h, PhaseAfter(before, h))
  }

  /** Over every run without a second grant of the handle: each accepted subscription gets at most one
      open-success and exactly one terminal notice, exactly when it leaves the list; active subscribers
      have had their open-success in ACQUIRED and none in PENDING or RELEASING. With a second grant the
      ledger is broken for good. */
  lemma {:induction false} LedgerOverRuns(events: seq<Event>, h: int)
    ensures NoSecondGrant(events, h) ==> Fits(Run(INITIAL_INTERNET_MACHINE, events), h, PhaseAfter(events, h))
    ensures !NoSecondGrant(events, h) ==> PhaseAfter(events, h) == Broken
  {
    var m0 := INITIAL_INTERNET_MACHINE;
    if events != [] {
      var before, e := events[..|events| - 1], events[|events| - 1];
      LedgerOverRuns(before, h);
      ReachableStateList(before);
      var entries := StepEntries(Run(m0, before), e);
      ReplayConcat(Idle, History(m0, before), entries, h);
      if NoSecondGrant(before, h) {
        StepKeepsLedgerExactly(Run(m0, before), e, h, PhaseAfter(before, h));
        if !NoSecondGrant(events, h) { SecondGrantBreaksLedger(Run(m0, before), e, h, PhaseAfter(before, h)); }
      } else {
        BrokenForever(entries, h);
      }
    }
  }

  lemma RunExtends(events: seq<Event>, e: Event)
    ensures var m := Run(INITIAL_INTERNET_MACHINE, events);
      && Run(INITIAL_INTERNET_MACHINE, events + [e]) == Step(m, e).m
      && forall h :: PhaseAfter(events + [e], h) == Replay(PhaseAfter(events, h), StepEntries(m, e), h)
  {
    assert (events + [e])[..|events|] == events;
    var entries := StepEntries(Run(INITIAL_INTERNET_MACHINE, events), e);
    forall h ensures PhaseAfter(events + [e], h) == Replay(PhaseAfter(events, h), entries, h) {
      ReplayConcat(Idle, History(INITIAL_INTERNET_MACHINE, events), entries, h);
    }
  }

  lemma ReplayOne(p: Phase, a: Entry, h: int)
    ensures Replay(p, [a], h) == Advance(p, a, h)
  {
    ReplaySmall(p, a, a, h);
  }

  lemma OneAsks()
    ensures var events := [Subscribe(1, true, WwanAny)];
      && Run(INITIAL_INTERNET_MACHINE, events) == Machine(Pending, [Subscriber(1, true, false)], WwanAny)
      && PhaseAfter(events, 1) == Waiting
  {
    var ask, s, m0 := Subscribe(1, true, WwanAny), Subscriber(1, true, false), INITIAL_INTERNET_MACHINE;
    assert [] + [ask] == [ask] && [] + [s] == [s];
    RunExtends([], ask);
    assert StepEntries(m0, ask) == [Accepted(1), Sent(DataConn(true, WwanAny))];
    ReplaySmall(Idle, Accepted(1), Sent(DataConn(true, WwanAny)), 1);
  }

  /** One subscriber asks and is granted. */
  lemma AskedAndGranted()
    ensures var events := [Subscribe(1, true, WwanAny), Granted];
      && Run(INITIAL_INTERNET_MACHINE, events) == Machine(Acquired, [Subscriber(1, true, false)], WwanAny)
      && PhaseAfter(events, 1) == Opened
  {
    var ask, s := Subscribe(1, true, WwanAny), Subscriber(1, true, false);
    OneAsks();
    var m1 := Run(INITIAL_INTERNET_MACHINE, [ask]);
    assert [ask] + [Granted] == [ask, Granted];
    RunExtends([ask], Granted);
    assert [s][1..] == [] && Notices([s], ActiveOnly, OpenSuccess) == [Notify(1, OpenSuccess)];
    assert StepEntries(m1, Granted) == [Sent(Notify(1, OpenSuccess))];
    ReplayOne(Waiting, Sent(Notify(1, OpenSuccess)), 1);
  }

  /** The shortest run with a second grant: a subscriber that holds the connection asks again. */
  lemma AskingAgainIsGrantedTwice()
    ensures PhaseAfter([Subscribe(1, true, WwanAny), Granted, Subscribe(1, true, WwanAny)], 1) == Broken
  {
    var ask := Subscribe(1, true, WwanAny);
    AskedAndGranted();
    var m := Run(INITIAL_INTERNET_MACHINE, [ask, Granted]);
    assert m.subs[0] in m.subs && Listed(m.subs, 1);
    RunExtends([ask, Granted], ask);
    assert [ask, Granted] + [ask] == [ask, Granted, ask];
    SecondGrantBreaksLedger(m, ask, 1, Opened);
  }

  lemma TwoAsk()
    ensures var events := [Subscribe(1, true, WwanAny), Subscribe(2, true, WwanAny)];
      && Run(INITIAL_INTERNET_MACHINE, events) ==
         Machine(Pending, [Subscriber(1, true, false), Subscriber(2, true, false)], WwanAny)
      && PhaseAfter(events, 1) == Waiting
  {
    var ask, also := Subscribe(1, true, WwanAny), Subscribe(2, true, WwanAny);
    var a, b := Subscriber(1, true, false), Subscriber(2, true, false);
    OneAsks();
    var m1 := Run(INITIAL_INTERNET_MACHINE, [ask]);
    assert [ask] + [also] == [ask, also] && [a] + [b] == [a, b];
    RunExtends([ask], also);
    assert StepEntries(m1, also) == [Accepted(2)];
    ReplayOne(Waiting, Accepted(2), 1);
  }

  /** Two subscribers wait, the first gives up, and the connection is granted: only the second is told. */
  lemma OneGaveUpInTime()
    ensures var events := [Subscribe(1, true, WwanAny), Subscribe(2, true, WwanAny), Unsubscribe(1), Granted];
      && Run(INITIAL_INTERNET_MACHINE, events) ==
         Machine(Acquired, [Subscriber(1, true, true), Subscriber(2, true, false)], WwanAny)
      && PhaseAfter(events, 1) == Waiting
  {
    var ask, also, leave := Subscribe(1, true, WwanAny), Subscribe(2, true, WwanAny), Unsubscribe(1);
    var a, b, a' := Subscriber(1, true, false), Subscriber(2, true, false), Subscriber(1, true, true);
    TwoAsk();
    var m2 := Run(INITIAL_INTERNET_MACHINE, [ask, also]);
    assert [ask, also] + [leave] == [ask, also, leave];
    assert [ask, also, leave] + [Granted] == [ask, also, leave, Granted];
    RunExtends([ask, also], leave);
    RunExtends([ask, also, leave], Granted);
    WaitingSubscriberLeaves(m2, a, b);
    assert StepEntries(m2, leave) == [];
    SecondIsTold(Step(m2, leave).m, a', b);
    ReplayOne(Waiting, Sent(Notify(2, OpenSuccess)), 1);
  }

  lemma WaitingSubscriberLeaves(m: Machine, a: Subscriber, b: Subscriber)
    requires m.state == Pending && m.subs == [a, b]
    requires a == Subscriber(1, true, false) && b == Subscriber(2, true, false)
    ensures Step(m, Unsubscribe(1)) == Outcome(m.(subs := [Subscriber(1, true, true), b]), [])
  {
    assert a in m.subs && Listed(m.subs, 1) && Lookup(m.subs, 1) == a;
    var after := Deactivate(m.subs, 1);
    assert after == [Subscriber(1, true, true), b];
    assert b in after;
  }

  lemma SecondIsTold(m: Machine, a: Subscriber, b: Subscriber)
    requires m.state == Pending && m.subs == [a, b] && a.isInactive && b == Subscriber(2, true, false)
    ensures StepEntries(m, Granted) == [Sent(Notify(2, OpenSuccess))] && Step(m, Granted).m == m.(state := Acquired)
  {
    assert m.subs[1..] == [b] && [b][1..] == [];
    assert Notices([b], ActiveOnly, OpenSuccess) == [Notify(2, OpenSuccess)];
    assert Notices(m.subs, ActiveOnly, OpenSuccess) == [Notify(2, OpenSuccess)];
  }

  /** Asking again is no second grant for a subscriber that gave up before the connection was granted: it
      is still listed in ACQUIRED, and its first open-success comes now. */
  lemma AskingAgainMayBeTheFirstGrant()
    ensures var before := [Subscribe(1, true, WwanAny), Subscribe(2, true, WwanAny), Unsubscribe(1), Granted];
      && Run(INITIAL_INTERNET_MACHINE, before).state == Acquired
      && Listed(Run(INITIAL_INTERNET_MACHINE, before).subs, 1)
      && PhaseAfter(before + [Subscribe(1, true, WwanAny)], 1) == Opened
  {
    var before := [Subscribe(1, true, WwanAny), Subscribe(2, true, WwanAny), Unsubscribe(1), Granted];
    var ask := Subscribe(1, true, WwanAny);
    OneGaveUpInTime();
    RunExtends(before, ask);
    var m := Run(INITIAL_INTERNET_MACHINE, before);
    assert m.subs[0] in m.subs && Listed(m.subs, 1);
    assert StepEntries(m, ask) == [Sent(Notify(1, OpenSuccess))];
    ReplayOne(Waiting, Sent(Notify(1, OpenSuccess)), 1);
  }

  function Count(log: seq<Entry>, e: Entry): nat {
    if log == [] then 0 else (if log[0] == e then 1 else 0) + Count(log[1..], e)
  }

  function TerminalCount(log: seq<Entry>, h: int): nat {
    Count(log, Sent(Notify(h, Close))) + Count(log, Sent(Notify(h, OpenFailed))) + Count(log, Dropped(h))
  }

  lemma {:induction false} BrokenForever(log: seq<Entry>, h: int)
    ensures Replay(Broken, log, h) == Broken
  {
    if log != [] { BrokenForever(log[1..], h); }
  }

  /** The phases as counts: an unbroken life is a sequence of accepted subscriptions, all ended but
      possibly the last, each with at most one open-success. */
  lemma {:induction false} PhaseCounts(p: Phase, log: seq<Entry>, h: int)
    requires Replay(p, log, h) != Broken
    ensures Count(log, Accepted(h)) + (if p == Idle then 0 else 1) ==
      TerminalCount(log, h) + (if Replay(p, log, h) == Idle then 0 else 1)
    ensures Count(log, Sent(Notify(h, OpenSuccess))) + (if p == Opened then 1 else 0) <=
      Count(log, Accepted(h)) + (if p == Idle then 0 else 1)
    decreases log
  {
    if log != [] {
      if Advance(p, log[0], h) == Broken { BrokenForever(log[1..], h); }
      PhaseCounts(Advance(p, log[0], h), log[1..], h);
    }
  }

  /** In numbers: over any run, acceptances of a handle = its terminal notices + (1 if listed). */
  lemma EveryAcceptedEndsOnce(events: seq<Event>, h: int)
    requires NoSecondGrant(events, h)
    ensures
      var log := History(INITIAL_INTERNET_MACHINE, events);
      && Count(log, Accepted(h)) ==
         TerminalCount(log, h) + (if Listed(Run(INITIAL_INTERNET_MACHINE, events).subs, h) then 1 else 0)
      && Count(log, Sent(Notify(h, OpenSuccess))) <= Count(log, Accepted(h))
  {
    LedgerOverRuns(events, h);
    PhaseCounts(Idle, History(INITIAL_INTERNET_MACHINE, events), h);
  }

  // ---------------------------------------------------------------- data connection

  function Worth(e: Entry): int {
    match e
    case Sent(DataConn(request, _)) => if request then 1 else -1
    case EndedByFramework => -1
    case _ => 0
  }

  /** Requests minus releases minus connections ended by the framework. */
  function Balance(log: seq<Entry>): int {
    if log == [] then 0 else Worth(log[0]) + Balance(log[1..])
  }

  lemma {:induction false} BalanceConcat(a: seq<Entry>, b: seq<Entry>)
    ensures Balance(a + b) == Balance(a) + Balance(b)
  {
    if a == [] {
      assert a + b == b;
    } else {
      assert (a + b)[1..] == a[1..] + b;
      BalanceConcat(a[1..], b);
    }
  }

  lemma {:induction false} BalanceNotices(subs: seq<Subscriber>, who: Who, n: Notice)
    ensures Balance(SentAll(Notices(subs, who, n))) == 0
  {
    if subs != [] {
      var tail := SentAll(Notices(subs[1..], who, n));
      BalanceNotices(subs[1..], who, n);
      if Chosen(who, subs[0]) {
        assert SentAll(Notices(subs, who, n)) == [Sent(Notify(subs[0].connHandle, n))] + tail;
      } else {
        assert SentAll(Notices(subs, who, n)) == tail;
      }
    }
  }

  lemma {:induction false} BalanceDropped(subs: seq<Subscriber>)
    ensures Balance(DroppedAll(subs)) == 0
  {
    if subs != [] { BalanceDropped(subs[1..]); }
  }

  lemma BalanceSmall(a: Entry, b: Entry)
    ensures Balance([a]) == Worth(a)
    ensures Balance([a, b]) == Worth(a) + Worth(b)
  {
    assert [a, b][1..] == [b];
    assert Balance([b]) == Worth(b);
  }

  function Held(m: Machine): int {
    if m.state == Pending || m.state == Acquired then 1 else 0
  }

  lemma BalanceRound(ended: bool, subs: seq<Subscriber>, who: Who, n: Notice, call: seq<Output>)
    requires |call| <= 1
    ensures
      var log := (if ended then [EndedByFramework] else []) + SentAll(Notices(subs, who, n) + call);
      Balance(log) == (if ended then -1 else 0) + (if call == [] then 0 else Worth(Sent(call[0])))
  {
    var marker := if ended then [EndedByFramework] else [];
    var told := Notices(subs, who, n);
    assert SentAll(told + call) == SentAll(told) + SentAll(call);
    BalanceConcat(marker, SentAll(told + call));
    BalanceConcat(SentAll(told), SentAll(call));
    BalanceNotices(subs, who, n);
    if ended { BalanceSmall(EndedByFramework, EndedByFramework); }
    if call != [] {
      assert SentAll(call) == [Sent(call[0])];
      BalanceSmall(Sent(call[0]), Sent(call[0]));
    }
  }

  lemma SubscribeConservesConnection(m: Machine, e: Event)
    requires e.Subscribe?
    ensures Held(m) + Balance(StepEntries(m, e)) == Held(Step(m, e).m)
  {
    var o := Step(m, e);
    BalanceConcat(Markers(m, e), SentAll(o.out));
    if !Listed(m.subs, e.handle) { BalanceSmall(Accepted(e.handle), Accepted(e.handle)); }
    if |o.out| == 1 {
      assert SentAll(o.out) == [Sent(o.out[0])];
      BalanceSmall(Sent(o.out[0]), Sent(o.out[0]));
    }
  }

  lemma BalanceOfUnsubscribe(m: Machine, s: Subscriber)
    requires m.state != Released
    ensures var o := UnsubscribeStep(m, s);
      Held(m) + Balance(SentAll(o.out)) == Held(o.m)
  {
    var out := UnsubscribeStep(m, s).out;
    if |out| == 1 {
      assert SentAll(out) == [Sent(out[0])];
      BalanceSmall(Sent(out[0]), Sent(out[0]));
    } else if |out| == 2 {
      assert SentAll(out) == [Sent(out[0]), Sent(out[1])];
      BalanceSmall(Sent(out[0]), Sent(out[1]));
    }
  }

  lemma UnsubscribeConservesConnection(m: Machine, e: Event)
    requires StateListInv(m) && e.Unsubscribe?
    ensures Held(m) + Balance(StepEntries(m, e)) == Held(Step(m, e).m)
  {
    assert StepEntries(m, e) == SentAll(Step(m, e).out);
    if Listed(m.subs, e.handle) { BalanceOfUnsubscribe(m, Lookup(m.subs, e.handle)); }
  }

  lemma StepConservesConnection(m: Machine, e: Event)
    requires StateListInv(m)
    ensures Held(m) + Balance(StepEntries(m, e)) == Held(Step(m, e).m)
  {
    var o := Step(m, e);
    if e.Subscribe? {
      SubscribeConservesConnection(m, e);
    } else if e.Unsubscribe? {
      UnsubscribeConservesConnection(m, e);
    } else if e.ModemRestart? {
      assert StepEntries(m, e) == DroppedAll(m.subs);
      BalanceDropped(m.subs);
    } else if e.Granted? && m.state == Pending {
      assert o.out == Notices(m.subs, ActiveOnly, OpenSuccess) + [];
      BalanceRound(false, m.subs, ActiveOnly, OpenSuccess, []);
    } else if e.ConnReleased? && m.state == Acquired {
      assert o.out == Notices(m.subs, Everyone, Close) + [];
      BalanceRound(true, m.subs, Everyone, Close, []);
    } else if e.Denied? && m.state == Pending {
      assert o.out == Notices(m.subs, Everyone, OpenFailed) + [];
      BalanceRound(true, m.subs, Everyone, OpenFailed, []);
    } else if !e.Granted? && m.state == Releasing {
      var call := if AnyActive(Stay(m.subs, InactiveOnly)) then [DataConn(true, m.agpsType)] else [];
      assert o.out == Notices(m.subs, InactiveOnly, Close) + call;
      BalanceRound(false, m.subs, InactiveOnly, Close, call);
    } else {
      assert StepEntries(m, e) == [];
    }
  }

  /** Over every run, modem restarts included, requests minus releases minus framework-ended
      connections is one in PENDING and ACQUIRED and zero otherwise. */
  lemma {:induction false} ConnectionConserved(events: seq<Event>)
    ensures Balance(History(INITIAL_INTERNET_MACHINE, events)) == Held(Run(INITIAL_INTERNET_MACHINE, events))
  {
    var m0 := INITIAL_INTERNET_MACHINE;
    if events != [] {
      var before, e := events[..|events| - 1], events[|events| - 1];
      ConnectionConserved(before);
      ReachableStateList(before);
      StepConservesConnection(Run(m0, before), e);
      BalanceConcat(History(m0, before), StepEntries(Run(m0, before), e));
    }
  }

  // ---------------------------------------------------------------- draining

  function Handles(subs: seq<Subscriber>): multiset<int> {
    if subs == [] then multiset{} else multiset{subs[0].connHandle} + Handles(subs[1..])
  }

  /** The handles told a terminal notice, with multiplicity. */
  function EndedHandles(out: seq<Output>): multiset<int> {
    if out == [] then multiset{}
    else
      (if out[0].Notify? && out[0].notice != OpenSuccess then multiset{out[0].handle} else multiset{}) +
      EndedHandles(out[1..])
  }

  lemma {:induction false} EndedConcat(a: seq<Output>, b: seq<Output>)
    ensures EndedHandles(a + b) == EndedHandles(a) + EndedHandles(b)
  {
    if a == [] {
      assert a + b == b;
    } else {
      assert (a + b)[1..] == a[1..] + b;
      EndedConcat(a[1..], b);
    }
  }

  lemma {:induction false} EndedByRound(subs: seq<Subscriber>, who: Who, n: Notice)
    requires n != OpenSuccess
    ensures EndedHandles(Notices(subs, who, n)) + Handles(Stay(subs, who)) == Handles(subs)
  {
    if subs != [] {
      var h := subs[0].connHandle;
      var tail := Notices(subs[1..], who, n);
      var rest := Stay(subs[1..], who);
      EndedByRound(subs[1..], who, n);
      if Chosen(who, subs[0]) {
        assert Notices(subs, who, n) == [Notify(h, n)] + tail;
        assert EndedHandles(Notices(subs, who, n)) == multiset{h} + EndedHandles(tail);
      } else {
        assert Notices(subs, who, n) == tail;
        assert Stay(subs, who) == [subs[0]] + rest;
        assert Handles(Stay(subs, who)) == multiset{h} + Handles(rest);
      }
    }
  }

  lemma EndedWhileReleasing(m: Machine)
    ensures EndedHandles(ClosedWhileReleasing(m).out) + Handles(ClosedWhileReleasing(m).m.subs) == Handles(m.subs)
  {
    var told := Notices(m.subs, InactiveOnly, Close);
    var call := [DataConn(true, m.agpsType)];
    EndedByRound(m.subs, InactiveOnly, Close);
    EndedConcat(told, call);
    assert EndedHandles(call) == multiset{};
    assert EndedHandles(ClosedWhileReleasing(m).out) == EndedHandles(told);
  }

  lemma EndedByEveryoneRound(subs: seq<Subscriber>, n: Notice)
    requires n != OpenSuccess
    ensures EndedHandles(Notices(subs, Everyone, n)) == Handles(subs)
  {
    EndedByRound(subs, Everyone, n);
    StayEveryone(subs);
    assert Handles([]) == multiset{};
  }

  lemma DrainStep(m: Machine, e: Event)
    requires StateListInv(m) && (e == ConnReleased || e == Denied)
    ensures EndedHandles(Step(m, e).out) + Handles(Step(m, e).m.subs) == Handles(m.subs)
  {
    StayEveryone(m.subs);
    if m.state == Releasing {
      EndedWhileReleasing(m);
    } else if e == ConnReleased && m.state == Acquired {
      EndedByEveryoneRound(m.subs, Close);
    } else if e == Denied && m.state == Pending {
      EndedByEveryoneRound(m.subs, OpenFailed);
    } else {
      assert Step(m, e).out == [];
    }
  }

  lemma DrainState(m: Machine)
    requires StateListInv(m)
    ensures Step(Step(m, ConnReleased).m, Denied).m.state == Released
  {
  }

  lemma DrainsFrom(m: Machine)
    requires StateListInv(m)
    ensures
      var first := Step(m, ConnReleased);
      var second := Step(first.m, Denied);
      && second.m.state == Released
      && second.m.subs == []
      && EndedHandles(first.out + second.out) == Handles(m.subs)
  {
    var first := Step(m, ConnReleased);
    var second := Step(first.m, Denied);
    StepKeepsStateListInv(m, ConnReleased);
    StepKeepsStateListInv(first.m, Denied);
    DrainState(m);
    DrainStep(m, ConnReleased);
    DrainStep(first.m, Denied);
    EndedConcat(first.out, second.out);
    assert Handles(second.m.subs) == multiset{};
  }

  /** From any reachable state, RELEASED followed by DENIED ends in RELEASED with an empty list, and
      every subscriber that was in the list is told a terminal notice exactly once. */
  lemma Drains(events: seq<Event>)
    ensures
      var m := Run(INITIAL_INTERNET_MACHINE, events);
      var first := Step(m, ConnReleased);
      var second := Step(first.m, Denied);
      && second.m.state == Released
      && second.m.subs == []
      && EndedHandles(first.out + second.out) == Handles(m.subs)
  {
    var m := Run(INITIAL_INTERNET_MACHINE, events);
    ReachableStateList(events);
    DrainsFrom(m);
  }
}
