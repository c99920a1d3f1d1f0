/** Which notice a subscriber of the AGPS machine is told, and when: success, failure and close each have
    their own occasion. */
module AgpsEndings {
  import opened AgpsModel
  import opened AgpsLedger

  // ---------------------------------------------------------------- what one event tells a handle

  predicate ListedActive(subs: seq<Subscriber>, h: int) {
    exists s :: s in subs && s.connHandle == h && !s.isInactive
  }

  predicate ListedInactive(subs: seq<Subscriber>, h: int) {
    exists s :: s in subs && s.connHandle == h && s.isInactive
  }

  /** The subscriber does not wait for the close to be confirmed. */
  predicate LeavesAtOnce(subs: seq<Subscriber>, h: int) {
    exists s :: s in subs && s.connHandle == h && !s.waitForCloseComplete
  }

  /** The handle is one of those a notification round is for. */
  predicate IsChosen(subs: seq<Subscriber>, who: Who, h: int) {
    exists s :: s in subs && s.connHandle == h && Chosen(who, s)
  }

  lemma ChosenFirst(subs: seq<Subscriber>, who: Who, h: int)
    requires subs != []
    ensures IsChosen(subs, who, h) <==>
      (subs[0].connHandle == h && Chosen(who, subs[0])) || IsChosen(subs[1..], who, h)
    ensures Distinct(subs) && subs[0].connHandle == h ==> !IsChosen(subs[1..], who, h)
  {
    assert forall s :: s in subs <==> s == subs[0] || s in subs[1..];
  }

  lemma {:induction false} NoticesTell(subs: seq<Subscriber>, who: Who, n: Notice, o: Output)
    ensures o in Notices(subs, who, n) <==>
      o.Notify? && o.notice == n && IsChosen(subs, who, o.handle)
  {
    if subs != [] {
      var rest := Notices(subs[1..], who, n);
      NoticesTell(subs[1..], who, n, o);
      if o.Notify? { ChosenFirst(subs, who, o.handle); }
      if Chosen(who, subs[0]) {
        assert Notices(subs, who, n) == [Notify(subs[0].connHandle, n)] + rest;
      } else {
        assert Notices(subs, who, n) == rest;
      }
    }
  }

  /** When a handle is told that the connection is open: it asks while the connection is held, or it waits
      for it and the connection is granted. */
  predicate Opens(m: Machine, e: Event, h: int) {
    || (e.Subscribe? && e.handle == h && m.state == Acquired)
    || (e == Granted && m.state == Pending && ListedActive(m.subs, h))
  }

  /** When it is told that the connection could not be opened: the connection asked for is denied. */
  predicate Fails(m: Machine, e: Event, h: int) {
    e == Denied && m.state == Pending && Listed(m.subs, h)
  }

  /** When it is told that the connection is closed: it gives it up without waiting for the close, the
      connection that is held ends, or it gave it up and the close is confirmed. */
  predicate Closes(m: Machine, e: Event, h: int) {
    || (e == Unsubscribe(h) && LeavesAtOnce(m.subs, h))
    || (e == ConnReleased && m.state == Acquired && Listed(m.subs, h))
    || ((e == ConnReleased || e == Denied) && m.state == Releasing && ListedInactive(m.subs, h))
  }

  function Occasion(m: Machine, e: Event, h: int, n: Notice): bool {
    match n
    case OpenSuccess => Opens(m, e, h)
    case OpenFailed => Fails(m, e, h)
    case Close => Closes(m, e, h)
  }

  lemma AnswerTellsExactly(m: Machine, e: Event, h: int, n: Notice)
    requires StateListInv(m) && (e == Granted || e == ConnReleased || e == Denied)
    ensures Notify(h, n) in Step(m, e).out <==> Occasion(m, e, h, n)
  {
    var o := Notify(h, n);
    NoticesTell(m.subs, Everyone, Close, o);
    NoticesTell(m.subs, Everyone, OpenFailed, o);
    NoticesTell(m.subs, ActiveOnly, OpenSuccess, o);
    NoticesTell(m.subs, InactiveOnly, Close, o);
  }

  lemma UnsubscribeTellsExactly(m: Machine, h: int, k: int, n: Notice)
    requires StateListInv(m)
    ensures Notify(h, n) in Step(m, Unsubscribe(k)).out <==> Occasion(m, Unsubscribe(k), h, n)
  {
    if Listed(m.subs, k) {
      var s := Lookup(m.subs, k);
      assert m.state != Released;
      forall t | t in m.subs && t.connHandle == k ensures t == s { DistinctMembers(m.subs, s, t); }
      var told := if s.waitForCloseComplete then [] else [Notify(s.connHandle, Close)];
      assert Notify(h, n) in UnsubscribeStep(m, s).out <==> Notify(h, n) in told;
    }
  }

  /** For every event, a handle is told a notice if and only if it is the occasion for that notice. */
  lemma ToldExactly(m: Machine, e: Event, h: int, n: Notice)
    requires StateListInv(m)
    ensures Notify(h, n) in Step(m, e).out <==> Occasion(m, e, h, n)
  {
    match e
    case Subscribe(k, wait, t) =>
    case Unsubscribe(k) => UnsubscribeTellsExactly(m, h, k, n);
    case ModemRestart =>
    case _ => AnswerTellsExactly(m, e, h, n);
  }

  // ---------------------------------------------------------------- how subscriptions end, over runs

  /** How a subscription ends: told that the connection failed or closed, or dropped at a modem restart. */
  datatype Ending = Failed | Closed | ByRestart

  function EndingIn(e: Entry, h: int): seq<Ending> {
    match e
    case Sent(Notify(k, OpenFailed)) => if k == h then [Failed] else []
    case Sent(Notify(k, Close)) => if k == h then [Closed] else []
    case Dropped(k) => if k == h then [ByRestart] else []
    case _ => []
  }

  /** The endings of a handle in a history, in order. */
  function Endings(log: seq<Entry>, h: int): seq<Ending> {
    if log == [] then [] else EndingIn(log[0], h) + Endings(log[1..], h)
  }

  /** How the event ends the subscription of a handle, if it does. */
  function EndedBy(m: Machine, e: Event, h: int): seq<Ending> {
    if Fails(m, e, h) then [Failed]
    else if Closes(m, e, h) then [Closed]
    else if e == ModemRestart && Listed(m.subs, h) then [ByRestart]
    else []
  }

  function AllEndedBy(events: seq<Event>, h: int): seq<Ending> {
    if events == [] then []
    else
      var before := events[..|events| - 1];
      AllEndedBy(before, h) + EndedBy(Run(INITIAL_INTERNET_MACHINE, before), events[|events| - 1], h)
  }

  lemma {:induction false} EndingsConcat(a: seq<Entry>, b: seq<Entry>, h: int)
    ensures Endings(a + b, h) == Endings(a, h) + Endings(b, h)
  {
    if a == [] {
      assert a + b == b;
    } else {
      assert (a + b)[1..] == a[1..] + b && (a + b)[0] == a[0];
      EndingsConcat(a[1..], b, h);
    }
  }

  function EndingOf(n: Notice): seq<Ending> {
    match n
    case OpenSuccess => []
    case OpenFailed => [Failed]
    case Close => [Closed]
  }

  lemma FirstNotice(subs: seq<Subscriber>, who: Who, n: Notice)
    requires subs != []
    ensures SentAll(Notices(subs, who, n)) ==
      (if Chosen(who, subs[0]) then [Sent(Notify(subs[0].connHandle, n))] else []) +
      SentAll(Notices(subs[1..], who, n))
  {
  }

  /** A notification round ends the subscription of a chosen handle once. */
  lemma {:induction false} RoundEndings(subs: seq<Subscriber>, who: Who, n: Notice, h: int)
    requires Distinct(subs)
    ensures Endings(SentAll(Notices(subs, who, n)), h) == if IsChosen(subs, who, h) then EndingOf(n) else []
  {
    if subs != [] {
      var k, tail := subs[0].connHandle, SentAll(Notices(subs[1..], who, n));
      var first := if Chosen(who, subs[0]) then [Sent(Notify(k, n))] else [];
      RoundEndings(subs[1..], who, n, h);
      ChosenFirst(subs, who, h);
      FirstNotice(subs, who, n);
      EndingsConcat(first, tail, h);
      FewEndings(Sent(Notify(k, n)), Sent(Notify(k, n)), h);
      assert Endings(first, h) == if Chosen(who, subs[0]) && k == h then EndingOf(n) else [];
    }
  }

  lemma {:induction false} DroppedEndings(subs: seq<Subscriber>, h: int)
    requires Distinct(subs)
    ensures Endings(DroppedAll(subs), h) == if Listed(subs, h) then [ByRestart] else []
  {
    if subs != [] {
      var first, rest := subs[0], subs[1..];
      assert forall s :: s in subs <==> s == first || s in rest;
      assert forall s :: s in rest ==> s.connHandle != first.connHandle;
      DroppedEndings(rest, h);
      assert DroppedAll(subs)[1..] == DroppedAll(rest);
    }
  }

  lemma FewEndings(a: Entry, b: Entry, h: int)
    ensures Endings([], h) == [] && Endings([a], h) == EndingIn(a, h)
    ensures Endings([a, b], h) == EndingIn(a, h) + EndingIn(b, h)
  {
    assert [a][1..] == [] && [a, b][1..] == [b] && [b][1..] == [];
  }

  /** What an unsubscription sends, at most a close and a release. */
  lemma CloseAndRelease(told: seq<Output>, call: seq<Output>, k: int, h: int)
    requires (told == [] || told == [Notify(k, Close)]) && (call == [] || (|call| == 1 && call[0].DataConn?))
    ensures Endings(SentAll(told + call), h) == if told != [] && k == h then [Closed] else []
  {
    assert SentAll(told + call) == SentAll(told) + SentAll(call);
    EndingsConcat(SentAll(told), SentAll(call), h);
    FewEndings(Sent(Notify(k, Close)), Sent(Notify(k, Close)), h);
    assert told != [] ==> SentAll(told) == [Sent(Notify(k, Close))];
    if call != [] {
      assert SentAll(call) == [Sent(call[0])];
      FewEndings(Sent(call[0]), Sent(call[0]), h);
    }
  }

  lemma UnsubscribeEndings(m: Machine, k: int, h: int)
    requires StateListInv(m)
    ensures Endings(StepEntries(m, Unsubscribe(k)), h) == EndedBy(m, Unsubscribe(k), h)
  {
    var out := Step(m, Unsubscribe(k)).out;
    assert StepEntries(m, Unsubscribe(k)) == SentAll(out);
    if Listed(m.subs, k) {
      var s := Lookup(m.subs, k);
      forall t | t in m.subs && t.connHandle == k ensures t == s { DistinctMembers(m.subs, s, t); }
      assert LeavesAtOnce(m.subs, k) <==> !s.waitForCloseComplete;
      var told := if s.waitForCloseComplete then [] else [Notify(k, Close)];
      assert out == told + [] || out == told + [DataConn(false, m.agpsType)];
      CloseAndRelease(told, [], k, h);
      CloseAndRelease(told, [DataConn(false, m.agpsType)], k, h);
    }
  }

  lemma SubscribeEndings(m: Machine, e: Event, h: int)
    requires e.Subscribe?
    ensures Endings(StepEntries(m, e), h) == []
  {
    var marker, out := Markers(m, e), Step(m, e).out;
    EndingsConcat(marker, SentAll(out), h);
    FewEndings(Accepted(e.handle), Accepted(e.handle), h);
    if out != [] {
      assert SentAll(out) == [Sent(out[0])];
      FewEndings(Sent(out[0]), Sent(out[0]), h);
    }
  }

  /** The notices of an answer, and a request for the connection that may follow. */
  lemma RoundAndCall(subs: seq<Subscriber>, who: Who, n: Notice, call: seq<Output>, h: int)
    requires Distinct(subs) && |call| <= 1 && (call != [] ==> call[0].DataConn?)
    ensures Endings(SentAll(Notices(subs, who, n) + call), h) == if IsChosen(subs, who, h) then EndingOf(n) else []
  {
    var told := Notices(subs, who, n);
    assert SentAll(told + call) == SentAll(told) + SentAll(call);
    EndingsConcat(SentAll(told), SentAll(call), h);
    RoundEndings(subs, who, n, h);
    if call != [] {
      assert SentAll(call) == [Sent(call[0])];
      FewEndings(Sent(call[0]), Sent(call[0]), h);
    }
  }

  lemma AnswerEndings(m: Machine, e: Event, who: Who, n: Notice, call: seq<Output>, h: int)
    requires Distinct(m.subs) && Step(m, e).out == Notices(m.subs, who, n) + call
    requires |call| <= 1 && (call != [] ==> call[0].DataConn?)
    requires e == Granted || e == ConnReleased || e == Denied
    ensures Endings(StepEntries(m, e), h) == if IsChosen(m.subs, who, h) then EndingOf(n) else []
  {
    EndingsConcat(Markers(m, e), SentAll(Step(m, e).out), h);
    FewEndings(EndedByFramework, EndedByFramework, h);
    RoundAndCall(m.subs, who, n, call, h);
  }

  lemma AnyAnswerEndings(m: Machine, e: Event, h: int)
    requires StateListInv(m) && (e == Granted || e == ConnReleased || e == Denied)
    ensures Endings(StepEntries(m, e), h) == EndedBy(m, e, h)
  {
    var out := Step(m, e).out;
    if e == Granted && m.state == Pending {
      assert out == Notices(m.subs, ActiveOnly, OpenSuccess) + [];
      AnswerEndings(m, e, ActiveOnly, OpenSuccess, [], h);
    } else if e == ConnReleased && m.state == Acquired {
      assert out == Notices(m.subs, Everyone, Close) + [];
      AnswerEndings(m, e, Everyone, Close, [], h);
    } else if e == Denied && m.state == Pending {
      assert out == Notices(m.subs, Everyone, OpenFailed) + [];
      AnswerEndings(m, e, Everyone, OpenFailed, [], h);
    } else if e != Granted && m.state == Releasing {
      ReleasingEndings(m, e, h);
    } else {
      assert StepEntries(m, e) == [];
    }
  }

  lemma ReleasingEndings(m: Machine, e: Event, h: int)
    requires StateListInv(m) && m.state == Releasing && (e == ConnReleased || e == Denied)
    ensures Endings(StepEntries(m, e), h) == EndedBy(m, e, h)
  {
    var call := if AnyActive(Stay(m.subs, InactiveOnly)) then [DataConn(true, m.agpsType)] else [];
    assert Step(m, e).out == Notices(m.subs, InactiveOnly, Close) + call;
    AnswerEndings(m, e, InactiveOnly, Close, call, h);
  }

  lemma StepEndings(m: Machine, e: Event, h: int)
    requires StateListInv(m)
    ensures Endings(StepEntries(m, e), h) == EndedBy(m, e, h)
  {
    match e
    case Subscribe(_, _, _) => SubscribeEndings(m, e, h);
    case Unsubscribe(k) => UnsubscribeEndings(m, k, h);
    case ModemRestart =>
      assert StepEntries(m, e) == DroppedAll(m.subs);
      DroppedEndings(m.subs, h);
    case _ => AnyAnswerEndings(m, e, h);
  }

  /** Over every run, the endings in the history of a handle are, in order, those its events cause: it is
      told of a failure exactly when a connection asked for is denied while it is listed, and of a close
      exactly when it gives the connection up or a connection that was held has ended. */
  lemma {:induction false} EndingsOverRuns(events: seq<Event>, h: int)
    ensures Endings(History(INITIAL_INTERNET_MACHINE, events), h) == AllEndedBy(events, h)
  {
    if events != [] {
      var before, e := events[..|events| - 1], events[|events| - 1];
      var m := Run(INITIAL_INTERNET_MACHINE, before);
      EndingsOverRuns(before, h);
      ReachableStateList(before);
      StepEndings(m, e, h);
      EndingsConcat(History(INITIAL_INTERNET_MACHINE, before), StepEntries(m, e), h);
    }
  }
}
