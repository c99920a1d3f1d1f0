/** The AGPS machine composed with the native handler that answers its data-connection calls.
    Answers travel through the adapter's message queue; they are delivered here in any order. */
module AgpsNative {
  import opened AgpsModel
  import opened AgpsLedger

  datatype Answer = DataConnOpen | DataConnFailed | DataConnClosed

  /** An answer under way, stamped with the serial number of the call it answers. */
  datatype Message = Message(serial: nat, answer: Answer)

  datatype System = System(m: Machine, connected: bool, inbox: seq<Message>,
                           serial: nat, lastRequest: nat, lastRelease: nat)

  datatype Action = Client(e: Event) | Connectivity(up: bool) | Deliver(i: nat)

  const INITIAL_SYSTEM := System(INITIAL_INTERNET_MACHINE, false, [], 0, 0, 0)

  /** What the handler posts for one call: nothing unless the call is of the WWAN_ANY type. */
  function Reply(connected: bool, request: bool, t: AgpsType): seq<Answer> {
    if t != WwanAny then []
    else if !request then [DataConnClosed]
    else if connected then [DataConnOpen]
    else [DataConnFailed]
  }

  function Post(s: System, o: Output): System {
    match o
    case Notify(_, _) => s
    case DataConn(request, t) =>
      var reply := Reply(s.connected, request, t);
      s.(inbox := if reply == [] then s.inbox else s.inbox + [Message(s.serial, reply[0])],
         serial := s.serial + 1,
         lastRequest := if request then s.serial else s.lastRequest,
         lastRelease := if request then s.lastRelease else s.serial)
  }

  function PostAll(s: System, out: seq<Output>): System
    decreases out
  {
    if out == [] then s else PostAll(Post(s, out[0]), out[1..])
  }

  function EventOf(a: Answer): Event {
    match a
    case DataConnOpen => Granted
    case DataConnFailed => Denied
    case DataConnClosed => ConnReleased
  }

  function Feed(s: System, e: Event): System {
    var o := Step(s.m, e);
    PostAll(s.(m := o.m), o.out)
  }

  function Act(s: System, a: Action): System {
    match a
    case Client(e) => Feed(s, e)
    case Connectivity(up) => s.(connected := up)
    case Deliver(i) =>
      if i < |s.inbox| then Feed(s.(inbox := s.inbox[..i] + s.inbox[i + 1..]), EventOf(s.inbox[i].answer)) else s
  }

  function RunSystem(s: System, actions: seq<Action>): System {
    if actions == [] then s
    else Act(RunSystem(s, actions[..|actions| - 1]), actions[|actions| - 1])
  }

  // ---------------------------------------------------------------- calls made by one step

  function CallIn(o: Output): seq<Output> {
    if o.DataConn? then [o] else []
  }

  function Calls(out: seq<Output>): seq<Output> {
    if out == [] then [] else CallIn(out[0]) + Calls(out[1..])
  }

  lemma {:induction false} CallsConcat(a: seq<Output>, b: seq<Output>)
    ensures Calls(a + b) == Calls(a) + Calls(b)
  {
    if a == [] {
      assert a + b == b;
    } else {
      var first, rest := CallIn(a[0]), a[1..];
      CallsConcat(rest, b);
      assert (a + b)[0] == a[0] && (a + b)[1..] == rest + b;
      assert first + (Calls(rest) + Calls(b)) == (first + Calls(rest)) + Calls(b);
    }
  }

  lemma {:induction false} NoticesMakeNoCall(subs: seq<Subscriber>, who: Who, n: Notice)
    ensures Calls(Notices(subs, who, n)) == []
  {
    if subs != [] {
      NoticesMakeNoCall(subs[1..], who, n);
      if Chosen(who, subs[0]) {
        assert Notices(subs, who, n)[1..] == Notices(subs[1..], who, n);
      } else {
        assert Notices(subs, who, n) == Notices(subs[1..], who, n);
      }
    }
  }

  lemma {:induction false} PostOnlyCalls(s: System, out: seq<Output>)
    ensures PostAll(s, out) == PostAll(s, Calls(out))
    decreases out
  {
    if out != [] {
      PostOnlyCalls(Post(s, out[0]), out[1..]);
      if out[0].DataConn? {
        assert Calls(out)[1..] == Calls(out[1..]);
      } else {
        assert Calls(out) == Calls(out[1..]);
      }
    }
  }

  /** The framework call a step makes: a request exactly when it enters PENDING, a release exactly
      when an unsubscription gives up a connection asked for or held. */
  function CallOf(m: Machine, e: Event): seq<Output> {
    var after := Step(m, e).m;
    if m.state != Pending && after.state == Pending then [DataConn(true, after.agpsType)]
    else if e.Unsubscribe? && Held(m) == 1 && Held(after) == 0 then [DataConn(false, m.agpsType)]
    else []
  }

  lemma ReleaseCalls(m: Machine)
    ensures Calls(ClosedWhileReleasing(m).out) ==
      if ClosedWhileReleasing(m).m.state == Pending then [DataConn(true, m.agpsType)] else []
  {
    var call := [DataConn(true, m.agpsType)];
    NoticesMakeNoCall(m.subs, InactiveOnly, Close);
    CallsConcat(Notices(m.subs, InactiveOnly, Close), call);
    assert Calls(call) == call;
  }

  lemma AnswerCalls(m: Machine, e: Event)
    requires e.Granted? || e.ConnReleased? || e.Denied?
    ensures Calls(Step(m, e).out) == CallOf(m, e)
  {
    NoticesMakeNoCall(m.subs, ActiveOnly, OpenSuccess);
    NoticesMakeNoCall(m.subs, Everyone, Close);
    NoticesMakeNoCall(m.subs, Everyone, OpenFailed);
    if !e.Granted? && m.state == Releasing { ReleaseCalls(m); }
  }

  lemma UnsubscribeCalls(m: Machine, s: Subscriber)
    requires m.state != Released
    ensures var o := UnsubscribeStep(m, s);
      Calls(o.out) == if Held(m) == 1 && Held(o.m) == 0 then [DataConn(false, m.agpsType)] else []
    ensures m.state != Pending ==> UnsubscribeStep(m, s).m.state != Pending
  {
    var told := [Notify(s.connHandle, Close)];
    var call := [DataConn(false, m.agpsType)];
    CallsConcat(told, call);
    CallsConcat([], call);
    assert Calls(call) == call && Calls(told) == [];
  }

  /** A step calls the framework at most once, and the state change tells which call it is. */
  lemma StepCalls(m: Machine, e: Event)
    requires StateListInv(m)
    ensures Calls(Step(m, e).out) == CallOf(m, e)
  {
    if e.Granted? || e.ConnReleased? || e.Denied? {
      AnswerCalls(m, e);
    } else if e.Unsubscribe? && Listed(m.subs, e.handle) {
      UnsubscribeCalls(m, Lookup(m.subs, e.handle));
    }
  }

  // ---------------------------------------------------------------- never stuck

  /** An answer to the call with this serial number is under way: a close, or an answer to a request. */
  ghost predicate UnderWay(inbox: seq<Message>, serial: nat, closes: bool) {
    exists k :: 0 <= k < |inbox| && inbox[k].serial == serial && (inbox[k].answer == DataConnClosed) == closes
  }

  /** PENDING: the answer to the latest request is under way. RELEASING: the close for the latest
      release is under way. Answers are to calls made before. */
  ghost predicate Waits(s: System) {
    && StateListInv(s.m)
    && (forall k :: 0 <= k < |s.inbox| ==> s.inbox[k].serial < s.serial)
    && (s.m.state == Pending ==> UnderWay(s.inbox, s.lastRequest, false))
    && (s.m.state == Releasing ==> UnderWay(s.inbox, s.lastRelease, true))
  }

  /** The subscriber of h gives up a connection asked for or held, and only inactive ones stay. */
  predicate LeavesOnlyInactive(m: Machine, h: int) {
    && Held(m) == 1 && Listed(m.subs, h)
    && (Lookup(m.subs, h).waitForCloseComplete || exists s :: s in m.subs && s.connHandle != h)
    && forall s :: s in m.subs && s.connHandle != h ==> s.isInactive
  }

  /** The event makes a call of a type that the handler does not answer, and waits for its answer. */
  predicate StrandedBy(m: Machine, e: Event) {
    match e
    case Subscribe(_, _, t) => m.state == Released && t != WwanAny
    case Unsubscribe(h) => m.agpsType != WwanAny && LeavesOnlyInactive(m, h)
    case ConnReleased => m.agpsType != WwanAny && m.state == Releasing && AnyActive(m.subs)
    case Denied => m.agpsType != WwanAny && m.state == Releasing && AnyActive(m.subs)
    case _ => false
  }

  predicate Strands(s: System, a: Action) {
    match a
    case Client(e) => StrandedBy(s.m, e)
    case Connectivity(_) => false
    case Deliver(i) => i < |s.inbox| && StrandedBy(s.m, EventOf(s.inbox[i].answer))
  }

  predicate Enters(m: Machine, after: Machine) {
    after.state != m.state && (after.state == Pending || after.state == Releasing)
  }

  lemma DeactivatedActive(m: Machine, s: Subscriber)
    requires StateListInv(m) && s in m.subs
    ensures var subs := Deactivate(m.subs, s.connHandle);
      subs != [] && (AnyActive(subs) <==> exists t :: t in m.subs && t.connHandle != s.connHandle && !t.isInactive)
  {
    DeactivateMembers(m.subs, s.connHandle);
  }

  lemma WithoutActive(m: Machine, h: int)
    ensures var subs := Without(m.subs, h);
      && (subs == [] <==> forall t :: t in m.subs ==> t.connHandle == h)
      && (AnyActive(subs) <==> exists t :: t in m.subs && t.connHandle != h && !t.isInactive)
  {
    var subs := Without(m.subs, h);
    if subs != [] { assert subs[0] in subs; }
  }

  lemma UnsubscribeEnters(m: Machine, h: int)
    requires StateListInv(m) && Listed(m.subs, h)
    ensures Enters(m, UnsubscribeStep(m, Lookup(m.subs, h)).m) <==> LeavesOnlyInactive(m, h)
  {
    var s := Lookup(m.subs, h);
    if s.waitForCloseComplete { DeactivatedActive(m, s); } else { WithoutActive(m, h); }
  }

  /** The event enters a waiting state with an unanswered type exactly when the condition holds before it. */
  lemma StrandedByExactly(m: Machine, e: Event)
    requires StateListInv(m)
    ensures StrandedBy(m, e) <==> Step(m, e).m.agpsType != WwanAny && Enters(m, Step(m, e).m)
  {
    match e
    case Unsubscribe(h) => if Listed(m.subs, h) { UnsubscribeEnters(m, h); }
    case ConnReleased => assert AnyActive(Stay(m.subs, InactiveOnly)) <==> AnyActive(m.subs);
    case Denied => assert AnyActive(Stay(m.subs, InactiveOnly)) <==> AnyActive(m.subs);
    case _ =>
  }

  /** What an event posts: the answer to a request when the machine enters PENDING, the close when an
      unsubscription gives up the connection, each only for the WWAN_ANY type. */
  lemma FeedPosts(s: System, e: Event)
    requires StateListInv(s.m)
    ensures var o, r := Step(s.m, e), Feed(s, e);
      var asks := s.m.state != Pending && o.m.state == Pending;
      var gives := e.Unsubscribe? && Held(s.m) == 1 && Held(o.m) == 0;
      var answer := if gives then DataConnClosed else if s.connected then DataConnOpen else DataConnFailed;
      var posted := if (asks || gives) && o.m.agpsType == WwanAny then [Message(s.serial, answer)] else [];
      && r.m == o.m && r.connected == s.connected
      && r.inbox == s.inbox + posted
      && r.serial == s.serial + (if asks || gives then 1 else 0)
      && r.lastRequest == (if asks then s.serial else s.lastRequest)
      && r.lastRelease == (if gives && !asks then s.serial else s.lastRelease)
  {
    var o := Step(s.m, e);
    var s' := s.(m := o.m);
    StepCalls(s.m, e);
    PostOnlyCalls(s', o.out);
    var calls := Calls(o.out);
    if calls != [] {
      assert calls[1..] == [];
      assert PostAll(s', calls) == Post(s', calls[0]);
    }
  }

  /** The part of one step that decides which answers may be dropped. */
  lemma StateMoves(m: Machine, e: Event)
    requires StateListInv(m)
    ensures m.state == Pending && Step(m, e).m.state == Pending ==> !e.Granted? && !e.Denied?
    ensures m.state == Releasing && Step(m, e).m.state == Releasing ==> !e.ConnReleased? && !e.Denied?
    ensures m.state != Releasing && Step(m, e).m.state == Releasing ==> e.Unsubscribe? && Held(m) == 1
    ensures !e.Subscribe? ==> Step(m, e).m.agpsType == m.agpsType
  {
  }

  /** `rest` is `s` with at most the message that carried e taken out. */
  ghost predicate MessageTaken(s: System, rest: System, e: Event) {
    && rest == s.(inbox := rest.inbox)
    && (forall j :: 0 <= j < |rest.inbox| ==> rest.inbox[j].serial < s.serial)
    && forall k :: 0 <= k < |s.inbox| ==>
      EventOf(s.inbox[k].answer) == e || exists j :: 0 <= j < |rest.inbox| && rest.inbox[j] == s.inbox[k]
  }

  /** An answer that is not the one delivered stays under way. */
  lemma StaysUnderWay(s: System, rest: System, e: Event, serial: nat, closes: bool, more: seq<Message>)
    requires MessageTaken(s, rest, e) && UnderWay(s.inbox, serial, closes)
    requires if closes then !e.ConnReleased? else !e.Granted? && !e.Denied?
    ensures UnderWay(rest.inbox + more, serial, closes)
  {
    var k :| 0 <= k < |s.inbox| && s.inbox[k].serial == serial && (s.inbox[k].answer == DataConnClosed) == closes;
    var j :| 0 <= j < |rest.inbox| && rest.inbox[j] == s.inbox[k];
    assert (rest.inbox + more)[j] == s.inbox[k];
  }

  lemma NothingUnderWay(rest: System, closes: bool)
    requires forall j :: 0 <= j < |rest.inbox| ==> rest.inbox[j].serial < rest.serial
    ensures !UnderWay(rest.inbox, rest.serial, closes)
  {
  }

  /** One event keeps the awaited answer under way if and only if it does not strand the machine. */
  lemma FeedWaitsExactly(s: System, rest: System, e: Event)
    requires Waits(s) && MessageTaken(s, rest, e)
    ensures Waits(Feed(rest, e)) <==> !StrandedBy(s.m, e)
  {
    var r := Feed(rest, e);
    StepKeepsStateListInv(s.m, e);
    FeedPosts(rest, e);
    StateMoves(s.m, e);
    StrandedByExactly(s.m, e);
    NothingUnderWay(rest, true);
    NothingUnderWay(rest, false);
    var more := r.inbox[|rest.inbox|..];
    assert r.inbox == rest.inbox + more;
    if Enters(s.m, r.m) {
      if r.m.agpsType == WwanAny {
        assert r.inbox[|rest.inbox|].serial == rest.serial;
      } else {
        assert r.inbox == rest.inbox;
      }
    } else if r.m.state == Pending {
      StaysUnderWay(s, rest, e, s.lastRequest, false, more);
    } else if r.m.state == Releasing {
      StaysUnderWay(s, rest, e, s.lastRelease, true, more);
    }
  }

  /** For every action of clients, connectivity and deliveries: the awaited answer stays under way if and
      only if the action does not strand the machine. */
  lemma ActWaitsExactly(s: System, a: Action)
    requires Waits(s)
    ensures Waits(Act(s, a)) <==> !Strands(s, a)
  {
    match a
    case Connectivity(_) =>
    case Client(e) => FeedWaitsExactly(s, s, e);
    case Deliver(i) =>
      if i < |s.inbox| {
        var rest := s.(inbox := s.inbox[..i] + s.inbox[i + 1..]);
        forall k | 0 <= k < |s.inbox| && k != i
          ensures exists j :: 0 <= j < |rest.inbox| && rest.inbox[j] == s.inbox[k]
        {
          assert rest.inbox[if k < i then k else k - 1] == s.inbox[k];
        }
        FeedWaitsExactly(s, rest, EventOf(s.inbox[i].answer));
      }
  }

  /** No action of the run strands the machine. */
  ghost predicate NeverStrands(actions: seq<Action>) {
    actions == [] ||
    var n := |actions| - 1;
    NeverStrands(actions[..n]) && !Strands(RunSystem(INITIAL_SYSTEM, actions[..n]), actions[n])
  }

  /** After every action of the run the awaited answer is under way. */
  ghost predicate WaitsThroughout(actions: seq<Action>) {
    && Waits(RunSystem(INITIAL_SYSTEM, actions))
    && (actions == [] || WaitsThroughout(actions[..|actions| - 1]))
  }

  /** Never stuck, exactly: over every run, PENDING and RELEASING always have the answer they wait for
      under way if and only if no action strands the machine. */
  lemma {:induction false} NeverStuckExactly(actions: seq<Action>)
    ensures WaitsThroughout(actions) <==> NeverStrands(actions)
  {
    if actions != [] {
      var n := |actions| - 1;
      NeverStuckExactly(actions[..n]);
      if WaitsThroughout(actions[..n]) {
        ActWaitsExactly(RunSystem(INITIAL_SYSTEM, actions[..n]), actions[n]);
      }
    }
  }

  predicate WwanOnly(a: Action) {
    a.Client? ==> (a.e.Subscribe? && a.e.agpsType == WwanAny) || a.e.Unsubscribe? || a.e.ModemRestart?
  }

  lemma WwanStays(s: System, a: Action)
    requires Waits(s) && s.m.agpsType == WwanAny && WwanOnly(a)
    ensures Waits(Act(s, a)) && Act(s, a).m.agpsType == WwanAny
  {
    ActWaitsExactly(s, a);
    match a
    case Connectivity(_) =>
    case Client(e) =>
      FeedPosts(s, e);
      StateMoves(s.m, e);
    case Deliver(i) =>
      if i < |s.inbox| {
        var e := EventOf(s.inbox[i].answer);
        FeedPosts(s.(inbox := s.inbox[..i] + s.inbox[i + 1..]), e);
        StateMoves(s.m, e);
      }
  }

  /** Never stuck: with requests of the WWAN_ANY type, whatever the interleaving of client requests,
      connectivity changes, modem restarts and answer order. */
  lemma {:induction false} NeverStuck(actions: seq<Action>)
    requires forall a :: a in actions ==> WwanOnly(a)
    ensures var s := RunSystem(INITIAL_SYSTEM, actions); Waits(s) && s.m.agpsType == WwanAny
  {
    if actions != [] {
      var n := |actions| - 1;
      NeverStuck(actions[..n]);
      WwanStays(RunSystem(INITIAL_SYSTEM, actions[..n]), actions[n]);
    }
  }

  // ---------------------------------------------------------------- progress

  function Work(s: System): nat {
    |s.inbox| + if s.m.state == Releasing then 2 else 0
  }

  /** Delivers messages one by one, `picks` choosing which comes next, until none is left. */
  function Drain(s: System, picks: seq<nat>): System
    decreases picks
  {
    if picks == [] || s.inbox == [] then s
    else Drain(Act(s, Deliver(picks[0] % |s.inbox|)), picks[1..])
  }

  lemma DeliveryReducesWork(s: System, i: nat)
    requires Waits(s) && i < |s.inbox|
    ensures Work(Act(s, Deliver(i))) < Work(s)
  {
    var e := EventOf(s.inbox[i].answer);
    FeedPosts(s.(inbox := s.inbox[..i] + s.inbox[i + 1..]), e);
    StateMoves(s.m, e);
  }

  /** Progress: once clients fall silent, at most |inbox| + 2 deliveries, in any order, empty the
      queue and leave the machine in RELEASED or ACQUIRED. */
  lemma {:induction false} DeliveriesSettle(s: System, picks: seq<nat>)
    requires Waits(s) && s.m.agpsType == WwanAny && |picks| >= Work(s)
    ensures var r := Drain(s, picks); r.inbox == [] && (r.m.state == Released || r.m.state == Acquired)
    decreases picks
  {
    if s.inbox != [] {
      var i := picks[0] % |s.inbox|;
      WwanStays(s, Deliver(i));
      DeliveryReducesWork(s, i);
      DeliveriesSettle(Act(s, Deliver(i)), picks[1..]);
    }
  }

  // ---------------------------------------------------------------- other request types

  /** A first request is answered if and only if its type is WWAN_ANY; the internet machine also accepts
      types ANY, C2K and WIFI. */
  lemma OnlyWwanIsAnswered(h: int, wait: bool, t: AgpsType)
    ensures var s := Act(INITIAL_SYSTEM, Client(Subscribe(h, wait, t)));
      s.m.state == Pending && (s.inbox != [] <==> t == WwanAny)
  {
    FeedPosts(INITIAL_SYSTEM, Subscribe(h, wait, t));
  }

  lemma RunExtends(s: System, actions: seq<Action>, a: Action)
    ensures RunSystem(s, actions + [a]) == Act(RunSystem(s, actions), a)
  {
    assert (actions + [a])[..|actions|] == actions;
  }

  /** The connection is up, and a request of the WWAN_ANY type has been granted. */
  lemma FirstIsGranted()
    ensures RunSystem(INITIAL_SYSTEM, [Connectivity(true), Client(Subscribe(1, true, WwanAny)), Deliver(0)]) ==
      System(Machine(Acquired, [Subscriber(1, true, false)], WwanAny), true, [], 1, 0, 0)
  {
    var up, ask, get := Connectivity(true), Client(Subscribe(1, true, WwanAny)), Deliver(0);
    assert [] + [up] == [up] && [up] + [ask] == [up, ask] && [up, ask] + [get] == [up, ask, get];
    RunExtends(INITIAL_SYSTEM, [], up);
    RunExtends(INITIAL_SYSTEM, [up], ask);
    RunExtends(INITIAL_SYSTEM, [up, ask], get);
    var s1 := Act(INITIAL_SYSTEM, up);
    FeedPosts(s1, ask.e);
    var s2 := Act(s1, ask);
    assert s2.inbox == [Message(0, DataConnOpen)] && s2.inbox[..0] + s2.inbox[1..] == [];
    assert [] + [Subscriber(1, true, false)] == [Subscriber(1, true, false)];
    FeedPosts(s2.(inbox := []), Granted);
  }

  /** A second request changes the type of the machine in ACQUIRED. */
  lemma SecondJoins(m: Machine, a: Subscriber)
    requires m.state == Acquired && m.subs == [a] && a.connHandle == 1
    ensures Step(m, Subscribe(2, true, Any)).m == Machine(Acquired, [a, Subscriber(2, true, false)], Any)
  {
    assert forall s :: s in [a] ==> s == a;
    assert [a] + [Subscriber(2, true, false)] == [a, Subscriber(2, true, false)];
  }

  lemma FirstLeaves(m: Machine, a: Subscriber, b: Subscriber)
    requires m.state == Acquired && m.subs == [a, b] && a.connHandle == 1 && b.connHandle == 2
    requires a.waitForCloseComplete && !b.isInactive
    ensures Step(m, Unsubscribe(1)).m == m.(subs := [a.(isInactive := true), b])
  {
    assert a in m.subs && Listed(m.subs, 1) && Lookup(m.subs, 1) == a;
    var after := Deactivate(m.subs, 1);
    assert after == [a.(isInactive := true), b];
    assert b in after;
  }

  lemma SecondLeaves(m: Machine, a: Subscriber, b: Subscriber)
    requires m.state == Acquired && m.subs == [a, b] && a.connHandle == 1 && b.connHandle == 2
    requires a.isInactive && b.waitForCloseComplete
    ensures Step(m, Unsubscribe(2)).m == m.(subs := [a, b.(isInactive := true)], state := Releasing)
  {
    assert b in m.subs && Listed(m.subs, 2);
    assert m.subs[1..] == [b] && Listed([b], 2) && Lookup([b], 2) == b;
    assert Deactivate(m.subs, 2) == [a, b.(isInactive := true)];
  }

  /** When both handles are then released, the close is never answered. */
  lemma LaterTypeStrands(s: System)
    requires s == System(Machine(Acquired, [Subscriber(1, true, false)], WwanAny), true, [], 1, 0, 0)
    ensures var r := RunSystem(s, [Client(Subscribe(2, true, Any)), Client(Unsubscribe(1)), Client(Unsubscribe(2))]);
      r.m.state == Releasing && r.inbox == []
  {
    var ask, end1, end2 := Client(Subscribe(2, true, Any)), Client(Unsubscribe(1)), Client(Unsubscribe(2));
    assert [] + [ask] == [ask] && [ask] + [end1] == [ask, end1] && [ask, end1] + [end2] == [ask, end1, end2];
    RunExtends(s, [], ask);
    RunExtends(s, [ask], end1);
    RunExtends(s, [ask, end1], end2);
    var a, b := Subscriber(1, true, false), Subscriber(2, true, false);
    var s1 := Act(s, ask);
    var s2 := Act(s1, end1);
    SecondJoins(s.m, a);
    FeedPosts(s, ask.e);
    assert s1.m == Machine(Acquired, [a, b], Any) && s1.inbox == [];
    BothLeave(s1, a, b);
  }

  lemma BothLeave(s: System, a: Subscriber, b: Subscriber)
    requires s.m == Machine(Acquired, [a, b], Any) && s.inbox == []
    requires a == Subscriber(1, true, false) && b == Subscriber(2, true, false)
    ensures var r := Act(Act(s, Client(Unsubscribe(1))), Client(Unsubscribe(2)));
      r.m.state == Releasing && r.inbox == []
  {
    FirstLeaves(s.m, a, b);
    FeedPosts(s, Unsubscribe(1));
    var s' := Act(s, Client(Unsubscribe(1)));
    assert s'.m == Machine(Acquired, [a.(isInactive := true), b], Any) && s'.inbox == [];
    SecondLeaves(s'.m, a.(isInactive := true), b);
    FeedPosts(s', Unsubscribe(2));
  }

  /** So the first failing run that ends in RELEASING, from the initial system. */
  lemma LaterTypeStrandsReleasing()
    ensures exists actions :: var r := RunSystem(INITIAL_SYSTEM, actions); r.m.state == Releasing && r.inbox == []
  {
    var first := [Connectivity(true), Client(Subscribe(1, true, WwanAny)), Deliver(0)];
    var later := [Client(Subscribe(2, true, Any)), Client(Unsubscribe(1)), Client(Unsubscribe(2))];
    FirstIsGranted();
    var s := RunSystem(INITIAL_SYSTEM, first);
    LaterTypeStrands(s);
    RunJoins(INITIAL_SYSTEM, first, later);
    var r := RunSystem(INITIAL_SYSTEM, first + later);
    assert r.m.state == Releasing && r.inbox == [];
  }

  lemma {:induction false} RunJoins(s: System, a: seq<Action>, b: seq<Action>)
    ensures RunSystem(s, a + b) == RunSystem(RunSystem(s, a), b)
  {
    if b == [] {
      assert a + b == a;
    } else {
      var n := |b| - 1;
      RunJoins(s, a, b[..n]);
      assert (a + b)[..|a + b| - 1] == a + b[..n];
    }
  }

  /** With no message under way the machine stays as it is whatever the environment does, so PENDING and
      RELEASING are not left without the clients. */
  lemma {:induction false} UnansweredStays(s: System, actions: seq<Action>)
    requires s.inbox == []
    requires forall a :: a in actions ==> !a.Client?
    ensures RunSystem(s, actions).m == s.m && RunSystem(s, actions).inbox == []
  {
    if actions != [] {
      var a := actions[|actions| - 1];
      assert a in actions;
      UnansweredStays(s, actions[..|actions| - 1]);
      EnvironmentHasNothingToSay(RunSystem(s, actions[..|actions| - 1]), a);
    }
  }

  lemma EnvironmentHasNothingToSay(s: System, a: Action)
    requires s.inbox == [] && !a.Client?
    ensures Act(s, a).m == s.m && Act(s, a).inbox == []
  {
  }

  // ---------------------------------------------------------------- the outcome of a request

  /** What the latest change of connectivity said; there is none at first. */
  function LatestConnectivity(actions: seq<Action>): bool {
    if actions == [] then false
    else
      match actions[|actions| - 1]
      case Connectivity(up) => up
      case _ => LatestConnectivity(actions[..|actions| - 1])
  }

  lemma {:induction false} PostingKeepsConnectivity(s: System, out: seq<Output>)
    ensures PostAll(s, out).connected == s.connected
    decreases out
  {
    if out != [] { PostingKeepsConnectivity(Post(s, out[0]), out[1..]); }
  }

  lemma ActKeepsConnectivity(s: System, a: Action)
    ensures Act(s, a).connected == if a.Connectivity? then a.up else s.connected
  {
    match a
    case Client(e) => PostingKeepsConnectivity(s.(m := Step(s.m, e).m), Step(s.m, e).out);
    case Connectivity(_) =>
    case Deliver(i) =>
      if i < |s.inbox| {
        var rest, e := s.(inbox := s.inbox[..i] + s.inbox[i + 1..]), EventOf(s.inbox[i].answer);
        PostingKeepsConnectivity(rest.(m := Step(rest.m, e).m), Step(rest.m, e).out);
      }
  }

  lemma {:induction false} ConnectivityIsLatest(actions: seq<Action>)
    ensures RunSystem(INITIAL_SYSTEM, actions).connected == LatestConnectivity(actions)
  {
    if actions != [] {
      var n := |actions| - 1;
      ConnectivityIsLatest(actions[..n]);
      ActKeepsConnectivity(RunSystem(INITIAL_SYSTEM, actions[..n]), actions[n]);
    }
  }

  /** The first subscriber of a settled machine has its request answered by what connectivity is then. */
  lemma RequestIsAnswered(s: System, h: int, wait: bool)
    requires s.m.state == Released && s.m.subs == [] && s.inbox == []
    ensures var asked := Act(s, Client(Subscribe(h, wait, WwanAny)));
      var done := Act(asked, Deliver(0));
      && done.inbox == []
      && done.m == if s.connected then Machine(Acquired, [Subscriber(h, wait, false)], WwanAny)
                   else Machine(Released, [], WwanAny)
  {
    var e := Subscribe(h, wait, WwanAny);
    FeedPosts(s, e);
    var asked := Act(s, Client(e));
    assert asked.m == Machine(Pending, [Subscriber(h, wait, false)], WwanAny);
    assert |asked.inbox| == 1 && asked.inbox[..0] + asked.inbox[1..] == [];
    var rest, answer := asked.(inbox := []), EventOf(asked.inbox[0].answer);
    FeedPosts(rest, answer);
    StayEveryone(asked.m.subs);
  }

  /** Over every run that ends settled: who asks next is granted the connection if and only if the latest
      change of connectivity said that there is one. */
  lemma OutcomeFollowsConnectivity(actions: seq<Action>, h: int, wait: bool)
    requires var s := RunSystem(INITIAL_SYSTEM, actions); s.m.state == Released && s.m.subs == [] && s.inbox == []
    ensures var s := RunSystem(INITIAL_SYSTEM, actions);
      var done := Act(Act(s, Client(Subscribe(h, wait, WwanAny))), Deliver(0));
      && (done.m.state == Acquired <==> LatestConnectivity(actions))
      && (Listed(done.m.subs, h) <==> LatestConnectivity(actions))
  {
    var s := RunSystem(INITIAL_SYSTEM, actions);
    ConnectivityIsLatest(actions);
    RequestIsAnswered(s, h, wait);
    if s.connected { assert [Subscriber(h, wait, false)][0].connHandle == h; }
  }
}
