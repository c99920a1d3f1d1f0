/** Commands that need the engine's capabilities: held back until the engine is up, then sent again. */
module DeferredMessages {

  /** A gated command, the news that the engine is up, or any message that is neither. */
  datatype Msg = Gated(id: nat) | EngineUp | Other

  /** The message queue, the messages held back, whether the capabilities are known, and the history:
      gated commands in the order they were sent, held back and executed, and those that were in the
      queue when the engine first came up. */
  datatype State = State(queue: seq<Msg>, pending: seq<nat>, known: bool,
                         sent: seq<nat>, deferred: seq<nat>, executed: seq<nat>, between: seq<nat>)

  /** Somebody sends a message, or the message task handles the first of the queue. */
  datatype Event = Send(msg: Msg) | Handle

  function Initial(known: bool): State {
    State([], [], known, [], [], [], [])
  }

  function AsMessages(ids: seq<nat>): (r: seq<Msg>)
    ensures |r| == |ids| && forall i :: 0 <= i < |ids| ==> r[i] == Gated(ids[i])
  {
    seq(|ids|, i requires 0 <= i < |ids| => Gated(ids[i]))
  }

  /** The gated commands of a queue, in order. */
  function GatedOf(queue: seq<Msg>): seq<nat> {
    if queue == [] then [] else (if queue[0].Gated? then [queue[0].id] else []) + GatedOf(queue[1..])
  }

  function Step(s: State, e: Event): State {
    match e
    case Send(msg) => s.(queue := s.queue + [msg], sent := s.sent + if msg.Gated? then [msg.id] else [])
    case Handle =>
      if s.queue == [] then s
      else
        var rest := s.queue[1..];
        match s.queue[0]
        case Gated(id) =>
          if s.known then s.(queue := rest, executed := s.executed + [id])
          else s.(queue := rest, pending := s.pending + [id], deferred := s.deferred + [id])
        case EngineUp =>
          s.(queue := rest + AsMessages(s.pending), pending := [], known := true,
             between := if s.known then s.between else GatedOf(rest))
        case Other => s.(queue := rest)
  }

  function Run(s: State, events: seq<Event>): State {
    if events == [] then s else Step(Run(s, events[..|events| - 1]), events[|events| - 1])
  }

  // ---------------------------------------------------------------- order and conservation

  lemma {:induction false} GatedConcat(a: seq<Msg>, b: seq<Msg>)
    ensures GatedOf(a + b) == GatedOf(a) + GatedOf(b)
  {
    if a == [] {
      assert a + b == b;
    } else {
      assert (a + b)[1..] == a[1..] + b && (a + b)[0] == a[0];
      GatedConcat(a[1..], b);
    }
  }

  lemma {:induction false} GatedOfMessages(ids: seq<nat>)
    ensures GatedOf(AsMessages(ids)) == ids
  {
    if ids != [] {
      assert AsMessages(ids)[1..] == AsMessages(ids[1..]);
      GatedOfMessages(ids[1..]);
      assert ids == [ids[0]] + ids[1..];
    }
  }

  /** The commands as sent are: those held back, those that were in the queue when the engine came up,
      and those sent after that; the last two groups have the first between them when executed. */
  ghost predicate Overtaken(s: State, after: seq<nat>) {
    && s.sent == s.deferred + s.between + after
    && s.executed + GatedOf(s.queue) == s.between + s.deferred + after
  }

  ghost predicate Inv(s: State) {
    && (!s.known ==> s.executed == s.between == [] && s.deferred == s.pending && s.sent == s.pending + GatedOf(s.queue))
    && (s.known ==> s.pending == [] && exists after :: Overtaken(s, after))
  }

  lemma SendKeepsInv(s: State, msg: Msg)
    requires Inv(s)
    ensures Inv(Step(s, Send(msg)))
  {
    var r := Step(s, Send(msg));
    var added := if msg.Gated? then [msg.id] else [];
    GatedConcat(s.queue, [msg]);
    assert GatedOf([msg]) == added;
    if s.known {
      var after :| Overtaken(s, after);
      assert s.executed + (GatedOf(s.queue) + added) == (s.executed + GatedOf(s.queue)) + added;
      assert s.between + s.deferred + (after + added) == (s.between + s.deferred + after) + added;
      assert s.deferred + s.between + (after + added) == (s.deferred + s.between + after) + added;
      assert Overtaken(r, after + added);
    } else {
      assert s.pending + (GatedOf(s.queue) + added) == (s.pending + GatedOf(s.queue)) + added;
    }
  }

  lemma HandleKeepsInv(s: State)
    requires Inv(s) && s.queue != []
    ensures Inv(Step(s, Handle))
  {
    var r, first, rest := Step(s, Handle), s.queue[0], s.queue[1..];
    match first
    case Gated(id) =>
      assert GatedOf(s.queue) == [id] + GatedOf(rest);
      if s.known {
        var after :| Overtaken(s, after);
        assert (s.executed + [id]) + GatedOf(rest) == s.executed + ([id] + GatedOf(rest));
        assert Overtaken(r, after);
      } else {
        assert (s.pending + [id]) + GatedOf(rest) == s.pending + ([id] + GatedOf(rest));
      }
    case EngineUp =>
      assert GatedOf(s.queue) == GatedOf(rest);
      GatedConcat(rest, AsMessages(s.pending));
      GatedOfMessages(s.pending);
      if s.known {
        var after :| Overtaken(s, after);
        assert GatedOf(rest) + [] == GatedOf(rest);
        assert Overtaken(r, after);
      } else {
        assert Overtaken(r, []);
      }
    case Other =>
      assert GatedOf(s.queue) == GatedOf(rest);
      if s.known {
        var after :| Overtaken(s, after);
        assert Overtaken(r, after);
      }
  }

  lemma {:induction false} InvOverRuns(known: bool, events: seq<Event>)
    ensures Inv(Run(Initial(known), events))
  {
    if events == [] {
      if known { assert Overtaken(Initial(known), []); }
    } else {
      var n := |events| - 1;
      InvOverRuns(known, events[..n]);
      var s := Run(Initial(known), events[..n]);
      match events[n]
      case Send(msg) => SendKeepsInv(s, msg);
      case Handle => if s.queue != [] { HandleKeepsInv(s); }
    }
  }

  /** At every step: commands sent are executed, queued or pending, each as often as it was sent; each
      was held back at most as often as it was sent; none was executed before the capabilities were
      known, and none is pending once they are. */
  lemma CommandsConserved(known: bool, events: seq<Event>)
    ensures var s := Run(Initial(known), events);
      && multiset(s.sent) == multiset(s.executed) + multiset(GatedOf(s.queue)) + multiset(s.pending)
      && multiset(s.deferred) <= multiset(s.sent)
      && (!s.known ==> s.executed == [])
      && (s.known ==> s.pending == [])
  {
    var s := Run(Initial(known), events);
    InvOverRuns(known, events);
    if s.known {
      var after :| Overtaken(s, after);
      var d, b := s.deferred, s.between;
      assert multiset(s.executed + GatedOf(s.queue)) == multiset(s.executed) + multiset(GatedOf(s.queue));
      assert multiset(b + d + after) == multiset(b) + multiset(d) + multiset(after);
      assert multiset(d + b + after) == multiset(d) + multiset(b) + multiset(after);
    } else {
      assert multiset(s.pending + GatedOf(s.queue)) == multiset(s.pending) + multiset(GatedOf(s.queue));
    }
  }

  /** The order of execution: commands held back keep their order among themselves, and so do all the
      others, but those that were in the queue when the engine first came up go first. */
  lemma ExecutionOrder(known: bool, events: seq<Event>) returns (after: seq<nat>)
    requires Run(Initial(known), events).known
    ensures var s := Run(Initial(known), events);
      && s.sent == s.deferred + s.between + after
      && s.executed + GatedOf(s.queue) == s.between + s.deferred + after
  {
    InvOverRuns(known, events);
    after :| Overtaken(Run(Initial(known), events), after);
  }

  /** The gated commands that somebody has sent, in order. */
  function SentIn(events: seq<Event>): seq<nat> {
    if events == [] then []
    else
      SentIn(events[..|events| - 1]) +
      match events[|events| - 1]
      case Send(Gated(id)) => [id]
      case _ => []
  }

  lemma {:induction false} SentIsSentIn(known: bool, events: seq<Event>)
    ensures Run(Initial(known), events).sent == SentIn(events)
  {
    if events != [] {
      var n := |events| - 1;
      SentIsSentIn(known, events[..n]);
    }
  }

  /** The news that the engine is up has been sent: it is still queued, or the capabilities are known. */
  lemma {:induction false} NewsArrives(known: bool, events: seq<Event>)
    ensures var s := Run(Initial(known), events);
      s.known || EngineUp in s.queue <==> known || Send(EngineUp) in events
  {
    if events != [] {
      var n := |events| - 1;
      var s, e := Run(Initial(known), events[..n]), events[n];
      NewsArrives(known, events[..n]);
      assert events == events[..n] + [e];
      if e == Handle && s.queue != [] {
        assert s.queue == [s.queue[0]] + s.queue[1..];
        assert EngineUp !in AsMessages(s.pending);
      }
    }
  }

  /** As soon as the engine has been reported up and the queue is empty, every command sent has been executed
      as often as it was sent. */
  lemma AllExecuted(known: bool, events: seq<Event>)
    requires Run(Initial(known), events).queue == [] && (known || Send(EngineUp) in events)
    ensures multiset(Run(Initial(known), events).executed) == multiset(SentIn(events))
  {
    NewsArrives(known, events);
    CommandsConserved(known, events);
    SentIsSentIn(known, events);
  }

  function Handles(s: State, n: nat): State
    decreases n
  {
    if n == 0 then s else Handles(Step(s, Handle), n - 1)
  }

  /** And that comes about: if nobody sends any more, a bounded number of turns empties the queue. A queued
      command is handled at most twice, and one held back once more. */
  lemma {:induction false} QueueEmpties(s: State, n: nat)
    requires s.queue == [] || n >= (if s.known then |s.queue| else 2 * |s.queue|) + |s.pending|
    ensures Handles(s, n).queue == []
    decreases n
  {
    if n > 0 { QueueEmpties(Step(s, Handle), n - 1); }
  }

  ghost predicate DistinctIds(ids: seq<nat>) {
    forall i, j :: 0 <= i < j < |ids| ==> ids[i] != ids[j]
  }

  lemma SwappedGroups(d: seq<nat>, b: seq<nat>, after: seq<nat>)
    requires DistinctIds(d + b + after)
    ensures b + d + after == d + b + after <==> d == [] || b == []
  {
    if d != [] && b != [] {
      assert (d + b + after)[0] == d[0] && (d + b + after)[|d|] == b[0];
      assert (b + d + after)[0] == b[0];
    } else {
      assert d == [] ==> b + d == b && d + b == b;
      assert b == [] ==> b + d == d && d + b == d;
    }
  }

  /** The order of sending is kept, exactly: distinct commands are executed in the order they were sent if
      and only if none was held back, or none was in the queue when the engine first came up. */
  lemma OrderKeptExactly(known: bool, events: seq<Event>)
    requires var s := Run(Initial(known), events); s.known && DistinctIds(s.sent)
    ensures var s := Run(Initial(known), events);
      s.executed + GatedOf(s.queue) == s.sent <==> s.deferred == [] || s.between == []
  {
    var s := Run(Initial(known), events);
    var after := ExecutionOrder(known, events);
    SwappedGroups(s.deferred, s.between, after);
  }

  lemma RunExtends(s: State, events: seq<Event>, e: Event)
    ensures Run(s, events + [e]) == Step(Run(s, events), e)
  {
    assert (events + [e])[..|events|] == events;
  }

  /** Command 1 is held back, and command 2 is queued behind the news that the engine is up. */
  lemma OneHeldOneQueued()
    ensures Run(Initial(false), [Send(Gated(1)), Handle, Send(EngineUp), Send(Gated(2))]) ==
      State([EngineUp, Gated(2)], [1], false, [1, 2], [1], [], [])
  {
    var s0, e1, e3, e4 := Initial(false), Send(Gated(1)), Send(EngineUp), Send(Gated(2));
    assert [] + [e1] == [e1] && [e1] + [Handle] == [e1, Handle] && [e1, Handle] + [e3] == [e1, Handle, e3];
    assert [e1, Handle, e3] + [e4] == [e1, Handle, e3, e4];
    RunExtends(s0, [], e1);
    RunExtends(s0, [e1], Handle);
    RunExtends(s0, [e1, Handle], e3);
    RunExtends(s0, [e1, Handle, e3], e4);
    assert [Gated(1)][1..] == [] && [] + [EngineUp] == [EngineUp] && [EngineUp] + [Gated(2)] == [EngineUp, Gated(2)];
    assert [] + [1] == [1] && [1] + [2] == [1, 2] && [] + [Gated(1)] == [Gated(1)] && [1] + [] == [1];
  }

  /** The shortest overtaking: command 2 is executed first. */
  lemma LaterCommandOvertakes()
    ensures var s := Run(Initial(false),
        [Send(Gated(1)), Handle, Send(EngineUp), Send(Gated(2)), Handle, Handle, Handle]);
      s.sent == [1, 2] && s.executed == [2, 1]
  {
    var s0 := Initial(false);
    var four := [Send(Gated(1)), Handle, Send(EngineUp), Send(Gated(2))];
    OneHeldOneQueued();
    RunExtends(s0, four, Handle);
    RunExtends(s0, four + [Handle], Handle);
    RunExtends(s0, four + [Handle] + [Handle], Handle);
    assert four + [Handle] + [Handle] + [Handle] ==
      [Send(Gated(1)), Handle, Send(EngineUp), Send(Gated(2)), Handle, Handle, Handle];
    var s1 := Run(s0, four + [Handle]);
    assert [EngineUp, Gated(2)][1..] == [Gated(2)] && s1.queue == [Gated(2), Gated(1)];
    var s2 := Run(s0, four + [Handle] + [Handle]);
    assert s2.queue == [Gated(1)] && s2.executed == [2];
  }

  // ---------------------------------------------------------------- session ids

  const LAST_ID := 0xFFFF_FFFE

  function NextId(counter: nat): nat {
    if counter + 1 == 0xFFFF_FFFF then 1 else counter + 1
  }

  /** The n-th id generated from a counter. */
  function NthId(counter: nat, n: nat): nat {
    if n == 0 then counter else NextId(NthId(counter, n - 1))
  }

  lemma {:induction false} NthIdIs(counter: nat, n: nat)
    requires 1 <= counter <= LAST_ID
    ensures NthId(counter, n) == 1 + (counter - 1 + n) % 0xFFFF_FFFE
  {
    if n > 0 {
      NthIdIs(counter, n - 1);
    }
  }

  /** Ids are never zero nor the largest 32-bit number, and two of them are equal exactly when the
      number of ids between them is a multiple of 2^32 - 2. */
  lemma IdsRepeatExactly(counter: nat, i: nat, j: nat)
    requires 1 <= counter <= LAST_ID && i <= j
    ensures 1 <= NthId(counter, i) <= LAST_ID
    ensures NthId(counter, i) == NthId(counter, j) <==> (j - i) % 0xFFFF_FFFE == 0
  {
    NthIdIs(counter, i);
    NthIdIs(counter, j);
    SameRemainder(counter - 1 + i, counter - 1 + j);
  }

  lemma SameRemainder(a: nat, b: nat)
    requires a <= b
    ensures a % 0xFFFF_FFFE == b % 0xFFFF_FFFE <==> (b - a) % 0xFFFF_FFFE == 0
  {
    var qa, qb, q := a / 0xFFFF_FFFE, b / 0xFFFF_FFFE, (b - a) / 0xFFFF_FFFE;
    assert a == 0xFFFF_FFFE * qa + a % 0xFFFF_FFFE && b == 0xFFFF_FFFE * qb + b % 0xFFFF_FFFE;
    assert b - a == 0xFFFF_FFFE * q + (b - a) % 0xFFFF_FFFE;
  }

  // ---------------------------------------------------------------- the class

  class LocAdapter {
    var queue: seq<Msg>
    var mPendingMsgs: seq<nat>
    var mIsEngineCapabilitiesKnown: bool
    var mSessionIdCounter: nat
    ghost var sent: seq<nat>
    ghost var deferred: seq<nat>
    ghost var executed: seq<nat>
    ghost var between: seq<nat>

    ghost function View(): State
      reads this
    {
      State(queue, mPendingMsgs, mIsEngineCapabilitiesKnown, sent, deferred, executed, between)
    }

    constructor (known: bool)
      ensures View() == Initial(known) && mSessionIdCounter == 1
    {
      queue, mPendingMsgs, mIsEngineCapabilitiesKnown, mSessionIdCounter := [], [], known, 1;
      sent, deferred, executed, between := [], [], [], [];
    }

    method GenerateSessionId() returns (id: nat)
      requires 1 <= mSessionIdCounter <= LAST_ID
      modifies this
      ensures id == mSessionIdCounter == NextId(old(mSessionIdCounter)) && 1 <= mSessionIdCounter <= LAST_ID
      ensures View() == old(View())
    {
      mSessionIdCounter := mSessionIdCounter + 1;
      if mSessionIdCounter == 0xFFFF_FFFF {
        mSessionIdCounter := 1;
      }
      id := mSessionIdCounter;
    }

    method SendMsg(msg: Msg)
      modifies this
      ensures View() == Step(old(View()), Send(msg)) && mSessionIdCounter == old(mSessionIdCounter)
    {
      queue := queue + [msg];
      sent := sent + if msg.Gated? then [msg.id] else [];
    }

    /** Sends the messages held back once more, in order. */
    method ReplayPending()
      modifies this
      ensures queue == old(queue) + AsMessages(old(mPendingMsgs)) && mPendingMsgs == []
      ensures mIsEngineCapabilitiesKnown == old(mIsEngineCapabilitiesKnown)
      ensures mSessionIdCounter == old(mSessionIdCounter)
      ensures sent == old(sent) && deferred == old(deferred) && executed == old(executed) && between == old(between)
    {
      for i := 0 to |mPendingMsgs|
        invariant mPendingMsgs == old(mPendingMsgs) && queue == old(queue) + AsMessages(mPendingMsgs[..i])
        invariant mIsEngineCapabilitiesKnown == old(mIsEngineCapabilitiesKnown)
        invariant mSessionIdCounter == old(mSessionIdCounter)
        invariant sent == old(sent) && deferred == old(deferred) && executed == old(executed) && between == old(between)
      {
        queue := queue + [Gated(mPendingMsgs[i])];
        assert AsMessages(mPendingMsgs[..i + 1]) == AsMessages(mPendingMsgs[..i]) + [Gated(mPendingMsgs[i])];
      }
      assert mPendingMsgs[..|mPendingMsgs|] == mPendingMsgs;
      mPendingMsgs := [];
    }

    method HandleOne()
      modifies this
      ensures View() == Step(old(View()), Handle) && mSessionIdCounter == old(mSessionIdCounter)
    {
      if queue == [] {
        return;
      }
      var msg := queue[0];
      queue := queue[1..];
      match msg
      case Gated(id) =>
        if !mIsEngineCapabilitiesKnown {
          mPendingMsgs := mPendingMsgs + [id];
          deferred := deferred + [id];
        } else {
          executed := executed + [id];
        }
      case EngineUp =>
        between := if mIsEngineCapabilitiesKnown then between else GatedOf(queue);
        mIsEngineCapabilitiesKnown := true;
        ReplayPending();
      case Other =>
    }
  }
}
