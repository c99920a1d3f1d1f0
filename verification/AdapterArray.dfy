/** The adapters of the location API: a fixed array of pointers, filled from the front, where a removed
    adapter is replaced by the last. */
module AdapterArray {

  const MAX_ADAPTERS := 10

  datatype Pointer = Null | Adapter(id: nat)

  /** Messages to the modem side: open with the current event mask (telling a newcomer that the engine
      is up), or close. */
  datatype Msg = LocOpen(newcomer: Pointer) | LocClose

  datatype Event = Add(p: Pointer) | Remove(p: Pointer)

  datatype State = State(adapters: seq<nat>, msgs: seq<Msg>)

  // ---------------------------------------------------------------- one call

  ghost predicate Distinct(list: seq<nat>) {
    forall i, j :: 0 <= i < j < |list| ==> list[i] != list[j]
  }

  function IndexOf(list: seq<nat>, x: nat): (i: nat)
    requires x in list
    ensures i < |list| && list[i] == x && x !in list[..i]
  {
    if list[0] == x then 0
    else
      var i := IndexOf(list[1..], x);
      assert list[..i + 1] == [list[0]] + list[1..][..i];
      i + 1
  }

  /** The last element takes the place of the one at i. */
  function SwapRemoved(list: seq<nat>, i: nat): seq<nat>
    requires i < |list|
  {
    list[i := list[|list| - 1]][..|list| - 1]
  }

  function Step(s: State, e: Event): State {
    match e
    case Add(Adapter(x)) =>
      if x in s.adapters || |s.adapters| >= MAX_ADAPTERS then s
      else State(s.adapters + [x], s.msgs + [LocOpen(Adapter(x))])
    case Remove(Adapter(x)) =>
      if x !in s.adapters then s
      else
        var left := SwapRemoved(s.adapters, IndexOf(s.adapters, x));
        State(left, s.msgs + [if left == [] then LocClose else LocOpen(Null)])
    case _ => s
  }

  function Run(events: seq<Event>): State {
    if events == [] then State([], []) else Step(Run(events[..|events| - 1]), events[|events| - 1])
  }

  // ---------------------------------------------------------------- the set it refines

  function SetOf(list: seq<nat>): set<nat> {
    set x | x in list
  }

  function SetStep(s: set<nat>, e: Event): set<nat> {
    match e
    case Add(Adapter(x)) => if |s| < MAX_ADAPTERS then s + {x} else s
    case Remove(Adapter(x)) => s - {x}
    case _ => s
  }

  function SetRun(events: seq<Event>): set<nat> {
    if events == [] then {} else SetStep(SetRun(events[..|events| - 1]), events[|events| - 1])
  }

  lemma {:induction false} SizeOfDistinct(list: seq<nat>)
    requires Distinct(list)
    ensures |SetOf(list)| == |list|
  {
    if list != [] {
      var n := |list| - 1;
      SizeOfDistinct(list[..n]);
      assert list == list[..n] + [list[n]];
      assert SetOf(list) == SetOf(list[..n]) + {list[n]};
    }
  }

  /** Removal by swapping takes out one element, and keeps the others distinct. */
  lemma SwapRemovedMembers(list: seq<nat>, i: nat)
    requires i < |list| && Distinct(list)
    ensures var r := SwapRemoved(list, i);
      && Distinct(r) && SetOf(r) == SetOf(list) - {list[i]} && |r| == |list| - 1
  {
    var r, n := SwapRemoved(list, i), |list| - 1;
    forall x | x in list && x != list[i] ensures x in r {
      var k :| 0 <= k < |list| && list[k] == x;
      assert if k == n then r[i] == x else r[k] == x;
    }
  }

  lemma StepRefinesSet(s: State, e: Event)
    requires Distinct(s.adapters) && |s.adapters| <= MAX_ADAPTERS
    ensures var r := Step(s, e);
      Distinct(r.adapters) && |r.adapters| <= MAX_ADAPTERS && SetOf(r.adapters) == SetStep(SetOf(s.adapters), e)
  {
    SizeOfDistinct(s.adapters);
    match e
    case Add(Adapter(x)) => if x !in s.adapters { AppendedMembers(s.adapters, x); }
    case Remove(Adapter(x)) =>
      if x in s.adapters { SwapRemovedMembers(s.adapters, IndexOf(s.adapters, x)); }
    case _ =>
  }

  lemma AppendedMembers(list: seq<nat>, x: nat)
    requires Distinct(list) && x !in list
    ensures Distinct(list + [x]) && SetOf(list + [x]) == SetOf(list) + {x}
  {
    assert forall y :: y in list + [x] <==> y in list || y == x;
  }

  /** Over every run: at most MAX_ADAPTERS distinct adapters, as a set exactly those added and not
      since removed. */
  lemma {:induction false} RunRefinesSet(events: seq<Event>)
    ensures var list := Run(events).adapters;
      Distinct(list) && |list| <= MAX_ADAPTERS && SetOf(list) == SetRun(events)
  {
    if events != [] {
      var n := |events| - 1;
      RunRefinesSet(events[..n]);
      StepRefinesSet(Run(events[..n]), events[n]);
    }
  }

  lemma EmptyTogether(list: seq<nat>)
    ensures SetOf(list) == {} <==> list == []
  {
    assert list != [] ==> list[0] in SetOf(list);
  }

  /** The modem side is told to close exactly by the calls that empty the set. */
  lemma CloseExactlyWhenEmptied(events: seq<Event>, e: Event)
    ensures var before, after := Run(events), Run(events + [e]);
      after.msgs == before.msgs + [LocClose] <==> SetRun(events) != {} && SetRun(events + [e]) == {}
  {
    assert (events + [e])[..|events|] == events;
    RunRefinesSet(events);
    RunRefinesSet(events + [e]);
    var before, after := Run(events), Run(events + [e]);
    EmptyTogether(before.adapters);
    EmptyTogether(after.adapters);
    assert |before.msgs + [LocClose]| == |before.msgs| + 1;
    if after.msgs != before.msgs {
      assert after.msgs[|before.msgs|] == LocClose <==> e.Remove? && after.adapters == [];
    }
  }

  predicate ToldWhetherAnyLeft(s: State) {
    s.adapters == [] <==> s.msgs == [] || s.msgs[|s.msgs| - 1] == LocClose
  }

  lemma StepTells(s: State, e: Event)
    requires ToldWhetherAnyLeft(s)
    ensures ToldWhetherAnyLeft(Step(s, e))
  {
  }

  /** Over every run: nothing has been sent yet, or the latest message is a close, exactly when
      nobody is left. */
  lemma {:induction false} LatestMessageTellsWhetherAnyLeft(events: seq<Event>)
    ensures ToldWhetherAnyLeft(Run(events))
    ensures SetRun(events) == {} <==> Run(events).msgs == [] || Run(events).msgs[|Run(events).msgs| - 1] == LocClose
  {
    if events != [] {
      var n := |events| - 1;
      LatestMessageTellsWhetherAnyLeft(events[..n]);
      StepTells(Run(events[..n]), events[n]);
    }
    RunRefinesSet(events);
    EmptyTogether(Run(events).adapters);
  }

  /** What one call should send: a newcomer that finds room is named, whoever leaves last closes, and when
      others are left the mask is sent anew. */
  function MsgFor(s: set<nat>, e: Event): seq<Msg> {
    match e
    case Add(Adapter(x)) => if x !in s && |s| < MAX_ADAPTERS then [LocOpen(Adapter(x))] else []
    case Remove(Adapter(x)) => if x !in s then [] else if s == {x} then [LocClose] else [LocOpen(Null)]
    case _ => []
  }

  function MsgsFor(events: seq<Event>): seq<Msg> {
    if events == [] then []
    else MsgsFor(events[..|events| - 1]) + MsgFor(SetRun(events[..|events| - 1]), events[|events| - 1])
  }

  lemma StepSends(s: State, e: Event)
    requires Distinct(s.adapters) && |s.adapters| <= MAX_ADAPTERS
    ensures Step(s, e).msgs == s.msgs + MsgFor(SetOf(s.adapters), e)
  {
    SizeOfDistinct(s.adapters);
    match e
    case Add(Adapter(x)) => assert x in s.adapters <==> x in SetOf(s.adapters);
    case Remove(Adapter(x)) =>
      if x in s.adapters {
        var i := IndexOf(s.adapters, x);
        SwapRemovedMembers(s.adapters, i);
        EmptyTogether(SwapRemoved(s.adapters, i));
        assert x in SetOf(s.adapters);
      }
    case _ =>
  }

  /** Over every run, the messages sent are exactly those that the set calls for. */
  lemma {:induction false} MessagesExactly(events: seq<Event>)
    ensures Run(events).msgs == MsgsFor(events)
  {
    if events != [] {
      var n := |events| - 1;
      MessagesExactly(events[..n]);
      RunRefinesSet(events[..n]);
      StepSends(Run(events[..n]), events[n]);
    }
  }

  // ---------------------------------------------------------------- the class

  class LocApiBase {
    const mLocAdapters: array<Pointer>
    const mExcludedMask: set<nat>
    var msgs: seq<Msg>
    ghost var adapters: seq<nat>

    ghost predicate Valid()
      reads this, mLocAdapters
    {
      && mLocAdapters.Length == MAX_ADAPTERS
      && |adapters| <= MAX_ADAPTERS && Distinct(adapters)
      && (forall i :: 0 <= i < |adapters| ==> mLocAdapters[i] == Adapter(adapters[i]))
      && (forall i :: |adapters| <= i < MAX_ADAPTERS ==> mLocAdapters[i] == Null)
    }

    ghost function View(): State
      reads this
    {
      State(adapters, msgs)
    }

    constructor (excludedMask: set<nat>)
      ensures Valid() && fresh(mLocAdapters) && View() == State([], []) && mExcludedMask == excludedMask
    {
      mLocAdapters := new Pointer[MAX_ADAPTERS](_ => Null);
      mExcludedMask := excludedMask;
      msgs := [];
      adapters := [];
    }

    method AddAdapter(adapter: Pointer)
      requires Valid()
      modifies this, mLocAdapters
      ensures Valid() && View() == Step(old(View()), Add(adapter))
    {
      var i := 0;
      while i < MAX_ADAPTERS && mLocAdapters[i] != adapter
        invariant 0 <= i <= |adapters|
        invariant Valid() && View() == old(View()) && mLocAdapters[..] == old(mLocAdapters[..])
        invariant forall k :: 0 <= k < i ==> mLocAdapters[k] != adapter
      {
        if mLocAdapters[i] == Null {
          mLocAdapters[i] := adapter;
          msgs := msgs + [LocOpen(adapter)];
          adapters := adapters + [adapter.id];
          break;
        }
        i := i + 1;
      }
    }

    method RemoveAdapter(adapter: Pointer)
      requires Valid()
      modifies this, mLocAdapters
      ensures Valid() && View() == Step(old(View()), Remove(adapter))
    {
      ghost var list := adapters;
      ghost var removed := false;
      var i := 0;
      while i < MAX_ADAPTERS && mLocAdapters[i] != Null
        invariant 0 <= i <= MAX_ADAPTERS && Valid()
        invariant !removed ==> i <= |list| && View() == old(View())
        invariant !removed ==> forall k :: 0 <= k < i ==> Adapter(list[k]) != adapter
        invariant removed ==> i == MAX_ADAPTERS || mLocAdapters[i] == Null
        invariant removed ==> View() == Step(old(View()), Remove(adapter))
        decreases MAX_ADAPTERS - i
      {
        if mLocAdapters[i] == adapter {
          IndexIsUnique(list, i);
          i := EraseAt(i);
          removed := true;
        }
        i := i + 1;
      }
    }

    /** The body of the loop above for the adapter at j: the caller's index is moved to the last
        adapter, so that its loop ends. */
    method EraseAt(j: nat) returns (i: nat)
      requires Valid() && j < |adapters|
      modifies this, mLocAdapters
      ensures Valid() && adapters == SwapRemoved(old(adapters), j) && i == |adapters| >= j
      ensures msgs == old(msgs) + [if adapters == [] then LocClose else LocOpen(Null)]
    {
      ghost var list := adapters;
      mLocAdapters[j] := Null;
      i := j + 1;
      while i < MAX_ADAPTERS && mLocAdapters[i] != Null
        invariant j < i <= |list|
      {
        i := i + 1;
      }
      i := i - 1;
      mLocAdapters[j] := mLocAdapters[i];
      mLocAdapters[i] := Null;
      adapters := SwapRemoved(list, j);
      SwapRemovedMembers(list, j);
      if i == 0 {
        msgs := msgs + [LocClose];
      } else {
        msgs := msgs + [LocOpen(Null)];
      }
    }

    /** The union of the masks of all adapters, without the excluded bits; `maskOf` is what each
        adapter answers. */
    method GetEvtMask(maskOf: nat -> set<nat>) returns (mask: set<nat>)
      requires Valid()
      ensures forall b :: b in mask <==> b !in mExcludedMask && exists a :: a in adapters && b in maskOf(a)
    {
      mask := {};
      var i := 0;
      while i < MAX_ADAPTERS && mLocAdapters[i] != Null
        invariant 0 <= i <= |adapters|
        invariant forall b :: b in mask <==> exists a :: a in adapters[..i] && b in maskOf(a)
      {
        assert adapters[..i + 1] == adapters[..i] + [adapters[i]];
        mask := mask + maskOf(mLocAdapters[i].id);
        i := i + 1;
      }
      assert adapters[..i] == adapters;
      mask := mask - mExcludedMask;
    }
  }

  lemma IndexIsUnique(list: seq<nat>, i: nat)
    requires i < |list| && Distinct(list)
    ensures IndexOf(list, list[i]) == i
  {
  }
}
