/** The classes: the state machine that edits its subscriber list in place, the manager that routes
    ATL calls to its machines, and the native handler that answers data-connection calls. */
module AgpsMachine {
  import opened AgpsModel
  import opened AgpsNative

  class AgpsStateMachine {
    var mState: AgpsState
    var mSubscriberList: seq<Subscriber>
    var mCurrentSubscriber: Subscriber
    var mAgpsType: AgpsType
    var outbox: seq<Output>

    function View(): Machine
      reads this
    {
      Machine(mState, mSubscriberList, mAgpsType)
    }

    constructor (agpsType: AgpsType)
      ensures View() == Machine(Released, [], agpsType) && outbox == []
    {
      mState, mSubscriberList, mAgpsType, outbox := Released, [], agpsType, [];
      mCurrentSubscriber := Subscriber(0, false, false);
    }

    method SetType(t: AgpsType)
      modifies this`mAgpsType
      ensures mAgpsType == t
    {
      mAgpsType := t;
    }

    method SetCurrentSubscriber(s: Subscriber)
      modifies this`mCurrentSubscriber
      ensures mCurrentSubscriber == s
    {
      mCurrentSubscriber := s;
    }

    method AddSubscriber(toAdd: Subscriber)
      modifies this`mSubscriberList
      ensures mSubscriberList == AddedTo(old(mSubscriberList), toAdd)
    {
      var i := 0;
      while i < |mSubscriberList|
        invariant 0 <= i <= |mSubscriberList|
        invariant mSubscriberList == old(mSubscriberList)
        invariant forall s :: s in mSubscriberList[..i] ==> s.connHandle != toAdd.connHandle
      {
        if mSubscriberList[i].connHandle == toAdd.connHandle {
          return;
        }
        i := i + 1;
      }
      assert mSubscriberList[..i] == mSubscriberList;
      mSubscriberList := mSubscriberList + [toAdd];
    }

    method DeleteSubscriber(toDelete: Subscriber)
      modifies this`mSubscriberList
      ensures mSubscriberList == Without(old(mSubscriberList), toDelete.connHandle)
    {
      var h := toDelete.connHandle;
      var i := 0;
      while i < |mSubscriberList|
        invariant 0 <= i <= |mSubscriberList|
        invariant mSubscriberList[..i] + Without(mSubscriberList[i..], h) == Without(old(mSubscriberList), h)
        decreases |mSubscriberList| - i
      {
        WithoutStep(mSubscriberList, i, h);
        if mSubscriberList[i].connHandle == h {
          mSubscriberList := mSubscriberList[..i] + mSubscriberList[i + 1..];
        } else {
          i := i + 1;
        }
      }
      assert mSubscriberList[..i] + Without(mSubscriberList[i..], h) == mSubscriberList;
    }

    method AnyActiveSubscribers() returns (any: bool)
      ensures any == AnyActive(mSubscriberList)
    {
      var i := 0;
      while i < |mSubscriberList|
        invariant 0 <= i <= |mSubscriberList|
        invariant forall s :: s in mSubscriberList[..i] ==> s.isInactive
      {
        if !mSubscriberList[i].isInactive {
          assert mSubscriberList[i] in mSubscriberList;
          return true;
        }
        i := i + 1;
      }
      assert mSubscriberList[..i] == mSubscriberList;
      return false;
    }

    method GetSubscriber(h: int) returns (found: bool, s: Subscriber)
      ensures found == Listed(mSubscriberList, h)
      ensures found ==> s == Lookup(mSubscriberList, h)
    {
      var i := 0;
      s := mCurrentSubscriber;
      while i < |mSubscriberList|
        invariant 0 <= i <= |mSubscriberList|
        invariant forall t :: t in mSubscriberList[..i] ==> t.connHandle != h
      {
        if mSubscriberList[i].connHandle == h {
          assert mSubscriberList[i] in mSubscriberList;
          LookupIsFirst(mSubscriberList, h, i);
          return true, mSubscriberList[i];
        }
        i := i + 1;
      }
      assert mSubscriberList[..i] == mSubscriberList;
      found := false;
    }

    method DropAllSubscribers()
      modifies this`mSubscriberList
      ensures mSubscriberList == []
    {
      while mSubscriberList != []
        decreases |mSubscriberList|
      {
        mSubscriberList := mSubscriberList[1..];
      }
    }

    /** Sends one status to one subscriber, and takes it out of the list if asked to. */
    method NotifyEventToSubscriber(n: Notice, s: Subscriber, deletePostNotify: bool)
      modifies this`mSubscriberList, this`outbox
      ensures outbox == old(outbox) + [Notify(s.connHandle, n)]
      ensures mSubscriberList ==
        if deletePostNotify then Without(old(mSubscriberList), s.connHandle) else old(mSubscriberList)
    {
      outbox := outbox + [Notify(s.connHandle, n)];
      if deletePostNotify {
        DeleteSubscriber(s);
      }
    }

    /** Walks the list, erasing while it iterates. */
    method NotifyAllSubscribers(n: Notice, deletePostNotify: bool, who: Who)
      modifies this`mSubscriberList, this`outbox
      ensures outbox == old(outbox) + Notices(old(mSubscriberList), who, n)
      ensures mSubscriberList == Left(deletePostNotify, old(mSubscriberList), who)
    {
      var i := 0;
      ghost var all := mSubscriberList;
      ghost var sent: seq<Output> := [];
      while i < |mSubscriberList|
        invariant 0 <= i <= |mSubscriberList|
        invariant RoundInv(all, mSubscriberList, i, deletePostNotify, who, n, sent)
        invariant outbox == old(outbox) + sent
        decreases |mSubscriberList| - i
      {
        var subscriber := mSubscriberList[i];
        RoundTurn(all, mSubscriberList, i, deletePostNotify, who, n, sent);
        if Chosen(who, subscriber) {
          NotifyEventToSubscriber(n, subscriber, false);
          sent := sent + [Notify(subscriber.connHandle, n)];
          if deletePostNotify {
            mSubscriberList := mSubscriberList[..i] + mSubscriberList[i + 1..];
          } else {
            i := i + 1;
          }
        } else {
          i := i + 1;
        }
      }
      RoundEnd(all, mSubscriberList, deletePostNotify, who, n, sent);
    }

    method RequestOrReleaseDataConn(request: bool)
      modifies this`outbox
      ensures outbox == old(outbox) + [DataConn(request, mAgpsType)]
    {
      outbox := outbox + [DataConn(request, mAgpsType)];
    }

    method ProcessAgpsEventSubscribe()
      modifies this
      ensures View() == SubscribeStep(old(View()), old(mCurrentSubscriber)).m
      ensures outbox == old(outbox) + SubscribeStep(old(View()), old(mCurrentSubscriber)).out
    {
      match mState
      case Released =>
        AddSubscriber(mCurrentSubscriber);
        RequestOrReleaseDataConn(true);
        mState := Pending;
      case Pending =>
        AddSubscriber(mCurrentSubscriber);
      case Acquired =>
        NotifyEventToSubscriber(OpenSuccess, mCurrentSubscriber, false);
        AddSubscriber(mCurrentSubscriber);
      case Releasing =>
        AddSubscriber(mCurrentSubscriber);
    }

    /** Either the inactive flag of the current subscriber is set, or it is told the close and erased. */
    method LetGoOfCurrent()
      modifies this`mSubscriberList, this`outbox
      ensures var s := mCurrentSubscriber;
        && mSubscriberList ==
           (if s.waitForCloseComplete then Deactivate(old(mSubscriberList), s.connHandle)
            else Without(old(mSubscriberList), s.connHandle))
        && outbox == old(outbox) + (if s.waitForCloseComplete then [] else [Notify(s.connHandle, Close)])
    {
      if mCurrentSubscriber.waitForCloseComplete {
        // mCurrentSubscriber points into the list, so its flag is set there.
        mSubscriberList := Deactivate(mSubscriberList, mCurrentSubscriber.connHandle);
      } else {
        NotifyEventToSubscriber(Close, mCurrentSubscriber, true);
      }
    }

    method ProcessAgpsEventUnsubscribe()
      modifies this
      ensures View() == UnsubscribeStep(old(View()), old(mCurrentSubscriber)).m
      ensures outbox == old(outbox) + UnsubscribeStep(old(View()), old(mCurrentSubscriber)).out
    {
      match mState
      case Released =>
        NotifyEventToSubscriber(Close, mCurrentSubscriber, false);
      case Releasing =>
        LetGoOfCurrent();
        if mSubscriberList == [] {
          mState := Released;
        }
      case _ =>
        LetGoOfCurrent();
        if mSubscriberList == [] {
          mState := Released;
          RequestOrReleaseDataConn(false);
        } else {
          var any := AnyActiveSubscribers();
          if !any {
            mState := Releasing;
            RequestOrReleaseDataConn(false);
          }
        }
    }

    method ProcessAgpsEventGranted()
      modifies this
      ensures View() == GrantedStep(old(View())).m
      ensures outbox == old(outbox) + GrantedStep(old(View())).out
    {
      if mState == Pending {
        mState := Acquired;
        NotifyAllSubscribers(OpenSuccess, false, ActiveOnly);
      }
    }

    method CloseInactiveThenReopenOrSettle()
      requires mState == Releasing
      modifies this
      ensures View() == ClosedWhileReleasing(old(View())).m
      ensures outbox == old(outbox) + ClosedWhileReleasing(old(View())).out
    {
      NotifyAllSubscribers(Close, true, InactiveOnly);
      var any := AnyActiveSubscribers();
      if any {
        mState := Pending;
        RequestOrReleaseDataConn(true);
      } else {
        mState := Released;
      }
    }

    method ProcessAgpsEventReleased()
      modifies this
      ensures View() == ReleasedStep(old(View())).m
      ensures outbox == old(outbox) + ReleasedStep(old(View())).out
    {
      match mState
      case Acquired =>
        mState := Released;
        NotifyAllSubscribers(Close, true, Everyone);
      case Releasing => CloseInactiveThenReopenOrSettle();
      case _ =>
    }

    method ProcessAgpsEventDenied()
      modifies this
      ensures View() == DeniedStep(old(View())).m
      ensures outbox == old(outbox) + DeniedStep(old(View())).out
    {
      match mState
      case Pending =>
        mState := Released;
        NotifyAllSubscribers(OpenFailed, true, Everyone);
      case Releasing => CloseInactiveThenReopenOrSettle();
      case _ =>
    }
  }

  // ---------------------------------------------------------------- one turn of an erasing loop

  /** The list after a notification round. */
  function Left(delete: bool, subs: seq<Subscriber>, who: Who): seq<Subscriber> {
    if delete then Stay(subs, who) else subs
  }

  lemma WithoutStep(list: seq<Subscriber>, i: nat, h: int)
    requires i < |list|
    ensures var kept := list[..i] + Without(list[i..], h);
      if list[i].connHandle == h then
        var erased := list[..i] + list[i + 1..];
        erased[..i] + Without(erased[i..], h) == kept
      else
        list[..i + 1] + Without(list[i + 1..], h) == kept
  {
    var tail := list[i..];
    assert tail[1..] == list[i + 1..] && tail[0] == list[i];
    if list[i].connHandle == h {
      assert Without(tail, h) == Without(tail[1..], h);
      ErasedParts(list, i);
    } else {
      var rest := Without(tail[1..], h);
      assert Without(tail, h) == [list[i]] + rest;
      assert list[..i] + ([list[i]] + rest) == list[..i + 1] + rest;
    }
  }

  lemma ErasedParts(list: seq<Subscriber>, i: nat)
    requires i < |list|
    ensures var erased := list[..i] + list[i + 1..];
      erased[..i] == list[..i] && erased[i..] == list[i + 1..]
  {
  }

  lemma StayStep(list: seq<Subscriber>, i: nat, who: Who)
    requires i < |list|
    ensures var kept := list[..i] + Stay(list[i..], who);
      if Chosen(who, list[i]) then
        var erased := list[..i] + list[i + 1..];
        erased[..i] + Stay(erased[i..], who) == kept
      else
        list[..i + 1] + Stay(list[i + 1..], who) == kept
  {
    assert list[i..][1..] == list[i + 1..];
    if Chosen(who, list[i]) {
      var erased := list[..i] + list[i + 1..];
      assert erased[..i] == list[..i] && erased[i..] == list[i + 1..];
    } else {
      assert Stay(list[i..], who) == [list[i]] + Stay(list[i + 1..], who);
    }
  }

  lemma NoticesStep(list: seq<Subscriber>, i: nat, who: Who, n: Notice, sent: seq<Output>)
    requires i < |list|
    ensures var all := sent + Notices(list[i..], who, n);
      var now := if Chosen(who, list[i]) then sent + [Notify(list[i].connHandle, n)] else sent;
      && now + Notices(list[i + 1..], who, n) == all
      && now + Notices((list[..i] + list[i + 1..])[i..], who, n) == all
  {
    assert list[i..][1..] == list[i + 1..];
    assert (list[..i] + list[i + 1..])[i..] == list[i + 1..];
  }

  /** Before turn i of a notification round over the list `all`: the list is `list`, `sent` went out. */
  ghost predicate RoundInv(all: seq<Subscriber>, list: seq<Subscriber>, i: nat, delete: bool, who: Who, n: Notice,
                           sent: seq<Output>)
  {
    && i <= |list|
    && list[..i] + Left(delete, list[i..], who) == Left(delete, all, who)
    && sent + Notices(list[i..], who, n) == Notices(all, who, n)
  }

  lemma RoundTurn(all: seq<Subscriber>, list: seq<Subscriber>, i: nat, delete: bool, who: Who, n: Notice,
                  sent: seq<Output>)
    requires i < |list| && RoundInv(all, list, i, delete, who, n, sent)
    ensures var now := if Chosen(who, list[i]) then sent + [Notify(list[i].connHandle, n)] else sent;
      if Chosen(who, list[i]) && delete then RoundInv(all, list[..i] + list[i + 1..], i, delete, who, n, now)
      else RoundInv(all, list, i + 1, delete, who, n, now)
  {
    if delete { StayStep(list, i, who); }
    NoticesStep(list, i, who, n, sent);
  }

  lemma RoundEnd(all: seq<Subscriber>, list: seq<Subscriber>, delete: bool, who: Who, n: Notice, sent: seq<Output>)
    requires RoundInv(all, list, |list|, delete, who, n, sent)
    ensures list == Left(delete, all, who) && sent == Notices(all, who, n)
  {
    assert list[|list|..] == [] && list[..|list|] == list;
  }

  lemma {:induction false} LookupIsFirst(subs: seq<Subscriber>, h: int, i: nat)
    requires i < |subs| && subs[i].connHandle == h && Listed(subs, h)
    requires forall t :: t in subs[..i] ==> t.connHandle != h
    ensures Lookup(subs, h) == subs[i]
    decreases i
  {
    if i > 0 {
      assert subs[0] == subs[..i][0];
      assert subs[1..][i - 1] == subs[i];
      assert Listed(subs[1..], h);
      forall t | t in subs[1..][..i - 1] ensures t.connHandle != h {
        var j :| 0 <= j < i - 1 && subs[1..][..i - 1][j] == t;
        assert subs[..i][j + 1] == t;
      }
      LookupIsFirst(subs[1..], h, i - 1);
    }
  }

  lemma AddedIsListed(subs: seq<Subscriber>, s: Subscriber)
    ensures Listed(AddedTo(subs, s), s.connHandle)
  {
    if !Listed(subs, s.connHandle) {
      assert AddedTo(subs, s)[|subs|] == s;
    }
  }

  class AgpsManager {
    const mAgnssNif: AgpsStateMachine?
    const mInternetNif: AgpsStateMachine?
    const useEmergencyPdn: bool
    var outbox: seq<Output>

    constructor (agnss: AgpsStateMachine?, internet: AgpsStateMachine?, useEmergencyPdn: bool)
      ensures mAgnssNif == agnss && mInternetNif == internet && outbox == []
      ensures this.useEmergencyPdn == useEmergencyPdn
    {
      mAgnssNif, mInternetNif, outbox := agnss, internet, [];
      this.useEmergencyPdn := useEmergencyPdn;
    }

    ghost predicate Valid() {
      mAgnssNif != null && mInternetNif != null ==> mAgnssNif != mInternetNif
    }

    /** SUPL, SUPL_ES and INVALID go to the AGNSS machine, every other type to the internet machine. */
    function GetAgpsStateMachine(t: AgpsType): (sm: AgpsStateMachine?)
      ensures t in {Any, C2K, WwanAny, Wifi} ==> sm == mInternetNif
      ensures t in {Supl, SuplEs, Invalid} ==> sm == mAgnssNif
    {
      match t
      case Invalid | Supl | SuplEs => mAgnssNif
      case _ => mInternetNif
    }

    /** An emergency request stays one only with a PDN for it; every other type is kept, and the type that
        is used goes to the same machine as the type asked for. */
    function EffectiveType(t: AgpsType): (r: AgpsType)
      ensures r == SuplEs <==> t == SuplEs && useEmergencyPdn
      ensures t != SuplEs ==> r == t
      ensures GetAgpsStateMachine(r) == GetAgpsStateMachine(t)
    {
      if !useEmergencyPdn && t == SuplEs then Supl else t
    }

    /** A machine that takes the request has the type it is for; and it is the one that a release of the
        handle will find, unless the handle is listed already. */
    method RequestATL(h: int, agpsType: AgpsType)
      requires Valid()
      modifies this, mAgnssNif, mInternetNif
      ensures var sm := GetAgpsStateMachine(agpsType);
        sm != null ==>
          && (sm.mAgpsType == SuplEs <==> agpsType == SuplEs && useEmergencyPdn)
          && Listed(sm.mSubscriberList, h) && (old(OwnerOf(h)) == null ==> OwnerOf(h) == sm)
      ensures var sm := GetAgpsStateMachine(EffectiveType(agpsType));
        && (sm == null ==> outbox == old(outbox) + [Notify(h, OpenFailed)])
        && (sm != null ==>
              var o := Step(old(sm.View()), Subscribe(h, true, EffectiveType(agpsType)));
              outbox == old(outbox) && sm.View() == o.m && sm.outbox == old(sm.outbox) + o.out)
        && (mAgnssNif != null && sm != mAgnssNif ==> unchanged(mAgnssNif))
        && (mInternetNif != null && sm != mInternetNif ==> unchanged(mInternetNif))
    {
      var t := EffectiveType(agpsType);
      var sm := GetAgpsStateMachine(t);
      if sm == null {
        outbox := outbox + [Notify(h, OpenFailed)];
        return;
      }
      sm.SetType(t);
      var s := Subscriber(h, true, false);
      AddedIsListed(sm.mSubscriberList, s);
      sm.SetCurrentSubscriber(s);
      sm.ProcessAgpsEventSubscribe();
    }

    /** The machine that owns a handle: the AGNSS machine is searched first. */
    function OwnerOf(h: int): (sm: AgpsStateMachine?)
      reads mAgnssNif, mInternetNif
      ensures sm != null ==> (sm == mAgnssNif || sm == mInternetNif) && Listed(sm.mSubscriberList, h)
      ensures sm != mAgnssNif && mAgnssNif != null ==> !Listed(mAgnssNif.mSubscriberList, h)
      ensures sm == null && mInternetNif != null ==> !Listed(mInternetNif.mSubscriberList, h)
    {
      if mAgnssNif != null && Listed(mAgnssNif.mSubscriberList, h) then mAgnssNif
      else if mInternetNif != null && Listed(mInternetNif.mSubscriberList, h) then mInternetNif
      else null
    }

    method ReleaseATL(h: int)
      requires Valid()
      modifies mAgnssNif, mInternetNif
      ensures var sm := old(OwnerOf(h));
        && (sm != null ==>
              var o := Step(old(sm.View()), Unsubscribe(h));
              sm.View() == o.m && sm.outbox == old(sm.outbox) + o.out)
        && (mAgnssNif != null && sm != mAgnssNif ==> unchanged(mAgnssNif))
        && (mInternetNif != null && sm != mInternetNif ==> unchanged(mInternetNif))
    {
      var sm: AgpsStateMachine? := null;
      var found, s := false, Subscriber(h, false, false);
      if mAgnssNif != null {
        found, s := mAgnssNif.GetSubscriber(h);
        if found { sm := mAgnssNif; }
      }
      if !found && mInternetNif != null {
        found, s := mInternetNif.GetSubscriber(h);
        if found { sm := mInternetNif; }
      }
      if sm == null {
        return;
      }
      sm.SetCurrentSubscriber(s);
      sm.ProcessAgpsEventUnsubscribe();
    }

    /** Hands an answer of the framework to the machine of that type, if there is one. */
    method ReportAtl(answer: Answer, agpsType: AgpsType)
      requires Valid()
      modifies mAgnssNif, mInternetNif
      ensures var sm := GetAgpsStateMachine(agpsType);
        && (sm != null ==>
              var o := Step(old(sm.View()), EventOf(answer));
              sm.View() == o.m && sm.outbox == old(sm.outbox) + o.out)
        && (mAgnssNif != null && sm != mAgnssNif ==> unchanged(mAgnssNif))
        && (mInternetNif != null && sm != mInternetNif ==> unchanged(mInternetNif))
    {
      var sm := GetAgpsStateMachine(agpsType);
      if sm != null {
        match answer
        case DataConnOpen => sm.ProcessAgpsEventGranted();
        case DataConnFailed => sm.ProcessAgpsEventDenied();
        case DataConnClosed => sm.ProcessAgpsEventReleased();
      }
    }

    method HandleModemSSR()
      requires Valid()
      modifies mAgnssNif, mInternetNif
      ensures mAgnssNif != null ==>
        mAgnssNif.View() == Step(old(mAgnssNif.View()), ModemRestart).m && mAgnssNif.outbox == old(mAgnssNif.outbox)
      ensures mInternetNif != null ==>
        && mInternetNif.View() == Step(old(mInternetNif.View()), ModemRestart).m
        && mInternetNif.outbox == old(mInternetNif.outbox)
    {
      if mAgnssNif != null { mAgnssNif.DropAllSubscribers(); }
      if mInternetNif != null { mInternetNif.DropAllSubscribers(); }
    }
  }

  const TYPE_MOBILE := 0

  class NativeAgpsHandler {
    var mConnected: bool
    var mApn: string
    var posted: seq<Answer>

    constructor ()
      ensures !mConnected && posted == []
    {
      mConnected, mApn, posted := false, "", [];
    }

    /** The network-info items of one notification, each as its set of type bits and its APN; the
        last one wins. */
    method NotifyItems(items: seq<(set<int>, string)>)
      modifies this`mConnected, this`mApn
      ensures items == [] ==> mConnected == old(mConnected) && mApn == old(mApn)
      ensures items != [] ==>
        mConnected == (TYPE_MOBILE in items[|items| - 1].0) && mApn == items[|items| - 1].1
    {
      for i := 0 to |items|
        invariant i == 0 ==> mConnected == old(mConnected) && mApn == old(mApn)
        invariant i > 0 ==> mConnected == (TYPE_MOBILE in items[i - 1].0) && mApn == items[i - 1].1
      {
        mConnected := TYPE_MOBILE in items[i].0;
        mApn := items[i].1;
      }
    }

    method ProcessATLRequestRelease(request: bool, t: AgpsType)
      modifies this`posted
      ensures posted == old(posted) + Reply(mConnected, request, t)
    {
      if t == WwanAny {
        if request {
          if mConnected {
            posted := posted + [DataConnOpen];
          } else {
            posted := posted + [DataConnFailed];
          }
        } else {
          posted := posted + [DataConnClosed];
        }
      }
    }
  }
}
