/** The two subscription maps are converses of each other, and deliveries are right because they are. */
module SubscriptionIndex {
  import opened SetMap
  import opened ObserverModel

  /** Exact converses, with no empty entry. */
  ghost predicate Agree(o: Observer) {
    && NoEmptyEntry(o.c2d) && NoEmptyEntry(o.d2c)
    && forall c, i :: i in Vals(o.c2d, c) <==> c in Vals(o.d2c, i)
  }

  lemma SubscribeKeepsAgreement(o: Observer, items: set<Item>, client: Client, request: bool)
    requires Agree(o) && items != {}
    ensures Agree(SubscribeStep(o, items, client, request).o)
  {
    var after := SubscribeStep(o, items, client, request).o;
    EditsLeaveNoEmptyEntry(o.c2d, {client}, items);
    EditsLeaveNoEmptyEntry(o.d2c, items, {client});
    forall c, i ensures i in Vals(after.c2d, c) <==> c in Vals(after.d2c, i) {
      ValsAdded(o.c2d, {client}, items, c);
      ValsAdded(o.d2c, items, {client}, i);
    }
  }

  lemma UnsubscribeKeepsAgreement(o: Observer, items: set<Item>, client: Client)
    requires Agree(o)
    ensures Agree(UnsubscribeStep(o, items, client).o)
  {
    var after := UnsubscribeStep(o, items, client).o;
    var unused := GoneVals(o.c2d, {client}, items);
    assert unused == Vals(o.c2d, client) * items;
    EditsLeaveNoEmptyEntry(o.c2d, {client}, items);
    EditsLeaveNoEmptyEntry(o.d2c, unused, {client});
    forall c, i ensures i in Vals(after.c2d, c) <==> c in Vals(after.d2c, i) {
      ValsTrimmed(o.c2d, {client}, items, c);
      ValsTrimmed(o.d2c, unused, {client}, i);
    }
  }

  lemma UnsubscribeAllKeepsAgreement(o: Observer, client: Client)
    requires Agree(o)
    ensures Agree(UnsubscribeAllStep(o, client).o) && client !in UnsubscribeAllStep(o, client).o.c2d
  {
    var after, had := UnsubscribeAllStep(o, client).o, Vals(o.c2d, client);
    EditsLeaveNoEmptyEntry(o.d2c, had, {client});
    forall c, i ensures i in Vals(after.c2d, c) <==> c in Vals(after.d2c, i) {
      ValsTrimmed(o.d2c, had, {client}, i);
      assert Vals(o.c2d - {client}, c) == if c == client then {} else Vals(o.c2d, c);
      assert i in had <==> client in Vals(o.d2c, i);
    }
  }

  // ---------------------------------------------------------------- updateSubscription

  /** After an update, the map of items lists the client for the items it gave up and the items new
      to it, and no longer for the items it keeps. */
  lemma UpdatedIndex(o: Observer, items: set<Item>, client: Client, i: Item)
    requires Agree(o) && items != {}
    ensures var after := UpdateStep(o, items, client).o;
      && Vals(after.c2d, client) == items
      && (client in Vals(after.d2c, i) <==> (i in Vals(o.c2d, client)) != (i in items))
      && Vals(after.d2c, i) - {client} == Vals(o.d2c, i) - {client}
  {
    var had := Vals(o.c2d, client);
    var trimmed := Trimmed(o.d2c, had * items, {client});
    ValsTrimmed(o.d2c, had * items, {client}, i);
    ValsAdded(trimmed, items - had, {client}, i);
    assert i in had <==> client in Vals(o.d2c, i);
  }

  /** The update keeps the maps in agreement if and only if the client had no item before. */
  lemma UpdateAgreesExactlyForNewcomers(o: Observer, items: set<Item>, client: Client)
    requires Agree(o) && items != {}
    ensures Agree(UpdateStep(o, items, client).o) <==> Vals(o.c2d, client) == {}
  {
    var after, had := UpdateStep(o, items, client).o, Vals(o.c2d, client);
    if had == {} {
      EditsLeaveNoEmptyEntry(o.d2c, had * items, {client});
      EditsLeaveNoEmptyEntry(Trimmed(o.d2c, had * items, {client}), items - had, {client});
      forall c, i ensures i in Vals(after.c2d, c) <==> c in Vals(after.d2c, i) {
        UpdatedIndex(o, items, client, i);
        if c != client {
          assert Vals(after.c2d, c) == Vals(o.c2d, c);
          assert c in Vals(after.d2c, i) <==> c in Vals(after.d2c, i) - {client};
          assert c in Vals(o.d2c, i) <==> c in Vals(o.d2c, i) - {client};
        }
      }
    } else {
      var i :| i in had;
      UpdatedIndex(o, items, client, i);
      assert i in Vals(after.c2d, client) <==> client !in Vals(after.d2c, i);
    }
  }

  /** In particular, a client that updates to the items it already has is told nothing any more. */
  lemma UpdateToSameItemsSilences(o: Observer, client: Client, updates: seq<Update>)
    requires Agree(o) && Vals(o.c2d, client) != {}
    ensures client !in NotifyStep(UpdateStep(o, Vals(o.c2d, client), client).o, updates).sent
  {
    var items := Vals(o.c2d, client);
    var after := UpdateStep(o, items, client).o;
    forall i ensures client !in Vals(after.d2c, i) { UpdatedIndex(o, items, client, i); }
    forall i | i in after.d2c ensures client !in after.d2c[i] { assert after.d2c[i] == Vals(after.d2c, i); }
    assert client !in ClientsOf(after.d2c, AcceptedItems(updates));
  }

  lemma FirstSubscription(c: Client, i: Item)
    ensures SubscribeStep(INITIAL_OBSERVER, {i}, c, false).o == Observer(map[c := {i}], map[i := {c}], map[], 0)
  {
    var after := SubscribeStep(INITIAL_OBSERVER, {i}, c, false).o;
    assert {} + {i} == {i} && {} + {c} == {c};
    assert after.c2d == map[c := {i}] && after.d2c == map[i := {c}];
  }

  lemma RunOfTwo(o: Observer, e1: Event, e2: Event)
    ensures Run(o, [e1, e2]) == Step(Step(o, e1).o, e2).o
  {
    var both, first := [e1, e2], [e1];
    assert both[..1] == first && first[..0] == [];
    assert Run(o, first) == Step(o, e1).o;
  }

  /** The shortest failing run: a client moves from item 1 to item 2, and item 1 stays subscribed for it. */
  lemma UpdateBreaksAgreement()
    ensures var c := Client(7);
      var o := Run(INITIAL_OBSERVER, [Subscribe({Item(1)}, c, false), UpdateSubscription({Item(2)}, c)]);
      Vals(o.c2d, c) == {Item(2)} && c in Vals(o.d2c, Item(1)) && !Agree(o)
  {
    var c := Client(7);
    RunOfTwo(INITIAL_OBSERVER, Subscribe({Item(1)}, c, false), UpdateSubscription({Item(2)}, c));
    SubscribeKeepsAgreement(INITIAL_OBSERVER, {Item(1)}, c, false);
    FirstSubscription(c, Item(1));
    var o1 := SubscribeStep(INITIAL_OBSERVER, {Item(1)}, c, false).o;
    UpdatedIndex(o1, {Item(2)}, c, Item(1));
    UpdateAgreesExactlyForNewcomers(o1, {Item(2)}, c);
  }

  // ---------------------------------------------------------------- over runs

  /** The condition a caller can check: the client is not in the map of clients. */
  predicate ByNewcomer(o: Observer, e: Event) {
    e.UpdateSubscription? ==> e.items == {} || e.client == NullClient || e.client !in o.c2d
  }

  predicate UpdatesByNewcomers(o: Observer, events: seq<Event>) {
    events == [] ||
    (UpdatesByNewcomers(o, events[..|events| - 1]) &&
     ByNewcomer(Run(o, events[..|events| - 1]), events[|events| - 1]))
  }

  /** One handler keeps the agreement if and only if it is not an update by a client with items. */
  lemma StepKeepsAgreement(o: Observer, e: Event)
    requires Agree(o)
    ensures Agree(Step(o, e).o) <==> ByNewcomer(o, e)
  {
    match e
    case Subscribe(items, client, request) =>
      if items != {} { SubscribeKeepsAgreement(o, items, client, request); }
    case UpdateSubscription(items, client) =>
      if items != {} { UpdateAgreesExactlyForNewcomers(o, items, client); }
    case Unsubscribe(items, client) => UnsubscribeKeepsAgreement(o, items, client);
    case UnsubscribeAll(client) => UnsubscribeAllKeepsAgreement(o, client);
    case _ =>
  }

  lemma {:induction false} AgreementOverRuns(events: seq<Event>)
    requires UpdatesByNewcomers(INITIAL_OBSERVER, events)
    ensures Agree(Run(INITIAL_OBSERVER, events))
  {
    if events != [] {
      var n := |events| - 1;
      AgreementOverRuns(events[..n]);
      StepKeepsAgreement(Run(INITIAL_OBSERVER, events[..n]), events[n]);
    }
  }

  // ---------------------------------------------------------------- the framework's view

  /** The items announced to the framework and not since unsubscribed. */
  function AfterCalls(announced: set<Item>, calls: seq<FrameworkCall>): set<Item> {
    if calls == [] then announced
    else AfterCall(AfterCalls(announced, calls[..|calls| - 1]), calls[|calls| - 1])
  }

  function AfterCall(announced: set<Item>, call: FrameworkCall): set<Item> {
    if call.UnsubscribeFrom? then announced - call.items else announced + call.items
  }

  /** A new subscription object has heard of nothing. */
  function HeardBefore(o: Observer, e: Event, announced: set<Item>): set<Item> {
    if e.SetSubscriptionObj? && e.obj != 0 && e.obj != o.obj then {} else announced
  }

  function Announced(o: Observer, events: seq<Event>): set<Item> {
    if events == [] then {}
    else
      var n := |events| - 1;
      var before := Run(o, events[..n]);
      AfterCalls(HeardBefore(before, events[n], Announced(o, events[..n])), Step(before, events[n]).calls)
  }

  lemma OneCall(a: set<Item>, x: FrameworkCall, y: FrameworkCall)
    ensures AfterCalls(a, []) == a
    ensures AfterCalls(a, [x]) == AfterCall(a, x)
    ensures AfterCalls(a, [x, y]) == AfterCall(AfterCall(a, x), y)
  {
    assert [x][..0] == [] && [x, y][..1] == [x];
  }

  lemma UpdateKeepsAnnounced(o: Observer, items: set<Item>, client: Client)
    requires o.obj != 0
    ensures AfterCalls(o.d2c.Keys, UpdateStep(o, items, client).calls) == UpdateStep(o, items, client).o.d2c.Keys
  {
    var had := Vals(o.c2d, client);
    var trimmed := Trimmed(o.d2c, had * items, {client});
    var gone := GoneKeys(o.d2c, had * items, {client});
    var more := NewKeys(trimmed, items - had, {client});
    KeysAfter(o.d2c, had * items, {client});
    KeysAfter(trimmed, items - had, {client});
    OneCall(o.d2c.Keys, SubscribeTo(more), UnsubscribeFrom(gone));
    OneCall(o.d2c.Keys, UnsubscribeFrom(gone), UnsubscribeFrom(gone));
    assert gone !! more;
  }

  lemma UnsubscribesKeepAnnounced(o: Observer, unused: set<Item>, client: Client)
    ensures var gone := GoneKeys(o.d2c, unused, {client});
      AfterCalls(o.d2c.Keys, if gone != {} then [UnsubscribeFrom(gone)] else []) ==
      Trimmed(o.d2c, unused, {client}).Keys
  {
    var gone := GoneKeys(o.d2c, unused, {client});
    KeysAfter(o.d2c, unused, {client});
    OneCall(o.d2c.Keys, UnsubscribeFrom(gone), UnsubscribeFrom(gone));
  }

  lemma StepKeepsAnnounced(o: Observer, e: Event, announced: set<Item>)
    requires o.obj != 0 ==> announced == o.d2c.Keys
    ensures var r := Step(o, e);
      r.o.obj != 0 ==> AfterCalls(HeardBefore(o, e, announced), r.calls) == r.o.d2c.Keys
  {
    match e
    case SetSubscriptionObj(obj) =>
      var keys := o.d2c.Keys;
      OneCall(HeardBefore(o, e, announced), SubscribeTo(keys), RequestData(keys));
    case Subscribe(items, client, request) =>
      var more := NewKeys(o.d2c, items, {client});
      KeysAfter(o.d2c, items, {client});
      OneCall(o.d2c.Keys, RequestData(more), RequestData(more));
      OneCall(o.d2c.Keys, SubscribeTo(more), SubscribeTo(more));
    case UpdateSubscription(items, client) =>
      if o.obj != 0 { UpdateKeepsAnnounced(o, items, client); }
    case Unsubscribe(items, client) => UnsubscribesKeepAnnounced(o, GoneVals(o.c2d, {client}, items), client);
    case UnsubscribeAll(client) => UnsubscribesKeepAnnounced(o, Vals(o.c2d, client), client);
    case Notify(updates) =>
  }

  /** Over every run, updates included: once there is a subscription object, the items it has been
      told of and not since been told to drop are exactly the keys of the map of items. */
  lemma {:induction false} AnnouncedAreTheKeys(events: seq<Event>)
    ensures var o := Run(INITIAL_OBSERVER, events); o.obj != 0 ==> Announced(INITIAL_OBSERVER, events) == o.d2c.Keys
  {
    if events != [] {
      var n := |events| - 1;
      AnnouncedAreTheKeys(events[..n]);
      StepKeepsAnnounced(Run(INITIAL_OBSERVER, events[..n]), events[n], Announced(INITIAL_OBSERVER, events[..n]));
    }
  }

  // ---------------------------------------------------------------- what the framework was told to subscribe

  /** The items the framework was told to subscribe to and not since to drop; asking for data is not enough. */
  function AfterSubscribes(subscribed: set<Item>, calls: seq<FrameworkCall>): set<Item> {
    if calls == [] then subscribed
    else
      var before, call := AfterSubscribes(subscribed, calls[..|calls| - 1]), calls[|calls| - 1];
      match call
      case SubscribeTo(items) => before + items
      case UnsubscribeFrom(items) => before - items
      case RequestData(_) => before
  }

  function Subscribed(o: Observer, events: seq<Event>): set<Item> {
    if events == [] then {}
    else
      var n := |events| - 1;
      var before := Run(o, events[..n]);
      AfterSubscribes(HeardBefore(before, events[n], Subscribed(o, events[..n])), Step(before, events[n]).calls)
  }

  /** The event asks for data of these items, which nobody subscribes to yet. */
  function AskedFirst(o: Observer, e: Event): set<Item> {
    if e.Subscribe? && e.requestData && e.client != NullClient && o.obj != 0 then e.items - o.d2c.Keys else {}
  }

  /** The items of the map whose entry was made by asking for data, since the subscription object was set. */
  function OnlyAsked(o: Observer, events: seq<Event>): set<Item> {
    if events == [] then {}
    else
      var n := |events| - 1;
      var before := Run(o, events[..n]);
      if events[n].SetSubscriptionObj? && events[n].obj != 0 then {}
      else (OnlyAsked(o, events[..n]) + AskedFirst(before, events[n])) * Step(before, events[n]).o.d2c.Keys
  }

  lemma OneSubscribe(a: set<Item>, x: FrameworkCall, y: FrameworkCall)
    ensures AfterSubscribes(a, []) == a
    ensures AfterSubscribes(a, [x]) ==
      if x.SubscribeTo? then a + x.items else if x.UnsubscribeFrom? then a - x.items else a
    ensures AfterSubscribes(a, [x, y]) == AfterSubscribes(AfterSubscribes(a, [x]), [y])
  {
    assert [x][..0] == [] && [x, y][..1] == [x] && [y][..0] == [];
  }

  /** The part of the keys the framework was told to subscribe to, and the part that was only asked for. */
  predicate Splits(keys: set<Item>, subscribed: set<Item>, onlyAsked: set<Item>) {
    keys == subscribed + onlyAsked && subscribed !! onlyAsked
  }

  lemma UpdateSplits(o: Observer, items: set<Item>, client: Client, subscribed: set<Item>, asked: set<Item>)
    requires o.obj != 0 && Splits(o.d2c.Keys, subscribed, asked)
    ensures var r := UpdateStep(o, items, client);
      Splits(r.o.d2c.Keys, AfterSubscribes(subscribed, r.calls), asked * r.o.d2c.Keys)
  {
    var had := Vals(o.c2d, client);
    var trimmed := Trimmed(o.d2c, had * items, {client});
    var gone := GoneKeys(o.d2c, had * items, {client});
    var more := NewKeys(trimmed, items - had, {client});
    KeysAfter(o.d2c, had * items, {client});
    KeysAfter(trimmed, items - had, {client});
    assert gone !! more by {
      forall i | i in gone ensures i in had && i !in items - had { }
    }
    AfterUpdate(subscribed, more, gone);
  }

  lemma AfterUpdate(subscribed: set<Item>, more: set<Item>, gone: set<Item>)
    ensures AfterSubscribes(subscribed, UpdateCalls(more, gone)) == (subscribed + more) - gone
  {
    OneSubscribe(subscribed, SubscribeTo(more), UnsubscribeFrom(gone));
    OneSubscribe(subscribed, UnsubscribeFrom(gone), UnsubscribeFrom(gone));
    OneSubscribe(subscribed + more, UnsubscribeFrom(gone), UnsubscribeFrom(gone));
  }

  lemma UnsubscribesSplit(o: Observer, unused: set<Item>, client: Client, subscribed: set<Item>, asked: set<Item>)
    requires Splits(o.d2c.Keys, subscribed, asked)
    ensures var gone, keys := GoneKeys(o.d2c, unused, {client}), Trimmed(o.d2c, unused, {client}).Keys;
      Splits(keys, AfterSubscribes(subscribed, if gone != {} then [UnsubscribeFrom(gone)] else []), asked * keys)
  {
    var gone := GoneKeys(o.d2c, unused, {client});
    KeysAfter(o.d2c, unused, {client});
    OneSubscribe(subscribed, UnsubscribeFrom(gone), UnsubscribeFrom(gone));
  }

  lemma SubscribeSplits(o: Observer, items: set<Item>, client: Client, request: bool, subscribed: set<Item>,
                        asked: set<Item>)
    requires o.obj != 0 && Splits(o.d2c.Keys, subscribed, asked)
    ensures var r := SubscribeStep(o, items, client, request);
      Splits(r.o.d2c.Keys, AfterSubscribes(subscribed, r.calls), asked + if request then items - o.d2c.Keys else {})
  {
    var more := NewKeys(o.d2c, items, {client});
    KeysAfter(o.d2c, items, {client});
    OneSubscribe(subscribed, RequestData(more), RequestData(more));
    OneSubscribe(subscribed, SubscribeTo(more), SubscribeTo(more));
  }

  lemma StepSplits(o: Observer, e: Event, subscribed: set<Item>, asked: set<Item>)
    requires o.obj != 0 ==> Splits(o.d2c.Keys, subscribed, asked)
    ensures var r := Step(o, e);
      var askedNow := if e.SetSubscriptionObj? && e.obj != 0 then {} else (asked + AskedFirst(o, e)) * r.o.d2c.Keys;
      r.o.obj != 0 ==> Splits(r.o.d2c.Keys, AfterSubscribes(HeardBefore(o, e, subscribed), r.calls), askedNow)
  {
    match e
    case SetSubscriptionObj(obj) =>
      var keys, heard := o.d2c.Keys, HeardBefore(o, e, subscribed);
      OneSubscribe(heard, SubscribeTo(keys), RequestData(keys));
      OneSubscribe(heard + keys, RequestData(keys), RequestData(keys));
    case Subscribe(items, client, request) =>
      if o.obj != 0 && items != {} && client != NullClient {
        SubscribeSplits(o, items, client, request, subscribed, asked);
        KeysAfter(o.d2c, items, {client});
      }
    case UpdateSubscription(items, client) =>
      if o.obj != 0 { UpdateSplits(o, items, client, subscribed, asked); }
    case Unsubscribe(items, client) =>
      if o.obj != 0 { UnsubscribesSplit(o, GoneVals(o.c2d, {client}, items), client, subscribed, asked); }
    case UnsubscribeAll(client) =>
      if o.obj != 0 { UnsubscribesSplit(o, Vals(o.c2d, client), client, subscribed, asked); }
    case Notify(updates) =>
  }

  /** Over every run: once there is a subscription object, the keys of the map of items that the framework
      was not told to subscribe to are exactly those whose entry was made by asking for data. So all are
      subscribed if and only if no entry was. */
  lemma {:induction false} SubscribedExactly(events: seq<Event>)
    ensures var o := Run(INITIAL_OBSERVER, events);
      var subscribed, asked := Subscribed(INITIAL_OBSERVER, events), OnlyAsked(INITIAL_OBSERVER, events);
      o.obj != 0 ==> Splits(o.d2c.Keys, subscribed, asked) && (subscribed == o.d2c.Keys <==> asked == {})
  {
    if events != [] {
      var n := |events| - 1;
      SubscribedExactly(events[..n]);
      var subscribed, asked := Subscribed(INITIAL_OBSERVER, events[..n]), OnlyAsked(INITIAL_OBSERVER, events[..n]);
      StepSplits(Run(INITIAL_OBSERVER, events[..n]), events[n], subscribed, asked);
    }
  }

  /** The shortest run with an item that was only asked for: it is in the map, and the framework was not told
      to subscribe to it. */
  lemma AskedButNotSubscribed(i: Item, client: Client)
    requires client != NullClient
    ensures var events := [SetSubscriptionObj(1), Subscribe({i}, client, true)];
      && OnlyAsked(INITIAL_OBSERVER, events) == {i} == Run(INITIAL_OBSERVER, events).d2c.Keys
      && Subscribed(INITIAL_OBSERVER, events) == {}
  {
    var first, asking := SetSubscriptionObj(1), Subscribe({i}, client, true);
    var events := [first, asking];
    assert events[..1] == [first] && [first][..0] == [];
    var o := Run(INITIAL_OBSERVER, [first]);
    assert Run(INITIAL_OBSERVER, []) == INITIAL_OBSERVER && o == Step(INITIAL_OBSERVER, first).o;
    assert o.d2c == map[] && o.obj == 1;
    KeysAfter(o.d2c, {i}, {client});
    assert OnlyAsked(INITIAL_OBSERVER, [first]) == {};
    SubscribedExactly(events);
  }

  /** An item that is in the map already stays as it is: a later subscription by anyone makes no call, so
      an item first asked for through requestData is never subscribed while somebody wants it. */
  lemma LaterSubscriptionMakesNoCall(o: Observer, items: set<Item>, client: Client)
    requires client != NullClient && items <= o.d2c.Keys
    ensures Step(o, Subscribe(items, client, false)).calls == []
  {
    KeysAfter(o.d2c, items, {client});
  }

  // ---------------------------------------------------------------- deliveries

  /** The value of the last accepted update of an item. */
  function Latest(updates: seq<Update>, i: Item): Value
    requires i in AcceptedItems(updates)
  {
    var u := updates[|updates| - 1];
    if u.accepted && u.item == i then u.value
    else
      assert updates == updates[..|updates| - 1] + [u];
      Latest(updates[..|updates| - 1], i)
  }

  lemma {:induction false} CacheHoldsLatest(cache: map<Item, Value>, updates: seq<Update>, i: Item)
    ensures var after := CacheAfter(cache, updates);
      if i in AcceptedItems(updates) then i in after && after[i] == Latest(updates, i)
      else (i in after <==> i in cache) && (i in cache ==> after[i] == cache[i])
  {
    if updates != [] {
      var n := |updates| - 1;
      assert updates == updates[..n] + [updates[n]];
      assert i in AcceptedItems(updates) <==>
        i in AcceptedItems(updates[..n]) || (updates[n].accepted && updates[n].item == i);
      CacheHoldsLatest(cache, updates[..n], i);
    }
  }

  /** With the maps in agreement, a report goes to exactly the clients that subscribe to some accepted
      item; each is sent exactly the accepted items it subscribes to, with their latest values. */
  lemma NotifyReachesExactlySubscribers(o: Observer, updates: seq<Update>, c: Client)
    requires Agree(o)
    ensures var sent := NotifyStep(o, updates).sent;
      var wanted := Vals(o.c2d, c) * AcceptedItems(updates);
      && (c in sent <==> wanted != {})
      && (c in sent ==> sent[c].Keys == wanted && forall i :: i in wanted ==> sent[c][i] == Latest(updates, i))
  {
    var accepted := AcceptedItems(updates);
    var now := NotifyStep(o, updates).o;
    var wanted := Vals(o.c2d, c) * accepted;
    forall i | i in accepted ensures i in now.cache && now.cache[i] == Latest(updates, i) {
      CacheHoldsLatest(o.cache, updates, i);
    }
    var items := Cached(now.cache, wanted);
    assert forall i :: i in items <==> i in wanted;
    assert items.Keys == wanted;
    if i :| i in wanted {
      assert c in Vals(o.d2c, i);
      assert c in ClientsOf(now.d2c, accepted);
      assert items != map[] by { assert i in items; }
    }
  }

  /** The same over runs: whatever has happened before, provided updates came from newcomers. */
  lemma DeliveriesOverRuns(events: seq<Event>, updates: seq<Update>, c: Client)
    requires UpdatesByNewcomers(INITIAL_OBSERVER, events)
    ensures var o := Run(INITIAL_OBSERVER, events);
      c in Step(o, Notify(updates)).sent <==> exists i :: i in AcceptedItems(updates) && i in Vals(o.c2d, c)
  {
    var o := Run(INITIAL_OBSERVER, events);
    AgreementOverRuns(events);
    NotifyReachesExactlySubscribers(o, updates, c);
    var wanted := Vals(o.c2d, c) * AcceptedItems(updates);
    if wanted != {} {
      var i :| i in wanted;
      assert i in AcceptedItems(updates) && i in Vals(o.c2d, c);
    }
    if i :| i in AcceptedItems(updates) && i in Vals(o.c2d, c) { assert i in wanted; }
  }
}
