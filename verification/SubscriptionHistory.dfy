/** What the observer should hold and send, told from the events alone: who subscribes to what, and what was
    reported last. The two maps, the cache, the deliveries and the calls to the framework follow it. */
module SubscriptionHistory {
  import opened SetMap
  import opened ObserverModel
  import opened SubscriptionIndex

  /** The items of a client: it gains those it subscribes to, loses those it unsubscribes from, and has just
      those of an update. */
  function ItemsOf(events: seq<Event>, c: Client): set<Item> {
    if events == [] || c == NullClient then {}
    else
      var before := ItemsOf(events[..|events| - 1], c);
      match events[|events| - 1]
      case Subscribe(items, client, _) => if client == c then before + items else before
      case UpdateSubscription(items, client) => if client == c && items != {} then items else before
      case Unsubscribe(items, client) => if client == c then before - items else before
      case UnsubscribeAll(client) => if client == c then {} else before
      case _ => before
  }

  /** All updates that were reported. */
  function AllUpdates(events: seq<Event>): seq<Update> {
    if events == [] then []
    else AllUpdates(events[..|events| - 1]) + if events[|events| - 1].Notify? then events[|events| - 1].updates else []
  }

  /** Every update comes from a client that has no item then. */
  predicate NewcomersUpdate(events: seq<Event>) {
    events == [] ||
    var before, e := events[..|events| - 1], events[|events| - 1];
    NewcomersUpdate(before) && (e.UpdateSubscription? ==> e.items == {} || ItemsOf(before, e.client) == {})
  }

  // ---------------------------------------------------------------- the two maps

  lemma StepGivesItems(o: Observer, e: Event, c: Client, before: set<Item>)
    requires c != NullClient && Vals(o.c2d, c) == before
    ensures Vals(Step(o, e).o.c2d, c) ==
      match e
      case Subscribe(items, client, _) => if client == c then before + items else before
      case UpdateSubscription(items, client) => if client == c && items != {} then items else before
      case Unsubscribe(items, client) => if client == c then before - items else before
      case UnsubscribeAll(client) => if client == c then {} else before
      case _ => before
  {
    match e
    case Subscribe(items, client, _) => ValsAdded(o.c2d, {client}, items, c);
    case Unsubscribe(items, client) => ValsTrimmed(o.c2d, {client}, items, c);
    case _ =>
  }

  /** Over every run, the map of clients holds for every client exactly its items. */
  lemma {:induction false} ClientsHaveTheirItems(events: seq<Event>, c: Client)
    requires c != NullClient
    ensures Vals(Run(INITIAL_OBSERVER, events).c2d, c) == ItemsOf(events, c)
  {
    if events != [] {
      var before, e := events[..|events| - 1], events[|events| - 1];
      ClientsHaveTheirItems(before, c);
      StepGivesItems(Run(INITIAL_OBSERVER, before), e, c, ItemsOf(before, c));
    }
  }

  lemma {:induction false} NullClientHasNone(events: seq<Event>)
    ensures NullClient !in Run(INITIAL_OBSERVER, events).c2d
  {
    if events != [] { NullClientHasNone(events[..|events| - 1]); }
  }

  lemma ItemsAnyClient(events: seq<Event>, c: Client)
    ensures Vals(Run(INITIAL_OBSERVER, events).c2d, c) == ItemsOf(events, c)
  {
    NullClientHasNone(events);
    if c != NullClient { ClientsHaveTheirItems(events, c); }
  }

  lemma {:induction false} NewcomersAgree(events: seq<Event>)
    requires NewcomersUpdate(events)
    ensures UpdatesByNewcomers(INITIAL_OBSERVER, events) && Agree(Run(INITIAL_OBSERVER, events))
  {
    if events != [] {
      var before, e := events[..|events| - 1], events[|events| - 1];
      var o := Run(INITIAL_OBSERVER, before);
      NewcomersAgree(before);
      if e.UpdateSubscription? { ItemsAnyClient(before, e.client); }
      assert ByNewcomer(o, e);
      AgreementOverRuns(events);
    }
  }

  /** And the map of items lists for every item exactly the clients that have it, if updates come from
      newcomers. */
  lemma ItemsHaveTheirClients(events: seq<Event>, i: Item, c: Client)
    requires NewcomersUpdate(events)
    ensures var o := Run(INITIAL_OBSERVER, events);
      && (c in Vals(o.d2c, i) <==> i in ItemsOf(events, c))
      && (i in o.d2c <==> exists k :: i in ItemsOf(events, k))
  {
    var o := Run(INITIAL_OBSERVER, events);
    NewcomersAgree(events);
    forall k ensures k in Vals(o.d2c, i) <==> i in ItemsOf(events, k) { ItemsAnyClient(events, k); }
    if i in o.d2c {
      var k :| k in o.d2c[i];
      assert k in Vals(o.d2c, i) && i in Vals(o.c2d, k);
      ItemsAnyClient(events, k);
      assert i in ItemsOf(events, k);
    } else {
      assert Vals(o.d2c, i) == {};
    }
  }

  // ---------------------------------------------------------------- what clients are sent

  lemma {:induction false} CacheConcat(cache: map<Item, Value>, a: seq<Update>, b: seq<Update>)
    ensures CacheAfter(cache, a + b) == CacheAfter(CacheAfter(cache, a), b)
  {
    if b == [] {
      assert a + b == a;
    } else {
      var n := |b| - 1;
      assert (a + b)[..|a + b| - 1] == a + b[..n] && (a + b)[|a + b| - 1] == b[n];
      CacheConcat(cache, a, b[..n]);
    }
  }

  lemma {:induction false} CacheOverRuns(events: seq<Event>)
    ensures Run(INITIAL_OBSERVER, events).cache == CacheAfter(map[], AllUpdates(events))
  {
    if events != [] {
      var before, e := events[..|events| - 1], events[|events| - 1];
      CacheOverRuns(before);
      if e.Notify? {
        CacheConcat(map[], AllUpdates(before), e.updates);
      } else {
        assert AllUpdates(events) == AllUpdates(before);
      }
    }
  }

  /** What is known of a set of items: the latest values reported, of those that were. */
  ghost predicate IsLatestOf(sent: map<Item, Value>, updates: seq<Update>, items: set<Item>) {
    && sent.Keys == items * AcceptedItems(updates)
    && forall i :: i in items * AcceptedItems(updates) ==> sent[i] == Latest(updates, i)
  }

  lemma CachedIsLatest(updates: seq<Update>, items: set<Item>)
    ensures IsLatestOf(Cached(CacheAfter(map[], updates), items), updates, items)
  {
    forall i ensures var cache := CacheAfter(map[], updates);
      (i in cache <==> i in AcceptedItems(updates)) && (i in cache ==> cache[i] == Latest(updates, i))
    {
      CacheHoldsLatest(map[], updates, i);
    }
  }

  /** Over every run, a client that subscribes, or that is brought up to date, is sent at once the latest
      values of the items that are new to the call, if any was reported; nobody else is sent anything. */
  lemma FirstAnswer(events: seq<Event>, e: Event)
    requires e.Subscribe? || e.UpdateSubscription?
    requires e.items != {} && e.client != NullClient
    ensures var sent := Step(Run(INITIAL_OBSERVER, events), e).sent;
      var unheard := if e.Subscribe? then e.items else e.items - ItemsOf(events, e.client);
      && (e.client in sent <==> unheard * AcceptedItems(AllUpdates(events)) != {})
      && (e.client in sent ==> IsLatestOf(sent[e.client], AllUpdates(events), unheard))
      && forall c :: c in sent ==> c == e.client
  {
    var o := Run(INITIAL_OBSERVER, events);
    var unheard := if e.Subscribe? then e.items else e.items - ItemsOf(events, e.client);
    ClientsHaveTheirItems(events, e.client);
    CacheOverRuns(events);
    CachedIsLatest(AllUpdates(events), unheard);
    var known := Cached(o.cache, unheard);
    assert Step(o, e).sent == SendTo(o.cache, unheard, e.client);
    assert known == map[] <==> known.Keys == {};
  }

  /** Over every run by newcomers, a report goes to exactly the clients that have some accepted item, and
      each is sent exactly those it has, with their latest values. A client that has unsubscribed from an
      item is not sent it any more. */
  lemma ReportsReachTheirClients(events: seq<Event>, updates: seq<Update>, c: Client)
    requires NewcomersUpdate(events)
    ensures var sent := Step(Run(INITIAL_OBSERVER, events), Notify(updates)).sent;
      && (c in sent <==> ItemsOf(events, c) * AcceptedItems(updates) != {})
      && (c in sent ==> IsLatestOf(sent[c], updates, ItemsOf(events, c)))
  {
    NewcomersAgree(events);
    ItemsAnyClient(events, c);
    NotifyReachesExactlySubscribers(Run(INITIAL_OBSERVER, events), updates, c);
  }

  // ---------------------------------------------------------------- what the framework is told

  function SubscribedIn(calls: seq<FrameworkCall>): set<Item> {
    set k, i | 0 <= k < |calls| && calls[k].SubscribeTo? && i in calls[k].items :: i
  }

  function RequestedIn(calls: seq<FrameworkCall>): set<Item> {
    set k, i | 0 <= k < |calls| && calls[k].RequestData? && i in calls[k].items :: i
  }

  function DroppedIn(calls: seq<FrameworkCall>): set<Item> {
    set k, i | 0 <= k < |calls| && calls[k].UnsubscribeFrom? && i in calls[k].items :: i
  }

  /** The items that only this client has. */
  ghost predicate HasAlone(events: seq<Event>, c: Client, i: Item) {
    i in ItemsOf(events, c) && forall k :: k != c ==> i !in ItemsOf(events, k)
  }

  lemma GoneIsAlone(events: seq<Event>, c: Client, unused: set<Item>, i: Item)
    requires NewcomersUpdate(events) && unused <= ItemsOf(events, c)
    ensures var o := Run(INITIAL_OBSERVER, events);
      i in GoneKeys(o.d2c, unused, {c}) <==> i in unused && HasAlone(events, c, i)
  {
    var o := Run(INITIAL_OBSERVER, events);
    ItemsHaveTheirClients(events, i, c);
    if i in unused {
      assert c in Vals(o.d2c, i) && Vals(o.d2c, i) == o.d2c[i];
      if o.d2c[i] - {c} == {} {
        forall k | k != c ensures i !in ItemsOf(events, k) {
          ItemsHaveTheirClients(events, i, k);
          assert k !in o.d2c[i] - {c};
        }
      } else {
        var k :| k in o.d2c[i] - {c};
        ItemsHaveTheirClients(events, i, k);
        assert i in ItemsOf(events, k);
      }
    }
  }

  /** Over every run by newcomers, when a client unsubscribes the framework is told to drop exactly the items
      among those given up that no other client has, and nothing else. */
  lemma UnsubscribeTellsFramework(events: seq<Event>, e: Event, i: Item)
    requires (e.Unsubscribe? && e.items != {}) || e.UnsubscribeAll?
    requires NewcomersUpdate(events) && Run(INITIAL_OBSERVER, events).obj != 0 && e.client != NullClient
    ensures var calls := Step(Run(INITIAL_OBSERVER, events), e).calls;
      && SubscribedIn(calls) == RequestedIn(calls) == {}
      && (i in DroppedIn(calls) <==> HasAlone(events, e.client, i) && (e.Unsubscribe? ==> i in e.items))
  {
    var o := Run(INITIAL_OBSERVER, events);
    var had := ItemsOf(events, e.client);
    ItemsAnyClient(events, e.client);
    var unused := if e.Unsubscribe? then had * e.items else had;
    assert e.Unsubscribe? ==> GoneVals(o.c2d, {e.client}, e.items) == unused;
    var gone := GoneKeys(o.d2c, unused, {e.client});
    var calls := Step(o, e).calls;
    assert had == {} ==> gone == {};
    assert calls == if gone != {} then [UnsubscribeFrom(gone)] else [];
    GoneIsAlone(events, e.client, unused, i);
    if gone != {} { assert calls[0].items == gone; }
  }

  /** A new subscription object is told to subscribe to, and asked for the data of, exactly the items that
      somebody has. */
  lemma NewObjectHearsAll(events: seq<Event>, obj: nat, i: Item)
    requires NewcomersUpdate(events) && obj != 0
    ensures var calls := Step(Run(INITIAL_OBSERVER, events), SetSubscriptionObj(obj)).calls;
      && (i in SubscribedIn(calls) <==> exists c :: i in ItemsOf(events, c))
      && (i in RequestedIn(calls) <==> exists c :: i in ItemsOf(events, c))
      && DroppedIn(calls) == {}
  {
    var o := Run(INITIAL_OBSERVER, events);
    var calls := Step(o, SetSubscriptionObj(obj)).calls;
    ItemsHaveTheirClients(events, i, NullClient);
    if o.d2c != map[] {
      assert calls[0] == SubscribeTo(o.d2c.Keys) && calls[1] == RequestData(o.d2c.Keys);
    }
  }
}
