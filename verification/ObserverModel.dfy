/** The data-item observer: who subscribes to which item, kept in two maps, and what each handler
    sends to the framework and to the clients. */
module ObserverModel {
  import opened SetMap

  datatype Client = NullClient | Client(id: nat)

  datatype Item = Item(id: nat)

  type Value = nat

  /** A data item from the framework; the system status may refuse to record it. */
  datatype Update = Update(item: Item, value: Value, accepted: bool)

  datatype FrameworkCall =
    | SubscribeTo(items: set<Item>)
    | RequestData(items: set<Item>)
    | UnsubscribeFrom(items: set<Item>)

  /** The two maps, the cache, and the subscription object (0 for none). */
  datatype Observer = Observer(c2d: map<Client, set<Item>>, d2c: map<Item, set<Client>>,
                               cache: map<Item, Value>, obj: nat)

  /** What a handler sends: calls to the subscription object, in order, and items to clients. */
  datatype Outcome = Outcome(o: Observer, calls: seq<FrameworkCall>, sent: map<Client, map<Item, Value>>)

  datatype Event =
    | SetSubscriptionObj(obj: nat)
    | Subscribe(items: set<Item>, client: Client, requestData: bool)
    | UpdateSubscription(items: set<Item>, client: Client)
    | Unsubscribe(items: set<Item>, client: Client)
    | UnsubscribeAll(client: Client)
    | Notify(updates: seq<Update>)

  const INITIAL_OBSERVER := Observer(map[], map[], map[], 0)

  function Cached(cache: map<Item, Value>, items: set<Item>): map<Item, Value> {
    map i | i in items && i in cache :: cache[i]
  }

  /** The items of a set that are in the cache; a client is not called for none. */
  function SendTo(cache: map<Item, Value>, items: set<Item>, client: Client): map<Client, map<Item, Value>> {
    if Cached(cache, items) == map[] then map[] else map[client := Cached(cache, items)]
  }

  function SetObjStep(o: Observer, obj: nat): Outcome {
    Outcome(o.(obj := obj), if o.d2c == map[] then [] else [SubscribeTo(o.d2c.Keys), RequestData(o.d2c.Keys)], map[])
  }

  function SubscribeStep(o: Observer, items: set<Item>, client: Client, requestData: bool): Outcome {
    var unheard := NewKeys(o.d2c, items, {client});
    Outcome(
      o.(c2d := Added(o.c2d, {client}, items), d2c := Added(o.d2c, items, {client})),
      if o.obj == 0 then [] else if requestData then [RequestData(unheard)]
      else if unheard != {} then [SubscribeTo(unheard)] else [],
      SendTo(o.cache, items, client))
  }

  function UpdateCalls(more: set<Item>, gone: set<Item>): seq<FrameworkCall> {
    (if more != {} then [SubscribeTo(more)] else []) + (if gone != {} then [UnsubscribeFrom(gone)] else [])
  }

  /** The map of clients is brought up to date with an update whose result is the set of items that
      the client keeps, not the set it gives up. */
  function UpdateStep(o: Observer, items: set<Item>, client: Client): Outcome {
    var had := Vals(o.c2d, client);
    var trimmed := Trimmed(o.d2c, had * items, {client});
    var gone := GoneKeys(o.d2c, had * items, {client});
    var more := NewKeys(trimmed, items - had, {client});
    Outcome(
      o.(c2d := Updated(o.c2d, client, items), d2c := Added(trimmed, items - had, {client})),
      if o.obj == 0 then [] else UpdateCalls(more, gone),
      SendTo(o.cache, items - had, client))
  }

  function UnsubscribeStep(o: Observer, items: set<Item>, client: Client): Outcome {
    var unused := GoneVals(o.c2d, {client}, items);
    var gone := GoneKeys(o.d2c, unused, {client});
    Outcome(
      o.(c2d := Trimmed(o.c2d, {client}, items), d2c := Trimmed(o.d2c, unused, {client})),
      if o.obj != 0 && gone != {} then [UnsubscribeFrom(gone)] else [],
      map[])
  }

  function UnsubscribeAllStep(o: Observer, client: Client): Outcome {
    var had := Vals(o.c2d, client);
    if had == {} then Outcome(o, [], map[])
    else
      var gone := GoneKeys(o.d2c, had, {client});
      Outcome(
        o.(c2d := o.c2d - {client}, d2c := Trimmed(o.d2c, had, {client})),
        if o.obj != 0 && gone != {} then [UnsubscribeFrom(gone)] else [],
        map[])
  }

  // ---------------------------------------------------------------- notify

  function CacheAfter(cache: map<Item, Value>, updates: seq<Update>): map<Item, Value> {
    if updates == [] then cache
    else
      var u := updates[|updates| - 1];
      var before := CacheAfter(cache, updates[..|updates| - 1]);
      if u.accepted then before[u.item := u.value] else before
  }

  function AcceptedItems(updates: seq<Update>): set<Item> {
    set u | u in updates && u.accepted :: u.item
  }

  /** The clients that the map of items lists for some item. */
  function ClientsOf(d2c: map<Item, set<Client>>, items: set<Item>): set<Client> {
    set i, c | i in items && i in d2c && c in d2c[i] :: c
  }

  /** Every listed client gets the cached items of those in its own set. */
  function Deliveries(o: Observer, clients: set<Client>, items: set<Item>): map<Client, map<Item, Value>> {
    map c | c in clients && Cached(o.cache, Vals(o.c2d, c) * items) != map[] ::
      Cached(o.cache, Vals(o.c2d, c) * items)
  }

  function NotifyStep(o: Observer, updates: seq<Update>): Outcome {
    var now := o.(cache := CacheAfter(o.cache, updates));
    var items := AcceptedItems(updates);
    Outcome(now, [], Deliveries(now, ClientsOf(now.d2c, items), items))
  }

  // ---------------------------------------------------------------- all handlers

  function Step(o: Observer, e: Event): Outcome {
    var nothing := Outcome(o, [], map[]);
    match e
    case SetSubscriptionObj(obj) => if obj == 0 then nothing else SetObjStep(o, obj)
    case Subscribe(items, client, request) =>
      if items == {} || client == NullClient then nothing else SubscribeStep(o, items, client, request)
    case UpdateSubscription(items, client) =>
      if items == {} || client == NullClient then nothing else UpdateStep(o, items, client)
    case Unsubscribe(items, client) =>
      if items == {} || client == NullClient then nothing else UnsubscribeStep(o, items, client)
    case UnsubscribeAll(client) => if client == NullClient then nothing else UnsubscribeAllStep(o, client)
    case Notify(updates) => NotifyStep(o, updates)
  }

  function Run(o: Observer, events: seq<Event>): Observer {
    if events == [] then o else Step(Run(o, events[..|events| - 1]), events[|events| - 1]).o
  }
}
