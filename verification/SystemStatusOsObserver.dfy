/** The observer class: two set maps and a cache, edited in place by its message handlers. */
module SystemStatusOsObserver {
  import opened SetMap
  import opened ObserverModel

  class OsObserver {
    const mClientToDataItems: LocUnorderedSetMap<Client, Item>
    const mDataItemToClients: LocUnorderedSetMap<Item, Client>
    var mDataItemCache: map<Item, Value>
    var mSubscriptionObj: nat
    var calls: seq<FrameworkCall>

    ghost predicate Valid() {
      (mClientToDataItems as object) != (mDataItemToClients as object)
    }

    function View(): Observer
      reads this, mClientToDataItems, mDataItemToClients
    {
      Observer(mClientToDataItems.mMap, mDataItemToClients.mMap, mDataItemCache, mSubscriptionObj)
    }

    constructor ()
      ensures Valid() && View() == INITIAL_OBSERVER && calls == []
    {
      mClientToDataItems := new LocUnorderedSetMap();
      mDataItemToClients := new LocUnorderedSetMap();
      mDataItemCache, mSubscriptionObj, calls := map[], 0, [];
    }

    /** One call to the subscription object. */
    method Call(call: FrameworkCall)
      modifies this`calls
      ensures calls == old(calls) + [call]
    {
      calls := calls + [call];
    }

    /** The handler changed the observer as the step function says, and made its calls. */
    twostate predicate Did(r: Outcome)
      reads this, mClientToDataItems, mDataItemToClients
    {
      View() == r.o && calls == old(calls) + r.calls
    }

    method SetSubscriptionObj(obj: nat)
      requires Valid()
      modifies this
      ensures Valid() && Did(Step(old(View()), ObserverModel.SetSubscriptionObj(obj)))
    {
      if obj != 0 {
        mSubscriptionObj := obj;
        if mDataItemToClients.mMap != map[] {
          var dis := mDataItemToClients.mMap.Keys;
          Call(SubscribeTo(dis));
          Call(RequestData(dis));
        }
      }
    }

    method SubscribeOrRequest(items: set<Item>, client: Client, requestData: bool)
      returns (sent: map<Client, map<Item, Value>>)
      requires Valid()
      modifies this, mClientToDataItems, mDataItemToClients
      ensures Valid() && Did(Step(old(View()), Subscribe(items, client, requestData)))
      ensures sent == Step(old(View()), Subscribe(items, client, requestData)).sent
    {
      sent := map[];
      if items != {} && client != NullClient {
        var toSubscribe := mDataItemToClients.Add(items, {client});
        var newClients := mClientToDataItems.Add({client}, items);
        sent := SendCachedDataItems(items, client, sent);
        if mSubscriptionObj != 0 {
          if requestData {
            Call(RequestData(toSubscribe));
          } else if toSubscribe != {} {
            Call(SubscribeTo(toSubscribe));
          }
        }
      }
    }

    /** `defined` says whether no erased iterator is stepped, which is so if the client keeps no item. */
    method UpdateSubscription(items: set<Item>, client: Client)
      returns (sent: map<Client, map<Item, Value>>, defined: bool)
      requires Valid()
      modifies this, mClientToDataItems, mDataItemToClients
      ensures Valid() && Did(Step(old(View()), ObserverModel.UpdateSubscription(items, client)))
      ensures sent == Step(old(View()), ObserverModel.UpdateSubscription(items, client)).sent
      ensures defined <==> client == NullClient || Vals(old(View()).c2d, client) !! items
    {
      sent, defined := map[], true;
      if items != {} && client != NullClient {
        var kept, left;
        kept, left, defined := mClientToDataItems.Update(client, items);
        var toUnsubscribe, goneClients := mDataItemToClients.TrimOrRemove(kept, {client});
        var toSubscribe := mDataItemToClients.Add(left, {client});
        sent := SendCachedDataItems(left, client, sent);
        if mSubscriptionObj != 0 {
          SendUpdate(toSubscribe, toUnsubscribe);
        }
      }
    }

    method SendUpdate(toSubscribe: set<Item>, toUnsubscribe: set<Item>)
      modifies this`calls
      ensures calls == old(calls) + UpdateCalls(toSubscribe, toUnsubscribe)
    {
      if toSubscribe != {} {
        Call(SubscribeTo(toSubscribe));
      }
      if toUnsubscribe != {} {
        Call(UnsubscribeFrom(toUnsubscribe));
      }
    }

    method Unsubscribe(items: set<Item>, client: Client)
      requires Valid()
      modifies this, mClientToDataItems, mDataItemToClients
      ensures Valid() && Did(Step(old(View()), ObserverModel.Unsubscribe(items, client)))
    {
      if items != {} && client != NullClient {
        var clientToRemove, unused := mClientToDataItems.TrimOrRemove({client}, items);
        var toUnsubscribe, goneClients := mDataItemToClients.TrimOrRemove(unused, {client});
        if mSubscriptionObj != 0 && toUnsubscribe != {} {
          Call(UnsubscribeFrom(toUnsubscribe));
        }
      }
    }

    method UnsubscribeAll(client: Client)
      requires Valid()
      modifies this, mClientToDataItems, mDataItemToClients
      ensures Valid() && Did(Step(old(View()), ObserverModel.UnsubscribeAll(client)))
    {
      if client != NullClient {
        var diByClient := Vals(mClientToDataItems.mMap, client);
        if diByClient != {} {
          var removed := mClientToDataItems.Remove(client);
          var toUnsubscribe, goneClients := mDataItemToClients.TrimOrRemove(diByClient, {client});
          if toUnsubscribe != {} && mSubscriptionObj != 0 {
            Call(UnsubscribeFrom(toUnsubscribe));
          }
        }
      }
    }

    method SendCachedDataItems(s: set<Item>, to: Client, sent0: map<Client, map<Item, Value>>)
      returns (sent: map<Client, map<Item, Value>>)
      ensures sent == sent0 + SendTo(mDataItemCache, s, to)
    {
      var dataItems: map<Item, Value> := map[];
      var rest := s;
      while rest != {}
        invariant rest <= s
        invariant dataItems == Cached(mDataItemCache, s - rest)
        decreases rest
      {
        var each :| each in rest;
        rest := rest - {each};
        if each in mDataItemCache {
          dataItems := dataItems[each := mDataItemCache[each]];
        }
      }
      assert s - rest == s;
      sent := if dataItems == map[] then sent0 else sent0[to := dataItems];
    }

    method UpdateCache(u: Update) returns (updated: bool)
      modifies this`mDataItemCache
      ensures mDataItemCache == (if u.accepted then old(mDataItemCache)[u.item := u.value] else old(mDataItemCache))
      ensures updated == u.accepted
    {
      updated := u.accepted;
      if updated {
        mDataItemCache := mDataItemCache[u.item := u.value];
      }
    }

    /** The first loop of notify: what goes into the cache, and which items changed. */
    method RecordUpdates(updates: seq<Update>) returns (toBeSent: set<Item>)
      modifies this`mDataItemCache
      ensures mDataItemCache == CacheAfter(old(mDataItemCache), updates) && toBeSent == AcceptedItems(updates)
    {
      toBeSent := {};
      for n := 0 to |updates|
        invariant mDataItemCache == CacheAfter(old(mDataItemCache), updates[..n])
        invariant toBeSent == AcceptedItems(updates[..n])
      {
        assert updates[..n + 1][..n] == updates[..n] && updates[..n + 1] == updates[..n] + [updates[n]];
        AcceptedOneMore(updates[..n], updates[n]);
        var updated := UpdateCache(updates[n]);
        if updated {
          toBeSent := toBeSent + {updates[n].item};
        }
      }
      assert updates[..|updates|] == updates;
    }

    /** The second loop of notify: the clients listed for some item. */
    method ListedClients(toBeSent: set<Item>) returns (clientSet: set<Client>)
      ensures clientSet == ClientsOf(mDataItemToClients.mMap, toBeSent)
    {
      clientSet := {};
      var rest := toBeSent;
      ghost var d2c := mDataItemToClients.mMap;
      ghost var done: set<Item> := {};
      while rest != {}
        invariant done == toBeSent - rest && rest <= toBeSent
        invariant clientSet == ClientsOf(d2c, done)
        decreases rest
      {
        var each :| each in rest;
        rest := rest - {each};
        ClientsOneMore(d2c, done, each);
        done := done + {each};
        clientSet := clientSet + if each in mDataItemToClients.mMap then mDataItemToClients.mMap[each] else {};
      }
      assert done == toBeSent;
    }

    /** The third loop of notify: each client gets the changed items of its own set. */
    method DeliverTo(clientSet: set<Client>, toBeSent: set<Item>) returns (sent: map<Client, map<Item, Value>>)
      ensures sent == Deliveries(View(), clientSet, toBeSent)
    {
      sent := map[];
      var rest := clientSet;
      ghost var o := View();
      ghost var done: set<Client> := {};
      while rest != {}
        invariant done == clientSet - rest && rest <= clientSet
        invariant sent == Deliveries(o, done, toBeSent)
        decreases rest
      {
        var client :| client in rest;
        rest := rest - {client};
        var forThisClient := Vals(mClientToDataItems.mMap, client) * toBeSent;
        DeliverOneMore(o, done, toBeSent, client);
        done := done + {client};
        sent := SendCachedDataItems(forThisClient, client, sent);
      }
      assert done == clientSet;
    }

    method Notify(updates: seq<Update>) returns (sent: map<Client, map<Item, Value>>)
      requires Valid()
      modifies this
      ensures Valid() && Did(Step(old(View()), ObserverModel.Notify(updates)))
      ensures sent == Step(old(View()), ObserverModel.Notify(updates)).sent
    {
      var toBeSent := RecordUpdates(updates);
      var clientSet := ListedClients(toBeSent);
      sent := DeliverTo(clientSet, toBeSent);
    }
  }

  lemma DeliverOneMore(o: Observer, done: set<Client>, items: set<Item>, c: Client)
    requires c !in done
    ensures Deliveries(o, done + {c}, items) ==
      Deliveries(o, done, items) + SendTo(o.cache, Vals(o.c2d, c) * items, c)
  {
  }

  lemma AcceptedOneMore(done: seq<Update>, u: Update)
    ensures AcceptedItems(done + [u]) == AcceptedItems(done) + if u.accepted then {u.item} else {}
  {
    assert forall v :: v in done + [u] <==> v in done || v == u;
    forall i | i in AcceptedItems(done) ensures i in AcceptedItems(done + [u]) {
      var v :| v in done && v.accepted && v.item == i;
      assert v in done + [u];
    }
    if u.accepted { assert u in done + [u] && u.item in AcceptedItems(done + [u]); }
  }

  lemma ClientsOneMore(d2c: map<Item, set<Client>>, done: set<Item>, each: Item)
    ensures ClientsOf(d2c, done + {each}) == ClientsOf(d2c, done) + Vals(d2c, each)
  {
    var more := ClientsOf(d2c, done + {each});
    forall c | c in ClientsOf(d2c, done) ensures c in more {
      var i :| i in done && i in d2c && c in d2c[i];
      assert i in done + {each};
    }
    forall c | c in Vals(d2c, each) ensures c in more {
      assert each in done + {each};
    }
  }
}
