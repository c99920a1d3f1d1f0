/** The geofence adapter: the handlers that edit the two maps, and the delivery of breach reports. */
module GeofenceAdapter {
  import opened GeofenceIndex

  // ---------------------------------------------------------------- who gets what of a breach report

  /** The reported hardware id at position p is known, and belongs to the client. */
  predicate Owns(fences: map<nat, Fence>, client: nat, hw: nat) {
    hw in fences && fences[hw].key.client == client
  }

  /** The positions of the report that belong to a client, in order. */
  function OwnedPositions(fences: map<nat, Fence>, hwIds: seq<nat>, client: nat): (r: seq<nat>)
    ensures forall k :: 0 <= k < |r| ==> r[k] < |hwIds|
  {
    if hwIds == [] then []
    else
      var n := |hwIds| - 1;
      OwnedPositions(fences, hwIds[..n], client) + if Owns(fences, client, hwIds[n]) then [n] else []
  }

  /** The ids, as the client knows them, of its part of the report. */
  function OwnedIds(fences: map<nat, Fence>, hwIds: seq<nat>, client: nat): seq<nat> {
    if hwIds == [] then []
    else
      var n := |hwIds| - 1;
      OwnedIds(fences, hwIds[..n], client) + if Owns(fences, client, hwIds[n]) then [fences[hwIds[n]].key.id] else []
  }

  /** Each position of a known geofence is in the part of its owner, once, and in no other part; the
      parts keep the order of the report. */
  lemma {:induction false} PartsPartitionReport(fences: map<nat, Fence>, hwIds: seq<nat>, client: nat, p: nat)
    requires p < |hwIds|
    ensures var part := OwnedPositions(fences, hwIds, client);
      && (p in part <==> hwIds[p] in fences && fences[hwIds[p]].key.client == client)
      && forall j, k :: 0 <= j < k < |part| ==> part[j] < part[k]
  {
    var n := |hwIds| - 1;
    var before := OwnedPositions(fences, hwIds[..n], client);
    if p < n {
      PartsPartitionReport(fences, hwIds[..n], client, p);
      assert hwIds[..n][p] == hwIds[p];
    } else if n > 0 {
      PartsPartitionReport(fences, hwIds[..n], client, 0);
    }
    assert p == n ==> p !in before;
  }

  /** What a client is sent is exactly its part, under its own ids. */
  lemma {:induction false} IdsAreOfPositions(fences: map<nat, Fence>, hwIds: seq<nat>, client: nat)
    ensures var part, ids := OwnedPositions(fences, hwIds, client), OwnedIds(fences, hwIds, client);
      && |ids| == |part|
      && forall k :: 0 <= k < |ids| ==> Owns(fences, client, hwIds[part[k]]) && ids[k] == fences[hwIds[part[k]]].key.id
  {
    if hwIds != [] {
      var n := |hwIds| - 1;
      IdsAreOfPositions(fences, hwIds[..n], client);
      var part := OwnedPositions(fences, hwIds[..n], client);
      assert forall k :: 0 <= k < |part| ==> hwIds[..n][part[k]] == hwIds[part[k]];
    }
  }

  /** With the two maps in agreement a client can find each geofence it is told of: the index leads
      from its own id back to the reported hardware id, unless the geofence is being removed. */
  lemma ReportedIdsLeadBack(s: State, hwIds: seq<nat>, client: nat, k: nat)
    requires Inv(s) && k < |OwnedIds(s.fences, hwIds, client)|
    ensures k < |OwnedPositions(s.fences, hwIds, client)|
    ensures var hw := hwIds[OwnedPositions(s.fences, hwIds, client)[k]];
      var key := Key(client, OwnedIds(s.fences, hwIds, client)[k]);
      (key in s.index && s.index[key] == hw) || Outstanding(s, RemoveReq(hw, true)) || hw in s.failed
  {
    IdsAreOfPositions(s.fences, hwIds, client);
    var hw := hwIds[OwnedPositions(s.fences, hwIds, client)[k]];
    assert s.fences[hw].key == Key(client, OwnedIds(s.fences, hwIds, client)[k]);
    assert Indexed(s, hw) || Outstanding(s, RemoveReq(hw, true)) || hw in s.failed;
  }

  /** The notifications of a breach report: one per client that listens and owns some of it. */
  function BreachReports(fences: map<nat, Fence>, hwIds: seq<nat>, listening: map<nat, bool>, done: set<nat>)
    : map<nat, seq<nat>>
  {
    map c | c in done && c in listening && listening[c] && OwnedIds(fences, hwIds, c) != [] ::
      OwnedIds(fences, hwIds, c)
  }

  /** Over all clients: one is notified if and only if it listens and owns some reported geofence, and it is
      sent its part. */
  lemma BreachReachesExactly(fences: map<nat, Fence>, hwIds: seq<nat>, listening: map<nat, bool>, c: nat)
    ensures var sent := BreachReports(fences, hwIds, listening, listening.Keys);
      && (c in sent <==>
           c in listening && listening[c] && exists p :: 0 <= p < |hwIds| && Owns(fences, c, hwIds[p]))
      && (c in sent ==> sent[c] == OwnedIds(fences, hwIds, c))
  {
    var part := OwnedPositions(fences, hwIds, c);
    IdsAreOfPositions(fences, hwIds, c);
    if p :| 0 <= p < |hwIds| && Owns(fences, c, hwIds[p]) {
      PartsPartitionReport(fences, hwIds, c, p);
      assert part != [];
    }
    if part != [] { assert Owns(fences, c, hwIds[part[0]]); }
  }

  lemma BreachReportsOneMore(fences: map<nat, Fence>, hwIds: seq<nat>, listening: map<nat, bool>, done: set<nat>,
                             c: nat)
    requires c in listening && c !in done
    ensures var ids, before := OwnedIds(fences, hwIds, c), BreachReports(fences, hwIds, listening, done);
      BreachReports(fences, hwIds, listening, done + {c}) ==
      if ids != [] && listening[c] then before[c := ids] else before
  {
  }

  // ---------------------------------------------------------------- the class

  class Adapter {
    var mGeofences: map<nat, Fence>
    var mGeofenceIds: map<Key, nat>
    var calls: set<Call>
    var next: nat
    ghost var failed: set<nat>

    ghost function View(): State
      reads this
    {
      State(mGeofences, mGeofenceIds, calls, next, failed)
    }

    constructor ()
      ensures View() == INITIAL_STATE
    {
      mGeofences, mGeofenceIds, calls, next, failed := map[], map[], {}, 0, {};
    }

    method Ask(req: Request)
      modifies this`calls, this`next
      ensures View() == Asked(old(View()), {req})
    {
      assert (set r | r in {req} :: Call(next, r)) == {Call(next, req)};
      calls := calls + {Call(next, req)};
      next := next + 1;
    }

    method GetHwIdFromClient(key: Key) returns (found: bool, hwId: nat)
      ensures found == (key in mGeofenceIds) && (found ==> hwId == mGeofenceIds[key])
    {
      found, hwId := key in mGeofenceIds, 0;
      if found {
        hwId := mGeofenceIds[key];
      }
    }

    method AddGeofence(key: Key, config: nat)
      modifies this
      ensures View() == Step(old(View()), AddFence(key, config))
    {
      Ask(AddReq(key, config, false));
    }

    method RemoveGeofence(key: Key)
      modifies this
      ensures View() == Step(old(View()), RemoveFence(key))
    {
      var found, hwId := GetHwIdFromClient(key);
      if found {
        Ask(RemoveReq(hwId, false));
      }
    }

    method PauseGeofence(key: Key)
      modifies this
      ensures View() == Step(old(View()), PauseFence(key))
    {
      var found, hwId := GetHwIdFromClient(key);
      if found {
        Ask(PauseReq(hwId));
      }
    }

    method ResumeGeofence(key: Key)
      modifies this
      ensures View() == Step(old(View()), ResumeFence(key))
    {
      var found, hwId := GetHwIdFromClient(key);
      if found {
        Ask(ResumeReq(hwId));
      }
    }

    method ModifyGeofence(key: Key, config: nat)
      modifies this
      ensures View() == Step(old(View()), ModifyFence(key, config))
    {
      var found, hwId := GetHwIdFromClient(key);
      if found {
        Ask(ModifyReq(hwId, config));
      }
    }

    method SaveGeofenceItem(key: Key, hwId: nat, config: nat)
      modifies this
      ensures View() == Saved(old(View()), key, config, hwId)
    {
      mGeofences := mGeofences[hwId := Fence(key, config, false)];
      mGeofenceIds := mGeofenceIds[key := hwId];
    }

    method RemoveGeofenceItem(hwId: nat)
      modifies this
      ensures View() == RemovedItem(old(View()), hwId)
    {
      if hwId in mGeofences {
        var key := mGeofences[hwId].key;
        if key in mGeofenceIds {
          mGeofenceIds := mGeofenceIds - {key};
          mGeofences := mGeofences - {hwId};
        }
      }
    }

    method SetPaused(hwId: nat, paused: bool)
      modifies this
      ensures View() == WithPaused(old(View()), hwId, paused)
    {
      if hwId in mGeofences {
        mGeofences := mGeofences[hwId := mGeofences[hwId].(paused := paused)];
      }
    }

    method ModifyGeofenceItem(hwId: nat, config: nat)
      modifies this
      ensures View() == WithConfig(old(View()), hwId, config)
    {
      if hwId in mGeofences {
        mGeofences := mGeofences[hwId := mGeofences[hwId].(config := config)];
      }
    }

    /** The modem answers one outstanding call. */
    method Answer(c: Call, ok: bool, hwId: nat)
      modifies this
      ensures View() == Step(old(View()), Reply(c, ok, hwId))
    {
      if c !in calls {
        return;
      }
      calls := calls - {c};
      match c.req
      case AddReq(key, config, paused) =>
        if ok {
          if paused {
            Ask(PauseAgain(hwId));
          }
          SaveGeofenceItem(key, hwId, config);
        }
      case RemoveReq(h, clientGone) =>
        if clientGone {
          if ok {
            mGeofences := mGeofences - {h};
          } else {
            failed := failed + {h};
          }
        } else if ok {
          RemoveGeofenceItem(h);
        }
      case PauseReq(h) => if ok { SetPaused(h, true); }
      case ResumeReq(h) => if ok { SetPaused(h, false); }
      case ModifyReq(h, config) => if ok { ModifyGeofenceItem(h, config); }
      case PauseAgain(h) =>
    }

    method StopClientSessions(client: nat)
      modifies this
      ensures View() == Step(old(View()), StopClient(client))
    {
      var it := mGeofenceIds.Keys;
      var reqs: set<Request> := {};
      ghost var all := mGeofenceIds;
      while it != {}
        invariant it <= all.Keys
        invariant mGeofenceIds == all - (ClientKeys(all, client) - it)
        invariant reqs == Removals(all, ClientKeys(all, client) - it)
        invariant mGeofences == old(mGeofences) && calls == old(calls) && next == old(next) && failed == old(failed)
        decreases it
      {
        var key :| key in it;
        ghost var gone := ClientKeys(all, client) - it;
        it := it - {key};
        if client == key.client {
          reqs := reqs + {RemoveReq(mGeofenceIds[key], true)};
          RemovalsOneMore(all, gone, key);
          assert ClientKeys(all, client) - it == gone + {key};
          mGeofenceIds := mGeofenceIds - {key};
        } else {
          assert ClientKeys(all, client) - it == gone;
        }
      }
      assert ClientKeys(all, client) - it == ClientKeys(all, client);
      calls := calls + set r | r in reqs :: Call(next, r);
      next := next + 1;
    }

    method RestartGeofences()
      modifies this
      ensures View() == Step(old(View()), Restart)
    {
      if mGeofences == map[] {
        return;
      }
      var oldGeofences := mGeofences;
      mGeofences, mGeofenceIds := map[], map[];
      failed := {};
      var it := oldGeofences.Keys;
      var reqs: set<Request> := {};
      while it != {}
        invariant it <= oldGeofences.Keys
        invariant reqs == ReAdds(oldGeofences - it)
        invariant mGeofences == map[] && mGeofenceIds == map[] && failed == {}
        invariant calls == old(calls) && next == old(next)
        decreases it
      {
        var hw :| hw in it;
        var item := oldGeofences[hw];
        ReAddsOneMore(oldGeofences, it, hw);
        it := it - {hw};
        reqs := reqs + {AddReq(item.key, item.config, item.paused)};
      }
      assert oldGeofences - it == oldGeofences;
      calls := calls + set r | r in reqs :: Call(next, r);
      next := next + 1;
    }

    /** Fills a buffer with the client's own ids of one breach report. */
    method FillClientIds(hwIds: seq<nat>, client: nat, clientIds: array<nat>) returns (index: nat)
      requires clientIds.Length == |hwIds|
      modifies clientIds
      ensures index <= |hwIds| && clientIds[..index] == OwnedIds(mGeofences, hwIds, client)
    {
      index := 0;
      for i := 0 to |hwIds|
        invariant index <= i && clientIds[..index] == OwnedIds(mGeofences, hwIds[..i], client)
      {
        assert hwIds[..i + 1][..i] == hwIds[..i];
        if hwIds[i] in mGeofences {
          var key := mGeofences[hwIds[i]].key;
          if key.client == client {
            clientIds[index] := key.id;
            index := index + 1;
          }
        }
      }
      assert hwIds[..|hwIds|] == hwIds;
    }

    method GeofenceBreach(hwIds: seq<nat>, clientData: map<nat, bool>) returns (sent: map<nat, seq<nat>>)
      ensures sent == BreachReports(mGeofences, hwIds, clientData, clientData.Keys)
    {
      sent := map[];
      var it := clientData.Keys;
      ghost var done: set<nat> := {};
      while it != {}
        invariant done == clientData.Keys - it && it <= clientData.Keys
        invariant sent == BreachReports(mGeofences, hwIds, clientData, done)
        decreases it
      {
        var client :| client in it;
        it := it - {client};
        var clientIds := new nat[|hwIds|];
        var index := FillClientIds(hwIds, client, clientIds);
        BreachReportsOneMore(mGeofences, hwIds, clientData, done, client);
        done := done + {client};
        if index > 0 && clientData[client] {
          sent := sent[client := clientIds[..index]];
        }
      }
      assert done == clientData.Keys;
    }
  }

  lemma RemovalsOneMore(index: map<Key, nat>, done: set<Key>, key: Key)
    requires key in index
    ensures Removals(index, done + {key}) == Removals(index, done) + {RemoveReq(index[key], true)}
  {
    var more := Removals(index, done + {key});
    forall r | r in Removals(index, done) ensures r in more {
      var k :| k in done && k in index && r == RemoveReq(index[k], true);
      assert k in done + {key};
    }
    assert key in done + {key} && RemoveReq(index[key], true) in more;
  }

  lemma ReAddsOneMore(fences: map<nat, Fence>, rest: set<nat>, hw: nat)
    requires hw in fences && hw in rest
    ensures var f := fences[hw];
      ReAdds(fences - (rest - {hw})) == ReAdds(fences - rest) + {AddReq(f.key, f.config, f.paused)}
  {
    var less, more := fences - rest, fences - (rest - {hw});
    forall r | r in ReAdds(less) ensures r in ReAdds(more) {
      var h :| h in less && r == AddReq(less[h].key, less[h].config, less[h].paused);
      assert h in more && more[h] == less[h];
    }
    assert hw in more && AddReq(more[hw].key, more[hw].config, more[hw].paused) in ReAdds(more);
    forall h | h in more && h != hw ensures AddReq(more[h].key, more[h].config, more[h].paused) in ReAdds(less) {
      assert h in less && less[h] == more[h];
    }
  }
}
