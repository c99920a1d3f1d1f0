/** The two maps of the geofence adapter: by hardware id, and from a client's own id to the hardware
    id. Between them lie modem calls that are answered later, in any order. */
module GeofenceIndex {

  datatype Key = Key(client: nat, id: nat)

  /** The configuration stands for breach mask, responsiveness, dwell time, confidence and area. */
  datatype Fence = Fence(key: Key, config: nat, paused: bool)

  /** What the modem is asked. A removal made when a client goes away takes the geofence out of the
      index at once. `PauseAgain` is the pause after a restart, whose answer is not looked at. */
  datatype Request =
    | AddReq(key: Key, config: nat, paused: bool)
    | RemoveReq(hw: nat, clientGone: bool)
    | PauseReq(hw: nat)
    | ResumeReq(hw: nat)
    | ModifyReq(hw: nat, config: nat)
    | PauseAgain(hw: nat)

  /** A call whose answer is outstanding; the serial number tells calls of different events apart. */
  datatype Call = Call(serial: nat, req: Request)

  /** `failed` records the hardware ids whose removal for a departed client failed. */
  datatype State = State(fences: map<nat, Fence>, index: map<Key, nat>, calls: set<Call>, next: nat, failed: set<nat>)

  datatype Event =
    | AddFence(key: Key, config: nat)
    | RemoveFence(key: Key)
    | PauseFence(key: Key)
    | ResumeFence(key: Key)
    | ModifyFence(key: Key, config: nat)
    | StopClient(client: nat)
    | Restart
    | Reply(call: Call, ok: bool, hw: nat)

  const INITIAL_STATE := State(map[], map[], {}, 0, {})

  // ---------------------------------------------------------------- one event

  function Saved(s: State, key: Key, config: nat, hw: nat): State {
    s.(fences := s.fences[hw := Fence(key, config, false)], index := s.index[key := hw])
  }

  function RemovedItem(s: State, hw: nat): State {
    if hw in s.fences && s.fences[hw].key in s.index then
      s.(index := s.index - {s.fences[hw].key}, fences := s.fences - {hw})
    else s
  }

  function WithPaused(s: State, hw: nat, paused: bool): State {
    if hw in s.fences then s.(fences := s.fences[hw := s.fences[hw].(paused := paused)]) else s
  }

  function WithConfig(s: State, hw: nat, config: nat): State {
    if hw in s.fences then s.(fences := s.fences[hw := s.fences[hw].(config := config)]) else s
  }

  /** The requests of one event go out under one serial number. */
  function Asked(s: State, reqs: set<Request>): State {
    s.(calls := s.calls + set r | r in reqs :: Call(s.next, r), next := s.next + 1)
  }

  function ClientKeys(index: map<Key, nat>, client: nat): set<Key> {
    set k | k in index && k.client == client
  }

  function Removals(index: map<Key, nat>, keys: set<Key>): set<Request> {
    set k | k in keys && k in index :: RemoveReq(index[k], true)
  }

  function ReAdds(fences: map<nat, Fence>): set<Request> {
    set hw | hw in fences :: AddReq(fences[hw].key, fences[hw].config, fences[hw].paused)
  }

  function Answered(s: State, req: Request, ok: bool, hw: nat): State {
    match req
    case AddReq(key, config, paused) =>
      if !ok then s else Saved(if paused then Asked(s, {PauseAgain(hw)}) else s, key, config, hw)
    case RemoveReq(h, clientGone) =>
      if clientGone then (if ok then s.(fences := s.fences - {h}) else s.(failed := s.failed + {h}))
      else if ok then RemovedItem(s, h) else s
    case PauseReq(h) => if ok then WithPaused(s, h, true) else s
    case ResumeReq(h) => if ok then WithPaused(s, h, false) else s
    case ModifyReq(h, config) => if ok then WithConfig(s, h, config) else s
    case PauseAgain(h) => s
  }

  function Step(s: State, e: Event): State {
    match e
    case AddFence(key, config) => Asked(s, {AddReq(key, config, false)})
    case RemoveFence(key) => if key in s.index then Asked(s, {RemoveReq(s.index[key], false)}) else s
    case PauseFence(key) => if key in s.index then Asked(s, {PauseReq(s.index[key])}) else s
    case ResumeFence(key) => if key in s.index then Asked(s, {ResumeReq(s.index[key])}) else s
    case ModifyFence(key, config) => if key in s.index then Asked(s, {ModifyReq(s.index[key], config)}) else s
    case StopClient(client) =>
      var keys := ClientKeys(s.index, client);
      Asked(s.(index := s.index - keys), Removals(s.index, keys))
    case Restart =>
      if s.fences == map[] then s else Asked(s.(fences := map[], index := map[], failed := {}), ReAdds(s.fences))
    case Reply(c, ok, hw) =>
      if c in s.calls then Answered(s.(calls := s.calls - {c}), c.req, ok, hw) else s
  }

  function Run(s: State, events: seq<Event>): State {
    if events == [] then s else Step(Run(s, events[..|events| - 1]), events[|events| - 1])
  }

  // ---------------------------------------------------------------- the invariant

  predicate Outstanding(s: State, req: Request) {
    exists c :: c in s.calls && c.req == req
  }

  /** Every key leads to a stored geofence that carries the same key. */
  ghost predicate IndexSound(s: State) {
    forall k :: k in s.index ==> s.index[k] in s.fences && s.fences[s.index[k]].key == k
  }

  predicate Indexed(s: State, hw: nat)
    requires hw in s.fences
  {
    s.fences[hw].key in s.index && s.index[s.fences[hw].key] == hw
  }

  /** Every stored geofence out of the index has an outstanding or failed removal. */
  ghost predicate OrphansAccounted(s: State) {
    forall hw :: hw in s.fences ==> Indexed(s, hw) || Outstanding(s, RemoveReq(hw, true)) || hw in s.failed
  }

  /** No key is stored twice, is being added twice, or is stored while it is being added. */
  ghost predicate KeysUnique(s: State) {
    && (forall a, b :: a in s.fences && b in s.fences && s.fences[a].key == s.fences[b].key ==> a == b)
    && (forall c, hw :: c in s.calls && c.req.AddReq? && hw in s.fences ==> s.fences[hw].key != c.req.key)
    && (forall c, d :: c in s.calls && d in s.calls && c.req.AddReq? && d.req.AddReq? && c.req.key == d.req.key ==>
          c == d)
  }

  /** An outstanding removal for a departed client names no geofence of the index; serial numbers are new. */
  ghost predicate RemovalsOutside(s: State) {
    && (forall k, c :: k in s.index && c in s.calls ==> c.req != RemoveReq(s.index[k], true))
    && (forall c :: c in s.calls ==> c.serial < s.next)
  }

  ghost predicate Inv(s: State) {
    IndexSound(s) && OrphansAccounted(s) && KeysUnique(s) && RemovalsOutside(s)
  }

  /** Session ids are new, and the modem gives out no hardware id in use or under removal. */
  ghost predicate Fresh(s: State, e: Event) {
    && (e.AddFence? ==>
      && (forall hw :: hw in s.fences ==> s.fences[hw].key != e.key)
      && (forall c :: c in s.calls && c.req.AddReq? ==> c.req.key != e.key))
    && (e.Reply? && e.call.req.AddReq? ==>
      e.hw !in s.fences && forall c :: c in s.calls && c.req.RemoveReq? ==> c.req.hw != e.hw)
  }

  /** Asking for something that adds nothing and removes nothing keeps the invariant. */
  lemma AskKeepsInv(s: State, req: Request)
    requires Inv(s) && !req.AddReq? && !(req.RemoveReq? && req.clientGone)
    ensures Inv(Asked(s, {req}))
  {
    var r := Asked(s, {req});
    assert forall c :: c in r.calls <==> c in s.calls || c == Call(s.next, req);
  }

  lemma AddKeepsInv(s: State, key: Key, config: nat)
    requires Inv(s) && Fresh(s, AddFence(key, config))
    ensures Inv(Asked(s, {AddReq(key, config, false)}))
  {
    var r := Asked(s, {AddReq(key, config, false)});
    assert forall c :: c in r.calls <==> c in s.calls || c == Call(s.next, AddReq(key, config, false));
  }

  /** An answer takes its call away: harmless unless it was the removal of a departed client's geofence. */
  lemma CallGoneKeepsInv(s: State, c: Call)
    requires Inv(s) && c in s.calls
    ensures var r := s.(calls := s.calls - {c});
      IndexSound(r) && KeysUnique(r) && RemovalsOutside(r) && (!(c.req.RemoveReq? && c.req.clientGone) ==> Inv(r))
  {
    var r := s.(calls := s.calls - {c});
    if !(c.req.RemoveReq? && c.req.clientGone) {
      forall hw | hw in r.fences ensures Indexed(r, hw) || Outstanding(r, RemoveReq(hw, true)) || hw in r.failed {
        if d :| d in s.calls && d.req == RemoveReq(hw, true) { assert d in r.calls; }
      }
    }
  }

  lemma SavedKeepsInv(s: State, key: Key, config: nat, hw: nat)
    requires Inv(s) && hw !in s.fences
    requires forall c :: c in s.calls && c.req.RemoveReq? ==> c.req.hw != hw
    requires forall h :: h in s.fences ==> s.fences[h].key != key
    requires forall c :: c in s.calls && c.req.AddReq? ==> c.req.key != key
    ensures Inv(Saved(s, key, config, hw))
  {
    var r := Saved(s, key, config, hw);
    assert key !in s.index;
    assert OrphansAccounted(r) by {
      forall h | h in r.fences ensures Indexed(r, h) || Outstanding(r, RemoveReq(h, true)) || h in r.failed {
        if h != hw {
          assert Indexed(s, h) ==> Indexed(r, h);
          assert Outstanding(s, RemoveReq(h, true)) ==> Outstanding(r, RemoveReq(h, true));
        }
      }
    }
  }

  lemma RemovedItemKeepsInv(s: State, hw: nat)
    requires Inv(s)
    ensures Inv(RemovedItem(s, hw))
  {
    var r := RemovedItem(s, hw);
    if hw in s.fences && s.fences[hw].key in s.index {
      var key := s.fences[hw].key;
      assert s.fences[s.index[key]].key == key;
      assert s.index[key] == hw;
      forall h | h in r.fences ensures Indexed(r, h) || Outstanding(r, RemoveReq(h, true)) || h in r.failed {
        assert Indexed(s, h) ==> Indexed(r, h);
        assert Outstanding(s, RemoveReq(h, true)) ==> Outstanding(r, RemoveReq(h, true));
      }
    }
  }

  /** A removal for a departed client succeeds: the geofence goes. */
  lemma DepartedKeepsInv(s: State, c: Call)
    requires Inv(s) && c in s.calls && c.req.RemoveReq? && c.req.clientGone
    ensures Inv(s.(calls := s.calls - {c}, fences := s.fences - {c.req.hw}))
  {
    CallGoneKeepsInv(s, c);
    var r := s.(calls := s.calls - {c}, fences := s.fences - {c.req.hw});
    assert forall k :: k in s.index ==> s.index[k] != c.req.hw;
    forall h | h in r.fences ensures Indexed(r, h) || Outstanding(r, RemoveReq(h, true)) || h in r.failed {
      assert Indexed(s, h) ==> Indexed(r, h);
      if d :| d in s.calls && d.req == RemoveReq(h, true) { assert d in r.calls; }
    }
  }

  /** It fails: the geofence stays, and its removal is recorded as failed. */
  lemma DepartedFailedKeepsInv(s: State, c: Call)
    requires Inv(s) && c in s.calls && c.req.RemoveReq? && c.req.clientGone
    ensures Inv(s.(calls := s.calls - {c}, failed := s.failed + {c.req.hw}))
  {
    CallGoneKeepsInv(s, c);
    var r := s.(calls := s.calls - {c}, failed := s.failed + {c.req.hw});
    forall h | h in r.fences ensures Indexed(r, h) || Outstanding(r, RemoveReq(h, true)) || h in r.failed {
      assert Indexed(s, h) ==> Indexed(r, h);
      if d :| d in s.calls && d.req == RemoveReq(h, true) { assert d in r.calls || h == c.req.hw; }
    }
  }

  /** Changing what a stored geofence looks like, but not its key. */
  lemma ChangedKeepsInv(s: State, hw: nat, f: Fence)
    requires Inv(s) && hw in s.fences && f.key == s.fences[hw].key
    ensures Inv(s.(fences := s.fences[hw := f]))
  {
    var r := s.(fences := s.fences[hw := f]);
    assert forall h :: h in r.fences ==> h in s.fences && r.fences[h].key == s.fences[h].key;
    forall h | h in r.fences ensures Indexed(r, h) || Outstanding(r, RemoveReq(h, true)) || h in r.failed {
      assert Indexed(s, h) ==> Indexed(r, h);
      assert Outstanding(s, RemoveReq(h, true)) ==> Outstanding(r, RemoveReq(h, true));
    }
  }

  lemma AnswerKeepsInv(s: State, c: Call, ok: bool, hw: nat)
    requires Inv(s) && c in s.calls && Fresh(s, Reply(c, ok, hw))
    ensures Inv(Answered(s.(calls := s.calls - {c}), c.req, ok, hw))
  {
    var less := s.(calls := s.calls - {c});
    CallGoneKeepsInv(s, c);
    match c.req
    case AddReq(key, config, paused) =>
      if ok {
        if paused { AskKeepsInv(less, PauseAgain(hw)); }
        SavedKeepsInv(if paused then Asked(less, {PauseAgain(hw)}) else less, key, config, hw);
      }
    case RemoveReq(h, clientGone) =>
      if !clientGone { RemovedItemKeepsInv(less, h); }
      else if ok { DepartedKeepsInv(s, c); }
      else { DepartedFailedKeepsInv(s, c); }
    case PauseReq(h) => if h in s.fences { ChangedKeepsInv(less, h, s.fences[h].(paused := true)); }
    case ResumeReq(h) => if h in s.fences { ChangedKeepsInv(less, h, s.fences[h].(paused := false)); }
    case ModifyReq(h, config) => if h in s.fences { ChangedKeepsInv(less, h, s.fences[h].(config := config)); }
    case PauseAgain(h) =>
  }

  lemma StopKeepsInv(s: State, client: nat)
    requires Inv(s)
    ensures Inv(Step(s, StopClient(client)))
  {
    var r, keys := Step(s, StopClient(client)), ClientKeys(s.index, client);
    forall c | c in r.calls && c !in s.calls
      ensures c.serial == s.next && c.req.RemoveReq? && exists k :: k in keys && c.req == RemoveReq(s.index[k], true)
    {
    }
    forall hw | hw in r.fences ensures Indexed(r, hw) || Outstanding(r, RemoveReq(hw, true)) || hw in r.failed {
      if Indexed(s, hw) && s.fences[hw].key in keys {
        var q := RemoveReq(hw, true);
        assert q in Removals(s.index, keys);
        assert Call(s.next, q) in r.calls;
      }
      if d :| d in s.calls && d.req == RemoveReq(hw, true) { assert d in r.calls; }
    }
    forall k, c | k in r.index && c in r.calls ensures c.req != RemoveReq(r.index[k], true) {
      if c !in s.calls {
        var j :| j in keys && c.req == RemoveReq(s.index[j], true);
        assert s.fences[s.index[j]].key == j && s.fences[s.index[k]].key == k;
      }
    }
  }

  lemma RestartKeepsInv(s: State)
    requires Inv(s)
    ensures Inv(Step(s, Restart))
  {
    var r := Step(s, Restart);
    forall c | c in r.calls && c !in s.calls
      ensures c.serial == s.next && c.req.AddReq?
      ensures exists hw :: hw in s.fences && c.req == AddReq(s.fences[hw].key, s.fences[hw].config, s.fences[hw].paused)
    {
    }
  }

  lemma StepKeepsInv(s: State, e: Event)
    requires Inv(s) && Fresh(s, e)
    ensures Inv(Step(s, e))
  {
    match e
    case AddFence(key, config) => AddKeepsInv(s, key, config);
    case RemoveFence(key) => if key in s.index { AskKeepsInv(s, RemoveReq(s.index[key], false)); }
    case PauseFence(key) => if key in s.index { AskKeepsInv(s, PauseReq(s.index[key])); }
    case ResumeFence(key) => if key in s.index { AskKeepsInv(s, ResumeReq(s.index[key])); }
    case ModifyFence(key, config) => if key in s.index { AskKeepsInv(s, ModifyReq(s.index[key], config)); }
    case StopClient(client) => StopKeepsInv(s, client);
    case Restart => RestartKeepsInv(s);
    case Reply(c, ok, hw) => if c in s.calls { AnswerKeepsInv(s, c, ok, hw); }
  }

  ghost predicate AllFresh(events: seq<Event>) {
    events == [] ||
    (AllFresh(events[..|events| - 1]) && Fresh(Run(INITIAL_STATE, events[..|events| - 1]), events[|events| - 1]))
  }

  /** Over every run with fresh keys and hardware ids, modem answers in any order: every key maps to a
      stored geofence with that key, and every stored geofence without an index entry has an
      outstanding or failed removal. */
  lemma {:induction false} IndexOverRuns(events: seq<Event>)
    requires AllFresh(events)
    ensures Inv(Run(INITIAL_STATE, events))
  {
    if events != [] {
      var n := |events| - 1;
      IndexOverRuns(events[..n]);
      StepKeepsInv(Run(INITIAL_STATE, events[..n]), events[n]);
    }
  }

  /** Why hardware ids must be fresh: saving a new key keeps the index sound if and only if no other
      key leads to the hardware id it is saved under. */
  lemma SaveNeedsFreeHardwareId(s: State, key: Key, config: nat, hw: nat)
    requires IndexSound(s) && key !in s.index
    ensures IndexSound(Saved(s, key, config, hw)) <==> forall k :: k in s.index ==> s.index[k] != hw
  {
    var r := Saved(s, key, config, hw);
    if k :| k in s.index && s.index[k] == hw {
      assert k in r.index && r.fences[r.index[k]].key == key;
    }
  }

  // ---------------------------------------------------------------- restart

  /** What a restart asks the modem for a stored geofence. */
  function RestartCall(s: State, hw: nat): Call
    requires hw in s.fences
  {
    Call(s.next, AddReq(s.fences[hw].key, s.fences[hw].config, s.fences[hw].paused))
  }

  /** After a modem restart and the modem's consent a stored geofence is back in the index with its key
      and configuration. A paused one is paused again in the modem, but is stored as not paused: its
      record is unchanged if and only if it was not paused. */
  lemma RestartRestores(s: State, hw: nat, hw2: nat)
    requires Inv(s) && hw in s.fences
    ensures var f := s.fences[hw];
      var s1, c := Step(s, Restart), RestartCall(s, hw);
      var s2 := Step(s1, Reply(c, true, hw2));
      && c in s1.calls
      && f.key in s2.index && s2.index[f.key] == hw2 && hw2 in s2.fences
      && s2.fences[hw2] == f.(paused := false)
      && (s2.fences[hw2] == f <==> !f.paused)
      && (Call(s1.next, PauseAgain(hw2)) in s2.calls <==> f.paused)
      && (!f.paused ==> s2.calls <= s1.calls)
  {
    var f, s1 := s.fences[hw], Step(s, Restart);
    var q := RestartCall(s, hw).req;
    assert q in ReAdds(s.fences);
    assert Call(s.next, q) in s1.calls;
    RestartKeepsInv(s);
    assert Call(s1.next, PauseAgain(hw2)) !in s1.calls;
  }

  /** The state after a restart and the modem's consent for one geofence. */
  function Restored(s: State, hw: nat, hw2: nat): State
    requires hw in s.fences
  {
    Step(Step(s, Restart), Reply(RestartCall(s, hw), true, hw2))
  }

  lemma RestoredKeepsInv(s: State, hw: nat, hw2: nat)
    requires Inv(s) && hw in s.fences && Fresh(Step(s, Restart), Reply(RestartCall(s, hw), true, hw2))
    ensures Inv(Restored(s, hw, hw2))
  {
    StepKeepsInv(s, Restart);
    StepKeepsInv(Step(s, Restart), Reply(RestartCall(s, hw), true, hw2));
  }

  /** So a geofence that a client paused runs again after two restarts: the second one asks the modem for
      it without a pause, and makes no further call when it is added. */
  lemma SecondRestartForgetsPause(s: State, hw: nat, hw2: nat, hw3: nat)
    requires Inv(s) && hw in s.fences && Fresh(Step(s, Restart), Reply(RestartCall(s, hw), true, hw2))
    ensures var s2 := Restored(s, hw, hw2);
      && hw2 in s2.fences && RestartCall(s2, hw2).req == AddReq(s.fences[hw].key, s.fences[hw].config, false)
      && Restored(s2, hw2, hw3).calls <= Step(s2, Restart).calls
      && hw3 in Restored(s2, hw2, hw3).fences && !Restored(s2, hw2, hw3).fences[hw3].paused
  {
    RestartRestores(s, hw, hw2);
    RestoredKeepsInv(s, hw, hw2);
    RestartRestores(Restored(s, hw, hw2), hw2, hw3);
  }

  /** A restart brings every stored geofence back into the index, also one that was out of it because its
      client had gone: that one comes back exactly when it was out of the index. Its removal is outstanding
      or has failed, and its answer, for the old hardware id, no longer takes the key out. */
  lemma DepartedComesBack(s: State, hw: nat, hw2: nat, c: Call, ok: bool)
    requires Inv(s) && hw in s.fences && hw2 != hw
    requires c in s.calls && c.req == RemoveReq(hw, true)
    ensures var key := s.fences[hw].key;
      var s2 := Restored(s, hw, hw2);
      && key !in s.index && key in s2.index && s2.index[key] == hw2
      && c in s2.calls && key in Step(s2, Reply(c, ok, 0)).index && hw2 in Step(s2, Reply(c, ok, 0)).fences
  {
    RestartRestores(s, hw, hw2);
    RestartKeepsInv(s);
  }

  /** In general, after a restart and the modem's consent a geofence is newly in the index if and only if
      it was out of it before; by the invariant its removal was then outstanding or had failed. */
  lemma ComesBackExactly(s: State, hw: nat, hw2: nat)
    requires Inv(s) && hw in s.fences
    ensures var key := s.fences[hw].key;
      var s2 := Restored(s, hw, hw2);
      && key in s2.index
      && (key !in s.index <==> !Indexed(s, hw))
      && (key !in s.index ==> Outstanding(s, RemoveReq(hw, true)) || hw in s.failed)
  {
    RestartRestores(s, hw, hw2);
    if s.fences[hw].key in s.index {
      assert s.fences[s.index[s.fences[hw].key]].key == s.fences[hw].key;
    }
  }
}
