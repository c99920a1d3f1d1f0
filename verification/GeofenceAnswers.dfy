/** What the modem's answers do to the geofences: each takes effect on its own geofence, and on no other. */
module GeofenceAnswers {
  import opened GeofenceIndex

  /** The modem's answer to an outstanding call. */
  function After(s: State, c: Call, ok: bool, hw: nat): State {
    Step(s, Reply(c, ok, hw))
  }

  /** An answer that refuses leaves both maps as they are, whatever was asked. */
  lemma RefusalChangesNothing(s: State, c: Call, hw: nat)
    ensures After(s, c, false, hw).fences == s.fences && After(s, c, false, hw).index == s.index
  {
  }

  /** A removal that a client asked for, once granted, takes the geofence out of both maps if the index still
      leads to it, and else changes nothing. */
  lemma RemovalTakesOutExactly(s: State, c: Call, gone: nat)
    requires Inv(s) && c in s.calls && c.req == RemoveReq(gone, false) && gone in s.fences
    ensures var r, key := After(s, c, true, 0), s.fences[gone].key;
      if Indexed(s, gone) then
        && gone !in r.fences && key !in r.index
        && (forall hw :: hw in s.fences && hw != gone ==> hw in r.fences && r.fences[hw] == s.fences[hw])
        && (forall k :: k in s.index && k != key ==> k in r.index && r.index[k] == s.index[k])
        && r.fences.Keys <= s.fences.Keys && r.index.Keys <= s.index.Keys
      else r.fences == s.fences && r.index == s.index
  {
    var key := s.fences[gone].key;
    if key in s.index {
      assert s.fences[s.index[key]].key == key;
      assert Indexed(s, gone);
    }
  }

  /** What an answer makes of a stored geofence: its pause and configuration are those granted. */
  function Changed(f: Fence, req: Request): Fence {
    match req
    case PauseReq(_) => Fence(f.key, f.config, true)
    case ResumeReq(_) => Fence(f.key, f.config, false)
    case ModifyReq(_, config) => Fence(f.key, config, f.paused)
    case _ => f
  }

  /** A pause, a resumption or a change of configuration, once granted, shows in the record of its geofence,
      and in nothing else. */
  lemma ChangeTakesEffect(s: State, c: Call)
    requires c in s.calls && (c.req.PauseReq? || c.req.ResumeReq? || c.req.ModifyReq?) && c.req.hw in s.fences
    ensures var r := After(s, c, true, 0);
      && r.index == s.index && r.fences.Keys == s.fences.Keys
      && (forall hw :: hw in s.fences ==>
           r.fences[hw] == if hw == c.req.hw then Changed(s.fences[hw], c.req) else s.fences[hw])
  {
  }

  /** What a client asks for goes to the modem with the hardware id that its own id leads to, and changes
      nothing before the answer. */
  lemma RequestGoesOut(s: State, e: Event)
    requires Inv(s)
    requires e.RemoveFence? || e.PauseFence? || e.ResumeFence? || e.ModifyFence?
    ensures var r := Step(s, e);
      && r.fences == s.fences && r.index == s.index
      && (e.key !in s.index ==> r == s)
      && (e.key in s.index ==>
           var hw := s.index[e.key];
           var req := match e
             case RemoveFence(_) => RemoveReq(hw, false)
             case PauseFence(_) => PauseReq(hw)
             case ResumeFence(_) => ResumeReq(hw)
             case ModifyFence(_, config) => ModifyReq(hw, config);
           r.calls == s.calls + {Call(s.next, req)})
  {
  }

  /** A client that adds a geofence finds it under its own id, with its configuration and running, as soon as
      the modem has granted it; and removing it again restores both maps. */
  lemma AddThenRemove(s: State, key: Key, config: nat, hw: nat)
    requires Inv(s) && Fresh(s, AddFence(key, config))
    requires hw !in s.fences && forall c :: c in s.calls && c.req.RemoveReq? ==> c.req.hw != hw
    ensures var asked := Step(s, AddFence(key, config));
      var added := After(asked, Call(s.next, AddReq(key, config, false)), true, hw);
      var giving := Step(added, RemoveFence(key));
      var gone := After(giving, Call(added.next, RemoveReq(hw, false)), true, 0);
      && added.fences == s.fences[hw := Fence(key, config, false)] && added.index == s.index[key := hw]
      && gone.fences == s.fences && gone.index == s.index
  {
    assert key !in s.index;
    var asked := Step(s, AddFence(key, config));
    var add := Call(s.next, AddReq(key, config, false));
    assert AddReq(key, config, false) in {AddReq(key, config, false)} && add in asked.calls;
    var added := After(asked, add, true, hw);
    var giving := Step(added, RemoveFence(key));
    var remove := Call(added.next, RemoveReq(hw, false));
    assert RemoveReq(hw, false) in {RemoveReq(hw, false)} && remove in giving.calls;
    var gone := After(giving, remove, true, 0);
    assert gone.fences == added.fences - {hw} && gone.index == added.index - {key};
  }

  /** Pausing a running geofence and resuming it restores the record. */
  lemma PauseThenResume(s: State, pause: Call, resume: Call)
    requires pause in s.calls && resume in s.calls && pause != resume && pause.req.PauseReq?
    requires resume.req == ResumeReq(pause.req.hw) && pause.req.hw in s.fences
    ensures var f, mid := s.fences[pause.req.hw], After(s, pause, true, 0);
      && mid.fences[pause.req.hw].paused
      && After(mid, resume, true, 0).fences == s.fences[pause.req.hw := f.(paused := false)]
      && (!f.paused ==> After(mid, resume, true, 0).fences == s.fences)
  {
  }

  /** A client that goes away leaves the index at once, nobody else does, and the modem is asked to remove
      every geofence that the index had for it. */
  lemma StopForgetsClient(s: State, client: nat, k: Key)
    requires Inv(s)
    ensures var r := Step(s, StopClient(client));
      && (k in r.index <==> k in s.index && k.client != client)
      && (k in r.index ==> r.index[k] == s.index[k])
      && r.fences == s.fences
      && (k in s.index && k.client == client ==> Call(s.next, RemoveReq(s.index[k], true)) in r.calls)
  {
    var keys := ClientKeys(s.index, client);
    if k in s.index && k.client == client {
      assert k in keys && RemoveReq(s.index[k], true) in Removals(s.index, keys);
    }
  }

  /** And a granted removal of such a geofence takes out its record. */
  lemma DepartedGoes(s: State, c: Call)
    requires Inv(s) && c in s.calls && c.req.RemoveReq? && c.req.clientGone
    ensures var r := After(s, c, true, 0);
      && r.fences == s.fences - {c.req.hw} && r.index == s.index
      && forall k :: k in s.index ==> s.index[k] in r.fences
  {
  }
}
