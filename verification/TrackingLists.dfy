/** A session is listed by time or by distance. What the two lists keep, and when they stop keeping it. */
module TrackingLists {
  import opened TrackingModel

  // ---------------------------------------------------------------- the engine stops with the last session

  /** A running engine has some session. */
  predicate Tidy(s: Mux) {
    s.engine.Running? ==> s.sessions != map[]
  }

  /** The callback erases the session of its call. */
  predicate Erases(c: DistanceCall, ok: bool) {
    (c.Stopping? && ok) || (c.Starting? && !ok)
  }

  /** The command takes a time-based session out of the list without the engine being told. */
  predicate TakesSilently(s: Mux, c: Command) {
    || (c.Update? && c.o.minDistance == 0 && c.k in s.sessions && c.k in s.distanceSessions)
    || (c.DistanceCallback? && c.i < |s.distanceCalls| && Erases(s.distanceCalls[c.i], c.ok)
        && s.distanceCalls[c.i].k in s.sessions)
  }

  function Taken(s: Mux, c: Command): Key
    requires TakesSilently(s, c)
  {
    if c.Update? then c.k else s.distanceCalls[c.i].k
  }

  /** And it is the last one, while the engine runs. */
  predicate TakesLastSilently(s: Mux, c: Command) {
    TakesSilently(s, c) && s.engine.Running? && s.sessions.Keys == {Taken(s, c)}
  }

  lemma StopKeepsTidy(minTracking: nat, s: Mux, k: Key, s': Mux)
    requires Tidy(s) && k in s.sessions && StopRel(minTracking, s, k, s')
    ensures Tidy(s')
  {
    if s.sessions.Keys != {k} {
      var j :| j in s.sessions.Keys && j != k;
      assert j in s.sessions - {k};
    }
  }

  lemma CallbackKeepsTidy(minTracking: nat, supported: bool, rest: Mux, c: DistanceCall, ok: bool, s': Mux)
    requires Tidy(rest) && CallbackRel(minTracking, supported, rest, c, ok, s')
    requires !(Erases(c, ok) && c.k in rest.sessions)
    ensures Tidy(s')
  {
    match c
    case SwitchingToTime(k, o) => assert k in s'.sessions;
    case RestartStarting(k, o) => assert ok && !(o.minDistance > 0 && supported) ==> k in s'.sessions;
    case _ =>
  }

  lemma StepKeepsTidy(minTracking: nat, supported: bool, s: Mux, c: Command, s': Mux)
    requires Tidy(s) && StepRel(minTracking, supported, s, c, s') && !TakesSilently(s, c)
    ensures Tidy(s')
  {
    match c
    case Start(k, o) => assert !(o.minDistance > 0 && supported) ==> k in s'.sessions;
    case Stop(k) => if k in s.sessions { StopKeepsTidy(minTracking, s, k, s'); }
    case Update(k, o) =>
      if k in s.sessions && o.minDistance > 0 {
        var mid := SwitchStops(minTracking, supported, s, k, o, s');
        StopKeepsTidy(minTracking, s, k, mid);
        assert !supported ==> k in s'.sessions;
      } else if k in s.sessions {
        assert k in s'.sessions;
      }
    case DistanceCallback(i, ok) =>
      CallbackKeepsTidy(minTracking, supported, WithoutCall(s, i), s.distanceCalls[i], ok, s');
    case _ =>
  }

  lemma SilentlyTaken(minTracking: nat, supported: bool, s: Mux, c: Command, s': Mux)
    requires StepRel(minTracking, supported, s, c, s') && TakesSilently(s, c)
    ensures s'.engine == s.engine && s'.sessions == s.sessions - {Taken(s, c)}
  {
  }

  /** The engine is stopped with the last session, if and only if that session is not taken silently. */
  lemma StepKeepsTidyExactly(minTracking: nat, supported: bool, s: Mux, c: Command, s': Mux)
    requires Tidy(s) && StepRel(minTracking, supported, s, c, s')
    ensures Tidy(s') <==> !TakesLastSilently(s, c)
  {
    if TakesSilently(s, c) {
      SilentlyTaken(minTracking, supported, s, c, s');
      var k := Taken(s, c);
      if s.sessions.Keys == {k} {
        assert s'.sessions == map[];
      } else {
        var j :| j in s.sessions.Keys && j != k;
        assert j in s'.sessions;
      }
    } else {
      StepKeepsTidy(minTracking, supported, s, c, s');
    }
  }

  ghost predicate AllTidy(states: seq<Mux>) {
    forall i :: 0 <= i < |states| ==> Tidy(states[i])
  }

  ghost predicate NoneTakesLast(states: seq<Mux>, commands: seq<Command>)
    requires |states| == |commands| + 1
  {
    forall i :: 0 <= i < |commands| ==> !TakesLastSilently(states[i], commands[i])
  }

  /** A running engine has some session throughout a run, if and only if none takes the last one silently. */
  lemma {:induction false} EngineStopsWithLastSession(minTracking: nat, supported: bool, states: seq<Mux>,
                                                      commands: seq<Command>)
    requires IsRun(minTracking, supported, states, commands)
    ensures AllTidy(states) <==> NoneTakesLast(states, commands)
  {
    if commands != [] {
      var n := |commands| - 1;
      RunSplits(minTracking, supported, states, commands);
      EngineStopsWithLastSession(minTracking, supported, states[..n + 1], commands[..n]);
      TidySplits(states, commands);
      if Tidy(states[n]) { StepKeepsTidyExactly(minTracking, supported, states[n], commands[n], states[n + 1]); }
    }
  }

  lemma TidySplits(states: seq<Mux>, commands: seq<Command>)
    requires |states| == |commands| + 1 && commands != []
    ensures var n := |commands| - 1;
      && (AllTidy(states) <==> AllTidy(states[..n + 1]) && Tidy(states[n + 1]))
      && (AllTidy(states[..n + 1]) ==> Tidy(states[n]))
      && (NoneTakesLast(states, commands) <==>
           NoneTakesLast(states[..n + 1], commands[..n]) && !TakesLastSilently(states[n], commands[n]))
  {
    var n := |commands| - 1;
    assert states[..n + 1][n] == states[n];
    assert forall i :: 0 <= i <= n ==> states[..n + 1][i] == states[i];
    assert forall i :: 0 <= i < n ==> commands[..n][i] == commands[i];
  }

  lemma RunSplits(minTracking: nat, supported: bool, states: seq<Mux>, commands: seq<Command>)
    requires IsRun(minTracking, supported, states, commands) && commands != []
    ensures var n := |commands| - 1;
      && IsRun(minTracking, supported, states[..n + 1], commands[..n])
      && StepRel(minTracking, supported, states[n], commands[n], states[n + 1])
  {
  }

  // ---------------------------------------------------------------- a session is listed once

  predicate ListedOnce(s: Mux) {
    s.sessions.Keys !! s.distanceSessions.Keys
  }

  /** The list in which a session with these options is not saved. */
  function OtherList(supported: bool, s: Mux, o: Options): set<Key> {
    if o.minDistance > 0 && supported then s.sessions.Keys else s.distanceSessions.Keys
  }

  /** The command saves a session that is in the other list: it starts, or the engine has answered. */
  predicate ListsTwice(supported: bool, s: Mux, c: Command) {
    match c
    case Start(k, o) => k in OtherList(supported, s, o)
    case DistanceCallback(i, ok) =>
      i < |s.distanceCalls| &&
      var call := s.distanceCalls[i];
      (call.SwitchingToTime? && call.k in s.distanceSessions)
        || (call.RestartStarting? && ok && call.k in OtherList(supported, s, call.o))
    case _ => false
  }

  lemma StartLists(minTracking: nat, s: Mux, k: Key, o: Options, s': Mux)
    requires StartRel(minTracking, s, k, o, s')
    ensures s'.sessions == s.sessions[k := o] && s'.distanceSessions == s.distanceSessions
  {
  }

  lemma StopLists(minTracking: nat, s: Mux, k: Key, s': Mux)
    requires k in s.sessions && StopRel(minTracking, s, k, s')
    ensures s'.sessions == s.sessions - {k} && s'.distanceSessions == s.distanceSessions
  {
    if s.sessions.Keys == {k} { assert s.sessions - {k} == map[]; }
  }

  lemma UpdateListsOnce(minTracking: nat, supported: bool, s: Mux, k: Key, o: Options, s': Mux)
    requires ListedOnce(s) && (k in s.sessions || k in s.distanceSessions)
    requires UpdateAnyRel(minTracking, supported, s, k, o, s')
    ensures ListedOnce(s')
  {
    if k in s.sessions && o.minDistance > 0 {
      var mid := SwitchStops(minTracking, supported, s, k, o, s');
      StopLists(minTracking, s, k, mid);
    }
  }

  lemma CallbackListsOnce(minTracking: nat, supported: bool, rest: Mux, c: DistanceCall, ok: bool, s': Mux)
    requires ListedOnce(rest) && CallbackRel(minTracking, supported, rest, c, ok, s')
    ensures ListedOnce(s') <==>
      !((c.SwitchingToTime? && c.k in rest.distanceSessions)
        || (c.RestartStarting? && ok && c.k in OtherList(supported, rest, c.o)))
  {
    match c
    case SwitchingToTime(k, o) =>
      StartLists(minTracking, rest, k, o, s');
      assert k in s'.sessions;
    case RestartStarting(k, o) =>
      assert ok ==> if o.minDistance > 0 && supported then k in s'.distanceSessions else k in s'.sessions;
    case _ =>
  }

  /** No session becomes listed both by time and by distance, if and only if none is saved that is in the
      other list. */
  lemma StepListsOnceExactly(minTracking: nat, supported: bool, s: Mux, c: Command, s': Mux)
    requires ListedOnce(s) && StepRel(minTracking, supported, s, c, s')
    ensures ListedOnce(s') <==> !ListsTwice(supported, s, c)
  {
    match c
    case Start(k, o) =>
      if o.minDistance > 0 && supported {
        assert k in s'.distanceSessions;
      } else {
        StartLists(minTracking, s, k, o, s');
        assert k in s'.sessions;
      }
    case Update(k, o) => UpdateListsOnce(minTracking, supported, s, k, o, s');
    case Stop(k) => if k in s.sessions { StopLists(minTracking, s, k, s'); }
    case DistanceCallback(i, ok) =>
      CallbackListsOnce(minTracking, supported, WithoutCall(s, i), s.distanceCalls[i], ok, s');
    case _ =>
  }

  ghost predicate AllListedOnce(states: seq<Mux>) {
    forall i :: 0 <= i < |states| ==> ListedOnce(states[i])
  }

  ghost predicate NoneListsTwice(supported: bool, states: seq<Mux>, commands: seq<Command>)
    requires |states| == |commands| + 1
  {
    forall i :: 0 <= i < |commands| ==> !ListsTwice(supported, states[i], commands[i])
  }

  /** Sessions are listed once throughout a run, if and only if no command of it saves one that is in the
      other list. */
  lemma {:induction false} ListedOnceOverRuns(minTracking: nat, supported: bool, states: seq<Mux>,
                                              commands: seq<Command>)
    requires IsRun(minTracking, supported, states, commands)
    ensures AllListedOnce(states) <==> NoneListsTwice(supported, states, commands)
  {
    if commands != [] {
      var n := |commands| - 1;
      RunSplits(minTracking, supported, states, commands);
      ListedOnceOverRuns(minTracking, supported, states[..n + 1], commands[..n]);
      ListsSplit(supported, states, commands);
      if ListedOnce(states[n]) { StepListsOnceExactly(minTracking, supported, states[n], commands[n], states[n + 1]); }
    }
  }

  lemma ListsSplit(supported: bool, states: seq<Mux>, commands: seq<Command>)
    requires |states| == |commands| + 1 && commands != []
    ensures var n := |commands| - 1;
      && (AllListedOnce(states) <==> AllListedOnce(states[..n + 1]) && ListedOnce(states[n + 1]))
      && (AllListedOnce(states[..n + 1]) ==> ListedOnce(states[n]))
      && (NoneListsTwice(supported, states, commands) <==>
           NoneListsTwice(supported, states[..n + 1], commands[..n]) && !ListsTwice(supported, states[n], commands[n]))
  {
    var n := |commands| - 1;
    assert states[..n + 1][n] == states[n];
    assert forall i :: 0 <= i <= n ==> states[..n + 1][i] == states[i];
    assert forall i :: 0 <= i < n ==> commands[..n][i] == commands[i];
  }

  // ---------------------------------------------------------------- the two lists as one

  /** How a session is listed. */
  datatype Entry = Unlisted | ByTime(o: Options) | ByDistance(o: Options)

  function EntryOf(s: Mux, k: Key): Entry {
    if k in s.sessions then ByTime(s.sessions[k])
    else if k in s.distanceSessions then ByDistance(s.distanceSessions[k])
    else Unlisted
  }

  function EntryFor(supported: bool, o: Options): Entry {
    if o.minDistance > 0 && supported then ByDistance(o) else ByTime(o)
  }

  /** The entry of the session that an answer is about, given the one before. */
  function EntryAnswered(supported: bool, before: Entry, c: DistanceCall, ok: bool): Entry {
    match c
    case Starting(_) => if ok then before else Unlisted
    case Stopping(_) => if ok then Unlisted else before
    case SwitchingToTime(_, o) => ByTime(o)
    case RestartStopping(_, _) => before
    case RestartStarting(_, o) => if ok then EntryFor(supported, o) else before
  }

  /** A session updated from distance to time is unlisted until the answer comes; one updated by distance
      keeps its options until its restart has been answered; a stop by distance waits for its answer. */
  function EntryAfter(supported: bool, s: Mux, c: Command, k: Key): Entry {
    var before := EntryOf(s, k);
    match c
    case Start(j, o) => if j == k then EntryFor(supported, o) else before
    case Update(j, o) =>
      if j != k then before
      else if before.ByTime? then EntryFor(supported, o)
      else if o.minDistance == 0 then Unlisted
      else before
    case Stop(j) => if j == k && before.ByTime? then Unlisted else before
    case DistanceCallback(i, ok) =>
      if i < |s.distanceCalls| && s.distanceCalls[i].k == k
      then EntryAnswered(supported, before, s.distanceCalls[i], ok) else before
    case _ => before
  }

  lemma ErasedEntry(s: Mux, j: Key, k: Key)
    requires ListedOnce(s)
    ensures EntryOf(Erased(s, j), k) == if j == k then Unlisted else EntryOf(s, k)
  {
  }

  lemma SavedEntry(supported: bool, s: Mux, j: Key, o: Options, k: Key)
    requires j !in OtherList(supported, s, o)
    ensures EntryOf(Saved(supported, s, j, o), k) == if j == k then EntryFor(supported, o) else EntryOf(s, k)
  {
  }

  lemma UpdateEntry(minTracking: nat, supported: bool, s: Mux, j: Key, o: Options, s': Mux, k: Key)
    requires ListedOnce(s) && (j in s.sessions || j in s.distanceSessions)
    requires UpdateAnyRel(minTracking, supported, s, j, o, s')
    ensures EntryOf(s', k) == EntryAfter(supported, s, Update(j, o), k)
  {
    if j in s.sessions && o.minDistance > 0 {
      var mid := SwitchStops(minTracking, supported, s, j, o, s');
      StopLists(minTracking, s, j, mid);
    } else if j in s.distanceSessions && o.minDistance == 0 {
      ErasedEntry(s, j, k);
    }
  }

  lemma CallbackEntry(minTracking: nat, supported: bool, rest: Mux, c: DistanceCall, ok: bool, s': Mux, k: Key)
    requires ListedOnce(rest) && CallbackRel(minTracking, supported, rest, c, ok, s')
    requires !(c.SwitchingToTime? && c.k in rest.distanceSessions)
    requires !(c.RestartStarting? && ok && c.k in OtherList(supported, rest, c.o))
    ensures EntryOf(s', k) ==
      if c.k == k then EntryAnswered(supported, EntryOf(rest, k), c, ok) else EntryOf(rest, k)
  {
    match c
    case SwitchingToTime(j, o) => StartLists(minTracking, rest, j, o, s');
    case RestartStarting(j, o) => if ok { SavedEntry(supported, rest, j, o, k); }
    case Starting(j) => if !ok { ErasedEntry(rest, j, k); }
    case Stopping(j) => if ok { ErasedEntry(rest, j, k); }
    case RestartStopping(j, o) =>
  }

  lemma DistanceCallbackEntry(minTracking: nat, supported: bool, s: Mux, i: nat, ok: bool, s': Mux, k: Key)
    requires ListedOnce(s) && i < |s.distanceCalls| && !ListsTwice(supported, s, DistanceCallback(i, ok))
    requires CallbackRel(minTracking, supported, WithoutCall(s, i), s.distanceCalls[i], ok, s')
    ensures EntryOf(s', k) == EntryAfter(supported, s, DistanceCallback(i, ok), k)
  {
    var rest := WithoutCall(s, i);
    assert SameLists(s, rest) && EntryOf(rest, k) == EntryOf(s, k);
    CallbackEntry(minTracking, supported, rest, s.distanceCalls[i], ok, s', k);
  }

  lemma StartEntry(minTracking: nat, supported: bool, s: Mux, j: Key, o: Options, s': Mux, k: Key)
    requires j !in OtherList(supported, s, o)
    requires if o.minDistance > 0 && supported then s' == Calls(Saved(supported, s, j, o), Starting(j))
             else StartRel(minTracking, s, j, o, s')
    ensures EntryOf(s', k) == if j == k then EntryFor(supported, o) else EntryOf(s, k)
  {
    if o.minDistance > 0 && supported { SavedEntry(supported, s, j, o, k); }
    else { StartLists(minTracking, s, j, o, s'); }
  }

  lemma StopEntry(minTracking: nat, s: Mux, j: Key, s': Mux, k: Key)
    requires ListedOnce(s) && (j in s.sessions || j in s.distanceSessions) && StopAnyRel(minTracking, s, j, s')
    ensures EntryOf(s', k) == if j == k && EntryOf(s, k).ByTime? then Unlisted else EntryOf(s, k)
  {
    if j in s.sessions { StopLists(minTracking, s, j, s'); }
  }

  predicate SameLists(s: Mux, s': Mux) {
    s'.sessions == s.sessions && s'.distanceSessions == s.distanceSessions
  }

  lemma EngineCommandKeepsLists(minTracking: nat, supported: bool, s: Mux, c: Command, s': Mux)
    requires StepRel(minTracking, supported, s, c, s')
    requires c.Suspend? || c.Resume? || c.SetNHz? || c.EngineCallback?
    ensures SameLists(s, s')
  {
  }

  /** As long as sessions are listed once, the two lists are one map from sessions to entries, and every
      command changes just the entry of its own session. */
  lemma EntriesExactly(minTracking: nat, supported: bool, s: Mux, c: Command, s': Mux, k: Key)
    requires ListedOnce(s) && StepRel(minTracking, supported, s, c, s') && !ListsTwice(supported, s, c)
    ensures EntryOf(s', k) == EntryAfter(supported, s, c, k)
  {
    match c
    case Start(j, o) => StartEntry(minTracking, supported, s, j, o, s', k);
    case Update(j, o) => UpdateEntry(minTracking, supported, s, j, o, s', k);
    case Stop(j) => StopEntry(minTracking, s, j, s', k);
    case DistanceCallback(i, ok) => DistanceCallbackEntry(minTracking, supported, s, i, ok, s', k);
    case _ => EngineCommandKeepsLists(minTracking, supported, s, c, s');
  }

  // ---------------------------------------------------------------- the shortest failing runs

  /** A run goes on with three more steps. */
  lemma RunGoesOn(states: seq<Mux>, commands: seq<Command>, a: Command, s1: Mux, b: Command, s2: Mux, c: Command,
                  s3: Mux)
    requires IsRun(100, true, states, commands) && StepRel(100, true, states[|commands|], a, s1)
    requires StepRel(100, true, s1, b, s2) && StepRel(100, true, s2, c, s3)
    ensures IsRun(100, true, states + [s1, s2, s3], commands + [a, b, c])
  {
    RunExtends(states, commands, a, s1);
    RunExtends(states + [s1], commands + [a], b, s2);
    RunExtends(states + [s1] + [s2], commands + [a] + [b], c, s3);
    assert states + [s1] + [s2] + [s3] == states + [s1, s2, s3];
    assert commands + [a] + [b] + [c] == commands + [a, b, c];
  }

  lemma RunExtends(states: seq<Mux>, commands: seq<Command>, c: Command, s': Mux)
    requires IsRun(100, true, states, commands) && StepRel(100, true, states[|commands|], c, s')
    ensures IsRun(100, true, states + [s'], commands + [c])
  {
  }

  function Begun(k: Key, near: Options, calls: seq<DistanceCall>): Mux {
    INITIAL_MUX.(distanceSessions := map[k := near], distanceCalls := calls, responses := [k])
  }

  function Prefix(k: Key, near: Options): seq<Mux> {
    [INITIAL_MUX, INITIAL_MUX.(distanceSessions := map[k := near], distanceCalls := [Starting(k)]),
     Begun(k, near, []), Begun(k, near, [RestartStopping(k, near)])]
  }

  /** A distance-based session has started, and is to be restarted. */
  lemma RestartBegins(k: Key, near: Options)
    requires near.minDistance > 0 && near.minInterval >= 100
    ensures IsRun(100, true, Prefix(k, near), [Start(k, near), DistanceCallback(0, true), Update(k, near)])
  {
    assert [] + [Starting(k)] == [Starting(k)] && [] + [k] == [k];
    assert [Starting(k)][..0] + [Starting(k)][1..] == [];
    assert [] + [RestartStopping(k, near)] == [RestartStopping(k, near)];
    var s, commands := Prefix(k, near), [Start(k, near), DistanceCallback(0, true), Update(k, near)];
    RunGoesOn([s[0]], [], commands[0], s[1], commands[1], s[2], commands[2], s[3]);
    assert [s[0]] + [s[1], s[2], s[3]] == s && [] + [commands[0], commands[1], commands[2]] == commands;
  }

  /** The stop that comes first in the restart fails: nothing is outstanding any more, and the client of the
      update is not answered. */
  lemma FailedRestartIsNotAnswered(k: Key, near: Options)
    requires near.minDistance > 0 && near.minInterval >= 100
    ensures var commands := [Start(k, near), DistanceCallback(0, true), Update(k, near), DistanceCallback(0, false)];
      var states := Prefix(k, near) + [Begun(k, near, [])];
      && IsRun(100, true, states, commands)
      && Promised(states[4]) == multiset{k} && Wanted(commands) == multiset{k, k}
  {
    var commands := [Start(k, near), DistanceCallback(0, true), Update(k, near)];
    var s := Prefix(k, near)[3];
    RestartBegins(k, near);
    assert s.distanceCalls[..0] + s.distanceCalls[1..] == [];
    assert Lost(s, DistanceCallback(0, false)) == multiset{k};
    assert StepRel(100, true, s, DistanceCallback(0, false), Begun(k, near, []));
    RunExtends(Prefix(k, near), commands, DistanceCallback(0, false), Begun(k, near, []));
    WantedOfFour(commands[0], commands[1], commands[2], DistanceCallback(0, false));
    assert commands + [DistanceCallback(0, false)] ==
      [Start(k, near), DistanceCallback(0, true), Update(k, near), DistanceCallback(0, false)];
  }

  lemma WantedOfFour(a: Command, b: Command, c: Command, d: Command)
    requires WantsResponse(a) && !WantsResponse(b) && WantsResponse(c) && !WantsResponse(d)
    ensures Wanted([a, b, c, d]) == multiset{a.k, c.k}
  {
    assert [a, b, c, d][..3] == [a, b, c] && [a, b, c][..2] == [a, b] && [a, b][..1] == [a] && [a][..0] == [];
    assert Wanted([]) == multiset{} && Wanted([a]) == multiset{a.k} && Wanted([a, b]) == multiset{a.k};
    assert Wanted([a, b, c]) == multiset{a.k} + multiset{c.k} == multiset{a.k, c.k};
  }

  /** Its only outstanding switch is answered: it is now time-based, and the engine runs for it. */
  lemma SwitchAnswered(k: Key, timed: TimeOptions, calls: seq<DistanceCall>, s: Mux, s': Mux)
    requires s.sessions == map[] && !s.nHzNeeded && s.awaiting == multiset{}
    requires s.distanceCalls == [SwitchingToTime(k, timed)] + calls
    requires s' == s.(distanceCalls := calls, sessions := map[k := timed], engine := Running(timed),
                      awaiting := multiset{k})
    ensures StepRel(100, true, s, DistanceCallback(0, true), s')
  {
    assert s.distanceCalls[..0] + s.distanceCalls[1..] == calls;
    var rest := WithoutCall(s, 0);
    var called := rest.(engine := Running(timed), awaiting := multiset{k});
    assert multiset{} + multiset{k} == multiset{k};
    assert StartWith(100, rest, k, timed, timed.minInterval, 0, 0, called);
    assert s' == called.(sessions := rest.sessions[k := timed]);
  }

  /** A distance-based session is restarted, and turned into a time-based one before the callbacks of the
      restart have come: it ends up listed by time and by distance. */
  lemma SessionListedTwice(k: Key, near: Options, timed: TimeOptions) returns (states: seq<Mux>, commands: seq<Command>)
    requires near.minDistance > 0 && near.minInterval >= 100 && timed.minInterval >= 100
    ensures var answer := DistanceCallback(0, true);
      commands == [Start(k, near), answer, Update(k, near), Update(k, timed), answer, answer, answer]
    ensures IsRun(100, true, states, commands)
    ensures k in states[7].sessions && k in states[7].distanceSessions && states[7].distanceCalls == []
  {
    var s3 := Begun(k, near, [RestartStopping(k, near)]);
    var s4 := s3.(distanceSessions := map[], distanceCalls := [RestartStopping(k, near), SwitchingToTime(k, timed)]);
    var s5 := s4.(distanceCalls := [SwitchingToTime(k, timed), RestartStarting(k, near)]);
    var s6 := s5.(distanceCalls := [RestartStarting(k, near)], sessions := map[k := timed],
                  engine := Running(timed), awaiting := multiset{k});
    var s7 := s6.(distanceCalls := [], distanceSessions := map[k := near], responses := [k, k]);
    RestartBegins(k, near);
    SwitchOvertakes(k, near, timed, s3, s4, s5, s6, s7);
    var answer := DistanceCallback(0, true);
    states, commands := Prefix(k, near), [Start(k, near), answer, Update(k, near)];
    RunGoesOn(states, commands, Update(k, timed), s4, answer, s5, answer, s6);
    states, commands := states + [s4, s5, s6], commands + [Update(k, timed), answer, answer];
    RunExtends(states, commands, answer, s7);
    states, commands := states + [s7], commands + [answer];
  }

  lemma SwitchOvertakes(k: Key, near: Options, timed: TimeOptions, s3: Mux, s4: Mux, s5: Mux, s6: Mux, s7: Mux)
    requires near.minDistance > 0 && timed.minInterval >= 100
    requires s3 == Begun(k, near, [RestartStopping(k, near)])
    requires s4 == s3.(distanceSessions := map[],
                       distanceCalls := [RestartStopping(k, near), SwitchingToTime(k, timed)])
    requires s5 == s4.(distanceCalls := [SwitchingToTime(k, timed), RestartStarting(k, near)])
    requires s6 == s5.(distanceCalls := [RestartStarting(k, near)], sessions := map[k := timed],
                       engine := Running(timed), awaiting := multiset{k})
    requires s7 == s6.(distanceCalls := [], distanceSessions := map[k := near], responses := [k, k])
    ensures StepRel(100, true, s3, Update(k, timed), s4) && StepRel(100, true, s4, DistanceCallback(0, true), s5)
    ensures StepRel(100, true, s5, DistanceCallback(0, true), s6)
    ensures StepRel(100, true, s6, DistanceCallback(0, true), s7)
  {
    assert s3.distanceSessions - {k} == map[] && s3.distanceCalls + [SwitchingToTime(k, timed)] == s4.distanceCalls;
    assert s4.distanceCalls[..0] + s4.distanceCalls[1..] + [RestartStarting(k, near)] == s5.distanceCalls;
    assert s5.distanceCalls == [SwitchingToTime(k, timed)] + [RestartStarting(k, near)];
    SwitchAnswered(k, timed, [RestartStarting(k, near)], s5, s6);
    assert s6.distanceCalls[..0] + s6.distanceCalls[1..] == [] && [k] + [k] == [k, k];
  }

  /** The session is turned into a time-based one while its restart is under way, and stopped while the
      switch is: the answer to the stop takes the time-based session out of the list, and the engine is
      left running. Every call succeeds and is answered in the order it was made. */
  lemma EngineLeftRunning(k: Key, near: Options, timed: TimeOptions) returns (states: seq<Mux>, commands: seq<Command>)
    requires near.minDistance > 0 && near.minInterval >= 100 && timed.minInterval >= 100
    ensures var answer := DistanceCallback(0, true);
      commands == [Start(k, near), answer, Update(k, near), answer, Update(k, timed), answer, Stop(k), answer, answer]
    ensures IsRun(100, true, states, commands) && TakesLastSilently(states[8], commands[8])
    ensures states[9].engine == Running(timed) && states[9].sessions == map[] && states[9].distanceCalls == []
  {
    var s3, s4 := Begun(k, near, [RestartStopping(k, near)]), Begun(k, near, [RestartStarting(k, near)]);
    var s5 := s4.(distanceSessions := map[], distanceCalls := [RestartStarting(k, near), SwitchingToTime(k, timed)]);
    var s6 := s5.(distanceSessions := map[k := near], distanceCalls := [SwitchingToTime(k, timed)],
                  responses := [k, k]);
    var s7 := s6.(distanceCalls := [SwitchingToTime(k, timed), Stopping(k)]);
    var s8 := s7.(distanceCalls := [Stopping(k)], sessions := map[k := timed], engine := Running(timed),
                  awaiting := multiset{k});
    var s9 := s8.(distanceCalls := [], sessions := map[], responses := [k, k, k]);
    RestartBegins(k, near);
    RestartGoesOn(k, near, timed, s3, s4, s5, s6, s7);
    SwitchThenStop(k, timed, s7, s8, s9);
    var answer := DistanceCallback(0, true);
    states, commands := Prefix(k, near), [Start(k, near), answer, Update(k, near)];
    RunGoesOn(states, commands, answer, s4, Update(k, timed), s5, answer, s6);
    states, commands := states + [s4, s5, s6], commands + [answer, Update(k, timed), answer];
    RunGoesOn(states, commands, Stop(k), s7, answer, s8, answer, s9);
    states, commands := states + [s7, s8, s9], commands + [Stop(k), answer, answer];
  }

  lemma SwitchThenStop(k: Key, timed: TimeOptions, s7: Mux, s8: Mux, s9: Mux)
    requires s7.sessions == map[] && !s7.nHzNeeded && s7.awaiting == multiset{} && s7.responses == [k, k]
    requires s7.distanceCalls == [SwitchingToTime(k, timed), Stopping(k)]
    requires s8 == s7.(distanceCalls := [Stopping(k)], sessions := map[k := timed], engine := Running(timed),
                       awaiting := multiset{k})
    requires s9 == s8.(distanceCalls := [], sessions := map[], responses := [k, k, k])
    ensures StepRel(100, true, s7, DistanceCallback(0, true), s8)
    ensures StepRel(100, true, s8, DistanceCallback(0, true), s9) && TakesLastSilently(s8, DistanceCallback(0, true))
  {
    assert s7.distanceCalls == [SwitchingToTime(k, timed)] + [Stopping(k)];
    SwitchAnswered(k, timed, [Stopping(k)], s7, s8);
    assert s8.distanceCalls[..0] + s8.distanceCalls[1..] == [] && s8.sessions - {k} == map[];
    assert [k, k] + [k] == [k, k, k];
  }

  lemma RestartGoesOn(k: Key, near: Options, timed: TimeOptions, s3: Mux, s4: Mux, s5: Mux, s6: Mux, s7: Mux)
    requires near.minDistance > 0 && timed.minInterval >= 100
    requires s3 == Begun(k, near, [RestartStopping(k, near)]) && s4 == Begun(k, near, [RestartStarting(k, near)])
    requires s5 == s4.(distanceSessions := map[],
                       distanceCalls := [RestartStarting(k, near), SwitchingToTime(k, timed)])
    requires s6 == s5.(distanceSessions := map[k := near], distanceCalls := [SwitchingToTime(k, timed)],
                       responses := [k, k])
    requires s7 == s6.(distanceCalls := [SwitchingToTime(k, timed), Stopping(k)])
    ensures StepRel(100, true, s3, DistanceCallback(0, true), s4) && StepRel(100, true, s4, Update(k, timed), s5)
    ensures StepRel(100, true, s5, DistanceCallback(0, true), s6) && StepRel(100, true, s6, Stop(k), s7)
  {
    assert s3.distanceCalls[..0] + s3.distanceCalls[1..] + [RestartStarting(k, near)] == s4.distanceCalls;
    assert s4.distanceSessions - {k} == map[] && s4.distanceCalls + [SwitchingToTime(k, timed)] == s5.distanceCalls;
    assert s5.distanceCalls[..0] + s5.distanceCalls[1..] == [SwitchingToTime(k, timed)] && [k] + [k] == [k, k];
    assert s6.distanceCalls + [Stopping(k)] == s7.distanceCalls;
  }
}
