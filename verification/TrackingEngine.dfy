/** When the shared engine session runs, and how fast after it was restarted. */
module TrackingEngine {
  import opened TrackingModel

  // ---------------------------------------------------------------- the engine runs for the sessions

  /** The engine runs if there is a time-based session. */
  predicate Runs(s: Mux) {
    s.sessions != map[] ==> s.engine.Running?
  }

  /** The command stops the engine although time-based sessions stay listed: it suspends them, or it asks
      for a distance for the only one, and the engine has no distance tracking. */
  predicate StopsEngine(supported: bool, s: Mux, c: Command) {
    || (c.Suspend? && s.sessions != map[])
    || (UnsupportedSwitch(supported, s, c) && s.sessions.Keys == {c.k})
  }

  /** Only a running engine is flagged as already at the highest rate. */
  predicate FlagInv(s: Mux) {
    s.alreadyHighest ==> s.engine.Running?
  }

  ghost predicate EngineInv(minTracking: nat, supported: bool, s: Mux) {
    FlagInv(s) && DistanceInv(minTracking, supported, s)
  }

  predicate SameDistances(s: Mux, s': Mux) {
    && s'.distanceSessions == s.distanceSessions && s'.distanceCalls == s.distanceCalls
    && s'.nHzNeeded == s.nHzNeeded
  }

  lemma StartKeepsRunning(minTracking: nat, s: Mux, k: Key, o: Options, s': Mux)
    requires FlagInv(s) && StartRel(minTracking, s, k, o, s')
    ensures FlagInv(s') && SameDistances(s, s') && (Runs(s) ==> Runs(s'))
  {
  }

  lemma UpdateKeepsRunning(minTracking: nat, s: Mux, k: Key, o: Options, s': Mux)
    requires FlagInv(s) && k in s.sessions && UpdateRel(minTracking, s, k, o, s')
    ensures FlagInv(s') && SameDistances(s, s') && (Runs(s) ==> Runs(s'))
  {
  }

  lemma StopKeepsRunning(minTracking: nat, s: Mux, k: Key, s': Mux)
    requires FlagInv(s) && k in s.sessions && StopRel(minTracking, s, k, s')
    ensures FlagInv(s') && SameDistances(s, s') && s'.sessions == s.sessions - {k}
    ensures Runs(s) && s.sessions.Keys != {k} ==> s'.engine.Running?
    ensures s.sessions.Keys == {k} ==> s'.engine.Stopped? && s'.sessions == map[]
  {
    assert s.sessions.Keys == {k} ==> s.sessions - {k} == map[];
  }

  lemma SwitchRunsExactly(minTracking: nat, supported: bool, s: Mux, k: Key, o: Options, s': Mux)
    requires FlagInv(s) && k in s.sessions && SwitchRel(minTracking, supported, s, k, o, s')
    ensures FlagInv(s') && s'.distanceCalls == s.distanceCalls && s'.nHzNeeded == s.nHzNeeded
    ensures s'.distanceSessions != map[] ==> supported || s.distanceSessions != map[]
    ensures Runs(s) ==> (Runs(s') <==> supported || s.sessions.Keys != {k})
  {
    var mid := SwitchStops(minTracking, supported, s, k, o, s');
    StopKeepsRunning(minTracking, s, k, mid);
    assert !supported ==> k in s'.sessions;
  }

  lemma ErasedKeepsEngine(minTracking: nat, supported: bool, s: Mux, k: Key)
    requires EngineInv(minTracking, supported, s)
    ensures EngineInv(minTracking, supported, Erased(s, k)) && (Runs(s) ==> Runs(Erased(s, k)))
  {
    assert k !in s.distanceSessions ==> s.distanceSessions - {k} == s.distanceSessions;
    assert s.sessions == map[] ==> s.sessions - {k} == map[];
  }

  lemma UpdateAnyRuns(minTracking: nat, supported: bool, s: Mux, k: Key, o: Options, s': Mux)
    requires EngineInv(minTracking, supported, s) && (k in s.sessions || k in s.distanceSessions)
    requires minTracking <= o.minInterval && UpdateAnyRel(minTracking, supported, s, k, o, s')
    ensures EngineInv(minTracking, supported, s') && s'.nHzNeeded == s.nHzNeeded
    ensures Runs(s) ==> (Runs(s') <==> !StopsEngine(supported, s, Update(k, o)))
  {
    if k in s.sessions && o.minDistance > 0 {
      SwitchRunsExactly(minTracking, supported, s, k, o, s');
    } else if k in s.distanceSessions && o.minDistance == 0 {
      ErasedKeepsEngine(minTracking, supported, s, k);
    } else if k in s.sessions {
      UpdateKeepsRunning(minTracking, s, k, o, s');
    }
  }

  lemma CallbackRuns(minTracking: nat, supported: bool, rest: Mux, c: DistanceCall, ok: bool, s': Mux)
    requires EngineInv(minTracking, supported, rest) && CallbackRel(minTracking, supported, rest, c, ok, s')
    requires c.RestartStopping? || c.RestartStarting? ==> supported && c.o.minDistance > 0
    ensures EngineInv(minTracking, supported, s') && s'.nHzNeeded == rest.nHzNeeded && (Runs(rest) ==> Runs(s'))
  {
    match c
    case SwitchingToTime(k, o) => StartKeepsRunning(minTracking, rest, k, o, s');
    case _ => ErasedKeepsEngine(minTracking, supported, rest, c.k);
  }

  lemma WithoutCallKeepsEngine(minTracking: nat, supported: bool, s: Mux, i: nat)
    requires EngineInv(minTracking, supported, s) && i < |s.distanceCalls|
    ensures EngineInv(minTracking, supported, WithoutCall(s, i))
  {
    assert forall d :: d in WithoutCall(s, i).distanceCalls ==> d in s.distanceCalls;
  }

  /** A command leaves the engine running for the time-based sessions, if and only if it is not one that
      stops the engine. */
  lemma StepRunsExactly(minTracking: nat, supported: bool, s: Mux, c: Command, s': Mux)
    requires EngineInv(minTracking, supported, s) && StepRel(minTracking, supported, s, c, s')
    ensures EngineInv(minTracking, supported, s') && s'.nHzNeeded == if c.SetNHz? then c.needed else s.nHzNeeded
    ensures Runs(s) ==> (Runs(s') <==> !StopsEngine(supported, s, c))
    ensures Restarts(s, c) ==> Runs(s')
  {
    match c
    case Start(k, o) => StartAnyRuns(minTracking, supported, s, k, o, s');
    case Update(k, o) => UpdateAnyRuns(minTracking, supported, s, k, o, s');
    case Stop(k) => StopAnyRuns(minTracking, supported, s, k, s');
    case DistanceCallback(i, ok) => DistanceCallbackRuns(minTracking, supported, s, i, ok, s');
    case _ => EngineCommandRuns(minTracking, supported, s, c, s');
  }

  lemma StartAnyRuns(minTracking: nat, supported: bool, s: Mux, k: Key, o: Options, s': Mux)
    requires EngineInv(minTracking, supported, s) && StepRel(minTracking, supported, s, Start(k, o), s')
    ensures EngineInv(minTracking, supported, s') && s'.nHzNeeded == s.nHzNeeded && (Runs(s) ==> Runs(s'))
  {
    if !(o.minDistance > 0 && supported) { StartKeepsRunning(minTracking, s, k, o, s'); }
  }

  lemma StopAnyRuns(minTracking: nat, supported: bool, s: Mux, k: Key, s': Mux)
    requires EngineInv(minTracking, supported, s) && StepRel(minTracking, supported, s, Stop(k), s')
    ensures EngineInv(minTracking, supported, s') && s'.nHzNeeded == s.nHzNeeded && (Runs(s) ==> Runs(s'))
  {
    if k in s.sessions { StopKeepsRunning(minTracking, s, k, s'); }
  }

  lemma EngineCommandRuns(minTracking: nat, supported: bool, s: Mux, c: Command, s': Mux)
    requires EngineInv(minTracking, supported, s) && StepRel(minTracking, supported, s, c, s')
    requires c.Suspend? || c.Resume? || c.SetNHz? || c.EngineCallback?
    ensures EngineInv(minTracking, supported, s') && s'.nHzNeeded == if c.SetNHz? then c.needed else s.nHzNeeded
    ensures Runs(s) ==> (Runs(s') <==> !StopsEngine(supported, s, c))
    ensures Restarts(s, c) ==> Runs(s')
  {
    match c
    case Resume => RestartRelRuns(minTracking, s, s');
    case SetNHz(needed) => if needed != s.nHzNeeded { RestartRelRuns(minTracking, s.(nHzNeeded := needed), s'); }
    case _ =>
  }

  lemma DistanceCallbackRuns(minTracking: nat, supported: bool, s: Mux, i: nat, ok: bool, s': Mux)
    requires EngineInv(minTracking, supported, s) && i < |s.distanceCalls|
    requires CallbackRel(minTracking, supported, WithoutCall(s, i), s.distanceCalls[i], ok, s')
    ensures EngineInv(minTracking, supported, s') && s'.nHzNeeded == s.nHzNeeded && (Runs(s) ==> Runs(s'))
  {
    assert s.distanceCalls[i] in s.distanceCalls;
    WithoutCallKeepsEngine(minTracking, supported, s, i);
    CallbackRuns(minTracking, supported, WithoutCall(s, i), s.distanceCalls[i], ok, s');
  }

  lemma RestartRelRuns(minTracking: nat, s: Mux, s': Mux)
    requires RestartRel(minTracking, s, s')
    ensures FlagInv(s') && SameDistances(s, s') && Runs(s')
  {
  }

  // ---------------------------------------------------------------- restarts

  /** The command starts the engine anew for all sessions. */
  predicate Restarts(s: Mux, c: Command) {
    c == Resume || (c.SetNHz? && c.needed != s.nHzNeeded)
  }

  /** At the minimum tracking interval while N-Hz is needed, and else at the smallest interval asked for. */
  ghost predicate RunsAtTheMinimum(minTracking: nat, s: Mux) {
    s.engine.Running? &&
    if s.nHzNeeded then s.engine.options.minInterval == minTracking
    else IsMinInterval(s.sessions, s.engine.options.minInterval)
  }

  /** After a restart the engine runs exactly as fast as the sessions need: at the minimum tracking interval
      while N-Hz is needed, and otherwise at the smallest interval of the sessions. */
  lemma RestartRunsExactly(minTracking: nat, supported: bool, s: Mux, c: Command, s': Mux)
    requires MuxInv(minTracking, supported, s) && StepRel(minTracking, supported, s, c, s') && Restarts(s, c)
    ensures s'.sessions == s.sessions && s'.nHzNeeded == if c.SetNHz? then c.needed else s.nHzNeeded
    ensures s.sessions == map[] ==> s'.engine == s.engine
    ensures s.sessions != map[] ==> RunsAtTheMinimum(minTracking, s')
  {
    var before := if c.SetNHz? then s.(nHzNeeded := c.needed) else s;
    RestartKeepsInv(minTracking, supported, before, s');
  }

  /** Whatever the engine ran at, suspending stops it, keeps the sessions, and resuming runs it for them. */
  lemma SuspendThenResume(minTracking: nat, supported: bool, s: Mux, mid: Mux, s': Mux)
    requires MuxInv(minTracking, supported, s) && s.sessions != map[]
    requires StepRel(minTracking, supported, s, Suspend, mid) && StepRel(minTracking, supported, mid, Resume, s')
    ensures mid.engine.Stopped? && mid.sessions == s'.sessions == s.sessions
    ensures s'.nHzNeeded == s.nHzNeeded && RunsAtTheMinimum(minTracking, s')
  {
    StepKeepsInv(minTracking, supported, s, Suspend, mid);
    RestartRunsExactly(minTracking, supported, mid, Resume, s');
  }

  /** Once a restart has put the engine at the minimum tracking interval for N-Hz, a session that starts makes
      no further engine call: it is answered at once. */
  lemma QuietAtHighest(minTracking: nat, supported: bool, s: Mux, c: Command, mid: Mux, k: Key, o: Options, s': Mux)
    requires StepRel(minTracking, supported, s, c, mid) && Restarts(s, c) && mid.nHzNeeded
    requires s.sessions != map[] && forall j :: j in s.sessions ==> minTracking < s.sessions[j].minInterval
    requires StepRel(minTracking, supported, mid, Start(k, o), s') && !(o.minDistance > 0 && supported)
    ensures s'.engine == mid.engine && s'.awaiting == mid.awaiting && s'.responses == mid.responses + [k]
    ensures s'.sessions == mid.sessions[k := o]
  {
    assert mid.alreadyHighest;
  }

  // ---------------------------------------------------------------- over runs

  lemma RunPrefix(minTracking: nat, supported: bool, states: seq<Mux>, commands: seq<Command>, n: nat)
    requires IsRun(minTracking, supported, states, commands) && n <= |commands|
    ensures IsRun(minTracking, supported, states[..n + 1], commands[..n]) && states[..n + 1][n] == states[n]
    ensures n < |commands| ==> StepRel(minTracking, supported, states[n], commands[n], states[n + 1])
  {
  }

  /** Whether N-Hz is needed, as the commands have said last. */
  function LatestNHz(commands: seq<Command>): bool {
    if commands == [] then false
    else
      match commands[|commands| - 1]
      case SetNHz(needed) => needed
      case _ => LatestNHz(commands[..|commands| - 1])
  }

  lemma {:induction false} EngineInvOverRuns(minTracking: nat, supported: bool, states: seq<Mux>,
                                             commands: seq<Command>)
    requires IsRun(minTracking, supported, states, commands)
    ensures var s := states[|commands|];
      EngineInv(minTracking, supported, s) && s.nHzNeeded == LatestNHz(commands)
  {
    if commands != [] {
      var n := |commands| - 1;
      RunPrefix(minTracking, supported, states, commands, n);
      EngineInvOverRuns(minTracking, supported, states[..n + 1], commands[..n]);
      StepRunsExactly(minTracking, supported, states[n], commands[n], states[n + 1]);
    }
  }

  lemma MomentOfRun(minTracking: nat, supported: bool, states: seq<Mux>, commands: seq<Command>, n: nat)
    requires IsRun(minTracking, supported, states, commands) && n <= |commands|
    ensures EngineInv(minTracking, supported, states[n])
    ensures n < |commands| ==> StepRel(minTracking, supported, states[n], commands[n], states[n + 1])
  {
    RunPrefix(minTracking, supported, states, commands, n);
    EngineInvOverRuns(minTracking, supported, states[..n + 1], commands[..n]);
  }

  lemma MomentRuns(minTracking: nat, supported: bool, states: seq<Mux>, commands: seq<Command>, n: nat)
    requires IsRun(minTracking, supported, states, commands) && n < |commands|
    ensures Runs(states[n]) ==> (Runs(states[n + 1]) <==> !StopsEngine(supported, states[n], commands[n]))
    ensures Restarts(states[n], commands[n]) ==> Runs(states[n + 1])
  {
    MomentOfRun(minTracking, supported, states, commands, n);
    StepRunsExactly(minTracking, supported, states[n], commands[n], states[n + 1]);
  }

  lemma {:induction false} GoesOnRunning(states: seq<Mux>, i: nat, j: nat)
    requires i <= j < |states| && Runs(states[i])
    requires forall k :: i <= k < j && Runs(states[k]) ==> Runs(states[k + 1])
    ensures Runs(states[j])
    decreases j - i
  {
    if i < j { GoesOnRunning(states, i, j - 1); }
  }

  /** From the start, from a restart, and from any other moment at which it runs: the engine runs for the
      time-based sessions at every later moment, until a command stops it. */
  lemma EngineRunsSince(minTracking: nat, supported: bool, states: seq<Mux>, commands: seq<Command>, i: nat, j: nat)
    requires IsRun(minTracking, supported, states, commands) && i <= j <= |commands|
    requires i == 0 || Restarts(states[i - 1], commands[i - 1]) || Runs(states[i])
    requires forall k :: i <= k < j ==> !StopsEngine(supported, states[k], commands[k])
    ensures Runs(states[j])
  {
    if i > 0 { MomentRuns(minTracking, supported, states, commands, i - 1); }
    forall k | i <= k < j && Runs(states[k]) ensures Runs(states[k + 1]) {
      MomentRuns(minTracking, supported, states, commands, k);
    }
    GoesOnRunning(states, i, j);
  }

  /** And a command that stops it leaves it stopped with sessions listed. */
  lemma StoppedBy(minTracking: nat, supported: bool, states: seq<Mux>, commands: seq<Command>, k: nat)
    requires IsRun(minTracking, supported, states, commands) && k < |commands|
    requires Runs(states[k]) && StopsEngine(supported, states[k], commands[k])
    ensures states[k + 1].engine.Stopped? && states[k + 1].sessions != map[]
  {
    MomentRuns(minTracking, supported, states, commands, k);
  }

  ghost predicate AllSwitchesSafe(supported: bool, states: seq<Mux>, commands: seq<Command>)
    requires |states| == |commands| + 1
  {
    forall i :: 0 <= i < |commands| && UnsupportedSwitch(supported, states[i], commands[i]) ==>
      SafeSwitch(states[i], commands[i].k, commands[i].o)
  }

  lemma SafeBefore(supported: bool, states: seq<Mux>, commands: seq<Command>, n: nat)
    requires |states| == |commands| + 1 && n <= |commands| && AllSwitchesSafe(supported, states, commands)
    ensures AllSwitchesSafe(supported, states[..n + 1], commands[..n])
  {
  }

  /** Over every run with safe switches: after a command that restarts the engine with sessions listed, it
      runs, at the minimum tracking interval if N-Hz was asked for last, and else at the smallest interval. */
  lemma RestartOverRuns(minTracking: nat, supported: bool, states: seq<Mux>, commands: seq<Command>)
    requires IsRun(minTracking, supported, states, commands) && commands != []
    requires AllSwitchesSafe(supported, states, commands)
    requires Restarts(states[|commands| - 1], commands[|commands| - 1])
    ensures var s := states[|commands|];
      s.nHzNeeded == LatestNHz(commands) && (s.sessions != map[] ==> RunsAtTheMinimum(minTracking, s))
  {
    var n := |commands| - 1;
    var before, first := states[..n + 1], commands[..n];
    RunPrefix(minTracking, supported, states, commands, n);
    EngineInvOverRuns(minTracking, supported, states, commands);
    SafeBefore(supported, states, commands, n);
    EngineCoversEverySession(minTracking, supported, before, first);
    RestartRunsExactly(minTracking, supported, states[n], commands[n], states[n + 1]);
  }
}
