/** Many time-based tracking sessions share one engine session. Each handler is a relation between
    the multiplexer before and after it: the map of sessions has no order that matters, except to the
    multiplexed power mode and quality. These decide whether the engine is called; about the mode and quality
    that the engine is then given nothing is claimed. */
module TrackingModel {

  datatype Key = Key(client: int, id: int)

  const GNSS_POWER_MODE_INVALID := 0

  datatype Options = Options(minInterval: nat, minDistance: nat, powerMode: int, quality: int, tbm: nat)

  datatype Engine = Stopped | Running(options: Options)

  /** The options of a session that asks for no distance. */
  type TimeOptions = o: Options | o.minDistance == 0 witness Options(0, 0, 0, 0, 0)

  /** A call about a distance-based session whose callback is outstanding. */
  datatype DistanceCall =
    | Starting(k: Key)
    | Stopping(k: Key)
    | SwitchingToTime(k: Key, timed: TimeOptions)
    | RestartStopping(k: Key, o: Options)
    | RestartStarting(k: Key, o: Options)

  datatype Mux = Mux(
    sessions: map<Key, Options>,
    distanceSessions: map<Key, Options>,
    distanceCalls: seq<DistanceCall>,
    nHzNeeded: bool,
    alreadyHighest: bool,
    engine: Engine,
    responses: seq<Key>,
    awaiting: multiset<Key>)

  datatype Command =
    | Start(k: Key, o: Options)
    | Update(k: Key, o: Options)
    | Stop(k: Key)
    | Suspend
    | Resume
    | SetNHz(needed: bool)
    | EngineCallback(k: Key)
    | DistanceCallback(i: nat, ok: bool)

  const INITIAL_MUX := Mux(map[], map[], [], false, false, Stopped, [], multiset{})

  datatype Responder = NoOne | Client(k: Key)

  ghost predicate IsMinInterval(sessions: map<Key, Options>, v: nat) {
    && (exists k :: k in sessions && sessions[k].minInterval == v)
    && (forall k :: k in sessions ==> v <= sessions[k].minInterval)
  }

  /** The smallest interval of the sessions and of one more. */
  ghost predicate IsMinWith(sessions: map<Key, Options>, v: nat, t: nat) {
    && t <= v && (forall k :: k in sessions ==> t <= sessions[k].minInterval)
    && (t == v || exists k :: k in sessions && sessions[k].minInterval == t)
  }

  function Awaits(s: Mux, r: Responder): multiset<Key> {
    if r.NoOne? then s.awaiting else s.awaiting + multiset{r.k}
  }

  function Answers(s: Mux, r: Responder): seq<Key> {
    if r.NoOne? then s.responses else s.responses + [r.k]
  }

  /** Asks the engine for interval t. While N-Hz is needed the engine runs at the minimum tracking
      interval, and no call is made when it is flagged as already doing so. */
  ghost predicate EngineStart(minTracking: nat, s: Mux, t: nat, r: Responder, s': Mux) {
    if s.nHzNeeded && s.alreadyHighest then
      s' == s.(responses := Answers(s, r))
    else
      && s'.engine.Running?
      && s'.engine.options.minInterval == (if s.nHzNeeded && t > minTracking then minTracking else t)
      && s' == s.(engine := s'.engine, awaiting := Awaits(s, r),
                  alreadyHighest := s.alreadyHighest || (s.nHzNeeded && t > minTracking))
  }

  function Answered(s: Mux, k: Key): Mux {
    s.(responses := s.responses + [k])
  }

  /** The engine is left alone and the client is answered at once. */
  ghost predicate AnsweredAtOnce(s: Mux, k: Key, s': Mux) {
    s' == Answered(s, k)
  }

  /** The power mode that a search for the lowest one ends with. An invalid mode counts as none found
      yet, so with one among the sessions it may be that of any of them, depending on the order. */
  ghost predicate IsLowestMode(sessions: map<Key, Options>, p: int) {
    && (exists k :: k in sessions && sessions[k].powerMode == p)
    && (AllModesValid(sessions) ==> forall k :: k in sessions ==> p <= sessions[k].powerMode)
  }

  predicate AllModesValid(sessions: map<Key, Options>) {
    forall k :: k in sessions ==> sessions[k].powerMode != GNSS_POWER_MODE_INVALID
  }

  /** A quality that a search for the highest one may end with: the search starts anew at every session with
      a smaller interval, so it may be that of any session, depending on the order. */
  ghost predicate IsSomeQuality(sessions: map<Key, Options>, q: int) {
    exists k :: k in sessions && sessions[k].quality == q
  }

  /** The engine is called for the session if and only if it is faster than all others, below the power mode
      of the others, or above their quality. */
  predicate StartCalls(sessions: map<Key, Options>, o: Options, p: int, q: int) {
    (forall j :: j in sessions ==> o.minInterval < sessions[j].minInterval) || o.powerMode < p || o.quality > q
  }

  /** t is the smallest interval asked for, the new session included, p and q the power mode and quality of
      the others; `mid` is what the multiplexing leaves before the session is saved. */
  ghost predicate StartWith(minTracking: nat, s: Mux, k: Key, o: Options, t: nat, p: int, q: int, mid: Mux) {
    && IsMinWith(s.sessions, o.minInterval, t)
    && (s.sessions != map[] ==> IsLowestMode(s.sessions, p) && IsSomeQuality(s.sessions, q))
    && if StartCalls(s.sessions, o, p, q) then EngineStart(minTracking, s, t, Client(k), mid)
       else AnsweredAtOnce(s, k, mid)
  }

  ghost predicate StartCall(minTracking: nat, s: Mux, k: Key, o: Options, mid: Mux) {
    exists t: nat, p: int, q: int :: StartWith(minTracking, s, k, o, t, p, q, mid)
  }

  ghost predicate StartRel(minTracking: nat, s: Mux, k: Key, o: Options, s': Mux) {
    exists t: nat, p: int, q: int, mid: Mux ::
      StartWith(minTracking, s, k, o, t, p, q, mid) && s' == mid.(sessions := s.sessions[k := o])
  }

  /** The engine is called for the update if and only if interval or power mode change, and the session is then
      faster than all others or below their power mode; if there are no others, the change is enough. */
  predicate UpdateCalls(sessions: map<Key, Options>, k: Key, o: Options, p: int)
    requires k in sessions
  {
    && (sessions[k].minInterval != o.minInterval || sessions[k].powerMode != o.powerMode)
    && ((forall j :: j in sessions && j != k ==> o.minInterval < sessions[j].minInterval) || o.powerMode < p)
  }

  /** t is the smallest interval after the update, p the power mode of the others. */
  ghost predicate UpdateWith(minTracking: nat, s: Mux, k: Key, o: Options, t: nat, p: int, mid: Mux)
    requires k in s.sessions
  {
    && IsMinInterval(s.sessions[k := o], t)
    && (s.sessions - {k} != map[] ==> IsLowestMode(s.sessions - {k}, p))
    && if UpdateCalls(s.sessions, k, o, p) then EngineStart(minTracking, s, t, Client(k), mid)
       else AnsweredAtOnce(s, k, mid)
  }

  ghost predicate UpdateCall(minTracking: nat, s: Mux, k: Key, o: Options, mid: Mux)
    requires k in s.sessions
  {
    exists t: nat, p: int :: UpdateWith(minTracking, s, k, o, t, p, mid)
  }

  ghost predicate UpdateRel(minTracking: nat, s: Mux, k: Key, o: Options, s': Mux)
    requires k in s.sessions
  {
    exists t: nat, p: int, mid: Mux ::
      UpdateWith(minTracking, s, k, o, t, p, mid) && s' == mid.(sessions := s.sessions[k := o])
  }

  /** t and p are the smallest interval and the power mode of the sessions that remain. The engine is
      called if and only if the session that stops was below one of them. */
  ghost predicate StopWith(minTracking: nat, s: Mux, k: Key, t: nat, p: int, mid: Mux)
    requires k in s.sessions
  {
    && IsMinInterval(s.sessions - {k}, t) && IsLowestMode(s.sessions - {k}, p)
    && if s.sessions[k].minInterval < t || s.sessions[k].powerMode < p
       then EngineStart(minTracking, s, t, Client(k), mid)
       else AnsweredAtOnce(s, k, mid)
  }

  ghost predicate StopRel(minTracking: nat, s: Mux, k: Key, s': Mux)
    requires k in s.sessions
  {
    if s.sessions.Keys == {k} then
      s' == s.(sessions := map[], engine := Stopped, alreadyHighest := false, awaiting := s.awaiting + multiset{k})
    else
      exists t: nat, p: int, mid: Mux ::
        StopWith(minTracking, s, k, t, p, mid) && s' == mid.(sessions := s.sessions - {k})
  }

  /** Turning a time-based session into a distance-based one: it is stopped, then saved. When the
      engine has no distance tracking, it is saved back among the time-based sessions. */
  ghost predicate SwitchRel(minTracking: nat, supported: bool, s: Mux, k: Key, o: Options, s': Mux)
    requires k in s.sessions
  {
    exists mid: Mux :: StopRel(minTracking, s, k, mid) &&
      s' == if supported then mid.(distanceSessions := mid.distanceSessions[k := o])
            else mid.(sessions := mid.sessions[k := o])
  }

  ghost predicate RestartRel(minTracking: nat, s: Mux, s': Mux) {
    var off := s.(alreadyHighest := false);
    if s.sessions == map[] then s' == off
    else exists t: nat :: IsMinInterval(s.sessions, t) && EngineStart(minTracking, off, t, NoOne, s')
  }

  ghost predicate SuspendRel(s: Mux, s': Mux) {
    s' == if s.sessions == map[] then s else s.(engine := Stopped, alreadyHighest := false)
  }

  /** Erasing looks for a time-based session first, and leaves the engine alone. */
  function Erased(s: Mux, k: Key): Mux {
    if k in s.sessions then s.(sessions := s.sessions - {k}) else s.(distanceSessions := s.distanceSessions - {k})
  }

  function Saved(supported: bool, s: Mux, k: Key, o: Options): Mux {
    if o.minDistance > 0 && supported then s.(distanceSessions := s.distanceSessions[k := o])
    else s.(sessions := s.sessions[k := o])
  }

  function Calls(s: Mux, c: DistanceCall): Mux {
    s.(distanceCalls := s.distanceCalls + [c])
  }

  /** The update of a session: which of four things it is depends on where the session is listed. */
  ghost predicate UpdateAnyRel(minTracking: nat, supported: bool, s: Mux, k: Key, o: Options, s': Mux)
    requires k in s.sessions || k in s.distanceSessions
  {
    if k in s.sessions && o.minDistance > 0 then SwitchRel(minTracking, supported, s, k, o, s')
    else if k in s.distanceSessions && o.minDistance == 0 then s' == Calls(Erased(s, k), SwitchingToTime(k, o))
    else if k in s.sessions then UpdateRel(minTracking, s, k, o, s')
    else s' == Calls(s, RestartStopping(k, o))
  }

  ghost predicate StopAnyRel(minTracking: nat, s: Mux, k: Key, s': Mux)
    requires k in s.sessions || k in s.distanceSessions
  {
    if k in s.sessions then StopRel(minTracking, s, k, s') else s' == Calls(s, Stopping(k))
  }

  /** The callback of a distance call; `rest` is the multiplexer without the call. Whether a switch to
      time was stopped is not looked at; a restart whose stop fails ends there. */
  ghost predicate CallbackRel(minTracking: nat, supported: bool, rest: Mux, c: DistanceCall, ok: bool, s': Mux) {
    match c
    case Starting(k) => s' == Answered(if ok then rest else Erased(rest, k), k)
    case Stopping(k) => s' == Answered(if ok then Erased(rest, k) else rest, k)
    case SwitchingToTime(k, o) => StartRel(minTracking, rest, k, o, s')
    case RestartStopping(k, o) => s' == if ok then Calls(rest, RestartStarting(k, o)) else rest
    case RestartStarting(k, o) => s' == Answered(if ok then Saved(supported, rest, k, o) else rest, k)
  }

  function WithoutCall(s: Mux, i: nat): Mux
    requires i < |s.distanceCalls|
  {
    s.(distanceCalls := s.distanceCalls[..i] + s.distanceCalls[i + 1..])
  }

  /** One step of the multiplexer, on the commands it accepts. */
  ghost predicate StepRel(minTracking: nat, supported: bool, s: Mux, c: Command, s': Mux) {
    match c
    case Start(k, o) =>
      && minTracking <= o.minInterval
      && (if o.minDistance > 0 && supported then s' == Calls(Saved(supported, s, k, o), Starting(k))
          else StartRel(minTracking, s, k, o, s'))
    case Update(k, o) =>
      && (k in s.sessions || k in s.distanceSessions) && minTracking <= o.minInterval
      && UpdateAnyRel(minTracking, supported, s, k, o, s')
    case Stop(k) => (k in s.sessions || k in s.distanceSessions) && StopAnyRel(minTracking, s, k, s')
    case Suspend => SuspendRel(s, s')
    case Resume => RestartRel(minTracking, s, s')
    case SetNHz(b) => if b == s.nHzNeeded then s' == s else RestartRel(minTracking, s.(nHzNeeded := b), s')
    case EngineCallback(k) =>
      k in s.awaiting && s' == s.(awaiting := s.awaiting - multiset{k}, responses := s.responses + [k])
    case DistanceCallback(i, ok) =>
      i < |s.distanceCalls| && CallbackRel(minTracking, supported, WithoutCall(s, i), s.distanceCalls[i], ok, s')
  }

  ghost predicate IsRun(minTracking: nat, supported: bool, states: seq<Mux>, commands: seq<Command>) {
    && |states| == |commands| + 1
    && states[0] == INITIAL_MUX
    && forall i :: 0 <= i < |commands| ==> StepRel(minTracking, supported, states[i], commands[i], states[i + 1])
  }

  // ---------------------------------------------------------------- coverage

  /** Whenever the engine runs, it runs at least as often as every session asks for. */
  ghost predicate Covered(s: Mux) {
    s.engine.Running? ==> forall k :: k in s.sessions ==> s.engine.options.minInterval <= s.sessions[k].minInterval
  }

  /** Distance-based sessions and calls are there only if the engine supports them. */
  ghost predicate DistanceInv(minTracking: nat, supported: bool, s: Mux) {
    && (s.distanceSessions != map[] ==> supported)
    && forall c :: c in s.distanceCalls ==>
      && (c.SwitchingToTime? ==> minTracking <= c.timed.minInterval)
      && (c.RestartStopping? || c.RestartStarting? ==> supported && c.o.minDistance > 0)
  }

  ghost predicate MuxInv(minTracking: nat, supported: bool, s: Mux) {
    && Covered(s)
    && (forall k :: k in s.sessions ==> minTracking <= s.sessions[k].minInterval)
    && (s.engine.Running? ==> minTracking <= s.engine.options.minInterval)
    && (s.engine.Running? && s.nHzNeeded && s.sessions != map[] ==> s.engine.options.minInterval == minTracking)
    && (s.alreadyHighest ==> s.engine.Running? && s.nHzNeeded && s.engine.options.minInterval == minTracking)
    && DistanceInv(minTracking, supported, s)
  }

  lemma EngineStartCovers(minTracking: nat, supported: bool, s: Mux, sessions: map<Key, Options>, t: nat,
                          r: Responder, mid: Mux)
    requires MuxInv(minTracking, supported, s) && minTracking <= t
    requires forall k :: k in sessions ==> t <= sessions[k].minInterval
    requires EngineStart(minTracking, s, t, r, mid)
    ensures MuxInv(minTracking, supported, mid.(sessions := sessions))
  {
  }

  lemma StartKeepsInv(minTracking: nat, supported: bool, s: Mux, k: Key, o: Options, s': Mux)
    requires MuxInv(minTracking, supported, s) && minTracking <= o.minInterval && StartRel(minTracking, s, k, o, s')
    ensures MuxInv(minTracking, supported, s')
  {
    var t: nat, p: int, q: int, mid: Mux :|
      StartWith(minTracking, s, k, o, t, p, q, mid) && s' == mid.(sessions := s.sessions[k := o]);
    if EngineStart(minTracking, s, t, Client(k), mid) {
      EngineStartCovers(minTracking, supported, s, s.sessions[k := o], t, Client(k), mid);
    }
  }

  lemma UpdateKeepsInv(minTracking: nat, supported: bool, s: Mux, k: Key, o: Options, s': Mux)
    requires MuxInv(minTracking, supported, s) && k in s.sessions && minTracking <= o.minInterval
    requires UpdateRel(minTracking, s, k, o, s')
    ensures MuxInv(minTracking, supported, s')
  {
    var t: nat, p: int, mid: Mux :|
      UpdateWith(minTracking, s, k, o, t, p, mid) && s' == mid.(sessions := s.sessions[k := o]);
    if EngineStart(minTracking, s, t, Client(k), mid) {
      EngineStartCovers(minTracking, supported, s, s.sessions[k := o], t, Client(k), mid);
    }
  }

  lemma StopKeepsInv(minTracking: nat, supported: bool, s: Mux, k: Key, s': Mux)
    requires MuxInv(minTracking, supported, s) && k in s.sessions && StopRel(minTracking, s, k, s')
    ensures MuxInv(minTracking, supported, s')
    ensures s'.distanceSessions == s.distanceSessions && s'.distanceCalls == s.distanceCalls
    ensures s'.sessions == s.sessions - {k}
  {
    if s.sessions.Keys != {k} {
      var t: nat, p: int, mid: Mux :|
      StopWith(minTracking, s, k, t, p, mid) && s' == mid.(sessions := s.sessions - {k});
      if EngineStart(minTracking, s, t, Client(k), mid) {
        EngineStartCovers(minTracking, supported, s, s.sessions - {k}, t, Client(k), mid);
      }
    } else {
      assert s.sessions - {k} == map[];
    }
  }

  lemma RestartKeepsInv(minTracking: nat, supported: bool, s: Mux, s': Mux)
    requires MuxInv(minTracking, supported, s.(nHzNeeded := false, alreadyHighest := false))
    requires RestartRel(minTracking, s, s')
    ensures MuxInv(minTracking, supported, s')
    ensures s'.sessions == s.sessions && s'.nHzNeeded == s.nHzNeeded
    ensures s.sessions != map[] && !s.nHzNeeded ==>
      s'.engine.Running? && IsMinInterval(s.sessions, s'.engine.options.minInterval)
    ensures s.sessions != map[] && s.nHzNeeded ==>
      s'.engine.Running? && s'.engine.options.minInterval == minTracking
  {
  }

  lemma ErasedKeepsInv(minTracking: nat, supported: bool, s: Mux, k: Key)
    requires MuxInv(minTracking, supported, s)
    ensures MuxInv(minTracking, supported, Erased(s, k))
  {
    assert k !in s.distanceSessions ==> s.distanceSessions - {k} == s.distanceSessions;
  }

  /** The switch of a session in an engine that has no distance tracking. */
  predicate UnsupportedSwitch(supported: bool, s: Mux, c: Command) {
    c.Update? && !supported && c.k in s.sessions && c.o.minDistance > 0
  }

  /** Stopping the session does not call the engine, in whatever order the others are looked at: some other
      session has as short an interval, and the power modes allow nothing lower. */
  predicate NeverRestarts(s: Mux, k: Key)
    requires k in s.sessions
  {
    && (exists j :: j in s.sessions && j != k && s.sessions[j].minInterval <= s.sessions[k].minInterval)
    && if AllModesValid(s.sessions - {k})
       then exists j :: j in s.sessions && j != k && s.sessions[j].powerMode <= s.sessions[k].powerMode
       else forall j :: j in s.sessions && j != k ==> s.sessions[j].powerMode <= s.sessions[k].powerMode
  }

  /** The condition under which that switch leaves every session covered, in whatever order the sessions are
      looked at: the session is the only one, or N-Hz is needed, or another session asks for as short an
      interval, or the engine is not called and runs fast enough already. */
  predicate SafeSwitch(s: Mux, k: Key, o: Options)
    requires k in s.sessions
  {
    || s.sessions.Keys == {k} || s.nHzNeeded
    || (exists j :: j in s.sessions && j != k && s.sessions[j].minInterval <= o.minInterval)
    || (NeverRestarts(s, k) && (s.engine.Running? ==> s.engine.options.minInterval <= o.minInterval))
  }

  /** What the power modes allow does not depend on the one that the search happens to end with. */
  lemma NeverRestartsMeans(s: Mux, k: Key, t: nat, p: int)
    requires k in s.sessions && NeverRestarts(s, k)
    requires IsMinInterval(s.sessions - {k}, t) && IsLowestMode(s.sessions - {k}, p)
    ensures t <= s.sessions[k].minInterval && p <= s.sessions[k].powerMode
  {
    var rest := s.sessions - {k};
    assert forall j :: j in s.sessions && j != k ==> j in rest && rest[j] == s.sessions[j];
  }

  lemma SwitchStops(minTracking: nat, supported: bool, s: Mux, k: Key, o: Options, s': Mux) returns (mid: Mux)
    requires k in s.sessions && SwitchRel(minTracking, supported, s, k, o, s')
    ensures StopRel(minTracking, s, k, mid)
    ensures s' == if supported then mid.(distanceSessions := mid.distanceSessions[k := o])
                  else mid.(sessions := mid.sessions[k := o])
  {
    mid :| StopRel(minTracking, s, k, mid) &&
      s' == if supported then mid.(distanceSessions := mid.distanceSessions[k := o])
            else mid.(sessions := mid.sessions[k := o]);
  }

  /** Any stop in a state where the switch is safe leaves the engine fast enough for the new options. */
  lemma StopIsFastEnough(minTracking: nat, s: Mux, k: Key, o: Options, mid: Mux)
    requires MuxInv(minTracking, false, s) && k in s.sessions && minTracking <= o.minInterval
    requires StopRel(minTracking, s, k, mid) && SafeSwitch(s, k, o) && s.sessions.Keys != {k}
    requires MuxInv(minTracking, false, mid) && mid.sessions == s.sessions - {k}
    ensures mid.engine.Running? ==> mid.engine.options.minInterval <= o.minInterval
    ensures mid.engine.Running? && s.nHzNeeded ==> mid.engine.options.minInterval == minTracking
    ensures mid.nHzNeeded == s.nHzNeeded
  {
    var i :| i in s.sessions.Keys && i != k;
    assert i in mid.sessions;
    var t: nat, p: int, called: Mux :|
      StopWith(minTracking, s, k, t, p, called) && mid == called.(sessions := s.sessions - {k});
    assert mid.nHzNeeded == s.nHzNeeded;
    if NeverRestarts(s, k) { NeverRestartsMeans(s, k, t, p); }
    if j :| j in s.sessions && j != k && s.sessions[j].minInterval <= o.minInterval {
      assert j in mid.sessions && mid.sessions[j] == s.sessions[j];
    }
  }

  lemma SafeSwitchCovers(minTracking: nat, s: Mux, k: Key, o: Options, s': Mux)
    requires MuxInv(minTracking, false, s) && k in s.sessions && minTracking <= o.minInterval
    requires SwitchRel(minTracking, false, s, k, o, s') && SafeSwitch(s, k, o)
    ensures MuxInv(minTracking, false, s')
  {
    var mid := SwitchStops(minTracking, false, s, k, o, s');
    StopKeepsInv(minTracking, false, s, k, mid);
    if s.sessions.Keys != {k} { StopIsFastEnough(minTracking, s, k, o, mid); }
  }

  lemma UpdateAnyKeepsInv(minTracking: nat, supported: bool, s: Mux, k: Key, o: Options, s': Mux)
    requires MuxInv(minTracking, supported, s) && (k in s.sessions || k in s.distanceSessions)
    requires minTracking <= o.minInterval && UpdateAnyRel(minTracking, supported, s, k, o, s')
    requires UnsupportedSwitch(supported, s, Update(k, o)) ==> SafeSwitch(s, k, o)
    ensures MuxInv(minTracking, supported, s')
  {
    if k in s.sessions && o.minDistance > 0 {
      if supported {
        var mid := SwitchStops(minTracking, supported, s, k, o, s');
        StopKeepsInv(minTracking, supported, s, k, mid);
      } else {
        SafeSwitchCovers(minTracking, s, k, o, s');
      }
    } else if k in s.distanceSessions && o.minDistance == 0 {
      ErasedKeepsInv(minTracking, supported, s, k);
    } else if k in s.sessions {
      UpdateKeepsInv(minTracking, supported, s, k, o, s');
    }
  }

  lemma WithoutCallKeepsInv(minTracking: nat, supported: bool, s: Mux, i: nat)
    requires MuxInv(minTracking, supported, s) && i < |s.distanceCalls|
    ensures MuxInv(minTracking, supported, WithoutCall(s, i))
  {
    assert forall d :: d in WithoutCall(s, i).distanceCalls ==> d in s.distanceCalls;
  }

  lemma CallbackKeepsInv(minTracking: nat, supported: bool, rest: Mux, c: DistanceCall, ok: bool, s': Mux)
    requires MuxInv(minTracking, supported, rest) && CallbackRel(minTracking, supported, rest, c, ok, s')
    requires c.SwitchingToTime? ==> minTracking <= c.timed.minInterval
    requires c.RestartStopping? || c.RestartStarting? ==> supported && c.o.minDistance > 0
    ensures MuxInv(minTracking, supported, s')
  {
    match c
    case Starting(k) => ErasedKeepsInv(minTracking, supported, rest, k);
    case Stopping(k) => ErasedKeepsInv(minTracking, supported, rest, k);
    case SwitchingToTime(k, o) => StartKeepsInv(minTracking, supported, rest, k, o, s');
    case _ =>
  }

  lemma StepKeepsInv(minTracking: nat, supported: bool, s: Mux, c: Command, s': Mux)
    requires MuxInv(minTracking, supported, s) && StepRel(minTracking, supported, s, c, s')
    requires UnsupportedSwitch(supported, s, c) ==> SafeSwitch(s, c.k, c.o)
    ensures MuxInv(minTracking, supported, s')
  {
    match c
    case Start(k, o) =>
      if !(o.minDistance > 0 && supported) { StartKeepsInv(minTracking, supported, s, k, o, s'); }
    case Update(k, o) => UpdateAnyKeepsInv(minTracking, supported, s, k, o, s');
    case Stop(k) => if k in s.sessions { StopKeepsInv(minTracking, supported, s, k, s'); }
    case Resume => RestartKeepsInv(minTracking, supported, s, s');
    case SetNHz(b) => if b != s.nHzNeeded { RestartKeepsInv(minTracking, supported, s.(nHzNeeded := b), s'); }
    case DistanceCallback(i, ok) =>
      assert s.distanceCalls[i] in s.distanceCalls;
      WithoutCallKeepsInv(minTracking, supported, s, i);
      CallbackKeepsInv(minTracking, supported, WithoutCall(s, i), s.distanceCalls[i], ok, s');
    case _ =>
  }

  /** Over every run, distance-based sessions included: a running engine covers every session, runs at the
      minimum tracking interval while N-Hz is needed for some session, and is so whenever it is flagged as
      already at the highest rate. Without distance tracking in the engine, a session that asks for a
      distance must be safe to switch. */
  lemma {:induction false} EngineCoversEverySession(minTracking: nat, supported: bool, states: seq<Mux>,
                                                    commands: seq<Command>)
    requires IsRun(minTracking, supported, states, commands)
    requires forall i :: 0 <= i < |commands| && UnsupportedSwitch(supported, states[i], commands[i]) ==>
      SafeSwitch(states[i], commands[i].k, commands[i].o)
    ensures MuxInv(minTracking, supported, states[|commands|])
  {
    if commands != [] {
      var n := |commands| - 1;
      EngineCoversEverySession(minTracking, supported, states[..n + 1], commands[..n]);
      StepKeepsInv(minTracking, supported, states[n], commands[n], states[n + 1]);
    }
  }

  lemma StopRestartIsExact(minTracking: nat, s: Mux, k: Key, s': Mux)
    requires k in s.sessions && StopRel(minTracking, s, k, s') && !s'.nHzNeeded
    requires s'.engine.Running? && s'.engine != s.engine
    ensures IsMinInterval(s'.sessions, s'.engine.options.minInterval)
  {
    var t: nat, p: int, mid: Mux :|
      StopWith(minTracking, s, k, t, p, mid) && s' == mid.(sessions := s.sessions - {k});
  }

  lemma StartRestartIsExact(minTracking: nat, s: Mux, k: Key, o: Options, s': Mux)
    requires StartRel(minTracking, s, k, o, s') && k !in s.sessions
    requires !s'.nHzNeeded && s'.engine.Running? && s'.engine != s.engine
    ensures IsMinInterval(s'.sessions, s'.engine.options.minInterval)
  {
    var t: nat, p: int, q: int, mid: Mux :|
      StartWith(minTracking, s, k, o, t, p, q, mid) && s' == mid.(sessions := s.sessions[k := o]);
    assert k in s'.sessions;
    if t != o.minInterval {
      var j :| j in s.sessions && s.sessions[j].minInterval == t;
      assert j in s'.sessions && s'.sessions[j] == s.sessions[j];
    }
  }

  lemma UpdateRestartIsExact(minTracking: nat, s: Mux, k: Key, o: Options, s': Mux)
    requires k in s.sessions && UpdateRel(minTracking, s, k, o, s')
    requires !s'.nHzNeeded && s'.engine.Running? && s'.engine != s.engine
    ensures IsMinInterval(s'.sessions, s'.engine.options.minInterval)
  {
    var t: nat, p: int, mid: Mux :|
      UpdateWith(minTracking, s, k, o, t, p, mid) && s' == mid.(sessions := s.sessions[k := o]);
  }

  /** The session that starts is not listed as time-based already: ids are new, and a switch to time comes
      from a distance-based session. */
  predicate StartsNew(s: Mux, c: Command) {
    && (c.Start? ==> c.k !in s.sessions)
    && (c.DistanceCallback? && c.i < |s.distanceCalls| && s.distanceCalls[c.i].SwitchingToTime? ==>
          s.distanceCalls[c.i].k !in s.sessions)
  }

  /** Without N-Hz, whichever command starts the engine makes its interval exactly the minimum. A switch
      that the engine does not support adds its session after the engine was restarted for the others. */
  lemma RestartIsExact(minTracking: nat, supported: bool, s: Mux, c: Command, s': Mux)
    requires MuxInv(minTracking, supported, s) && StepRel(minTracking, supported, s, c, s') && !s'.nHzNeeded
    requires StartsNew(s, c) && !UnsupportedSwitch(supported, s, c)
    requires s'.engine.Running? && s'.engine != s.engine
    ensures IsMinInterval(s'.sessions, s'.engine.options.minInterval)
  {
    match c
    case Start(k, o) => StartRestartIsExact(minTracking, s, k, o, s');
    case Update(k, o) =>
      if o.minDistance > 0 && k in s.sessions {
        var mid := SwitchStops(minTracking, supported, s, k, o, s');
        StopRestartIsExact(minTracking, s, k, mid);
      } else {
        UpdateRestartIsExact(minTracking, s, k, o, s');
      }
    case Stop(k) => StopRestartIsExact(minTracking, s, k, s');
    case Resume => RestartKeepsInv(minTracking, supported, s, s');
    case SetNHz(b) => RestartKeepsInv(minTracking, supported, s.(nHzNeeded := b), s');
    case DistanceCallback(i, ok) =>
      var rest, call := WithoutCall(s, i), s.distanceCalls[i];
      StartRestartIsExact(minTracking, rest, call.k, call.timed, s');
    case _ =>
  }

  // ---------------------------------------------------------------- one response per command

  predicate WantsResponse(c: Command) {
    c.Start? || c.Update? || c.Stop?
  }

  function Wanted(commands: seq<Command>): multiset<Key> {
    if commands == [] then multiset{}
    else
      var c := commands[|commands| - 1];
      Wanted(commands[..|commands| - 1]) + if WantsResponse(c) then multiset{c.k} else multiset{}
  }

  /** The sessions that a distance call will still answer. */
  function CallKeys(calls: seq<DistanceCall>): multiset<Key> {
    if calls == [] then multiset{} else multiset{calls[0].k} + CallKeys(calls[1..])
  }

  lemma {:induction false} CallKeysConcat(a: seq<DistanceCall>, b: seq<DistanceCall>)
    ensures CallKeys(a + b) == CallKeys(a) + CallKeys(b)
  {
    if a == [] {
      assert a + b == b;
    } else {
      assert (a + b)[1..] == a[1..] + b;
      CallKeysConcat(a[1..], b);
    }
  }

  lemma OneCall(c: DistanceCall)
    ensures CallKeys([c]) == multiset{c.k}
  {
    assert [c][1..] == [];
  }

  lemma Rotate(a: multiset<Key>, b: multiset<Key>, c: multiset<Key>)
    ensures a + (c + b) == (a + b) + c
  {
  }

  lemma CallTaken(calls: seq<DistanceCall>, i: nat)
    requires i < |calls|
    ensures CallKeys(calls) == CallKeys(calls[..i] + calls[i + 1..]) + multiset{calls[i].k}
  {
    var a, c, b := calls[..i], calls[i], calls[i + 1..];
    var cb := [c] + b;
    assert calls == a + cb && cb[0] == c && cb[1..] == b;
    CallKeysConcat(a, cb);
    CallKeysConcat(a, b);
    Rotate(CallKeys(a), CallKeys(b), multiset{c.k});
  }

  /** Responses given, and those that an engine or distance callback will give. */
  function Promised(s: Mux): multiset<Key> {
    multiset(s.responses) + s.awaiting + CallKeys(s.distanceCalls)
  }

  ghost predicate OneMoreFor(s: Mux, k: Key, s': Mux) {
    Promised(s') == Promised(s) + multiset{k}
  }

  /** An engine call for a client, or an answer at once, is one more promise. */
  lemma EngineStartPromises(minTracking: nat, s: Mux, t: nat, k: Key, mid: Mux)
    requires EngineStart(minTracking, s, t, Client(k), mid) || AnsweredAtOnce(s, k, mid)
    ensures OneMoreFor(s, k, mid)
  {
    assert mid.distanceCalls == s.distanceCalls;
    assert mid.responses == s.responses + [k] ==> multiset(mid.responses) == multiset(s.responses) + multiset{k};
  }

  lemma StopConservesResponses(minTracking: nat, s: Mux, k: Key, s': Mux)
    requires k in s.sessions && StopRel(minTracking, s, k, s')
    ensures OneMoreFor(s, k, s')
  {
    if s.sessions.Keys != {k} {
      var t: nat, p: int, mid: Mux :|
      StopWith(minTracking, s, k, t, p, mid) && s' == mid.(sessions := s.sessions - {k});
      EngineStartPromises(minTracking, s, t, k, mid);
      assert Promised(s') == Promised(mid);
    }
  }

  lemma StartConservesResponses(minTracking: nat, s: Mux, k: Key, o: Options, s': Mux)
    requires StartRel(minTracking, s, k, o, s')
    ensures OneMoreFor(s, k, s')
  {
    var t: nat, p: int, q: int, mid: Mux :|
      StartWith(minTracking, s, k, o, t, p, q, mid) && s' == mid.(sessions := s.sessions[k := o]);
    EngineStartPromises(minTracking, s, t, k, mid);
    assert Promised(s') == Promised(mid);
  }

  lemma UpdateConservesResponses(minTracking: nat, s: Mux, k: Key, o: Options, s': Mux)
    requires k in s.sessions && UpdateRel(minTracking, s, k, o, s')
    ensures OneMoreFor(s, k, s')
  {
    var t: nat, p: int, mid: Mux :|
      UpdateWith(minTracking, s, k, o, t, p, mid) && s' == mid.(sessions := s.sessions[k := o]);
    EngineStartPromises(minTracking, s, t, k, mid);
    assert Promised(s') == Promised(mid);
  }

  lemma CallPromises(s: Mux, c: DistanceCall, r: Mux)
    requires r.responses == s.responses && r.awaiting == s.awaiting && r.distanceCalls == s.distanceCalls + [c]
    ensures OneMoreFor(s, c.k, r)
  {
    CallKeysConcat(s.distanceCalls, [c]);
    OneCall(c);
  }

  lemma AnswerPromises(s: Mux, k: Key, r: Mux)
    requires r.responses == s.responses + [k] && r.awaiting == s.awaiting && r.distanceCalls == s.distanceCalls
    ensures OneMoreFor(s, k, r)
  {
  }

  lemma RestartKeepsResponses(minTracking: nat, s: Mux, s': Mux)
    requires RestartRel(minTracking, s, s')
    ensures Promised(s') == Promised(s)
  {
  }

  lemma CallbackConservesResponses(s: Mux, k: Key)
    requires k in s.awaiting
    ensures multiset(s.responses + [k]) + (s.awaiting - multiset{k}) == multiset(s.responses) + s.awaiting
  {
  }

  lemma CallbackPromises(minTracking: nat, supported: bool, rest: Mux, c: DistanceCall, ok: bool, s': Mux)
    requires CallbackRel(minTracking, supported, rest, c, ok, s')
    ensures if c.RestartStopping? && !ok then s' == rest else OneMoreFor(rest, c.k, s')
  {
    match c
    case SwitchingToTime(k, o) => StartConservesResponses(minTracking, rest, k, o, s');
    case RestartStopping(k, o) => if ok { CallPromises(rest, RestartStarting(k, o), s'); }
    case _ => AnswerPromises(rest, c.k, s');
  }

  /** The client that a command leaves without an answer: a distance-based session is to be restarted, and
      cannot be stopped. */
  function Lost(s: Mux, c: Command): multiset<Key> {
    if c.DistanceCallback? && !c.ok && c.i < |s.distanceCalls| && s.distanceCalls[c.i].RestartStopping?
    then multiset{s.distanceCalls[c.i].k} else multiset{}
  }

  function AllLost(states: seq<Mux>, commands: seq<Command>): multiset<Key>
    requires |states| == |commands| + 1
  {
    if commands == [] then multiset{}
    else
      var n := |commands| - 1;
      AllLost(states[..n + 1], commands[..n]) + Lost(states[n], commands[n])
  }

  lemma DistanceCallbackConserves(minTracking: nat, supported: bool, s: Mux, i: nat, ok: bool, s': Mux)
    requires i < |s.distanceCalls|
    requires CallbackRel(minTracking, supported, WithoutCall(s, i), s.distanceCalls[i], ok, s')
    ensures Promised(s') + Lost(s, DistanceCallback(i, ok)) == Promised(s)
  {
    var rest, c := WithoutCall(s, i), s.distanceCalls[i];
    CallTaken(s.distanceCalls, i);
    CallbackPromises(minTracking, supported, rest, c, ok, s');
  }

  lemma QuietStepConservesResponses(minTracking: nat, supported: bool, s: Mux, c: Command, s': Mux)
    requires StepRel(minTracking, supported, s, c, s') && !WantsResponse(c)
    ensures Promised(s') + Lost(s, c) == Promised(s)
  {
    match c
    case EngineCallback(k) => CallbackConservesResponses(s, k);
    case Resume => RestartKeepsResponses(minTracking, s, s');
    case SetNHz(b) => if b != s.nHzNeeded { RestartKeepsResponses(minTracking, s.(nHzNeeded := b), s'); }
    case DistanceCallback(i, ok) => DistanceCallbackConserves(minTracking, supported, s, i, ok, s');
    case _ =>
  }

  lemma UpdateAnyConserves(minTracking: nat, supported: bool, s: Mux, k: Key, o: Options, s': Mux)
    requires (k in s.sessions || k in s.distanceSessions) && UpdateAnyRel(minTracking, supported, s, k, o, s')
    ensures OneMoreFor(s, k, s')
  {
    if k in s.sessions && o.minDistance > 0 {
      var mid := SwitchStops(minTracking, supported, s, k, o, s');
      StopConservesResponses(minTracking, s, k, mid);
    } else if k in s.distanceSessions && o.minDistance == 0 {
      CallPromises(s, SwitchingToTime(k, o), s');
    } else if k in s.sessions {
      UpdateConservesResponses(minTracking, s, k, o, s');
    } else {
      CallPromises(s, RestartStopping(k, o), s');
    }
  }

  lemma StepConservesResponses(minTracking: nat, supported: bool, s: Mux, c: Command, s': Mux)
    requires StepRel(minTracking, supported, s, c, s')
    ensures Promised(s') + Lost(s, c) == Promised(s) + if WantsResponse(c) then multiset{c.k} else multiset{}
  {
    match c
    case Start(k, o) =>
      if o.minDistance > 0 && supported { CallPromises(s, Starting(k), s'); }
      else { StartConservesResponses(minTracking, s, k, o, s'); }
    case Update(k, o) => UpdateAnyConserves(minTracking, supported, s, k, o, s');
    case Stop(k) =>
      if k in s.sessions { StopConservesResponses(minTracking, s, k, s'); } else { CallPromises(s, Stopping(k), s'); }
    case _ => QuietStepConservesResponses(minTracking, supported, s, c, s');
  }

  /** Over every run, failed distance calls included, the clients of accepted start, update and stop
      commands are, with multiplicity, those already answered, those an engine or distance callback will
      still answer, and those of a restart that could not stop its session. */
  lemma {:induction false} OneResponsePerCommand(minTracking: nat, supported: bool, states: seq<Mux>,
                                                 commands: seq<Command>)
    requires IsRun(minTracking, supported, states, commands)
    ensures Promised(states[|commands|]) + AllLost(states, commands) == Wanted(commands)
  {
    if commands != [] {
      var n := |commands| - 1;
      OneResponsePerCommand(minTracking, supported, states[..n + 1], commands[..n]);
      StepConservesResponses(minTracking, supported, states[n], commands[n], states[n + 1]);
      var more := if WantsResponse(commands[n]) then multiset{commands[n].k} else multiset{};
      BothSides(Promised(states[n]), AllLost(states[..n + 1], commands[..n]), Wanted(commands[..n]),
                Promised(states[n + 1]), Lost(states[n], commands[n]), more);
    }
  }

  lemma BothSides(p: multiset<Key>, lost: multiset<Key>, wanted: multiset<Key>, p': multiset<Key>, l: multiset<Key>,
                  w: multiset<Key>)
    requires p + lost == wanted && p' + l == p + w
    ensures p' + (lost + l) == wanted + w
  {
    forall k ensures (p' + (lost + l))[k] == (wanted + w)[k] {
      assert (p + lost)[k] == p[k] + lost[k] && (p' + l)[k] == (p + w)[k];
    }
  }

  // ---------------------------------------------------------------- without distance tracking

  /** If the engine may be called when the session stops, some search of the power modes has that outcome. */
  lemma MayRestart(s: Mux, k: Key, t: nat) returns (p: int)
    requires k in s.sessions && !NeverRestarts(s, k) && IsMinInterval(s.sessions - {k}, t)
    ensures IsLowestMode(s.sessions - {k}, p)
    ensures s.sessions[k].minInterval < t || s.sessions[k].powerMode < p
  {
    var rest := s.sessions - {k};
    assert forall j :: j in rest <==> j in s.sessions && j != k;
    var j :| j in rest && rest[j].minInterval == t;
    if AllModesValid(rest) {
      p := LowestOf(rest, j);
    } else if w :| w in rest && s.sessions[k].powerMode < rest[w].powerMode {
      p := rest[w].powerMode;
    } else {
      p := rest[j].powerMode;
    }
  }

  /** What an unsafe switch may come to: the engine is called for the slowest need of the others, or is
      left as slow as it was. */
  lemma UnsafeSwitchUncovers(minTracking: nat, s: Mux, k: Key, o: Options) returns (s': Mux)
    requires MuxInv(minTracking, false, s) && k in s.sessions && !SafeSwitch(s, k, o)
    ensures SwitchRel(minTracking, false, s, k, o, s') && !Covered(s')
  {
    var rest := s.sessions - {k};
    var j :| j in s.sessions && j != k;
    assert j in rest;
    var t := MinOf(rest, j);
    var called: Mux;
    if NeverRestarts(s, k) {
      var p := AnyMode(rest, j);
      NeverRestartsMeans(s, k, t, p);
      called := Answered(s, k);
      assert StopWith(minTracking, s, k, t, p, called);
    } else {
      var p := MayRestart(s, k, t);
      called := s.(engine := Running(o.(minInterval := t)), awaiting := s.awaiting + multiset{k});
      assert StopWith(minTracking, s, k, t, p, called);
    }
    var mid := called.(sessions := rest);
    assert StopRel(minTracking, s, k, mid);
    s' := mid.(sessions := mid.sessions[k := o]);
    assert k in s'.sessions;
  }

  lemma AnyMode(sessions: map<Key, Options>, k: Key) returns (p: int)
    requires k in sessions
    ensures IsLowestMode(sessions, p)
  {
    if AllModesValid(sessions) {
      p := LowestOf(sessions, k);
    } else {
      p := sessions[k].powerMode;
    }
  }

  function Below(sessions: map<Key, Options>, k: Key): set<Key>
    requires k in sessions
  {
    set j | j in sessions && sessions[j].powerMode < sessions[k].powerMode
  }

  /** A lowest power mode exists. */
  lemma LowestOf(sessions: map<Key, Options>, k: Key) returns (p: int)
    requires k in sessions
    ensures IsLowestMode(sessions, p)
    ensures forall j :: j in sessions ==> p <= sessions[j].powerMode
    decreases Below(sessions, k)
  {
    if j :| j in sessions && sessions[j].powerMode < sessions[k].powerMode {
      assert j in Below(sessions, k) - Below(sessions, j);
      p := LowestOf(sessions, j);
    } else {
      p := sessions[k].powerMode;
    }
  }

  /** A smallest interval exists. */
  lemma MinOf(sessions: map<Key, Options>, k: Key) returns (t: nat)
    requires k in sessions
    ensures IsMinInterval(sessions, t)
    decreases sessions[k].minInterval
  {
    if j :| j in sessions && sessions[j].minInterval < sessions[k].minInterval {
      t := MinOf(sessions, j);
    } else {
      t := sessions[k].minInterval;
    }
  }

  /** Without distance tracking in the engine, the switch leaves every session covered, whatever the
      multiplexing chooses, if and only if it is safe: a condition on the sessions before the call. */
  lemma UnsupportedSwitchExactly(minTracking: nat, s: Mux, k: Key, o: Options)
    requires MuxInv(minTracking, false, s) && k in s.sessions && minTracking <= o.minInterval
    ensures SafeSwitch(s, k, o) <==> forall s' :: SwitchRel(minTracking, false, s, k, o, s') ==> Covered(s')
  {
    if SafeSwitch(s, k, o) {
      forall s' | SwitchRel(minTracking, false, s, k, o, s') ensures Covered(s') {
        SafeSwitchCovers(minTracking, s, k, o, s');
      }
    } else {
      var s' := UnsafeSwitchUncovers(minTracking, s, k, o);
    }
  }

  /** The shortest failing run: sessions at 1000 and 2000 ms, and the faster one asks for 100 ms and a
      distance. Unsupported, it is left uncovered. */
  lemma UnsupportedSwitchUncovers() returns (states: seq<Mux>, commands: seq<Command>)
    ensures IsRun(100, false, states, commands) && |commands| == 3
    ensures UnsupportedSwitch(false, states[2], commands[2]) && !Covered(states[3])
  {
    var a, b := Key(1, 1), Key(2, 2);
    var fast, slow, o := Options(1000, 0, 2, 0, 0), Options(2000, 0, 2, 0, 0), Options(100, 5, 2, 0, 0);
    var s1 := INITIAL_MUX.(sessions := map[a := fast], engine := Running(fast), awaiting := multiset{a});
    var s2 := s1.(sessions := map[a := fast, b := slow], responses := [b]);
    FirstStarts(a, fast, s1);
    SlowerStarts(a, b, fast, slow, s1, s2);
    assert b in s2.sessions.Keys && b != a;
    var s3 := UnsafeSwitchUncovers(100, s2, a, o);
    assert StepRel(100, false, s2, Update(a, o), s3);
    states, commands := [INITIAL_MUX, s1, s2, s3], [Start(a, fast), Start(b, slow), Update(a, o)];
  }

  lemma FirstStarts(a: Key, o: Options, s1: Mux)
    requires s1 == INITIAL_MUX.(sessions := map[a := o], engine := Running(o), awaiting := multiset{a})
    requires o.minInterval >= 100
    ensures StepRel(100, false, INITIAL_MUX, Start(a, o), s1)
  {
    var called := INITIAL_MUX.(engine := Running(o), awaiting := multiset{a});
    assert multiset{} + multiset{a} == multiset{a};
    assert StartWith(100, INITIAL_MUX, a, o, o.minInterval, 0, 0, called);
    assert s1 == called.(sessions := INITIAL_MUX.sessions[a := o]);
  }

  lemma SlowerStarts(a: Key, b: Key, fast: Options, slow: Options, s1: Mux, s2: Mux)
    requires s1 == INITIAL_MUX.(sessions := map[a := fast], engine := Running(fast), awaiting := multiset{a})
    requires s2 == s1.(sessions := map[a := fast, b := slow], responses := [b])
    requires a != b && 100 <= fast.minInterval <= slow.minInterval
    requires fast.powerMode <= slow.powerMode && slow.quality <= fast.quality
    ensures StepRel(100, false, s1, Start(b, slow), s2)
  {
    assert a in s1.sessions && s1.sessions[a] == fast;
    assert [] + [b] == [b];
    assert StartWith(100, s1, b, slow, fast.minInterval, fast.powerMode, fast.quality, Answered(s1, b));
    assert s2 == Answered(s1, b).(sessions := s1.sessions[b := slow]);
  }

  /** And the only session of the adapter is then listed as tracking with the engine stopped. */
  lemma UnsupportedSwitchStopsEngine(minTracking: nat, s: Mux, k: Key, o: Options, s': Mux)
    requires s.sessions.Keys == {k} && SwitchRel(minTracking, false, s, k, o, s')
    ensures s'.engine.Stopped? && s'.sessions == map[k := o]
  {
  }
}
