/** The AGPS data-call protocol as a transition function: what one event does to the state,
    to the subscriber list and to the calls that leave the machine. */
module AgpsModel {

  datatype AgpsState = Released | Pending | Acquired | Releasing

  datatype AgpsType = Any | Supl | C2K | WwanAny | Wifi | SuplEs | Invalid

  datatype Subscriber = Subscriber(connHandle: int, waitForCloseComplete: bool, isInactive: bool)

  datatype Notice = OpenSuccess | OpenFailed | Close

  /** A call leaving the machine: an ATL status for one handle, or a request (or release)
      of the data connection sent to the framework. */
  datatype Output = Notify(handle: int, notice: Notice) | DataConn(request: bool, agpsType: AgpsType)

  datatype Who = Everyone | InactiveOnly | ActiveOnly

  datatype Machine = Machine(state: AgpsState, subs: seq<Subscriber>, agpsType: AgpsType)

  datatype Outcome = Outcome(m: Machine, out: seq<Output>)

  /** Everything the manager can hand to one machine. */
  datatype Event =
    | Subscribe(handle: int, waitForCloseComplete: bool, agpsType: AgpsType)
    | Unsubscribe(handle: int)
    | Granted
    | ConnReleased
    | Denied
    | ModemRestart

  const INITIAL_INTERNET_MACHINE := Machine(Released, [], WwanAny)

  predicate Listed(subs: seq<Subscriber>, h: int) {
    exists s :: s in subs && s.connHandle == h
  }

  predicate AnyActive(subs: seq<Subscriber>) {
    exists s :: s in subs && !s.isInactive
  }

  ghost predicate Distinct(subs: seq<Subscriber>) {
    forall i, j :: 0 <= i < j < |subs| ==> subs[i].connHandle != subs[j].connHandle
  }

  predicate Chosen(who: Who, s: Subscriber) {
    who == Everyone || (who == InactiveOnly && s.isInactive) || (who == ActiveOnly && !s.isInactive)
  }

  /** The subscribers that a notification round leaves in the list. */
  function Stay(subs: seq<Subscriber>, who: Who): (r: seq<Subscriber>)
    ensures forall s :: s in r <==> s in subs && !Chosen(who, s)
    ensures Distinct(subs) ==> Distinct(r)
  {
    if subs == [] then []
    else
      var rest := Stay(subs[1..], who);
      assert forall s :: s in subs <==> s == subs[0] || s in subs[1..];
      assert forall j :: 0 <= j < |rest| ==> rest[j] in rest && rest[j] in subs[1..];
      if Chosen(who, subs[0]) then rest else [subs[0]] + rest
  }

  /** One notice for every chosen subscriber, in list order. */
  function Notices(subs: seq<Subscriber>, who: Who, n: Notice): seq<Output> {
    if subs == [] then []
    else (if Chosen(who, subs[0]) then [Notify(subs[0].connHandle, n)] else []) + Notices(subs[1..], who, n)
  }

  function Without(subs: seq<Subscriber>, h: int): (r: seq<Subscriber>)
    ensures forall s :: s in r <==> s in subs && s.connHandle != h
    ensures Distinct(subs) ==> Distinct(r)
  {
    if subs == [] then []
    else
      var rest := Without(subs[1..], h);
      assert forall s :: s in subs <==> s == subs[0] || s in subs[1..];
      assert forall j :: 0 <= j < |rest| ==> rest[j] in rest && rest[j] in subs[1..];
      if subs[0].connHandle == h then rest else [subs[0]] + rest
  }

  /** The list with the subscriber of handle h moved to the inactive state. */
  function Deactivate(subs: seq<Subscriber>, h: int): (r: seq<Subscriber>)
    ensures |r| == |subs|
    ensures forall i :: 0 <= i < |subs| ==>
      r[i] == if subs[i].connHandle == h then subs[i].(isInactive := true) else subs[i]
  {
    seq(|subs|, i requires 0 <= i < |subs| =>
      if subs[i].connHandle == h then subs[i].(isInactive := true) else subs[i])
  }

  function AddedTo(subs: seq<Subscriber>, s: Subscriber): seq<Subscriber> {
    if Listed(subs, s.connHandle) then subs else subs + [s]
  }

  /** The first subscriber with handle h, which the manager looks up before it unsubscribes. */
  function Lookup(subs: seq<Subscriber>, h: int): (s: Subscriber)
    requires Listed(subs, h)
    ensures s in subs && s.connHandle == h
  {
    if subs[0].connHandle == h then subs[0]
    else
      assert forall s :: s in subs <==> s == subs[0] || s in subs[1..];
      Lookup(subs[1..], h)
  }

  function SubscribeStep(m: Machine, s: Subscriber): Outcome {
    var added := m.(subs := AddedTo(m.subs, s));
    match m.state
    case Released => Outcome(added.(state := Pending), [DataConn(true, m.agpsType)])
    case Acquired => Outcome(added, [Notify(s.connHandle, OpenSuccess)])
    case _ => Outcome(added, [])
  }

  function UnsubscribeStep(m: Machine, s: Subscriber): Outcome {
    if m.state == Released then Outcome(m, [Notify(s.connHandle, Close)])
    else
      var subs := if s.waitForCloseComplete then Deactivate(m.subs, s.connHandle) else Without(m.subs, s.connHandle);
      var told := if s.waitForCloseComplete then [] else [Notify(s.connHandle, Close)];
      if m.state == Releasing then
        Outcome(m.(subs := subs, state := if subs == [] then Released else Releasing), told)
      else if subs == [] then
        Outcome(m.(subs := subs, state := Released), told + [DataConn(false, m.agpsType)])
      else if !AnyActive(subs) then
        Outcome(m.(subs := subs, state := Releasing), told + [DataConn(false, m.agpsType)])
      else
        Outcome(m.(subs := subs), told)
  }

  function GrantedStep(m: Machine): Outcome {
    if m.state == Pending then Outcome(m.(state := Acquired), Notices(m.subs, ActiveOnly, OpenSuccess))
    else Outcome(m, [])
  }

  /** The close of the connection has been confirmed, or reported while releasing. */
  function ClosedWhileReleasing(m: Machine): Outcome {
    var left := Stay(m.subs, InactiveOnly);
    var told := Notices(m.subs, InactiveOnly, Close);
    if AnyActive(left) then Outcome(m.(subs := left, state := Pending), told + [DataConn(true, m.agpsType)])
    else Outcome(m.(subs := left, state := Released), told)
  }

  function ReleasedStep(m: Machine): Outcome {
    match m.state
    case Acquired => Outcome(m.(state := Released, subs := Stay(m.subs, Everyone)), Notices(m.subs, Everyone, Close))
    case Releasing => ClosedWhileReleasing(m)
    case _ => Outcome(m, [])
  }

  function DeniedStep(m: Machine): Outcome {
    match m.state
    case Pending =>
      Outcome(m.(state := Released, subs := Stay(m.subs, Everyone)), Notices(m.subs, Everyone, OpenFailed))
    case Releasing => ClosedWhileReleasing(m)
    case _ => Outcome(m, [])
  }

  function Step(m: Machine, e: Event): Outcome {
    match e
    case Subscribe(h, wait, t) => SubscribeStep(m.(agpsType := t), Subscriber(h, wait, false))
    case Unsubscribe(h) => if Listed(m.subs, h) then UnsubscribeStep(m, Lookup(m.subs, h)) else Outcome(m, [])
    case Granted => GrantedStep(m)
    case ConnReleased => ReleasedStep(m)
    case Denied => DeniedStep(m)
    case ModemRestart => Outcome(m.(subs := []), [])
  }

  /** The machine after a run of events. */
  function Run(m: Machine, events: seq<Event>): Machine {
    if events == [] then m
    else Step(Run(m, events[..|events| - 1]), events[|events| - 1]).m
  }
}
