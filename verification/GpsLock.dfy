/** The GPS lock. In the Q regime (the framework drives the lock through NFW control) the stored lock
    is the state of the modem; in the P regime it is the mask to apply while location is disabled. */
module GpsLock {

  /** A lock mask, as the set of the numbers of its bits. Bit 0 locks location requested by the
      device, bits 1 to 11 the non-framework locations (NFW). */
  type Lock = set<nat>

  const NONE: Lock := {}
  const MO: Lock := {0}
  const NFW_ALL: Lock := set b | 1 <= b <= 11

  /** `posted` are the locks sent to the modem so far. */
  datatype State = State(lock: Lock, qRegime: bool, controlId: nat, posted: seq<Lock>)

  datatype Event =
    | Enable(sessionId: nat, gnssTech: bool)
    | Disable(id: nat)
    | NfwControl(enabledNfws: seq<string>, nfws: map<string, Lock>)
    | UpdateConfig(lockGiven: bool, mask: Lock)
    | ModemRestart

  // ---------------------------------------------------------------- NFW control bits

  function BitsOf(nfws: map<string, Lock>, pkg: string): Lock {
    if pkg in nfws then nfws[pkg] else {}
  }

  function Granted(enabled: seq<string>, nfws: map<string, Lock>): Lock {
    if enabled == [] then {}
    else Granted(enabled[..|enabled| - 1], nfws) + BitsOf(nfws, enabled[|enabled| - 1])
  }

  function ControlBits(enabled: seq<string>, nfws: map<string, Lock>): Lock {
    NFW_ALL - Granted(enabled, nfws)
  }

  /** An NFW bit stays locked if and only if no enabled package owns it; no other bit is locked. */
  lemma {:induction false} NfwBitLockedIffUnowned(enabled: seq<string>, nfws: map<string, Lock>, b: nat)
    ensures b in ControlBits(enabled, nfws) <==>
      1 <= b <= 11 && !exists p :: p in enabled && b in BitsOf(nfws, p)
  {
    if enabled != [] {
      var n := |enabled| - 1;
      NfwBitLockedIffUnowned(enabled[..n], nfws, b);
      assert enabled == enabled[..n] + [enabled[n]];
      assert forall p :: p in enabled <==> p in enabled[..n] || p == enabled[n];
    }
  }

  // ---------------------------------------------------------------- one event

  function Step(s: State, e: Event): State {
    match e
    case Enable(id, gnssTech) =>
      if !gnssTech || s.controlId > 0 then s
      else
        var lock := if s.qRegime then s.lock * NFW_ALL else s.lock;
        State(lock, s.qRegime, id, s.posted + [if s.qRegime then lock else NONE])
    case Disable(id) =>
      if s.controlId != id then s
      else
        var lock := if s.qRegime then s.lock + MO else s.lock;
        State(lock, s.qRegime, 0, s.posted + [lock])
    case NfwControl(enabled, nfws) =>
      if !s.qRegime then s
      else
        var lock := (s.lock * MO) + ControlBits(enabled, nfws);
        s.(lock := lock, posted := s.posted + [lock])
    case UpdateConfig(lockGiven, mask) =>
      if !lockGiven then s
      else
        var lock := mask + MO;
        var sent := if s.controlId == 0 then [lock] else if s.qRegime then [NONE] else [];
        State(lock, false, s.controlId, s.posted + sent)
    case ModemRestart =>
      s.(posted := s.posted + [if s.qRegime || s.controlId == 0 then s.lock else NONE])
  }

  function Run(s: State, events: seq<Event>): State {
    if events == [] then s else Step(Run(s, events[..|events| - 1]), events[|events| - 1])
  }

  /** Session ids are never zero. */
  predicate ProperIds(events: seq<Event>) {
    forall e :: e in events && e.Enable? ==> e.sessionId != 0
  }

  // ---------------------------------------------------------------- the invariant

  predicate MoClear(l: Lock) {
    0 !in l
  }

  function LastPosted(s: State): Lock
    requires s.posted != []
  {
    s.posted[|s.posted| - 1]
  }

  ghost predicate LockInv(s: State) {
    && (s.posted != [] ==> (MoClear(LastPosted(s)) <==> s.controlId != 0))
    && (s.qRegime ==> (MoClear(s.lock) <==> s.controlId != 0) && (s.posted != [] ==> LastPosted(s) == s.lock))
    && (!s.qRegime ==>
         !MoClear(s.lock) && s.posted != [] && LastPosted(s) == if s.controlId != 0 then NONE else s.lock)
  }

  lemma StepKeepsLockInv(s: State, e: Event)
    requires LockInv(s) && (e.Enable? ==> e.sessionId != 0)
    ensures LockInv(Step(s, e))
  {
  }

  function Initial(lock: Lock): State {
    State(lock, true, 0, [])
  }

  /** Over every run from a lock with MO set: the last lock sent to the modem has its MO bit clear
      exactly when location is enabled; in Q it is the stored lock, in P it is NONE when enabled and
      the stored mask when disabled. */
  lemma {:induction false} PostedLockFollowsLocation(lock: Lock, events: seq<Event>)
    requires !MoClear(lock) && ProperIds(events)
    ensures LockInv(Run(Initial(lock), events))
  {
    if events != [] {
      var n := |events| - 1;
      PostedLockFollowsLocation(lock, events[..n]);
      StepKeepsLockInv(Run(Initial(lock), events[..n]), events[n]);
    }
  }

  /** P is never left: the regime is Q if and only if no update has given a lock mask. */
  lemma {:induction false} RegimeChangesAtMostOnce(s: State, events: seq<Event>)
    ensures Run(s, events).qRegime <==> s.qRegime && forall e :: e in events ==> !(e.UpdateConfig? && e.lockGiven)
  {
    if events != [] {
      var n := |events| - 1;
      RegimeChangesAtMostOnce(s, events[..n]);
      assert events == events[..n] + [events[n]];
    }
  }

  /** The bits of the latest NFW control; before the first, those of the initial lock. */
  function LatestControl(lock: Lock, events: seq<Event>): Lock {
    if events == [] then lock * NFW_ALL
    else
      match events[|events| - 1]
      case NfwControl(enabled, nfws) => ControlBits(enabled, nfws)
      case _ => LatestControl(lock, events[..|events| - 1])
  }

  lemma {:induction false} QLockBits(lock: Lock, events: seq<Event>)
    requires lock <= MO + NFW_ALL
    ensures var s := Run(Initial(lock), events);
      s.qRegime ==> s.lock * NFW_ALL == LatestControl(lock, events) && s.lock <= MO + NFW_ALL
  {
    if events != [] {
      QLockBits(lock, events[..|events| - 1]);
    }
  }

  /** In Q, whatever was sent last is MO if location is disabled, plus the latest control bits. */
  lemma QPostedLock(lock: Lock, events: seq<Event>)
    requires !MoClear(lock) && lock <= MO + NFW_ALL && ProperIds(events)
    ensures var s := Run(Initial(lock), events);
      s.qRegime && s.posted != [] ==>
        LastPosted(s) == (if s.controlId == 0 then MO else NONE) + LatestControl(lock, events)
  {
    PostedLockFollowsLocation(lock, events);
    QLockBits(lock, events);
    var s := Run(Initial(lock), events);
    assert s.qRegime ==> s.lock == s.lock * MO + s.lock * NFW_ALL;
  }

  // ---------------------------------------------------------------- what the events alone say

  /** The session that holds location: the one whose enabling was accepted and that was not disabled since. */
  function Holder(events: seq<Event>): nat {
    if events == [] then 0
    else
      var before := Holder(events[..|events| - 1]);
      match events[|events| - 1]
      case Enable(id, gnssTech) => if gnssTech && before == 0 then id else before
      case Disable(id) => if id == before then 0 else before
      case _ => before
  }

  /** The mask of the latest update that gave one, or none if the regime is still Q. */
  datatype Mask = NoMask | Mask(bits: Lock)

  function LatestMask(events: seq<Event>): Mask {
    if events == [] then NoMask
    else
      var e := events[|events| - 1];
      if e.UpdateConfig? && e.lockGiven then Mask(e.mask) else LatestMask(events[..|events| - 1])
  }

  /** The lock the modem should have after the events. */
  function Wanted(lock: Lock, events: seq<Event>): Lock {
    match LatestMask(events)
    case NoMask => (if Holder(events) == 0 then MO else NONE) + LatestControl(lock, events)
    case Mask(bits) => if Holder(events) == 0 then bits + MO else NONE
  }

  /** The last event makes the adapter send a lock: it is an accepted command, a control or update that
      bears on what the modem has, or a modem restart. */
  predicate Sends(before: seq<Event>, e: Event) {
    match e
    case Enable(_, gnssTech) => gnssTech && Holder(before) == 0
    case Disable(id) => id == Holder(before)
    case NfwControl(_, _) => LatestMask(before).NoMask?
    case UpdateConfig(lockGiven, _) => lockGiven && (Holder(before) == 0 || LatestMask(before).NoMask?)
    case ModemRestart => true
  }

  function AllWanted(lock: Lock, events: seq<Event>): seq<Lock> {
    if events == [] then []
    else
      var before, e := events[..|events| - 1], events[|events| - 1];
      AllWanted(lock, before) + if Sends(before, e) then [Wanted(lock, events)] else []
  }

  /** A session holds location if and only if its enabling was accepted and it was not disabled since. */
  lemma {:induction false} HolderExactly(events: seq<Event>, id: nat)
    requires id != 0
    ensures Holder(events) == id <==> exists i :: 0 <= i < |events| && TookHold(events, i, id)
  {
    if events != [] {
      var n := |events| - 1;
      var before := events[..n];
      HolderExactly(before, id);
      assert forall i :: 0 <= i < n ==> before[..i] == events[..i] && before[i] == events[i];
      if i :| 0 <= i < n && TookHold(before, i, id) {
        assert events[n] != Disable(id) ==> TookHold(events, i, id);
      }
      if i :| 0 <= i < |events| && TookHold(events, i, id) {
        assert i < n ==> TookHold(before, i, id);
      }
      assert Holder(before) == 0 && events[n] == Enable(id, true) ==> TookHold(events, n, id);
    }
  }

  /** Event i enabled location for the session while nobody held it, and no later event disables it. */
  predicate TookHold(events: seq<Event>, i: nat, id: nat)
    requires i < |events|
  {
    && events[i] == Enable(id, true) && Holder(events[..i]) == 0
    && forall j :: i < j < |events| ==> events[j] != Disable(id)
  }

  lemma {:induction false} ControlIdIsHolder(lock: Lock, events: seq<Event>)
    ensures Run(Initial(lock), events).controlId == Holder(events)
  {
    if events != [] { ControlIdIsHolder(lock, events[..|events| - 1]); }
  }

  lemma {:induction false} RegimeIsOfMask(lock: Lock, events: seq<Event>)
    ensures var s := Run(Initial(lock), events);
      match LatestMask(events)
      case NoMask => s.qRegime
      case Mask(bits) => !s.qRegime && s.lock == bits + MO
  {
    if events != [] { RegimeIsOfMask(lock, events[..|events| - 1]); }
  }

  lemma StepSends(lock: Lock, before: seq<Event>, e: Event)
    ensures var s := Run(Initial(lock), before);
      |Step(s, e).posted| == |s.posted| + (if Sends(before, e) then 1 else 0) && s.posted <= Step(s, e).posted
  {
    ControlIdIsHolder(lock, before);
    RegimeIsOfMask(lock, before);
  }

  /** The latest lock sent is the one the events want. */
  lemma LatestIsWanted(lock: Lock, events: seq<Event>)
    requires !MoClear(lock) && lock <= MO + NFW_ALL && ProperIds(events)
    ensures var s := Run(Initial(lock), events);
      s.posted != [] ==> LastPosted(s) == Wanted(lock, events)
  {
    PostedLockFollowsLocation(lock, events);
    ControlIdIsHolder(lock, events);
    RegimeIsOfMask(lock, events);
    QPostedLock(lock, events);
  }

  /** Over every run, the locks sent to the modem are exactly those the events want, one for every event
      that makes the adapter send: an enabling that is accepted, a disabling that matches, a change of the
      NFW bits in Q, an update that bears on the modem, and a modem restart. */
  lemma {:induction false} PostedExactly(lock: Lock, events: seq<Event>)
    requires !MoClear(lock) && lock <= MO + NFW_ALL && ProperIds(events)
    ensures Run(Initial(lock), events).posted == AllWanted(lock, events)
  {
    if events != [] {
      var n := |events| - 1;
      var before, e := events[..n], events[n];
      var s := Run(Initial(lock), before);
      PostedExactly(lock, before);
      StepSends(lock, before, e);
      LatestIsWanted(lock, events);
      assert Sends(before, e) ==> Step(s, e).posted == s.posted + [LastPosted(Step(s, e))];
    }
  }

  /** In particular, the session that holds location locks it again when it is disabled, whatever has
      happened before, and an accepted enabling unlocks it. */
  lemma DisableLocksEnableUnlocks(lock: Lock, before: seq<Event>, e: Event)
    requires !MoClear(lock) && lock <= MO + NFW_ALL && ProperIds(before + [e])
    requires (e.Disable? && e.id == Holder(before)) || (e.Enable? && e.gnssTech && Holder(before) == 0)
    ensures var s, r := Run(Initial(lock), before), Run(Initial(lock), before + [e]);
      && |r.posted| == |s.posted| + 1 && (MoClear(LastPosted(r)) <==> e.Enable?)
      && r.controlId == if e.Enable? then e.sessionId else 0
  {
    assert (before + [e])[..|before|] == before && e in before + [e];
    PostedExactly(lock, before);
    PostedExactly(lock, before + [e]);
    PostedLockFollowsLocation(lock, before + [e]);
    ControlIdIsHolder(lock, before + [e]);
  }

  // ---------------------------------------------------------------- the adapter

  class LockControl {
    var GPS_LOCK: Lock
    var mSupportNfwControl: bool
    var mAfwControlId: nat
    var posted: seq<Lock>
    var mNfws: map<string, Lock>

    function View(): State
      reads this
    {
      State(GPS_LOCK, mSupportNfwControl, mAfwControlId, posted)
    }

    constructor (configured: Lock, nfws: map<string, Lock>)
      ensures View() == Initial(configured) && mNfws == nfws
    {
      GPS_LOCK, mSupportNfwControl, mAfwControlId, posted, mNfws := configured, true, 0, [], nfws;
    }

    method SetGpsLock(lock: Lock)
      modifies this`posted
      ensures posted == old(posted) + [lock]
    {
      posted := posted + [lock];
    }

    method EnableCommand(sessionId: nat, gnssTech: bool) returns (ok: bool)
      modifies this
      ensures View() == Step(old(View()), Enable(sessionId, gnssTech)) && mNfws == old(mNfws)
      ensures ok == (gnssTech && old(mAfwControlId) == 0)
    {
      ok := gnssTech && mAfwControlId == 0;
      if ok {
        mAfwControlId := sessionId;
        var gpsLock := NONE;
        if mSupportNfwControl {
          GPS_LOCK := GPS_LOCK * NFW_ALL;
          gpsLock := GPS_LOCK;
        }
        SetGpsLock(gpsLock);
      }
    }

    method DisableCommand(id: nat) returns (ok: bool)
      modifies this
      ensures View() == Step(old(View()), Disable(id)) && mNfws == old(mNfws)
      ensures ok == (old(mAfwControlId) == id)
    {
      ok := mAfwControlId == id;
      if ok {
        mAfwControlId := 0;
        if mSupportNfwControl {
          GPS_LOCK := GPS_LOCK + MO;
        }
        SetGpsLock(GPS_LOCK);
      }
    }

    method GetNfwControlBits(enabledNfws: seq<string>) returns (bits: Lock)
      ensures bits == ControlBits(enabledNfws, mNfws)
    {
      bits := {};
      for i := 0 to |enabledNfws|
        invariant bits == Granted(enabledNfws[..i], mNfws)
      {
        if enabledNfws[i] in mNfws {
          bits := bits + mNfws[enabledNfws[i]];
        }
        assert enabledNfws[..i + 1][..i] == enabledNfws[..i];
      }
      assert enabledNfws[..|enabledNfws|] == enabledNfws;
      bits := NFW_ALL - bits;
    }

    method NfwControlCommand(enabledNfws: seq<string>)
      modifies this
      ensures View() == Step(old(View()), NfwControl(enabledNfws, mNfws)) && mNfws == old(mNfws)
    {
      if mSupportNfwControl {
        var bits := GetNfwControlBits(enabledNfws);
        var gpsLock := GPS_LOCK;
        gpsLock := gpsLock * MO;
        gpsLock := gpsLock + bits;
        GPS_LOCK := gpsLock;
        SetGpsLock(gpsLock);
      }
    }

    method GnssUpdateConfigCommand(lockGiven: bool, mask: Lock)
      modifies this
      ensures View() == Step(old(View()), UpdateConfig(lockGiven, mask)) && mNfws == old(mNfws)
    {
      if lockGiven {
        var newGpsLock := mask;
        var needEngineUpdate := true;
        newGpsLock := newGpsLock + MO;
        GPS_LOCK := newGpsLock;
        if mAfwControlId != 0 {
          if mSupportNfwControl {
            newGpsLock := NONE;
          } else {
            needEngineUpdate := false;
          }
        }
        mSupportNfwControl := false;
        if needEngineUpdate {
          SetGpsLock(newGpsLock);
        }
      }
    }

    method SetConfig()
      modifies this
      ensures View() == Step(old(View()), ModemRestart) && mNfws == old(mNfws)
    {
      if mSupportNfwControl || mAfwControlId == 0 {
        SetGpsLock(GPS_LOCK);
      } else {
        SetGpsLock(NONE);
      }
    }
  }
}
