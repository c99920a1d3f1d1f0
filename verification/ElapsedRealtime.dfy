/** Estimating when, since boot, a fix was taken: from the host clocks, or from a pair of GPS time and
    tick count. Nanoseconds are unbounded integers. */
module ElapsedRealtime {

  /** The two host clocks read together, or a failure to do so. */
  datatype Clocks = NoClocks | Clocks(utc: int, boot: int)

  datatype Call = Call(clocks: Clocks, data: int, trusted: bool, tbf: int)

  datatype State = State(clockDiff: int, prevUtc: int, prevBoot: int, prevData: int, threshold: int)

  const STABLE_AFTER := 5

  const INITIAL := State(0, 0, 0, 0, STABLE_AFTER)

  /** The call changes the state. */
  predicate Effective(c: Call) {
    c.clocks.Clocks? && c.trusted
  }

  /** The data time has not advanced by the time between fixes. */
  predicate Jumps(s: State, c: Call) {
    c.tbf > 0 && c.tbf != c.data - s.prevData
  }

  function ThresholdAt(s: State, c: Call): int {
    if Jumps(s, c) then STABLE_AFTER else s.threshold
  }

  function Step(s: State, c: Call, travel: int): State {
    if !Effective(c) then s
    else
      var Clocks(utc, boot) := c.clocks;
      var t := ThresholdAt(s, c);
      var clockDiff :=
        if t == 0 then utc - c.data - travel
        else if t < 0 then s.clockDiff + (utc - boot) - (s.prevUtc - s.prevBoot)
        else s.clockDiff;
      State(clockDiff, utc, boot, c.data, t - 1)
  }

  function Estimate(s: State, c: Call, travel: int): int {
    if c.clocks.NoClocks? then -1
    else if c.trusted && ThresholdAt(s, c) < 0 then
      c.clocks.boot - (c.clocks.utc - c.data - Step(s, c, travel).clockDiff)
    else c.clocks.boot - travel
  }

  function Run(s: State, calls: seq<Call>, travel: int): State {
    if calls == [] then s else Step(Run(s, calls[..|calls| - 1], travel), calls[|calls| - 1], travel)
  }

  /** The estimate of call k of a run. */
  function EstimateAt(s: State, calls: seq<Call>, k: nat, travel: int): int
    requires k < |calls|
  {
    Estimate(Run(s, calls[..k], travel), calls[k], travel)
  }

  // ---------------------------------------------------------------- telescoping

  /** Once calibrated, the estimate minus the data time: the boot time that data time zero has. */
  function Offset(s: State): int {
    s.clockDiff - (s.prevUtc - s.prevBoot)
  }

  predicate Calibrated(s: State) {
    s.threshold < 0
  }

  predicate NoJump(s: State, calls: seq<Call>, travel: int) {
    calls == [] ||
    (NoJump(s, calls[..|calls| - 1], travel) &&
     var c := calls[|calls| - 1];
     Effective(c) ==> !Jumps(Run(s, calls[..|calls| - 1], travel), c))
  }

  lemma {:induction false} OffsetStays(s: State, calls: seq<Call>, travel: int)
    requires Calibrated(s) && NoJump(s, calls, travel)
    ensures Calibrated(Run(s, calls, travel)) && Offset(Run(s, calls, travel)) == Offset(s)
  {
    if calls != [] {
      OffsetStays(s, calls[..|calls| - 1], travel);
    }
  }

  lemma {:induction false} NoJumpPrefix(s: State, calls: seq<Call>, k: nat, travel: int)
    requires k <= |calls| && NoJump(s, calls, travel)
    ensures NoJump(s, calls[..k], travel)
    ensures k < |calls| && Effective(calls[k]) ==> !Jumps(Run(s, calls[..k], travel), calls[k])
    decreases |calls|
  {
    if k == |calls| {
      assert calls[..k] == calls;
    } else if k < |calls| - 1 {
      var rest := calls[..|calls| - 1];
      NoJumpPrefix(s, rest, k, travel);
      assert rest[..k] == calls[..k];
    }
  }

  /** After calibration, over every run without a jump of the data time, untrusted and failed calls
      interleaved freely: the estimates of any two trusted calls differ by exactly the difference of
      their data times, whatever the host clocks do. */
  lemma EstimatesTelescope(s: State, calls: seq<Call>, j: nat, k: nat, travel: int)
    requires Calibrated(s) && NoJump(s, calls, travel)
    requires j < |calls| && k < |calls| && Effective(calls[j]) && Effective(calls[k])
    ensures EstimateAt(s, calls, j, travel) == calls[j].data + Offset(s)
    ensures EstimateAt(s, calls, k, travel) - EstimateAt(s, calls, j, travel) == calls[k].data - calls[j].data
  {
    forall i | i == j || i == k ensures EstimateAt(s, calls, i, travel) == calls[i].data + Offset(s) {
      NoJumpPrefix(s, calls, i, travel);
      OffsetStays(s, calls[..i], travel);
    }
  }

  // ---------------------------------------------------------------- stabilising

  function EffectiveCount(calls: seq<Call>): nat {
    if calls == [] then 0
    else EffectiveCount(calls[..|calls| - 1]) + if Effective(calls[|calls| - 1]) then 1 else 0
  }

  lemma {:induction false} ThresholdCountsDown(s: State, calls: seq<Call>, travel: int)
    requires NoJump(s, calls, travel)
    ensures Run(s, calls, travel).threshold == s.threshold - EffectiveCount(calls)
  {
    if calls != [] {
      ThresholdCountsDown(s, calls[..|calls| - 1], travel);
    }
  }

  /** With no further jump, the estimator calibrates on the sixth trusted call, counting the one that
      found the jump (or the first after a reset), and not before: the travel time is the default up to
      that call, whose boot and data times give the offset of all later estimates. */
  lemma CalibratesOnTheSixth(s: State, jump: Call, calls: seq<Call>, travel: int)
    requires Effective(jump) && (Jumps(s, jump) || s.threshold == STABLE_AFTER)
    requires calls != [] && Effective(calls[|calls| - 1])
    requires var s1 := Step(s, jump, travel); NoJump(s1, calls, travel)
    ensures var s1, c, n := Step(s, jump, travel), calls[|calls| - 1], 1 + EffectiveCount(calls);
      && (Calibrated(Run(s1, calls, travel)) <==> n >= 6)
      && (n <= 6 ==> EstimateAt(s1, calls, |calls| - 1, travel) == c.clocks.boot - travel)
      && (n == 6 ==> Offset(Run(s1, calls, travel)) == c.clocks.boot - travel - c.data)
  {
    var s1, before := Step(s, jump, travel), calls[..|calls| - 1];
    ThresholdCountsDown(s1, calls, travel);
    ThresholdCountsDown(s1, before, travel);
    assert calls[..|calls|] == calls;
  }

  // ---------------------------------------------------------------- what the calls alone say

  /** The data time of the latest trusted call. */
  function LastData(calls: seq<Call>): int {
    if calls == [] then 0
    else if Effective(calls[|calls| - 1]) then calls[|calls| - 1].data
    else LastData(calls[..|calls| - 1])
  }

  /** The trusted calls since the data time last advanced by anything but the time between fixes. */
  function Steady(calls: seq<Call>): nat {
    if calls == [] then 0
    else
      var before, c := calls[..|calls| - 1], calls[|calls| - 1];
      if c.clocks.NoClocks? || !c.trusted then Steady(before)
      else if c.tbf > 0 && c.data != LastData(before) + c.tbf then 1
      else Steady(before) + 1
  }

  /** The boot time of data time zero, as the latest call that was the sixth of its kind has it. */
  function Anchor(calls: seq<Call>, travel: int): int {
    if calls == [] then 0
    else
      var before, c := calls[..|calls| - 1], calls[|calls| - 1];
      if c.clocks.Clocks? && c.trusted && Steady(calls) == 6 then c.clocks.boot - travel - c.data
      else Anchor(before, travel)
  }

  lemma {:induction false} StateFollowsCalls(calls: seq<Call>, travel: int)
    ensures var s := Run(INITIAL, calls, travel);
      && s.prevData == LastData(calls) && s.threshold == STABLE_AFTER - Steady(calls)
      && (Steady(calls) >= 6 ==> Offset(s) == Anchor(calls, travel))
  {
    if calls != [] { StateFollowsCalls(calls[..|calls| - 1], travel); }
  }

  /** Over every run of calls, every estimate is known from the calls alone: none without the clocks; the boot
      time less the default travel time for a call that is not trusted, and for the first six trusted calls
      since a jump of the data time; and after these the data time counted from the sixth. */
  lemma EstimateExactly(calls: seq<Call>, travel: int)
    requires calls != []
    ensures var c, e := calls[|calls| - 1], EstimateAt(INITIAL, calls, |calls| - 1, travel);
      e == match c.clocks
           case NoClocks => -1
           case Clocks(_, boot) =>
             if c.trusted && Steady(calls) > 6 then c.data + Anchor(calls, travel) else boot - travel
  {
    StateFollowsCalls(calls, travel);
    StateFollowsCalls(calls[..|calls| - 1], travel);
  }

  // ---------------------------------------------------------------- the wall clock does not matter

  predicate SameButUtc(a: Call, b: Call) {
    && a.data == b.data && a.trusted == b.trusted && a.tbf == b.tbf
    && (a.clocks.Clocks? <==> b.clocks.Clocks?)
    && (a.clocks.Clocks? ==> a.clocks.boot == b.clocks.boot)
  }

  predicate SameForData(a: State, b: State) {
    && a.prevData == b.prevData && a.prevBoot == b.prevBoot && a.threshold == b.threshold
    && (Calibrated(a) ==> Offset(a) == Offset(b))
  }

  /** Two runs that differ only in the wall clock give the same estimates, jumps of the data time and
      re-calibrations included. */
  lemma {:induction false} WallClockIsIrrelevant(s: State, a: seq<Call>, b: seq<Call>, travel: int)
    requires |a| == |b| && forall i :: 0 <= i < |a| ==> SameButUtc(a[i], b[i])
    ensures SameForData(Run(s, a, travel), Run(s, b, travel))
    ensures forall i :: 0 <= i < |a| ==> EstimateAt(s, a, i, travel) == EstimateAt(s, b, i, travel)
  {
    if a != [] {
      var n := |a| - 1;
      WallClockIsIrrelevant(s, a[..n], b[..n], travel);
      forall i | 0 <= i < n ensures EstimateAt(s, a, i, travel) == EstimateAt(s, b, i, travel) {
        assert a[..n][..i] == a[..i] && b[..n][..i] == b[..i];
        assert EstimateAt(s, a[..n], i, travel) == EstimateAt(s, b[..n], i, travel);
      }
      assert SameButUtc(a[n], b[n]);
    }
  }

  // ---------------------------------------------------------------- GPS time

  datatype GpsTime = GpsTime(week: nat, msOfWeek: nat)

  /** GPS time and tick count read at the same point, and how uncertain that is, in ms. */
  datatype TimePair = TimePair(gps: GpsTime, tick: int, timeUnc: real)

  /** The part of a position report that says when the fix was taken. */
  datatype Report = Report(hasGpsTime: bool, gps: GpsTime, clkUncValid: bool, clkUncMs: real)

  const MS_IN_WEEK := 604800000
  const UNKNOWN_WEEK := 65535
  const CLK_UNC_THRESHOLD_MS := 20.0
  const NO_PAIR := TimePair(GpsTime(0, 0), 0, 0.0)

  /** The report has a GPS time with a known week and a small clock uncertainty. */
  predicate Usable(r: Report) {
    r.hasGpsTime && r.gps.week != UNKNOWN_WEEK && r.clkUncValid && r.clkUncMs < CLK_UNC_THRESHOLD_MS
  }

  /** Every way in which a report is of no use. */
  lemma UsableExactly(r: Report)
    ensures Usable(r) <==>
      !(!r.hasGpsTime || r.gps.week == 65535 || !r.clkUncValid || r.clkUncMs >= 20.0)
  {
  }

  /** What is answered from a pair: the boot time, if it is positive, as certain as the pair. */
  predicate IsBootTime(pair: TimePair, report: Report, curBoot: int, curTick: int, ok: bool, boot: int, unc: real) {
    boot == BootTimeAtOrigin(pair, report.gps, curBoot, curTick) && unc == pair.timeUnc && (ok <==> boot > 0)
  }

  /** Integer division as in C++: toward zero. */
  function TruncDiv(a: int, b: int): int
    requires b > 0
  {
    if a >= 0 then a / b else -((-a) / b)
  }

  function Msec(t: GpsTime): int {
    t.week * MS_IN_WEEK + t.msOfWeek
  }

  /** The tick count of a 19.2 MHz timer in nanoseconds, as computed and exactly. */
  function TickNsec(tick: int): int {
    TruncDiv(tick, 192) * 10000
  }

  function ExactTickNsec(tick: int): real {
    tick as real * 10000.0 / 192.0
  }

  function BootTimeAtOrigin(pair: TimePair, origin: GpsTime, curBoot: int, curTick: int): int {
    curBoot - (TickNsec(curTick) - (TickNsec(pair.tick) + (Msec(origin) - Msec(pair.gps)) * 1000000))
  }

  function ExactBootTime(pair: TimePair, origin: GpsTime, curBoot: int, curTick: int): real {
    curBoot as real
    - (ExactTickNsec(curTick) - (ExactTickNsec(pair.tick) + ((Msec(origin) - Msec(pair.gps)) * 1000000) as real))
  }

  lemma TickError(tick: nat)
    ensures 0.0 <= ExactTickNsec(tick) - TickNsec(tick) as real < 10000.0
  {
    var q, r := tick / 192, tick % 192;
    assert tick == 192 * q + r;
    assert tick as real == 192.0 * q as real + r as real;
    assert ExactTickNsec(tick) == 10000.0 * q as real + r as real * 10000.0 / 192.0;
  }

  /** For nonnegative tick counts the boot time is off by less than 10000 ns. */
  lemma BootTimeError(pair: TimePair, origin: GpsTime, curBoot: int, curTick: nat)
    requires pair.tick >= 0
    ensures var e :=
        BootTimeAtOrigin(pair, origin, curBoot, curTick) as real - ExactBootTime(pair, origin, curBoot, curTick);
      -10000.0 < e < 10000.0
  {
    TickError(pair.tick);
    TickError(curTick);
  }

  /** A fix taken when the pair was read, asked for at once, has the present boot time; every 192 ticks that
      pass before it is asked for put it 10000 ns back. */
  lemma SameMoment(pair: TimePair, curBoot: int, k: nat)
    requires pair.tick >= 0
    ensures BootTimeAtOrigin(pair, pair.gps, curBoot, pair.tick + 192 * k) == curBoot - k * 10000
  {
    assert (pair.tick + 192 * k) / 192 == pair.tick / 192 + k;
  }

  /** The GPS time k ms later, carried into the week. */
  function Later(t: GpsTime, k: nat): GpsTime {
    var ms := t.msOfWeek + k;
    GpsTime(t.week + ms / MS_IN_WEEK, ms % MS_IN_WEEK)
  }

  /** Shifting the GPS time by k ms, week rollover included, shifts the boot time by k million ns. */
  lemma ShiftedOrigin(pair: TimePair, origin: GpsTime, curBoot: int, curTick: int, k: nat)
    ensures BootTimeAtOrigin(pair, Later(origin, k), curBoot, curTick) ==
      BootTimeAtOrigin(pair, origin, curBoot, curTick) + k * 1000000
  {
    var ms := origin.msOfWeek + k;
    var carry := ms / MS_IN_WEEK;
    assert ms == carry * MS_IN_WEEK + ms % MS_IN_WEEK;
    assert Msec(Later(origin, k)) == Msec(origin) + k;
  }

  // ---------------------------------------------------------------- the class

  class ElapsedRealtimeEstimator {
    var mCurrentClockDiff: int
    var mPrevUtcTimeNanos: int
    var mPrevBootTimeNanos: int
    var mPrevDataTimeNanos: int
    var mFixTimeStablizationThreshold: int
    const mInitialTravelTime: int
    var mTimePairPVTReport: TimePair
    var mTimePairMeasReport: TimePair

    function View(): State
      reads this
    {
      State(mCurrentClockDiff, mPrevUtcTimeNanos, mPrevBootTimeNanos, mPrevDataTimeNanos, mFixTimeStablizationThreshold)
    }

    constructor (travelTimeNanosEstimate: int)
      ensures View() == INITIAL && mInitialTravelTime == travelTimeNanosEstimate
    {
      mInitialTravelTime := travelTimeNanosEstimate;
      new;
      Reset();
    }

    method Reset()
      modifies this
      ensures View() == INITIAL
      ensures mTimePairPVTReport == mTimePairMeasReport == NO_PAIR
    {
      mCurrentClockDiff := 0;
      mPrevDataTimeNanos := 0;
      mPrevUtcTimeNanos := 0;
      mPrevBootTimeNanos := 0;
      mFixTimeStablizationThreshold := 5;
      mTimePairPVTReport := NO_PAIR;
      mTimePairMeasReport := NO_PAIR;
    }

    method GetElapsedRealtimeEstimateNanos(clocks: Clocks, curDataTimeNanos: int, trustable: bool, tbfNanos: int)
      returns (r: int)
      modifies this
      ensures var c := Call(clocks, curDataTimeNanos, trustable, tbfNanos);
        View() == Step(old(View()), c, mInitialTravelTime) && r == Estimate(old(View()), c, mInitialTravelTime)
      ensures mTimePairPVTReport == old(mTimePairPVTReport) && mTimePairMeasReport == old(mTimePairMeasReport)
    {
      var currentTravelTimeNanos := mInitialTravelTime;
      var sinceBootTimeNanos := 0;
      if clocks.Clocks? {
        sinceBootTimeNanos := clocks.boot;
        if trustable {
          if tbfNanos > 0 && tbfNanos != curDataTimeNanos - mPrevDataTimeNanos {
            mFixTimeStablizationThreshold := 5;
          }
          var currentTimeNanos := clocks.utc;
          if mFixTimeStablizationThreshold == 0 {
            currentTravelTimeNanos := mInitialTravelTime;
            mCurrentClockDiff := currentTimeNanos - curDataTimeNanos - currentTravelTimeNanos;
          } else if mFixTimeStablizationThreshold < 0 {
            mCurrentClockDiff := mCurrentClockDiff + (currentTimeNanos - sinceBootTimeNanos)
              - (mPrevUtcTimeNanos - mPrevBootTimeNanos);
            currentTravelTimeNanos := currentTimeNanos - curDataTimeNanos - mCurrentClockDiff;
          }
          mPrevUtcTimeNanos := currentTimeNanos;
          mPrevBootTimeNanos := sinceBootTimeNanos;
          mPrevDataTimeNanos := curDataTimeNanos;
          mFixTimeStablizationThreshold := mFixTimeStablizationThreshold - 1;
        }
      } else {
        return -1;
      }
      return sinceBootTimeNanos - currentTravelTimeNanos;
    }

    /** The pair of a measurement report goes before that of a position report; week 0 is no pair. */
    method GetElapsedRealtimeForGpsTime(report: Report, curBootTimeNs: int, curTick: int)
      returns (ok: bool, bootTimeNsAtOrigin: int, bootTimeUnc: real)
      ensures !report.hasGpsTime || report.gps.week == 65535 || !report.clkUncValid || report.clkUncMs >= 20.0 ==> !ok
      ensures mTimePairMeasReport.gps.week == 0 && mTimePairPVTReport.gps.week == 0 ==> !ok
      ensures Usable(report) && mTimePairMeasReport.gps.week != 0 ==>
        IsBootTime(mTimePairMeasReport, report, curBootTimeNs, curTick, ok, bootTimeNsAtOrigin, bootTimeUnc)
      ensures Usable(report) && mTimePairMeasReport.gps.week == 0 && mTimePairPVTReport.gps.week != 0 ==>
        IsBootTime(mTimePairPVTReport, report, curBootTimeNs, curTick, ok, bootTimeNsAtOrigin, bootTimeUnc)
    {
      ok, bootTimeNsAtOrigin, bootTimeUnc := false, 0, 0.0;
      var timePair;
      if mTimePairMeasReport.gps.week != 0 {
        timePair := mTimePairMeasReport;
      } else if mTimePairPVTReport.gps.week != 0 {
        timePair := mTimePairPVTReport;
      } else {
        return;
      }
      if !report.hasGpsTime || report.gps.week == UNKNOWN_WEEK || !report.clkUncValid
         || report.clkUncMs >= CLK_UNC_THRESHOLD_MS
      {
        return;
      }
      var originMsec := report.gps.week * MS_IN_WEEK + report.gps.msOfWeek;
      var timePairMsec := timePair.gps.week * MS_IN_WEEK + timePair.gps.msOfWeek;
      var gpsTimeDiffMsec := originMsec - timePairMsec;
      var qtimerNsecAtOrigin := TruncDiv(timePair.tick, 192) * 10000 + gpsTimeDiffMsec * 1000000;
      var curQTimerNSec := TruncDiv(curTick, 192) * 10000;
      bootTimeNsAtOrigin := curBootTimeNs - (curQTimerNSec - qtimerNsecAtOrigin);
      bootTimeUnc := timePair.timeUnc;
      ok := bootTimeNsAtOrigin > 0;
    }
  }
}
