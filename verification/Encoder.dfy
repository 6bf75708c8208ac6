/**
 The desktop H.264 encoder's controllers: receiver estimates, network reports and frames
 arrive interleaved, on two different clocks, and decide the bitrate and the keyframes.
 */
module Encoder {
  import opened Basics

  const DESKTOP_MAX_BITRATE := 8_000_000
  const HIGH_INITIAL_BITRATE := 4_000_000
  const BALANCED_INITIAL_BITRATE := 2_500_000
  const BALANCED_MAX_BITRATE := 5_000_000
  const LOW_INITIAL_BITRATE := 1_500_000
  const LOW_MAX_BITRATE := 3_000_000
  const SCENE_PIXEL_DELTA := 24
  const SCENE_CHANGED_FRACTION := 0.30
  const SCENE_MEAN_DELTA := 18.0
  const SCENE_KEYFRAME_COOLDOWN_SECONDS := 0.75
  const SCENE_STABLE_FRAMES_REQUIRED := 4
  const SCENE_STABLE_CHANGED_FRACTION := 0.05
  const SCENE_STABLE_MEAN_DELTA := 4.0
  const BITRATE_DOWNSHIFT_HOLD_SECONDS := 2.0
  const BITRATE_RECONFIGURE_FRACTION := 0.25
  const RECEIVER_REPORT_MAX_AGE_SECONDS := 5.0
  const NETWORK_DEGRADATION_HOLD_SECONDS := 2.0
  const NETWORK_PACKET_LOSS_THRESHOLD_PERCENT := 2.0
  const NETWORK_JITTER_THRESHOLD_MS := 50.0

  // ---------------------------------------------------------------- network health

  datatype Report = Report(receivedAt: real, unhealthy: bool)

  datatype Health = Health(report: Option<Report>, unhealthySince: Option<real>)

  const NO_HEALTH := Health(None, None)

  predicate IsUnhealthy(jitterMs: Option<real>, lossPercent: Option<real>) {
    || (lossPercent.Some? && lossPercent.value >= NETWORK_PACKET_LOSS_THRESHOLD_PERCENT)
    || (jitterMs.Some? && jitterMs.value >= NETWORK_JITTER_THRESHOLD_MS)
  }

  function Reported(h: Health, r: Report): Health {
    var continues := h.report.Some? && h.report.value.unhealthy
                     && r.receivedAt - h.report.value.receivedAt <= RECEIVER_REPORT_MAX_AGE_SECONDS;
    Health(Some(r), if !r.unhealthy then None else if continues then h.unhealthySince else Some(r.receivedAt))
  }

  predicate AllowsDownshift(h: Health, now: real) {
    || h.report.None?
    || now - h.report.value.receivedAt > RECEIVER_REPORT_MAX_AGE_SECONDS
    || (h.report.value.unhealthy && h.unhealthySince.Some?
        && now - h.unhealthySince.value >= NETWORK_DEGRADATION_HOLD_SECONDS)
  }

  /** State shared by all encoders of the process. */
  class ReceiverHealth {
    var report: Option<Report>
    var unhealthySince: Option<real>

    function View(): Health
      reads this
    {
      Health(report, unhealthySince)
    }

    constructor ()
      ensures View() == NO_HEALTH
    {
      report, unhealthySince := None, None;
    }

    method Clear()
      modifies this
      ensures View() == NO_HEALTH
    {
      report, unhealthySince := None, None;
    }

    method Update(jitterMs: Option<real>, lossPercent: Option<real>, receivedAt: real)
      modifies this
      ensures View() == Reported(old(View()), Report(receivedAt, IsUnhealthy(jitterMs, lossPercent)))
    {
      var unhealthy := IsUnhealthy(jitterMs, lossPercent);
      var previous := report;
      if unhealthy {
        var previousIsCurrentlyUnhealthy :=
          previous.Some? && previous.value.unhealthy
          && receivedAt - previous.value.receivedAt <= RECEIVER_REPORT_MAX_AGE_SECONDS;
        if !previousIsCurrentlyUnhealthy {
          unhealthySince := Some(receivedAt);
        }
      } else {
        unhealthySince := None;
      }
      report := Some(Report(receivedAt, unhealthy));
    }
  }

  function AfterReports(history: seq<Report>): Health {
    if history == [] then NO_HEALTH else Reported(AfterReports(history[..|history| - 1]), history[|history| - 1])
  }

  predicate Joined(earlier: Report, later: Report) {
    earlier.unhealthy && later.unhealthy && later.receivedAt - earlier.receivedAt <= 5.0
  }

  /** `start` opens the maximal stretch of unhealthy reports, each within five seconds of the
      one before, that ends at the latest report. */
  predicate StretchStartsAt(history: seq<Report>, start: nat) {
    && start < |history|
    && (forall i :: start <= i < |history| ==> history[i].unhealthy)
    && (forall i :: start < i < |history| ==> Joined(history[i - 1], history[i]))
    && (start > 0 ==> !Joined(history[start - 1], history[start]))
  }

  /** The stored time is that of the stretch's first report; without a stretch none is stored. */
  lemma {:induction false} UnhealthySinceIsStretchStart(history: seq<Report>)
    ensures var h := AfterReports(history);
            && (history == [] ==> h == NO_HEALTH)
            && (history != [] ==> h.report == Some(history[|history| - 1]))
            && (h.unhealthySince.None? <==> history == [] || !history[|history| - 1].unhealthy)
            && (h.unhealthySince.Some? ==>
                  exists start: nat ::
                    StretchStartsAt(history, start) && h.unhealthySince == Some(history[start].receivedAt))
  {
    if history == [] {
    } else {
      hide StretchStartsAt;
      var n := |history| - 1;
      var front := history[..n];
      UnhealthySinceIsStretchStart(front);
      if history[n].unhealthy {
        if n > 0 && Joined(history[n - 1], history[n]) {
          var start: nat :|
            StretchStartsAt(front, start) && AfterReports(front).unhealthySince == Some(front[start].receivedAt);
          StretchGrows(history, start);
        } else {
          StretchOpens(history);
        }
      }
    }
  }

  lemma StretchGrows(history: seq<Report>, start: nat)
    requires |history| > 1 && Joined(history[|history| - 2], history[|history| - 1])
    requires StretchStartsAt(history[..|history| - 1], start)
    ensures StretchStartsAt(history, start)
  {
    var front := history[..|history| - 1];
    assert forall i :: 0 <= i < |front| ==> history[i] == front[i];
  }

  lemma StretchOpens(history: seq<Report>)
    requires history != [] && history[|history| - 1].unhealthy
    requires |history| > 1 ==> !Joined(history[|history| - 2], history[|history| - 1])
    ensures StretchStartsAt(history, |history| - 1)
  {
  }

  lemma StretchIsUnique(history: seq<Report>, a: nat, b: nat)
    requires StretchStartsAt(history, a) && StretchStartsAt(history, b)
    ensures a == b
  {
  }

  /** The reports are silent, stale, or have been bad for two seconds without a break. */
  ghost predicate SustainedOrSilent(history: seq<Report>, now: real) {
    || history == []
    || now - history[|history| - 1].receivedAt > 5.0
    || exists start: nat :: StretchStartsAt(history, start)
         && now - history[start].receivedAt >= 2.0
  }

  /** With a fresh report the gate opens exactly when the current unhealthy stretch has lasted
      two seconds; without one it is open. */
  lemma GateOpensIffSustained(history: seq<Report>, now: real)
    ensures AllowsDownshift(AfterReports(history), now) <==> SustainedOrSilent(history, now)
  {
    UnhealthySinceIsStretchStart(history);
    hide AfterReports;
    var h := AfterReports(history);
    if h.unhealthySince.Some? {
      var since: nat :| StretchStartsAt(history, since) && h.unhealthySince == Some(history[since].receivedAt);
      forall other: nat | StretchStartsAt(history, other) ensures other == since {
        StretchIsUnique(history, since, other);
      }
    } else if history != [] {
      NoStretchWhenHealthy(history);
    }
  }

  lemma NoStretchWhenHealthy(history: seq<Report>)
    requires history != [] && !history[|history| - 1].unhealthy
    ensures forall start: nat :: !StretchStartsAt(history, start)
  {
  }

  // ---------------------------------------------------------------- frames

  datatype Luma = Luma(rows: int, columns: int, values: seq<int>)

  /** A frame about to be encoded; `force` is a receiver's request for a keyframe and `emits`
      says whether the codec produced data for it. */
  datatype Frame = Frame(width: int, height: int, time: Option<real>, luma: Option<Luma>, force: bool, emits: bool)

  function AbsDelta(a: int, b: int): int { if a < b then b - a else a - b }

  function ChangedSamples(a: seq<int>, b: seq<int>): nat
    requires |a| == |b|
  {
    if a == [] then 0
    else ChangedSamples(a[1..], b[1..]) + if AbsDelta(a[0], b[0]) >= SCENE_PIXEL_DELTA then 1 else 0
  }

  function TotalDelta(a: seq<int>, b: seq<int>): int
    requires |a| == |b|
  {
    if a == [] then 0 else TotalDelta(a[1..], b[1..]) + AbsDelta(a[0], b[0])
  }

  predicate Comparable(a: Option<Luma>, b: Option<Luma>) {
    && a.Some? && b.Some? && a.value.rows == b.value.rows && a.value.columns == b.value.columns
    && |a.value.values| == |b.value.values| > 0
  }

  function ChangedFraction(a: Luma, b: Luma): real
    requires |a.values| == |b.values| > 0
  {
    ChangedSamples(a.values, b.values) as real / |a.values| as real
  }

  function MeanDelta(a: Luma, b: Luma): real
    requires |a.values| == |b.values| > 0
  {
    TotalDelta(a.values, b.values) as real / |a.values| as real
  }

  datatype Codec = Codec(width: int, height: int, bitrate: int)

  datatype Enc = Enc(
    minBitrate: int, defaultBitrate: int,
    profileMax: int, target: int, receiverTarget: int,
    pendingLower: Option<int>, pendingSince: Option<real>, initialApplied: bool,
    lastKeyframe: Option<real>, previousLuma: Option<Luma>, stableFrames: nat, codec: Option<Codec>)

  function NewEnc(minBitrate: int, defaultBitrate: int): Enc {
    Enc(minBitrate, defaultBitrate, DESKTOP_MAX_BITRATE, defaultBitrate, defaultBitrate,
        None, None, false, None, None, 0, None)
  }

  function Clamp(e: Enc, bitrate: int): int {
    var capped := if bitrate < e.profileMax then bitrate else e.profileMax;
    if capped > e.minBitrate then capped else e.minBitrate
  }

  function SetTarget(e: Enc, bitrate: int): Enc {
    var clamped := Clamp(e, bitrate);
    var e1 := e.(receiverTarget := clamped);
    if !e.initialApplied || clamped >= e.target
    then e1.(target := clamped, pendingLower := None, pendingSince := None)
    else e1.(pendingLower := Some(clamped))
  }

  function PreferredInitial(f: Frame): int {
    var pixels := f.width * f.height;
    if pixels >= 1920 * 1080 then HIGH_INITIAL_BITRATE
    else if pixels >= 1600 * 900 then BALANCED_INITIAL_BITRATE else LOW_INITIAL_BITRATE
  }

  function PreferredMax(f: Frame): int {
    var pixels := f.width * f.height;
    if pixels >= 1920 * 1080 then DESKTOP_MAX_BITRATE
    else if pixels >= 1600 * 900 then BALANCED_MAX_BITRATE else LOW_MAX_BITRATE
  }

  function ApplyInitial(e: Enc, f: Frame): Enc {
    if e.initialApplied then e
    else
      var e1 := e.(profileMax := PreferredMax(f));
      SetTarget(e1, if e1.target == e1.defaultBitrate then PreferredInitial(f) else e1.target).(initialApplied := true)
  }

  predicate Cooling(e: Enc, time: Option<real>) {
    time.Some? && e.lastKeyframe.Some? && time.value - e.lastKeyframe.value < SCENE_KEYFRAME_COOLDOWN_SECONDS
  }

  /** A frame that differs little from the one before. */
  predicate IsStable(e: Enc, f: Frame) {
    && Comparable(f.luma, e.previousLuma)
    && ChangedFraction(f.luma.value, e.previousLuma.value) <= SCENE_STABLE_CHANGED_FRACTION
    && MeanDelta(f.luma.value, e.previousLuma.value) <= SCENE_STABLE_MEAN_DELTA
  }

  predicate IsSceneChange(e: Enc, f: Frame) {
    && Comparable(f.luma, e.previousLuma)
    && !Cooling(e, f.time)
    && e.stableFrames >= SCENE_STABLE_FRAMES_REQUIRED
    && ChangedFraction(f.luma.value, e.previousLuma.value) >= SCENE_CHANGED_FRACTION
    && MeanDelta(f.luma.value, e.previousLuma.value) >= SCENE_MEAN_DELTA
  }

  function ObserveScene(e: Enc, f: Frame): Enc {
    e.(previousLuma := f.luma, stableFrames := if IsStable(e, f) then e.stableFrames + 1 else 0)
  }

  function ApplyPendingLower(e: Enc, time: Option<real>, contentStable: bool, gateOpen: bool): Enc {
    if e.pendingLower.None? || time.None? then e
    else if e.pendingLower.value >= e.target then e.(pendingLower := None, pendingSince := None)
    else if e.pendingSince.None? || time.value < e.pendingSince.value then e.(pendingSince := time)
    else if contentStable || time.value - e.pendingSince.value < BITRATE_DOWNSHIFT_HOLD_SECONDS || !gateOpen then e
    else e.(target := e.pendingLower.value, pendingLower := None, pendingSince := None)
  }

  predicate NeedsNewCodec(e: Enc, f: Frame) {
    || e.codec.None?
    || f.width != e.codec.value.width || f.height != e.codec.value.height
    || (e.codec.value.bitrate > 0
        && AbsDelta(e.target, e.codec.value.bitrate) as real / e.codec.value.bitrate as real
             > BITRATE_RECONFIGURE_FRACTION)
  }

  /** The encoder's decisions up to the codec call. */
  function Prepare(e: Enc, f: Frame, gateOpen: bool): Enc {
    var observed := ObserveScene(ApplyInitial(e, f), f);
    ApplyPendingLower(observed, f.time, observed.stableFrames >= SCENE_STABLE_FRAMES_REQUIRED, gateOpen)
  }

  predicate EmitsKeyframe(e: Enc, f: Frame, gateOpen: bool) {
    f.force || NeedsNewCodec(Prepare(e, f, gateOpen), f) || IsSceneChange(ApplyInitial(e, f), f)
  }

  function Encode(e: Enc, f: Frame, gateOpen: bool): Enc {
    var prepared := Prepare(e, f, gateOpen);
    var coded := if NeedsNewCodec(prepared, f) then prepared.(codec := Some(Codec(f.width, f.height, prepared.target)))
                 else prepared;
    if f.emits && EmitsKeyframe(e, f, gateOpen) then coded.(lastKeyframe := f.time) else coded
  }

  class TunedH264Encoder {
    const minBitrate: int
    const defaultBitrate: int
    const health: ReceiverHealth
    var profileMaxBitrate: int
    var targetBitrate: int
    var receiverTargetBitrate: int
    var pendingLowerBitrate: Option<int>
    var pendingLowerSince: Option<real>
    var initialBitrateApplied: bool
    var lastSceneKeyframeTime: Option<real>
    var previousLumaSample: Option<Luma>
    var stableFrameCount: nat
    var codec: Option<Codec>

    function View(): Enc
      reads this
    {
      Enc(minBitrate, defaultBitrate, profileMaxBitrate, targetBitrate, receiverTargetBitrate, pendingLowerBitrate,
          pendingLowerSince, initialBitrateApplied, lastSceneKeyframeTime, previousLumaSample, stableFrameCount, codec)
    }

    constructor (minBitrate: int, defaultBitrate: int, health: ReceiverHealth)
      ensures View() == NewEnc(minBitrate, defaultBitrate) && this.health == health
    {
      this.minBitrate, this.defaultBitrate, this.health := minBitrate, defaultBitrate, health;
      profileMaxBitrate, targetBitrate, receiverTargetBitrate := DESKTOP_MAX_BITRATE, defaultBitrate, defaultBitrate;
      pendingLowerBitrate, pendingLowerSince, initialBitrateApplied := None, None, false;
      lastSceneKeyframeTime, previousLumaSample, stableFrameCount, codec := None, None, 0, None;
    }

    method SetTargetBitrate(bitrate: int)
      modifies this
      ensures View() == SetTarget(old(View()), bitrate)
    {
      var clamped := Clamp(View(), bitrate);
      receiverTargetBitrate := clamped;
      if !initialBitrateApplied || clamped >= targetBitrate {
        targetBitrate := clamped;
        pendingLowerBitrate := None;
        pendingLowerSince := None;
      } else {
        pendingLowerBitrate := Some(clamped);
      }
    }

    method IsLargeSceneChange(f: Frame) returns (scene: bool)
      modifies this`previousLumaSample, this`stableFrameCount
      ensures scene == IsSceneChange(old(View()), f) && View() == ObserveScene(old(View()), f)
    {
      var current, previous := f.luma, previousLumaSample;
      previousLumaSample := current;
      if !Comparable(current, previous) {
        stableFrameCount := 0;
        return false;
      }
      var hadStableContext := stableFrameCount >= SCENE_STABLE_FRAMES_REQUIRED;
      var changedFraction := ChangedFraction(current.value, previous.value);
      var meanDelta := MeanDelta(current.value, previous.value);
      var stable := changedFraction <= SCENE_STABLE_CHANGED_FRACTION && meanDelta <= SCENE_STABLE_MEAN_DELTA;
      stableFrameCount := if stable then stableFrameCount + 1 else 0;
      if f.time.Some? && lastSceneKeyframeTime.Some?
         && f.time.value - lastSceneKeyframeTime.value < SCENE_KEYFRAME_COOLDOWN_SECONDS {
        return false;
      }
      return hadStableContext && changedFraction >= SCENE_CHANGED_FRACTION && meanDelta >= SCENE_MEAN_DELTA;
    }

    method ApplyPendingLowerBitrate(time: Option<real>, contentStable: bool, now: real)
      modifies this
      ensures View() == ApplyPendingLower(old(View()), time, contentStable, AllowsDownshift(health.View(), now))
    {
      var pending := pendingLowerBitrate;
      if pending.None? || time.None? {
        return;
      }
      if pending.value >= targetBitrate {
        pendingLowerBitrate := None;
        pendingLowerSince := None;
        return;
      }
      if pendingLowerSince.None? || time.value < pendingLowerSince.value {
        pendingLowerSince := time;
        return;
      }
      if contentStable || time.value - pendingLowerSince.value < BITRATE_DOWNSHIFT_HOLD_SECONDS
         || !AllowsDownshift(health.View(), now) {
        return;
      }
      targetBitrate := pending.value;
      pendingLowerBitrate := None;
      pendingLowerSince := None;
    }

    method ApplyInitialBitrate(f: Frame)
      modifies this
      ensures View() == ApplyInitial(old(View()), f)
    {
      if initialBitrateApplied {
        return;
      }
      profileMaxBitrate := PreferredMax(f);
      if targetBitrate == defaultBitrate {
        SetTargetBitrate(PreferredInitial(f));
      } else {
        SetTargetBitrate(targetBitrate);
      }
      initialBitrateApplied := true;
    }

    method EncodeFrame(f: Frame, now: real) returns (keyframe: bool)
      modifies this
      ensures var gateOpen := AllowsDownshift(health.View(), now);
              View() == Encode(old(View()), f, gateOpen) && keyframe == EmitsKeyframe(old(View()), f, gateOpen)
    {
      hide ApplyInitial, IsSceneChange, ObserveScene, ApplyPendingLower, NeedsNewCodec;
      ApplyInitialBitrate(f);
      var scene := IsLargeSceneChange(f);
      ApplyPendingLowerBitrate(f.time, stableFrameCount >= SCENE_STABLE_FRAMES_REQUIRED, now);
      var initialKeyframe := NeedsNewCodec(View(), f);
      keyframe := f.force || initialKeyframe || scene;
      if initialKeyframe {
        codec := Some(Codec(f.width, f.height, targetBitrate));
      }
      if f.emits && keyframe {
        lastSceneKeyframeTime := f.time;
      }
    }
  }

  // ---------------------------------------------------------------- runs

  datatype Event =
    | Estimate(bitrate: int)
    | NetworkReport(report: Report)
    | ReportsCleared
    | Encoded(frame: Frame, now: real)

  datatype State = State(enc: Enc, health: Health)

  function Next(s: State, e: Event): State {
    match e
    case Estimate(bitrate) => s.(enc := SetTarget(s.enc, bitrate))
    case NetworkReport(report) => s.(health := Reported(s.health, report))
    case ReportsCleared => s.(health := NO_HEALTH)
    case Encoded(frame, now) => s.(enc := Encode(s.enc, frame, AllowsDownshift(s.health, now)))
  }

  function After(start: State, events: seq<Event>): State {
    if events == [] then start else Next(After(start, events[..|events| - 1]), events[|events| - 1])
  }

  /** The reports received since they were last cleared, `earlier` ones from before the run included. */
  function ReportsSince(earlier: seq<Report>, events: seq<Event>): seq<Report> {
    if events == [] then earlier
    else
      var front, last := events[..|events| - 1], events[|events| - 1];
      match last
      case NetworkReport(report) => ReportsSince(earlier, front) + [report]
      case ReportsCleared => []
      case _ => ReportsSince(earlier, front)
  }

  /** The health an encoder sees is that of the reports, whichever encoder was there for them. */
  lemma {:induction false} HealthFollowsReports(start: State, earlier: seq<Report>, events: seq<Event>)
    requires start.health == AfterReports(earlier)
    ensures After(start, events).health == AfterReports(ReportsSince(earlier, events))
  {
    if events == [] {
    } else {
      hide SetTarget, Encode;
      var front := events[..|events| - 1];
      HealthFollowsReports(start, earlier, front);
      var before := ReportsSince(earlier, front);
      if events[|events| - 1].NetworkReport? {
        assert (before + [events[|events| - 1].report])[..|before|] == before;
      }
    }
  }

  /** The codec library's bounds: a positive minimum, and a default every profile can carry. */
  ghost predicate Starts(s: State) {
    && s.enc == NewEnc(s.enc.minBitrate, s.enc.defaultBitrate)
    && 0 < s.enc.minBitrate <= s.enc.defaultBitrate <= LOW_MAX_BITRATE
  }

  ghost predicate Bounded(e: Enc) {
    && 0 < e.minBitrate <= e.target <= e.profileMax
    && e.minBitrate <= e.receiverTarget
    && e.minBitrate <= LOW_MAX_BITRATE <= e.profileMax
    && (e.pendingLower.Some? ==>
          && e.initialApplied && e.minBitrate <= e.pendingLower.value < e.target
          && e.pendingLower.value == e.receiverTarget)
    && (e.pendingSince.Some? ==> e.pendingLower.Some?)
  }

  lemma SetTargetKeepsBounded(e: Enc, bitrate: int)
    requires Bounded(e)
    ensures Bounded(SetTarget(e, bitrate))
  {
  }

  lemma EncodeKeepsBounded(e: Enc, f: Frame, gateOpen: bool)
    requires Bounded(e)
    ensures Bounded(Encode(e, f, gateOpen))
  {
    InitialKeepsBounded(e, f);
    var e1 := ApplyInitial(e, f);
    var e2 := ObserveScene(e1, f);
    hide ApplyInitial, IsSceneChange, NeedsNewCodec, IsStable;
    assert Bounded(ApplyPendingLower(e2, f.time, e2.stableFrames >= SCENE_STABLE_FRAMES_REQUIRED, gateOpen));
  }

  lemma InitialKeepsBounded(e: Enc, f: Frame)
    requires Bounded(e)
    ensures Bounded(ApplyInitial(e, f))
  {
  }

  /** In every run the target stays within the codec's minimum and the profile's ceiling, a
      pending decrease is a real decrease to the latest estimate, and only a pending decrease
      is ever being timed. */
  lemma {:induction false} TargetStaysBounded(start: State, events: seq<Event>)
    requires Starts(start)
    ensures Bounded(After(start, events).enc)
  {
    hide SetTarget, Encode;
    if events == [] {
    } else {
      TargetStaysBounded(start, events[..|events| - 1]);
      var s := After(start, events[..|events| - 1]);
      match events[|events| - 1] {
        case Estimate(bitrate) => SetTargetKeepsBounded(s.enc, bitrate);
        case Encoded(frame, now) => EncodeKeepsBounded(s.enc, frame, AllowsDownshift(s.health, now));
        case _ =>
      }
    }
  }

  function LatestEstimate(events: seq<Event>): Option<int> {
    if events == [] then None
    else if events[|events| - 1].Estimate? then Some(events[|events| - 1].bitrate)
    else LatestEstimate(events[..|events| - 1])
  }

  lemma FrameKeepsPendingValue(e: Enc, f: Frame, gateOpen: bool)
    requires Bounded(e) && Encode(e, f, gateOpen).pendingLower.Some?
    ensures var after := Encode(e, f, gateOpen);
            after.pendingLower == e.pendingLower && after.profileMax == e.profileMax && after.minBitrate == e.minBitrate
  {
    hide IsSceneChange, NeedsNewCodec, IsStable, Clamp, PreferredMax, PreferredInitial;
  }

  /** A pending decrease is the latest receiver estimate, within the bounds. */
  lemma {:induction false} PendingIsLatestEstimate(start: State, events: seq<Event>)
    requires Starts(start) && After(start, events).enc.pendingLower.Some?
    ensures LatestEstimate(events).Some?
    ensures After(start, events).enc.pendingLower.value == Clamp(After(start, events).enc, LatestEstimate(events).value)
  {
    hide Encode;
    var front, last := events[..|events| - 1], events[|events| - 1];
    TargetStaysBounded(start, front);
    if last.Encoded? {
      FrameKeepsPendingValue(After(start, front).enc, last.frame,
                             AllowsDownshift(After(start, front).health, last.now));
    }
    if !last.Estimate? {
      PendingIsLatestEstimate(start, front);
    }
  }

  // ---------------------------------------------------------------- sustained downshift

  /** Since the frame at position `i`, dated `since`, every estimate has been below the target,
      media time has not gone back before it, and the target has not changed. */
  ghost predicate HeldSince(start: State, events: seq<Event>, i: nat, since: real) {
    && i < |events| && events[i].Encoded? && events[i].frame.time == Some(since)
    && forall j :: i < j < |events| ==>
         match events[j]
         case Estimate(bitrate) => bitrate < After(start, events).enc.target
         case Encoded(frame, _) => frame.time.Some? ==> frame.time.value >= since
         case _ => true
  }

  ghost predicate TargetUnchangedSince(start: State, events: seq<Event>, i: nat) {
    forall j :: i < j <= |events| ==> After(start, events[..j]).enc.target == After(start, events).enc.target
  }

  lemma ExtendHold(start: State, events: seq<Event>, i: nat, since: real)
    requires events != []
    requires var front := events[..|events| - 1];
             && HeldSince(start, front, i, since) && TargetUnchangedSince(start, front, i)
             && After(start, front).enc.target == After(start, events).enc.target
    requires match events[|events| - 1]
             case Estimate(bitrate) => bitrate < After(start, events).enc.target
             case Encoded(frame, _) => frame.time.Some? ==> frame.time.value >= since
             case _ => true
    ensures HeldSince(start, events, i, since) && TargetUnchangedSince(start, events, i)
  {
    hide After;
    var front := events[..|events| - 1];
    forall j | i < j <= |events| ensures After(start, events[..j]).enc.target == After(start, events).enc.target {
      if j < |events| {
        assert events[..j] == front[..j];
      } else {
        assert events[..j] == events;
      }
    }
  }

  /** How one frame can move the pending decrease. */
  lemma FrameMovesPending(e: Enc, f: Frame, gateOpen: bool)
    requires Bounded(e)
    ensures var after := Encode(e, f, gateOpen);
            && (after.pendingSince.Some? ==>
                  && after.target == e.target
                  && (after.pendingSince == f.time
                      || (after.pendingSince == e.pendingSince
                          && (f.time.Some? ==> f.time.value >= e.pendingSince.value))))
            && (e.initialApplied && after.target != e.target ==>
                  && after.target < e.target && after.target == e.receiverTarget
                  && e.pendingSince.Some? && f.time.Some?
                  && f.time.value - e.pendingSince.value >= BITRATE_DOWNSHIFT_HOLD_SECONDS
                  && gateOpen && ObserveScene(e, f).stableFrames < SCENE_STABLE_FRAMES_REQUIRED)
  {
    hide IsSceneChange, NeedsNewCodec, IsStable, Clamp, PreferredMax, PreferredInitial;
  }

  lemma EstimateBelowTarget(e: Enc, bitrate: int)
    requires Bounded(e) && SetTarget(e, bitrate).pendingSince.Some?
    ensures SetTarget(e, bitrate).target == e.target && SetTarget(e, bitrate).pendingSince == e.pendingSince
    ensures bitrate < e.target
  {
  }

  /** A pending decrease that is being timed is anchored at an earlier frame of the run. */
  lemma {:induction false} PendingIsAnchored(start: State, events: seq<Event>) returns (i: nat)
    requires Starts(start) && After(start, events).enc.pendingSince.Some?
    ensures HeldSince(start, events, i, After(start, events).enc.pendingSince.value)
    ensures TargetUnchangedSince(start, events, i)
  {
    hide SetTarget, Encode, HeldSince, TargetUnchangedSince;
    var front, last := events[..|events| - 1], events[|events| - 1];
    var before, after := After(start, front), After(start, events);
    TargetStaysBounded(start, front);
    if last.Estimate? {
      EstimateBelowTarget(before.enc, last.bitrate);
    } else if last.Encoded? {
      FrameMovesPending(before.enc, last.frame, AllowsDownshift(before.health, last.now));
    }
    if last.Encoded? && after.enc.pendingSince == last.frame.time {
      i := |events| - 1;
      AnchorHere(start, events);
    } else {
      i := PendingIsAnchored(start, front);
      ExtendHold(start, events, i, after.enc.pendingSince.value);
    }
  }

  lemma AnchorHere(start: State, events: seq<Event>)
    requires events != [] && events[|events| - 1].Encoded? && events[|events| - 1].frame.time.Some?
    ensures HeldSince(start, events, |events| - 1, events[|events| - 1].frame.time.value)
    ensures TargetUnchangedSince(start, events, |events| - 1)
  {
    assert events[..|events|] == events;
  }

  /** After the first frame the target falls only at a frame that comes at least two seconds
      of media time after another, with every estimate in between below the target, content
      moving, and the network reports since their last clearing absent, stale or unbroken bad
      for two seconds; and it falls to the latest estimate. */
  lemma DownshiftIsSustained(start: State, earlier: seq<Report>, events: seq<Event>, e: Event) returns (i: nat)
    requires Starts(start) && start.health == AfterReports(earlier)
    requires After(start, events).enc.initialApplied
    requires Next(After(start, events), e).enc.target < After(start, events).enc.target
    ensures var s := After(start, events);
            && e.Encoded? && e.frame.time.Some?
            && i < |events| && events[i].Encoded? && events[i].frame.time.Some?
            && HeldSince(start, events, i, events[i].frame.time.value)
            && TargetUnchangedSince(start, events, i)
            && e.frame.time.value - events[i].frame.time.value >= BITRATE_DOWNSHIFT_HOLD_SECONDS
            && SustainedOrSilent(ReportsSince(earlier, events), e.now)
            && ObserveScene(s.enc, e.frame).stableFrames < SCENE_STABLE_FRAMES_REQUIRED
            && LatestEstimate(events).Some? && Next(s, e).enc.target == Clamp(s.enc, LatestEstimate(events).value)
  {
    var s := After(start, events);
    TargetStaysBounded(start, events);
    HealthFollowsReports(start, earlier, events);
    hide Encode, TargetUnchangedSince, SustainedOrSilent, AllowsDownshift, AfterReports;
    if e.Encoded? {
      GateOpensIffSustained(ReportsSince(earlier, events), e.now);
      FrameMovesPending(s.enc, e.frame, AllowsDownshift(s.health, e.now));
    }
    PendingIsLatestEstimate(start, events);
    i := PendingIsAnchored(start, events);
  }

  // ---------------------------------------------------------------- scene keyframes

  /** The frame at position `k` asks for a keyframe because the scene changed. */
  predicate FiresAt(start: State, events: seq<Event>, k: nat) {
    && k < |events| && events[k].Encoded?
    && IsSceneChange(ApplyInitial(After(start, events[..k]).enc, events[k].frame), events[k].frame)
  }

  function FramesIn(events: seq<Event>): nat {
    if events == [] then 0
    else FramesIn(events[..|events| - 1]) + if events[|events| - 1].Encoded? then 1 else 0
  }

  lemma EncodeCountsStable(e: Enc, f: Frame, gateOpen: bool)
    ensures var after := Encode(e, f, gateOpen);
            && after.stableFrames <= e.stableFrames + 1
            && (IsSceneChange(ApplyInitial(e, f), f) ==> after.stableFrames == 0)
            && ApplyInitial(e, f).stableFrames == e.stableFrames
  {
    hide ChangedFraction, MeanDelta, NeedsNewCodec, Clamp, Cooling;
  }

  /** Stable frames counted since a scene keyframe are frames encoded since it. */
  lemma {:induction false} StableFramesComeAfter(start: State, events: seq<Event>, k: nat)
    requires FiresAt(start, events, k)
    ensures After(start, events).enc.stableFrames <= FramesIn(events[k + 1..])
  {
    hide Encode, IsSceneChange, ApplyInitial;
    var n := |events| - 1;
    var front, last := events[..n], events[n];
    var s := After(start, front);
    if last.Encoded? {
      EncodeCountsStable(s.enc, last.frame, AllowsDownshift(s.health, last.now));
    }
    if k == n {
      assert events[k + 1..] == [] && events[..k] == front;
    } else {
      assert front[..k] == events[..k];
      StableFramesComeAfter(start, front, k);
      assert events[k + 1..][..|events[k + 1..]| - 1] == front[k + 1..];
    }
  }

  /** Two scene keyframes always have at least four frames between them. */
  lemma SceneKeyframesAreSpaced(start: State, events: seq<Event>, k: nat, e: Event)
    requires FiresAt(start, events, k) && FiresAt(start, events + [e], |events|)
    ensures FramesIn(events[k + 1..]) >= SCENE_STABLE_FRAMES_REQUIRED
  {
    StableFramesComeAfter(start, events, k);
    assert (events + [e])[..|events|] == events && (events + [e])[|events|] == e;
    hide Encode, ChangedFraction, MeanDelta, Cooling, Clamp;
    EncodeCountsStable(After(start, events).enc, e.frame, true);
  }

  /** When the last keyframe that produced data was dated, from the run's frames. */
  function LastKeyframe(start: State, events: seq<Event>): Option<real> {
    if events == [] then None
    else
      var front, last := events[..|events| - 1], events[|events| - 1];
      var s := After(start, front);
      if last.Encoded? && last.frame.emits && EmitsKeyframe(s.enc, last.frame, AllowsDownshift(s.health, last.now))
      then last.frame.time else LastKeyframe(start, front)
  }

  lemma FrameDatesKeyframe(e: Enc, f: Frame, gateOpen: bool)
    ensures Encode(e, f, gateOpen).lastKeyframe
            == if f.emits && EmitsKeyframe(e, f, gateOpen) then f.time else e.lastKeyframe
  {
    hide EmitsKeyframe, IsStable, NeedsNewCodec, Clamp, PreferredMax, PreferredInitial;
  }

  lemma {:induction false} KeyframeTimeIsLast(start: State, events: seq<Event>)
    requires Starts(start)
    ensures After(start, events).enc.lastKeyframe == LastKeyframe(start, events)
  {
    if events == [] {
    } else {
      hide Encode, EmitsKeyframe;
      var front, last := events[..|events| - 1], events[|events| - 1];
      KeyframeTimeIsLast(start, front);
      if last.Encoded? {
        var s := After(start, front);
        FrameDatesKeyframe(s.enc, last.frame, AllowsDownshift(s.health, last.now));
      }
    }
  }

  /** A scene keyframe comes at least the cooldown after the last keyframe of any kind. */
  lemma SceneKeyframeRespectsCooldown(start: State, events: seq<Event>, e: Event)
    requires Starts(start) && FiresAt(start, events + [e], |events|)
    ensures e.Encoded?
    ensures e.frame.time.Some? && LastKeyframe(start, events).Some? ==>
              e.frame.time.value - LastKeyframe(start, events).value >= SCENE_KEYFRAME_COOLDOWN_SECONDS
  {
    hide After, LastKeyframe, IsStable, ChangedFraction, MeanDelta, Clamp, PreferredMax, PreferredInitial;
    assert (events + [e])[..|events|] == events && (events + [e])[|events|] == e;
    KeyframeTimeIsLast(start, events);
  }

  // ---------------------------------------------------------------- the first frame and the codec

  function AtMost(bitrate: int, max: int): int { if bitrate < max then bitrate else max }

  lemma {:induction false} BeforeFirstFrame(start: State, events: seq<Event>)
    requires Starts(start) && forall i :: 0 <= i < |events| ==> !events[i].Encoded?
    ensures var s := After(start, events);
            && !s.enc.initialApplied && s.enc.profileMax == DESKTOP_MAX_BITRATE
            && s.enc.minBitrate == start.enc.minBitrate && s.enc.defaultBitrate == start.enc.defaultBitrate
            && s.enc.target == (if LatestEstimate(events).None? then start.enc.defaultBitrate
                                else Clamp(start.enc, LatestEstimate(events).value))
  {
    if events == [] {
    } else {
      BeforeFirstFrame(start, events[..|events| - 1]);
    }
  }

  /** The first frame keeps an estimate that came before it, capped to the frame's profile, if
      and only if that estimate differs from the codec library's default; otherwise it starts at
      the profile's own bitrate. */
  lemma FirstFrameHonoursEstimate(start: State, events: seq<Event>, f: Frame, now: real)
    requires Starts(start) && forall i :: 0 <= i < |events| ==> !events[i].Encoded?
    ensures var after := Next(After(start, events), Encoded(f, now)).enc;
            var estimate := LatestEstimate(events);
            after.initialApplied && after.pendingLower.None?
            && after.target ==
                 if estimate.Some? && Clamp(start.enc, estimate.value) != start.enc.defaultBitrate
                 then AtMost(Clamp(start.enc, estimate.value), PreferredMax(f))
                 else Clamp(after, PreferredInitial(f))
  {
    hide After, LatestEstimate, IsStable, IsSceneChange, NeedsNewCodec;
    BeforeFirstFrame(start, events);
  }

  /** After every frame the codec has the frame's size and a bitrate within a quarter of the
      target, and any change of codec comes with a keyframe. */
  lemma CodecFollowsTarget(start: State, events: seq<Event>, f: Frame, now: real)
    requires Starts(start)
    ensures var s := After(start, events);
            var after := Next(s, Encoded(f, now)).enc;
            && after.codec.Some? && after.codec.value.width == f.width && after.codec.value.height == f.height
            && after.codec.value.bitrate > 0
            && AbsDelta(after.target, after.codec.value.bitrate) as real
                 <= BITRATE_RECONFIGURE_FRACTION * after.codec.value.bitrate as real
            && (after.codec != s.enc.codec ==> EmitsKeyframe(s.enc, f, AllowsDownshift(s.health, now)))
  {
    hide After, ApplyInitial, ObserveScene, ApplyPendingLower, IsSceneChange;
    TargetStaysBounded(start, events);
    CodecIsPositive(start, events);
    var s := After(start, events);
    PrepareKeepsCodec(s.enc, f, AllowsDownshift(s.health, now));
    var prepared := Prepare(s.enc, f, AllowsDownshift(s.health, now));
    if !NeedsNewCodec(prepared, f) {
      QuotientWithin(AbsDelta(prepared.target, prepared.codec.value.bitrate), prepared.codec.value.bitrate);
    }
  }

  lemma QuotientWithin(delta: int, bitrate: int)
    requires bitrate > 0 && delta as real / bitrate as real <= BITRATE_RECONFIGURE_FRACTION
    ensures delta as real <= BITRATE_RECONFIGURE_FRACTION * bitrate as real
  {
    assert delta as real == (delta as real / bitrate as real) * bitrate as real;
  }

  lemma PrepareKeepsCodec(e: Enc, f: Frame, gateOpen: bool)
    requires Bounded(e)
    ensures Prepare(e, f, gateOpen).codec == e.codec && Prepare(e, f, gateOpen).target > 0
  {
    InitialKeepsBounded(e, f);
    hide IsStable, PreferredMax, PreferredInitial;
  }

  lemma {:induction false} CodecIsPositive(start: State, events: seq<Event>)
    requires Starts(start)
    ensures After(start, events).enc.codec.Some? ==> After(start, events).enc.codec.value.bitrate > 0
  {
    if events == [] {
    } else {
      hide Prepare, NeedsNewCodec, EmitsKeyframe, Clamp;
      var front, last := events[..|events| - 1], events[|events| - 1];
      CodecIsPositive(start, front);
      TargetStaysBounded(start, front);
      if last.Encoded? {
        PrepareKeepsCodec(After(start, front).enc, last.frame, AllowsDownshift(After(start, front).health, last.now));
      }
    }
  }
}
