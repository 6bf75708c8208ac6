/**
 What the encoder's controllers do, in terms of the run alone: which bitrate an estimate
 sets, when a waiting decrease is applied, and exactly which frames become keyframes.
 */
module EncoderLaws {
  import opened Basics
  import opened Encoder

  // ---------------------------------------------------------------- estimates

  function Within(value: int, low: int, high: int): int {
    if value < low then low else if high < value then high else value
  }

  predicate HasFrame(events: seq<Event>) { exists i :: 0 <= i < |events| && events[i].Encoded? }

  /** The ceiling of a frame size: 8 Mbit/s from 1920x1080 up, 5 from 1600x900, else 3. */
  function CeilingOf(f: Frame): int {
    var pixels := f.width * f.height;
    if pixels >= 2_073_600 then 8_000_000 else if pixels >= 1_440_000 then 5_000_000 else 3_000_000
  }

  /** Where the first frame of that size starts without an estimate: 4, 2.5 or 1.5 Mbit/s. */
  function OpeningOf(f: Frame): int {
    var pixels := f.width * f.height;
    if pixels >= 2_073_600 then 4_000_000 else if pixels >= 1_440_000 then 2_500_000 else 1_500_000
  }

  /** The first frame decides the ceiling; until then it is 8 Mbit/s. */
  function Ceiling(events: seq<Event>): int {
    if events == [] then 8_000_000
    else if events[0].Encoded? then CeilingOf(events[0].frame) else Ceiling(events[1..])
  }

  lemma {:induction false} CeilingGrows(events: seq<Event>)
    requires events != []
    ensures var front, last := events[..|events| - 1], events[|events| - 1];
            Ceiling(events) == if HasFrame(front) || !last.Encoded? then Ceiling(front) else CeilingOf(last.frame)
  {
    var front, last := events[..|events| - 1], events[|events| - 1];
    if front != [] && !events[0].Encoded? {
      CeilingGrows(events[1..]);
      assert front[1..] == events[1..][..|events[1..]| - 1];
      assert HasFrame(front[1..]) <==> HasFrame(front) by {
        if HasFrame(front) {
          var i :| 0 <= i < |front| && front[i].Encoded?;
          assert front[1..][i - 1].Encoded?;
        }
      }
    } else if front == [] {
      assert events[1..] == [];
    }
  }

  lemma FrameKeepsProfile(e: Enc, f: Frame, gateOpen: bool)
    ensures var after := Encode(e, f, gateOpen);
            && after.minBitrate == e.minBitrate && after.initialApplied
            && after.profileMax == if e.initialApplied then e.profileMax else CeilingOf(f)
  {
    hide IsSceneChange, NeedsNewCodec, IsStable, Clamp;
  }

  lemma {:induction false} ProfileFollowsFirstFrame(start: State, events: seq<Event>)
    requires Starts(start)
    ensures var e := After(start, events).enc;
            && e.minBitrate == start.enc.minBitrate && e.profileMax == Ceiling(events)
            && (e.initialApplied <==> HasFrame(events))
  {
    if events == [] {
    } else {
      hide Encode, Ceiling, CeilingOf;
      var front, last := events[..|events| - 1], events[|events| - 1];
      ProfileFollowsFirstFrame(start, front);
      CeilingGrows(events);
      assert HasFrame(events) <==> HasFrame(front) || last.Encoded?;
      var s := After(start, front);
      if last.Encoded? {
        FrameKeepsProfile(s.enc, last.frame, AllowsDownshift(s.health, last.now));
      }
    }
  }

  /** After any run an estimate, brought within the codec's minimum and the profile's ceiling,
      becomes the target at once when it is no lower, or when no frame has come yet; a lower one
      waits, and an earlier wait goes on. */
  lemma EstimateSetsTarget(start: State, events: seq<Event>, bitrate: int)
    requires Starts(start)
    ensures var e := After(start, events).enc;
            var value := Within(bitrate, start.enc.minBitrate, Ceiling(events));
            Next(After(start, events), Estimate(bitrate)).enc ==
              if value >= e.target || !HasFrame(events)
              then e.(receiverTarget := value, target := value, pendingLower := None, pendingSince := None)
              else e.(receiverTarget := value, pendingLower := Some(value))
  {
    hide Ceiling, HasFrame, After;
    TargetStaysBounded(start, events);
    ProfileFollowsFirstFrame(start, events);
  }

  /** The first frame starts at the estimate that came before it, or at its size's own bitrate
      when there was none (or one equal to the library's default). */
  lemma FirstFrameStartsAt(start: State, events: seq<Event>, f: Frame, now: real)
    requires Starts(start) && forall i :: 0 <= i < |events| ==> !events[i].Encoded?
    ensures var e := Next(After(start, events), Encoded(f, now)).enc;
            var low := start.enc.minBitrate;
            var estimate := LatestEstimate(events);
            && e.profileMax == CeilingOf(f) && e.receiverTarget == e.target
            && e.target ==
                 if estimate.Some? && Within(estimate.value, low, 8_000_000) != start.enc.defaultBitrate
                 then Within(estimate.value, low, CeilingOf(f)) else Within(OpeningOf(f), low, CeilingOf(f))
  {
    hide After, LatestEstimate, IsStable, IsSceneChange, NeedsNewCodec;
    BeforeFirstFrame(start, events);
  }

  // ---------------------------------------------------------------- a waiting decrease

  ghost predicate WaitsIffBelow(e: Enc) {
    && e.receiverTarget <= e.target
    && (e.pendingLower.Some? <==> e.receiverTarget < e.target)
  }

  lemma FrameKeepsWaiting(e: Enc, f: Frame, gateOpen: bool)
    requires Bounded(e) && WaitsIffBelow(e)
    ensures WaitsIffBelow(Encode(e, f, gateOpen))
  {
    hide IsSceneChange, NeedsNewCodec, IsStable, PreferredMax, PreferredInitial;
  }

  /** A decrease is waiting exactly when the receiver has asked for less than the target. */
  lemma {:induction false} DecreaseWaitsIffBelow(start: State, events: seq<Event>)
    requires Starts(start)
    ensures WaitsIffBelow(After(start, events).enc)
  {
    if events == [] {
    } else {
      hide Encode;
      var front, last := events[..|events| - 1], events[|events| - 1];
      DecreaseWaitsIffBelow(start, front);
      TargetStaysBounded(start, front);
      var s := After(start, front);
      if last.Encoded? {
        FrameKeepsWaiting(s.enc, last.frame, AllowsDownshift(s.health, last.now));
      }
    }
  }

  /** After the first frame another one lowers the target exactly when a decrease has waited two
      seconds of media time, content is moving and the network allows it. It then clears the wait;
      otherwise a dated frame starts the wait, or restarts it when media time has gone back. */
  lemma FrameLowersTargetIff(start: State, earlier: seq<Report>, events: seq<Event>, f: Frame, now: real)
    requires Starts(start) && start.health == AfterReports(earlier) && HasFrame(events)
    ensures var e := After(start, events).enc;
            var after := After(start, events + [Encoded(f, now)]).enc;
            var lowers := && e.pendingLower.Some? && e.pendingSince.Some? && f.time.Some?
                          && f.time.value - e.pendingSince.value >= 2.0
                          && TrailingStable(events + [Encoded(f, now)]) < 4
                          && SustainedOrSilent(ReportsSince(earlier, events), now);
            if lowers then
              && after.target == e.receiverTarget < e.target
              && after.pendingLower.None? && after.pendingSince.None?
            else
              && after.target == e.target && after.pendingLower == e.pendingLower
              && after.pendingSince ==
                   if e.pendingLower.None? || f.time.None? then e.pendingSince
                   else if e.pendingSince.None? || f.time.value < e.pendingSince.value then f.time else e.pendingSince
  {
    var event := Encoded(f, now);
    assert (events + [event])[..|events|] == events;
    TargetStaysBounded(start, events);
    ProfileFollowsFirstFrame(start, events);
    FramesAreObserved(start, events + [event]);
    HealthFollowsReports(start, earlier, events);
    GateOpensIffSustained(ReportsSince(earlier, events), now);
    var s := After(start, events);
    hide After, AllowsDownshift, AfterReports, SustainedOrSilent, TrailingStable, ReportsSince, HasFrame;
    FrameMoves(s.enc, f, AllowsDownshift(s.health, now));
  }

  lemma FrameMoves(e: Enc, f: Frame, gateOpen: bool)
    requires Bounded(e) && e.initialApplied
    ensures var after := Encode(e, f, gateOpen);
            var lowers := && e.pendingLower.Some? && e.pendingSince.Some? && f.time.Some?
                          && f.time.value - e.pendingSince.value >= 2.0 && after.stableFrames < 4 && gateOpen;
            if lowers then
              && after.target == e.receiverTarget < e.target
              && after.pendingLower.None? && after.pendingSince.None?
            else
              && after.target == e.target && after.pendingLower == e.pendingLower
              && after.pendingSince ==
                   if e.pendingLower.None? || f.time.None? then e.pendingSince
                   else if e.pendingSince.None? || f.time.value < e.pendingSince.value then f.time else e.pendingSince
  {
    hide IsSceneChange, NeedsNewCodec, IsStable;
  }

  /** The events keep asking for less than `target`, and no frame is dated before `since`. */
  predicate AsksForLess(events: seq<Event>, start: State, since: real, target: int) {
    forall i :: 0 <= i < |events| ==>
      && (events[i].Estimate? ==> Clamp(start.enc, events[i].bitrate) < target)
      && (events[i].Encoded? && events[i].frame.time.Some? ==> events[i].frame.time.value >= since)
  }

  /** The target is already lower than it was, or its decrease has waited since `since` or longer. */
  ghost predicate Lowering(e: Enc, since: real, target: int) {
    e.target < target
    || (e.target == target && e.pendingLower.Some? && e.pendingSince.Some? && e.pendingSince.value <= since)
  }

  lemma LoweringGoesOn(s: State, e: Event, since: real, target: int)
    requires Bounded(s.enc) && s.enc.initialApplied && Lowering(s.enc, since, target)
    requires e.Estimate? ==> Clamp(s.enc, e.bitrate) < target
    requires e.Encoded? && e.frame.time.Some? ==> e.frame.time.value >= since
    ensures Lowering(Next(s, e).enc, since, target)
  {
    if e.Encoded? {
      FrameMoves(s.enc, e.frame, AllowsDownshift(s.health, e.now));
      hide Encode;
    }
  }

  lemma ClampIsStable(start: State, events: seq<Event>, more: seq<Event>, bitrate: int)
    requires Starts(start) && HasFrame(events)
    ensures HasFrame(events + more)
    ensures Clamp(After(start, events + more).enc, bitrate) == Clamp(After(start, events).enc, bitrate)
  {
    ProfileFollowsFirstFrame(start, events);
    ProfileFollowsFirstFrame(start, events + more);
    CeilingStands(events, more);
    hide After, Ceiling;
  }

  lemma {:induction false} CeilingStands(events: seq<Event>, more: seq<Event>)
    requires HasFrame(events)
    ensures Ceiling(events + more) == Ceiling(events) && HasFrame(events + more)
  {
    var i :| 0 <= i < |events| && events[i].Encoded?;
    assert (events + more)[i].Encoded?;
    if !events[0].Encoded? {
      assert events[1..][i - 1].Encoded?;
      CeilingStands(events[1..], more);
      assert (events + more)[1..] == events[1..] + more;
    }
  }

  lemma {:induction false} LoweringLasts(start: State, events: seq<Event>, rest: seq<Event>, since: real, target: int)
    requires Starts(start) && HasFrame(events) && Lowering(After(start, events).enc, since, target)
    requires AsksForLess(rest, After(start, events), since, target)
    ensures Lowering(After(start, events + rest).enc, since, target)
  {
    hide Lowering, Next, HasFrame;
    if rest == [] {
      assert events + rest == events;
    } else {
      var front, last := rest[..|rest| - 1], rest[|rest| - 1];
      LoweringLasts(start, events, front, since, target);
      assert (events + rest)[..|events + rest| - 1] == events + front;
      TargetStaysBounded(start, events + front);
      ProfileFollowsFirstFrame(start, events + front);
      if last.Estimate? {
        ClampIsStable(start, events, front, last.bitrate);
      }
      ClampIsStable(start, events, front, 0);
      LoweringGoesOn(After(start, events + front), last, since, target);
    }
  }

  /** A decrease that is waiting at a dated frame is applied, in whole, by any later frame that
      comes two seconds after it with content moving and the network allowing it, when every
      estimate in between also asked for less and media time never went back before that frame. */
  lemma SustainedDecreaseIsApplied(start: State, earlier: seq<Report>, events: seq<Event>, anchor: Frame, seen: real,
                                   rest: seq<Event>, f: Frame, now: real)
    requires Starts(start) && start.health == AfterReports(earlier)
    requires After(start, events).enc.pendingLower.Some? && anchor.time.Some?
    requires AsksForLess(rest, After(start, events), anchor.time.value, After(start, events).enc.target)
    requires f.time.Some? && f.time.value - anchor.time.value >= 2.0
    requires var before := events + [Encoded(anchor, seen)] + rest;
             && TrailingStable(before + [Encoded(f, now)]) < 4
             && SustainedOrSilent(ReportsSince(earlier, before), now)
    ensures After(start, events + [Encoded(anchor, seen)] + rest + [Encoded(f, now)]).enc.target
            < After(start, events).enc.target
  {
    var first := Encoded(anchor, seen);
    var anchored := events + [first];
    var before := anchored + rest;
    var e, since := After(start, events).enc, anchor.time.value;
    TargetStaysBounded(start, events);
    ProfileFollowsFirstFrame(start, events);
    FrameLowersTargetIff(start, earlier, events, anchor, seen);
    hide After, TrailingStable, SustainedOrSilent, ReportsSince, AfterReports;
    assert Lowering(After(start, anchored).enc, since, e.target);
    forall i | 0 <= i < |rest| && rest[i].Estimate?
      ensures Clamp(After(start, anchored).enc, rest[i].bitrate) < e.target
    {
      ClampIsStable(start, events, [first], rest[i].bitrate);
    }
    CeilingStands(events, [first]);
    LoweringLasts(start, anchored, rest, since, e.target);
    CeilingStands(anchored, rest);
    FrameLowersTargetIff(start, earlier, before, f, now);
  }

  // ---------------------------------------------------------------- comparing frames

  /** A report is bad from 2 % of lost packets or 50 ms of jitter up. */
  lemma ReportIsBadIff(jitterMs: real, lossPercent: real)
    ensures IsUnhealthy(Some(jitterMs), Some(lossPercent)) <==> jitterMs >= 50.0 || lossPercent >= 2.0
    ensures IsUnhealthy(Some(jitterMs), None) <==> jitterMs >= 50.0
    ensures IsUnhealthy(None, Some(lossPercent)) <==> lossPercent >= 2.0
    ensures !IsUnhealthy(None, None)
  {
  }

  /** The positions at which two samples differ by 24 levels or more. */
  function FarApart(a: seq<int>, b: seq<int>): set<int>
    requires |a| == |b|
  {
    set i | 0 <= i < |a| && (a[i] - b[i] >= 24 || b[i] - a[i] >= 24)
  }

  lemma {:induction false} ChangedSamplesCount(a: seq<int>, b: seq<int>)
    requires |a| == |b|
    ensures ChangedSamples(a, b) == |FarApart(a, b)|
  {
    if a == [] {
    } else {
      var n := |a| - 1;
      ChangedSamplesCount(a[..n], b[..n]);
      assert a == a[..n] + [a[n]] && b == b[..n] + [b[n]];
      ChangedSamplesAdd(a[..n], b[..n], a[n], b[n]);
      FarApartGrows(a, b);
      hide ChangedSamples, FarApart;
    }
  }

  lemma FarApartGrows(a: seq<int>, b: seq<int>)
    requires |a| == |b| > 0
    ensures var n := |a| - 1;
            var last: set<int> := if a[n] - b[n] >= 24 || b[n] - a[n] >= 24 then {n} else {};
            FarApart(a, b) == FarApart(a[..n], b[..n]) + last && FarApart(a[..n], b[..n]) !! last
  {
  }

  lemma {:induction false} ChangedSamplesAdd(a: seq<int>, b: seq<int>, x: int, y: int)
    requires |a| == |b|
    ensures ChangedSamples(a + [x], b + [y])
            == ChangedSamples(a, b) + if x - y >= 24 || y - x >= 24 then 1 else 0
  {
    if a == [] {
      assert (a + [x])[1..] == [] && (b + [y])[1..] == [];
    } else {
      ChangedSamplesAdd(a[1..], b[1..], x, y);
      assert (a + [x])[1..] == a[1..] + [x] && (b + [y])[1..] == b[1..] + [y];
    }
  }

  /** The total is the sum of the distances at each position. */
  lemma {:induction false} TotalDeltaAdds(a: seq<int>, b: seq<int>, x: int, y: int)
    requires |a| == |b|
    ensures TotalDelta([], []) == 0
    ensures TotalDelta(a + [x], b + [y]) == TotalDelta(a, b) + if x < y then y - x else x - y
  {
    if a == [] {
      assert (a + [x])[1..] == [] && (b + [y])[1..] == [];
    } else {
      TotalDeltaAdds(a[1..], b[1..], x, y);
      assert (a + [x])[1..] == a[1..] + [x] && (b + [y])[1..] == b[1..] + [y];
    }
  }

  lemma Share(part: int, whole: int, limit: real)
    requires whole > 0
    ensures part as real / whole as real <= limit <==> part as real <= limit * whole as real
    ensures part as real / whole as real >= limit <==> part as real >= limit * whole as real
    ensures part as real / whole as real > limit <==> part as real > limit * whole as real
  {
    var q, n := part as real / whole as real, whole as real;
    assert q * n == part as real;
    if q < limit {
      assert (limit - q) * n > 0.0;
    } else if q > limit {
      assert (q - limit) * n > 0.0;
    }
  }

  /** At most one sample in twenty far apart, and four levels of difference on average. */
  predicate Alike(a: Option<Luma>, b: Option<Luma>) {
    && Comparable(a, b)
    && 20 * |FarApart(a.value.values, b.value.values)| <= |a.value.values|
    && TotalDelta(a.value.values, b.value.values) <= 4 * |a.value.values|
  }

  /** Three samples in ten far apart, and eighteen levels of difference on average. */
  predicate Unlike(a: Option<Luma>, b: Option<Luma>) {
    && Comparable(a, b)
    && 10 * |FarApart(a.value.values, b.value.values)| >= 3 * |a.value.values|
    && TotalDelta(a.value.values, b.value.values) >= 18 * |a.value.values|
  }

  lemma SceneTests(e: Enc, f: Frame)
    ensures IsStable(e, f) <==> Alike(f.luma, e.previousLuma)
    ensures IsSceneChange(e, f) <==> !Cooling(e, f.time) && e.stableFrames >= 4 && Unlike(f.luma, e.previousLuma)
  {
    if Comparable(f.luma, e.previousLuma) {
      var a, b := f.luma.value.values, e.previousLuma.value.values;
      ChangedSamplesCount(a, b);
      Share(ChangedSamples(a, b), |a|, 0.05);
      Share(ChangedSamples(a, b), |a|, 0.30);
      Share(TotalDelta(a, b), |a|, 4.0);
      Share(TotalDelta(a, b), |a|, 18.0);
      hide ChangedSamples, TotalDelta, FarApart, Cooling;
    }
  }

  // ---------------------------------------------------------------- exactly which frames are keyframes

  /** The sample of the latest frame, if it had one. */
  function LastLuma(events: seq<Event>): Option<Luma> {
    if events == [] then None
    else if events[|events| - 1].Encoded? then events[|events| - 1].frame.luma
    else LastLuma(events[..|events| - 1])
  }

  /** How many of the latest frames in a row differed little from the frame before. */
  function TrailingStable(events: seq<Event>): nat {
    if events == [] then 0
    else
      var front, last := events[..|events| - 1], events[|events| - 1];
      if !last.Encoded? then TrailingStable(front)
      else if Alike(last.frame.luma, LastLuma(front)) then TrailingStable(front) + 1 else 0
  }

  lemma FrameIsObserved(e: Enc, f: Frame, gateOpen: bool)
    ensures var after := Encode(e, f, gateOpen);
            && after.previousLuma == f.luma
            && after.stableFrames == if Alike(f.luma, e.previousLuma) then e.stableFrames + 1 else 0
  {
    var e1 := ApplyInitial(e, f);
    assert e1.previousLuma == e.previousLuma && e1.stableFrames == e.stableFrames by {
      hide PreferredInitial, PreferredMax, Clamp;
    }
    SceneTests(e1, f);
    hide ApplyInitial, NeedsNewCodec, IsStable, IsSceneChange, Alike, EmitsKeyframe;
  }

  lemma {:induction false} FramesAreObserved(start: State, events: seq<Event>)
    requires Starts(start)
    ensures var e := After(start, events).enc;
            e.previousLuma == LastLuma(events) && e.stableFrames == TrailingStable(events)
  {
    if events == [] {
    } else {
      hide Encode, Alike, Clamp;
      var front, last := events[..|events| - 1], events[|events| - 1];
      FramesAreObserved(start, front);
      var s := After(start, front);
      if last.Encoded? {
        FrameIsObserved(s.enc, last.frame, AllowsDownshift(s.health, last.now));
      }
    }
  }

  /** The codec is replaced exactly when there is none, the frame's size differs, or its bitrate
      is more than a quarter away from the target; the new one has the target's. */
  lemma CodecIsReplacedIff(start: State, events: seq<Event>, f: Frame, now: real)
    requires Starts(start)
    ensures var previous := After(start, events).enc.codec;
            var after := Next(After(start, events), Encoded(f, now)).enc;
            var fits := && previous.Some? && previous.value.width == f.width && previous.value.height == f.height
                        && 4 * (after.target - previous.value.bitrate) <= previous.value.bitrate
                        && 4 * (previous.value.bitrate - after.target) <= previous.value.bitrate;
            after.codec == if fits then previous else Some(Codec(f.width, f.height, after.target))
  {
    TargetStaysBounded(start, events);
    CodecIsPositive(start, events);
    var s := After(start, events);
    CodecFits(s.enc, f, AllowsDownshift(s.health, now));
  }

  lemma CodecFits(e: Enc, f: Frame, gateOpen: bool)
    requires Bounded(e) && (e.codec.Some? ==> e.codec.value.bitrate > 0)
    ensures var after := Encode(e, f, gateOpen);
            var fits := && e.codec.Some? && e.codec.value.width == f.width && e.codec.value.height == f.height
                        && 4 * (after.target - e.codec.value.bitrate) <= e.codec.value.bitrate
                        && 4 * (e.codec.value.bitrate - after.target) <= e.codec.value.bitrate;
            && (NeedsNewCodec(Prepare(e, f, gateOpen), f) <==> !fits)
            && after.codec == if fits then e.codec else Some(Codec(f.width, f.height, after.target))
  {
    PrepareKeepsCodec(e, f, gateOpen);
    var prepared := Prepare(e, f, gateOpen);
    hide Prepare, EmitsKeyframe;
    if e.codec.Some? {
      Share(AbsDelta(prepared.target, e.codec.value.bitrate), e.codec.value.bitrate, 0.25);
    }
  }

  /** After any run a frame is sent as a keyframe exactly when the receiver asked for one, when it
      replaces the codec, or when at least four frames of stillness end in a large change and the
      last keyframe is not less than three quarters of a second old. */
  lemma KeyframeIff(start: State, events: seq<Event>, f: Frame, now: real)
    requires Starts(start)
    ensures var s := After(start, events);
            var last := LastKeyframe(start, events);
            var cooling := f.time.Some? && last.Some? && f.time.value - last.value < 0.75;
            EmitsKeyframe(s.enc, f, AllowsDownshift(s.health, now)) <==>
              || f.force
              || Next(s, Encoded(f, now)).enc.codec != s.enc.codec
              || (TrailingStable(events) >= 4 && Unlike(f.luma, LastLuma(events)) && !cooling)
  {
    var s := After(start, events);
    TargetStaysBounded(start, events);
    CodecIsPositive(start, events);
    CodecFits(s.enc, f, AllowsDownshift(s.health, now));
    KeyframeTimeIsLast(start, events);
    FramesAreObserved(start, events);
    var e1 := ApplyInitial(s.enc, f);
    assert e1.previousLuma == s.enc.previousLuma && e1.stableFrames == s.enc.stableFrames
           && e1.lastKeyframe == s.enc.lastKeyframe by {
      hide PreferredInitial, PreferredMax, Clamp;
    }
    SceneTests(e1, f);
    hide After, ApplyInitial, Prepare, NeedsNewCodec, IsSceneChange, Unlike, TrailingStable, LastLuma, LastKeyframe;
    hide AllowsDownshift, Encode;
  }
}
