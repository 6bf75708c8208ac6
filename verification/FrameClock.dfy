/** Presentation timestamps of captured frames: the 90 kHz clock, forced to increase. */
module FrameClock {
  import opened Basics
  import G = Geometry

  const VIDEO_CLOCK_RATE := 90000.0

  function Ticks(capturedAt: real, origin: real): int { G.RoundHalfEven((capturedAt - origin) * VIDEO_CLOCK_RATE) }

  /** The timestamps given to frames captured at `times`. */
  function Stamps(times: seq<real>): seq<int> {
    if times == [] then []
    else
      var before := Stamps(times[..|times| - 1]);
      var last := if before == [] then -1 else before[|before| - 1];
      before + [G.MaxInt(last + 1, Ticks(times[|times| - 1], times[0]))]
  }

  class Recorder {
    var origin: Option<real>
    var lastPts: int
    ghost var times: seq<real>

    ghost predicate Valid()
      reads this
    {
      && (times == [] ==> origin.None? && lastPts == -1)
      && (times != [] ==> origin == Some(times[0]) && |Stamps(times)| == |times|
                          && lastPts == Stamps(times)[|times| - 1])
    }

    constructor ()
      ensures Valid() && times == []
    {
      origin, lastPts, times := None, -1, [];
    }

    method Stamp(capturedAt: real) returns (pts: int)
      requires Valid()
      modifies this
      ensures Valid() && times == old(times) + [capturedAt]
      ensures Stamps(times) == old(Stamps(times)) + [pts] && pts > old(lastPts)
    {
      hide Ticks;
      if origin.None? {
        origin := Some(capturedAt);
      }
      lastPts := G.MaxInt(lastPts + 1, Ticks(capturedAt, origin.value));
      times := times + [capturedAt];
      assert times[..|times| - 1] == old(times);
      StampsLength(old(times));
      return lastPts;
    }
  }

  lemma {:induction false} StampsLength(times: seq<real>)
    ensures |Stamps(times)| == |times|
  {
    if times == [] {
    } else {
      StampsLength(times[..|times| - 1]);
    }
  }

  ghost predicate Increasing(s: seq<int>) { forall i, j :: 0 <= i < j < |s| ==> s[i] < s[j] }

  ghost predicate NotBeforeClock(s: seq<int>, times: seq<real>) {
    |s| == |times| && forall i :: 0 <= i < |s| ==> s[i] >= 0 && s[i] >= Ticks(times[i], times[0])
  }

  /** For any clock at all, even one running backwards, timestamps strictly increase and are
      never earlier than the clock. */
  lemma {:induction false} StampsIncrease(times: seq<real>)
    ensures Increasing(Stamps(times)) && NotBeforeClock(Stamps(times), times)
  {
    if times == [] {
    } else {
      var front := times[..|times| - 1];
      StampsIncrease(front);
      var before, all := Stamps(front), Stamps(times);
      forall i | 0 <= i < |times| ensures all[i] >= 0 && all[i] >= Ticks(times[i], times[0]) {
        if i < |front| {
          assert all[i] == before[i];
          assert times[i] == front[i] && times[0] == front[0];
        }
      }
    }
  }

  /** They run ahead of the clock no more than increasing forces them to: no other increasing
      sequence that respects the clock is smaller anywhere. */
  lemma {:induction false} StampsAreLeast(times: seq<real>, other: seq<int>)
    requires Increasing(other) && NotBeforeClock(other, times)
    ensures |Stamps(times)| == |times|
    ensures forall i :: 0 <= i < |times| ==> Stamps(times)[i] <= other[i]
  {
    if times == [] {
    } else {
      var front, shorter := times[..|times| - 1], other[..|other| - 1];
      forall i | 0 <= i < |shorter| ensures shorter[i] >= 0 && shorter[i] >= Ticks(front[i], front[0]) {
        assert other[i] >= 0 && other[i] >= Ticks(times[i], times[0]);
      }
      StampsAreLeast(front, shorter);
      var before := Stamps(front);
      forall i | 0 <= i < |times| ensures Stamps(times)[i] <= other[i] {
        if i < |front| {
          assert Stamps(times)[i] == before[i] && shorter[i] == other[i];
        } else if i > 0 {
          assert before[i - 1] <= shorter[i - 1] < other[i];
        }
      }
    }
  }

  /** Frames captured on different ticks of a forward clock are stamped with exactly their ticks,
      ninety thousand to the second. */
  lemma {:induction false} TicksAreStamped(times: seq<real>, origin: real, ticks: seq<int>)
    requires |times| == |ticks| && Increasing(ticks) && (ticks != [] ==> ticks[0] == 0)
    requires forall i :: 0 <= i < |times| ==> times[i] == origin + ticks[i] as real / 90_000.0
    ensures Stamps(times) == ticks
  {
    if times == [] {
    } else {
      var n := |times| - 1;
      TicksAreStamped(times[..n], origin, ticks[..n]);
      assert ticks == ticks[..n] + [ticks[n]];
      TickIsExact(times[n], times[0], ticks[n]);
      if n > 0 {
        assert ticks[n - 1] < ticks[n] && times[..n][0] == times[0];
      }
    }
  }

  lemma TickIsExact(capturedAt: real, origin: real, tick: int)
    requires capturedAt - origin == tick as real / 90_000.0
    ensures Ticks(capturedAt, origin) == tick
  {
    assert (capturedAt - origin) * VIDEO_CLOCK_RATE == tick as real;
    G.RoundHalfEvenInteger(tick);
  }
}
