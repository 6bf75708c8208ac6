/**
 Sliding-window rate limits. Two implementations exist in the repository: a filtering
 evaluator for the signaling room and a front-popping deque inside the agent's input
 controller. Both are related here to one reference: the full history of admitted events.
 */
module SlidingWindow {

  /** Whether an entry exactly one window old has already left the window. */
  datatype Edge = HalfOpen | Closed

  predicate Recent(t: real, now: real, window: real, edge: Edge) {
    if edge.HalfOpen? then now - t < window else now - t <= window
  }

  /** The entries of `ts` still inside the window that ends at `now`, in order. */
  function Retained(ts: seq<real>, now: real, window: real, edge: Edge): seq<real> {
    if ts == [] then []
    else
      var rest := Retained(ts[..|ts| - 1], now, window, edge);
      if Recent(ts[|ts| - 1], now, window, edge) then rest + [ts[|ts| - 1]] else rest
  }

  datatype Decision = Decision(allowed: bool, timestamps: seq<real>)

  /** The pure evaluator: filter, compare, and record the event only when it is allowed. */
  function EvaluateRateLimit(previous: seq<real>, now: real, maxEvents: int, windowMs: real): Decision {
    var retained := Retained(previous, now, windowMs, HalfOpen);
    if |retained| >= maxEvents then Decision(false, retained) else Decision(true, retained + [now])
  }

  /** What a deque holds after popping expired entries from its front only. */
  function DropExpired(ts: seq<real>, now: real, window: real, edge: Edge): seq<real> {
    if ts == [] || Recent(ts[0], now, window, edge) then ts
    else DropExpired(ts[1..], now, window, edge)
  }

  function DequeAdmit(ts: seq<real>, now: real, limit: int, window: real, edge: Edge): Decision {
    var kept := DropExpired(ts, now, window, edge);
    if |kept| >= limit then Decision(false, kept) else Decision(true, kept + [now])
  }

  // ---------------------------------------------------------------- whole runs

  ghost predicate Nondecreasing(ts: seq<real>) {
    forall i, j :: 0 <= i < j < |ts| ==> ts[i] <= ts[j]
  }

  lemma AppendOrdered(ts: seq<real>, now: real)
    requires Nondecreasing(ts) && forall t :: t in ts ==> t <= now
    ensures Nondecreasing(ts + [now]) && forall t :: t in ts + [now] ==> t <= now
  {
    assert forall i :: 0 <= i < |ts| ==> ts[i] in ts;
  }

  datatype Run = Run(allowed: seq<bool>, timestamps: seq<real>)

  function FilterRun(times: seq<real>, maxEvents: int, window: real): Run {
    if times == [] then Run([], [])
    else
      var before := FilterRun(times[..|times| - 1], maxEvents, window);
      var d := EvaluateRateLimit(before.timestamps, times[|times| - 1], maxEvents, window);
      Run(before.allowed + [d.allowed], d.timestamps)
  }

  function DequeRun(times: seq<real>, limit: int, window: real, edge: Edge): Run {
    if times == [] then Run([], [])
    else
      var before := DequeRun(times[..|times| - 1], limit, window, edge);
      var d := DequeAdmit(before.timestamps, times[|times| - 1], limit, window, edge);
      Run(before.allowed + [d.allowed], d.timestamps)
  }

  /** The reference: every event ever admitted, an event being admitted exactly when
      fewer than `limit` admitted events lie inside the window that ends at it. */
  function Admitted(times: seq<real>, limit: int, window: real, edge: Edge): seq<real> {
    if times == [] then []
    else
      var history := Admitted(times[..|times| - 1], limit, window, edge);
      var now := times[|times| - 1];
      if |Retained(history, now, window, edge)| < limit then history + [now] else history
  }

  /** The entries of `ts` inside the window that starts at `from`. */
  function InWindow(ts: seq<real>, from: real, window: real, edge: Edge): seq<real> {
    if ts == [] then []
    else
      var rest := InWindow(ts[..|ts| - 1], from, window, edge);
      var t := ts[|ts| - 1];
      if from <= t && Recent(from, t, window, edge) then rest + [t] else rest
  }

  // ---------------------------------------------------------------- filter and deque

  lemma {:induction false} RetainedIsSuffix(ts: seq<real>, k: nat, now: real, window: real, edge: Edge)
    requires k <= |ts|
    requires forall i :: 0 <= i < k ==> !Recent(ts[i], now, window, edge)
    requires forall i :: k <= i < |ts| ==> Recent(ts[i], now, window, edge)
    ensures Retained(ts, now, window, edge) == ts[k..]
  {
    if ts == [] {
    } else {
      var front := ts[..|ts| - 1];
      if k == |ts| {
        RetainedIsSuffix(front, k - 1, now, window, edge);
      } else {
        RetainedIsSuffix(front, k, now, window, edge);
        assert front[k..] + [ts[|ts| - 1]] == ts[k..];
      }
    }
  }

  lemma {:induction false} DropExpiredIsSuffix(ts: seq<real>, k: nat, now: real, window: real, edge: Edge)
    requires k <= |ts|
    requires forall i :: 0 <= i < k ==> !Recent(ts[i], now, window, edge)
    requires k < |ts| ==> Recent(ts[k], now, window, edge)
    ensures DropExpired(ts, now, window, edge) == ts[k..]
  {
    if k == 0 {
    } else {
      DropExpiredIsSuffix(ts[1..], k - 1, now, window, edge);
      assert ts[1..][k - 1..] == ts[k..];
    }
  }

  /** On a time-ordered list popping the front removes exactly what filtering removes. */
  lemma {:induction false} PoppingIsFiltering(ts: seq<real>, now: real, window: real, edge: Edge)
    requires Nondecreasing(ts)
    ensures DropExpired(ts, now, window, edge) == Retained(ts, now, window, edge)
  {
    var k := 0;
    while k < |ts| && !Recent(ts[k], now, window, edge)
      invariant k <= |ts|
      invariant forall i :: 0 <= i < k ==> !Recent(ts[i], now, window, edge)
    {
      k := k + 1;
    }
    RetainedIsSuffix(ts, k, now, window, edge);
    DropExpiredIsSuffix(ts, k, now, window, edge);
  }

  lemma {:induction false} RetainedElements(ts: seq<real>, now: real, window: real, edge: Edge)
    ensures forall t :: t in Retained(ts, now, window, edge) ==> t in ts && Recent(t, now, window, edge)
    ensures Nondecreasing(ts) ==> Nondecreasing(Retained(ts, now, window, edge))
  {
    if ts == [] {
    } else {
      RetainedElements(ts[..|ts| - 1], now, window, edge);
      var rest := Retained(ts[..|ts| - 1], now, window, edge);
      if Nondecreasing(ts) {
        forall i | 0 <= i < |rest| ensures rest[i] <= ts[|ts| - 1] { assert rest[i] in rest; }
      }
    }
  }

  /** Pruning at an earlier instant never changes what a later pruning keeps. */
  lemma {:induction false} PruningTwice(ts: seq<real>, earlier: real, later: real, window: real, edge: Edge)
    requires earlier <= later
    ensures Retained(Retained(ts, earlier, window, edge), later, window, edge) == Retained(ts, later, window, edge)
  {
    if ts == [] {
    } else {
      PruningTwice(ts[..|ts| - 1], earlier, later, window, edge);
      var rest := Retained(ts[..|ts| - 1], earlier, window, edge);
      var t := ts[|ts| - 1];
      if Recent(t, earlier, window, edge) {
        assert (rest + [t])[..|rest|] == rest;
      }
    }
  }

  // ---------------------------------------------------------------- main results

  lemma {:induction false} AdmittedAreTimes(times: seq<real>, limit: int, window: real, edge: Edge)
    requires Nondecreasing(times)
    ensures forall t :: t in Admitted(times, limit, window, edge) ==> t in times
    ensures Nondecreasing(Admitted(times, limit, window, edge))
  {
    if times == [] {
    } else {
      AdmittedAreTimes(times[..|times| - 1], limit, window, edge);
      var history := Admitted(times[..|times| - 1], limit, window, edge);
      forall i | 0 <= i < |history| ensures history[i] <= times[|times| - 1] { assert history[i] in history; }
    }
  }

  /** A deque that holds the window of `history` keeps doing so, and decides on it. */
  lemma DequeStepIsExact(history: seq<real>, held: seq<real>, last: real, now: real, limit: int, window: real,
                         edge: Edge)
    requires Nondecreasing(history) && window > 0.0 && last <= now
    requires held == Retained(history, last, window, edge)
    ensures var d := DequeAdmit(held, now, limit, window, edge);
            var kept := Retained(history, now, window, edge);
            && (d.allowed <==> |kept| < limit)
            && d.timestamps == Retained(if |kept| < limit then history + [now] else history, now, window, edge)
  {
    PruningTwice(history, last, now, window, edge);
    RetainedElements(history, last, window, edge);
    PoppingIsFiltering(held, now, window, edge);
    assert (history + [now])[..|history|] == history;
  }

  lemma {:induction false} DequeRunHoldsWindow(times: seq<real>, limit: int, window: real, edge: Edge)
    requires Nondecreasing(times) && times != []
    requires window > 0.0
    ensures var run := DequeRun(times, limit, window, edge);
            var n := |times| - 1;
            && |run.allowed| == |times|
            && run.timestamps == Retained(Admitted(times, limit, window, edge), times[n], window, edge)
            && (run.allowed[n] <==> HasRoom(times, n, limit, window, edge))
  {
    hide Retained, DequeAdmit;
    var n := |times| - 1;
    var front, now := times[..n], times[n];
    AdmittedAreTimes(front, limit, window, edge);
    if front != [] {
      DequeRunHoldsWindow(front, limit, window, edge);
      DequeStepIsExact(Admitted(front, limit, window, edge), DequeRun(front, limit, window, edge).timestamps,
                       front[n - 1], now, limit, window, edge);
    } else {
      RetainedNothing(now, window, edge);
      DequeStepIsExact([], [], now, now, limit, window, edge);
    }
  }

  lemma RetainedNothing(now: real, window: real, edge: Edge)
    ensures Retained([], now, window, edge) == []
  {
  }

  /** Fewer than `limit` of the events admitted before the `i`-th lie in the window ending at it. */
  predicate HasRoom(times: seq<real>, i: nat, limit: int, window: real, edge: Edge)
    requires i < |times|
  {
    |Retained(Admitted(times[..i], limit, window, edge), times[i], window, edge)| < limit
  }

  lemma RoomIsDecidedBefore(times: seq<real>, n: nat, i: nat, limit: int, window: real, edge: Edge)
    requires i < n <= |times|
    ensures HasRoom(times, i, limit, window, edge) == HasRoom(times[..n], i, limit, window, edge)
  {
    assert times[..n][..i] == times[..i];
  }

  lemma DequeRunGrows(times: seq<real>, limit: int, window: real, edge: Edge)
    requires times != []
    ensures var front := DequeRun(times[..|times| - 1], limit, window, edge).allowed;
            var all := DequeRun(times, limit, window, edge).allowed;
            |all| == |front| + 1 && forall i :: 0 <= i < |front| ==> all[i] == front[i]
  {
  }

  /** The deque is exact: it holds the window of the full admitted history, and an event
      is refused only when that window is full. */
  lemma {:induction false} DequeRunIsExact(times: seq<real>, limit: int, window: real, edge: Edge)
    requires Nondecreasing(times)
    requires window > 0.0
    ensures var run := DequeRun(times, limit, window, edge);
            && |run.allowed| == |times|
            && (times != [] ==>
                  run.timestamps == Retained(Admitted(times, limit, window, edge), times[|times| - 1], window, edge))
            && (forall i :: 0 <= i < |times| ==> (run.allowed[i] <==> HasRoom(times, i, limit, window, edge)))
  {
    if times == [] {
    } else {
      var n := |times| - 1;
      DequeRunIsExact(times[..n], limit, window, edge);
      DequeRunHoldsWindow(times, limit, window, edge);
      DequeRunGrows(times, limit, window, edge);
      hide DequeRun, Retained, Admitted, HasRoom;
      forall i | 0 <= i < n
        ensures HasRoom(times, i, limit, window, edge) == HasRoom(times[..n], i, limit, window, edge)
      {
        RoomIsDecidedBefore(times, n, i, limit, window, edge);
      }
    }
  }

  /** A run of the deque in isolation keeps a time-ordered list. */
  lemma {:induction false} DequeRunOrdered(times: seq<real>, limit: int, window: real, edge: Edge)
    requires Nondecreasing(times)
    requires window > 0.0
    ensures Nondecreasing(DequeRun(times, limit, window, edge).timestamps)
  {
    if times == [] {
    } else {
      DequeRunIsExact(times, limit, window, edge);
      AdmittedAreTimes(times, limit, window, edge);
      RetainedElements(Admitted(times, limit, window, edge), times[|times| - 1], window, edge);
    }
  }

  /** The two implementations decide alike and retain the same list on every run. */
  lemma {:induction false} TwoLimitersAgree(times: seq<real>, limit: int, window: real)
    requires Nondecreasing(times)
    requires window > 0.0
    ensures DequeRun(times, limit, window, HalfOpen) == FilterRun(times, limit, window)
  {
    if times == [] {
    } else {
      var front := times[..|times| - 1];
      TwoLimitersAgree(front, limit, window);
      DequeRunOrdered(front, limit, window, HalfOpen);
      PoppingIsFiltering(DequeRun(front, limit, window, HalfOpen).timestamps, times[|times| - 1], window, HalfOpen);
    }
  }

  /** After any run the evaluator, too, decides on the window of the full admitted history. */
  lemma EvaluatorIsExact(times: seq<real>, now: real, limit: int, window: real)
    requires Nondecreasing(times + [now]) && window > 0.0
    ensures EvaluateRateLimit(FilterRun(times, limit, window).timestamps, now, limit, window).allowed <==>
              |Retained(Admitted(times, limit, window, HalfOpen), now, window, HalfOpen)| < limit
  {
    hide Retained, DequeAdmit;
    var all := times + [now];
    assert forall i :: 0 <= i < |times| ==> all[i] == times[i];
    if times != [] {
      assert all[|times| - 1] <= all[|times|];
      TwoLimitersAgree(times, limit, window);
      DequeRunHoldsWindow(times, limit, window, HalfOpen);
      PruningTwice(Admitted(times, limit, window, HalfOpen), times[|times| - 1], now, window, HalfOpen);
    }
  }

  lemma {:induction false} WindowWithinRetained(ts: seq<real>, from: real, now: real, window: real, edge: Edge)
    requires from <= now && Recent(from, now, window, edge)
    ensures |InWindow(ts, from, window, edge)| <= |Retained(ts, now, window, edge)|
  {
    if ts == [] {
    } else {
      WindowWithinRetained(ts[..|ts| - 1], from, now, window, edge);
    }
  }

  /** No window, wherever it starts, ever holds more than `limit` admitted events. */
  lemma {:induction false} EveryWindowIsBounded(times: seq<real>, limit: nat, window: real, edge: Edge, from: real)
    ensures |InWindow(Admitted(times, limit, window, edge), from, window, edge)| <= limit
  {
    if times == [] {
    } else {
      EveryWindowIsBounded(times[..|times| - 1], limit, window, edge, from);
      var history := Admitted(times[..|times| - 1], limit, window, edge);
      var now := times[|times| - 1];
      assert (history + [now])[..|history|] == history;
      if from <= now && Recent(from, now, window, edge) {
        WindowWithinRetained(history, from, now, window, edge);
      }
    }
  }
}
