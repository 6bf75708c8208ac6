/**
 Camera ownership in the desktop capture track: any number of executor workers grab
 frames and recover from faults while the event loop may stop the track. Each step below
 is one lock-protected section, or one stretch of code outside the lock.
 */
module Camera {
  import opened Basics

  datatype Start = CreateFails | StartFails | Started

  /** Where a thread is about to run. The last three belong to a thread executing `stop`. */
  datatype Pc =
    | CheckingStopped
    | DecidingToHoldOff
    | EnsuringCamera
    | FetchingCamera
    | ReadingFrame(seen: Option<nat>)
    | HandlingFault
    | Recovering
    | Releasing(owned: nat)
    | Finished
    | MarkingStopped
    | StopRecovering
    | StopReleasing(released: nat)

  /** Cameras are numbered in creation order; `releases` counts the release calls made. */
  datatype Slot = Slot(camera: Option<nat>, stopped: bool, created: nat)

  datatype Track = Track(slot: Slot, releases: multiset<nat>, threads: map<nat, Pc>)

  // ---------------------------------------------------------------- lock-protected sections

  datatype Ensured = Refused | Ready | Raised

  function EnsureCamera(s: Slot, start: Start): (Slot, Ensured) {
    if s.stopped then (s, Refused)
    else if s.camera.Some? then (s, Ready)
    else if start == CreateFails then (s, Raised)
    else (s.(camera := Some(s.created), created := s.created + 1), if start == Started then Ready else Raised)
  }

  function TakeCamera(s: Slot): (Slot, Option<nat>) { (s.(camera := None), s.camera) }

  function MarkStopped(s: Slot): (Slot, bool) { (s.(stopped := true), !s.stopped) }

  /** The shared fields and the three sections that change them. */
  class CaptureSlot {
    var camera: Option<nat>
    var stopped: bool
    var created: nat

    function View(): Slot
      reads this
    {
      Slot(camera, stopped, created)
    }

    constructor ()
      ensures View() == Slot(None, false, 0)
    {
      camera, stopped, created := None, false, 0;
    }

    /** The camera is stored before it is started, so a failed start can still be recovered. */
    method Ensure(start: Start) returns (r: Ensured)
      modifies this
      ensures (View(), r) == EnsureCamera(old(View()), start)
    {
      if stopped {
        return Refused;
      }
      if camera.Some? {
        return Ready;
      }
      if start == CreateFails {
        return Raised;
      }
      camera := Some(created);
      created := created + 1;
      return if start == Started then Ready else Raised;
    }

    method Take() returns (taken: Option<nat>)
      modifies this`camera
      ensures (View(), taken) == TakeCamera(old(View()))
    {
      taken := camera;
      camera := None;
    }

    method Mark() returns (first: bool)
      modifies this`stopped
      ensures (View(), first) == MarkStopped(old(View()))
    {
      first := !stopped;
      stopped := true;
    }
  }

  // ---------------------------------------------------------------- threads

  datatype Step =
    | SpawnWorker(thread: nat)
    | SpawnStop(thread: nat)
    | Advance(thread: nat, holdOff: bool, start: Start, frameRaises: bool)

  predicate CanStep(t: Track, s: Step) {
    match s
    case Advance(thread, _, _, _) => thread in t.threads && !t.threads[thread].Finished?
    case _ => s.thread !in t.threads
  }

  function Moved(t: Track, thread: nat, pc: Pc): Track { t.(threads := t.threads[thread := pc]) }

  function Next(t: Track, s: Step): Track
    requires CanStep(t, s)
  {
    match s
    case SpawnWorker(thread) => Moved(t, thread, CheckingStopped)
    case SpawnStop(thread) => Moved(t, thread, MarkingStopped)
    case Advance(thread, holdOff, start, frameRaises) =>
      match t.threads[thread]
      case CheckingStopped => Moved(t, thread, if t.slot.stopped then Finished else DecidingToHoldOff)
      case DecidingToHoldOff =>
        Moved(t, thread, if t.slot.camera.None? && holdOff then Finished else EnsuringCamera)
      case EnsuringCamera =>
        var (slot, ensured) := EnsureCamera(t.slot, start);
        Moved(t.(slot := slot), thread,
              match ensured case Refused => Finished case Ready => FetchingCamera case Raised => HandlingFault)
      case FetchingCamera => Moved(t, thread, if t.slot.stopped then Finished else ReadingFrame(t.slot.camera))
      case ReadingFrame(seen) => Moved(t, thread, if seen.Some? && frameRaises then HandlingFault else Finished)
      case HandlingFault => Moved(t, thread, if t.slot.stopped then Finished else Recovering)
      case Recovering =>
        var (slot, taken) := TakeCamera(t.slot);
        Moved(t.(slot := slot), thread, if taken.Some? then Releasing(taken.value) else Finished)
      case Releasing(owned) => Moved(t.(releases := t.releases + multiset{owned}), thread, Finished)
      case MarkingStopped =>
        var (slot, first) := MarkStopped(t.slot);
        Moved(t.(slot := slot), thread, if first then StopRecovering else Finished)
      case StopRecovering =>
        var (slot, taken) := TakeCamera(t.slot);
        Moved(t.(slot := slot), thread, if taken.Some? then StopReleasing(taken.value) else Finished)
      case StopReleasing(owned) => Moved(t.(releases := t.releases + multiset{owned}), thread, Finished)
  }

  const NEW_TRACK := Track(Slot(None, false, 0), multiset{}, map[])

  function After(steps: seq<Step>): Track
    requires IsRun(steps)
    decreases |steps|, 1
  {
    if steps == [] then NEW_TRACK else Next(After(steps[..|steps| - 1]), steps[|steps| - 1])
  }

  predicate IsRun(steps: seq<Step>)
    decreases |steps|, 0
  {
    steps != [] ==> IsRun(steps[..|steps| - 1]) && CanStep(After(steps[..|steps| - 1]), steps[|steps| - 1])
  }

  // ---------------------------------------------------------------- ownership

  predicate Owns(pc: Pc, c: nat) {
    (pc.Releasing? && pc.owned == c) || (pc.StopReleasing? && pc.released == c)
  }

  predicate OwnedByThread(t: Track, thread: nat, c: nat) { thread in t.threads && Owns(t.threads[thread], c) }

  predicate Stored(t: Track, c: nat) { t.slot.camera == Some(c) }

  /** Exactly one of: stored in the track, owned by exactly one thread, released exactly once. */
  ghost predicate HasOneOwner(t: Track, c: nat) {
    || (Stored(t, c) && t.releases[c] == 0 && forall th :: !OwnedByThread(t, th, c))
    || (!Stored(t, c) && t.releases[c] == 0
        && exists th :: OwnedByThread(t, th, c) && forall other :: OwnedByThread(t, other, c) ==> other == th)
    || (!Stored(t, c) && t.releases[c] == 1 && forall th :: !OwnedByThread(t, th, c))
  }

  ghost predicate NeverExisted(t: Track, c: nat) {
    !Stored(t, c) && t.releases[c] == 0 && forall th :: !OwnedByThread(t, th, c)
  }

  ghost predicate Ownership(t: Track) {
    && (forall c: nat :: c < t.slot.created ==> HasOneOwner(t, c))
    && (forall c: nat :: c >= t.slot.created ==> NeverExisted(t, c))
  }

  /** Once stopped, a camera is still stored only while the stopping thread is about to take it. */
  ghost predicate StopWillTake(t: Track) {
    t.slot.stopped && t.slot.camera.Some? ==> exists th :: th in t.threads && t.threads[th].StopRecovering?
  }

  /** How one step can change a camera's place: not at all, created into the slot, taken from
      the slot by the stepping thread, or released by it. */
  datatype Move = Kept | CreatedInSlot | TakenFromSlot | ReleasedNow

  function MoveOf(t: Track, s: Step, c: nat): Move
    requires CanStep(t, s)
  {
    var after := Next(t, s);
    if Stored(t, c) && !Stored(after, c) then TakenFromSlot
    else if !Stored(t, c) && Stored(after, c) then CreatedInSlot
    else if s.Advance? && Owns(t.threads[s.thread], c) then ReleasedNow
    else Kept
  }

  lemma OthersKeep(t: Track, s: Step, c: nat)
    requires CanStep(t, s)
    ensures forall th :: th != s.thread ==> (OwnedByThread(Next(t, s), th, c) <==> OwnedByThread(t, th, c))
  {
    hide EnsureCamera, Owns;
  }

  lemma MoveIsLocal(t: Track, s: Step, c: nat)
    requires CanStep(t, s)
    ensures var after := Next(t, s);
            var (stored, owned, releases) := (Stored(t, c), OwnedByThread(t, s.thread, c), t.releases[c]);
            var (stored', owned', releases') :=
                (Stored(after, c), OwnedByThread(after, s.thread, c), after.releases[c]);
            && (forall th :: th != s.thread ==> (OwnedByThread(after, th, c) <==> OwnedByThread(t, th, c)))
            && (c < t.slot.created ==> c < after.slot.created)
            && match MoveOf(t, s, c)
               case Kept => stored' == stored && !owned && !owned' && releases' == releases
                            && (c < after.slot.created ==> c < t.slot.created)
               case CreatedInSlot => c == t.slot.created && c < after.slot.created && !owned' && !owned
                                     && releases' == releases
               case TakenFromSlot => owned' && !owned && releases' == releases
                                     && (c < after.slot.created ==> c < t.slot.created)
               case ReleasedNow => stored' == stored && owned && !owned' && releases' == releases + 1
                                   && (c < after.slot.created ==> c < t.slot.created)
  {
    OthersKeep(t, s, c);
    if s.Advance? && t.threads[s.thread].EnsuringCamera? {
    } else {
      hide EnsureCamera;
    }
  }

  lemma StepKeepsOwner(t: Track, s: Step, c: nat)
    requires CanStep(t, s) && Ownership(t)
    ensures var after := Next(t, s); if c < after.slot.created then HasOneOwner(after, c) else NeverExisted(after, c)
  {
    assert if c < t.slot.created then HasOneOwner(t, c) else NeverExisted(t, c);
    hide Next, OwnedByThread;
    MoveIsLocal(t, s, c);
    var after := Next(t, s);
    if MoveOf(t, s, c).TakenFromSlot? {
      assert OwnedByThread(after, s.thread, c);
    }
  }

  lemma NextKeepsOwnership(t: Track, s: Step)
    requires CanStep(t, s) && Ownership(t)
    ensures Ownership(Next(t, s))
  {
    var after := Next(t, s);
    forall c: nat ensures if c < after.slot.created then HasOneOwner(after, c) else NeverExisted(after, c) {
      StepKeepsOwner(t, s, c);
    }
  }

  lemma NextKeepsStopWillTake(t: Track, s: Step)
    requires CanStep(t, s) && StopWillTake(t)
    ensures StopWillTake(Next(t, s))
  {
    var after := Next(t, s);
    if t.slot.stopped && t.slot.camera.Some? {
      var th :| th in t.threads && t.threads[th].StopRecovering?;
      assert th != s.thread ==> th in after.threads && after.threads[th].StopRecovering?;
    }
    assert s.thread in after.threads;
  }

  // ---------------------------------------------------------------- main results

  /** In every interleaving each camera ever created is exactly one of stored, owned by one
      recovery in progress, or released; so none is released twice. */
  lemma {:induction false} EveryCameraHasOneOwner(steps: seq<Step>)
    requires IsRun(steps)
    ensures Ownership(After(steps))
    ensures StopWillTake(After(steps))
  {
    if steps != [] {
      hide Next, Ownership, StopWillTake;
      EveryCameraHasOneOwner(steps[..|steps| - 1]);
      NextKeepsOwnership(After(steps[..|steps| - 1]), steps[|steps| - 1]);
      NextKeepsStopWillTake(After(steps[..|steps| - 1]), steps[|steps| - 1]);
    } else {
      NewTrackIsOwned();
    }
  }

  lemma NewTrackIsOwned()
    ensures Ownership(NEW_TRACK) && StopWillTake(NEW_TRACK)
  {
  }

  /** A stopped track stays stopped and never creates another camera. */
  lemma StoppedNeverCreates(t: Track, s: Step)
    requires CanStep(t, s) && t.slot.stopped
    ensures Next(t, s).slot.stopped && Next(t, s).slot.created == t.slot.created
  {
  }

  /** Once stopped, no worker begins a read or a recovery: each ends at its next section. */
  lemma StoppedGrabsNothing(t: Track, s: Step)
    requires CanStep(t, s) && s.Advance? && t.slot.stopped
    ensures var (pc, after) := (t.threads[s.thread], Next(t, s));
            && (pc.CheckingStopped? || pc.EnsuringCamera? || pc.FetchingCamera? || pc.HandlingFault? ==>
                  after == t.(threads := t.threads[s.thread := Finished]))
            && !after.threads[s.thread].ReadingFrame? && !after.threads[s.thread].Recovering?
  {
  }

  /** When the track is stopped and every thread has finished, every camera ever created has
      been released, exactly once. */
  lemma StoppedTrackLeaksNothing(steps: seq<Step>)
    requires IsRun(steps)
    requires var t := After(steps); t.slot.stopped && forall th :: th in t.threads ==> t.threads[th].Finished?
    ensures forall c: nat :: After(steps).releases[c] == if c < After(steps).slot.created then 1 else 0
  {
    EveryCameraHasOneOwner(steps);
    var t := After(steps);
    assert t.slot.camera.None?;
    forall c: nat ensures t.releases[c] == if c < t.slot.created then 1 else 0 {
      assert if c < t.slot.created then HasOneOwner(t, c) else NeverExisted(t, c);
    }
  }

  // ---------------------------------------------------------------- one thread left alone

  /** How many more steps a thread can take. */
  function Left(pc: Pc): nat {
    match pc
    case CheckingStopped => 8
    case DecidingToHoldOff => 7
    case EnsuringCamera => 6
    case FetchingCamera => 5
    case ReadingFrame(_) => 4
    case HandlingFault => 3
    case Recovering => 2
    case Releasing(_) => 1
    case Finished => 0
    case MarkingStopped => 3
    case StopRecovering => 2
    case StopReleasing(_) => 1
  }

  /** The track once a thread has run to its end with no other in between. */
  function Alone(t: Track, thread: nat, holdOff: bool, start: Start, frameRaises: bool): Track
    requires thread in t.threads
    decreases Left(t.threads[thread])
  {
    if t.threads[thread].Finished? then t
    else Alone(Next(t, Advance(thread, holdOff, start, frameRaises)), thread, holdOff, start, frameRaises)
  }

  lemma FaultAlone(t: Track, thread: nat, holdOff: bool, start: Start, frameRaises: bool)
    requires thread in t.threads && t.threads[thread].HandlingFault?
    ensures var after := Alone(t, thread, holdOff, start, frameRaises);
            && after.threads == t.threads[thread := Finished]
            && after.slot == (if t.slot.stopped then t.slot else t.slot.(camera := None))
            && after.releases == t.releases + if !t.slot.stopped && t.slot.camera.Some?
                                              then multiset{t.slot.camera.value} else multiset{}
  {
    var s := Advance(thread, holdOff, start, frameRaises);
    var t1 := Next(t, s);
    if !t.slot.stopped {
      assert t1.threads[thread] == Recovering;
      var t2 := Next(t1, s);
      assert Alone(t1, thread, holdOff, start, frameRaises) == Alone(t2, thread, holdOff, start, frameRaises);
      if t.slot.camera.Some? {
        assert t2.threads[thread] == Releasing(t.slot.camera.value);
        assert Alone(t2, thread, holdOff, start, frameRaises) == Next(t2, s);
      }
    }
  }

  lemma FrameAlone(t: Track, thread: nat, holdOff: bool, start: Start, frameRaises: bool)
    requires thread in t.threads && t.threads[thread].FetchingCamera?
    requires !t.slot.stopped && t.slot.camera.Some?
    ensures var after := Alone(t, thread, holdOff, start, frameRaises);
            && after.threads == t.threads[thread := Finished]
            && after.slot == (if frameRaises then t.slot.(camera := None) else t.slot)
            && after.releases == t.releases + if frameRaises then multiset{t.slot.camera.value} else multiset{}
  {
    var s := Advance(thread, holdOff, start, frameRaises);
    var t1 := Next(t, s);
    var t2 := Next(t1, s);
    assert Alone(t1, thread, holdOff, start, frameRaises) == Alone(t2, thread, holdOff, start, frameRaises);
    if frameRaises {
      FaultAlone(t2, thread, holdOff, start, frameRaises);
    }
  }

  /** A worker that nobody interrupts leaves a running track with its camera, creating one when
      there is none and it need not hold off; a fault takes the camera away and releases it, even
      one that could not be started. A stopped track is left as it is. */
  lemma WorkerAlone(t: Track, thread: nat, holdOff: bool, start: Start, frameRaises: bool)
    requires thread in t.threads && t.threads[thread].CheckingStopped?
    ensures var after := Alone(t, thread, holdOff, start, frameRaises);
            var none := t.slot.camera.None?;
            var camera := if none then t.slot.created else t.slot.camera.value;
            var created := t.slot.created + if none then 1 else 0;
            && after.threads == t.threads[thread := Finished]
            && if t.slot.stopped || (none && (holdOff || start.CreateFails?)) then
                 after.slot == t.slot && after.releases == t.releases
               else if frameRaises || (none && start.StartFails?) then
                 after.slot == Slot(None, false, created) && after.releases == t.releases + multiset{camera}
               else after.slot == Slot(Some(camera), false, created) && after.releases == t.releases
  {
    var s := Advance(thread, holdOff, start, frameRaises);
    var t1 := Next(t, s);
    hide EnsureCamera;
    if !t.slot.stopped {
      var t2 := Next(t1, s);
      assert Alone(t1, thread, holdOff, start, frameRaises) == Alone(t2, thread, holdOff, start, frameRaises);
      if t2.threads[thread].EnsuringCamera? {
        EnsuringAlone(t2, thread, holdOff, start, frameRaises);
      }
    }
  }

  lemma EnsuringAlone(t: Track, thread: nat, holdOff: bool, start: Start, frameRaises: bool)
    requires thread in t.threads && t.threads[thread].EnsuringCamera? && !t.slot.stopped
    ensures var after := Alone(t, thread, holdOff, start, frameRaises);
            var none := t.slot.camera.None?;
            var camera := if none then t.slot.created else t.slot.camera.value;
            var created := t.slot.created + if none then 1 else 0;
            && after.threads == t.threads[thread := Finished]
            && if none && start.CreateFails? then after.slot == t.slot && after.releases == t.releases
               else if frameRaises || (none && start.StartFails?) then
                 after.slot == Slot(None, false, created) && after.releases == t.releases + multiset{camera}
               else after.slot == Slot(Some(camera), false, created) && after.releases == t.releases
  {
    var t1 := Next(t, Advance(thread, holdOff, start, frameRaises));
    assert Alone(t, thread, holdOff, start, frameRaises) == Alone(t1, thread, holdOff, start, frameRaises);
    if t.slot.camera.None? && !start.Started? {
      FaultAlone(t1, thread, holdOff, start, frameRaises);
    } else {
      FrameAlone(t1, thread, holdOff, start, frameRaises);
    }
  }

  /** The first stop takes the camera and releases it; every later one changes nothing. */
  lemma StopAlone(t: Track, thread: nat, holdOff: bool, start: Start, frameRaises: bool)
    requires thread in t.threads && t.threads[thread].MarkingStopped?
    ensures var after := Alone(t, thread, holdOff, start, frameRaises);
            && after.threads == t.threads[thread := Finished]
            && after.slot == (if t.slot.stopped then t.slot else Slot(None, true, t.slot.created))
            && after.releases == t.releases + if !t.slot.stopped && t.slot.camera.Some?
                                              then multiset{t.slot.camera.value} else multiset{}
  {
    var s := Advance(thread, holdOff, start, frameRaises);
    var t1 := Next(t, s);
    if !t.slot.stopped {
      var t2 := Next(t1, s);
      assert Alone(t1, thread, holdOff, start, frameRaises) == Alone(t2, thread, holdOff, start, frameRaises);
      if t.slot.camera.Some? {
        assert Alone(t2, thread, holdOff, start, frameRaises) == Next(t2, s);
      }
    }
  }
}
