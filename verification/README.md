# Verification of the remote desktop's safety chain

This project models, in Dafny, the parts of the remote desktop that decide what may reach the
host machine, and proves what they guarantee over whole runs.

The system has three programs. A browser *viewer* captures keys and pointer positions and sends
them over an ordered WebRTC control channel. A Windows *host agent* re-checks every message,
holds the control grant with its dead-man lease, injects input, captures and encodes the desktop
and receives files. A *signaling room* introduces the two to each other.

## How the model is built

Code that changes fields in place is a `class` whose methods are proved against functions on a
value of the same fields (`View()`); the functions are then run over sequences of events, and the
main results are lemmas about every such run. The modules whose names end in `Laws` say, case by
case and apart from those functions, what each operation does and exactly when.

| module | models |
|---|---|
| `Basics` | `Option` and `Result` |
| `SlidingWindow` | the two sliding-window limiters and their common reference, the full admitted history |
| `Geometry` | both letterboxes a pointer position crosses, with Python's rounding |
| `KeyCodes` | the viewer's and the agent's keyboard whitelists |
| `InputControl`, `InputRuns` | the agent's input controller with its injection log; its limiters and watchdog over runs |
| `ViewerKeys` | the viewer's keyboard handlers and their Shift repair |
| `StuckKey`, `ShiftArrival` | viewer, ordered sequenced channel and controller together; what a key finds held when it gets there |
| `AgentGrant`, `GrantLaws`, `GrantRuns`, `HostAgent` | the control grant, lease and emergency lock as steps between awaits; what each step does; grant and watchdog together; the agent object |
| `EndToEnd` | viewer, channel and grant machine as one world |
| `Camera` | camera ownership between executor workers and `stop` |
| `FrameClock` | presentation timestamps |
| `Encoder`, `EncoderLaws` | bitrate hysteresis, network gate and scene keyframes; exactly when the bitrate moves and a keyframe is sent |
| `FileTransfer`, `Upload`, `UploadLaws`, `UploadRuns` | names and the receiver; sender and agent handlers; what each event does; whole upload conversations |
| `SessionRoom`, `RoomLaws`, `RoomRuns` | the signaling room; what each event does to it; its occupancy, routing, limits and heartbeat over runs |

## Where the code and its descriptions differ

The model follows the code. Four descriptions found in the repository do not hold as written; for
each there is a lemma saying exactly when it does.

- Typed text is documented to reject C0 and C1 control characters; the code accepts U+0080 to
  U+009F (`InputRuns.SafeTextVersusDocumentation`, `InputRuns.C1TextIsTyped`).
- Shift repair is described as keeping shifted keys an ordered remote chord. A pointer
  cancellation releases the remote's Shift but not the viewer's record of it, and then no repair
  takes place (`ViewerKeys.ShiftedKeyArrivesShiftedIff`, `ViewerKeys.PointerCancelDefeatsShiftRepair`).
- A refused viewer is described as unable to displace the active one. The eviction comes first
  (`RoomRuns.RefusedViewerDisplacesIff`, `RoomRuns.RefusedViewerDisplacesActive`).
- A silent agent's alarm is described as firing at its deadline. An alarm that fires while the
  agent is still connecting is lost, because the handler looks at open sockets only, and stays
  lost until the next heartbeat or agent connection (`RoomRuns.AgentIsWatchedIff`,
  `RoomRuns.AlarmDuringHandshakeLosesAgent`). That a server socket can report CONNECTING at all
  is the room's own assumption about its platform (`sessionRoom.ts:111-112`), kept here.

Four details of the code are easy to miss and are kept as they are:

- The agent refuses every control message of a session it has left for another viewer's, releases
  included, while an active grant's controller keeps running; a message whose timestamp is too far
  off fares alike. So a key can outlive its release (`StuckKey.StuckOnlyIfLost`,
  `StuckKey.StrayIffLost`, `StuckKey.RefusedReleaseLeavesKey`), until the agent lets go of
  everything, as its watchdog makes it do once no input has been accepted for four seconds
  (`GrantRuns.HostHoldIsBounded`).
- The digest pattern is matched with a trailing `$`, so a newline after the 64 digits passes the
  offer check; a real digest never equals such an offer, so it is never published
  (`FileTransfer.MatchesDigest`, `UploadRuns.PublishedMatchesOffer`).
- An estimate that arrives before the first frame and equals the codec library's default bitrate
  counts as no estimate (`Encoder.FirstFrameHonoursEstimate`).
- A repeated session request during an active grant changes the agent's profile but neither its
  track nor its controller, which keep agreeing with each other (`AgentGrant.AuthorityHolds`).

## Assumptions

- Clocks: the monotonic clock, the room's clock and the times of one run never step back, except
  where a result says so (frame timestamps hold for any clock; the lease keeps every clock reading
  of a handler separate and arbitrary).
- Times, rates and coordinates are reals or integers; floating-point rounding is not modelled.
- SHA-256 and the platform's lower-casing are arbitrary functions; every result holds for all of them.
- The codec library's minimum and default bitrate are parameters with
  0 < minimum <= default <= the lowest profile's ceiling; aiortc is not part of this model.
- Profiles are told apart by their sizes, which differ for the three there are.
- Signaling messages are handled one at a time by the agent, as its receive loop does.

## Model

| member | source | states |
|---|---|---|
| EndToEnd.HostHoldsWhatViewerHolds | apps/host-agent/src/mirror_host_agent/__main__.py:751-783 | The host itself, over every run of viewer, channel and grant machine together: once the channel is quiet, the injected calls have left down only keys the viewer considers pressed and keys whose release was lost, and only the former if and only if none of the latter is down |
| EndToEnd.StepFollows | apps/host-agent/src/mirror_host_agent/__main__.py:392-515 | Every step of the grant machine moves the controller as a few steps of the keyboard system do |
| EndToEnd.AgentRunAgrees | apps/host-agent/src/mirror_host_agent/__main__.py:392-515 | A run of viewer, channel and grant machine is a run of the grant machine |
| EndToEnd.KeyboardRunAgrees | apps/host-agent/src/mirror_host_agent/__main__.py:751-783 | Seen from the keyboard it is a run of the keyboard system |
| StuckKey.StuckOnlyIfLost | apps/host-agent/src/mirror_host_agent/__main__.py:874-896 | After any run, with any messages lost at the sending end or refused by the agent, revocations, new grants, replaced peers and viewers, let the agent come to everything still queued: it holds only keys the viewer considers pressed if and only if no other key is astray |
| StuckKey.StrayIffLost | apps/host-agent/src/mirror_host_agent/__main__.py:884-895 | In every run a key is astray if and only if a release of it was lost or refused and since then the agent has held it and heard no more of it |
| StuckKey.RefusedReleaseLeavesKey | apps/host-agent/src/mirror_host_agent/__main__.py:888-895 | The concrete run: pressed, received, lifted, the release refused; the channel is quiet, the viewer holds nothing, the agent holds the key |
| StuckKey.NoStuckKey | apps/viewer/src/useInputCapture.ts:260-347 | When no message is lost or refused no key is stuck: after any run, delivering what is still queued leaves the agent holding only keys the viewer considers pressed |
| StuckKey.LosslessRunHasNoStray | apps/viewer/src/useRemoteSession.ts:895-949 | In a run that loses and refuses nothing no key is ever astray |
| ShiftArrival.UnshiftedKeyReachesAgentUnshifted | apps/viewer/src/useInputCapture.ts:271-299 | After any run, when the message of an unshifted key is the next one the agent comes to, the agent holds a Shift if and only if a stray one is down, whatever was dropped or released in between, as long as no other viewer takes over |
| ShiftArrival.ShiftedKeyReachesAgentShiftedIff | apps/viewer/src/useInputCapture.ts:284-299 | A shifted key whose Shift the viewer repaired reaches the agent under a held Shift if and only if one was held already or the limiter had room for the repaired one, and the agent has not let go of everything since |
| ShiftArrival.ShiftIsHeldIff | apps/host-agent/src/mirror_host_agent/input_control.py:210-245 | A received Shift is down if and only if it was before or there is a controller with room for it |
| StuckKey.QuietHolds | apps/host-agent/src/mirror_host_agent/input_control.py:194-237 | With nothing in flight, what the agent holds beyond the viewer's record is astray |
| StuckKey.EveryRunIsSafe | apps/viewer/src/useRemoteSession.ts:895-949 | The invariant behind it: sequence numbers in the queue strictly increase and exceed the last one applied, and folding the queued key traffic over the agent's keys, strays apart, stays within the viewer's record |
| StuckKey.NextKeepsSafe | apps/host-agent/src/mirror_host_agent/input_control.py:194-237 | Every single step keeps that invariant, although the agent may drop any press for rate, refuse any message and release everything on its own |
| StuckKey.ReceiveIsAtMostIntended | apps/host-agent/src/mirror_host_agent/input_control.py:210-237 | One fresh message leaves the controller with at most the keys its sender intended: a press may be dropped, a release never is |
| StuckKey.TakingHeadIsAtMostIntended | apps/host-agent/src/mirror_host_agent/__main__.py:768-783 | Accepted, refused, never sent or dropped for want of a controller, one message leaves the agent with at most the keys it was meant to leave, strays apart |
| StuckKey.ControlSender.NextControlSequence | apps/viewer/src/useRemoteSession.ts:450-453 | The shared counter is advanced by exactly one and returned |
| StuckKey.ControlSender.EmitControl | apps/viewer/src/useRemoteSession.ts:895-921 | Guarded by readiness: the message is not tried, or goes out with the next sequence number, or the channel throws, the number is used up and recovery is started once |
| ViewerKeys.KeyCapture.HandleKeyDown | apps/viewer/src/useInputCapture.ts:260-300 | The keydown handler, Shift loop included, updates its record and sends what the reaction function says |
| ViewerKeys.KeyCapture.HandleKeyUp | apps/viewer/src/useInputCapture.ts:302-341 | The keyup handler, including release of a synthesized Shift before or after the key, does the same; which lifts are sent and what they leave is stated by LiftIsSentIff, LiftSendsExactly and LiftReleasesForwarded |
| ViewerKeys.KeyCapture.ReleaseAll | apps/viewer/src/useInputCapture.ts:343-347 | Clears the record and sends the release |
| ViewerKeys.KeyCapture.HandlePointerCancel | apps/viewer/src/useInputCapture.ts:239-245 | Sends the release but leaves the viewer's record unchanged |
| ViewerKeys.KeyboardStaysSound | apps/viewer/src/useInputCapture.ts:260-347 | In every run a synthesized Shift is in the forwarded keys, and every forwarded key is whitelisted |
| ViewerKeys.KeyUpEndsSynthesizedShift | apps/viewer/src/useInputCapture.ts:318-340 | After a processed keyup no Shift is synthesized, the key is no longer forwarded, and a synthesized ShiftLeft is gone with it |
| ViewerKeys.RemoteWithinForwarded | apps/viewer/src/useInputCapture.ts:260-347 | In every run, folding everything sent gives a subset of the forwarded keys |
| ViewerKeys.RemoteEqualsForwarded | apps/viewer/src/useInputCapture.ts:260-347 | In runs without pointercancel, outside release or toolbar chord the fold equals the forwarded keys |
| ViewerKeys.UnshiftedKeyArrivesUnshifted | apps/viewer/src/useInputCapture.ts:271-282 | An unshifted key never arrives under a held Shift, in any run at all |
| ViewerKeys.ShiftedKeyArrivesShiftedIff | apps/viewer/src/useInputCapture.ts:284-299 | A shifted key arrives under a held Shift if and only if the remote already held one or the viewer's record held none |
| ViewerKeys.ShiftedKeyArrivesShifted | apps/viewer/src/useInputCapture.ts:284-299 | In runs without pointercancel, outside release or toolbar chord it always does |
| ViewerKeys.PointerCancelDefeatsShiftRepair | apps/viewer/src/useInputCapture.ts:239-245 | The concrete run in which the repair fails: Shift held, pointer cancelled, shifted letter arrives unshifted |
| ViewerKeys.ChordLeavesNothing | apps/viewer/src/App.tsx:66-73 | A properly nested key chord removes its own keys from the remote and changes no other |
| KeyCodes.ViewerKeysAreAgentKeys | apps/host-agent/src/mirror_host_agent/input_control.py:27-36 | The agent's whitelist accepts every key of the viewer's, and beyond it only the two Meta keys |
| KeyCodes.ShiftPrefixMeansShift | apps/viewer/src/useInputCapture.ts:17-18 | Among whitelisted keys the prefix test singles out exactly ShiftLeft and ShiftRight |
| InputControl.InputController.Handle | apps/host-agent/src/mirror_host_agent/input_control.py:194-208 | State, result and injected calls are those of the specification, and what the host's log holds down stays exactly the tracked buttons and keys |
| InputControl.InputController.Dispatch | apps/host-agent/src/mirror_host_agent/input_control.py:210-237 | Dispatch by event with releases exempt from the limiter; the log keeps matching the tracked state |
| InputControl.InputController.AllowAction | apps/host-agent/src/mirror_host_agent/input_control.py:239-245 | The front-popping loop admits and retains exactly what the deque specification does (half-open window) |
| InputControl.InputController.Move | apps/host-agent/src/mirror_host_agent/input_control.py:247-270 | Validation, closed-window limiter and mapping in the source's order: an admitted move over a bar uses up budget but injects nothing; where the others go is stated by MoveIsInjectedIff |
| InputControl.InputController.Act | apps/host-agent/src/mirror_host_agent/input_control.py:272-311 | Buttons, wheel, keys and text: one call per accepted action, none otherwise |
| InputControl.InputController.ReleaseAll | apps/host-agent/src/mirror_host_agent/input_control.py:313-321 | One up for each tracked button in name order, then one for each tracked key in code order, nothing else, and nothing stays tracked |
| InputControl.KeyUpsAreSorted | apps/host-agent/src/mirror_host_agent/input_control.py:318-319 | The key releases are exactly the ups of the tracked keys, each once, in Python's string order |
| InputControl.InputController.OnWatchdogTick | apps/host-agent/src/mirror_host_agent/input_control.py:323-336 | Fires exactly after the silence interval, releases everything and forgets the activity time |
| InputRuns.HoldIsBounded | apps/host-agent/src/mirror_host_agent/__main__.py:739-749 | With watchdog ticks at most one second apart, anything held at a moment is backed by a message accepted less than watchdog seconds plus one earlier, over every run |
| InputRuns.ActivityTracksAcceptance | apps/host-agent/src/mirror_host_agent/input_control.py:194-208 | Held input implies an activity time, which is the time of the last accepted message and younger than the watchdog limit at the last tick |
| InputRuns.RejectedChangesNothingHeld | apps/host-agent/src/mirror_host_agent/input_control.py:194-208 | A refused message changes neither the activity time nor anything held, and injects nothing |
| InputRuns.ReplayIsInert | apps/host-agent/src/mirror_host_agent/input_control.py:194-203 | A message delivered once is refused without effect whenever it is delivered again, whatever happened in between |
| InputRuns.ReleasesAreNeverLimited | apps/host-agent/src/mirror_host_agent/input_control.py:224-237 | A fresh valid release is applied however full the limiters are and lets go of exactly what it names |
| InputRuns.LimiterIsExact | apps/host-agent/src/mirror_host_agent/input_control.py:239-261 | After any run each limiter admits if and only if fewer than its limit of all admitted events lie in the window ending now |
| InputRuns.PressAppliedIffRoom | apps/host-agent/src/mirror_host_agent/input_control.py:210-245 | A fresh valid key press is applied if and only if the action window has room |
| InputRuns.InjectionRateIsBounded | apps/host-agent/src/mirror_host_agent/input_control.py:239-270 | No one-second window, wherever it starts, holds more injected press, wheel and text calls (half-open) or moves (closed) than the limit, counted call by call |
| InputRuns.EveryInjectionWasAdmitted | apps/host-agent/src/mirror_host_agent/input_control.py:210-270 | Counted with multiplicity, the injected calls of every run are among the attempts its limiter admitted |
| InputRuns.StepInjectsAtMostOne | apps/host-agent/src/mirror_host_agent/input_control.py:210-270 | One message injects at most one call its limiter governs, and only when the limiter was asked and admitted it |
| InputRuns.SafeTextVersusDocumentation | apps/host-agent/src/mirror_host_agent/input_control.py:43-49 | The accepted texts exceed the documented ones exactly by those with a C1 character; U+0085 is one |
| InputRuns.TextIsTypedIff | apps/host-agent/src/mirror_host_agent/input_control.py:303-311 | A fresh text message types its text if and only if the code's test passes and the limiter has room, and nothing otherwise |
| InputRuns.C1TextIsTyped | apps/host-agent/src/mirror_host_agent/input_control.py:303-311 | A text of U+0085 is typed on the host |
| SlidingWindow.TwoLimitersAgree | packages/protocol/src/rateLimit.ts:31-44 | On every time-ordered run the front-popping deque and the filtering evaluator make the same decisions and retain the same list |
| SlidingWindow.DequeRunIsExact | apps/host-agent/src/mirror_host_agent/input_control.py:239-245 | The deque always holds the window of the full admitted history, and refuses only when that window is full |
| SlidingWindow.EvaluatorIsExact | packages/protocol/src/rateLimit.ts:31-44 | The evaluator, too, decides on the window of the full admitted history |
| SlidingWindow.EveryWindowIsBounded | packages/protocol/src/rateLimit.ts:31-44 | No window of the admitted history, wherever it starts, exceeds the limit |
| SlidingWindow.PoppingIsFiltering | apps/host-agent/src/mirror_host_agent/input_control.py:239-245 | On a time-ordered list popping expired entries from the front equals filtering the whole list |
| SlidingWindow.PruningTwice | packages/protocol/src/rateLimit.ts:36-37 | Pruning at an earlier instant never changes what a later pruning keeps |
| AgentGrant.AuthorityHolds | apps/host-agent/src/mirror_host_agent/__main__.py:1357-1376 | Over every interleaving at the awaits: controller if and only if watchdog; controller implies grant, peer and the frame size of the current video track; pending sink implies grant; grant implies control enabled, not locked and an expiry; locked implies not enabled; and the host holds exactly what the controller tracks |
| AgentGrant.NextKeepsAuthority | apps/host-agent/src/mirror_host_agent/__main__.py:413-511 | Each step between two awaits keeps that invariant |
| AgentGrant.NextTracksHost | apps/host-agent/src/mirror_host_agent/__main__.py:700-783 | The calls injected by each step move what the host holds to exactly what the new state tracks |
| AgentGrant.PressNeedsAuthority | apps/host-agent/src/mirror_host_agent/__main__.py:751-783 | Anything but a release is injected only by an input message arriving while control is enabled, unlocked, granted, with a peer and within its lease |
| AgentGrant.KeyPressInjectedIff | apps/host-agent/src/mirror_host_agent/__main__.py:751-783 | A key press is injected if and only if its message arrives under an active grant at a controller that finds it fresh, whitelisted and within the rate |
| AgentGrant.EmergencyStopIsFinal | apps/host-agent/src/mirror_host_agent/__main__.py:246-257 | After an emergency stop the host holds nothing, the lock stays, and no later step of any run injects anything |
| AgentGrant.GrantIsBacked | apps/host-agent/src/mirror_host_agent/__main__.py:751-767 | Every grant is backed by a chain grant, ping, ..., ping of steps of the run, each of which set the expiry to one lease after its own date, with all gaps below the lease and the grant standing without a break; the grant expires one lease after the last link |
| AgentGrant.InjectionIsLeased | apps/host-agent/src/mirror_host_agent/__main__.py:751-783 | Every injected press has such a chain ending less than one lease before it |
| AgentGrant.RepeatedRequestKeepsLease | apps/host-agent/src/mirror_host_agent/__main__.py:418-439 | A repeated control request during an active grant moves neither the expiry nor the controller and injects nothing |
| GrantRuns.HostHoldIsBounded | apps/host-agent/src/mirror_host_agent/__main__.py:739-749 | Over every run of the grant machine: while the watchdog never sleeps longer than a second, whatever the host holds is backed by input accepted less than four seconds ago |
| GrantRuns.RunIsAttended | apps/host-agent/src/mirror_host_agent/__main__.py:739-749 | A controller's activity time is that of the last accepted input of the run, and was younger than three seconds when the watchdog last went to sleep |
| GrantRuns.AskingNeverExtends | apps/host-agent/src/mirror_host_agent/__main__.py:418-439 | However often the viewer asks again, without pings a grant that stands throughout keeps its expiry |
| GrantRuns.AskingNeverProlongsInput | apps/host-agent/src/mirror_host_agent/__main__.py:418-439 | So without pings nothing is pressed at or after that expiry |
| AgentGrant.LostGrantStaysLost | apps/host-agent/src/mirror_host_agent/__main__.py:757-767 | Without a new request nothing, pings included, brings a lost grant back |
| AgentGrant.ExpiryRevokes | apps/host-agent/src/mirror_host_agent/__main__.py:739-755 | The first control message or watchdog wake-up at or after the expiry revokes the grant and releases everything held |
| HostAgent.M0Agent.StopControlRuntime | apps/host-agent/src/mirror_host_agent/__main__.py:1364-1370 | Cancels the watchdog, releases everything the controller held, and drops it |
| HostAgent.M0Agent.RevokeControl | apps/host-agent/src/mirror_host_agent/__main__.py:1372-1376 | The object's revocation is the grant machine's, in state and in injected calls |
| HostAgent.M0Agent.SetControlEnabled | apps/host-agent/src/mirror_host_agent/__main__.py:204-209 | Enabling is refused under the lock; disabling revokes |
| HostAgent.M0Agent.EmergencyStop | apps/host-agent/src/mirror_host_agent/__main__.py:246-254 | Disables, locks and revokes in one step |
| HostAgent.M0Agent.AdoptProfile | apps/host-agent/src/mirror_host_agent/__main__.py:413-417 | A requested profile becomes the agent's without touching its track, its controller or what is held |
| HostAgent.M0Agent.HandleSessionRequest | apps/host-agent/src/mirror_host_agent/__main__.py:413-464 | An active grant is echoed untouched, otherwise the request is decided afresh |
| HostAgent.M0Agent.DecideGrant | apps/host-agent/src/mirror_host_agent/__main__.py:440-464 | Revokes first, then grants only on request, local enablement, platform and a working injection backend |
| HostAgent.M0Agent.DetachPeer | apps/host-agent/src/mirror_host_agent/__main__.py:1586-1612 | Everything held is released before the peer is detached |
| HostAgent.M0Agent.HandleSessionClose | apps/host-agent/src/mirror_host_agent/__main__.py:509-512 | Revocation and detachment in one step; each held input is released once |
| HostAgent.M0Agent.StartControl | apps/host-agent/src/mirror_host_agent/__main__.py:700-737 | A prepared or re-prepared sink gives a controller and its watchdog; otherwise control is revoked |
| HostAgent.M0Agent.BuildPeer | apps/host-agent/src/mirror_host_agent/__main__.py:588-609 | The replacement peer gets its track and, under a grant, a controller |
| HostAgent.M0Agent.OnControlMessage | apps/host-agent/src/mirror_host_agent/__main__.py:751-783 | Expiry check, lease renewal by pings and delivery to the controller, with the three clock readings kept apart; what each message does to the lease is stated by PingRenews and OtherMessagesKeepLease |
| HostAgent.M0Agent.WakeWatchdog | apps/host-agent/src/mirror_host_agent/__main__.py:739-749 | One wake-up: revokes an expired grant, otherwise ticks the controller |
| HostAgent.M0Agent.ApplyVideoProfile | apps/host-agent/src/mirror_host_agent/__main__.py:670-698 | A changed profile replaces the track and resizes the controller; the current profile changes nothing |
| HostAgent.M0Agent.Live | apps/host-agent/src/mirror_host_agent/__main__.py:392-515 | The object lives through any run of the grant machine: it ends in the run's state, under the authority invariant, with the host's log holding exactly what the run's calls leave held |
| HostAgent.M0Agent.TakeStep | apps/host-agent/src/mirror_host_agent/__main__.py:392-515 | Whatever step comes next, the method that handles it changes state and log as the grant machine says |
| HostAgent.M0Agent.Resume | apps/host-agent/src/mirror_host_agent/__main__.py:581-609 | A suspended offer handler runs on to its next await as the grant machine says |
| HostAgent.M0Agent.Configure | apps/host-agent/src/mirror_host_agent/__main__.py:491-507 | Without a video sender, or for the current profile, a reconfiguration changes nothing but the handler's phase |
| Camera.EveryCameraHasOneOwner | apps/host-agent/src/mirror_host_agent/video.py:329-390 | For any interleaving of any number of workers and stoppers, each camera ever created is exactly one of: stored, owned by exactly one recovery in progress, released exactly once |
| Camera.StoppedTrackLeaksNothing | apps/host-agent/src/mirror_host_agent/video.py:507-513 | When the track is stopped and all threads have finished, every camera ever created has been released exactly once, and nothing else was |
| Camera.StoppedNeverCreates | apps/host-agent/src/mirror_host_agent/video.py:329-335 | A stopped track stays stopped and creates no camera |
| Camera.MoveIsLocal | apps/host-agent/src/mirror_host_agent/video.py:365-390 | One step moves a camera only into the slot, from the slot to the stepping thread, or from that thread to released, and never touches another thread's |
| Camera.CaptureSlot.Ensure | apps/host-agent/src/mirror_host_agent/video.py:329-363 | The locked creation section stores the camera before starting it |
| Camera.CaptureSlot.Take | apps/host-agent/src/mirror_host_agent/video.py:373-375 | The locked section that takes the camera away leaves none behind |
| Camera.CaptureSlot.Mark | apps/host-agent/src/mirror_host_agent/video.py:508-511 | Only the first stopper goes on to release |
| FrameClock.StampsIncrease | apps/host-agent/src/mirror_host_agent/video.py:497-502 | For any clock readings the timestamps strictly increase and are never before the clock |
| FrameClock.StampsAreLeast | apps/host-agent/src/mirror_host_agent/video.py:497-502 | They are the least such sequence: none runs ahead further than increasing forces it to |
| FrameClock.Recorder.Stamp | apps/host-agent/src/mirror_host_agent/video.py:497-502 | The incremental computation appends exactly the next timestamp of that sequence |
| Geometry.PointerRoundTrip | packages/protocol/src/pointer.ts:60-85 | A desktop point placed through both letterboxes and clicked there arrives as the same point, for all positive sizes |
| Geometry.LetterboxFitIsTight | apps/host-agent/src/mirror_host_agent/video.py:97-118 | The fit lies inside the canvas, fills one axis exactly, is centred within one pixel and within half a pixel of exact scaling unless clamped to 1 |
| Geometry.FramePointMapsIffOverContent | apps/host-agent/src/mirror_host_agent/input_control.py:66-97 | A frame point maps if and only if it is over captured content up to the epsilon, and always into 0..65535 |
| Geometry.PointerDroppedIffOnBars | packages/protocol/src/pointer.ts:60-85 | A pointer position is dropped if and only if it is on the element's bars; otherwise it lands in 0..1; the bars are those of the tight, centred rectangle of ContainRectIsTight |
| Geometry.PointerPathMonotone | apps/host-agent/src/mirror_host_agent/input_control.py:60-97 | Over the whole path, moving right or down never moves the remote cursor left or up |
| Encoder.DownshiftIsSustained | apps/host-agent/src/mirror_host_agent/h264_encoder.py:334-361 | After the first frame the target falls only at a frame at least two seconds of media time after another, with every estimate in between below the target, content moving, and the network reports since their last clearing absent, stale or bad without a break for two seconds; it falls to the latest estimate |
| Encoder.HealthFollowsReports | apps/host-agent/src/mirror_host_agent/h264_encoder.py:126-166 | In every run the report fields an encoder sees are those of the reports received since the last clearing, earlier ones included |
| Encoder.TargetStaysBounded | apps/host-agent/src/mirror_host_agent/h264_encoder.py:207-225 | In every run minimum <= target <= profile maximum, a pending decrease is strictly below the target, and only a pending decrease is timed |
| Encoder.PendingIsLatestEstimate | apps/host-agent/src/mirror_host_agent/h264_encoder.py:207-225 | A pending decrease is the latest receiver estimate, clamped |
| Encoder.PendingIsAnchored | apps/host-agent/src/mirror_host_agent/h264_encoder.py:343-349 | A timed decrease is anchored at an earlier frame since which the target has not changed and every estimate was below it |
| Encoder.UnhealthySinceIsStretchStart | apps/host-agent/src/mirror_host_agent/h264_encoder.py:131-166 | The stored time is that of the first report of the maximal unhealthy stretch with gaps of at most five seconds ending at the latest report, and exists if and only if that report is unhealthy |
| Encoder.GateOpensIffSustained | apps/host-agent/src/mirror_host_agent/h264_encoder.py:169-183 | The gate is open if and only if there is no fresh report or that stretch has lasted two seconds |
| Encoder.SceneKeyframesAreSpaced | apps/host-agent/src/mirror_host_agent/h264_encoder.py:292-332 | At least four frames are encoded between two scene keyframes |
| Encoder.StableFramesComeAfter | apps/host-agent/src/mirror_host_agent/h264_encoder.py:308-318 | Stable frames counted after a scene keyframe were all encoded after it |
| Encoder.SceneKeyframeRespectsCooldown | apps/host-agent/src/mirror_host_agent/h264_encoder.py:320-326 | In every run a scene keyframe comes at least the cooldown after the last keyframe, of any kind, that produced data |
| Encoder.KeyframeTimeIsLast | apps/host-agent/src/mirror_host_agent/h264_encoder.py:474-476 | The stored keyframe time is that of the last keyframe that produced data, read off the run |
| Encoder.FirstFrameHonoursEstimate | apps/host-agent/src/mirror_host_agent/h264_encoder.py:374-382 | The first frame keeps an earlier estimate, capped to the frame's profile, if and only if it differs from the library default; otherwise it starts at the profile's own bitrate |
| Encoder.CodecFollowsTarget | apps/host-agent/src/mirror_host_agent/h264_encoder.py:394-421 | After every frame the codec has the frame's size and a bitrate within a quarter of the target, and a new codec comes with a keyframe |
| Encoder.ReceiverHealth.Update | apps/host-agent/src/mirror_host_agent/h264_encoder.py:131-166 | The shared report fields after a report are those of the specification |
| Encoder.TunedH264Encoder.SetTargetBitrate | apps/host-agent/src/mirror_host_agent/h264_encoder.py:207-225 | An estimate raises at once and only proposes a decrease; the exact outcome after any run is stated by EstimateSetsTarget |
| Encoder.TunedH264Encoder.IsLargeSceneChange | apps/host-agent/src/mirror_host_agent/h264_encoder.py:292-332 | Detection and the stable-frame count, with the cooldown checked after the count is updated |
| Encoder.TunedH264Encoder.ApplyPendingLowerBitrate | apps/host-agent/src/mirror_host_agent/h264_encoder.py:334-361 | The pending decrease is cleared, anchored, kept or applied |
| Encoder.TunedH264Encoder.EncodeFrame | apps/host-agent/src/mirror_host_agent/h264_encoder.py:368-476 | Bitrate, codec and keyframe decisions of one frame, in the source's order |
| UploadRuns.UploadArrivesIntact | apps/viewer/src/fileUpload.ts:50-75 | A truthful acceptable offer, the sender's chunks and the completion publish exactly the data under the first free name and change nothing else |
| UploadRuns.PublishedMatchesOffer | apps/host-agent/src/mirror_host_agent/file_transfer.py:166-187 | In every run a file is published only with the concatenation of the chunks that followed its offer, of the offered size and digest, under a free, visible, unblocked name |
| UploadRuns.FolderIsProtected | apps/host-agent/src/mirror_host_agent/__main__.py:1147-1227 | In every run no existing visible file changes, and no temporary file remains while no transfer is in progress |
| UploadRuns.NewFilesArePublished | apps/host-agent/src/mirror_host_agent/__main__.py:1174-1222 | In every run each visible file not there at the start is exactly the chunks of a conversation the run completed, of the offered size and digest |
| UploadRuns.FolderChangesOnlyByPublication | apps/host-agent/src/mirror_host_agent/__main__.py:1174-1227 | One event adds a visible file only by publication, and the transfer's temporary file is gone when the transfer is over |
| UploadRuns.DoneMeansPublished | apps/host-agent/src/mirror_host_agent/__main__.py:1207-1222 | A done reply is sent only for a publication |
| UploadRuns.ReceiverFollowsConversation | apps/host-agent/src/mirror_host_agent/file_transfer.py:127-164 | What has been digested is the concatenation of the chunks since the accepted offer |
| UploadRuns.NewNamesAreClean | apps/host-agent/src/mirror_host_agent/file_transfer.py:73-83 | The destination is absent from the folder, never hidden (so never a temporary name) and never blocked |
| Upload.StreamFileChunks | apps/viewer/src/fileUpload.ts:50-75 | Under any backpressure schedule the channel receives a prefix of the chunks in order, each handed over at a poll of its own that found the channel open, not cancelled and at most 4 MiB queued; the result is true only when all were and a later poll found the channel open and not cancelled |
| Upload.WaitForBufferBelow | apps/viewer/src/fileUpload.ts:27-39 | Returns true only once the buffer has drained, false only on cancel or close |
| Upload.ChunksAreTheData | apps/viewer/src/fileUpload.ts:67-69 | The chunks concatenate to the data, none is empty or over 64 KiB |
| Upload.SentIsPrefix | apps/viewer/src/fileUpload.ts:50-75 | Whatever was handed over is a prefix of the data |
| Upload.FileDesk.HandleOffer | apps/host-agent/src/mirror_host_agent/__main__.py:1174-1193 | Disabled, busy, refused or accepted |
| Upload.FileDesk.HandleChunk | apps/host-agent/src/mirror_host_agent/__main__.py:1195-1205 | Too large or failing chunks end the transfer and clean up |
| Upload.FileDesk.HandleComplete | apps/host-agent/src/mirror_host_agent/__main__.py:1207-1222 | Only the current transfer can be completed; failures clean up |
| Upload.FileDesk.HandleCancelOrClose | apps/host-agent/src/mirror_host_agent/__main__.py:1147-1151 | Cancel and close discard the transfer in progress; what is left after any run is stated by CancelOrCloseEndsTransfer |
| FileTransfer.FindUniqueDestination | apps/host-agent/src/mirror_host_agent/file_transfer.py:73-83 | The loop finds the first free candidate name, which is not in the folder |
| FileTransfer.AlternativeKeepsSuffix | apps/host-agent/src/mirror_host_agent/file_transfer.py:78-80 | Renaming on collision keeps the extension and never yields a hidden name |
| FileTransfer.SanitizingKeepsName | apps/host-agent/src/mirror_host_agent/file_transfer.py:47-66 | Sanitizing rejects and never rewrites; accepted names neither start nor end with a dot |
| FileTransfer.FileReceiver.BeginTransfer | apps/host-agent/src/mirror_host_agent/file_transfer.py:127-151 | Offers are refused with the first problem in the source's order, or open the temporary file |
| FileTransfer.FileReceiver.Write | apps/host-agent/src/mirror_host_agent/file_transfer.py:153-164 | A chunk beyond the declared size aborts; otherwise it is digested and appended |
| FileTransfer.FileReceiver.FinishTransfer | apps/host-agent/src/mirror_host_agent/file_transfer.py:166-187 | Size, then digest, then destination are checked before publication |
| FileTransfer.FileReceiver.AbortTransfer | apps/host-agent/src/mirror_host_agent/file_transfer.py:189-197 | Closes, discards the temporary file and finishes |
| RoomRuns.OneSocketPerRole | apps/signaling/src/sessionRoom.ts:101-150 | In every run at most one socket filed under each role is open or connecting, every live socket is filed under its own role, and every socket has its state stored |
| RoomRuns.RoutingIsExact | apps/signaling/src/sessionRoom.ts:186-236 | In every run a message crosses the room if and only if it is accepted, not a heartbeat, not rate-limited and has an open peer; it goes to the one live socket of the other role, is allowed for its sender and carries a viewer's own session |
| RoomRuns.RequestsAreLimited | apps/signaling/src/sessionRoom.ts:211-222 | No ten seconds hold more than five granted session requests, and a request is refused if and only if the ten seconds before it already hold five |
| RoomRuns.GrantedIsAdmitted | apps/signaling/src/sessionRoom.ts:211-222 | The requests the room did not refuse are exactly the admitted history of all requests made |
| RoomRuns.TakeoverReplacesViewer | apps/signaling/src/sessionRoom.ts:312-337 | A new viewer tells and closes exactly the live viewers and leaves every other socket alone |
| RoomRuns.RefusedViewerDisplacesIff | apps/signaling/src/sessionRoom.ts:122-135 | A viewer refused for an offline agent leaves the other sockets alone if and only if there was no live viewer |
| RoomRuns.RefusedViewerDisplacesActive | apps/signaling/src/sessionRoom.ts:127-134 | The concrete run in which a refused viewer ends another's session |
| RoomRuns.AgentIsWatchedIff | apps/signaling/src/sessionRoom.ts:262-284 | In every run a live agent has an alarm pending no later than its deadline if and only if the alarm was not lost to a handshake since it was last set by a heartbeat or an agent's connection |
| RoomRuns.LostOrWatched | apps/signaling/src/sessionRoom.ts:262-284 | In every run either the alarm was lost in that way, and none is pending, or every live agent is watched |
| RoomRuns.AlarmKeepsWatchIff | apps/signaling/src/sessionRoom.ts:262-284 | After an alarm every live agent is watched if and only if no agent was still connecting |
| RoomRuns.AlarmDuringHandshakeLosesAgent | apps/signaling/src/sessionRoom.ts:262-266 | The concrete run, with an alarm on its deadline, that leaves an open agent without any alarm |
| RoomRuns.HeartbeatRestoresWatch | apps/signaling/src/sessionRoom.ts:204-209 | An agent heartbeat restores the watch from any orderly state |
| RoomRuns.AlarmClosesIffSilent | apps/signaling/src/sessionRoom.ts:274-283 | In every run the alarm closes an open agent if and only if it has been silent for thirty seconds, and otherwise waits for exactly its deadline |
| RoomRuns.TimeoutMeansSilence | apps/signaling/src/sessionRoom.ts:274-279 | An agent closed by the alarm has neither connected nor had a message accepted in the thirty seconds before |
| RoomRuns.LastSeenIsLastAccepted | apps/signaling/src/sessionRoom.ts:204-205 | The stored time of each socket is that of its connection or last accepted message, read off the events |
| SessionRoom.SessionRoom.Fetch | apps/signaling/src/sessionRoom.ts:101-150 | Every answer to a connection: upgrade and context refusals, agent refusal, viewer takeover, refusal while offline, and the agent's first alarm |
| SessionRoom.SessionRoom.EvictViewers | apps/signaling/src/sessionRoom.ts:312-337 | The loop closes the live viewers in order, telling those whose state is stored |
| SessionRoom.SessionRoom.WebSocketMessage | apps/signaling/src/sessionRoom.ts:152-236 | Stored state, validation, session and role checks, heartbeat, rate limit and relay, in the source's order |
| SessionRoom.SessionRoom.Alarm | apps/signaling/src/sessionRoom.ts:262-284 | An open agent without stored state or silent for the timeout is closed, any other gets its deadline back |
| SessionRoom.SessionRoom.RoleTaken | apps/signaling/src/sessionRoom.ts:363-373 | The scan finds a live socket if and only if one is filed under the role |
| SessionRoom.SessionRoom.Find | apps/signaling/src/sessionRoom.ts:357-361 | The scan finds the first open socket of the role |
| SessionRoom.SessionRoom.RejectMessage | apps/signaling/src/sessionRoom.ts:384-391 | The sender is told and closed, nobody else is touched |
| ViewerKeys.PressIsSentIff | apps/viewer/src/useInputCapture.ts:260-300 | A press is sent, last and under its own code, and recorded, if and only if it is no repeat, is not meant for a control of the page and is whitelisted; otherwise nothing happens |
| ViewerKeys.LiftIsSentIff | apps/viewer/src/useInputCapture.ts:302-341 | A lift is sent, and its key no longer recorded, if and only if its code is whitelisted and the key was forwarded, or the page did not claim it, or it is a Shift; otherwise nothing happens |
| ViewerKeys.LiftReleasesForwarded | apps/viewer/src/useInputCapture.ts:308-330 | In every run, lifting a key that was forwarded sends its release, whatever has the focus by then, and leaves it neither in the record nor down on the remote |
| ViewerKeys.LiftSendsExactly | apps/viewer/src/useInputCapture.ts:318-334 | Without a synthesized Shift a lift sends its release only; a right Shift lifted while there is one takes the left one back first |
| ViewerKeys.RepairedShiftIsTakenBack | apps/viewer/src/useInputCapture.ts:284-340 | A key typed with a Shift the viewer did not see goes down inside a synthesized one, and key and Shift come up with it in that order |
| ViewerKeys.LostShiftIsLetGo | apps/viewer/src/useInputCapture.ts:271-282 | A Shift whose release was missed is let go before a key typed without it |
| ViewerKeys.ReleasesEmptyRemote | apps/viewer/src/useInputCapture.ts:239-245 | Losing the focus, a cancelled pointer and an outside release leave nothing down on the remote; only the first empties the record |
| ViewerKeys.ChordIsNested | apps/viewer/src/App.tsx:66-73 | A chord presses its keys in order and releases them in reverse |
| KeyCodes.WhitelistsArePatterns | apps/viewer/src/useInputCapture.ts:17-18 | Both whitelists are exactly the regular expression the viewer writes out, read as a grammar, with the agent's Meta keys added |
| StuckKey.KeyMessageTakesEffect | apps/host-agent/src/mirror_host_agent/__main__.py:768-783 | In every run the oldest key message, when it went out and meets a controller, does just what it says: a release lifts its key, a press puts its key down if and only if the limiter has room, and a release of everything leaves nothing down |
| StuckKey.MessagesAreNumbered | apps/viewer/src/useRemoteSession.ts:895-921 | A message that goes out or fails in going takes the next number, a blocked one takes none, and each is last in the queue |
| StuckKey.ReplacementEmptiesChannel | apps/viewer/src/useRemoteSession.ts:895-949 | A new viewer starts afresh with its own numbers, the same one keeps its record and its count, and neither finds anything in flight or held |
| InputRuns.MoveIsInjectedIff | apps/host-agent/src/mirror_host_agent/input_control.py:247-270 | A fresh move is injected if and only if the source size is known, both coordinates are in 0..1, the limiter has room and the point is over captured content, and then at exactly the desktop point of its frame position |
| InputRuns.ButtonIsInjectedIff | apps/host-agent/src/mirror_host_agent/input_control.py:272-281 | A fresh button message acts on exactly the button and in the direction it names, if both are known and the limiter has room or it is an up; otherwise nothing is injected and nothing tracked changes |
| InputRuns.WheelIsInjectedIff | apps/host-agent/src/mirror_host_agent/input_control.py:283-291 | A fresh wheel message turns by exactly its two deltas, if both are within 1200 either way and the limiter has room |
| InputRuns.KeyIsInjectedIff | apps/host-agent/src/mirror_host_agent/input_control.py:293-305 | A fresh key message acts on exactly the key and in the direction it names, if it is whitelisted and the limiter has room or it is an up |
| InputRuns.WatchdogFiresIff | apps/host-agent/src/mirror_host_agent/input_control.py:323-336 | The watchdog releases everything and forgets the activity if and only if the silence has lasted; otherwise it changes nothing |
| InputRuns.UnknownIsInert | apps/host-agent/src/mirror_host_agent/input_control.py:194-237 | A fresh message without data or of an unknown event uses up its number and does nothing else |
| InputRuns.WindowHolds | packages/protocol/src/rateLimit.ts:31-44 | What a window holds, in plain arithmetic: the half-open one leaves its far end out |
| InputControl.AtMostIsDictionaryOrder | apps/host-agent/src/mirror_host_agent/input_control.py:316-319 | The order of the releases is the dictionary's: a prefix first, or smaller where the two first differ |
| InputControl.ButtonUpsInOrder | apps/host-agent/src/mirror_host_agent/input_control.py:316-317 | Left comes up before middle and middle before right |
| GrantLaws.RequestIsGrantedIff | apps/host-agent/src/mirror_host_agent/__main__.py:440-464 | A request that finds no active grant is granted if and only if it asks for control, the local switch is on, the platform is Windows and injection works; the lease is then an hour, and whatever was held is released |
| GrantLaws.RequestIsEchoed | apps/host-agent/src/mirror_host_agent/__main__.py:413-438 | During an active grant a request changes the requested profile and nothing else |
| GrantLaws.PingRenews | apps/host-agent/src/mirror_host_agent/__main__.py:757-765 | A ping under an active grant sets the lease to an hour after the ping and does nothing else |
| GrantLaws.OtherMessagesKeepLease | apps/host-agent/src/mirror_host_agent/__main__.py:751-783 | No other message touches the lease, and one that is not input changes nothing at all |
| GrantLaws.WithoutGrantNothing | apps/host-agent/src/mirror_host_agent/__main__.py:768-773 | Without a grant a control message changes and injects nothing |
| GrantLaws.GrantStandsWhilePinged | apps/host-agent/src/mirror_host_agent/__main__.py:751-783 | While pings come before the lease ends and nothing takes the grant away, it stands through any run, repeated requests, offers and replaced peers included, its lease always an hour from the last ping |
| GrantLaws.OfferKeepsGrant | apps/host-agent/src/mirror_host_agent/__main__.py:581-590 | An offer releases what is held and drops controller and peer but keeps the grant |
| GrantLaws.PeerIsBuilt | apps/host-agent/src/mirror_host_agent/__main__.py:588-609 | The replacement peer sends the current profile and has a fresh controller with the agent's limits if and only if there is a grant with a sink prepared or now prepared; a grant without one is given up |
| GrantLaws.ClosingAndLosing | apps/host-agent/src/mirror_host_agent/__main__.py:358-365 | Closing the session ends grant and peer; losing the connection leaves a healthy peer alone and drops any other, but not the grant |
| GrantLaws.ProfileIsApplied | apps/host-agent/src/mirror_host_agent/__main__.py:670-698 | A new profile replaces the track and the controller's frame size; nothing else moves, and without a track nothing does |
| GrantLaws.SwitchIsHonoured | apps/host-agent/src/mirror_host_agent/__main__.py:204-254 | The switch is honoured unless locked; switching off and the emergency stop release what is held and end the grant, leaving the peer |
| GrantLaws.WakeKeepsActiveGrant | apps/host-agent/src/mirror_host_agent/__main__.py:739-749 | The watchdog leaves an active grant alone, and releases what is held if and only if the input has been silent for three seconds |
| GrantLaws.EveryControllerHasLimits | apps/host-agent/src/mirror_host_agent/__main__.py:724-735 | In every run a controller admits 60 actions and 120 moves a second and has a watchdog of three seconds |
| GrantLaws.PointerLandsWhereSeen | apps/host-agent/src/mirror_host_agent/input_control.py:247-270 | Under an active grant a move the viewer reports for a point of the desktop it sees is injected at exactly that point of the host's desktop, through both letterboxes |
| Camera.WorkerAlone | apps/host-agent/src/mirror_host_agent/video.py:419-457 | An uninterrupted worker leaves a running track with its camera, creating one when there is none and it need not hold off; a fault takes the camera away and releases it, even one that could not be started; a stopped track is left as it is |
| Camera.StopAlone | apps/host-agent/src/mirror_host_agent/video.py:507-513 | The first stop takes the camera and releases it, and a later one changes nothing |
| Camera.StoppedGrabsNothing | apps/host-agent/src/mirror_host_agent/video.py:419-450 | On a stopped track no worker begins a read or a recovery: each ends at its next section |
| FrameClock.TicksAreStamped | apps/host-agent/src/mirror_host_agent/video.py:497-502 | Frames captured on different ticks of a forward clock are stamped with exactly their ticks, 90000 to the second |
| Geometry.ContainRectIsTight | packages/protocol/src/pointer.ts:28-53 | The rectangle fits the element, fills one axis exactly, keeps the content's proportions and is centred exactly, for all positive sizes |
| Geometry.RoundHalfEvenIsNearest | apps/host-agent/src/mirror_host_agent/input_control.py:66-97 | Rounding gives the nearest integer, and the even one of two equally near |
| EncoderLaws.EstimateSetsTarget | apps/host-agent/src/mirror_host_agent/h264_encoder.py:207-225 | After any run an estimate, brought within the codec's minimum and the first frame's ceiling, is the target at once and ends any wait if it is no lower, or no frame has come; a lower one waits, and an earlier wait goes on |
| EncoderLaws.FirstFrameStartsAt | apps/host-agent/src/mirror_host_agent/h264_encoder.py:250-266 | The first frame's size sets the ceiling to 8, 5 or 3 Mbit/s and, without an earlier estimate, the target to 4, 2.5 or 1.5 |
| EncoderLaws.ProfileFollowsFirstFrame | apps/host-agent/src/mirror_host_agent/h264_encoder.py:374-382 | In every run the ceiling is that of the first frame's size, and 8 Mbit/s until there is one |
| EncoderLaws.DecreaseWaitsIffBelow | apps/host-agent/src/mirror_host_agent/h264_encoder.py:207-225 | In every run a decrease is waiting if and only if the receiver has last asked for less than the target |
| EncoderLaws.FrameLowersTargetIff | apps/host-agent/src/mirror_host_agent/h264_encoder.py:334-361 | After the first frame another one lowers the target if and only if a decrease has waited two seconds of media time, content is moving and the reports are silent, stale or bad for two seconds; otherwise it starts, keeps or restarts the wait |
| EncoderLaws.SustainedDecreaseIsApplied | apps/host-agent/src/mirror_host_agent/h264_encoder.py:334-361 | A decrease waiting at a dated frame is applied by any frame two seconds later with content moving and the network allowing it, when every estimate in between also asked for less and media time did not go back before that frame |
| EncoderLaws.KeyframeIff | apps/host-agent/src/mirror_host_agent/h264_encoder.py:383-421 | After any run a frame is a keyframe if and only if one was asked for, the codec is replaced, or at least four still frames end in a large change and the last keyframe is not less than three quarters of a second old |
| EncoderLaws.CodecIsReplacedIff | apps/host-agent/src/mirror_host_agent/h264_encoder.py:394-421 | The codec is replaced, by one with the target's bitrate, if and only if there is none, the frame's size differs or its bitrate is more than a quarter away from the target |
| EncoderLaws.SceneTests | apps/host-agent/src/mirror_host_agent/h264_encoder.py:292-332 | Still and changed frames, in counts of samples 24 levels apart and total difference, without division |
| EncoderLaws.FramesAreObserved | apps/host-agent/src/mirror_host_agent/h264_encoder.py:292-318 | In every run the sample compared with is the last frame's, and the stable count is the number of trailing frames that differed little from the one before |
| UploadLaws.CancelOrCloseEndsTransfer | apps/host-agent/src/mirror_host_agent/__main__.py:1147-1167 | After any run a cancellation or a closed channel ends the transfer without a reply, leaves no temporary file that was not there at the start and the visible files as they were, and the next good offer is accepted |
| UploadLaws.OfferIsAcceptedIff | apps/host-agent/src/mirror_host_agent/__main__.py:1174-1193 | An offer is accepted, with an empty temporary file and nothing received, if and only if transfers are enabled, none is in progress and name, size and digest are good; otherwise nothing changes and the reply names the reason |
| UploadLaws.ChunkIsTakenIff | apps/host-agent/src/mirror_host_agent/__main__.py:1195-1205 | A chunk is ignored without a transfer, appended when it is at most 256 KiB and fits the offer, and otherwise ends the transfer with its reason |
| UploadLaws.CompletionPublishesIff | apps/host-agent/src/mirror_host_agent/__main__.py:1207-1222 | A completion of the transfer in progress publishes it if and only if size and digest are as offered and a name is free, and otherwise ends it with its reason; any other completion is ignored |
| UploadLaws.NameIsAcceptedIff | apps/host-agent/src/mirror_host_agent/file_transfer.py:47-66 | Exactly which names are accepted: 1 to 255 characters, no separator, wildcard or control character, no leading dot, no trailing dot or space, and none of the 22 device names as its stem |
| UploadLaws.StemAndSuffix | apps/host-agent/src/mirror_host_agent/file_transfer.py:64-70 | Stem and extension of any name written with its last dot, and of names without one |
| UploadLaws.FirstFreeIsFirst | apps/host-agent/src/mirror_host_agent/file_transfer.py:73-83 | The destination is the name itself or the first alternative not taken, and there is none if and only if the name and all 9999 alternatives are taken |
| UploadLaws.AlternativesDiffer | apps/host-agent/src/mirror_host_agent/file_transfer.py:78-80 | No two collision numbers give the same name |
| UploadLaws.AlternativeIs | apps/host-agent/src/mirror_host_agent/file_transfer.py:78-80 | The number stands in brackets between stem and extension |
| UploadLaws.DigestIsAcceptedIff | apps/host-agent/src/mirror_host_agent/file_transfer.py:139-140 | An offered digest passes if and only if it is 64 lower-case hexadecimal digits, with or without a newline after them |
| UploadLaws.ChunksAreFull | apps/viewer/src/fileUpload.ts:67-69 | Every chunk but the last is 64 KiB, and the last is no larger and not empty |
| RoomLaws.AgentIsLetInIff | apps/signaling/src/sessionRoom.ts:101-150 | An agent is let in, with thirty seconds to its first heartbeat, if and only if none is live; a second one, and a request that is no room connection, are refused and change nothing |
| RoomLaws.ViewerIsAdmittedIff | apps/signaling/src/sessionRoom.ts:122-150 | A viewer joins the room when an agent is live; otherwise its socket is told so and closed, and is filed under no role |
| RoomLaws.MessageReachesPeer | apps/signaling/src/sessionRoom.ts:204-236 | A permitted message dates its sender and goes, unchanged, to the one live socket of the other role when that is open; otherwise its sender is told, except of the agent's own status messages |
| RoomLaws.ForbiddenMessageClosesSender | apps/signaling/src/sessionRoom.ts:165-202 | A message of a kind that does not cross the room from its sender's role, of another session or malformed closes its sender with the reason, and is no sign of life |
| RoomLaws.SixthRequestClosesSender | apps/signaling/src/sessionRoom.ts:211-222 | A session request that finds five granted in the last ten seconds closes its sender and is not counted itself |
| RoomLaws.HeartbeatIsConsumed | apps/signaling/src/sessionRoom.ts:204-209 | A heartbeat dates the agent and its alarm and goes nowhere |
| RoomLaws.AlarmOnlyTouchesAgent | apps/signaling/src/sessionRoom.ts:262-284 | An alarm without an open agent is only spent; with one it closes the agent or waits on, in silence, and touches nothing else |
| RoomLaws.SocketEvents | apps/signaling/src/sessionRoom.ts:238-260 | A finished handshake opens its socket, a disconnection closes it, an error starts to; nobody is told |
## Left out

- InputControl.InputController.constructor: asks for a positive frame size, since only the three fixed profiles are ever passed; the source would accept another and fail on the first move.
- StuckKey.StuckOnlyIfLost: covers keys, not pointer buttons; which session the agent has adopted and how far a timestamp is off are not modelled, any message may be refused.
- Upload.StreamFileChunks: is given the finite sequence of polls it will make; a sender that polls for ever is the outcome `StillWaiting`.
- UploadRuns.FolderIsProtected: assumes the folder changes only through the receiver; races with other programs, file-system errors and the mark-of-the-web are not modelled.
- Camera.EveryCameraHasOneOwner: takes each created camera to be a new one; the capture library's own cache of instances and a camera whose release raises are not modelled.
- AgentGrant.AuthorityHolds: the wire format, session adoption and envelope checks come before the steps modelled here; a message that fails them is `Unparsable`.
- RoomRuns.RequestsAreLimited: the request window is lost when the room hibernates, which is not modelled.
- Messages that arrive on a room socket that is already closing.
- Tickets, device tokens and access control in front of the room.
- The viewer's pointer queue, wheel clamping and touch gestures, and its connect and reconnect machine.
- The clipboard monitor, clipboard images and file downloads.
- The GDI capture fallback, restart counting and the recovery delay's length; whether to hold off is an arbitrary choice at each grab.
- Codec options, hardware encoding, packetization and the extraction of the luma sample.
- Heartbeat sending, reconnection and back-off of the agent; status notifications and policy updates.
- JSON schemas, message sizes and the decoding of binary frames.
