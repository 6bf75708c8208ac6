/**
 What each event does to a signaling room, case by case: who is let in, where every kind of
 message goes, and what its sender is told when it goes nowhere.
 */
module RoomLaws {
  import opened Basics
  import opened SessionRoom
  import opened RoomRuns
  import W = SlidingWindow

  /** The room has a live socket of the role. */
  predicate HasLive(r: Room, role: Role) {
    exists i :: 0 <= i < |r.sockets| && LivesAs(r.sockets[i], role)
  }

  lemma LiveIsFiled(r: Room, role: Role)
    requires Orderly(r)
    ensures HasLive(r, role) <==> HasRole(r.sockets, role)
  {
    if HasLive(r, role) {
      var i :| 0 <= i < |r.sockets| && LivesAs(r.sockets[i], role);
      assert Occupies(r.sockets[i], role);
    }
    if HasRole(r.sockets, role) {
      var i :| 0 <= i < |r.sockets| && Occupies(r.sockets[i], role);
      assert LivesAs(r.sockets[i], role);
    }
  }

  // ---------------------------------------------------------------- connections

  /** An agent is let in exactly when none is live, with half a minute to its first heartbeat; a
      second one, and a request that is no room connection, are refused and change nothing. */
  lemma AgentIsLetInIff(r: Room, request: Request, now: real, state: SocketState)
    requires Orderly(r) && CanHappen(r, Connects(now, request, state)) && !(request.Join? && request.role.ViewerRole?)
    ensures var (answer, e) := (Answer(r, request), Next(r, Connects(now, request, state)));
            if request.Join? && !HasLive(r, AgentRole) then
              && answer == SwitchingProtocols && e.outputs == []
              && e.room == Room(r.sockets + [Socket(Some(AgentRole), state, true,
                                                    Attachment(AgentRole, request.sessionId, now))],
                                Some(now + 30_000.0), r.requestTimes)
            else
              && e == Effect(r, [])
              && answer == if request.Join? then AgentAlreadyOnline
                           else if request.NoContext? then InvalidRoomContext else UpgradeRequired
  {
    LiveIsFiled(r, AgentRole);
  }

  /** A viewer always gets a socket: in the room when an agent is live, and otherwise one that is
      told so and closed. */
  lemma ViewerIsAdmittedIff(r: Room, sessionId: string, now: real, state: SocketState)
    requires Orderly(r) && CanHappen(r, Connects(now, Join(ViewerRole, sessionId), state))
    ensures var request := Join(ViewerRole, sessionId);
            var e := Next(r, Connects(now, request, state));
            var n := |r.sockets|;
            && Answer(r, request) == SwitchingProtocols && |e.room.sockets| == n + 1
            && e.room.alarm == r.alarm && e.room.requestTimes == r.requestTimes
            && (HasLive(r, AgentRole) ==>
                  && e.room.sockets[n] == Socket(Some(ViewerRole), state, true, Attachment(ViewerRole, sessionId, now))
                  && forall o :: o in e.outputs ==> o.ErrorTo? && o.code == SessionReplaced)
            && (!HasLive(r, AgentRole) ==>
                  && e.room.sockets[n] == Socket(None, Closing, true, Attachment(ViewerRole, sessionId, now))
                  && e.outputs != [] && e.outputs[|e.outputs| - 1] == ErrorTo(n, RoleAgentOffline))
  {
    EvictedElements(r.sockets);
    NoticesElements(r.sockets);
    LiveIsFiled(r, AgentRole);
    EvictionSparesAgent(r.sockets);
    hide Evicted, EvictionNotices, HasRole, HasLive;
  }

  lemma EvictionSparesAgent(sockets: seq<Socket>)
    ensures HasRole(Evicted(sockets), AgentRole) <==> HasRole(sockets, AgentRole)
  {
    EvictedElements(sockets);
    hide Evicted;
    forall i | 0 <= i < |sockets|
      ensures Occupies(Evicted(sockets)[i], AgentRole) <==> Occupies(sockets[i], AgentRole)
    {
    }
    if HasRole(sockets, AgentRole) {
      var i :| 0 <= i < |sockets| && Occupies(sockets[i], AgentRole);
      assert Occupies(Evicted(sockets)[i], AgentRole);
    }
  }

  // ---------------------------------------------------------------- messages

  /** The kinds that cross the room from a role to the other. */
  predicate Crosses(from: Role, kind: MessageType) {
    kind in match from
            case ViewerRole => {SessionRequest, SessionClose, SessionConfigure, WebrtcOffer, WebrtcIce}
            case AgentRole => {SessionAccept, SessionConfigured, SessionPolicy, SessionReject, SessionClose,
                               WebrtcAnswer, WebrtcIce, AgentOnline, AgentOffline}
  }

  /** A message its sender may send: of a kind that crosses or an agent's heartbeat, and from a
      viewer with its own session. */
  predicate Permitted(sender: Attachment, m: Incoming) {
    && m.Valid?
    && (Crosses(sender.role, m.kind) || (sender.role.AgentRole? && m.kind.AgentHeartbeat?))
    && (sender.role.ViewerRole? ==> m.sessionId == sender.sessionId)
  }

  /** The room once socket `i` has been heard. */
  function Heard(r: Room, i: nat, now: real): Room
    requires i < |r.sockets|
  {
    r.(sockets := r.sockets[i := r.sockets[i].(attachment := r.sockets[i].attachment.(lastSeenAt := now))])
  }

  /** The room with socket `i` closing. */
  function Shut(r: Room, i: nat): Room
    requires i < |r.sockets|
  {
    r.(sockets := r.sockets[i := r.sockets[i].(state := Closing)])
  }

  lemma PermittedIsAccepted(s: Socket, m: Incoming)
    requires s.stored
    ensures IsAccepted(s, m) <==> Permitted(s.attachment, m)
  {
  }

  /** A message that is not permitted closes its sender, with the reason, and is not counted as a
      sign of life. */
  lemma ForbiddenMessageClosesSender(r: Room, i: nat, m: Incoming, now: real)
    requires Orderly(r) && CanHappen(r, Arrives(now, i, m)) && !Permitted(r.sockets[i].attachment, m)
    ensures Next(r, Arrives(now, i, m)) ==
              Effect(Shut(r, i), [ErrorTo(i, match m
                                             case Binary => BinaryMessageRejected
                                             case TooLarge => MessageTooLarge
                                             case InvalidJson => JsonInvalid
                                             case InvalidMessage => MessageInvalid
                                             case Valid(_, _) => MessageNotAllowed)])
  {
    PermittedIsAccepted(r.sockets[i], m);
    hide IsAccepted, Permitted;
  }

  /** A heartbeat goes nowhere: it dates the agent and gives it another half a minute. */
  lemma HeartbeatIsConsumed(r: Room, i: nat, m: Incoming, now: real)
    requires Orderly(r) && CanHappen(r, Arrives(now, i, m)) && Permitted(r.sockets[i].attachment, m)
    requires m.kind.AgentHeartbeat?
    ensures Next(r, Arrives(now, i, m)) == Effect(Heard(r, i, now).(alarm := Some(now + 30_000.0)), [])
  {
    PermittedIsAccepted(r.sockets[i], m);
    hide IsAccepted, Permitted;
  }

  /** The sixth session request within ten seconds closes its sender; it is not counted itself. */
  lemma SixthRequestClosesSender(r: Room, i: nat, m: Incoming, now: real)
    requires Orderly(r) && CanHappen(r, Arrives(now, i, m)) && Permitted(r.sockets[i].attachment, m)
    requires m.kind.SessionRequest?
    requires |W.Retained(r.requestTimes, now, 10_000.0, W.HalfOpen)| >= 5
    ensures var heard := Heard(r, i, now).(requestTimes := W.Retained(r.requestTimes, now, 10_000.0, W.HalfOpen));
            Next(r, Arrives(now, i, m)) == Effect(Shut(heard, i), [ErrorTo(i, RateLimited)])
  {
    PermittedIsAccepted(r.sockets[i], m);
    hide IsAccepted, Permitted, W.Retained;
  }

  /** Every other permitted message dates its sender and goes, unchanged, to the one live socket of
      the other role when that is open; with none open the sender is told, but not for the agent's
      own status messages. */
  lemma MessageReachesPeer(r: Room, i: nat, m: Incoming, now: real)
    requires Orderly(r) && CanHappen(r, Arrives(now, i, m)) && Permitted(r.sockets[i].attachment, m)
    requires !m.kind.AgentHeartbeat?
    requires m.kind.SessionRequest? ==> |W.Retained(r.requestTimes, now, 10_000.0, W.HalfOpen)| < 5
    ensures var e := Next(r, Arrives(now, i, m));
            var other := if r.sockets[i].attachment.role.ViewerRole? then AgentRole else ViewerRole;
            && e.room == Heard(r, i, now).(requestTimes :=
                 if m.kind.SessionRequest? then W.Retained(r.requestTimes, now, 10_000.0, W.HalfOpen) + [now]
                 else r.requestTimes)
            && (HasOpen(r, other) ==>
                  exists peer: nat :: peer < |r.sockets| && LivesAs(r.sockets[peer], other)
                                      && r.sockets[peer].state.Open?
                                      && e.outputs == [Forwarded(i, peer, m.kind, m.sessionId)])
            && (!HasOpen(r, other) ==>
                  e.outputs == if m.kind in {AgentOnline, AgentOffline} then [] else [ErrorTo(i, PeerOffline)])
  {
    PermittedIsAccepted(r.sockets[i], m);
    var heard := Heard(r, i, now);
    var role := r.sockets[i].attachment.role;
    HeardIsOrderly(r, i, now);
    hide IsAccepted, Permitted, W.Retained;
    FoundIsUnique(heard, Opposite(role));
    var found := FindSocket(heard.sockets, Opposite(role));
    assert HasOpen(heard, Opposite(role)) <==> HasOpen(r, Opposite(role)) by {
      HeardKeepsOpen(r, i, now, Opposite(role));
    }
    hide FindFrom, HasOpen, Orderly;
    if found.Some? {
      assert LivesAs(r.sockets[found.value], Opposite(role));
    }
  }

  lemma HeardIsOrderly(r: Room, i: nat, now: real)
    requires Orderly(r) && i < |r.sockets|
    ensures Orderly(Heard(r, i, now))
  {
  }

  lemma HeardKeepsOpen(r: Room, i: nat, now: real, role: Role)
    requires i < |r.sockets|
    ensures HasOpen(Heard(r, i, now), role) <==> HasOpen(r, role)
  {
    var after := Heard(r, i, now);
    if HasOpen(r, role) {
      var j :| 0 <= j < |r.sockets| && r.sockets[j].state.Open? && r.sockets[j].attachment.role == role;
      assert after.sockets[j].state.Open? && after.sockets[j].attachment.role == role;
    }
    if HasOpen(after, role) {
      var j :| 0 <= j < |after.sockets| && after.sockets[j].state.Open? && after.sockets[j].attachment.role == role;
      assert r.sockets[j].state.Open? && r.sockets[j].attachment.role == role;
    }
  }

  // ---------------------------------------------------------------- sockets and the alarm

  /** A handshake that finishes opens its socket, a disconnection closes it and an error starts
      to; nobody is told, and nothing else changes. */
  lemma SocketEvents(r: Room, now: real, i: nat)
    requires i < |r.sockets|
    ensures CanHappen(r, Opens(now, i)) ==>
              Next(r, Opens(now, i)) == Effect(r.(sockets := r.sockets[i := r.sockets[i].(state := Open)]), [])
    ensures Next(r, Leaves(now, i)) == Effect(r.(sockets := r.sockets[i := r.sockets[i].(state := Closed)]), [])
    ensures Next(r, Fails(now, i)) == Effect(if r.sockets[i].Live() then Shut(r, i) else r, [])
  {
  }

  /** An alarm that finds no open agent is only spent; one that does closes it in silence or waits
      on, and touches nothing else. */
  lemma AlarmOnlyTouchesAgent(r: Room, now: real, i: nat)
    requires Orderly(r) && CanHappen(r, AlarmFires(now))
    ensures !HasOpen(r, AgentRole) ==> Next(r, AlarmFires(now)) == Effect(r.(alarm := None), [])
    ensures i < |r.sockets| && r.sockets[i].state.Open? && r.sockets[i].attachment.role == AgentRole ==>
              var silent := now - r.sockets[i].attachment.lastSeenAt >= 30_000.0;
              Next(r, AlarmFires(now)) ==
                Effect(if silent then Shut(r, i).(alarm := None)
                       else r.(alarm := Some(r.sockets[i].attachment.lastSeenAt + 30_000.0)), [])
  {
    FoundIsUnique(r, AgentRole);
  }
}
