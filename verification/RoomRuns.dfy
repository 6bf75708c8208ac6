/**
 Whole lives of a signaling room: who occupies it, what crosses it, how many session
 requests it lets through and how it notices a silent agent.
 */
module RoomRuns {
  import opened Basics
  import opened SessionRoom
  import W = SlidingWindow

  const EMPTY := Room([], None, [])

  /** The room after a run of events. */
  function After(events: seq<Event>): Room
    requires IsRun(events)
    decreases |events|, 1
  {
    if events == [] then EMPTY
    else Next(After(events[..|events| - 1]), events[|events| - 1]).room
  }

  /** Every event is possible where it happens, and the room's clock never steps back. */
  predicate IsRun(events: seq<Event>)
    decreases |events|, 0
  {
    events != [] ==>
      var n := |events| - 1;
      && IsRun(events[..n])
      && CanHappen(After(events[..n]), events[n])
      && (n > 0 ==> events[n - 1].now <= events[n].now)
  }

  lemma RunGrows(events: seq<Event>, e: Event)
    requires IsRun(events) && CanHappen(After(events), e)
    requires events != [] ==> events[|events| - 1].now <= e.now
    ensures IsRun(events + [e]) && After(events + [e]) == Next(After(events), e).room
  {
    assert (events + [e])[..|events|] == events;
  }

  lemma {:induction false} RunPrefix(events: seq<Event>, k: nat)
    requires k <= |events| && IsRun(events)
    ensures IsRun(events[..k])
  {
    if k < |events| {
      RunPrefix(events[..|events| - 1], k);
      assert events[..|events| - 1][..k] == events[..k];
    } else {
      assert events[..k] == events;
    }
  }

  // ---------------------------------------------------------------- occupancy

  /** Live sockets are filed under their own role, no two under the same one, and every socket
      has its state stored. */
  ghost predicate Orderly(r: Room) {
    && (forall i :: 0 <= i < |r.sockets| ==> r.sockets[i].stored)
    && (forall i :: 0 <= i < |r.sockets| && r.sockets[i].tag.Some? ==>
        r.sockets[i].tag.value == r.sockets[i].attachment.role)
    && (forall i :: 0 <= i < |r.sockets| && r.sockets[i].Live() ==> r.sockets[i].tag.Some?)
    && (forall i, j :: 0 <= i < j < |r.sockets| && r.sockets[i].Live() && r.sockets[j].Live() ==>
          r.sockets[i].tag != r.sockets[j].tag)
  }

  lemma {:induction false} EvictedElements(sockets: seq<Socket>)
    ensures |Evicted(sockets)| == |sockets|
    ensures forall i :: 0 <= i < |sockets| ==>
              Evicted(sockets)[i] == if sockets[i].tag == Some(ViewerRole) then CloseSocket(sockets[i]) else sockets[i]
  {
    if sockets == [] {
    } else {
      EvictedElements(sockets[..|sockets| - 1]);
    }
  }

  lemma {:induction false} NoticesElements(sockets: seq<Socket>)
    ensures forall o :: o in EvictionNotices(sockets) <==>
              && o.ErrorTo? && o.code == SessionReplaced
              && o.socket < |sockets| && Occupies(sockets[o.socket], ViewerRole) && sockets[o.socket].stored
  {
    if sockets == [] {
    } else {
      NoticesElements(sockets[..|sockets| - 1]);
    }
  }

  lemma EvictionKeepsOrder(r: Room)
    requires Orderly(r)
    ensures Orderly(r.(sockets := Evicted(r.sockets))) && !HasRole(Evicted(r.sockets), ViewerRole)
  {
    EvictedElements(r.sockets);
  }

  lemma JoiningKeepsOrder(r: Room, s: Socket)
    requires Orderly(r) && s.stored
    requires s.tag.Some? ==> s.tag.value == s.attachment.role && !HasRole(r.sockets, s.tag.value)
    requires s.Live() ==> s.tag.Some?
    ensures Orderly(r.(sockets := r.sockets + [s]))
  {
    if s.Live() {
      assert forall i :: 0 <= i < |r.sockets| ==> !Occupies(r.sockets[i], s.tag.value);
    }
  }

  lemma ConnectViewerKeepsOrder(r: Room, sessionId: string, now: real, state: SocketState)
    requires Orderly(r)
    ensures Orderly(ConnectViewer(r, sessionId, now, state).room)
  {
    EvictionKeepsOrder(r);
    hide Evicted, EvictionNotices, HasRole, Orderly;
    var r1 := r.(sockets := if HasRole(r.sockets, ViewerRole) then Evicted(r.sockets) else r.sockets);
    assert r1 == r || r1 == r.(sockets := Evicted(r.sockets));
    JoiningKeepsOrder(r1, Socket(None, Closing, true, Attachment(ViewerRole, sessionId, now)));
    JoiningKeepsOrder(r1, Socket(Some(ViewerRole), state, true, Attachment(ViewerRole, sessionId, now)));
    assert ConnectViewer(r, sessionId, now, state).room.alarm == r1.alarm;
  }

  lemma ConnectAgentKeepsOrder(r: Room, sessionId: string, now: real, state: SocketState)
    requires Orderly(r)
    ensures Orderly(ConnectAgent(r, sessionId, now, state).room)
  {
    if !HasRole(r.sockets, AgentRole) {
      JoiningKeepsOrder(r, Socket(Some(AgentRole), state, true, Attachment(AgentRole, sessionId, now)));
    }
  }

  /** Everything but a connection changes at most one socket, and never brings one to life. */
  predicate Ages(before: Socket, after: Socket) {
    && after.tag == before.tag && after.stored == before.stored
    && after.attachment.role == before.attachment.role && after.attachment.sessionId == before.attachment.sessionId
    && (after.Live() ==> before.Live())
  }

  lemma NextAges(r: Room, e: Event)
    requires CanHappen(r, e) && !e.Connects?
    ensures var after := Next(r, e).room;
            |after.sockets| == |r.sockets| && forall i :: 0 <= i < |r.sockets| ==> Ages(r.sockets[i], after.sockets[i])
  {
    hide W.EvaluateRateLimit, FindFrom, IsAllowed;
  }

  lemma NextKeepsOrder(r: Room, e: Event)
    requires Orderly(r) && CanHappen(r, e)
    ensures Orderly(Next(r, e).room)
  {
    hide ConnectViewer, ConnectAgent, Receive, FireAlarm;
    match e {
      case Connects(now, Join(_, sessionId), state) =>
        ConnectAgentKeepsOrder(r, sessionId, now, state);
        ConnectViewerKeepsOrder(r, sessionId, now, state);
      case Connects(_, _, _) =>
      case _ =>
        NextAges(r, e);
    }
  }

  /** In every run at most one agent socket and one viewer socket is open or connecting. */
  lemma {:induction false} OneSocketPerRole(events: seq<Event>)
    requires IsRun(events)
    ensures Orderly(After(events))
  {
    if events == [] {
    } else {
      hide Next, CanHappen;
      OneSocketPerRole(events[..|events| - 1]);
      NextKeepsOrder(After(events[..|events| - 1]), events[|events| - 1]);
    }
  }

  /** The last viewer wins: exactly the live viewers are told and closed, the agent is left alone. */
  lemma TakeoverReplacesViewer(r: Room, sessionId: string, now: real, state: SocketState)
    requires Orderly(r)
    ensures var e := ConnectViewer(r, sessionId, now, state);
            && |e.room.sockets| == |r.sockets| + 1
            && (forall i :: 0 <= i < |r.sockets| ==>
                  && (ErrorTo(i, SessionReplaced) in e.outputs <==> Occupies(r.sockets[i], ViewerRole))
                  && e.room.sockets[i] ==
                       if Occupies(r.sockets[i], ViewerRole) then CloseSocket(r.sockets[i]) else r.sockets[i])
  {
    EvictedElements(r.sockets);
    NoticesElements(r.sockets);
    hide Evicted, EvictionNotices;
  }

  /** A viewer refused because the agent is offline leaves the room's viewer alone exactly when
      there is none: the eviction comes before the refusal. */
  lemma RefusedViewerDisplacesIff(r: Room, sessionId: string, now: real, state: SocketState)
    requires !HasRole(r.sockets, AgentRole)
    ensures var e := ConnectViewer(r, sessionId, now, state);
            && |e.room.sockets| == |r.sockets| + 1
            && ErrorTo(|r.sockets|, RoleAgentOffline) in e.outputs
            && (e.room.sockets[..|r.sockets|] == r.sockets <==> !HasRole(r.sockets, ViewerRole))
  {
    EvictedElements(r.sockets);
    hide Evicted, EvictionNotices;
    var sockets := if HasRole(r.sockets, ViewerRole) then Evicted(r.sockets) else r.sockets;
    assert !HasRole(sockets, AgentRole) by {
      forall i | 0 <= i < |sockets| ensures !Occupies(sockets[i], AgentRole) {
        assert !Occupies(r.sockets[i], AgentRole);
      }
    }
    var e := ConnectViewer(r, sessionId, now, state);
    assert e.outputs[|e.outputs| - 1] == ErrorTo(|r.sockets|, RoleAgentOffline);
    assert e.room.sockets[..|r.sockets|] == sockets;
    if HasRole(r.sockets, ViewerRole) {
      var i :| 0 <= i < |r.sockets| && Occupies(r.sockets[i], ViewerRole);
      assert sockets[i] != r.sockets[i];
    }
  }

  const AN_AGENT := Socket(Some(AgentRole), Open, true, Attachment(AgentRole, "bootstrap", 0.0))

  const A_VIEWER := Socket(Some(ViewerRole), Open, true, Attachment(ViewerRole, "first", 1.0))

  /** An agent and a viewer join, and the agent leaves. */
  const DESERTED := [Connects(0.0, Join(AgentRole, "bootstrap"), Open), Connects(1.0, Join(ViewerRole, "first"), Open),
                     Leaves(2.0, 0)]

  lemma ViewerJoinsAgent(r: Room)
    requires r.sockets == [AN_AGENT]
    ensures Next(r, DESERTED[1]).room.sockets == [AN_AGENT, A_VIEWER]
  {
    assert Occupies(r.sockets[0], AgentRole);
  }

  lemma AgentComesFirst()
    ensures Next(EMPTY, DESERTED[0]).room.sockets == [AN_AGENT]
  {
  }

  lemma DesertedRoom()
    ensures IsRun(DESERTED) && After(DESERTED).sockets == [AN_AGENT.(state := Closed), A_VIEWER]
  {
    assert IsRun([]) && After([]) == EMPTY;
    hide After, IsRun, ConnectAgent, ConnectViewer;
    AgentComesFirst();
    RunGrows([], DESERTED[0]);
    assert [] + [DESERTED[0]] == DESERTED[..1];
    ViewerJoinsAgent(After(DESERTED[..1]));
    RunGrows(DESERTED[..1], DESERTED[1]);
    assert DESERTED[..1] + [DESERTED[1]] == DESERTED[..2];
    RunGrows(DESERTED[..2], DESERTED[2]);
    assert DESERTED[..2] + [DESERTED[2]] == DESERTED;
  }

  /** The run in which that happens: the next viewer to come is refused, since the agent has
      left, but ends the session of the viewer that was there. */
  lemma RefusedViewerDisplacesActive()
    ensures var last := Connects(3.0, Join(ViewerRole, "second"), Open);
            && IsRun(DESERTED) && IsRun(DESERTED + [last])
            && After(DESERTED).sockets == [AN_AGENT.(state := Closed), A_VIEWER] && A_VIEWER.Live()
            && ErrorTo(2, RoleAgentOffline) in Next(After(DESERTED), last).outputs
            && After(DESERTED + [last]).sockets[..2] == [AN_AGENT.(state := Closed), A_VIEWER.(state := Closing)]
  {
    hide After, IsRun, Evicted, EvictionNotices;
    DesertedRoom();
    var r := After(DESERTED);
    assert Occupies(r.sockets[1], ViewerRole);
    RefusedViewerDisplacesIff(r, "second", 3.0, Open);
    EvictedElements(r.sockets);
    RunGrows(DESERTED, Connects(3.0, Join(ViewerRole, "second"), Open));
  }

  // ---------------------------------------------------------------- routing

  predicate LivesAs(s: Socket, role: Role) { s.Live() && s.attachment.role == role }

  /** What may cross the room: an allowed message of the sender's role, carrying a viewer's
      own session, to the one live socket of the other role. */
  ghost predicate ProperlyRouted(r: Room, e: Event, out: Output)
    requires CanHappen(r, e)
  {
    && e.Arrives? && e.message.Valid? && out.Forwarded?
    && out.from == e.socket && out.kind == e.message.kind && out.sessionId == e.message.sessionId
    && var sender := r.sockets[out.from].attachment;
    && IsAllowed(sender.role, out.kind) && !out.kind.AgentHeartbeat?
    && (sender.role.ViewerRole? ==> out.sessionId == sender.sessionId)
    && out.to < |r.sockets| && r.sockets[out.to].state.Open?
    && r.sockets[out.to].attachment.role == Opposite(sender.role)
    && (forall i :: 0 <= i < |r.sockets| && LivesAs(r.sockets[i], Opposite(sender.role)) ==> i == out.to)
  }

  predicate HasOpen(r: Room, role: Role) {
    exists i :: 0 <= i < |r.sockets| && r.sockets[i].state.Open? && r.sockets[i].attachment.role == role
  }

  predicate RateLimits(r: Room, m: Incoming, now: real) {
    m.Valid? && m.kind.SessionRequest?
        && !W.EvaluateRateLimit(r.requestTimes, now, REQUEST_LIMIT, REQUEST_WINDOW_MS).allowed
  }

  predicate Forwards(outputs: seq<Output>) { exists i :: 0 <= i < |outputs| && outputs[i].Forwarded? }

  /** An open socket of a role is findable under its tag, and the found one is the only one. */
  lemma FoundIsUnique(r: Room, role: Role)
    requires Orderly(r)
    ensures var found := FindSocket(r.sockets, role);
            && (found.Some? <==> HasOpen(r, role))
            && (found.Some? ==> forall i :: 0 <= i < |r.sockets| && LivesAs(r.sockets[i], role) ==> i == found.value)
  {
    var found := FindSocket(r.sockets, role);
    if found.Some? {
      forall i | 0 <= i < |r.sockets| && LivesAs(r.sockets[i], role)
        ensures i == found.value
      {
        assert r.sockets[i].tag == r.sockets[found.value].tag;
      }
    }
  }

  lemma RelayRoutes(r: Room, i: nat, kind: MessageType, sessionId: string)
    requires Orderly(r) && i < |r.sockets|
    ensures var role := Opposite(r.sockets[i].attachment.role);
            var outputs := Relay(r, i, kind, sessionId).outputs;
            && (Forwards(outputs) <==> HasOpen(r, role))
            && |outputs| <= 1
            && (forall out :: out in outputs && out.Forwarded? ==>
                  && out.from == i && out.kind == kind && out.sessionId == sessionId
                  && out.to < |r.sockets| && r.sockets[out.to].state.Open? && r.sockets[out.to].attachment.role == role
                  && forall j :: 0 <= j < |r.sockets| && LivesAs(r.sockets[j], role) ==> j == out.to)
            && (forall out :: out in outputs && out.ErrorTo? ==> out.socket == i)
  {
    var role := Opposite(r.sockets[i].attachment.role);
    FoundIsUnique(r, role);
    var outputs := Relay(r, i, kind, sessionId).outputs;
    if HasOpen(r, role) {
      assert outputs[0].Forwarded?;
    }
  }

  /** Seeing a message, and counting it, only touches the sender's `lastSeenAt` and the counter. */
  lemma SeeingKeepsRoutes(r: Room, i: nat, now: real, times: seq<real>, alarm: Option<real>)
    requires Orderly(r) && i < |r.sockets|
    ensures var s := r.sockets[i];
            var seen := Room(r.sockets[i := s.(attachment := s.attachment.(lastSeenAt := now))], alarm, times);
            && Orderly(seen)
            && (forall role :: HasOpen(seen, role) <==> HasOpen(r, role))
  {
    var s := r.sockets[i];
    var seen := Room(r.sockets[i := s.(attachment := s.attachment.(lastSeenAt := now))], alarm, times);
    forall role ensures HasOpen(seen, role) <==> HasOpen(r, role) {
      if HasOpen(r, role) {
        var j :| 0 <= j < |r.sockets| && r.sockets[j].state.Open? && r.sockets[j].attachment.role == role;
        assert seen.sockets[j].state.Open?;
      }
      if HasOpen(seen, role) {
        var j :| 0 <= j < |seen.sockets| && seen.sockets[j].state.Open? && seen.sockets[j].attachment.role == role;
        assert r.sockets[j].state.Open?;
      }
    }
  }

  /** The message gets as far as looking for a peer. */
  predicate Reaches(r: Room, i: nat, m: Incoming, now: real)
    requires i < |r.sockets|
  {
    IsAccepted(r.sockets[i], m) && !m.kind.AgentHeartbeat? && !RateLimits(r, m, now)
  }

  /** The room as the relay finds it: the sender's time and the request window updated. */
  function Seen(r: Room, i: nat, m: Incoming, now: real): Room
    requires i < |r.sockets|
  {
    var s := r.sockets[i];
    var times := if m.Valid? && m.kind.SessionRequest?
                 then W.EvaluateRateLimit(r.requestTimes, now, REQUEST_LIMIT, REQUEST_WINDOW_MS).timestamps
                 else r.requestTimes;
    Room(r.sockets[i := s.(attachment := s.attachment.(lastSeenAt := now))], r.alarm, times)
  }

  lemma ReceiveRelays(r: Room, i: nat, m: Incoming, now: real)
    requires Orderly(r) && i < |r.sockets|
    ensures Reaches(r, i, m, now) ==> Receive(r, i, m, now) == Relay(Seen(r, i, m, now), i, m.kind, m.sessionId)
    ensures !Reaches(r, i, m, now) ==>
              var outputs := Receive(r, i, m, now).outputs;
              |outputs| <= 1 && forall out :: out in outputs ==> out.ErrorTo? && out.socket == i
  {
    hide W.EvaluateRateLimit, IsAllowed, Relay;
  }

  lemma ReceiveRoutes(r: Room, i: nat, m: Incoming, now: real)
    requires Orderly(r) && i < |r.sockets| && r.sockets[i].state.Open?
    ensures var e := Arrives(now, i, m);
            var outputs := Receive(r, i, m, now).outputs;
            && (Forwards(outputs) <==>
                  Reaches(r, i, m, now) && HasOpen(r, Opposite(r.sockets[i].attachment.role)))
            && |outputs| <= 1
            && (forall out :: out in outputs && out.Forwarded? ==> ProperlyRouted(r, e, out))
            && (forall out :: out in outputs && out.ErrorTo? ==> out.socket == i)
  {
    ReceiveRelays(r, i, m, now);
    if Reaches(r, i, m, now) {
      var seen := Seen(r, i, m, now);
      SeeingKeepsRoutes(r, i, now, seen.requestTimes, r.alarm);
      RelayRoutes(seen, i, m.kind, m.sessionId);
      hide Receive, Relay, HasOpen, W.EvaluateRateLimit, IsAllowed, Orderly, Forwards, RateLimits;
      forall out | out in Relay(seen, i, m.kind, m.sessionId).outputs && out.Forwarded?
        ensures ProperlyRouted(r, Arrives(now, i, m), out)
      {
        forall j | 0 <= j < |r.sockets| ensures seen.sockets[j].Live() == r.sockets[j].Live() { }
      }
    } else {
      hide Receive, Reaches, HasOpen;
      var outputs := Receive(r, i, m, now).outputs;
      assert forall k :: 0 <= k < |outputs| ==> outputs[k] in outputs;
    }
  }

  /** Forwarding in every run: exactly the accepted, uncounted-out messages with an open peer
      cross the room, each to that peer only; every error goes back to its sender. */
  lemma RoutingIsExact(events: seq<Event>, e: Event)
    requires IsRun(events) && CanHappen(After(events), e)
    ensures var r := After(events);
            var outputs := Next(r, e).outputs;
            && (Forwards(outputs) <==>
                  && e.Arrives? && Reaches(r, e.socket, e.message, e.now)
                  && HasOpen(r, Opposite(r.sockets[e.socket].attachment.role)))
            && (forall out :: out in outputs && out.Forwarded? ==> ProperlyRouted(r, e, out))
            && (e.Arrives? ==>
                  |outputs| <= 1 && forall out :: out in outputs && out.ErrorTo? ==> out.socket == e.socket)
  {
    hide After, IsRun, Orderly, Reaches, HasOpen, Receive, ProperlyRouted;
    OneSocketPerRole(events);
    var r := After(events);
    if e.Arrives? {
      ReceiveRoutes(r, e.socket, e.message, e.now);
    } else {
      NothingElseForwards(r, e);
    }
  }

  lemma NothingElseForwards(r: Room, e: Event)
    requires CanHappen(r, e) && !e.Arrives?
    ensures !Forwards(Next(r, e).outputs)
    ensures forall out :: out in Next(r, e).outputs ==> out.ErrorTo?
  {
    NoticesElements(r.sockets);
    hide Evicted, EvictionNotices;
    var outputs := Next(r, e).outputs;
    assert forall out :: out in outputs ==> out.ErrorTo?;
    assert forall i :: 0 <= i < |outputs| ==> outputs[i] in outputs;
  }

  // ---------------------------------------------------------------- session requests

  predicate IsRequest(r: Room, e: Event)
    requires CanHappen(r, e)
  {
    e.Arrives? && IsAccepted(r.sockets[e.socket], e.message) && e.message.kind.SessionRequest?
  }

  predicate IsRefused(r: Room, e: Event)
    requires CanHappen(r, e)
  {
    ErrorTo(if e.Arrives? then e.socket else 0, RateLimited) in Next(r, e).outputs
  }

  /** When session requests were made, refused or not. */
  function RequestTimes(events: seq<Event>): seq<real>
    requires IsRun(events)
  {
    if events == [] then []
    else
      var front, last := events[..|events| - 1], events[|events| - 1];
      RequestTimes(front) + if IsRequest(After(front), last) then [last.now] else []
  }

  /** When session requests were made that the room did not answer with a refusal. */
  function GrantedTimes(events: seq<Event>): seq<real>
    requires IsRun(events)
  {
    if events == [] then []
    else
      var front, last := events[..|events| - 1], events[|events| - 1];
      GrantedTimes(front) + if IsRequest(After(front), last) && !IsRefused(After(front), last) then [last.now] else []
  }

  lemma {:induction false} RequestTimesOrdered(events: seq<Event>)
    requires IsRun(events)
    ensures W.Nondecreasing(RequestTimes(events))
    ensures forall t :: t in RequestTimes(events) ==> events != [] && t <= events[|events| - 1].now
  {
    if events == [] {
    } else {
      hide CanHappen, Next, IsRequest, W.Nondecreasing;
      var front, last := events[..|events| - 1], events[|events| - 1];
      RequestTimesOrdered(front);
      var times := RequestTimes(front);
      assert times + [] == times;
      assert RequestTimes(events) == times + [last.now] || RequestTimes(events) == times;
      hide RequestTimes;
      W.AppendOrdered(times, last.now);
    }
  }

  /** One event's effect on the request window. */
  lemma RequestStep(r: Room, e: Event)
    requires CanHappen(r, e)
    ensures var d := W.EvaluateRateLimit(r.requestTimes, e.now, REQUEST_LIMIT, REQUEST_WINDOW_MS);
            && Next(r, e).room.requestTimes == (if IsRequest(r, e) then d.timestamps else r.requestTimes)
            && (IsRequest(r, e) ==> (IsRefused(r, e) <==> !d.allowed))
  {
    hide W.EvaluateRateLimit, IsAllowed, FindFrom, Evicted, EvictionNotices, HasRole;
  }

  /** The room's window is the evaluator run over every request so far. */
  lemma {:induction false} RequestWindowIsRun(events: seq<Event>)
    requires IsRun(events)
    ensures After(events).requestTimes == W.FilterRun(RequestTimes(events), REQUEST_LIMIT, REQUEST_WINDOW_MS).timestamps
  {
    if events == [] {
    } else {
      hide CanHappen, Next, IsRequest, IsRefused, W.EvaluateRateLimit;
      var front, last := events[..|events| - 1], events[|events| - 1];
      RequestWindowIsRun(front);
      RequestStep(After(front), last);
      var times := RequestTimes(front);
      assert times + [] == times && (times + [last.now])[..|times|] == times;
    }
  }

  lemma {:induction false} GrantedIsAdmitted(events: seq<Event>)
    requires IsRun(events)
    ensures GrantedTimes(events) == W.Admitted(RequestTimes(events), REQUEST_LIMIT, REQUEST_WINDOW_MS, W.HalfOpen)
  {
    if events == [] {
    } else {
      hide CanHappen, Next, IsRequest, IsRefused, W.Retained;
      var front, last := events[..|events| - 1], events[|events| - 1];
      GrantedIsAdmitted(front);
      var times := RequestTimes(front);
      assert times + [] == times && (times + [last.now])[..|times|] == times;
      if IsRequest(After(front), last) {
        RefusedIffWindowFull(front, last);
      } else {
        assert GrantedTimes(front) + [] == GrantedTimes(front);
      }
    }
  }

  lemma RefusedIffWindowFull(events: seq<Event>, e: Event)
    requires IsRun(events) && CanHappen(After(events), e) && IsRequest(After(events), e)
    requires events != [] ==> events[|events| - 1].now <= e.now
    ensures IsRefused(After(events), e) <==>
              |W.Retained(W.Admitted(RequestTimes(events), REQUEST_LIMIT, REQUEST_WINDOW_MS, W.HalfOpen),
                          e.now, REQUEST_WINDOW_MS, W.HalfOpen)| >= REQUEST_LIMIT
  {
    hide After, IsRun, CanHappen, IsRequest, IsRefused, W.EvaluateRateLimit, W.Retained, W.FilterRun, W.Admitted,
         RequestTimes;
    RequestWindowIsRun(events);
    RequestStep(After(events), e);
    RequestTimesOrdered(events);
    var all := RequestTimes(events) + [e.now];
    assert forall i :: 0 <= i < |RequestTimes(events)| ==>
        all[i] == RequestTimes(events)[i] && all[i] in RequestTimes(events);
    W.EvaluatorIsExact(RequestTimes(events), e.now, REQUEST_LIMIT, REQUEST_WINDOW_MS);
  }

  /** No ten seconds, wherever they start, hold more than five granted session requests, and
      a request is refused only when the ten seconds before it already hold five. */
  lemma RequestsAreLimited(events: seq<Event>, from: real, e: Event)
    requires IsRun(events) && IsRun(events + [e])
    ensures |W.InWindow(GrantedTimes(events), from, REQUEST_WINDOW_MS, W.HalfOpen)| <= REQUEST_LIMIT
    ensures CanHappen(After(events), e)
    ensures IsRequest(After(events), e) ==>
              (IsRefused(After(events), e) <==>
               |W.Retained(GrantedTimes(events), e.now, REQUEST_WINDOW_MS, W.HalfOpen)| >= REQUEST_LIMIT)
  {
    hide Next, IsRequest, IsRefused, W.EvaluateRateLimit, W.Retained, W.FilterRun;
    GrantedIsAdmitted(events);
    W.EveryWindowIsBounded(RequestTimes(events), REQUEST_LIMIT, REQUEST_WINDOW_MS, W.HalfOpen, from);
    assert (events + [e])[..|events|] == events;
    if IsRequest(After(events), e) {
      RefusedIffWindowFull(events, e);
    }
  }

  // ---------------------------------------------------------------- the heartbeat watchdog

  predicate IsAgent(s: Socket) { s.tag == Some(AgentRole) && s.Live() }

  predicate AgentConnecting(r: Room) {
    exists i :: 0 <= i < |r.sockets| && IsAgent(r.sockets[i]) && r.sockets[i].state.Connecting?
  }

  /** A live agent has an alarm pending no later than its deadline. */
  ghost predicate Watched(r: Room) {
    forall i :: 0 <= i < |r.sockets| && IsAgent(r.sockets[i]) ==>
      r.alarm.Some? && r.alarm.value <= Deadline(r.sockets[i].attachment.lastSeenAt)
  }

  ghost predicate SeenBefore(r: Room, now: real) {
    forall i :: 0 <= i < |r.sockets| ==> r.sockets[i].attachment.lastSeenAt <= now
  }

  lemma ConnectKeepsWatch(r: Room, e: Event)
    requires Orderly(r) && Watched(r) && SeenBefore(r, e.now) && e.Connects? && CanHappen(r, e)
    ensures Watched(Next(r, e).room) && SeenBefore(Next(r, e).room, e.now)
  {
    EvictedElements(r.sockets);
    hide Evicted, EvictionNotices, Orderly;
  }

  /** Receiving keeps the agent watched: an accepted message only moves its deadline later. */
  lemma ReceiveKeepsWatch(r: Room, i: nat, m: Incoming, now: real)
    requires Orderly(r) && Watched(r) && SeenBefore(r, now) && i < |r.sockets| && r.sockets[i].state.Open?
    ensures Watched(Receive(r, i, m, now).room) && SeenBefore(Receive(r, i, m, now).room, now)
  {
    hide W.EvaluateRateLimit, FindFrom;
  }

  lemma EventKeepsWatch(r: Room, e: Event)
    requires Orderly(r) && Watched(r) && SeenBefore(r, e.now) && CanHappen(r, e)
    requires !e.AlarmFires? || !AgentConnecting(r)
    ensures Watched(Next(r, e).room) && SeenBefore(Next(r, e).room, e.now)
  {
    match e {
      case Connects(_, _, _) =>
        ConnectKeepsWatch(r, e);
      case Arrives(now, i, m) =>
        ReceiveKeepsWatch(r, i, m, now);
      case AlarmFires(now) =>
        AlarmKeepsWatchIff(r, now);
      case _ =>
        hide Orderly;
    }
  }

  /** The alarm leaves a watched agent watched, or closed, exactly when no agent is still
      connecting: its search looks at open sockets only and the alarm is already spent. */
  lemma AlarmKeepsWatchIff(r: Room, now: real)
    requires Orderly(r)
    ensures Watched(FireAlarm(r, now).room) <==> !AgentConnecting(r)
    ensures AgentConnecting(r) ==> FireAlarm(r, now).room.alarm.None?
  {
    FoundIsUnique(r, AgentRole);
    var after := FireAlarm(r, now).room;
    var found := FindSocket(r.sockets, AgentRole);
    if AgentConnecting(r) {
      var i :| 0 <= i < |r.sockets| && IsAgent(r.sockets[i]) && r.sockets[i].state.Connecting?;
      assert found.None?;
      assert IsAgent(after.sockets[i]);
    } else {
      forall i | 0 <= i < |after.sockets| && IsAgent(after.sockets[i])
        ensures after.alarm.Some? && after.alarm.value <= Deadline(after.sockets[i].attachment.lastSeenAt)
      {
        assert IsAgent(r.sockets[i]) && r.sockets[i].state.Open?;
      }
    }
  }

  predicate IsHeartbeat(r: Room, e: Event)
    requires CanHappen(r, e)
  {
    e.Arrives? && IsAccepted(r.sockets[e.socket], e.message) && e.message.kind.AgentHeartbeat?
  }

  /** The events that set the alarm afresh: an agent let in, or an agent's heartbeat. */
  predicate Rearms(r: Room, e: Event)
    requires CanHappen(r, e)
  {
    || (e.Connects? && e.request.Join? && e.request.role.AgentRole? && !HasRole(r.sockets, AgentRole))
    || IsHeartbeat(r, e)
  }

  /** The alarm was lost to a handshake and nothing has set it since. */
  predicate AlarmLost(events: seq<Event>)
    requires IsRun(events)
  {
    events != [] &&
      var front, last := events[..|events| - 1], events[|events| - 1];
      if last.AlarmFires? then AgentConnecting(After(front))
      else !Rearms(After(front), last) && AlarmLost(front)
  }

  lemma AlarmStays(r: Room, e: Event)
    requires CanHappen(r, e) && !Rearms(r, e) && !e.AlarmFires?
    ensures Next(r, e).room.alarm == r.alarm
  {
    hide W.EvaluateRateLimit, FindFrom, Evicted, EvictionNotices, IsAllowed;
  }

  lemma NextSeenBefore(r: Room, e: Event)
    requires CanHappen(r, e) && SeenBefore(r, e.now)
    ensures SeenBefore(Next(r, e).room, e.now)
  {
    hide Next, CanHappen, IsAccepted;
    NextDatesSockets(r, e);
  }

  /** An agent that is let in is watched from the start. */
  lemma NewAgentIsWatched(r: Room, sessionId: string, now: real, state: SocketState)
    requires !HasRole(r.sockets, AgentRole)
    ensures Watched(ConnectAgent(r, sessionId, now, state).room)
  {
    assert forall i :: 0 <= i < |r.sockets| ==> !Occupies(r.sockets[i], AgentRole);
  }

  lemma LostStep(r: Room, e: Event)
    requires Orderly(r) && CanHappen(r, e) && r.alarm.None? && SeenBefore(r, e.now)
    ensures Rearms(r, e) ==> Watched(Next(r, e).room)
    ensures !Rearms(r, e) ==> Next(r, e).room.alarm.None?
    ensures SeenBefore(Next(r, e).room, e.now)
  {
    hide ConnectAgent, Receive, Watched, Orderly;
    NextSeenBefore(r, e);
    if IsHeartbeat(r, e) {
      HeartbeatRestoresWatch(r, e.socket, e.message.sessionId, e.now);
    } else if Rearms(r, e) {
      NewAgentIsWatched(r, e.request.sessionId, e.now, e.state);
    } else {
      AlarmStays(r, e);
    }
  }

  lemma {:induction false} LostOrWatched(events: seq<Event>)
    requires IsRun(events)
    ensures if AlarmLost(events) then After(events).alarm.None? else Watched(After(events))
    ensures events != [] ==> SeenBefore(After(events), events[|events| - 1].now)
  {
    if events == [] {
      NothingToWatch(0.0);
    } else {
      hide Next, CanHappen, Orderly, Watched, AgentConnecting, Rearms;
      var front, last := events[..|events| - 1], events[|events| - 1];
      LostOrWatched(front);
      OneSocketPerRole(front);
      if front == [] {
        NothingToWatch(last.now);
      }
      if AlarmLost(front) {
        NoAlarmToFire(After(front), last);
        LostStep(After(front), last);
      } else if last.AlarmFires? && AgentConnecting(After(front)) {
        AlarmSpent(After(front), last);
      } else {
        EventKeepsWatch(After(front), last);
      }
    }
  }

  lemma NoAlarmToFire(r: Room, e: Event)
    requires CanHappen(r, e) && r.alarm.None?
    ensures !e.AlarmFires?
  {
  }

  lemma AlarmSpent(r: Room, e: Event)
    requires Orderly(r) && CanHappen(r, e) && e.AlarmFires? && AgentConnecting(r) && SeenBefore(r, e.now)
    ensures Next(r, e).room.alarm.None? && SeenBefore(Next(r, e).room, e.now)
  {
    AlarmKeepsWatchIff(r, e.now);
  }

  predicate HasAgent(r: Room) { exists i :: 0 <= i < |r.sockets| && IsAgent(r.sockets[i]) }

  /** In every run a live agent has an alarm pending no later than its deadline if and only if
      the alarm was not lost to a handshake since it was last set. */
  lemma AgentIsWatchedIff(events: seq<Event>)
    requires IsRun(events)
    ensures Watched(After(events)) <==> !AlarmLost(events) || !HasAgent(After(events))
  {
    hide AlarmLost, IsRun, After;
    LostOrWatched(events);
  }

  lemma NothingToWatch(now: real)
    ensures Watched(EMPTY) && SeenBefore(EMPTY, now)
  {
  }

  /** An alarm that meets the handshake, even on its deadline, leaves an open agent that
      nothing watches. */
  lemma AlarmDuringHandshakeLosesAgent(sessionId: string)
    ensures var events := [Connects(0.0, Join(AgentRole, sessionId), Connecting), AlarmFires(30_000.0),
                           Opens(30_001.0, 0)];
            && IsRun(events)
            && After(events).sockets[0].state.Open? && IsAgent(After(events).sockets[0])
            && After(events).alarm.None? && !Watched(After(events))
  {
    var e0, e1, e2 := Connects(0.0, Join(AgentRole, sessionId), Connecting), AlarmFires(30_000.0), Opens(30_001.0, 0);
    assert IsRun([]) && After([]) == EMPTY;
    RunGrows([], e0);
    assert [] + [e0] == [e0];
    RunGrows([e0], e1);
    assert [e0] + [e1] == [e0, e1];
    RunGrows([e0, e1], e2);
    assert [e0, e1] + [e2] == [e0, e1, e2];
  }

  /** A heartbeat from the live agent restores the watch, whatever was lost before. */
  lemma HeartbeatRestoresWatch(r: Room, i: nat, sessionId: string, now: real)
    requires Orderly(r) && i < |r.sockets| && r.sockets[i].state.Open? && r.sockets[i].attachment.role == AgentRole
    ensures var after := Receive(r, i, Valid(AgentHeartbeat, sessionId), now).room;
            Watched(after) && IsAgent(after.sockets[i]) && after.alarm == Some(Deadline(now))
  {
  }

  /** The alarm closes an open agent exactly when it has been silent for the whole timeout,
      and otherwise waits for exactly its deadline. */
  lemma AlarmClosesIffSilent(events: seq<Event>, now: real, i: nat)
    requires IsRun(events) && After(events).alarm.Some?
    requires i < |After(events).sockets| && IsAgent(After(events).sockets[i]) && After(events).sockets[i].state.Open?
    ensures var s := After(events).sockets[i];
            var after := Next(After(events), AlarmFires(now)).room;
            && (after.sockets[i].state.Closing? <==> now >= Deadline(s.attachment.lastSeenAt))
            && (now < Deadline(s.attachment.lastSeenAt) ==>
                  after.sockets[i] == s && after.alarm == Some(Deadline(s.attachment.lastSeenAt)))
  {
    hide After, IsRun, Orderly;
    OneSocketPerRole(events);
    FoundAgent(After(events), i);
  }

  lemma FoundAgent(r: Room, i: nat)
    requires Orderly(r) && i < |r.sockets| && IsAgent(r.sockets[i]) && r.sockets[i].state.Open?
    ensures FindSocket(r.sockets, AgentRole) == Some(i) && r.sockets[i].stored
  {
    FoundIsUnique(r, AgentRole);
  }

  /** When a socket last connected or had a message accepted, from the events alone. */
  function LastAccepted(events: seq<Event>, i: nat): real
    requires IsRun(events) && i < |After(events).sockets|
  {
    var front, last := events[..|events| - 1], events[|events| - 1];
    if i >= |After(front).sockets| then last.now
    else if last.Arrives? && last.socket == i && IsAccepted(After(front).sockets[i], last.message) then last.now
    else LastAccepted(front, i)
  }

  lemma NextDatesSockets(r: Room, e: Event)
    requires CanHappen(r, e)
    ensures var after := Next(r, e).room.sockets;
            && |r.sockets| <= |after|
            && (forall i :: 0 <= i < |r.sockets| ==>
                  after[i].attachment.lastSeenAt
                    == if e.Arrives? && e.socket == i && IsAccepted(r.sockets[i], e.message) then e.now
                       else r.sockets[i].attachment.lastSeenAt)
            && (forall i :: |r.sockets| <= i < |after| ==> after[i].attachment.lastSeenAt == e.now)
  {
    EvictedElements(r.sockets);
    hide W.EvaluateRateLimit, FindFrom, IsAllowed, Evicted, EvictionNotices, HasRole;
  }

  lemma {:induction false} LastSeenIsLastAccepted(events: seq<Event>, i: nat)
    requires IsRun(events) && i < |After(events).sockets|
    ensures After(events).sockets[i].attachment.lastSeenAt == LastAccepted(events, i)
  {
    hide Next, CanHappen, IsAccepted;
    var front := events[..|events| - 1];
    NextDatesSockets(After(front), events[|events| - 1]);
    if i < |After(front).sockets| {
      LastSeenIsLastAccepted(front, i);
    }
  }

  /** Event `k` connected socket `i` or was an accepted message of it. */
  predicate Speaks(events: seq<Event>, k: nat, i: nat)
    requires k < |events| && IsRun(events[..k]) && IsRun(events[..k + 1])
  {
    var r := After(events[..k]);
    if i < |r.sockets| then events[k].Arrives? && events[k].socket == i && IsAccepted(r.sockets[i], events[k].message)
    else i < |After(events[..k + 1]).sockets|
  }

  lemma {:induction false} NobodySpeaksLater(events: seq<Event>, i: nat, k: nat)
    requires IsRun(events) && i < |After(events).sockets| && k < |events|
    requires IsRun(events[..k]) && IsRun(events[..k + 1]) && Speaks(events, k, i)
    ensures events[k].now <= LastAccepted(events, i)
  {
    hide Next, CanHappen, IsAccepted;
    var n := |events| - 1;
    var front := events[..n];
    if k < n {
      assert front[..k] == events[..k] && front[..k + 1] == events[..k + 1];
      NextDatesSockets(After(front), events[n]);
      SocketsStay(front, k);
      SocketsStay(front, k + 1);
      NobodySpeaksLater(front, i, k);
      TimesOrdered(events, k, n);
    } else {
      assert events[..k] == front && events[..k + 1] == events;
    }
  }

  lemma {:induction false} TimesOrdered(events: seq<Event>, j: nat, k: nat)
    requires IsRun(events) && j <= k < |events|
    ensures events[j].now <= events[k].now
  {
    hide Next, CanHappen;
    var n := |events| - 1;
    if j == k {
    } else if k < n {
      TimesOrdered(events[..n], j, k);
    } else {
      TimesOrdered(events[..n], j, k - 1);
    }
  }

  lemma {:induction false} SocketsStay(events: seq<Event>, k: nat)
    requires IsRun(events) && k <= |events|
    ensures IsRun(events[..k]) && |After(events[..k]).sockets| <= |After(events).sockets|
  {
    hide Next, CanHappen;
    if k < |events| {
      var front := events[..|events| - 1];
      NextDatesSockets(After(front), events[|events| - 1]);
      SocketsStay(front, k);
      assert front[..k] == events[..k];
    } else {
      assert events[..k] == events;
    }
  }

  /** An agent the alarm closes has neither connected nor had a message accepted for the whole
      timeout. */
  lemma TimeoutMeansSilence(events: seq<Event>, now: real, i: nat, k: nat)
    requires IsRun(events) && After(events).alarm.Some?
    requires i < |After(events).sockets| && After(events).sockets[i].Live()
    requires !Next(After(events), AlarmFires(now)).room.sockets[i].Live()
    requires k < |events|
    ensures IsAgent(After(events).sockets[i]) && After(events).sockets[i].state.Open?
    ensures IsRun(events[..k]) && IsRun(events[..k + 1])
    ensures Speaks(events, k, i) ==> now - events[k].now >= AGENT_HEARTBEAT_TIMEOUT_MS
  {
    hide After, IsRun, Speaks, LastAccepted;
    RunPrefix(events, k);
    RunPrefix(events, k + 1);
    LastSeenIsLastAccepted(events, i);
    OneSocketPerRole(events);
    if Speaks(events, k, i) {
      NobodySpeaksLater(events, i, k);
    }
  }
}
