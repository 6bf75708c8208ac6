/**
 The signaling room: one agent, one viewer, last viewer wins, a heartbeat alarm for the
 agent, role-based forwarding and a limit on session requests.
 */
module SessionRoom {
  import opened Basics
  import W = SlidingWindow

  const AGENT_HEARTBEAT_TIMEOUT_MS := 30_000.0
  const REQUEST_LIMIT := 5
  const REQUEST_WINDOW_MS := 10_000.0

  datatype Role = AgentRole | ViewerRole

  function Opposite(r: Role): Role { if r.AgentRole? then ViewerRole else AgentRole }

  datatype MessageType =
    | SessionRequest | SessionClose | SessionConfigure | WebrtcIce | WebrtcOffer | WebrtcAnswer
    | AgentHeartbeat | AgentOffline | AgentOnline
    | SessionAccept | SessionConfigured | SessionPolicy | SessionReject | ErrorMessage

  predicate IsAllowed(role: Role, t: MessageType) {
    match role
    case ViewerRole =>
      t.SessionRequest? || t.SessionClose? || t.SessionConfigure? || t.WebrtcIce? || t.WebrtcOffer?
    case AgentRole =>
      || t.AgentHeartbeat? || t.AgentOffline? || t.AgentOnline? || t.SessionAccept? || t.SessionClose?
      || t.SessionConfigured? || t.SessionPolicy? || t.SessionReject? || t.WebrtcAnswer? || t.WebrtcIce?
  }

  predicate StartsWithAgent(t: MessageType) { t.AgentHeartbeat? || t.AgentOffline? || t.AgentOnline? }

  /** A text frame after decoding and validation. */
  datatype Incoming = Binary | TooLarge | InvalidJson | InvalidMessage | Valid(kind: MessageType, sessionId: string)

  datatype Code =
    | BinaryMessageRejected | MessageTooLarge | JsonInvalid | MessageInvalid | MessageNotAllowed
    | RateLimited | PeerOffline | SessionReplaced | RoleAgentOffline

  datatype SocketState = Connecting | Open | Closing | Closed

  datatype Attachment = Attachment(role: Role, sessionId: string, lastSeenAt: real)

  /** `tag` is the role the room files the socket under; a refused viewer has none. `stored`
      says that the attachment can be read back. */
  datatype Socket = Socket(tag: Option<Role>, state: SocketState, stored: bool, attachment: Attachment)
  {
    predicate Live() { state.Open? || state.Connecting? }
  }

  function CloseSocket(s: Socket): Socket { if s.Live() then s.(state := Closing) else s }

  datatype Output =
    | ErrorTo(socket: nat, code: Code)
    | Forwarded(from: nat, to: nat, kind: MessageType, sessionId: string)

  datatype Room = Room(sockets: seq<Socket>, alarm: Option<real>, requestTimes: seq<real>)

  datatype Effect = Effect(room: Room, outputs: seq<Output>)

  /** A connection request: not a WebSocket upgrade, without the headers the room needs, or good. */
  datatype Request = NotAnUpgrade | NoContext | Join(role: Role, sessionId: string)

  datatype Response = UpgradeRequired | InvalidRoomContext | AgentAlreadyOnline | SwitchingProtocols

  function Answer(r: Room, request: Request): Response {
    match request
    case NotAnUpgrade => UpgradeRequired
    case NoContext => InvalidRoomContext
    case Join(role, _) =>
      if role.AgentRole? && HasRole(r.sockets, AgentRole) then AgentAlreadyOnline else SwitchingProtocols
  }

  predicate Occupies(s: Socket, role: Role) { s.tag == Some(role) && s.Live() }

  predicate HasRole(sockets: seq<Socket>, role: Role) { exists i :: 0 <= i < |sockets| && Occupies(sockets[i], role) }

  /** The first open socket filed under a role. */
  function FindFrom(sockets: seq<Socket>, role: Role, i: nat): (found: Option<nat>)
    requires i <= |sockets|
    ensures found.Some? ==>
              found.value < |sockets| && sockets[found.value].tag == Some(role) && sockets[found.value].state.Open?
    ensures found.None? ==> forall j :: i <= j < |sockets| ==> !(sockets[j].tag == Some(role) && sockets[j].state.Open?)
    decreases |sockets| - i
  {
    if i == |sockets| then None
    else if sockets[i].tag == Some(role) && sockets[i].state.Open? then Some(i)
    else FindFrom(sockets, role, i + 1)
  }

  function FindSocket(sockets: seq<Socket>, role: Role): Option<nat> { FindFrom(sockets, role, 0) }

  function Evicted(sockets: seq<Socket>): seq<Socket> {
    if sockets == [] then []
    else
      var s := sockets[|sockets| - 1];
      Evicted(sockets[..|sockets| - 1]) + [if s.tag == Some(ViewerRole) then CloseSocket(s) else s]
  }

  function EvictionNotices(sockets: seq<Socket>): seq<Output> {
    if sockets == [] then []
    else EvictionNotices(sockets[..|sockets| - 1])
         + (if Occupies(sockets[|sockets| - 1], ViewerRole) && sockets[|sockets| - 1].stored
            then [ErrorTo(|sockets| - 1, SessionReplaced)] else [])
  }

  function Deadline(lastSeenAt: real): real { lastSeenAt + AGENT_HEARTBEAT_TIMEOUT_MS }

  function ConnectAgent(r: Room, sessionId: string, now: real, state: SocketState): Effect {
    if HasRole(r.sockets, AgentRole) then Effect(r, [])
    else
      Effect(r.(sockets := r.sockets + [Socket(Some(AgentRole), state, true, Attachment(AgentRole, sessionId, now))],
                alarm := Some(Deadline(now))), [])
  }

  function ConnectViewer(r: Room, sessionId: string, now: real, state: SocketState): Effect {
    var evict := HasRole(r.sockets, ViewerRole);
    var sockets := if evict then Evicted(r.sockets) else r.sockets;
    var notices := if evict then EvictionNotices(r.sockets) else [];
    var attachment := Attachment(ViewerRole, sessionId, now);
    if !HasRole(sockets, AgentRole)
    then Effect(r.(sockets := sockets + [Socket(None, Closing, true, attachment)]),
                notices + [ErrorTo(|sockets|, RoleAgentOffline)])
    else Effect(r.(sockets := sockets + [Socket(Some(ViewerRole), state, true, attachment)]), notices)
  }

  function Connect(r: Room, request: Request, now: real, state: SocketState): Effect {
    match request
    case Join(AgentRole, sessionId) => ConnectAgent(r, sessionId, now, state)
    case Join(ViewerRole, sessionId) => ConnectViewer(r, sessionId, now, state)
    case _ => Effect(r, [])
  }

  function Dropped(r: Room, i: nat): Room
    requires i < |r.sockets|
  {
    r.(sockets := r.sockets[i := CloseSocket(r.sockets[i])])
  }

  function Reject(r: Room, i: nat, code: Code): Effect
    requires i < |r.sockets|
  {
    Effect(Dropped(r, i), [ErrorTo(i, code)])
  }

  function Relay(r: Room, i: nat, kind: MessageType, sessionId: string): Effect
    requires i < |r.sockets|
  {
    var peer := FindSocket(r.sockets, Opposite(r.sockets[i].attachment.role));
    if peer.Some? then Effect(r, [Forwarded(i, peer.value, kind, sessionId)])
    else if StartsWithAgent(kind) then Effect(r, [])
    else Effect(r, [ErrorTo(i, PeerOffline)])
  }

  predicate IsAccepted(s: Socket, m: Incoming) {
    s.stored && m.Valid? && IsAllowed(s.attachment.role, m.kind)
    && (s.attachment.role.ViewerRole? ==> m.sessionId == s.attachment.sessionId)
  }

  function Refusal(m: Incoming): Code {
    match m
    case Binary => BinaryMessageRejected
    case TooLarge => MessageTooLarge
    case InvalidJson => JsonInvalid
    case InvalidMessage => MessageInvalid
    case Valid(_, _) => MessageNotAllowed
  }

  function Receive(r: Room, i: nat, m: Incoming, now: real): Effect
    requires i < |r.sockets|
  {
    if !r.sockets[i].stored then Effect(Dropped(r, i), [])
    else if !IsAccepted(r.sockets[i], m) then Reject(r, i, Refusal(m))
    else
      var s := r.sockets[i];
      var seen := r.(sockets := r.sockets[i := s.(attachment := s.attachment.(lastSeenAt := now))]);
      if m.kind.AgentHeartbeat? then Effect(seen.(alarm := Some(Deadline(now))), [])
      else if m.kind.SessionRequest? then
        var decision := W.EvaluateRateLimit(r.requestTimes, now, REQUEST_LIMIT, REQUEST_WINDOW_MS);
        var counted := seen.(requestTimes := decision.timestamps);
        if decision.allowed then Relay(counted, i, m.kind, m.sessionId) else Reject(counted, i, RateLimited)
      else Relay(seen, i, m.kind, m.sessionId)
  }

  /** The alarm is spent when it fires; it may fire early. */
  function FireAlarm(r: Room, now: real): Effect {
    var spent := r.(alarm := None);
    var agent := FindSocket(r.sockets, AgentRole);
    if agent.None? then Effect(spent, [])
    else
      var s := r.sockets[agent.value];
      if !s.stored || now - s.attachment.lastSeenAt >= AGENT_HEARTBEAT_TIMEOUT_MS
      then Effect(Dropped(spent, agent.value), [])
      else Effect(spent.(alarm := Some(Deadline(s.attachment.lastSeenAt))), [])
  }

  datatype Event =
    | Connects(now: real, request: Request, state: SocketState)
    | Opens(now: real, socket: nat)
    | Arrives(now: real, socket: nat, message: Incoming)
    | Leaves(now: real, socket: nat)
    | Fails(now: real, socket: nat)
    | AlarmFires(now: real)

  predicate CanHappen(r: Room, e: Event) {
    match e
    case Connects(_, _, state) => state.Open? || state.Connecting?
    case Opens(_, i) => i < |r.sockets| && r.sockets[i].state.Connecting?
    case Arrives(_, i, _) => i < |r.sockets| && r.sockets[i].state.Open?
    case Leaves(_, i) => i < |r.sockets|
    case Fails(_, i) => i < |r.sockets|
    case AlarmFires(_) => r.alarm.Some?
  }

  function Next(r: Room, e: Event): Effect
    requires CanHappen(r, e)
  {
    match e
    case Connects(now, request, state) => Connect(r, request, now, state)
    case Opens(_, i) => Effect(r.(sockets := r.sockets[i := r.sockets[i].(state := Open)]), [])
    case Arrives(now, i, m) => Receive(r, i, m, now)
    case Leaves(_, i) => Effect(r.(sockets := r.sockets[i := r.sockets[i].(state := Closed)]), [])
    case Fails(_, i) => Effect(Dropped(r, i), [])
    case AlarmFires(now) => FireAlarm(r, now)
  }

  // ---------------------------------------------------------------- the room object

  class SessionRoom {
    var sockets: seq<Socket>
    var alarm: Option<real>
    var sessionRequestTimestamps: seq<real>
    var outputs: seq<Output>

    function View(): Room
      reads this
    {
      Room(sockets, alarm, sessionRequestTimestamps)
    }

    ghost predicate Became(e: Effect, before: seq<Output>)
      reads this
    {
      View() == e.room && outputs == before + e.outputs
    }

    constructor ()
      ensures View() == Room([], None, []) && outputs == []
    {
      sockets, alarm, sessionRequestTimestamps, outputs := [], None, [], [];
    }

    method RoleTaken(role: Role) returns (taken: bool)
      ensures taken == HasRole(sockets, role)
    {
      for i := 0 to |sockets|
        invariant forall j :: 0 <= j < i ==> !Occupies(sockets[j], role)
      {
        if Occupies(sockets[i], role) {
          return true;
        }
      }
      return false;
    }

    method Find(role: Role) returns (found: Option<nat>)
      ensures found == FindSocket(sockets, role)
    {
      for i := 0 to |sockets|
        invariant FindSocket(sockets, role) == FindFrom(sockets, role, i)
      {
        if sockets[i].tag == Some(role) && sockets[i].state.Open? {
          return Some(i);
        }
      }
      return None;
    }

    /** Tells every live viewer why it is dropped, then closes it. */
    method EvictViewers()
      modifies this`sockets, this`outputs
      ensures sockets == Evicted(old(sockets)) && outputs == old(outputs) + EvictionNotices(old(sockets))
    {
      var all := sockets;
      for i := 0 to |all|
        invariant |sockets| == |all| && sockets[i..] == all[i..]
        invariant sockets[..i] == Evicted(all[..i])
        invariant outputs == old(outputs) + EvictionNotices(all[..i])
      {
        assert all[..i + 1][..i] == all[..i] && sockets[i] == sockets[i..][0] && sockets[i + 1..] == sockets[i..][1..];
        ghost var before := sockets;
        if Occupies(sockets[i], ViewerRole) {
          if sockets[i].stored {
            outputs := outputs + [ErrorTo(i, SessionReplaced)];
          }
          sockets := sockets[i := CloseSocket(sockets[i])];
        }
        assert sockets[..i + 1] == before[..i] + [sockets[i]];
      }
      assert all[..|all|] == all && sockets[..|all|] == sockets;
    }

    method Fetch(request: Request, now: real, state: SocketState) returns (response: Response)
      requires state.Open? || state.Connecting?
      modifies this
      ensures response == Answer(old(View()), request)
      ensures Became(Next(old(View()), Connects(now, request, state)), old(outputs))
    {
      hide Evicted, EvictionNotices, HasRole;
      if request.NotAnUpgrade? {
        return UpgradeRequired;
      }
      if request.NoContext? {
        return InvalidRoomContext;
      }
      var role, attachment := request.role, Attachment(request.role, request.sessionId, now);
      if role.AgentRole? {
        var online := RoleTaken(AgentRole);
        if online {
          return AgentAlreadyOnline;
        }
      } else {
        var taken := RoleTaken(ViewerRole);
        if taken {
          EvictViewers();
        }
        var agentOnline := RoleTaken(AgentRole);
        if !agentOnline {
          outputs := outputs + [ErrorTo(|sockets|, RoleAgentOffline)];
          sockets := sockets + [Socket(None, Closing, true, attachment)];
          return SwitchingProtocols;
        }
      }
      sockets := sockets + [Socket(Some(role), state, true, attachment)];
      if role.AgentRole? {
        alarm := Some(Deadline(now));
      }
      return SwitchingProtocols;
    }

    method Drop(i: nat)
      requires i < |sockets|
      modifies this`sockets
      ensures View() == Dropped(old(View()), i)
    {
      sockets := sockets[i := CloseSocket(sockets[i])];
    }

    method RejectMessage(i: nat, code: Code)
      requires i < |sockets|
      modifies this`sockets, this`outputs
      ensures Became(Reject(old(View()), i, code), old(outputs))
    {
      outputs := outputs + [ErrorTo(i, code)];
      Drop(i);
    }

    method WebSocketMessage(i: nat, m: Incoming, now: real)
      requires i < |sockets|
      modifies this
      ensures Became(Receive(old(View()), i, m, now), old(outputs))
    {
      if !sockets[i].stored {
        Drop(i);
        return;
      }
      var attachment := sockets[i].attachment;
      if !m.Valid? {
        RejectMessage(i, Refusal(m));
        return;
      }
      var sessionIdRejected := attachment.role.ViewerRole? && m.sessionId != attachment.sessionId;
      if sessionIdRejected || !IsAllowed(attachment.role, m.kind) {
        RejectMessage(i, MessageNotAllowed);
        return;
      }
      sockets := sockets[i := sockets[i].(attachment := attachment.(lastSeenAt := now))];
      if m.kind.AgentHeartbeat? {
        alarm := Some(Deadline(now));
        return;
      }
      if m.kind.SessionRequest? {
        var decision := W.EvaluateRateLimit(sessionRequestTimestamps, now, REQUEST_LIMIT, REQUEST_WINDOW_MS);
        sessionRequestTimestamps := decision.timestamps;
        if !decision.allowed {
          RejectMessage(i, RateLimited);
          return;
        }
      }
      var peer := Find(Opposite(attachment.role));
      if peer.None? {
        if !StartsWithAgent(m.kind) {
          outputs := outputs + [ErrorTo(i, PeerOffline)];
        }
        return;
      }
      outputs := outputs + [Forwarded(i, peer.value, m.kind, m.sessionId)];
    }

    method Alarm(now: real)
      requires alarm.Some?
      modifies this
      ensures Became(FireAlarm(old(View()), now), old(outputs))
    {
      alarm := None;
      var agent := Find(AgentRole);
      if agent.None? {
        return;
      }
      if !sockets[agent.value].stored {
        Drop(agent.value);
        return;
      }
      var attachment := sockets[agent.value].attachment;
      if now - attachment.lastSeenAt >= AGENT_HEARTBEAT_TIMEOUT_MS {
        Drop(agent.value);
        return;
      }
      alarm := Some(Deadline(attachment.lastSeenAt));
    }
  }
}
