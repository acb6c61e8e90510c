/** The OpenClaw client: which requests and connect promises are open, and what settles them. */
module RpcClient {
  import opened Text

  type Id = string
  type Timer = nat

  datatype Callback = RpcTimeout(id: Id) | HandshakeTimeout
  datatype Settlement = Resolved(payload: string) | Rejected(message: string) | TimedOut | SendFailed | ConnectionClosed | ClientClosed

  // What each request's caller was told, in order.
  type Log = map<Id, seq<Settlement>>

  function Told(log: Log, id: Id): seq<Settlement> {
    if id in log then log[id] else []
  }

  function Tell(log: Log, id: Id, how: Settlement): Log {
    log[id := Told(log, id) + [how]]
  }

  function TellAll(log: Log, ids: set<Id>, how: Settlement): Log {
    map id | id in log.Keys + ids :: if id in ids then Told(log, id) + [how] else log[id]
  }

  datatype ErrorCode = Unreachable | HandshakeTimedOut | InvalidResponse | Refused(message: string)
  datatype ConnectOutcome = Hello(payload: string) | Failed(code: ErrorCode)
  datatype Connected = Connected(promise: nat, how: ConnectOutcome)

  // `live` holds the armed timers, `slot` the connect promise that can still settle, `signing` the
  // signatures being computed; `issued`, `settled` and `outcomes` are history.
  datatype State = State(ws: bool, pending: map<Id, Timer>, live: map<Timer, Callback>, handshakeTimer: Option<Timer>,
                         slot: Option<nat>, connectRequestId: Option<Id>, challengeNonce: Option<string>, connected: bool,
                         closed: bool, promises: nat, signing: nat,
                         issued: set<Id>, settled: Log, outcomes: seq<Connected>)

  const FRESH := State(false, map[], map[], None, None, None, None, false, false, 0, 0, {}, map[], [])

  // A parsed frame; `null` throws when its type is read.
  datatype WireFrame =
    | NullFrame
    | Challenge(nonce: string)
    | OtherEvent
    | Res(id: Option<Id>, ok: bool, payload: string, error: Option<string>)
    | OtherFrame

  datatype Event =
    | Connect(constructed: bool)
    | SocketOpen(timer: Timer)
    | Message(frame: WireFrame)
    | NonJson
    | SocketClosed
    | SocketError
    | Fire(timer: Timer)
    | Signed(id: Id, sent: bool)
    | Send(id: Id, timer: Timer, sent: bool)
    | Close

  // ---- the private helpers -----------------------------------------------------

  function ClearHandshakeTimer(s: State): State {
    match s.handshakeTimer
    case None => s
    case Some(t) => s.(live := s.live - {t}, handshakeTimer := None)
  }

  function RejectConnect(s: State, code: ErrorCode): State {
    var c := ClearHandshakeTimer(s);
    match s.slot
    case None => c
    case Some(p) => c.(slot := None, outcomes := c.outcomes + [Connected(p, Failed(code))])
  }

  function FinishHandshake(s: State, payload: string): State {
    var c := ClearHandshakeTimer(s).(connected := true);
    match s.slot
    case None => c
    case Some(p) => c.(slot := None, outcomes := c.outcomes + [Connected(p, Hello(payload))])
  }

  function RejectAllPending(s: State, how: Settlement): State {
    s.(settled := TellAll(s.settled, s.pending.Keys, how),
       live := s.live - s.pending.Values, pending := map[])
  }

  function Settle(s: State, id: Id, how: Settlement): State
    requires id in s.pending
  {
    s.(live := s.live - {s.pending[id]}, pending := s.pending - {id}, settled := Tell(s.settled, id, how))
  }

  // A refusal is logged before the promise is rejected, and logging throws when the frame carries no error.
  function HandleFrame(s: State, frame: WireFrame): State {
    match frame
    case Challenge(nonce) =>
      if Trim(nonce) == "" then RejectConnect(s, InvalidResponse)
      else s.(challengeNonce := Some(Trim(nonce)), signing := if s.ws then s.signing + 1 else s.signing)
    case Res(id, ok, payload, error) =>
      if id.None? || id.value == "" then s
      else if id == s.connectRequestId then
        var c := s.(connectRequestId := None);
        if ok then FinishHandshake(c, payload)
        else if error.None? then c
        else RejectConnect(c, Refused(error.value))
      else if id.value !in s.pending then s
      else Settle(s, id.value, if ok then Resolved(payload) else Rejected(if error.Some? then error.value else "RPC error"))
    case _ => s
  }

  // ---- events ------------------------------------------------------------------

  // Ids and timer handles are new; timers fire only while armed.
  ghost predicate Enabled(s: State, e: Event) {
    match e
    case SocketOpen(t) => t !in s.live
    case Fire(t) => t in s.live
    case Signed(_, _) => s.signing > 0
    case Send(id, t, _) => id !in s.issued && t !in s.live
    case _ => true
  }

  function Apply(s: State, e: Event): State
    requires Enabled(s, e)
  {
    match e
    case Connect(constructed) =>
      var c := s.(slot := Some(s.promises), promises := s.promises + 1);
      if constructed then c.(ws := true) else RejectConnect(c, Unreachable)
    case SocketOpen(t) => s.(handshakeTimer := Some(t), live := s.live[t := HandshakeTimeout])
    case Message(frame) => HandleFrame(s, frame)
    case NonJson => if s.connected then s else RejectConnect(s, InvalidResponse)
    case SocketClosed =>
      var c := RejectAllPending(ClearHandshakeTimer(s), ConnectionClosed);
      (if s.connected then c else RejectConnect(c, Unreachable)).(ws := false)
    case SocketError => if s.connected then s else RejectConnect(s, Unreachable)
    case Fire(t) =>
      var c := s.(live := s.live - {t});
      (match s.live[t]
       case RpcTimeout(id) => c.(pending := s.pending - {id}, settled := Tell(s.settled, id, TimedOut))
       case HandshakeTimeout => RejectConnect(c, HandshakeTimedOut))
    case Signed(id, sent) =>
      var c := s.(signing := s.signing - 1, connectRequestId := Some(id));
      if s.ws && sent then c else RejectConnect(c, Unreachable)
    case Send(id, t, sent) =>
      if !s.connected || !s.ws then s
      else
        var c := s.(issued := s.issued + {id});
        if sent then c.(pending := s.pending[id := t], live := s.live[t := RpcTimeout(id)])
        else c.(settled := Tell(s.settled, id, SendFailed))
    case Close =>
      if s.closed then s
      else RejectAllPending(ClearHandshakeTimer(s.(closed := true)), ClientClosed).(ws := false)
  }

  ghost function Execute(events: seq<Event>): State {
    if events == [] then FRESH
    else
      var s := Execute(events[..|events| - 1]);
      if Enabled(s, events[|events| - 1]) then Apply(s, events[|events| - 1]) else s
  }

  // ---- what every run keeps ----------------------------------------------------

  // Every pending request has its own armed timer, and every armed request timer a pending request.
  ghost predicate Timed(s: State) {
    && (forall id | id in s.pending :: s.pending[id] in s.live && s.live[s.pending[id]] == RpcTimeout(id))
    && (forall t | t in s.live && s.live[t].RpcTimeout? :: s.live[t].id in s.pending && s.pending[s.live[t].id] == t)
    && (s.handshakeTimer.Some? ==> s.handshakeTimer.value in s.live && s.live[s.handshakeTimer.value] == HandshakeTimeout)
  }

  // Issued requests are the pending ones and the settled ones, and none was settled twice.
  ghost predicate SettledOnce(s: State) {
    && (forall id :: id in s.issued <==> id in s.pending || id in s.settled)
    && (forall id | id in s.settled :: id !in s.pending && |s.settled[id]| == 1)
  }

  ghost predicate ConnectsOnce(s: State) {
    && (s.slot.Some? ==> s.slot.value < s.promises && forall k | 0 <= k < |s.outcomes| :: s.outcomes[k].promise != s.slot.value)
    && (forall k | 0 <= k < |s.outcomes| :: s.outcomes[k].promise < s.promises)
    && (forall j, k | 0 <= j < k < |s.outcomes| :: s.outcomes[j].promise != s.outcomes[k].promise)
  }

  ghost predicate Inv(s: State) {
    Timed(s) && SettledOnce(s) && ConnectsOnce(s) && (!s.ws ==> s.pending == map[])
  }

  // The parts of the state each invariant looks at.
  predicate SameRequests(s: State, d: State) {
    d.pending == s.pending && d.issued == s.issued && d.settled == s.settled
  }

  predicate SameConnects(s: State, d: State) {
    d.slot == s.slot && d.promises == s.promises && d.outcomes == s.outcomes
  }

  lemma ClearKeeps(s: State)
    requires Timed(s)
    ensures var d := ClearHandshakeTimer(s);
            Timed(d) && SameRequests(s, d) && SameConnects(s, d) && d.ws == s.ws && d.handshakeTimer == None
  {
  }

  lemma RejectConnectKeeps(s: State, code: ErrorCode)
    requires Timed(s) && ConnectsOnce(s)
    ensures var d := RejectConnect(s, code);
            Timed(d) && ConnectsOnce(d) && SameRequests(s, d) && d.ws == s.ws && d.slot == None
  {
    ClearKeeps(s);
    hide ClearHandshakeTimer;
  }

  lemma FinishKeeps(s: State, payload: string)
    requires Timed(s) && ConnectsOnce(s)
    ensures var d := FinishHandshake(s, payload);
            Timed(d) && ConnectsOnce(d) && SameRequests(s, d) && d.ws == s.ws && d.slot == None && d.connected
  {
    ClearKeeps(s);
    hide ClearHandshakeTimer;
  }

  lemma RejectAllKeeps(s: State, how: Settlement)
    requires Timed(s) && SettledOnce(s)
    ensures var d := RejectAllPending(s, how);
            && Timed(d) && SettledOnce(d) && SameConnects(s, d) && d.ws == s.ws && d.pending == map[]
            && d.issued == s.issued
  {
    RejectAllTimed(s, how);
    RejectAllSettled(s, how);
    hide Timed, SettledOnce;
  }

  lemma RejectAllTimed(s: State, how: Settlement)
    requires Timed(s)
    ensures Timed(RejectAllPending(s, how))
  {
    var d := RejectAllPending(s, how);
    forall t | t in d.live ensures !d.live[t].RpcTimeout? {
      assert t in s.live;
    }
  }

  lemma RejectAllSettled(s: State, how: Settlement)
    requires SettledOnce(s)
    ensures SettledOnce(RejectAllPending(s, how))
  {
    hide Told;
    NothingTold(s);
  }

  lemma NothingTold(s: State)
    ensures forall id | id !in s.settled :: Told(s.settled, id) == []
  {
  }

  lemma SettleKeeps(s: State, id: Id, how: Settlement)
    requires Timed(s) && SettledOnce(s) && id in s.pending
    ensures var d := Settle(s, id, how);
            && Timed(d) && SettledOnce(d) && SameConnects(s, d) && d.ws == s.ws && d.issued == s.issued
            && d.pending == s.pending - {id} && d.settled == Tell(s.settled, id, how)
  {
    var d := Settle(s, id, how);
    AddSettled(s, d, id, how);
  }

  lemma AddSettled(s: State, d: State, id: Id, how: Settlement)
    requires SettledOnce(s) && d.settled == Tell(s.settled, id, how) && d.pending == s.pending - {id}
    requires id in s.pending || id !in s.issued
    requires d.issued == s.issued + {id}
    ensures SettledOnce(d)
  {
  }

  lemma FrameKeeps(s: State, frame: WireFrame)
    requires Inv(s)
    ensures Inv(HandleFrame(s, frame))
  {
    hide ClearHandshakeTimer, RejectConnect, FinishHandshake, Settle, Timed, SettledOnce, ConnectsOnce, Trim;
    match frame {
      case Challenge(nonce) =>
        RejectConnectKeeps(s, InvalidResponse);
        SameParts(s, HandleFrame(s, frame));
      case Res(id, ok, payload, error) =>
        if id.Some? && id.value != "" {
          if id == s.connectRequestId {
            var c := s.(connectRequestId := None);
            SameParts(s, c);
            FinishKeeps(c, payload);
            if error.Some? { RejectConnectKeeps(c, Refused(error.value)); }
            SameParts(c, HandleFrame(s, frame));
          } else if id.value in s.pending {
            var how := if ok then Resolved(payload) else Rejected(if error.Some? then error.value else "RPC error");
            SettleKeeps(s, id.value, how);
            SameParts(s, HandleFrame(s, frame));
          }
        }
      case _ =>
    }
  }

  // Each invariant looks at its own part of the state only.
  lemma SameParts(s: State, d: State)
    ensures SameRequests(s, d) && SettledOnce(s) ==> SettledOnce(d)
    ensures SameConnects(s, d) && ConnectsOnce(s) ==> ConnectsOnce(d)
    ensures Timed(s) && d.pending == s.pending && d.live == s.live && d.handshakeTimer == s.handshakeTimer ==> Timed(d)
  {
  }

  lemma ApplyKeeps(s: State, e: Event)
    requires Inv(s) && Enabled(s, e)
    ensures Inv(Apply(s, e))
  {
    hide Inv, RejectConnect, HandleFrame, ClearHandshakeTimer, RejectAllPending;
    match e {
      case Connect(constructed) => ConnectKeeps(s);
      case SocketOpen(t) => OpenKeeps(s, t);
      case Message(frame) => FrameKeeps(s, frame);
      case NonJson => RefuseKeeps(s, InvalidResponse);
      case SocketError => RefuseKeeps(s, Unreachable);
      case SocketClosed => ClosedKeeps(s);
      case Fire(t) => FireKeeps(s, t);
      case Signed(id, sent) => SignedKeeps(s, id);
      case Send(id, t, sent) =>
        if s.connected && s.ws {
          SentKeeps(s, id, t);
          NotSentKeeps(s, id);
        }
      case Close => CloseKeeps(s);
    }
  }

  lemma RefuseKeeps(s: State, code: ErrorCode)
    requires Inv(s)
    ensures Inv(RejectConnect(s, code))
  {
    RejectConnectKeeps(s, code);
    SameParts(s, RejectConnect(s, code));
    hide RejectConnect, Timed, SettledOnce, ConnectsOnce;
  }

  lemma ConnectKeeps(s: State)
    requires Inv(s)
    ensures var c := s.(slot := Some(s.promises), promises := s.promises + 1);
            Inv(c.(ws := true)) && Inv(RejectConnect(c, Unreachable))
  {
    var c := s.(slot := Some(s.promises), promises := s.promises + 1);
    assert ConnectsOnce(c);
    SameParts(s, c);
    SameParts(c, c.(ws := true));
    hide RejectConnect, Timed, SettledOnce, ConnectsOnce;
    RefuseKeeps(c, Unreachable);
  }

  lemma OpenKeeps(s: State, t: Timer)
    requires Inv(s) && t !in s.live
    ensures Inv(s.(handshakeTimer := Some(t), live := s.live[t := HandshakeTimeout]))
  {
    var d := s.(handshakeTimer := Some(t), live := s.live[t := HandshakeTimeout]);
    hide Timed, SettledOnce, ConnectsOnce;
    SameParts(s, d);
    ArmedHandshake(s, d, t);
  }

  lemma ArmedHandshake(s: State, d: State, t: Timer)
    requires Timed(s) && t !in s.live && d.pending == s.pending
    requires d.handshakeTimer == Some(t) && d.live == s.live[t := HandshakeTimeout]
    ensures Timed(d)
  {
  }

  lemma SignedKeeps(s: State, id: Id)
    requires Inv(s) && s.signing > 0
    ensures var c := s.(signing := s.signing - 1, connectRequestId := Some(id));
            Inv(c) && Inv(RejectConnect(c, Unreachable))
  {
    var c := s.(signing := s.signing - 1, connectRequestId := Some(id));
    SameParts(s, c);
    hide RejectConnect, Timed, SettledOnce, ConnectsOnce;
    RefuseKeeps(c, Unreachable);
  }

  lemma CloseKeeps(s: State)
    requires Inv(s)
    ensures Inv(Apply(s, Close))
  {
    hide ClearHandshakeTimer, RejectAllPending, Timed, SettledOnce, ConnectsOnce;
    var c := s.(closed := true);
    SameParts(s, c);
    ClearKeeps(c);
    var k := ClearHandshakeTimer(c);
    SameParts(c, k);
    RejectAllKeeps(k, ClientClosed);
    var r := RejectAllPending(k, ClientClosed);
    SameParts(k, r);
    SameParts(r, r.(ws := false));
  }

  lemma ClosedKeeps(s: State)
    requires Inv(s)
    ensures Inv(Apply(s, SocketClosed))
  {
    hide ClearHandshakeTimer, RejectConnect, RejectAllPending, Timed, SettledOnce, ConnectsOnce;
    ClearKeeps(s);
    var c := ClearHandshakeTimer(s);
    SameParts(s, c);
    RejectAllKeeps(c, ConnectionClosed);
    var r := RejectAllPending(c, ConnectionClosed);
    SameParts(c, r);
    RejectConnectKeeps(r, Unreachable);
    var q := if s.connected then r else RejectConnect(r, Unreachable);
    SameParts(r, q);
    SameParts(q, q.(ws := false));
  }

  lemma FireKeeps(s: State, t: Timer)
    requires Inv(s) && t in s.live
    ensures Inv(Apply(s, Fire(t)))
  {
    hide Inv, RejectConnect;
    match s.live[t] {
      case RpcTimeout(id) => FiredRequest(s, t, id);
      case HandshakeTimeout => FiredHandshake(s, t);
    }
  }

  lemma FiredRequest(s: State, t: Timer, id: Id)
    requires Inv(s) && t in s.live && s.live[t] == RpcTimeout(id)
    ensures Inv(s.(live := s.live - {t}, pending := s.pending - {id}, settled := Tell(s.settled, id, TimedOut)))
  {
    assert id in s.pending && s.pending[id] == t;
    SettleKeeps(s, id, TimedOut);
    hide Timed, SettledOnce;
    SameParts(s, Settle(s, id, TimedOut));
  }

  lemma FiredHandshake(s: State, t: Timer)
    requires Inv(s) && t in s.live && s.live[t] == HandshakeTimeout
    ensures Inv(RejectConnect(s.(live := s.live - {t}), HandshakeTimedOut))
  {
    var c := s.(live := s.live - {t});
    var d := RejectConnect(c, HandshakeTimedOut);
    SameParts(s, c);
    RejectedTimed(s, t);
    RejectedOnce(c, HandshakeTimedOut);
    RejectLeaves(c, HandshakeTimedOut);
    SameParts(c, d);
    hide Timed, SettledOnce, ConnectsOnce, RejectConnect;
  }

  // The handshake timer that fired is the tracked one, or an older one that nothing tracks any more.
  lemma RejectedTimed(s: State, t: Timer)
    requires Timed(s) && t in s.live && s.live[t] == HandshakeTimeout
    ensures Timed(RejectConnect(s.(live := s.live - {t}), HandshakeTimedOut))
  {
    var d := RejectConnect(s.(live := s.live - {t}), HandshakeTimedOut);
    var gone := {t} + if s.handshakeTimer.Some? then {s.handshakeTimer.value} else {};
    assert d.pending == s.pending && d.handshakeTimer == None && d.live == s.live - gone;
    hide RejectConnect;
  }

  lemma RejectedOnce(s: State, code: ErrorCode)
    requires ConnectsOnce(s)
    ensures ConnectsOnce(RejectConnect(s, code))
  {
  }

  lemma SentRequest(s: State, d: State, id: Id, t: Timer)
    requires SettledOnce(s) && id !in s.issued
    requires d.issued == s.issued + {id} && d.pending == s.pending[id := t] && d.settled == s.settled
    ensures SettledOnce(d) && id !in s.pending
  {
  }

  lemma ArmedRequest(s: State, d: State, id: Id, t: Timer)
    requires Timed(s) && id !in s.pending && t !in s.live && d.handshakeTimer == s.handshakeTimer
    requires d.pending == s.pending[id := t] && d.live == s.live[t := RpcTimeout(id)]
    ensures Timed(d)
  {
  }

  lemma SentKeeps(s: State, id: Id, t: Timer)
    requires Inv(s) && id !in s.issued && t !in s.live && s.ws
    ensures Inv(s.(issued := s.issued + {id}, pending := s.pending[id := t], live := s.live[t := RpcTimeout(id)]))
  {
    hide Timed, SettledOnce, ConnectsOnce;
    var d := s.(issued := s.issued + {id}, pending := s.pending[id := t], live := s.live[t := RpcTimeout(id)]);
    SameParts(s, d);
    SentRequest(s, d, id, t);
    ArmedRequest(s, d, id, t);
  }

  lemma NotSentKeeps(s: State, id: Id)
    requires Inv(s) && id !in s.issued
    ensures Inv(s.(issued := s.issued + {id}, settled := Tell(s.settled, id, SendFailed)))
  {
    var d := s.(issued := s.issued + {id}, settled := Tell(s.settled, id, SendFailed));
    SameParts(s, d);
    assert s.pending - {id} == s.pending by {
      hide Timed, ConnectsOnce;
    }
    AddSettled(s, d, id, SendFailed);
    hide Timed, SettledOnce, ConnectsOnce;
  }

  lemma {:induction false} ExecuteKeeps(events: seq<Event>)
    ensures Inv(Execute(events))
  {
    if events != [] {
      ExecuteKeeps(events[..|events| - 1]);
      var s := Execute(events[..|events| - 1]);
      hide Inv, Apply, Enabled;
      if Enabled(s, events[|events| - 1]) {
        ApplyKeeps(s, events[|events| - 1]);
      }
    }
  }

  // ---- the laws, for every sequence of events ----------------------------------

  /** Issued requests split into pending and settled ones; none settles twice, each pending one has its own armed timer. */
  lemma RequestsSettleOnce(events: seq<Event>)
    ensures var s := Execute(events);
            && (forall id :: id in s.issued <==> id in s.pending || id in s.settled)
            && (forall id | id in s.settled :: id !in s.pending && |s.settled[id]| == 1)
            && (forall id | id in s.pending :: s.pending[id] in s.live && s.live[s.pending[id]] == RpcTimeout(id))
            && (forall t | t in s.live && s.live[t].RpcTimeout? :: s.live[t].id in s.pending && s.pending[s.live[t].id] == t)
  {
    ExecuteKeeps(events);
    hide Execute;
  }

  /** No connect promise settles twice. */
  lemma ConnectSettlesAtMostOnce(events: seq<Event>)
    ensures var s := Execute(events);
            && (forall j, k | 0 <= j < k < |s.outcomes| :: s.outcomes[j].promise != s.outcomes[k].promise)
            && (s.slot.Some? ==> forall k | 0 <= k < |s.outcomes| :: s.outcomes[k].promise != s.slot.value)
  {
    ExecuteKeeps(events);
    hide Execute;
  }

  lemma OnlyConnectOpens(s: State, e: Event)
    requires Enabled(s, e) && !e.Connect? && !s.ws
    ensures !Apply(s, e).ws
  {
    forall c, code ensures RejectConnect(c, code).ws == c.ws && SameRequests(c, RejectConnect(c, code)) {
      RejectLeaves(c, code);
    }
    if e.Message? {
      FrameLeaves(s, e.frame);
    }
    hide RejectConnect, HandleFrame, RejectAllPending, ClearHandshakeTimer;
  }

  lemma RejectLeaves(s: State, code: ErrorCode)
    ensures var d := RejectConnect(s, code); d.ws == s.ws && SameRequests(s, d)
  {
    ClearLeaves(s);
    hide ClearHandshakeTimer;
  }

  lemma FinishLeaves(s: State, payload: string)
    ensures var d := FinishHandshake(s, payload); d.ws == s.ws && SameRequests(s, d)
  {
    ClearLeaves(s);
    hide ClearHandshakeTimer;
  }

  // A frame opens no socket, and settles only what it answers.
  lemma FrameLeaves(s: State, frame: WireFrame)
    ensures HandleFrame(s, frame).ws == s.ws
    ensures forall id, how | how in Told(HandleFrame(s, frame).settled, id) && how !in Told(s.settled, id) ::
              Answers(Message(frame), id, how)
  {
    forall c, code ensures RejectConnect(c, code).ws == c.ws && SameRequests(c, RejectConnect(c, code)) {
      RejectLeaves(c, code);
    }
    forall c, payload ensures FinishHandshake(c, payload).ws == c.ws && SameRequests(c, FinishHandshake(c, payload)) {
      FinishLeaves(c, payload);
    }
    hide RejectConnect, FinishHandshake, Trim;
  }

  lemma {:induction false} ExecuteSplit(a: seq<Event>, b: seq<Event>)
    requires !Execute(a).ws && forall e | e in b :: !e.Connect?
    ensures !Execute(a + b).ws
    decreases |b|
  {
    if b == [] {
      assert a + b == a;
    } else {
      var init, last := b[..|b| - 1], b[|b| - 1];
      ExecuteSplit(a, init);
      assert (a + b)[..|a + b| - 1] == a + init && (a + b)[|a + b| - 1] == last && last in b;
      var s := Execute(a + init);
      if Enabled(s, last) {
        OnlyConnectOpens(s, last);
      }
    }
  }

  /** After a first close, or a lost connection, nothing is pending until somebody connects again. */
  lemma NothingPendingAfterClose(a: seq<Event>, last: Event, b: seq<Event>)
    requires last == SocketClosed || (last == Close && !Execute(a).closed)
    requires forall e | e in b :: !e.Connect?
    ensures Execute(a + [last] + b).pending == map[]
  {
    ExecuteSnoc(a, last);
    assert !Execute(a + [last]).ws;
    hide Execute, Apply;
    ExecuteSplit(a + [last], b);
    ExecuteKeeps(a + [last] + b);
  }

  lemma ExecuteSnoc(a: seq<Event>, e: Event)
    ensures Execute(a + [e]) == if Enabled(Execute(a), e) then Apply(Execute(a), e) else Execute(a)
  {
    assert (a + [e])[..|a|] == a;
    hide Apply, Enabled;
  }

  // The response frame that settles a request this way.
  ghost predicate Answers(e: Event, id: Id, how: Settlement) {
    && e.Message? && e.frame.Res? && e.frame.id == Some(id)
    && how == if e.frame.ok then Resolved(e.frame.payload)
              else Rejected(if e.frame.error.Some? then e.frame.error.value else "RPC error")
  }

  lemma NewlySettled(s: State, e: Event, id: Id, how: Settlement)
    requires Enabled(s, e) && (how.Resolved? || how.Rejected?)
    requires how in Told(Apply(s, e).settled, id) && how !in Told(s.settled, id)
    ensures Answers(e, id, how)
  {
    if e.Message? {
      FrameLeaves(s, e.frame);
      hide HandleFrame;
    } else {
      OthersTell(s, e);
      hide Apply;
      if e.SocketClosed? || e.Close? {
        ToldAll(s.settled, s.pending.Keys, if e.Close? then ClientClosed else ConnectionClosed, id, how);
      } else if e.Fire? && s.live[e.timer].RpcTimeout? {
        ToldOne(s.settled, s.live[e.timer].id, TimedOut, id, how);
      } else if e.Send? {
        ToldOne(s.settled, e.id, SendFailed, id, how);
      }
      hide TellAll, Tell, Told;
    }
  }

  // What events other than frames tell the callers.
  lemma OthersTell(s: State, e: Event)
    requires Enabled(s, e) && !e.Message?
    ensures var log := Apply(s, e).settled;
            match e
            case SocketClosed => log == TellAll(s.settled, s.pending.Keys, ConnectionClosed)
            case Close => log == s.settled || log == TellAll(s.settled, s.pending.Keys, ClientClosed)
            case Fire(t) => log == (if s.live[t].RpcTimeout? then Tell(s.settled, s.live[t].id, TimedOut) else s.settled)
            case Send(id, _, _) => log == s.settled || log == Tell(s.settled, id, SendFailed)
            case _ => log == s.settled
  {
    forall c, code ensures SameRequests(c, RejectConnect(c, code)) {
      RejectLeaves(c, code);
    }
    forall c ensures SameRequests(c, ClearHandshakeTimer(c)) {
      ClearLeaves(c);
    }
    hide RejectConnect, ClearHandshakeTimer, TellAll, Tell;
  }

  lemma ToldAll(log: Log, ids: set<Id>, h: Settlement, id: Id, how: Settlement)
    ensures how in Told(TellAll(log, ids, h), id) ==> how in Told(log, id) || how == h
  {
  }

  lemma ToldOne(log: Log, other: Id, h: Settlement, id: Id, how: Settlement)
    ensures how in Told(Tell(log, other, h), id) ==> how in Told(log, id) || how == h
  {
  }

  lemma ClearLeaves(s: State)
    ensures var d := ClearHandshakeTimer(s); d.ws == s.ws && d.slot == s.slot && SameRequests(s, d)
  {
  }

  /** Every answer a caller gets was sent by the gateway for that very request. */
  lemma {:induction false} AnswersComeFromTheWire(events: seq<Event>, id: Id, how: Settlement)
    requires how in Told(Execute(events).settled, id) && (how.Resolved? || how.Rejected?)
    ensures exists k :: 0 <= k < |events| && Answers(events[k], id, how)
  {
    hide Apply, Enabled, Answers;
    var n := |events| - 1;
    var s := Execute(events[..n]);
    if how in Told(s.settled, id) {
      AnswersComeFromTheWire(events[..n], id, how);
      var k :| 0 <= k < n && Answers(events[..n][k], id, how);
      assert Answers(events[k], id, how);
    } else {
      NewlySettled(s, events[n], id, how);
    }
  }

  // ---- where a promise is left open --------------------------------------------

  /** A lost connection settles an open connect promise exactly if this client never completed a handshake. */
  lemma LossSettlesConnectIff(s: State)
    requires s.slot.Some?
    ensures Apply(s, SocketClosed).slot.None? <==> !s.connected
  {
  }

  /** A refused handshake settles the promise exactly if the refusal carries an error. */
  lemma RefusalSettlesConnectIff(s: State, id: Id, payload: string, error: Option<string>)
    requires s.slot.Some? && s.connectRequestId == Some(id) && id != ""
    ensures Apply(s, Message(Res(Some(id), false, payload, error))).slot.None? <==> error.Some?
  {
  }

  /** Closing empties the pending map exactly if it is the first close or nothing was pending. */
  lemma CloseEmptiesIff(s: State)
    ensures Apply(s, Close).pending == map[] <==> !s.closed || s.pending == map[]
  {
  }

  // A completed handshake on a fresh client.
  function Handshake(): seq<Event> {
    [Connect(true), SocketOpen(0), Message(Challenge("nonce")), Signed("connect", true),
     Message(Res(Some("connect"), true, "hello", None))]
  }

  // One more event of a run whose state is known.
  lemma Leads(events: seq<Event>, s: State, e: Event, d: State)
    requires Execute(events) == s && Enabled(s, e) && Apply(s, e) == d
    ensures Execute(events + [e]) == d
  {
    hide Apply, Enabled;
    ExecuteSnoc(events, e);
  }

  const READY := FRESH.(ws := true, challengeNonce := Some("nonce"), connected := true, promises := 1,
                        outcomes := [Connected(0, Hello("hello"))])

  lemma HandshakeCompletes()
    ensures Execute(Handshake()) == READY
  {
    var h := Handshake();
    var s4 := HandshakeBegins(h[0], h[1], h[2], h[3]);
    HandshakeEnds(s4);
    Leads([h[0], h[1], h[2], h[3]], s4, h[4], READY);
    hide Execute;
    assert [h[0], h[1], h[2], h[3]] + [h[4]] == h;
  }

  lemma HandshakeBegins(connect: Event, open: Event, challenge: Event, signed: Event) returns (s4: State)
    requires connect == Connect(true) && open == SocketOpen(0)
    requires challenge == Message(Challenge("nonce")) && signed == Signed("connect", true)
    ensures Execute([connect, open, challenge, signed]) == s4
    ensures s4 == FRESH.(ws := true, slot := Some(0), promises := 1, handshakeTimer := Some(0),
                         live := map[0 := HandshakeTimeout], challengeNonce := Some("nonce"), connectRequestId := Some("connect"))
  {
    assert Execute([]) == FRESH;
    hide Execute;
    var s1 := FRESH.(ws := true, slot := Some(0), promises := 1);
    var s2 := s1.(handshakeTimer := Some(0), live := map[0 := HandshakeTimeout]);
    var s3 := s2.(challengeNonce := Some("nonce"), signing := 1);
    assert Apply(FRESH, connect) == s1;
    assert Apply(s1, open) == s2;
    s4 := HandshakeSigns(s1, s2, challenge, signed);
    hide Apply;
    assert [] + [connect] == [connect] && [connect] + [open] == [connect, open];
    assert [connect, open] + [challenge] == [connect, open, challenge];
    assert [connect, open, challenge] + [signed] == [connect, open, challenge, signed];
    Leads([], FRESH, connect, s1);
    Leads([connect], s1, open, s2);
    Leads([connect, open], s2, challenge, s3);
    Leads([connect, open, challenge], s3, signed, s4);
  }

  lemma HandshakeSigns(s1: State, s2: State, challenge: Event, signed: Event) returns (s4: State)
    requires s1 == FRESH.(ws := true, slot := Some(0), promises := 1)
    requires s2 == s1.(handshakeTimer := Some(0), live := map[0 := HandshakeTimeout])
    requires challenge == Message(Challenge("nonce")) && signed == Signed("connect", true)
    ensures var s3 := s2.(challengeNonce := Some("nonce"), signing := 1);
            Apply(s2, challenge) == s3 && Enabled(s3, signed) && Apply(s3, signed) == s4
    ensures s4 == s2.(challengeNonce := Some("nonce"), connectRequestId := Some("connect"))
  {
    assert Trim("nonce") == "nonce";
    hide Trim;
    s4 := s2.(challengeNonce := Some("nonce"), connectRequestId := Some("connect"));
  }

  lemma HandshakeEnds(s4: State)
    requires s4 == FRESH.(ws := true, slot := Some(0), promises := 1, handshakeTimer := Some(0), live := map[0 := HandshakeTimeout],
                          challengeNonce := Some("nonce"), connectRequestId := Some("connect"))
    ensures Apply(s4, Message(Res(Some("connect"), true, "hello", None))) == READY
  {
    assert map[0 := HandshakeTimeout] - {0} == map[];
  }

  /** A client used again after a close keeps requests pending through its second close; its second connect can hang. */
  lemma SecondUseLeaks()
    ensures Execute(Handshake() + [Close] + [Connect(true)] + [Send("r", 1, true)] + [Close]).pending.Keys == {"r"}
    ensures Execute(Handshake() + [SocketClosed] + [Connect(true)] + [SocketClosed]).slot == Some(1)
  {
    HandshakeCompletes();
    var h := Handshake();
    hide Handshake, Execute;
    var a := READY.(ws := false, closed := true);
    var b := a.(ws := true, slot := Some(1), promises := 2);
    var c := b.(issued := {"r"}, pending := map["r" := 1], live := map[1 := RpcTimeout("r")]);
    EmptyBulk(READY);
    EmptyBulk(READY.(closed := true));
    Leads(h, READY, Close, a);
    Leads(h + [Close], a, Connect(true), b);
    assert Apply(b, Send("r", 1, true)) == c;
    Leads(h + [Close] + [Connect(true)], b, Send("r", 1, true), c);
    Leads(h + [Close] + [Connect(true)] + [Send("r", 1, true)], c, Close, c);
    var d := READY.(ws := false);
    var e := d.(ws := true, slot := Some(1), promises := 2);
    EmptyBulk(e);
    Leads(h, READY, SocketClosed, d);
    Leads(h + [SocketClosed], d, Connect(true), e);
    Leads(h + [SocketClosed] + [Connect(true)], e, SocketClosed, e.(ws := false));
  }

  lemma EmptyBulk(s: State)
    requires s.pending == map[] && s.live == map[] && s.handshakeTimer == None
    ensures forall how :: RejectAllPending(ClearHandshakeTimer(s), how) == s
  {
    forall how ensures RejectAllPending(ClearHandshakeTimer(s), how) == s {
      assert TellAll(s.settled, {}, how) == s.settled;
    }
  }
}
