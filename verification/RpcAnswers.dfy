/** Which event ends a request or a connect promise of the OpenClaw client, and what its caller is told. */
module RpcAnswers {
  import opened Text
  import opened RpcClient

  // ---- requests ----------------------------------------------------------------

  // What the caller of a request is told because of this event, if the event ends it.
  function RequestEnding(s: State, e: Event, id: Id): Option<Settlement>
    requires Enabled(s, e)
  {
    match e
    case Message(Res(i, ok, payload, error)) =>
      if i != Some(id) || id == "" || s.connectRequestId == Some(id) || id !in s.pending then None
      else if ok then Some(Resolved(payload))
      else if error.Some? then Some(Rejected(error.value)) else Some(Rejected("RPC error"))
    case Fire(t) => if id in s.pending && s.pending[id] == t then Some(TimedOut) else None
    case SocketClosed => if id in s.pending then Some(ConnectionClosed) else None
    case Close => if id in s.pending && !s.closed then Some(ClientClosed) else None
    case Send(i, _, sent) => if i == id && s.connected && s.ws && !sent then Some(SendFailed) else None
    case _ => None
  }

  predicate Sends(s: State, e: Event, id: Id) {
    e.Send? && e.id == id && e.sent && s.connected && s.ws
  }

  function Said(how: Option<Settlement>): seq<Settlement> {
    match how case None => [] case Some(h) => [h]
  }

  // What an event means for one request.
  ghost predicate RequestStep(s: State, e: Event, d: State, id: Id)
    requires Enabled(s, e)
  {
    var how := RequestEnding(s, e, id);
    && Told(d.settled, id) == Told(s.settled, id) + Said(how)
    && (id in d.pending <==> Sends(s, e, id) || (id in s.pending && how.None?))
    && (id in s.pending && how.None? ==> d.pending[id] == s.pending[id])
    && (id in s.pending && how.Some? ==> s.pending[id] !in d.live)
    && (Sends(s, e, id) ==> d.pending[id] == e.timer && e.timer in d.live && d.live[e.timer] == RpcTimeout(id))
  }

  lemma PendingOnly(s: State, e: Event, id: Id)
    requires Inv(s) && Enabled(s, e) && e.Send? && id == e.id
    ensures id !in s.pending
  {
  }

  // Nothing happens to the requests.
  lemma Unended(s: State, e: Event, d: State, id: Id)
    requires Inv(s) && Enabled(s, e) && SameRequests(s, d) && RequestEnding(s, e, id).None? && !Sends(s, e, id)
    ensures RequestStep(s, e, d, id)
  {
    hide Inv;
    assert Told(s.settled, id) + [] == Told(s.settled, id);
  }

  // The frame answers the request `other`.
  lemma Answered(s: State, e: Event, d: State, other: Id, how: Settlement, id: Id)
    requires Inv(s) && Enabled(s, e) && other in s.pending && !e.Send? && d == Settle(s, other, how)
    requires RequestEnding(s, e, id) == if id == other then Some(how) else None
    ensures RequestStep(s, e, d, id)
  {
    assert Told(s.settled, id) + [] == Told(s.settled, id);
  }

  lemma FrameEnds(s: State, frame: WireFrame, id: Id)
    requires Inv(s)
    ensures RequestStep(s, Message(frame), HandleFrame(s, frame), id)
  {
    var e, d := Message(frame), HandleFrame(s, frame);
    if frame.Res? && frame.id.Some? && frame.id.value != "" && frame.id != s.connectRequestId && frame.id.value in s.pending {
      var how := if frame.ok then Resolved(frame.payload)
                 else Rejected(if frame.error.Some? then frame.error.value else "RPC error");
      assert d == Settle(s, frame.id.value, how);
      hide Inv, HandleFrame, Settle, RequestStep;
      Answered(s, e, d, frame.id.value, how, id);
    } else {
      FrameSettlesNothing(s, frame);
      hide Inv, HandleFrame, RequestStep;
      Unended(s, e, d, id);
    }
  }

  lemma FrameSettlesNothing(s: State, frame: WireFrame)
    requires !frame.Res? || frame.id.None? || frame.id.value == "" || frame.id == s.connectRequestId || frame.id.value !in s.pending
    ensures SameRequests(s, HandleFrame(s, frame))
  {
    var c := s.(connectRequestId := None);
    RejectLeaves(s, InvalidResponse);
    if frame.Res? {
      FinishLeaves(c, frame.payload);
      if frame.error.Some? { RejectLeaves(c, Refused(frame.error.value)); }
    }
    hide RejectConnect, FinishHandshake, Trim, Settle;
  }

  lemma FireEnds(s: State, t: Timer, id: Id)
    requires Inv(s) && Enabled(s, Fire(t))
    ensures RequestStep(s, Fire(t), Apply(s, Fire(t)), id)
  {
    forall c, code ensures SameRequests(c, RejectConnect(c, code)) {
      RejectLeaves(c, code);
    }
    assert Told(s.settled, id) + [] == Told(s.settled, id);
    hide RejectConnect;
  }

  lemma AllEnd(s: State, how: Settlement, id: Id)
    requires Inv(s)
    ensures var d := RejectAllPending(ClearHandshakeTimer(s), how);
            && Told(d.settled, id) == Told(s.settled, id) + (if id in s.pending then [how] else [])
            && d.pending == map[] && (id in s.pending ==> s.pending[id] !in d.live)
  {
    ClearLeaves(s);
    assert Told(s.settled, id) + [] == Told(s.settled, id);
    hide ClearHandshakeTimer;
  }

  lemma LossEnds(s: State, id: Id)
    requires Inv(s)
    ensures RequestStep(s, SocketClosed, Apply(s, SocketClosed), id)
  {
    AllEnd(s, ConnectionClosed, id);
    var c := RejectAllPending(ClearHandshakeTimer(s), ConnectionClosed);
    hide RejectAllPending, ClearHandshakeTimer, Inv;
    RejectLeaves(c, Unreachable);
    RejectOnlyDisarms(c, Unreachable);
    hide RejectConnect;
  }

  lemma RejectOnlyDisarms(s: State, code: ErrorCode)
    ensures RejectConnect(s, code).live.Keys <= s.live.Keys
  {
  }

  lemma CloseEnds(s: State, id: Id)
    requires Inv(s)
    ensures RequestStep(s, Close, Apply(s, Close), id)
  {
    var c := s.(closed := true);
    SameParts(s, c);
    hide RejectAllPending, ClearHandshakeTimer, RejectConnect;
    assert Told(s.settled, id) + [] == Told(s.settled, id);
    AllEnd(c, ClientClosed, id);
    hide Inv;
  }

  lemma SendEnds(s: State, e: Event, id: Id)
    requires Inv(s) && Enabled(s, e) && e.Send?
    ensures RequestStep(s, e, Apply(s, e), id)
  {
    assert Told(s.settled, id) + [] == Told(s.settled, id);
    assert e.id !in s.pending && e.id !in s.settled;
    assert forall x | x in s.pending :: s.pending[x] in s.live;
    hide Inv;
  }

  lemma OthersEndNothing(s: State, e: Event)
    requires Enabled(s, e) && (e.Connect? || e.SocketOpen? || e.NonJson? || e.SocketError? || e.Signed?)
    ensures SameRequests(s, Apply(s, e))
  {
    forall c, code ensures SameRequests(c, RejectConnect(c, code)) {
      RejectLeaves(c, code);
    }
    hide RejectConnect;
  }

  /**
   What any event means for any request: its caller is told just what ends it, it leaves the pending map with its timer
   disarmed, and every other request stays as it is.
   */
  lemma EventEndsRequest(s: State, e: Event, id: Id)
    requires Inv(s) && Enabled(s, e)
    ensures RequestStep(s, e, Apply(s, e), id)
  {
    hide Inv, RequestStep, Apply;
    if e.Message? {
      FrameEnds(s, e.frame, id);
      assert Apply(s, e) == HandleFrame(s, e.frame) by { MessageIsHandled(s, e); }
    } else if e.Fire? {
      FireEnds(s, e.timer, id);
    } else if e.SocketClosed? {
      LossEnds(s, id);
    } else if e.Close? {
      CloseEnds(s, id);
    } else if e.Send? {
      SendEnds(s, e, id);
    } else {
      OthersEndNothing(s, e);
      Unended(s, e, Apply(s, e), id);
    }
  }

  lemma MessageIsHandled(s: State, e: Event)
    requires e.Message?
    ensures Apply(s, e) == HandleFrame(s, e.frame)
  {
  }

  // ---- over whole runs ---------------------------------------------------------

  // Event k of a run ends the request this way.
  ghost predicate EndsAt(events: seq<Event>, k: nat, id: Id, how: Settlement) {
    && k < |events| && Enabled(Execute(events[..k]), events[k])
    && RequestEnding(Execute(events[..k]), events[k], id) == Some(how)
  }

  lemma EndsBefore(events: seq<Event>, k: nat, id: Id, how: Settlement)
    requires events != [] && k < |events| - 1
    ensures EndsAt(events, k, id, how) <==> EndsAt(events[..|events| - 1], k, id, how)
  {
    assert events[..|events| - 1][..k] == events[..k];
    hide Enabled, RequestEnding, Execute;
  }

  lemma LastTells(events: seq<Event>, id: Id, how: Settlement)
    requires events != []
    ensures var n := |events| - 1;
            how in Told(Execute(events).settled, id) <==> how in Told(Execute(events[..n]).settled, id) || EndsAt(events, n, id, how)
  {
    var n := |events| - 1;
    var s := Execute(events[..n]);
    ExecuteKeeps(events[..n]);
    hide Apply, Inv, Enabled, RequestEnding, Told;
    if Enabled(s, events[n]) {
      EventEndsRequest(s, events[n], id);
    }
  }

  /**
   In every run a caller is told something exactly if an event ended its request that way: an answer if such a frame
   came while it was pending, a timeout if its timer fired, and so on.
   */
  lemma {:induction false} ToldIffEnded(events: seq<Event>, id: Id, how: Settlement)
    ensures how in Told(Execute(events).settled, id) <==> exists k :: EndsAt(events, k, id, how)
  {
    if events != [] {
      var n := |events| - 1;
      ToldIffEnded(events[..n], id, how);
      LastTells(events, id, how);
      EndsWithin(events, id, how);
      EndsWithin(events[..n], id, how);
      hide Execute, EndsAt, Told;
      forall k: nat | k < n ensures EndsAt(events, k, id, how) <==> EndsAt(events[..n], k, id, how) {
        EndsBefore(events, k, id, how);
      }
    } else {
      assert Told(FRESH.settled, id) == [];
    }
  }

  lemma EndsWithin(events: seq<Event>, id: Id, how: Settlement)
    ensures forall k: nat | EndsAt(events, k, id, how) :: k < |events|
  {
  }

  // ---- connect promises --------------------------------------------------------

  // What ends the current connect attempt, whether or not its promise is still open.
  function ConnectEnding(s: State, e: Event): Option<ConnectOutcome>
    requires Enabled(s, e)
  {
    match e
    case Connect(constructed) => if constructed then None else Some(Failed(Unreachable))
    case Message(Challenge(nonce)) => if Trim(nonce) == "" then Some(Failed(InvalidResponse)) else None
    case Message(Res(id, ok, payload, error)) =>
      if id.None? || id.value == "" || id != s.connectRequestId then None
      else if ok then Some(Hello(payload))
      else if error.Some? then Some(Failed(Refused(error.value))) else None
    case NonJson => if s.connected then None else Some(Failed(InvalidResponse))
    case SocketClosed => if s.connected then None else Some(Failed(Unreachable))
    case SocketError => if s.connected then None else Some(Failed(Unreachable))
    case Fire(t) => if s.live[t].HandshakeTimeout? then Some(Failed(HandshakeTimedOut)) else None
    case Signed(_, sent) => if s.ws && sent then None else Some(Failed(Unreachable))
    case _ => None
  }

  // The promise an event can settle: a connect's own, else the one still open.
  function Promise(s: State, e: Event): Option<nat> {
    if e.Connect? then Some(s.promises) else s.slot
  }

  // What an event means for the connect promises and the handshake.
  ghost predicate ConnectStep(s: State, e: Event, d: State)
    requires Enabled(s, e)
  {
    var how, p := ConnectEnding(s, e), Promise(s, e);
    && d.outcomes == s.outcomes + (if how.Some? && p.Some? then [Connected(p.value, how.value)] else [])
    && d.slot == (if how.Some? then None else p)
    && d.promises == s.promises + (if e.Connect? then 1 else 0)
    && d.connected == (s.connected || (how.Some? && how.value.Hello?))
    && d.closed == (s.closed || e.Close?)
    && d.ws == (if e.Connect? then s.ws || e.constructed
                else if e.SocketClosed? || (e.Close? && !s.closed) then false else s.ws)
    && d.connectRequestId == (if e.Signed? then Some(e.id)
                              else if e.Message? && e.frame.Res? && e.frame.id.Some? && e.frame.id.value != ""
                                      && e.frame.id == s.connectRequestId then None
                              else s.connectRequestId)
    && d.challengeNonce == (if Challenges(e) then Some(Trim(e.frame.nonce)) else s.challengeNonce)
    && d.signing == s.signing + (if Challenges(e) && s.ws then 1 else 0) - (if e.Signed? then 1 else 0)
    && (e.SocketOpen? ==> d.handshakeTimer == Some(e.timer) && e.timer in d.live && d.live[e.timer] == HandshakeTimeout)
    && (Disarms(s, e) ==> d.handshakeTimer == None && (s.handshakeTimer.Some? ==> s.handshakeTimer.value !in d.live))
    && (!e.SocketOpen? && !Disarms(s, e) ==> d.handshakeTimer == s.handshakeTimer)
  }

  // A challenge that can be signed.
  predicate Challenges(e: Event) {
    e.Message? && e.frame.Challenge? && Trim(e.frame.nonce) != ""
  }

  // The handshake is over: its timer is cleared.
  predicate Disarms(s: State, e: Event)
    requires Enabled(s, e)
  {
    ConnectEnding(s, e).Some? || e.SocketClosed? || (e.Close? && !s.closed)
  }

  lemma RejectEnds(s: State, code: ErrorCode)
    ensures var d := RejectConnect(s, code);
            && d == s.(slot := None, live := d.live, handshakeTimer := None,
                       outcomes := s.outcomes + (if s.slot.Some? then [Connected(s.slot.value, Failed(code))] else []))
            && (s.handshakeTimer.Some? ==> s.handshakeTimer.value !in d.live)
  {
    assert s.outcomes + [] == s.outcomes;
  }

  lemma FinishEnds(s: State, payload: string)
    ensures var d := FinishHandshake(s, payload);
            && d == s.(slot := None, live := d.live, handshakeTimer := None, connected := true,
                       outcomes := s.outcomes + (if s.slot.Some? then [Connected(s.slot.value, Hello(payload))] else []))
            && (s.handshakeTimer.Some? ==> s.handshakeTimer.value !in d.live)
  {
    assert s.outcomes + [] == s.outcomes;
  }

  lemma ClearEnds(s: State)
    ensures var d := ClearHandshakeTimer(s);
            && d == s.(live := d.live, handshakeTimer := None)
            && (s.handshakeTimer.Some? ==> s.handshakeTimer.value !in d.live)
  {
  }

  lemma FrameEndsConnect(s: State, frame: WireFrame)
    ensures ConnectStep(s, Message(frame), HandleFrame(s, frame))
  {
    if frame.Challenge? {
      ChallengeEndsConnect(s, frame.nonce);
    } else if frame.Res? && frame.id.Some? && frame.id.value != "" && frame.id == s.connectRequestId {
      ResponseEndsConnect(s, frame);
    } else {
      assert s.outcomes + [] == s.outcomes;
      hide RejectConnect, FinishHandshake;
    }
  }

  lemma ChallengeEndsConnect(s: State, nonce: string)
    ensures ConnectStep(s, Message(Challenge(nonce)), HandleFrame(s, Challenge(nonce)))
  {
    if Trim(nonce) == "" {
      RejectEnds(s, InvalidResponse);
      hide RejectConnect, Trim;
    } else {
      assert s.outcomes + [] == s.outcomes;
      hide RejectConnect, Trim;
    }
  }

  lemma ResponseEndsConnect(s: State, frame: WireFrame)
    requires frame.Res? && frame.id.Some? && frame.id.value != "" && frame.id == s.connectRequestId
    ensures ConnectStep(s, Message(frame), HandleFrame(s, frame))
  {
    var c := s.(connectRequestId := None);
    if frame.ok {
      FinishEnds(c, frame.payload);
    } else if frame.error.Some? {
      RejectEnds(c, Refused(frame.error.value));
    } else {
      assert s.outcomes + [] == s.outcomes;
    }
    hide RejectConnect, FinishHandshake;
  }

  lemma LossEndsConnect(s: State)
    ensures ConnectStep(s, SocketClosed, Apply(s, SocketClosed))
  {
    assert s.outcomes + [] == s.outcomes;
    ClearEnds(s);
    var c := RejectAllPending(ClearHandshakeTimer(s), ConnectionClosed);
    assert c == s.(live := c.live, pending := map[], settled := c.settled, handshakeTimer := None);
    assert s.handshakeTimer.Some? ==> s.handshakeTimer.value !in c.live;
    hide RejectAllPending, ClearHandshakeTimer;
    RejectEnds(c, Unreachable);
    RejectOnlyDisarms(c, Unreachable);
    hide RejectConnect;
  }

  lemma CloseEndsConnect(s: State)
    ensures ConnectStep(s, Close, Apply(s, Close))
  {
    assert s.outcomes + [] == s.outcomes;
    ClearEnds(s.(closed := true));
    hide ClearHandshakeTimer, TellAll;
  }

  lemma FireEndsConnect(s: State, e: Event)
    requires Enabled(s, e) && e.Fire?
    ensures ConnectStep(s, e, Apply(s, e))
  {
    assert s.outcomes + [] == s.outcomes;
    var c := s.(live := s.live - {e.timer});
    RejectEnds(c, HandshakeTimedOut);
    hide RejectConnect, Tell;
  }

  lemma ConnectEndsConnect(s: State, constructed: bool)
    ensures ConnectStep(s, Connect(constructed), Apply(s, Connect(constructed)))
  {
    assert s.outcomes + [] == s.outcomes;
    RejectEnds(s.(slot := Some(s.promises), promises := s.promises + 1), Unreachable);
    hide RejectConnect;
  }

  lemma ErrorEndsConnect(s: State, e: Event)
    requires e.NonJson? || e.SocketError?
    ensures ConnectStep(s, e, Apply(s, e))
  {
    assert s.outcomes + [] == s.outcomes;
    RejectEnds(s, if e.NonJson? then InvalidResponse else Unreachable);
    hide RejectConnect;
  }

  lemma OtherEndsConnect(s: State, e: Event)
    requires Enabled(s, e) && (e.SocketOpen? || e.Send?)
    ensures ConnectStep(s, e, Apply(s, e))
  {
    assert s.outcomes + [] == s.outcomes;
    hide Tell;
  }

  lemma SignedEndsConnect(s: State, e: Event)
    requires Enabled(s, e) && e.Signed?
    ensures ConnectStep(s, e, Apply(s, e))
  {
    assert s.outcomes + [] == s.outcomes;
    RejectEnds(s.(signing := s.signing - 1, connectRequestId := Some(e.id)), Unreachable);
    hide RejectConnect;
  }

  /** What any event means for the connect promises: which one it settles, with what, and whether the client is connected. */
  lemma EventEndsConnect(s: State, e: Event)
    requires Enabled(s, e)
    ensures ConnectStep(s, e, Apply(s, e))
  {
    hide ConnectStep, Apply;
    if e.Message? {
      FrameEndsConnect(s, e.frame);
      MessageIsHandled(s, e);
    } else if e.SocketClosed? {
      LossEndsConnect(s);
    } else if e.Close? {
      CloseEndsConnect(s);
    } else if e.Fire? {
      FireEndsConnect(s, e);
    } else if e.Signed? {
      SignedEndsConnect(s, e);
    } else if e.Connect? {
      ConnectEndsConnect(s, e.constructed);
    } else if e.NonJson? || e.SocketError? {
      ErrorEndsConnect(s, e);
    } else {
      OtherEndsConnect(s, e);
    }
  }

  // Event k of a run settles the promise this way.
  ghost predicate ConnectsAt(events: seq<Event>, k: nat, promise: nat, how: ConnectOutcome) {
    && k < |events| && Enabled(Execute(events[..k]), events[k])
    && ConnectEnding(Execute(events[..k]), events[k]) == Some(how) && Promise(Execute(events[..k]), events[k]) == Some(promise)
  }

  lemma ConnectsBefore(events: seq<Event>, k: nat, promise: nat, how: ConnectOutcome)
    requires events != [] && k < |events| - 1
    ensures ConnectsAt(events, k, promise, how) <==> ConnectsAt(events[..|events| - 1], k, promise, how)
  {
    assert events[..|events| - 1][..k] == events[..k];
    hide Enabled, ConnectEnding, Promise, Execute;
  }

  lemma LastConnects(events: seq<Event>, promise: nat, how: ConnectOutcome)
    requires events != []
    ensures var n := |events| - 1;
            Connected(promise, how) in Execute(events).outcomes
            <==> Connected(promise, how) in Execute(events[..n]).outcomes || ConnectsAt(events, n, promise, how)
  {
    var n := |events| - 1;
    var s := Execute(events[..n]);
    hide Apply, Enabled, ConnectEnding, Promise;
    if Enabled(s, events[n]) {
      EventEndsConnect(s, events[n]);
    }
  }

  /** In every run a connect promise is settled this way exactly if an event ended that connect attempt so while it was open. */
  lemma {:induction false} ConnectedIffEnded(events: seq<Event>, promise: nat, how: ConnectOutcome)
    ensures Connected(promise, how) in Execute(events).outcomes <==> exists k :: ConnectsAt(events, k, promise, how)
  {
    if events != [] {
      var n := |events| - 1;
      ConnectedIffEnded(events[..n], promise, how);
      LastConnects(events, promise, how);
      ConnectsWithin(events, promise, how);
      ConnectsWithin(events[..n], promise, how);
      hide Execute, ConnectsAt;
      forall k: nat | k < n ensures ConnectsAt(events, k, promise, how) <==> ConnectsAt(events[..n], k, promise, how) {
        ConnectsBefore(events, k, promise, how);
      }
    }
  }

  lemma ConnectsWithin(events: seq<Event>, promise: nat, how: ConnectOutcome)
    ensures forall k: nat | ConnectsAt(events, k, promise, how) :: k < |events|
  {
  }
}
