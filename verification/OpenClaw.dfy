/** The OpenClaw client as the object it is: fields, helpers and event handlers, each one a step of the model. */
module OpenClaw {
  import opened Text
  import R = RpcClient
  import opened RpcClient

  class OpenClawClient {
    var ws: bool
    var pending: map<Id, Timer>
    var handshakeTimer: Option<Timer>
    var slot: Option<nat>
    var connectRequestId: Option<Id>
    var challengeNonce: Option<string>
    var connected: bool
    var closed: bool

    // The runtime's armed timers and unfinished signatures, and what promises were made and settled.
    var live: map<Timer, Callback>
    var signing: nat
    var promises: nat
    ghost var issued: set<Id>
    ghost var settled: Log
    ghost var outcomes: seq<Connected>

    ghost function View(): State
      reads this
    {
      State(ws, pending, live, handshakeTimer, slot, connectRequestId, challengeNonce, connected, closed, promises,
            signing, issued, settled, outcomes)
    }

    ghost predicate Valid()
      reads this
    {
      Inv(View())
    }

    constructor ()
      ensures Valid() && View() == FRESH
    {
      ws, pending, handshakeTimer, slot, connectRequestId, challengeNonce := false, map[], None, None, None, None;
      connected, closed, live, signing, promises := false, false, map[], 0, 0;
      issued, settled, outcomes := {}, map[], [];
    }

    method ClearHandshakeTimer()
      modifies this`live, this`handshakeTimer
      ensures View() == R.ClearHandshakeTimer(old(View()))
    {
      if handshakeTimer.Some? {
        live := live - {handshakeTimer.value};
        handshakeTimer := None;
      }
    }

    method RejectConnect(code: ErrorCode)
      modifies this
      ensures View() == R.RejectConnect(old(View()), code)
    {
      ClearHandshakeTimer();
      var reject := slot;
      slot := None;
      if reject.Some? {
        outcomes := outcomes + [Connected(reject.value, Failed(code))];
      }
    }

    method FinishHandshake(payload: string)
      modifies this
      ensures View() == R.FinishHandshake(old(View()), payload)
    {
      ClearHandshakeTimer();
      connected := true;
      var resolve := slot;
      slot := None;
      if resolve.Some? {
        outcomes := outcomes + [Connected(resolve.value, Hello(payload))];
      }
    }

    // Every pending request, one after the other.
    method RejectAllPending(how: Settlement)
      modifies this`live, this`settled, this`pending
      ensures View() == R.RejectAllPending(old(View()), how)
    {
      ghost var s := View();
      hide TellAll, Handles;
      Nothing(s.pending, s.settled, how);
      var left := pending.Keys;
      while left != {}
        invariant left <= s.pending.Keys
        invariant live == s.live - Handles(s.pending, left)
        invariant settled == TellAll(s.settled, s.pending.Keys - left, how)
        invariant pending == s.pending
        decreases left
      {
        var id :| id in left;
        live := live - {pending[id]};
        settled := Tell(settled, id, how);
        OneMore(s.pending, s.settled, left, id, how);
        left := left - {id};
      }
      Everything(s.pending);
      pending := map[];
    }

    method SettlePending(id: Id, how: Settlement)
      requires id in pending
      modifies this
      ensures View() == Settle(old(View()), id, how)
    {
      live := live - {pending[id]};
      pending := pending - {id};
      settled := Tell(settled, id, how);
    }

    // ---- the public operations -------------------------------------------------

    // The promise is made first; a socket that cannot be constructed rejects it at once.
    method Connect(constructed: bool) returns (promise: nat)
      requires Valid()
      modifies this
      ensures Valid() && View() == Apply(old(View()), Event.Connect(constructed)) && promise == old(promises)
    {
      hide Inv;
      ApplyKeeps(View(), Event.Connect(constructed));
      promise := promises;
      promises := promises + 1;
      slot := Some(promise);
      if !constructed {
        RejectConnect(Unreachable);
        return;
      }
      ws := true;
    }

    // `sent` says whether the socket took the frame.
    method SendRpc(id: Id, timer: Timer, sent: bool) returns (accepted: bool)
      requires Valid() && Enabled(View(), Send(id, timer, sent))
      modifies this
      ensures Valid() && View() == Apply(old(View()), Send(id, timer, sent)) && accepted == (old(connected) && old(ws))
    {
      hide Inv, Apply, Enabled, Tell;
      ghost var s := View();
      SendIs(s, id, timer, sent);
      accepted := connected && ws;
      if accepted {
        issued := issued + {id};
        live := live[timer := RpcTimeout(id)];
        pending := pending[id := timer];
        if !sent {
          live := live - {timer};
          pending := pending - {id};
          settled := Tell(settled, id, SendFailed);
          Undone(s, id, timer, sent);
        }
      }
    }

    method Close()
      requires Valid()
      modifies this
      ensures Valid() && View() == Apply(old(View()), Event.Close)
    {
      CloseIs(View());
      hide Inv, Apply;
      if closed {
        return;
      }
      hide R.RejectAllPending, R.ClearHandshakeTimer;
      closed := true;
      ClearHandshakeTimer();
      RejectAllPending(ClientClosed);
      ws := false;
    }

    // ---- what the socket and the timers report ---------------------------------

    method OnOpen(timer: Timer)
      requires Valid() && timer !in live
      modifies this
      ensures Valid() && View() == Apply(old(View()), SocketOpen(timer))
    {
      hide Inv;
      ApplyKeeps(View(), SocketOpen(timer));
      handshakeTimer := Some(timer);
      live := live[timer := HandshakeTimeout];
    }

    method OnNonJson()
      requires Valid()
      modifies this
      ensures Valid() && View() == Apply(old(View()), NonJson)
    {
      hide Inv;
      ApplyKeeps(View(), NonJson);
      if !connected {
        RejectConnect(InvalidResponse);
      }
    }

    method OnClose()
      requires Valid()
      modifies this
      ensures Valid() && View() == Apply(old(View()), SocketClosed)
    {
      hide Inv;
      ghost var s := View();
      LossIs(s);
      hide Apply, R.RejectAllPending, R.ClearHandshakeTimer, R.RejectConnect;
      ClearHandshakeTimer();
      RejectAllPending(ConnectionClosed);
      ghost var c := View();
      if !connected {
        RejectConnect(Unreachable);
      }
      ghost var d := View();
      ws := false;
      assert View() == d.(ws := false);
    }

    method OnError()
      requires Valid()
      modifies this
      ensures Valid() && View() == Apply(old(View()), SocketError)
    {
      hide Inv;
      ApplyKeeps(View(), SocketError);
      if !connected {
        RejectConnect(Unreachable);
      }
    }

    method OnTimer(timer: Timer)
      requires Valid() && timer in live
      modifies this
      ensures Valid() && View() == Apply(old(View()), Fire(timer))
    {
      hide Inv;
      ApplyKeeps(View(), Fire(timer));
      var callback := live[timer];
      live := live - {timer};
      match callback {
        case RpcTimeout(id) =>
          pending := pending - {id};
          settled := Tell(settled, id, TimedOut);
        case HandshakeTimeout =>
          RejectConnect(HandshakeTimedOut);
      }
    }

    // The signature for a challenge is ready; the socket may be gone by now.
    method OnSigned(id: Id, sent: bool)
      requires Valid() && signing > 0
      modifies this
      ensures Valid() && View() == Apply(old(View()), Signed(id, sent))
    {
      hide Inv;
      ApplyKeeps(View(), Signed(id, sent));
      signing := signing - 1;
      connectRequestId := Some(id);
      if !ws || !sent {
        RejectConnect(Unreachable);
      }
    }

    method HandleFrame(frame: WireFrame)
      requires Valid()
      modifies this
      ensures Valid() && View() == Apply(old(View()), Message(frame))
    {
      hide Inv, Apply, Trim, Settle;
      MessageIs(View(), frame);
      hide R.RejectConnect, R.FinishHandshake;
      match frame {
        case Challenge(text) =>
          var nonce := Trim(text);
          if nonce == "" {
            RejectConnect(InvalidResponse);
            return;
          }
          challengeNonce := Some(nonce);
          if ws {
            signing := signing + 1;
          }
        case Res(id, ok, payload, error) =>
          if id.Some? && id.value != "" && id == connectRequestId {
            connectRequestId := None;
            if ok {
              FinishHandshake(payload);
            } else if error.Some? {
              RejectConnect(Refused(error.value));
            }
            return;
          }
          if id.None? || id.value == "" || id.value !in pending {
            return;
          }
          SettlePending(id.value, if ok then Resolved(payload) else Rejected(if error.Some? then error.value else "RPC error"));
        case _ =>
      }
    }
  }

  // Single events, without the cases of the others.
  lemma SendIs(s: State, id: Id, t: Timer, sent: bool)
    requires Inv(s) && Enabled(s, Send(id, t, sent))
    ensures Apply(s, Send(id, t, sent))
         == if !s.connected || !s.ws then s
            else if sent then s.(issued := s.issued + {id}, pending := s.pending[id := t], live := s.live[t := RpcTimeout(id)])
            else s.(issued := s.issued + {id}, settled := Tell(s.settled, id, SendFailed))
    ensures Inv(Apply(s, Send(id, t, sent)))
  {
    ApplyKeeps(s, Send(id, t, sent));
    hide Inv, Tell;
  }

  lemma CloseIs(s: State)
    requires Inv(s)
    ensures Apply(s, Event.Close)
         == if s.closed then s
            else R.RejectAllPending(R.ClearHandshakeTimer(s.(closed := true)), ClientClosed).(ws := false)
    ensures Inv(Apply(s, Event.Close))
  {
    ApplyKeeps(s, Event.Close);
    hide Inv, R.RejectAllPending, R.ClearHandshakeTimer;
  }

  lemma MessageIs(s: State, frame: WireFrame)
    requires Inv(s)
    ensures Apply(s, Message(frame)) == R.HandleFrame(s, frame) && Inv(R.HandleFrame(s, frame))
  {
    ApplyKeeps(s, Message(frame));
    hide Inv, R.HandleFrame;
  }

  // A request that could not be sent leaves map and timers as they were.
  lemma Undone(s: State, id: Id, t: Timer, sent: bool)
    requires Inv(s) && Enabled(s, Send(id, t, sent))
    ensures s.live[t := RpcTimeout(id)] - {t} == s.live && s.pending[id := t] - {id} == s.pending
  {
    assert id !in s.pending;
  }

  lemma LossIs(s: State)
    requires Inv(s)
    ensures var c := R.RejectAllPending(R.ClearHandshakeTimer(s), ConnectionClosed);
            Apply(s, SocketClosed) == (if s.connected then c else R.RejectConnect(c, Unreachable)).(ws := false)
    ensures Inv(Apply(s, SocketClosed))
  {
    ClosedKeeps(s);
    hide R.RejectAllPending, R.ClearHandshakeTimer, R.RejectConnect;
  }

  // What has been cleared and rejected once only the requests in `left` remain.
  function Handles(pending: map<Id, Timer>, left: set<Id>): set<Timer> {
    set id | id in pending && id !in left :: pending[id]
  }

  lemma Nothing(pending: map<Id, Timer>, log: Log, how: Settlement)
    ensures Handles(pending, pending.Keys) == {} && TellAll(log, pending.Keys - pending.Keys, how) == log
  {
  }

  lemma Everything(pending: map<Id, Timer>)
    ensures Handles(pending, {}) == pending.Values && pending.Keys - {} == pending.Keys
  {
  }

  lemma OneMore(pending: map<Id, Timer>, log: Log, left: set<Id>, id: Id, how: Settlement)
    requires id in left && left <= pending.Keys
    ensures Handles(pending, left - {id}) == Handles(pending, left) + {pending[id]}
    ensures TellAll(log, pending.Keys - (left - {id}), how) == Tell(TellAll(log, pending.Keys - left, how), id, how)
  {
  }
}
