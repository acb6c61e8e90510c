/**
 What a reconnect must find at the gateway for the call to stay faithful to its own
 run, and what the other parties must leave alone for it to find that.
 */
module ReconnectSafety {
  import opened Text
  import opened Framing
  import opened Wire
  import opened GatewayClient
  import opened FrameStream
  import opened ResumableRun
  import R = RunRegistry
  import G = RegistryGrowth
  import J = RejectedRuns

  // What the caller is promised: events in order, and a result only with all events before it.
  ghost predicate Kept(w: World) {
    Delivered(w) && FinishedOk(w)
  }

  // ---- a whole response ----------------------------------------------------------

  function ResultOf(res: Option<RunResult>): seq<Frame> {
    match res case None => [] case Some(v) => [ResultFrame(v)]
  }

  // Some events and perhaps a result, as frames.
  function Told(evs: seq<StreamEvent>, res: Option<RunResult>): seq<Frame> {
    EventFrames(evs) + ResultOf(res)
  }

  // The state of a client that has applied the first q of them.
  function Heard(c: Client, evs: seq<StreamEvent>, res: Option<RunResult>, q: nat): Client {
    var n := if q <= |evs| then q else |evs|;
    c.(cursor := c.cursor + n, delivered := c.delivered + evs[..n], result := if q > |evs| then res else c.result)
  }

  lemma {:induction false} ApplyTold(c: Client, evs: seq<StreamEvent>, res: Option<RunResult>, q: nat)
    requires q <= |Told(evs, res)|
    ensures ApplyFrames(c, Told(evs, res)[..q]) == Heard(c, evs, res, q)
    decreases |evs|
  {
    if evs == [] || q == 0 {
      ApplyNoEvents(c, evs, res, q);
    } else {
      var d := c.(delivered := c.delivered + [evs[0]], cursor := c.cursor + 1);
      ToldStep(evs, res, q);
      ApplyTold(d, evs[1..], res, q - 1);
      HeardStep(c, evs, res, q);
      hide Told, Heard;
    }
  }

  lemma ApplyNoEvents(c: Client, evs: seq<StreamEvent>, res: Option<RunResult>, q: nat)
    requires (evs == [] || q == 0) && q <= |Told(evs, res)|
    ensures ApplyFrames(c, Told(evs, res)[..q]) == Heard(c, evs, res, q)
  {
    assert c.delivered + evs[..0] == c.delivered;
    if q > 0 {
      assert Told(evs, res)[..q] == ResultOf(res) && ResultOf(res)[1..] == [];
    }
  }

  lemma ToldStep(evs: seq<StreamEvent>, res: Option<RunResult>, q: nat)
    requires evs != [] && 0 < q <= |Told(evs, res)|
    ensures q - 1 <= |Told(evs[1..], res)|
    ensures Told(evs, res)[..q] == [EventFrame(evs[0])] + Told(evs[1..], res)[..q - 1]
  {
    assert EventFrames(evs) == [EventFrame(evs[0])] + EventFrames(evs[1..]);
    assert Told(evs, res) == [EventFrame(evs[0])] + Told(evs[1..], res);
  }

  lemma HeardStep(c: Client, evs: seq<StreamEvent>, res: Option<RunResult>, q: nat)
    requires evs != [] && 0 < q
    ensures Heard(c.(delivered := c.delivered + [evs[0]], cursor := c.cursor + 1), evs[1..], res, q - 1) == Heard(c, evs, res, q)
  {
    var n := if q <= |evs| then q else |evs|;
    assert c.delivered + [evs[0]] + evs[1..][..n - 1] == c.delivered + evs[..n];
  }

  lemma {:induction false} ApplyFramesAppend(c: Client, a: seq<Frame>, b: seq<Frame>)
    ensures ApplyFrames(c, a + b) == ApplyFrames(ApplyFrames(c, a), b)
    decreases |a|
  {
    if a == [] {
      assert a + b == b;
    } else {
      assert (a + b)[1..] == a[1..] + b;
      match a[0] {
        case EventFrame(e) => ApplyFramesAppend(c.(delivered := c.delivered + [e], cursor := c.cursor + 1), a[1..], b);
        case ResultFrame(r) => ApplyFramesAppend(c.(result := Some(r)), a[1..], b);
      }
    }
  }

  // All bytes of a stream are all its frames.
  lemma WholeStream(codec: Codec, frames: seq<Frame>)
    requires Lossless(codec)
    ensures var n := |Stream(codec, frames)|; Whole(codec, frames, n) == |frames| && Partial(codec, frames, n) == ""
  {
    var lines := Lines(codec, frames);
    forall l | l in lines ensures Free(l, NL) {
      var i :| 0 <= i < |lines| && lines[i] == l;
      assert Free(codec.render(frames[i]), NL);
    }
    var text := Stream(codec, frames);
    NothingIsFree();
    SplitOfTerminated(lines, "");
    hide SplitAll, Free;
    assert Terminated(lines, NL) + "" == text && text[..|text|] == text;
  }

  lemma NothingIsFree()
    ensures Free("", NL)
  {
  }

  // ---- a response that ended is enough -------------------------------------------

  /** Reading to the end of a response that ended finishes the call, with what ended its run and all its events. */
  lemma EndedResponseFinishes(k: Call, w: World, broke: bool, aborted: bool)
    requires Inv(k, w) && w.client.phase.Streaming? && w.reg.conns[w.conn].ended && !(broke && aborted)
    requires w.got == |Stream(k.codec, w.reg.conns[w.conn].written)|
    ensures var v := Next(k, w, End(broke, aborted));
            && Mine(v).Some? && Mine(v).value < |v.reg.records|
            && var r := v.reg.records[Mine(v).value];
            && R.Outcome(r).Some? && v.client.phase == Finished(R.Outcome(r).value) && v.client.delivered == r.events
  {
    var x := w.reg.conns[w.conn];
    assert R.ConnOk(w.reg, w.conn);
    var a := x.target.value;
    var r := w.reg.records[a.rec];
    assert R.RecordOk(w.reg, a.rec);
    ShareIs(r, w.conn);
    assert |x.written| == |r.events| + 1 - a.start;
    WholeStream(k.codec, x.written);
    assert w.client.buf == "" && w.client.result == R.Outcome(r);
    EndKeeps(k, w, broke, aborted);
    FlushNothing(k.codec, w.client, broke);
    assert Mine(w) == Some(a.rec) && R.Outcome(r).Some?;
    hide R.Delivery, R.ConnOk, R.Share, Closing, Lossless, Stream, Whole, Partial, R.RecordOk, Inv, R.Outcome;
    InvIsKept(k, Next(k, w, End(broke, aborted)));
  }

  lemma FlushNothing(codec: Codec, c: Client, broke: bool)
    requires c.buf == ""
    ensures Flush(codec, c, broke) == Routed(c, broke)
  {
    TrimNothing();
    hide Trim;
  }

  // ---- reading a run that is over and is not this call's own ----------------------

  // What such a run still says fits what this call's run has said, as far as it says it.
  ghost predicate Agrees(w: World, c: Client, evs: seq<StreamEvent>, res: Option<RunResult>) {
    c.cursor == |c.delivered| && c.result.None?
    && match Mine(w)
       case None => c.cursor == 0 && evs == [] && res.None?
       case Some(rec) =>
         && rec < |w.reg.records|
         && c.delivered + evs <= w.reg.records[rec].events
         && (res.Some? ==> c.delivered + evs == w.reg.records[rec].events && R.Outcome(w.reg.records[rec]) == res)
  }

  ghost predicate Foreign(k: Call, w: World, c: Client, evs: seq<StreamEvent>, res: Option<RunResult>) {
    && Lossless(k.codec) && R.Delivery(w.reg) && FirstOk(k, w) && k.before <= |w.reg.records|
    && w.first.Some? && w.client.phase.Streaming? && c.phase.Streaming? && c.buf == ""
    && w.conn < |w.reg.conns| && w.reg.conns[w.conn].target.Some?
    && w.reg.conns[w.conn].target.value.rec < |w.reg.records|
    && R.Outcome(w.reg.records[w.reg.conns[w.conn].target.value.rec]).Some?
    && w.reg.conns[w.conn].written == Told(evs, res)
    && w.got <= |Stream(k.codec, Told(evs, res))|
    && Whole(k.codec, Told(evs, res), w.got) <= |Told(evs, res)|
    && w.client == ApplyFrames(c, Told(evs, res)[..Whole(k.codec, Told(evs, res), w.got)]).(buf := w.client.buf)
    && w.client.buf == Partial(k.codec, Told(evs, res), w.got)
    && Agrees(w, c, evs, res)
  }

  // Whatever part of it was heard, the call is still faithful.
  lemma HeardIsKept(w: World, c: Client, evs: seq<StreamEvent>, res: Option<RunResult>, q: nat, buf: string)
    requires Agrees(w, c, evs, res) && q <= |Told(evs, res)|
    ensures var d := Heard(c, evs, res, q).(buf := buf);
            && Delivered(w.(client := d))
            && (d.result.Some? ==>
                  && Mine(w).Some? && Mine(w).value < |w.reg.records|
                  && R.Outcome(w.reg.records[Mine(w).value]) == d.result
                  && d.delivered == w.reg.records[Mine(w).value].events)
  {
    hide R.Outcome;
    var n := if q <= |evs| then q else |evs|;
    if Mine(w).Some? {
      var events := w.reg.records[Mine(w).value].events;
      assert c.delivered + evs[..n] == (c.delivered + evs)[..|c.delivered| + n];
      assert (c.delivered + evs)[..|c.delivered| + n] == events[..|c.delivered| + n];
      assert q > |evs| ==> evs[..n] == evs;
    } else {
      assert c.delivered == [] && evs[..n] == [];
    }
  }

  lemma ForeignIsKept(k: Call, w: World, c: Client, evs: seq<StreamEvent>, res: Option<RunResult>)
    requires Foreign(k, w, c, evs, res)
    ensures Kept(w)
  {
    var q := Whole(k.codec, Told(evs, res), w.got);
    ApplyTold(c, evs, res, q);
    HeardIsKept(w, c, evs, res, q, w.client.buf);
    hide Told, ApplyFrames, Whole, Partial, R.Delivery, Lossless, Agrees, FirstOk, Delivered;
    assert w.client == Heard(c, evs, res, q).(buf := w.client.buf);
    assert w == w.(client := Heard(c, evs, res, q).(buf := w.client.buf));
  }

  lemma HeardMore(c: Client, f: seq<Frame>, m: nat, m2: nat, b: string, b2: string)
    requires m <= m2 <= |f|
    ensures var d := ApplyFrames(c, f[..m]).(buf := b);
            ApplyFrames(d.(buf := ""), f[m..m2]).(buf := b2) == ApplyFrames(c, f[..m2]).(buf := b2)
    ensures ApplyFrames(c, f[..m2]).phase == c.phase
  {
    var d := ApplyFrames(c, f[..m]);
    ApplyFramesAppend(c, f[..m], f[m..m2]);
    assert f[..m] + f[m..m2] == f[..m2];
    ApplyFramesIgnoresBuf(d, "", f[m..m2]);
    KeepsPhase(c, f[..m2]);
    hide ApplyFrames;
  }

  // One read of such a response: nothing throws, and the client has heard what arrived.
  lemma ForeignConsumes(k: Call, w: World, c: Client, f: seq<Frame>, n: nat)
    requires Lossless(k.codec) && w.got + n <= |Stream(k.codec, f)|
    requires Whole(k.codec, f, w.got) <= |f| && w.client.buf == Partial(k.codec, f, w.got)
    requires w.client == ApplyFrames(c, f[..Whole(k.codec, f, w.got)]).(buf := w.client.buf)
    ensures var m2 := Whole(k.codec, f, w.got + n);
            && m2 <= |f|
            && Consume(k.codec, w.client, Stream(k.codec, f)[w.got..w.got + n])
               == Routed(ApplyFrames(c, f[..m2]).(buf := Partial(k.codec, f, w.got + n)), false)
            && ApplyFrames(c, f[..m2]).phase == c.phase
  {
    hide ApplyFrames, Whole, Partial, Lossless, Consume, Stream;
    ConsumeFrames(k.codec, w.client, f, w.got, w.got + n);
    HeardMore(c, f, Whole(k.codec, f, w.got), Whole(k.codec, f, w.got + n), w.client.buf, Partial(k.codec, f, w.got + n));
  }

  lemma ForeignRead(k: Call, w: World, c: Client, evs: seq<StreamEvent>, res: Option<RunResult>, n: nat)
    requires Foreign(k, w, c, evs, res) && Enabled(k, w, Read(n))
    ensures Foreign(k, Next(k, w, Read(n)), c, evs, res)
  {
    hide Told, ApplyFrames, Whole, Partial, R.Delivery, Lossless, Consume, Stream;
    ForeignConsumes(k, w, c, Told(evs, res), n);
  }

  lemma {:induction false} KeepsPhase(c: Client, frames: seq<Frame>)
    ensures var d := ApplyFrames(c, frames);
            d == c.(cursor := d.cursor, delivered := d.delivered, result := d.result)
    decreases |frames|
  {
    if frames != [] {
      match frames[0] {
        case EventFrame(e) => KeepsPhase(c.(delivered := c.delivered + [e], cursor := c.cursor + 1), frames[1..]);
        case ResultFrame(r) => KeepsPhase(c.(result := Some(r)), frames[1..]);
      }
    }
  }

  lemma ForeignGrows(k: Call, w: World, c: Client, evs: seq<StreamEvent>, res: Option<RunResult>, a: R.Action)
    requires Foreign(k, w, c, evs, res) && R.Enabled(w.reg, a)
    ensures Foreign(k, w.(reg := R.Apply(w.reg, a)), c, evs, res)
  {
    var reg := R.Apply(w.reg, a);
    ForeignIsKept(k, w, c, evs, res);
    R.ApplyKeepsDelivery(w.reg, a);
    G.ApplyGrows(w.reg, a);
    DeliveredGrows(k, w, reg);
    ResponseFrozen(w.reg, a, w.conn);
    AgreesGrows(w, reg, c, evs, res);
    hide R.Apply, R.Delivery, G.Grows, Agrees, Told, Stream, Whole, Partial, ApplyFrames, Lossless, FirstOk, Delivered, R.Outcome;
  }

  // A response of a run that is over stays as it is.
  lemma ResponseFrozen(reg: R.Registry, a: R.Action, conn: nat)
    requires R.Delivery(reg) && R.Enabled(reg, a) && conn < |reg.conns| && reg.conns[conn].target.Some?
    requires reg.conns[conn].target.value.rec < |reg.records|
    requires R.Outcome(reg.records[reg.conns[conn].target.value.rec]).Some?
    ensures var next, rec := R.Apply(reg, a), reg.conns[conn].target.value.rec;
            && conn < |next.conns| && rec < |next.records|
            && next.conns[conn].target == reg.conns[conn].target && next.conns[conn].written == reg.conns[conn].written
            && R.Outcome(next.records[rec]) == R.Outcome(reg.records[rec])
  {
    var next, rec := R.Apply(reg, a), reg.conns[conn].target.value.rec;
    G.ApplyGrows(reg, a);
    J.StepLeaves(reg, a, conn);
    assert G.ConnGrows(reg.conns[conn], next.conns[conn]) && G.RecordGrows(reg.records[rec], next.records[rec]);
    hide R.Apply, R.Delivery;
  }

  lemma AgreesGrows(w: World, reg: R.Registry, c: Client, evs: seq<StreamEvent>, res: Option<RunResult>)
    requires Agrees(w, c, evs, res) && G.Grows(w.reg, reg) && w.first.Some? && R.Delivery(reg)
    requires Mine(w).Some? ==> Mine(w.(reg := reg)) == Mine(w)
    ensures Agrees(w.(reg := reg), c, evs, res)
  {
    if Mine(w).Some? {
      assert G.RecordGrows(w.reg.records[Mine(w).value], reg.records[Mine(w).value]);
    } else {
      assert c.delivered + evs == [];
      if Mine(w.(reg := reg)).Some? { assert R.ConnOk(reg, w.first.value); }
    }
    hide R.Delivery;
  }

  lemma ForeignHeard(k: Call, w: World, c: Client, evs: seq<StreamEvent>, res: Option<RunResult>)
    requires Foreign(k, w, c, evs, res)
    ensures Lossless(k.codec) && w.got <= |Stream(k.codec, Told(evs, res))|
    ensures var m := Whole(k.codec, Told(evs, res), w.got);
            m <= |Told(evs, res)| && w.client == ApplyFrames(c, Told(evs, res)[..m]).(buf := w.client.buf)
    ensures w.client.buf == Partial(k.codec, Told(evs, res), w.got)
  {
  }

  // The stretch that was heard when such a response ends, its flushed tail included.
  lemma ForeignFlush(k: Call, w: World, c: Client, evs: seq<StreamEvent>, res: Option<RunResult>, broke: bool)
    returns (n: nat)
    requires Foreign(k, w, c, evs, res)
    ensures n <= |Told(evs, res)|
    ensures Flush(k.codec, w.client, broke) == Routed(Heard(c, evs, res, n).(buf := w.client.buf), broke)
  {
    hide Foreign, Told, ApplyFrames, Whole, Partial, Stream, Heard, Flush, Lossless;
    ForeignHeard(k, w, c, evs, res);
    var f := Told(evs, res);
    var m := Whole(k.codec, f, w.got);
    var b := w.client.buf;
    BrokenFlush(k.codec, w.client);
    FlushFrames(k.codec, w.client, f, w.got);
    n := if !broke && m < |f| && b == k.codec.render(f[m]) then m + 1 else m;
    HeardTail(c, evs, res, m, n, b);
  }

  lemma HeardTail(c: Client, evs: seq<StreamEvent>, res: Option<RunResult>, m: nat, n: nat, b: string)
    requires m <= n <= |Told(evs, res)|
    ensures ApplyFrames(ApplyFrames(c, Told(evs, res)[..m]).(buf := b), Told(evs, res)[m..n]) == Heard(c, evs, res, n).(buf := b)
    ensures ApplyFrames(c, Told(evs, res)[..m]) == Heard(c, evs, res, m)
  {
    var f := Told(evs, res);
    hide Told, ApplyFrames, Heard;
    ApplyFramesIgnoresBuf(ApplyFrames(c, f[..m]), b, f[m..n]);
    ApplyFramesAppend(c, f[..m], f[m..n]);
    assert f[..m] + f[m..n] == f[..n];
    ApplyTold(c, evs, res, n);
    ApplyTold(c, evs, res, m);
  }

  lemma NothingApplied(c: Client)
    ensures ApplyFrames(c, []) == c
  {
  }

  lemma ForeignEnd(k: Call, w: World, c: Client, evs: seq<StreamEvent>, res: Option<RunResult>, broke: bool, aborted: bool)
    requires Foreign(k, w, c, evs, res)
    ensures var r := Flush(k.codec, w.client, broke);
            Inv(k, w.(client := Conclude(r.client, r.threw, aborted), answers := w.answers + [Opened(w.chunks, broke, aborted)],
                      chunks := []))
  {
    hide Foreign, Told, Heard, Flush, Conclude, Inv, R.Delivery, Lossless, FirstOk, Delivered, Agrees, R.Apply;
    ForeignStreams(k, w, c, evs, res);
    var n := ForeignFlush(k, w, c, evs, res, broke);
    HeardIsKept(w, c, evs, res, n, w.client.buf);
    var d := Heard(c, evs, res, n).(buf := w.client.buf);
    HeardPhase(c, evs, res, n);
    ConcludedIsFaithful(k, w, d, broke, aborted, w.answers + [Opened(w.chunks, broke, aborted)]);
  }

  lemma HeardPhase(c: Client, evs: seq<StreamEvent>, res: Option<RunResult>, n: nat)
    ensures Heard(c, evs, res, n).phase == c.phase
  {
  }

  lemma ConcludedIsFaithful(k: Call, w: World, d: Client, broke: bool, aborted: bool, answers: seq<Answer>)
    requires Lossless(k.codec) && R.Delivery(w.reg) && FirstOk(k, w) && k.before <= |w.reg.records| && w.first.Some?
    requires d.phase.Streaming? && Delivered(w.(client := d))
    requires d.result.Some? ==>
               && Mine(w).Some? && Mine(w).value < |w.reg.records|
               && R.Outcome(w.reg.records[Mine(w).value]) == d.result
               && d.delivered == w.reg.records[Mine(w).value].events
    ensures Inv(k, w.(client := Conclude(d, broke, aborted), answers := answers, chunks := []))
  {
    hide R.Delivery, Lossless, BackoffMs, ErrorResult, R.Outcome;
  }

  lemma ForeignNext(k: Call, w: World, s: Step, c: Client, evs: seq<StreamEvent>, res: Option<RunResult>)
    requires Foreign(k, w, c, evs, res) && R.WellFormed(w.reg) && Enabled(k, w, s)
    ensures Foreign(k, Next(k, w, s), c, evs, res) || Inv(k, Next(k, w, s))
  {
    hide Foreign, Inv, Flush, Conclude, Consume, R.Apply;
    ForeignStreams(k, w, c, evs, res);
    if s.Other? {
      ForeignGrows(k, w, c, evs, res, s.action);
    } else if s.Read? {
      ForeignRead(k, w, c, evs, res, s.n);
    } else if s.End? {
      ForeignEnd(k, w, c, evs, res, s.broke, s.aborted);
    }
  }

  lemma ForeignStreams(k: Call, w: World, c: Client, evs: seq<StreamEvent>, res: Option<RunResult>)
    requires Foreign(k, w, c, evs, res)
    ensures w.client.phase.Streaming? && c.phase.Streaming? && R.Delivery(w.reg) && R.WellFormed(w.reg) && Lossless(k.codec)
    ensures FirstOk(k, w) && k.before <= |w.reg.records| && w.first.Some? && Agrees(w, c, evs, res)
  {
  }

  // ---- continuations of a call ---------------------------------------------------

  lemma {:induction false} FaithfulGoesOn(k: Call, w: World, steps: seq<Step>)
    requires Inv(k, w) && AllAssumed(k, w, steps)
    ensures Inv(k, Execute(k, w, steps))
    decreases |steps|
  {
    hide Inv, Next, Assumed;
    if steps != [] {
      var n := |steps| - 1;
      AssumedBefore(k, w, steps);
      FaithfulGoesOn(k, w, steps[..n]);
      var v := Execute(k, w, steps[..n]);
      assert Assumed(k, v, steps[n]);
      if R.WellFormed(v.reg) && Enabled(k, v, steps[n]) {
        NextKeeps(k, v, steps[n]);
      }
    }
  }

  lemma AssumedBefore(k: Call, w: World, steps: seq<Step>)
    requires steps != [] && AllAssumed(k, w, steps)
    ensures AllAssumed(k, w, steps[..|steps| - 1])
  {
    hide Assumed, Execute;
    var n := |steps| - 1;
    forall i | 0 <= i < n ensures Assumed(k, Execute(k, w, steps[..n][..i]), steps[..n][i]) {
      assert steps[..n][..i] == steps[..i];
    }
  }

  lemma {:induction false} ForeignGoesOn(k: Call, w: World, steps: seq<Step>, c: Client, evs: seq<StreamEvent>, res: Option<RunResult>)
    requires Foreign(k, w, c, evs, res) && AllAssumed(k, w, steps)
    ensures var v := Execute(k, w, steps); Foreign(k, v, c, evs, res) || Inv(k, v)
    decreases |steps|
  {
    hide Inv, Next, Assumed, Foreign;
    if steps != [] {
      var n := |steps| - 1;
      AssumedBefore(k, w, steps);
      ForeignGoesOn(k, w, steps[..n], c, evs, res);
      var v := Execute(k, w, steps[..n]);
      assert Assumed(k, v, steps[n]);
      if R.WellFormed(v.reg) && Enabled(k, v, steps[n]) {
        if Inv(k, v) {
          NextKeeps(k, v, steps[n]);
        } else {
          ForeignNext(k, v, steps[n], c, evs, res);
        }
      }
    }
  }

  // ---- a reconnect ---------------------------------------------------------------

  // The run under the key when a reconnect arrives is over, and what it still says fits.
  ghost predicate Harmless(k: Call, w: World) {
    && k.key in w.reg.runs && w.reg.runs[k.key] < |w.reg.records|
    && var r := w.reg.records[w.reg.runs[k.key]];
    && R.Outcome(r).Some?
    && Agrees(w, w.client, r.events[R.Clamp(w.client.cursor, |r.events|)..], r.result)
  }

  // The response a reconnect is given, and what it leaves of the rest.
  ghost predicate Attached(w: World, v: World, rec: nat) {
    && R.Delivery(v.reg) && v.conn == |w.reg.conns| < |v.reg.conns| && v.got == 0
    && v.client == Post(w.client) && v.first == w.first && Mine(v) == Mine(w)
    && rec < |v.reg.records| && |w.reg.records| <= |v.reg.records|
    && v.reg.conns[v.conn].target == Some(R.Attachment(rec, R.Clamp(w.client.cursor, |v.reg.records[rec].events|)))
    && !v.reg.conns[v.conn].closed
    && (forall i | 0 <= i < |w.reg.records| ::
          v.reg.records[i].events == w.reg.records[i].events
          && v.reg.records[i].result == w.reg.records[i].result && v.reg.records[i].failure == w.reg.records[i].failure)
  }

  lemma ReconnectAttaches(k: Call, w: World) returns (rec: nat)
    requires R.Delivery(w.reg) && w.client.phase.Posting? && w.client.attempt > 0
    requires w.first.Some? ==> w.first.value < |w.reg.conns|
    ensures var v := Next(k, w, Posted);
            && Attached(w, v, rec)
            && (if k.key in w.reg.runs then rec == w.reg.runs[k.key] < |w.reg.records| && v.reg.records[rec].origin < v.conn
                else rec == |w.reg.records| && R.Running(v.reg, rec))
  {
    var v := Next(k, w, Posted);
    var arrived := w.reg.(conns := w.reg.conns + [R.NewConn]);
    R.ApplyKeepsDelivery(w.reg, Request(k, w.client));
    rec := if k.key in w.reg.runs then w.reg.runs[k.key] else |w.reg.records|;
    if k.key in w.reg.runs {
      assert R.RecordOk(w.reg, rec);
      AttachLeaves(arrived, rec, |w.reg.conns|, w.client.cursor);
    } else {
      R.StartRunIs(arrived, k.key, |w.reg.conns|);
      hide R.StartRun;
    }
    hide R.Delivery, R.Attach;
  }

  lemma AttachLeaves(s: R.Registry, rec: nat, conn: nat, from: int)
    requires rec < |s.records| && conn < |s.conns|
    ensures var t := R.Attach(s, rec, conn, from);
            && |t.records| == |s.records| && |t.conns| == |s.conns|
            && t.conns[conn].target == Some(R.Attachment(rec, R.Clamp(from, |s.records[rec].events|)))
            && t.conns[conn].closed == s.conns[conn].closed
            && (forall i | 0 <= i < |s.conns| && i != conn :: t.conns[i] == s.conns[i])
            && forall i | 0 <= i < |s.records| :: t.records[i] == s.records[i].(subs := t.records[i].subs)
  {
  }

  lemma OwnReconnectKeeps(k: Call, w: World)
    requires Inv(k, w) && w.client.phase.Posting? && w.client.attempt > 0 && Own(k, w)
    ensures Inv(k, Next(k, w, Posted))
  {
    PostedKeeps(k, w);
  }

  // What a response to a run that is over holds.
  lemma OverIsTold(reg: R.Registry, conn: nat, rec: nat, start: nat)
    requires R.Delivery(reg) && conn < |reg.conns| && !reg.conns[conn].closed && rec < |reg.records|
    requires reg.conns[conn].target == Some(R.Attachment(rec, start)) && reg.records[rec].origin != conn
    ensures start <= |reg.records[rec].events|
    ensures reg.conns[conn].written == Told(reg.records[rec].events[start..], reg.records[rec].result)
  {
    assert R.ConnOk(reg, conn);
    R.HistorySplit(reg.records[rec], start);
  }

  lemma HarmlessIsForeign(k: Call, w: World)
    requires Inv(k, w) && w.client.phase.Posting? && w.client.attempt > 0 && Harmless(k, w)
    ensures var r := w.reg.records[w.reg.runs[k.key]];
            Foreign(k, Next(k, w, Posted), Post(w.client), r.events[R.Clamp(w.client.cursor, |r.events|)..], r.result)
  {
    var v := Next(k, w, Posted);
    var rec := ReconnectAttaches(k, w);
    var r := w.reg.records[rec];
    var start := R.Clamp(w.client.cursor, |r.events|);
    OverIsTold(v.reg, v.conn, rec, start);
    AgreesAfter(w, v, r.events[start..], r.result);
    assert FirstOk(k, v) && v.first.Some? && k.before <= |v.reg.records| by { hide R.Delivery, Lossless, R.Apply; }
    assert Lossless(k.codec) && R.Outcome(v.reg.records[rec]).Some?;
    hide Inv, Next, R.Delivery, Lossless, R.Apply, Stream, Whole, Partial, Told, Agrees, FirstOk, Delivered, R.Outcome;
    UnheardIsForeign(k, v, Post(w.client), r.events[start..], r.result);
  }

  lemma UnheardIsForeign(k: Call, v: World, c: Client, evs: seq<StreamEvent>, res: Option<RunResult>)
    requires Lossless(k.codec) && R.Delivery(v.reg) && FirstOk(k, v) && k.before <= |v.reg.records| && v.first.Some?
    requires v.client == c && c.phase.Streaming? && c.buf == "" && v.got == 0
    requires v.conn < |v.reg.conns| && v.reg.conns[v.conn].target.Some?
    requires v.reg.conns[v.conn].target.value.rec < |v.reg.records|
    requires R.Outcome(v.reg.records[v.reg.conns[v.conn].target.value.rec]).Some?
    requires v.reg.conns[v.conn].written == Told(evs, res) && Agrees(v, c, evs, res)
    ensures Foreign(k, v, c, evs, res)
  {
    NothingRead(k.codec, Told(evs, res));
    NothingApplied(c);
    assert Told(evs, res)[..0] == [];
    hide R.Delivery, Lossless, Stream, Whole, Partial, Told, Agrees, FirstOk, R.Outcome, ApplyFrames;
  }

  lemma AgreesAfter(w: World, v: World, evs: seq<StreamEvent>, res: Option<RunResult>)
    requires Agrees(w, w.client, evs, res) && |w.reg.records| <= |v.reg.records| && Mine(v) == Mine(w)
    requires forall i | 0 <= i < |w.reg.records| ::
               v.reg.records[i].events == w.reg.records[i].events
               && v.reg.records[i].result == w.reg.records[i].result && v.reg.records[i].failure == w.reg.records[i].failure
    ensures Agrees(v, Post(w.client), evs, res)
  {
  }

  // ---- continuations that show the harm ------------------------------------------

  lemma ExecuteMore(k: Call, w: World, steps: seq<Step>, s: Step)
    requires var v := Execute(k, w, steps); R.WellFormed(v.reg) && Enabled(k, v, s)
    ensures Execute(k, w, steps + [s]) == Next(k, Execute(k, w, steps), s)
  {
    hide Next, Enabled;
    assert (steps + [s])[..|steps|] == steps;
  }

  lemma PlainIsAssumed(k: Call, w: World, steps: seq<Step>)
    requires forall s | s in steps :: s.Other? || s.Read? || s.End?
    ensures AllAssumed(k, w, steps)
  {
    hide Execute;
  }

  lemma ConsumeAllOfIt(codec: Codec, c: Client, evs: seq<StreamEvent>, res: Option<RunResult>)
    requires Lossless(codec) && c.buf == ""
    ensures Consume(codec, c, Stream(codec, Told(evs, res))) == Routed(Heard(c, evs, res, |Told(evs, res)|), false)
  {
    var f := Told(evs, res);
    var text := Stream(codec, f);
    NothingRead(codec, f);
    WholeStream(codec, f);
    hide Told, Stream, Whole, Partial, Consume, ApplyFrames, Lossless, Heard;
    ConsumeFrames(codec, c, f, 0, |text|);
    ApplyTold(c, evs, res, |f|);
    HeardBuf(c, evs, res, |f|);
    assert f[0..|f|] == f[..|f|] && text[0..|text|] == text && c.(buf := "") == c;
  }

  // A response that is there to be read from its start.
  ghost predicate Unread(k: Call, v: World, evs: seq<StreamEvent>, res: Option<RunResult>) {
    && Lossless(k.codec) && R.WellFormed(v.reg) && v.client.phase.Streaming? && v.got == 0 && v.client.buf == ""
    && v.conn < |v.reg.conns| && v.reg.conns[v.conn].written == Told(evs, res)
  }

  lemma ReadAllOfIt(k: Call, v: World, evs: seq<StreamEvent>, res: Option<RunResult>)
    requires Unread(k, v, evs, res)
    ensures var s := Read(|Stream(k.codec, Told(evs, res))|);
            && R.WellFormed(v.reg) && Enabled(k, v, s)
            && var u := Next(k, v, s);
            && u.reg == v.reg && u.first == v.first && u.client == Heard(v.client, evs, res, |Told(evs, res)|)
            && u.client.buf == "" && u.client.phase.Streaming?
  {
    var text := Stream(k.codec, Told(evs, res));
    hide Told, Stream, Consume, Lossless, Heard, R.WellFormed;
    assert text[0..0 + |text|] == text;
    ConsumeAllOfIt(k.codec, v.client, evs, res);
    HeardBuf(v.client, evs, res, |Told(evs, res)|);
  }

  // Reading all of a response in one go, and its clean end.
  lemma ReadToTheEnd(k: Call, w: World, steps: seq<Step>, evs: seq<StreamEvent>, res: Option<RunResult>)
    returns (more: seq<Step>)
    requires Unread(k, Execute(k, w, steps), evs, res)
    ensures more == [Read(|Stream(k.codec, Told(evs, res))|), End(false, false)]
    ensures var v, x := Execute(k, w, steps), Execute(k, w, steps + more);
            && x.reg == v.reg && x.first == v.first
            && x.client == Conclude(Heard(v.client, evs, res, |Told(evs, res)|), false, false)
  {
    var s := Read(|Stream(k.codec, Told(evs, res))|);
    var v := Execute(k, w, steps);
    more := [s, End(false, false)];
    hide Told, Stream, Heard, Conclude, R.WellFormed, Execute, Unread, Consume, R.Apply;
    ReadAllOfIt(k, v, evs, res);
    ExecuteMore(k, w, steps, s);
    var u := Next(k, v, s);
    ExecuteMore(k, w, steps + [s], End(false, false));
    FlushNothing(k.codec, u.client, false);
    assert steps + [s] + [End(false, false)] == steps + more;
  }

  lemma HeardBuf(c: Client, evs: seq<StreamEvent>, res: Option<RunResult>, n: nat)
    requires c.buf == ""
    ensures var d := Heard(c, evs, res, n); d.buf == "" && d.(buf := "") == d && d.phase == c.phase
  {
  }

  // What a client in an error-free state carries between POSTs.
  lemma CarriesNothing(k: Call, w: World)
    requires Inv(k, w) && w.client.phase.Posting?
    ensures w.client.result.None? && w.client.cursor == |w.client.delivered|
    ensures Mine(w).Some? ==> Mine(w).value < |w.reg.records|
  {
    hide R.Delivery, Lossless;
  }

  // A run that is over and says something else.
  lemma OverBreaks(k: Call, w: World) returns (more: seq<Step>)
    requires Inv(k, w) && w.client.phase.Posting? && w.client.attempt > 0
    requires k.key in w.reg.runs && w.reg.runs[k.key] < |w.reg.records|
    requires R.Outcome(w.reg.records[w.reg.runs[k.key]]).Some? && !Harmless(k, w)
    ensures var v := Next(k, w, Posted); AllAssumed(k, v, more) && !Kept(Execute(k, v, more))
  {
    var v := Next(k, w, Posted);
    var rec := ReconnectAttaches(k, w);
    var r := w.reg.records[rec];
    var start := R.Clamp(w.client.cursor, |r.events|);
    var evs := r.events[start..];
    OverIsTold(v.reg, v.conn, rec, start);
    assert Execute(k, v, []) == v;
    assert R.WellFormed(v.reg) && Lossless(k.codec);
    CarriesNothing(k, w);
    hide Inv, R.Delivery, Next, Execute, Told, Lossless, R.WellFormed;
    more := ReadToTheEnd(k, v, [], evs, r.result);
    PlainIsAssumed(k, v, more);
    assert [] + more == more;
    HeardAll(w, v, Execute(k, v, more), evs, r.result);
  }

  lemma HeardAll(w: World, v: World, x: World, evs: seq<StreamEvent>, res: Option<RunResult>)
    requires v.client == Post(w.client) && Mine(v) == Mine(w) && x.reg == v.reg && x.first == v.first
    requires x.client == Conclude(Heard(v.client, evs, res, |Told(evs, res)|), false, false)
    requires w.client.result.None? && w.client.cursor == |w.client.delivered|
    requires (Mine(w).Some? ==> Mine(w).value < |w.reg.records|) && |w.reg.records| <= |v.reg.records|
    requires forall i | 0 <= i < |w.reg.records| ::
               v.reg.records[i].events == w.reg.records[i].events
               && v.reg.records[i].result == w.reg.records[i].result && v.reg.records[i].failure == w.reg.records[i].failure
    ensures Kept(x) ==> Agrees(w, w.client, evs, res)
  {
    hide BackoffMs, ErrorResult;
    assert |Told(evs, res)| == |evs| + |ResultOf(res)|;
    assert evs[..|evs|] == evs;
    assert x.client.delivered == w.client.delivered + evs && x.client.cursor == w.client.cursor + |evs|;
    assert res.Some? ==> x.client.phase == Finished(res.value);
    assert Mine(x) == Mine(w);
  }

  // ---- a run that is still going --------------------------------------------------

  function Emits(rec: nat, e: StreamEvent, n: nat): seq<Step> {
    seq(n, _ => Other(R.Emit(rec, e)))
  }

  // The world after a run said n more things.
  ghost predicate Spoke(v: World, x: World, rec: nat, n: nat) {
    && x == v.(reg := x.reg) && R.Delivery(x.reg) && R.Running(x.reg, rec)
    && |x.reg.records| == |v.reg.records| && |x.reg.conns| == |v.reg.conns|
    && rec < |v.reg.records| && v.reg.records[rec].events <= x.reg.records[rec].events
    && |x.reg.records[rec].events| == |v.reg.records[rec].events| + n
    && (forall i | 0 <= i < |v.reg.records| && i != rec :: x.reg.records[i] == v.reg.records[i])
    && (forall i | 0 <= i < |v.reg.conns| ::
          x.reg.conns[i].target == v.reg.conns[i].target && x.reg.conns[i].closed == v.reg.conns[i].closed)
  }

  lemma {:induction false} EmitMany(k: Call, v: World, rec: nat, e: StreamEvent, n: nat)
    requires R.Delivery(v.reg) && R.Running(v.reg, rec)
    ensures Spoke(v, Execute(k, v, Emits(rec, e, n)), rec, n)
  {
    if n == 0 {
      assert Emits(rec, e, 0) == [];
    } else {
      EmitMany(k, v, rec, e, n - 1);
      var x := Execute(k, v, Emits(rec, e, n - 1));
      assert Emits(rec, e, n) == Emits(rec, e, n - 1) + [Other(R.Emit(rec, e))];
      assert R.WellFormed(x.reg);
      hide Execute;
      ExecuteMore(k, v, Emits(rec, e, n - 1), Other(R.Emit(rec, e)));
      SpokeOnce(v, x, rec, n - 1, e);
    }
  }

  lemma SpokeOnce(v: World, x: World, rec: nat, n: nat, e: StreamEvent)
    requires Spoke(v, x, rec, n)
    ensures Spoke(v, x.(reg := R.Apply(x.reg, R.Emit(rec, e))), rec, n + 1)
  {
    R.ApplyKeepsDelivery(x.reg, R.Emit(rec, e));
    hide R.Delivery, R.Resume;
  }

  // An open response to a running run holds its events.
  lemma RunningIsTold(reg: R.Registry, conn: nat, rec: nat, start: nat)
    requires R.Delivery(reg) && conn < |reg.conns| && !reg.conns[conn].closed && R.Running(reg, rec)
    requires reg.conns[conn].target == Some(R.Attachment(rec, start))
    ensures start <= |reg.records[rec].events|
    ensures reg.conns[conn].written == Told(reg.records[rec].events[start..], None)
  {
    assert R.ConnOk(reg, conn);
    R.HistorySplit(reg.records[rec], start);
  }

  // More events than this call's run ever had, so far.
  function Outgrown(w: World): nat {
    match Mine(w)
    case None => 1
    case Some(rec) => if rec < |w.reg.records| then |w.reg.records[rec].events| + 1 else 1
  }

  // A run that is still going and is not this call's.
  lemma RunningBreaks(k: Call, w: World, v: World, rec: nat, e: StreamEvent) returns (more: seq<Step>)
    requires Lossless(k.codec) && Attached(w, v, rec) && R.Running(v.reg, rec) && Mine(w) != Some(rec)
    requires Mine(w).Some? ==> Mine(w).value < |w.reg.records|
    requires w.client.result.None?
    ensures AllAssumed(k, v, more) && !Kept(Execute(k, v, more))
  {
    var n := Outgrown(w);
    var steps := Emits(rec, e, n);
    EmitMany(k, v, rec, e, n);
    var u := Execute(k, v, steps);
    var start := v.reg.conns[v.conn].target.value.start;
    hide Execute, Told, Lossless, R.Delivery, Emits, Kept;
    var evs := SpokenIsUnread(k, w, v, u, rec, n);
    var rest := ReadToTheEnd(k, v, steps, evs, None);
    more := steps + rest;
    EmitsArePlain(rec, e, n);
    PlainIsAssumed(k, v, more);
    TooMany(w, v, u, Execute(k, v, more), rec, evs);
  }

  lemma EmitsArePlain(rec: nat, e: StreamEvent, n: nat)
    ensures forall s | s in Emits(rec, e, n) :: s.Other?
  {
  }

  lemma SpokenIsUnread(k: Call, w: World, v: World, u: World, rec: nat, n: nat) returns (evs: seq<StreamEvent>)
    requires Lossless(k.codec) && Attached(w, v, rec) && R.Running(v.reg, rec) && Spoke(v, u, rec, n)
    ensures Unread(k, u, evs, None) && |evs| >= n
  {
    var start := v.reg.conns[v.conn].target.value.start;
    RunningIsTold(u.reg, u.conn, rec, start);
    RunningIsTold(v.reg, v.conn, rec, start);
    evs := u.reg.records[rec].events[start..];
    assert R.WellFormed(u.reg);
    hide R.Delivery, Told, Lossless;
  }

  lemma TooMany(w: World, v: World, u: World, x: World, rec: nat, evs: seq<StreamEvent>)
    requires Attached(w, v, rec) && Spoke(v, u, rec, Outgrown(w)) && Mine(w) != Some(rec)
    requires Mine(w).Some? ==> Mine(w).value < |w.reg.records|
    requires w.client.result.None? && |evs| >= Outgrown(w)
    requires x.reg == u.reg && x.first == u.first
    requires x.client == Conclude(Heard(u.client, evs, None, |Told(evs, None)|), false, false)
    ensures !Kept(x)
  {
    hide R.Delivery, BackoffMs, ErrorResult;
    assert |Told(evs, None)| == |evs|;
    assert x.client.cursor == w.client.cursor + |evs|;
    assert Mine(x) == Mine(w);
  }

  /**
   A reconnect is safe exactly if the key still names this call's own run, or names a run that is over and goes on just
   as this call's run did. In every other case some continuation in which nothing else goes wrong hands the caller an
   event or a result that is not its run's.
   */
  lemma ReconnectSafeIff(k: Call, w: World)
    requires Inv(k, w) && w.client.phase.Posting? && w.client.attempt > 0
    ensures var v := Next(k, w, Posted);
            (forall steps | AllAssumed(k, v, steps) :: Kept(Execute(k, v, steps))) <==> Own(k, w) || Harmless(k, w)
  {
    var v := Next(k, w, Posted);
    var rec := ReconnectAttaches(k, w);
    if Own(k, w) {
      OwnReconnectKeeps(k, w);
      forall steps | AllAssumed(k, v, steps) ensures Kept(Execute(k, v, steps)) {
        FaithfulGoesOn(k, v, steps);
        InvIsKept(k, Execute(k, v, steps));
      }
    } else if Harmless(k, w) {
      var r := w.reg.records[w.reg.runs[k.key]];
      var evs := r.events[R.Clamp(w.client.cursor, |r.events|)..];
      HarmlessIsForeign(k, w);
      forall steps | AllAssumed(k, v, steps) ensures Kept(Execute(k, v, steps)) {
        ForeignGoesOn(k, v, steps, Post(w.client), evs, r.result);
        if Inv(k, Execute(k, v, steps)) {
          InvIsKept(k, Execute(k, v, steps));
        } else {
          ForeignIsKept(k, Execute(k, v, steps), Post(w.client), evs, r.result);
        }
      }
    } else {
      var more := UnsafeReconnect(k, w, StreamEvent(AssistantText, "", false));
    }
    hide Inv, AllAssumed, Kept, Execute, Next, Own, Harmless, Foreign, Attached;
  }

  lemma InvIsKept(k: Call, w: World)
    requires Inv(k, w)
    ensures Kept(w)
  {
  }

  lemma UnsafeReconnect(k: Call, w: World, e: StreamEvent) returns (more: seq<Step>)
    requires Inv(k, w) && w.client.phase.Posting? && w.client.attempt > 0 && !Own(k, w) && !Harmless(k, w)
    ensures var v := Next(k, w, Posted); AllAssumed(k, v, more) && !Kept(Execute(k, v, more))
  {
    var v := Next(k, w, Posted);
    var rec := ReconnectAttaches(k, w);
    CarriesNothing(k, w);
    assert Lossless(k.codec);
    hide Inv, Next, AllAssumed, Execute, Kept, Lossless, Harmless;
    if k.key in w.reg.runs && R.Outcome(w.reg.records[rec]).Some? {
      more := OverBreaks(k, w);
    } else {
      assert R.Running(v.reg, rec);
      more := RunningBreaks(k, w, v, rec, e);
    }
  }
}
