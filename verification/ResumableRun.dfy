/**
 The run protocol end to end: one client call against the gateway's registry,
 with every other party free to act, connections cut at any byte, and up to
 five reconnects.
 */
module ResumableRun {
  import opened Text
  import opened Framing
  import opened Wire
  import opened GatewayClient
  import opened FrameStream
  import R = RunRegistry
  import G = RegistryGrowth

  // `first` is the connection of the first POST, `conn` the one being read and
  // `got` the bytes read from it. `answers` and `chunks` record what the client saw.
  datatype World = World(reg: R.Registry, client: Client, first: Option<nat>, conn: nat, got: nat,
                         answers: seq<Answer>, chunks: seq<string>)

  datatype Step =
    | Other(action: R.Action)                                  // anyone else, and the CLI itself
    | Posted                                                   // a POST whose response arrives
    | PostLost(reached: bool, message: string, aborted: bool)  // fetch threw; the gateway may have seen it
    | PostRefused(answer: Answer)                              // 401 or another HTTP error
    | Read(n: nat)
    | End(broke: bool, aborted: bool)

  // The call under study: the codec on the wire, the session key, and how
  // many run records the gateway had made before the call.
  datatype Call = Call(codec: Codec, key: R.Key, before: nat)

  function Request(k: Call, c: Client): R.Action {
    if c.attempt == 0 then R.Dispatch(k.key) else R.Reconnect(k.key, c.cursor)
  }

  ghost predicate Enabled(k: Call, w: World, s: Step) {
    match s
    case Other(a) => R.Enabled(w.reg, a)
    case Posted | PostLost(_, _, _) => w.client.phase.Posting?
    case PostRefused(a) => w.client.phase.Posting? && (a.Unauthorized? || a.HttpFailure?)
    case Read(n) => w.client.phase.Streaming? && w.conn < |w.reg.conns|
                    && w.got + n <= |Stream(k.codec, w.reg.conns[w.conn].written)|
    case End(_, _) => w.client.phase.Streaming?
  }

  ghost function Next(k: Call, w: World, s: Step): World
    requires R.WellFormed(w.reg) && Enabled(k, w, s)
  {
    var sent := R.Apply(w.reg, Request(k, w.client));
    var first := if w.client.attempt == 0 then Some(|w.reg.conns|) else w.first;
    match s
    case Other(a) => w.(reg := R.Apply(w.reg, a))
    case Posted => w.(reg := sent, first := first, conn := |w.reg.conns|, got := 0, client := Post(w.client))
    case PostLost(reached, message, aborted) =>
      var a := FetchThrew(message, aborted);
      var v := w.(client := Answered(k.codec, w.client, a), answers := w.answers + [a]);
      if reached then v.(reg := sent, first := first) else v
    case PostRefused(a) => w.(client := Answered(k.codec, w.client, a), answers := w.answers + [a])
    case Read(n) =>
      var bytes := Stream(k.codec, w.reg.conns[w.conn].written)[w.got..w.got + n];
      var r := Consume(k.codec, w.client, bytes);
      var v := w.(got := w.got + n, chunks := w.chunks + [bytes]);
      if r.threw
      then v.(client := Conclude(r.client, true, false), answers := w.answers + [Opened(v.chunks, true, false)], chunks := [])
      else v.(client := r.client)
    case End(broke, aborted) =>
      var r := Flush(k.codec, w.client, broke);
      w.(client := Conclude(r.client, r.threw, aborted), answers := w.answers + [Opened(w.chunks, broke, aborted)],
         chunks := [])
  }

  // The record this call's first POST was given, once it was given one.
  function Mine(w: World): Option<nat> {
    if w.first.None? || w.first.value >= |w.reg.conns| then None
    else match w.reg.conns[w.first.value].target
      case None => None
      case Some(a) => Some(a.rec)
  }

  // The session key still names this call's record.
  predicate Own(k: Call, w: World) {
    && Mine(w).Some?
    && k.key in w.reg.runs && w.reg.runs[k.key] == Mine(w).value
  }

  // What the client relies on: its first POST reaches the gateway, and whenever
  // a later POST arrives there, its record is still the one under the key.
  predicate Assumed(k: Call, w: World, s: Step) {
    match s
    case Posted => w.client.attempt > 0 ==> Own(k, w)
    case PostLost(reached, _, _) => if w.client.attempt == 0 then reached else reached ==> Own(k, w)
    case _ => true
  }

  // ---- the invariant ---------------------------------------------------------

  ghost predicate Delivered(w: World) {
    match Mine(w)
    case None => w.client.cursor == 0 && w.client.delivered == []
    case Some(rec) =>
      && rec < |w.reg.records|
      && w.client.cursor <= |w.reg.records[rec].events|
      && w.client.delivered == w.reg.records[rec].events[..w.client.cursor]
  }

  // The client has applied the first n frames of the response it reads.
  ghost predicate UpToDate(w: World, c: Client, n: nat)
    requires w.conn < |w.reg.conns|
  {
    match w.reg.conns[w.conn].target
    case None => w.first == Some(w.conn) && c.cursor == 0 && c.result.None?
    case Some(a) =>
      && Mine(w) == Some(a.rec) && a.rec < |w.reg.records|
      && var r := w.reg.records[a.rec];
      && (c.result.None? ==> c.cursor == a.start + n)
      && (c.result.Some? ==> c.result == R.Outcome(r) && c.cursor == |r.events| && a.start + n == |r.events| + 1)
  }

  // A returned result ends this call's run, and every event of the run was handed over before it.
  ghost predicate FinishedOk(w: World) {
    w.client.phase.Finished? ==>
      && Mine(w).Some? && Mine(w).value < |w.reg.records|
      && var r := w.reg.records[Mine(w).value];
      && R.Outcome(r) == Some(w.client.phase.result)
      && w.client.delivered == r.events
  }

  ghost predicate Reading(k: Call, w: World) {
    && w.conn < |w.reg.conns|
    && var frames := w.reg.conns[w.conn].written;
    && w.got <= |Stream(k.codec, frames)|
    && w.client.buf == Partial(k.codec, frames, w.got)
    && UpToDate(w, w.client, Whole(k.codec, frames, w.got))
  }

  ghost predicate FirstOk(k: Call, w: World) {
    match w.first
    case None => (w.client.attempt == 0 && w.client.phase.Posting?) || w.client.phase.GaveUp?
    case Some(f) =>
      && f < |w.reg.conns|
      && (w.reg.conns[f].target.Some? ==> w.reg.conns[f].target.value.start == 0)
      && (Mine(w).Some? ==> k.before <= Mine(w).value)
      && (w.client.phase.Posting? ==> w.client.attempt > 0)
  }

  ghost predicate Inv(k: Call, w: World) {
    && Lossless(k.codec)
    && R.Delivery(w.reg)
    && FirstOk(k, w)
    && k.before <= |w.reg.records|
    && Delivered(w)
    && (w.client.phase.Streaming? ==> Reading(k, w))
    && (w.client.phase.Posting? ==> w.client.result.None?)
    && FinishedOk(w)
  }

  // ---- each kind of step keeps it --------------------------------------------

  lemma {:induction false} StreamPrefix(codec: Codec, a: seq<Frame>, b: seq<Frame>)
    requires a <= b
    ensures Stream(codec, a) <= Stream(codec, b)
    decreases |a|
  {
    if a != [] {
      assert Lines(codec, a)[1..] == Lines(codec, a[1..]) && Lines(codec, b)[1..] == Lines(codec, b[1..]);
      StreamPrefix(codec, a[1..], b[1..]);
    }
  }

  lemma NothingRead(codec: Codec, frames: seq<Frame>)
    ensures Whole(codec, frames, 0) == 0 && Partial(codec, frames, 0) == ""
  {
    assert Stream(codec, frames)[..0] == "";
  }

  lemma GrowthKeeps(k: Call, w: World, reg: R.Registry)
    requires Inv(k, w) && R.Delivery(reg) && G.Grows(w.reg, reg)
    ensures Inv(k, w.(reg := reg))
  {
    DeliveredGrows(k, w, reg);
    if w.client.phase.Streaming? {
      ReadingGrows(k, w, reg);
    }
    hide R.Delivery, G.Grows, Lossless, FirstOk, Delivered, Reading, FinishedOk;
  }

  lemma DeliveredGrows(k: Call, w: World, reg: R.Registry)
    requires R.Delivery(w.reg) && R.Delivery(reg) && G.Grows(w.reg, reg) && FirstOk(k, w) && Delivered(w)
    requires k.before <= |w.reg.records| && FinishedOk(w)
    ensures var v := w.(reg := reg);
            && FirstOk(k, v) && Delivered(v) && FinishedOk(v) && |w.reg.records| <= |reg.records|
            && (Mine(w).Some? ==> Mine(v) == Mine(w))
  {
    if w.first.Some? {
      assert G.ConnGrows(w.reg.conns[w.first.value], reg.conns[w.first.value]);
      assert R.ConnOk(w.reg, w.first.value) && R.ConnOk(reg, w.first.value);
    }
    if Mine(w).Some? {
      assert G.RecordGrows(w.reg.records[Mine(w).value], reg.records[Mine(w).value]);
    }
    hide R.Delivery, G.Grows;
  }

  lemma ReadingGrows(k: Call, w: World, reg: R.Registry)
    requires R.Delivery(w.reg) && R.Delivery(reg) && G.Grows(w.reg, reg) && Reading(k, w)
    requires Mine(w).Some? ==> Mine(w.(reg := reg)) == Mine(w)
    ensures Reading(k, w.(reg := reg))
  {
    var x, y := w.reg.conns[w.conn], reg.conns[w.conn];
    assert G.ConnGrows(x, y);
    assert x.target.None? ==> x.written == [] by {
      assert R.ConnOk(w.reg, w.conn);
    }
    if x.target.None? {
      NothingStreams(k.codec);
      NothingRead(k.codec, x.written);
    }
    UpToDateGrows(k, w, reg, Whole(k.codec, x.written, w.got));
    StreamPrefix(k.codec, x.written, y.written);
    hide R.Delivery, G.Grows, Stream, SplitAll, R.History, R.Share, UpToDate;
    assert Stream(k.codec, x.written)[..w.got] == Stream(k.codec, y.written)[..w.got];
  }

  lemma UpToDateGrows(k: Call, w: World, reg: R.Registry, n: nat)
    requires R.Delivery(w.reg) && R.Delivery(reg) && G.Grows(w.reg, reg) && w.conn < |w.reg.conns| && UpToDate(w, w.client, n)
    requires Mine(w).Some? ==> Mine(w.(reg := reg)) == Mine(w)
    requires w.reg.conns[w.conn].target.None? ==> n == 0
    ensures UpToDate(w.(reg := reg), w.client, n)
  {
    var x, y := w.reg.conns[w.conn], reg.conns[w.conn];
    assert G.ConnGrows(x, y);
    if x.target.Some? {
      assert R.ConnOk(w.reg, w.conn);
      assert G.RecordGrows(w.reg.records[x.target.value.rec], reg.records[x.target.value.rec]);
    } else if y.target.Some? {
      assert R.ConnOk(reg, w.conn);
    }
    hide R.Delivery, G.Grows, R.History, R.Share, R.FailureFrames;
  }

  lemma NothingStreams(codec: Codec)
    ensures Stream(codec, []) == ""
  {
  }

  // What closes a response's share of a run, if anything does yet.
  function Closing(r: R.Record, conn: nat): seq<Frame> {
    R.ResultFrames(r) + R.FailureFrames(r, conn)
  }

  lemma ShareIs(r: R.Record, conn: nat)
    requires r.result.Some? ==> r.failure.None?
    ensures R.Share(r, conn) == EventFrames(r.events) + Closing(r, conn)
    ensures |Closing(r, conn)| <= 1 && (Closing(r, conn) != [] ==> R.Outcome(r).Some? && Closing(r, conn) == [ResultFrame(R.Outcome(r).value)])
    ensures R.Outcome(r).None? ==> Closing(r, conn) == []
  {
  }

  // The state of a client that has applied the first q frames of a run's share.
  function Caught(c: Client, r: R.Record, q: nat): Client {
    var n := if q <= |r.events| then q else |r.events|;
    c.(cursor := n, delivered := r.events[..n], result := if q > |r.events| then R.Outcome(r) else None)
  }

  // Applying a stretch of a run's share to a client that is up to date before it.
  lemma {:induction false} ApplyHistory(c: Client, r: R.Record, conn: nat, p: nat, q: nat)
    requires r.result.Some? ==> r.failure.None?
    requires p <= q <= |R.Share(r, conn)| && p <= |r.events|
    requires c.cursor == p && c.delivered == r.events[..p] && c.result.None?
    ensures ApplyFrames(c, R.Share(r, conn)[p..q]) == Caught(c, r, q)
    decreases q - p
  {
    var h := R.Share(r, conn);
    ShareIs(r, conn);
    hide R.Share, Closing, R.Outcome;
    if p < q {
      assert h[p..q][0] == h[p] && h[p..q][1..] == h[p + 1..q];
      if p < |r.events| {
        assert h[p] == EventFrame(r.events[p]);
        assert r.events[..p] + [r.events[p]] == r.events[..p + 1];
        var d := c.(delivered := r.events[..p + 1], cursor := p + 1);
        ApplyHistory(d, r, conn, p + 1, q);
        assert Caught(d, r, q) == Caught(c, r, q);
      } else {
        assert h[p..q] == [ResultFrame(R.Outcome(r).value)];
        assert h[p..q][1..] == [];
      }
    }
  }

  lemma SliceOfPrefix<T>(h: seq<T>, start: nat, w: seq<T>, m: nat, n: nat)
    requires start <= |h| && w <= h[start..] && m <= n <= |w|
    ensures w[m..n] == h[start + m..start + n]
  {
    assert forall i | m <= i < n :: w[i] == h[start..][i];
  }

  // Whatever frames of the current response are applied, the client stays on its run's history.
  lemma AdvanceKeeps(k: Call, w: World, m: nat, n: nat)
    requires R.Delivery(w.reg) && Delivered(w) && w.conn < |w.reg.conns|
    requires m <= n <= |w.reg.conns[w.conn].written| && UpToDate(w, w.client, m)
    ensures var d := ApplyFrames(w.client, w.reg.conns[w.conn].written[m..n]);
            && d == w.client.(cursor := d.cursor, delivered := d.delivered, result := d.result)
            && Delivered(w.(client := d)) && UpToDate(w, d, n)
  {
    var x := w.reg.conns[w.conn];
    assert R.ConnOk(w.reg, w.conn);
    if x.target.None? {
      assert x.written[m..n] == [];
    } else {
      assert R.RecordOk(w.reg, x.target.value.rec);
      hide R.Delivery;
      AdvanceOn(w, m, n);
    }
  }

  lemma AdvanceOn(w: World, m: nat, n: nat)
    requires Delivered(w) && w.conn < |w.reg.conns| && R.ConnOk(w.reg, w.conn) && w.reg.conns[w.conn].target.Some?
    requires R.RecordOk(w.reg, w.reg.conns[w.conn].target.value.rec)
    requires m <= n <= |w.reg.conns[w.conn].written| && UpToDate(w, w.client, m)
    ensures var d := ApplyFrames(w.client, w.reg.conns[w.conn].written[m..n]);
            && d == w.client.(cursor := d.cursor, delivered := d.delivered, result := d.result)
            && Delivered(w.(client := d)) && UpToDate(w, d, n)
  {
    var x := w.reg.conns[w.conn];
    var a := x.target.value;
    var r := w.reg.records[a.rec];
    ShareIs(r, w.conn);
    if w.client.result.Some? {
      assert m == n && x.written[m..n] == [];
    } else {
      hide R.Share, Closing;
      AdvanceFresh(w, r, a, m, n);
    }
    hide R.ConnOk, R.RecordOk, R.Share, Closing, R.Outcome;
  }

  lemma AdvanceFresh(w: World, r: R.Record, a: R.Attachment, m: nat, n: nat)
    requires w.conn < |w.reg.conns| && w.reg.conns[w.conn].target == Some(a) && Mine(w) == Some(a.rec)
    requires a.rec < |w.reg.records| && r == w.reg.records[a.rec] && (r.result.Some? ==> r.failure.None?)
    requires a.start <= |r.events| && w.reg.conns[w.conn].written <= R.Share(r, w.conn)[a.start..]
    requires m <= n <= |w.reg.conns[w.conn].written| && a.start + m <= |r.events|
    requires w.client.result.None? && w.client.cursor == a.start + m && w.client.delivered == r.events[..a.start + m]
    ensures var d := ApplyFrames(w.client, w.reg.conns[w.conn].written[m..n]);
            && d == w.client.(cursor := d.cursor, delivered := d.delivered, result := d.result)
            && Delivered(w.(client := d)) && UpToDate(w, d, n)
  {
    hide R.Share, Closing, R.Outcome, ApplyFrames, Delivered, UpToDate, Caught;
    var h, x := R.Share(r, w.conn), w.reg.conns[w.conn].written;
    assert a.start + n <= |h| && x[m..n] == h[a.start + m..a.start + n] by {
      ShareIs(r, w.conn);
      SliceOfPrefix(h, a.start, x, m, n);
    }
    assert a.start + n <= |r.events| + 1 && (a.start + n > |r.events| ==> R.Outcome(r).Some?) by {
      ShareIs(r, w.conn);
    }
    assert ApplyFrames(w.client, x[m..n]) == Caught(w.client, r, a.start + n) by {
      ApplyHistory(w.client, r, w.conn, a.start + m, a.start + n);
    }
    CaughtIsUpToDate(w, r, a, n);
  }

  lemma CaughtIsUpToDate(w: World, r: R.Record, a: R.Attachment, n: nat)
    requires w.conn < |w.reg.conns| && w.reg.conns[w.conn].target == Some(a) && Mine(w) == Some(a.rec)
    requires a.rec < |w.reg.records| && r == w.reg.records[a.rec] && a.start + n <= |r.events| + 1
    requires a.start + n > |r.events| ==> R.Outcome(r).Some?
    ensures var d := Caught(w.client, r, a.start + n);
            && d == w.client.(cursor := d.cursor, delivered := d.delivered, result := d.result)
            && Delivered(w.(client := d)) && UpToDate(w, d, n)
  {
    hide R.Outcome;
  }

  lemma ReadKeeps(k: Call, w: World, n: nat)
    requires Inv(k, w) && Enabled(k, w, Read(n))
    ensures Inv(k, Next(k, w, Read(n)))
  {
    hide SplitAll, R.Delivery, Consume, ApplyFrames, Stream, Lossless;
    var frames := w.reg.conns[w.conn].written;
    ConsumeFrames(k.codec, w.client, frames, w.got, w.got + n);
    var m, m2 := Whole(k.codec, frames, w.got), Whole(k.codec, frames, w.got + n);
    hide Whole, Partial;
    AdvanceKeeps(k, w, m, m2);
    ApplyFramesIgnoresBuf(w.client, "", frames[m..m2]);
  }

  lemma {:induction false} ApplyFramesIgnoresBuf(c: Client, buf: string, frames: seq<Frame>)
    ensures ApplyFrames(c.(buf := buf), frames) == ApplyFrames(c, frames).(buf := buf)
    decreases |frames|
  {
    if frames != [] {
      match frames[0]
      case EventFrame(e) =>
        ApplyFramesIgnoresBuf(c.(delivered := c.delivered + [e], cursor := c.cursor + 1), buf, frames[1..]);
      case ResultFrame(r) => ApplyFramesIgnoresBuf(c.(result := Some(r)), buf, frames[1..]);
    }
  }

  // After the flush the client is still on its run's history.
  lemma FlushedKeeps(k: Call, w: World, broke: bool)
    requires Inv(k, w) && w.client.phase.Streaming?
    ensures var d := Flush(k.codec, w.client, broke).client;
            && d == w.client.(cursor := d.cursor, delivered := d.delivered, result := d.result)
            && Delivered(w.(client := d)) && exists n :: UpToDate(w, d, n)
  {
    var frames := w.reg.conns[w.conn].written;
    var m := Whole(k.codec, frames, w.got);
    FlushFrames(k.codec, w.client, frames, w.got);
    BrokenFlush(k.codec, w.client);
    hide SplitAll, R.Delivery, Flush, Stream, Lossless, Whole, Partial, FirstOk;
    var n := if !broke && m < |frames| && w.client.buf == k.codec.render(frames[m]) then m + 1 else m;
    AdvanceKeeps(k, w, m, n);
    assert frames[m..m] == [];
  }

  lemma ConcludedKeeps(k: Call, w: World, d: Client, n: nat, broke: bool, aborted: bool, answers: seq<Answer>)
    requires Inv(k, w) && w.client.phase.Streaming?
    requires d == w.client.(cursor := d.cursor, delivered := d.delivered, result := d.result)
    requires Delivered(w.(client := d)) && UpToDate(w, d, n)
    ensures Inv(k, w.(client := Conclude(d, broke, aborted), answers := answers, chunks := []))
  {
    hide SplitAll, R.Delivery, Stream, Lossless, Whole, Partial, BackoffMs, ErrorResult;
  }

  lemma EndKeeps(k: Call, w: World, broke: bool, aborted: bool)
    requires Inv(k, w) && Enabled(k, w, End(broke, aborted))
    ensures Inv(k, Next(k, w, End(broke, aborted)))
  {
    var r := Flush(k.codec, w.client, broke);
    FlushedKeeps(k, w, broke);
    var n :| UpToDate(w, r.client, n);
    ConcludedKeeps(k, w, r.client, n, r.threw, aborted, w.answers + [Opened(w.chunks, broke, aborted)]);
    hide Inv, Conclude, Flush, R.Apply;
  }

  lemma BrokenFlush(codec: Codec, c: Client)
    ensures Flush(codec, c, true) == Routed(c, true)
  {
  }

  lemma PostedKeeps(k: Call, w: World)
    requires Inv(k, w) && w.client.phase.Posting? && Assumed(k, w, Posted)
    ensures Inv(k, Next(k, w, Posted))
  {
    var a := Request(k, w.client);
    var v := Next(k, w, Posted);
    SendKeeps(k, w);
    NothingRead(k.codec, v.reg.conns[v.conn].written);
  }

  // A POST that reaches the gateway opens a response of this call's own run, at the client's cursor.
  lemma SendKeeps(k: Call, w: World)
    requires Inv(k, w) && w.client.phase.Posting? && (w.client.attempt > 0 ==> Own(k, w))
    ensures var reg := R.Apply(w.reg, Request(k, w.client));
            var first := if w.client.attempt == 0 then Some(|w.reg.conns|) else w.first;
            var v := w.(reg := reg, first := first);
            && R.Delivery(reg) && |reg.conns| == |w.reg.conns| + 1
            && v.first.Some? && v.first.value < |reg.conns|
            && (reg.conns[v.first.value].target.Some? ==> reg.conns[v.first.value].target.value.start == 0)
            && (Mine(v).Some? ==> k.before <= Mine(v).value) && k.before <= |reg.records|
            && Delivered(v)
            && match reg.conns[|w.reg.conns|].target
               case None => v.first == Some(|w.reg.conns|) && v.client.cursor == 0
               case Some(t) => Mine(v) == Some(t.rec) && t.rec < |reg.records| && t.start == v.client.cursor
  {
    var a := Request(k, w.client);
    var reg := R.Apply(w.reg, a);
    R.ApplyKeepsDelivery(w.reg, a);
    G.ApplyGrows(w.reg, a);
    assert R.ConnOk(reg, |w.reg.conns|);
    if w.client.attempt == 0 {
      DispatchOpens(w.reg, k.key);
    } else {
      var f, rec := w.first.value, Mine(w).value;
      assert G.ConnGrows(w.reg.conns[f], reg.conns[f]) && G.RecordGrows(w.reg.records[rec], reg.records[rec]);
      ReconnectOpens(w.reg, k.key, w.client.cursor);
    }
  }

  lemma DispatchOpens(s: R.Registry, key: R.Key)
    requires R.Delivery(s)
    ensures var t := R.Apply(s, R.Dispatch(key));
            && |t.conns| == |s.conns| + 1
            && (t.conns[|s.conns|].target.Some? ==>
                  t.conns[|s.conns|].target.value.start == 0 && t.conns[|s.conns|].target.value.rec == |s.records|)
  {
    var conn := |s.conns|;
    var arrived := s.(conns := s.conns + [R.NewConn]);
    if key !in s.runs {
      G.StartRunGrows(arrived, key, conn);
    } else if !R.Live(s, s.runs[key]) {
      G.SupersedeGrows(arrived, R.Waiter(key, s.runs[key], conn));
    }
  }

  lemma ReconnectOpens(s: R.Registry, key: R.Key, cursor: nat)
    requires R.Delivery(s) && key in s.runs
    ensures var t := R.Apply(s, R.Reconnect(key, cursor));
            && |t.conns| == |s.conns| + 1
            && t.conns[|s.conns|].target
               == Some(R.Attachment(s.runs[key], R.Clamp(cursor, |s.records[s.runs[key]].events|)))
  {
    G.AttachGrows(s.(conns := s.conns + [R.NewConn]), s.runs[key], |s.conns|, cursor);
  }

  lemma PostLostKeeps(k: Call, w: World, reached: bool, message: string, aborted: bool)
    requires var s := PostLost(reached, message, aborted);
             Inv(k, w) && Enabled(k, w, s) && Assumed(k, w, s)
    ensures Inv(k, Next(k, w, PostLost(reached, message, aborted)))
  {
    if reached {
      SendKeeps(k, w);
    }
  }

  lemma NextKeeps(k: Call, w: World, s: Step)
    requires Inv(k, w) && Enabled(k, w, s) && Assumed(k, w, s)
    ensures Inv(k, Next(k, w, s))
  {
    match s {
      case Other(a) =>
        R.ApplyKeepsDelivery(w.reg, a);
        G.ApplyGrows(w.reg, a);
        GrowthKeeps(k, w, R.Apply(w.reg, a));
      case Posted => PostedKeeps(k, w);
      case PostLost(reached, message, aborted) => PostLostKeeps(k, w, reached, message, aborted);
      case PostRefused(a) =>
      case Read(n) => ReadKeeps(k, w, n);
      case End(broke, aborted) => EndKeeps(k, w, broke, aborted);
    }
  }

  // ---- what the client saw, as a network for gatewayRun ----------------------

  ghost function After(codec: Codec, answers: seq<Answer>): Client {
    if answers == [] then Fresh
    else Answered(codec, After(codec, answers[..|answers| - 1]), answers[|answers| - 1])
  }

  ghost predicate Seen(k: Call, w: World) {
    && (forall i | 0 <= i < |w.answers| ::
          After(k.codec, w.answers[..i]).phase.Posting? && After(k.codec, w.answers[..i]).attempt == i)
    && var c := After(k.codec, w.answers);
    && (c.phase.Posting? ==> c.attempt == |w.answers|)
    && if w.client.phase.Streaming?
       then c.phase.Posting? && ConsumeAll(k.codec, Post(c), w.chunks) == Routed(w.client, false)
       else w.client == c && w.chunks == []
  }

  lemma {:induction false} ConsumeAllSnoc(codec: Codec, c: Client, chunks: seq<string>, last: string)
    requires !ConsumeAll(codec, c, chunks).threw
    ensures ConsumeAll(codec, c, chunks + [last]) == Consume(codec, ConsumeAll(codec, c, chunks).client, last)
    decreases |chunks|
  {
    hide Consume;
    if chunks == [] {
      var d := Consume(codec, c, last);
      assert ConsumeAll(codec, d.client, []) == Routed(d.client, false);
    } else {
      assert (chunks + [last])[1..] == chunks[1..] + [last];
      ConsumeAllSnoc(codec, Consume(codec, c, chunks[0]).client, chunks[1..], last);
    }
  }

  lemma AnswerSeen(k: Call, w: World, a: Answer, client: Client)
    requires Seen(k, w) && After(k.codec, w.answers).phase.Posting?
    requires client == Answered(k.codec, After(k.codec, w.answers), a)
    ensures Seen(k, w.(client := client, answers := w.answers + [a], chunks := []))
  {
    hide Answered;
    AnsweredFacts(k.codec, After(k.codec, w.answers), a);
    var more := w.answers + [a];
    assert more[..|more| - 1] == w.answers;
    forall i | 0 <= i < |more|
      ensures After(k.codec, more[..i]).phase.Posting? && After(k.codec, more[..i]).attempt == i
    {
      if i < |w.answers| { assert more[..i] == w.answers[..i]; }
    }
  }

  lemma NextSeen(k: Call, w: World, s: Step)
    requires R.WellFormed(w.reg) && Enabled(k, w, s) && Seen(k, w)
    ensures Seen(k, Next(k, w, s))
  {
    hide Consume, Flush, R.Apply, After, Stream;
    var c := After(k.codec, w.answers);
    match s {
      case Other(a) =>
      case Posted => assert ConsumeAll(k.codec, Post(c), []) == Routed(Post(c), false);
      case PostLost(reached, message, aborted) =>
        AnswerSeen(k, w, FetchThrew(message, aborted), Next(k, w, s).client);
      case PostRefused(a) => AnswerSeen(k, w, a, Next(k, w, s).client);
      case Read(n) =>
        var bytes := Stream(k.codec, w.reg.conns[w.conn].written)[w.got..w.got + n];
        ConsumeAllSnoc(k.codec, Post(c), w.chunks, bytes);
        if Consume(k.codec, w.client, bytes).threw {
          AnswerSeen(k, w, Opened(w.chunks + [bytes], true, false), Next(k, w, s).client);
        } else {
          ConsumeKeeps(k.codec, Post(c), w.chunks + [bytes]);
        }
      case End(broke, aborted) =>
        AnswerSeen(k, w, Opened(w.chunks, broke, aborted), Next(k, w, s).client);
    }
  }

  lemma {:induction false} PlayIsAfter(codec: Codec, answers: seq<Answer>, net: nat -> Answer, i: nat)
    requires i < |answers|
    requires forall j | 0 <= j < |answers| ::
               net(j) == answers[j] && After(codec, answers[..j]).phase.Posting? && After(codec, answers[..j]).attempt == j
    requires !After(codec, answers).phase.Posting?
    requires |answers| <= MAX_RECONNECTS + 1
    ensures Play(codec, After(codec, answers[..i]), net) == After(codec, answers)
    decreases |answers| - i
  {
    hide Answered;
    var c := After(codec, answers[..i]);
    PlayUnfold(codec, c, net);
    assert answers[..i + 1][..i] == answers[..i] && answers[..i + 1][i] == answers[i];
    assert Answered(codec, c, net(i)) == After(codec, answers[..i + 1]);
    if i + 1 == |answers| {
      assert answers[..i + 1] == answers;
    } else {
      PlayIsAfter(codec, answers, net, i + 1);
    }
  }

  // ---- whole calls ------------------------------------------------------------

  function Start(reg: R.Registry): World {
    World(reg, Fresh, None, 0, 0, [], [])
  }

  ghost function Execute(k: Call, w: World, steps: seq<Step>): World
    decreases |steps|
  {
    if steps == [] then w
    else
      var v := Execute(k, w, steps[..|steps| - 1]);
      if R.WellFormed(v.reg) && Enabled(k, v, steps[|steps| - 1]) then Next(k, v, steps[|steps| - 1]) else v
  }

  ghost predicate AllAssumed(k: Call, w: World, steps: seq<Step>) {
    forall i | 0 <= i < |steps| :: Assumed(k, Execute(k, w, steps[..i]), steps[i])
  }

  lemma {:induction false} ExecuteKeeps(k: Call, w: World, steps: seq<Step>)
    requires Inv(k, w) && Seen(k, w) && AllAssumed(k, w, steps)
    ensures Inv(k, Execute(k, w, steps)) && Seen(k, Execute(k, w, steps))
    decreases |steps|
  {
    hide Inv, Seen, Next, Assumed;
    if steps != [] {
      var n := |steps| - 1;
      forall i | 0 <= i < n ensures Assumed(k, Execute(k, w, steps[..n][..i]), steps[..n][i]) {
        assert steps[..n][..i] == steps[..i];
      }
      ExecuteKeeps(k, w, steps[..n]);
      var v := Execute(k, w, steps[..n]);
      assert Assumed(k, v, steps[n]);
      if R.WellFormed(v.reg) && Enabled(k, v, steps[n]) {
        NextKeeps(k, v, steps[n]);
        NextSeen(k, v, steps[n]);
      }
    }
  }

  /**
   However connections are cut and whoever else uses the gateway, the events handed to the caller are at
   every moment the first `cursor` events of the run this call started: none lost, repeated or reordered.
   If a run's result is returned, it is what ended that run, with every event handed over before it: the run's
   own result, unless its handler was rejected.
   */
  lemma EventsDeliveredInOrder(k: Call, reg: R.Registry, steps: seq<Step>)
    requires Lossless(k.codec) && R.Delivery(reg) && k.before == |reg.records|
    requires AllAssumed(k, Start(reg), steps)
    ensures var w := Execute(k, Start(reg), steps);
            && Delivered(w)
            && (Mine(w).Some? ==> k.before <= Mine(w).value < |w.reg.records|)
            && (w.client.phase.Finished? ==>
                  && Mine(w).Some?
                  && var r := w.reg.records[Mine(w).value];
                  && w.client.delivered == r.events
                  && (r.result == Some(w.client.phase.result) <==> r.failure.None?)
                  && (r.failure.Some? ==> r.failure == Some(w.client.phase.result) && r.result.None?))
  {
    ExecuteKeeps(k, Start(reg), steps);
    var w := Execute(k, Start(reg), steps);
    if Mine(w).Some? {
      assert R.ConnOk(w.reg, w.first.value) && R.RecordOk(w.reg, Mine(w).value);
    }
  }

  /** Once such a call has returned, it is what gatewayRun computes on the answers the network gave. */
  lemma CallIsGatewayRun(k: Call, reg: R.Registry, steps: seq<Step>, net: nat -> Answer)
    requires Lossless(k.codec) && R.Delivery(reg) && k.before == |reg.records|
    requires AllAssumed(k, Start(reg), steps)
    requires var w := Execute(k, Start(reg), steps);
             && (w.client.phase.Finished? || w.client.phase.GaveUp?)
             && forall i | 0 <= i < |w.answers| :: net(i) == w.answers[i]
    ensures Play(k.codec, Fresh, net) == Execute(k, Start(reg), steps).client
  {
    ExecuteKeeps(k, Start(reg), steps);
    var w := Execute(k, Start(reg), steps);
    var n := |w.answers|;
    assert n > 0;
    assert w.answers[..n - 1] == w.answers[..n][..n - 1];
    AttemptBound(k.codec, w.answers, n - 1);
    assert w.answers[..0] == [];
    PlayIsAfter(k.codec, w.answers, net, 0);
  }

  lemma AttemptBound(codec: Codec, answers: seq<Answer>, n: nat)
    requires n <= |answers|
    requires After(codec, answers[..n]).phase.Posting? && After(codec, answers[..n]).attempt == n
    ensures n <= MAX_RECONNECTS
  {
    if n > 0 {
      hide Answered;
      assert answers[..n][..n - 1] == answers[..n - 1];
      AnsweredFacts(codec, After(codec, answers[..n - 1]), answers[n - 1]);
    }
  }
}
