/**
 The gateway's run registry as a transition system. One step is one stretch of
 the event loop between macrotasks: a request handler up to its first await, a
 line of the CLI, its exit (together with the handlers that were awaiting that
 exit), a CLI that cannot be started, a timer, a cancel, a closed socket.
 */
module RunRegistry {
  import opened Text
  import opened Wire

  type Key = string

  // A run record; it is done once it holds a result. Records and connections
  // are named by their index in the registry, in order of creation. `origin` is
  // the response whose handler drives the run, `failure` what that handler's
  // error handler told it when the run was rejected; the record does not show it.
  datatype Record = Record(key: Key, events: seq<StreamEvent>, result: Option<RunResult>, failure: Option<RunResult>,
                           origin: nat, aborted: bool, subs: set<nat>, timer: bool)

  // The record a response was attached to, and the first event it was sent.
  datatype Attachment = Attachment(rec: nat, start: nat)
  datatype Conn = Conn(written: seq<Frame>, ended: bool, closed: bool, target: Option<Attachment>)

  // A fresh dispatch that awaits the exit of the run it supersedes.
  datatype Waiter = Waiter(key: Key, rec: nat, conn: nat)

  datatype Registry = Registry(records: seq<Record>, runs: map<Key, nat>, conns: seq<Conn>, waiting: seq<Waiter>)

  datatype Action =
    | Dispatch(key: Key)
    | Reconnect(key: Key, cursor: int)
    | Emit(rec: nat, event: StreamEvent)
    | Exit(rec: nat, result: RunResult)
    | Fail(rec: nat, reason: string)
    | Evict(rec: nat)
    | Cancel(key: Key)
    | Drop(conn: nat)

  const Empty := Registry([], map[], [], [])
  const NewConn := Conn([], false, false, None)

  predicate Live(s: Registry, rec: nat) {
    rec < |s.records| && s.records[rec].result.None?
  }

  // A live run whose handler has not been rejected: its process may run.
  predicate Running(s: Registry, rec: nat) {
    Live(s, rec) && s.records[rec].failure.None?
  }

  // ---- steps ---------------------------------------------------------------

  function ResultFrames(r: Record): seq<Frame> {
    match r.result case None => [] case Some(v) => [ResultFrame(v)]
  }

  // Everything a run has to say so far: its events, then its result.
  function History(r: Record): seq<Frame> {
    EventFrames(r.events) + ResultFrames(r)
  }

  // What the response that drives a rejected run is told besides.
  function FailureFrames(r: Record, conn: nat): seq<Frame> {
    if r.failure.Some? && r.origin == conn then [ResultFrame(r.failure.value)] else []
  }

  // What a caller can be told in the end: the run's own result, or its rejection.
  function Outcome(r: Record): Option<RunResult> {
    if r.result.Some? then r.result else r.failure
  }

  // What a response attached from the first event on holds.
  function Share(r: Record, conn: nat): seq<Frame> {
    History(r) + FailureFrames(r, conn)
  }

  function Clamp(from: int, n: nat): nat {
    if from < 0 then 0 else if from > n then n else from
  }

  function Write(conns: seq<Conn>, subs: set<nat>, f: Frame, end: bool): (r: seq<Conn>)
    ensures |r| == |conns|
    ensures forall i | 0 <= i < |r| ::
              r[i] == if i in subs then conns[i].(written := conns[i].written + [f], ended := conns[i].ended || end) else conns[i]
  {
    seq(|conns|, i requires 0 <= i < |conns| =>
      if i in subs then conns[i].(written := conns[i].written + [f], ended := conns[i].ended || end) else conns[i])
  }

  function Attach(s: Registry, rec: nat, conn: nat, from: int): Registry
    requires rec < |s.records| && conn < |s.conns|
  {
    var r := s.records[rec];
    var start := Clamp(from, |r.events|);
    var c := s.conns[conn];
    s.(conns := s.conns[conn := c.(written := c.written + EventFrames(r.events[start..]) + ResultFrames(r),
                                   ended := c.ended || r.result.Some?, target := Some(Attachment(rec, start)))],
       records := if r.result.Some? then s.records else s.records[rec := r.(subs := r.subs + {conn})])
  }

  function StartRun(s: Registry, key: Key, conn: nat): Registry
    requires conn < |s.conns|
  {
    var rec := |s.records|;
    Attach(s.(records := s.records + [Record(key, [], None, None, conn, false, {}, false)], runs := s.runs[key := rec]), rec, conn, 0)
  }

  lemma StartRunIs(s: Registry, key: Key, conn: nat)
    requires conn < |s.conns|
    ensures StartRun(s, key, conn)
      == Registry(s.records + [Record(key, [], None, None, conn, false, {conn}, false)],
                  s.runs[key := |s.records|],
                  s.conns[conn := s.conns[conn].(target := Some(Attachment(|s.records|, 0)))],
                  s.waiting)
  {
    var t, none: set<nat> := StartRun(s, key, conn), {};
    assert none + {conn} == {conn};
    assert t.records == s.records + [Record(key, [], None, None, conn, false, {conn}, false)];
    assert s.conns[conn].written + [] + [] == s.conns[conn].written;
  }

  // What a superseding dispatch does once the prior run is over. It deletes
  // the map entry by key, whichever record that entry names by then.
  function Supersede(s: Registry, w: Waiter): Registry
    requires w.rec < |s.records| && w.conn < |s.conns|
  {
    StartRun(s.(records := s.records[w.rec := s.records[w.rec].(timer := false)], runs := s.runs - {w.key}),
             w.key, w.conn)
  }

  function FirstWaiter(ws: seq<Waiter>, rec: nat): (i: nat)
    ensures i <= |ws|
    ensures i < |ws| ==> ws[i].rec == rec
    ensures forall j | 0 <= j < i :: ws[j].rec != rec
  {
    if ws == [] || ws[0].rec == rec then 0 else 1 + FirstWaiter(ws[1..], rec)
  }

  ghost predicate WaitersOk(s: Registry) {
    forall i | 0 <= i < |s.waiting| :: s.waiting[i].rec < |s.records| && s.waiting[i].conn < |s.conns|
  }

  function Without(s: Registry, i: nat): Registry
    requires i < |s.waiting|
  {
    s.(waiting := s.waiting[..i] + s.waiting[i + 1..])
  }

  // The handlers awaiting `rec` run one after another, in the order they began to wait.
  function Resume(s: Registry, rec: nat): Registry
    requires WaitersOk(s)
    decreases |s.waiting|
  {
    var i := FirstWaiter(s.waiting, rec);
    if i == |s.waiting| then s
    else Resume(Supersede(Without(s, i), s.waiting[i]), rec)
  }

  ghost predicate Enabled(s: Registry, a: Action) {
    match a
    case Emit(rec, _) => Running(s, rec)
    case Exit(rec, _) => Running(s, rec)
    case Fail(rec, _) => Running(s, rec)
    case Evict(rec) => rec < |s.records| && s.records[rec].timer
    case Drop(conn) => conn < |s.conns| && !s.conns[conn].closed
    case _ => true
  }

  function Finished(s: Registry, rec: nat, result: RunResult): Registry
    requires rec < |s.records|
  {
    var r := s.records[rec];
    s.(conns := Write(s.conns, r.subs, ResultFrame(result), true),
       records := s.records[rec := r.(result := Some(result), subs := {}, timer := true)])
  }

  function Abort(s: Registry, rec: nat): Registry
    requires rec < |s.records|
  {
    s.(records := s.records[rec := s.records[rec].(aborted := true)])
  }

  function InternalError(reason: string): RunResult {
    RunResult(false, "", "internal_error", reason)
  }

  // The handler's error handler writes a result to its own response, if that is
  // still open, and ends it. Nobody touches the record.
  function Rejected(s: Registry, rec: nat, reason: string): Registry
    requires rec < |s.records|
  {
    var r := s.records[rec];
    var f := InternalError(reason);
    var failed := s.(records := s.records[rec := r.(failure := Some(f))]);
    if r.origin >= |s.conns| || s.conns[r.origin].closed then failed
    else
      var c := s.conns[r.origin];
      failed.(conns := s.conns[r.origin := c.(written := c.written + [ResultFrame(f)], ended := true)])
  }

  ghost predicate WellFormed(s: Registry) {
    && WaitersOk(s)
    && forall k | k in s.runs :: s.runs[k] < |s.records|
  }

  ghost function Apply(s: Registry, a: Action): Registry
    requires WellFormed(s) && Enabled(s, a)
  {
    var conn := |s.conns|;
    var arrived := s.(conns := s.conns + [NewConn]);
    match a
    case Dispatch(key) =>
      if key !in s.runs then StartRun(arrived, key, conn)
      else if Live(s, s.runs[key]) then
        Abort(arrived, s.runs[key]).(waiting := s.waiting + [Waiter(key, s.runs[key], conn)])
      else Supersede(arrived, Waiter(key, s.runs[key], conn))
    case Reconnect(key, cursor) =>
      if key in s.runs then Attach(arrived, s.runs[key], conn, cursor) else StartRun(arrived, key, conn)
    case Emit(rec, e) =>
      var r := s.records[rec];
      s.(records := s.records[rec := r.(events := r.events + [e])], conns := Write(s.conns, r.subs, EventFrame(e), false))
    case Exit(rec, result) => Resume(Finished(s, rec, result), rec)
    case Fail(rec, reason) => Rejected(s, rec, reason)
    case Evict(rec) =>
      var r := s.records[rec];
      s.(records := s.records[rec := r.(timer := false)], runs := s.runs - {r.key})
    case Cancel(key) =>
      if key in s.runs && Live(s, s.runs[key]) then Abort(s, s.runs[key]) else s
    case Drop(conn) =>
      var c := s.conns[conn];
      var closed := s.(conns := s.conns[conn := c.(closed := true)]);
      if c.target.None? || c.target.value.rec >= |s.records| then closed
      else
        var r := s.records[c.target.value.rec];
        closed.(records := s.records[c.target.value.rec := r.(subs := r.subs - {conn})])
  }

  // ---- what every subscriber has been sent ----------------------------------

  ghost predicate ConnOk(s: Registry, i: nat)
    requires i < |s.conns|
  {
    var c := s.conns[i];
    match c.target
    case None => c.written == [] && !c.ended
    case Some(a) =>
      && a.rec < |s.records|
      && var r := s.records[a.rec];
      && a.start <= |r.events|
      && var h := Share(r, i)[a.start..];
      && c.written <= h
      && (c.ended ==> c.written == h && (r.result.Some? || FailureFrames(r, i) != []))
      && (!c.closed ==> c.written == h && (c.ended <==> r.result.Some? || FailureFrames(r, i) != [])
                        && (r.result.None? ==> i in r.subs))
  }

  // A record knows its driving response, and its subscribers hold all it has said.
  ghost predicate RecordOk(s: Registry, rec: nat)
    requires rec < |s.records|
  {
    var r := s.records[rec];
    && (r.result.Some? ==> r.subs == {} && r.failure.None?)
    && r.origin < |s.conns| && s.conns[r.origin].target == Some(Attachment(rec, 0))
    && forall i | i in r.subs ::
         && i < |s.conns| && s.conns[i].target.Some? && s.conns[i].target.value.rec == rec
         && s.conns[i].target.value.start <= |r.events|
         && (s.conns[i].ended ==> !s.conns[i].closed && FailureFrames(r, i) != [])
         && s.conns[i].written
            == (if s.conns[i].closed then History(r) else Share(r, i))[s.conns[i].target.value.start..]
  }

  ghost predicate WaitingOk(s: Registry) {
    && WaitersOk(s)
    && (forall i | 0 <= i < |s.waiting| :: s.conns[s.waiting[i].conn].target.None?)
    && (forall i, j | 0 <= i < j < |s.waiting| :: s.waiting[i].conn != s.waiting[j].conn)
  }

  ghost predicate Delivery(s: Registry) {
    && WellFormed(s)
    && WaitingOk(s)
    && (forall i | 0 <= i < |s.conns| :: ConnOk(s, i))
    && (forall rec | 0 <= rec < |s.records| :: RecordOk(s, rec))
  }

  lemma HistorySplit(r: Record, start: nat)
    requires start <= |r.events|
    ensures History(r)[start..] == EventFrames(r.events[start..]) + ResultFrames(r)
    ensures forall conn :: Share(r, conn)[start..] == History(r)[start..] + FailureFrames(r, conn)
  {
    assert |History(r)| >= start;
  }

  // Only a run's own response hears of its rejection, so one that was not attached yet does not.
  lemma NotToldYet(s: Registry, rec: nat, conn: nat)
    requires Delivery(s) && rec < |s.records| && conn < |s.conns| && s.conns[conn].target.None?
    ensures FailureFrames(s.records[rec], conn) == []
  {
    assert RecordOk(s, rec);
  }

  // A response's share depends on what was said and on who drives the run.
  lemma SameShare(r: Record, q: Record)
    requires q == r.(subs := q.subs, timer := q.timer, aborted := q.aborted)
    ensures History(q) == History(r)
    ensures forall conn :: Share(q, conn) == Share(r, conn) && FailureFrames(q, conn) == FailureFrames(r, conn)
  {
  }

  // What attaching does, in terms of the record as it is then.
  lemma AttachIs(s: Registry, rec: nat, conn: nat, from: int)
    requires Delivery(s) && rec < |s.records| && conn < |s.conns| && s.conns[conn].target.None?
    ensures var t, r, start := Attach(s, rec, conn, from), s.records[rec], Clamp(from, |s.records[rec].events|);
            && |t.records| == |s.records|
            && t.records == s.records[rec := t.records[rec]]
            && t.records[rec] == r.(subs := if r.result.Some? then r.subs else r.subs + {conn})
            && FailureFrames(t.records[rec], conn) == []
            && Share(t.records[rec], conn)[start..] == History(t.records[rec])[start..]
            && t.conns == s.conns[conn := s.conns[conn].(written := Share(t.records[rec], conn)[start..],
                                                         ended := r.result.Some?, target := Some(Attachment(rec, start)))]
  {
    var r, start := s.records[rec], Clamp(from, |s.records[rec].events|);
    var t := Attach(s, rec, conn, from);
    var q := t.records[rec];
    HistorySplit(r, start);
    HistorySplit(q, start);
    NotToldYet(s, rec, conn);
    SameShare(r, q);
    assert ConnOk(s, conn);
    assert [] + EventFrames(r.events[start..]) + ResultFrames(r) == History(r)[start..];
    hide History, Share, FailureFrames, ConnOk, RecordOk, EventFrames, ResultFrames;
    assert FailureFrames(q, conn) == [];
    assert Share(q, conn)[start..] == History(q)[start..] by {
      assert History(q)[start..] + [] == History(q)[start..];
    }
    assert t.conns[conn].written == s.conns[conn].written + EventFrames(r.events[start..]) + ResultFrames(r);
  }

  lemma AttachedConns(s: Registry, rec: nat, conn: nat, from: int)
    requires Delivery(s) && rec < |s.records| && conn < |s.conns| && s.conns[conn].target.None?
    ensures var t := Attach(s, rec, conn, from);
            forall i | 0 <= i < |t.conns| :: ConnOk(t, i)
  {
    var t := Attach(s, rec, conn, from);
    AttachIs(s, rec, conn, from);
    SameShare(s.records[rec], t.records[rec]);
    hide History, RecordOk, WaitingOk, Share, FailureFrames, Attach;
    forall i | 0 <= i < |t.conns| ensures ConnOk(t, i) {
      assert ConnOk(s, i);
    }
  }

  lemma AttachedSubscribers(s: Registry, rec: nat, conn: nat, from: int)
    requires Delivery(s) && rec < |s.records| && conn < |s.conns| && s.conns[conn].target.None?
    ensures var t := Attach(s, rec, conn, from);
            forall q | 0 <= q < |t.records| :: RecordOk(t, q)
  {
    var t := Attach(s, rec, conn, from);
    AttachIs(s, rec, conn, from);
    SameShare(s.records[rec], t.records[rec]);
    hide ConnOk, WaitingOk, History, Share, FailureFrames, Attach;
    forall q | 0 <= q < |t.records| ensures RecordOk(t, q) {
      assert RecordOk(s, q);
    }
  }

  lemma AttachKeepsDelivery(s: Registry, rec: nat, conn: nat, from: int)
    requires Delivery(s) && rec < |s.records| && conn < |s.conns| && s.conns[conn].target.None?
    requires forall i | 0 <= i < |s.waiting| :: s.waiting[i].conn != conn
    ensures Delivery(Attach(s, rec, conn, from))
  {
    AttachedConns(s, rec, conn, from);
    AttachedSubscribers(s, rec, conn, from);
    hide ConnOk, RecordOk;
  }

  lemma StartRunKeepsDelivery(s: Registry, key: Key, conn: nat)
    requires Delivery(s) && conn < |s.conns| && s.conns[conn].target.None?
    requires forall i | 0 <= i < |s.waiting| :: s.waiting[i].conn != conn
    ensures Delivery(StartRun(s, key, conn))
  {
    var t := StartRun(s, key, conn);
    StartRunIs(s, key, conn);
    assert ConnOk(s, conn);
    hide StartRun, Attach, History, FailureFrames, Share, EventFrames;
    assert Share(t.records[|s.records|], conn)[0..] == [] && FailureFrames(t.records[|s.records|], conn) == [] by {
      NewRunIsSilent(t.records[|s.records|], conn);
    }
    forall i | 0 <= i < |t.conns| ensures ConnOk(t, i) {
      assert ConnOk(s, i);
    }
    forall q | 0 <= q < |t.records| ensures RecordOk(t, q) {
      if q < |s.records| {
        assert RecordOk(s, q);
      }
    }
  }

  lemma NewRunIsSilent(r: Record, conn: nat)
    requires r.events == [] && r.result.None? && r.failure.None?
    ensures History(r) == [] && Share(r, conn) == [] && FailureFrames(r, conn) == []
  {
  }

  // Changing only the timer and the abort flag of records changes nothing that was sent.
  ghost predicate SameRuns(s: Registry, t: Registry) {
    && |s.records| == |t.records| && s.conns == t.conns
    && forall i | 0 <= i < |s.records| ::
         t.records[i] == s.records[i].(timer := t.records[i].timer, aborted := t.records[i].aborted)
  }

  lemma SameRunsKeepsDelivery(s: Registry, t: Registry)
    requires Delivery(s) && SameRuns(s, t) && WellFormed(t) && WaitingOk(t)
    ensures Delivery(t)
  {
    forall q | 0 <= q < |s.records|
      ensures History(t.records[q]) == History(s.records[q])
      ensures forall conn :: Share(t.records[q], conn) == Share(s.records[q], conn)
                             && FailureFrames(t.records[q], conn) == FailureFrames(s.records[q], conn)
    {
      SameShare(s.records[q], t.records[q]);
    }
    hide History, Share, FailureFrames;
    forall i | 0 <= i < |t.conns| ensures ConnOk(t, i) {
      assert ConnOk(s, i);
    }
    forall q | 0 <= q < |t.records| ensures RecordOk(t, q) {
      assert RecordOk(s, q);
    }
  }

  lemma SupersedeKeepsDelivery(s: Registry, w: Waiter)
    requires Delivery(s) && w.rec < |s.records| && w.conn < |s.conns| && s.conns[w.conn].target.None?
    requires forall i | 0 <= i < |s.waiting| :: s.waiting[i].conn != w.conn
    ensures Delivery(Supersede(s, w))
  {
    var t := s.(records := s.records[w.rec := s.records[w.rec].(timer := false)], runs := s.runs - {w.key});
    SameRunsKeepsDelivery(s, t);
    StartRunKeepsDelivery(t, w.key, w.conn);
  }

  lemma ResumeKeepsDelivery(s: Registry, rec: nat)
    requires Delivery(s)
    ensures Delivery(Resume(s, rec))
    decreases |s.waiting|
  {
    var i := FirstWaiter(s.waiting, rec);
    if i < |s.waiting| {
      var t := Without(s, i);
      SameRunsKeepsDelivery(s, t);
      SupersedeKeepsDelivery(t, s.waiting[i]);
      ResumeKeepsDelivery(Supersede(t, s.waiting[i]), rec);
    }
  }

  // A running run says one more thing to all its subscribers.
  ghost predicate Said(s: Registry, rec: nat, t: Registry, f: Frame) {
    && Running(s, rec)
    && t.runs == s.runs && t.waiting == s.waiting && |t.records| == |s.records|
    && t.conns == Write(s.conns, s.records[rec].subs, f, t.records[rec].result.Some?)
    && (forall i | 0 <= i < |s.records| && i != rec :: t.records[i] == s.records[i])
    && s.records[rec].events <= t.records[rec].events
    && t.records[rec].failure.None? && t.records[rec].origin == s.records[rec].origin
    && History(t.records[rec]) == History(s.records[rec]) + [f]
    && t.records[rec].subs == if t.records[rec].result.Some? then {} else s.records[rec].subs
  }

  lemma SharesSaid(s: Registry, rec: nat, t: Registry, f: Frame)
    requires Said(s, rec, t, f)
    ensures forall conn :: Share(s.records[rec], conn) == History(s.records[rec]) && FailureFrames(s.records[rec], conn) == []
    ensures forall conn :: Share(t.records[rec], conn) == History(t.records[rec]) && FailureFrames(t.records[rec], conn) == []
    ensures forall start: nat | start <= |s.records[rec].events| ::
              History(t.records[rec])[start..] == History(s.records[rec])[start..] + [f]
  {
  }

  lemma SaidConns(s: Registry, rec: nat, t: Registry, f: Frame)
    requires Delivery(s) && Said(s, rec, t, f)
    ensures forall i | 0 <= i < |t.conns| :: ConnOk(t, i)
  {
    SharesSaid(s, rec, t, f);
    assert RecordOk(s, rec);
    forall i | 0 <= i < |t.conns| ensures ConnOk(t, i) {
      assert ConnOk(s, i);
      if s.conns[i].target.Some? && s.conns[i].target.value.rec == rec {
        SaidToOne(s, rec, t, f, i);
      } else {
        assert i !in s.records[rec].subs;
        hide RecordOk;
      }
      hide History, Share, FailureFrames, WaitingOk;
    }
  }

  lemma SaidToOne(s: Registry, rec: nat, t: Registry, f: Frame, i: nat)
    requires Said(s, rec, t, f) && i < |s.conns| && ConnOk(s, i) && RecordOk(s, rec)
    requires s.conns[i].target.Some? && s.conns[i].target.value.rec == rec
    ensures ConnOk(t, i)
  {
    SharesSaid(s, rec, t, f);
    hide History, Share, FailureFrames;
  }

  lemma SaidRecords(s: Registry, rec: nat, t: Registry, f: Frame)
    requires Delivery(s) && Said(s, rec, t, f)
    ensures forall q | 0 <= q < |t.records| :: RecordOk(t, q)
  {
    SharesSaid(s, rec, t, f);
    assert RecordOk(s, rec);
    hide History, Share, FailureFrames, WaitingOk, ConnOk;
    forall q | 0 <= q < |t.records| ensures RecordOk(t, q) {
      assert RecordOk(s, q);
    }
  }

  lemma WriteKeepsDelivery(s: Registry, rec: nat, t: Registry, f: Frame)
    requires Delivery(s) && Said(s, rec, t, f)
    ensures Delivery(t)
  {
    SaidConns(s, rec, t, f);
    SaidRecords(s, rec, t, f);
    hide ConnOk, RecordOk, History;
  }

  lemma ArriveKeepsDelivery(s: Registry)
    requires Delivery(s)
    ensures Delivery(s.(conns := s.conns + [NewConn]))
  {
    var t := s.(conns := s.conns + [NewConn]);
    forall i | 0 <= i < |t.conns| ensures ConnOk(t, i) {
      if i < |s.conns| { assert ConnOk(s, i); }
    }
    forall q | 0 <= q < |t.records| ensures RecordOk(t, q) {
      assert RecordOk(s, q);
    }
  }

  lemma DropKeepsDelivery(s: Registry, conn: nat)
    requires Delivery(s) && Enabled(s, Drop(conn))
    ensures Delivery(Apply(s, Drop(conn)))
  {
    var t := Apply(s, Drop(conn));
    assert ConnOk(s, conn);
    assert SameRecords(s, t);
    forall q | 0 <= q < |s.records| ensures forall c :: Share(t.records[q], c) == Share(s.records[q], c)
                                                        && FailureFrames(t.records[q], c) == FailureFrames(s.records[q], c)
                                    ensures History(t.records[q]) == History(s.records[q])
    {
      SameShare(s.records[q], t.records[q]);
    }
    StillWaiting(s, t);
    hide History, Share, FailureFrames, WaitingOk;
    assert forall i | 0 <= i < |t.conns| :: ConnOk(t, i) by {
      hide RecordOk;
      forall i | 0 <= i < |t.conns| ensures ConnOk(t, i) {
        assert ConnOk(s, i);
      }
    }
    forall q | 0 <= q < |t.records| ensures RecordOk(t, q) {
      assert RecordOk(s, q);
    }
  }

  // Records differ in subscribers, timers and abort flags only.
  ghost predicate SameRecords(s: Registry, t: Registry) {
    |t.records| == |s.records| && forall q | 0 <= q < |s.records| ::
      t.records[q] == s.records[q].(subs := t.records[q].subs, timer := t.records[q].timer, aborted := t.records[q].aborted)
  }

  /** Every step keeps: each response holds exactly its share of its run's history. */
  lemma ApplyKeepsDelivery(s: Registry, a: Action)
    requires Delivery(s) && Enabled(s, a)
    ensures Delivery(Apply(s, a))
  {
    var conn := |s.conns|;
    var arrived := s.(conns := s.conns + [NewConn]);
    match a {
      case Dispatch(key) =>
        ArriveKeepsDelivery(s);
        if key !in s.runs {
          StartRunKeepsDelivery(arrived, key, conn);
        } else if Live(s, s.runs[key]) {
          SameRunsKeepsDelivery(arrived, Apply(s, a));
        } else {
          SupersedeKeepsDelivery(arrived, Waiter(key, s.runs[key], conn));
        }
      case Reconnect(key, cursor) =>
        ArriveKeepsDelivery(s);
        if key in s.runs {
          AttachKeepsDelivery(arrived, s.runs[key], conn, cursor);
        } else {
          StartRunKeepsDelivery(arrived, key, conn);
        }
      case Emit(rec, e) => EmitKeepsDelivery(s, rec, e);
      case Exit(rec, result) => ExitKeepsDelivery(s, rec, result);
      case Fail(rec, reason) => FailKeepsDelivery(s, rec, reason);
      case Evict(rec) => SameRunsKeepsDelivery(s, Apply(s, a));
      case Cancel(key) => SameRunsKeepsDelivery(s, Apply(s, a));
      case Drop(conn) => DropKeepsDelivery(s, conn);
    }
    hide ConnOk, RecordOk, StartRun, Supersede, Attach, Resume, Finished;
  }

  lemma EmitKeepsDelivery(s: Registry, rec: nat, e: StreamEvent)
    requires Delivery(s) && Running(s, rec)
    ensures Delivery(Apply(s, Emit(rec, e)))
  {
    hide ConnOk, RecordOk;
    var t := Apply(s, Emit(rec, e));
    assert History(t.records[rec]) == History(s.records[rec]) + [EventFrame(e)];
    WriteKeepsDelivery(s, rec, t, EventFrame(e));
  }

  lemma ExitKeepsDelivery(s: Registry, rec: nat, result: RunResult)
    requires Delivery(s) && Running(s, rec)
    ensures Delivery(Resume(Finished(s, rec, result), rec))
  {
    hide ConnOk, RecordOk;
    WriteKeepsDelivery(s, rec, Finished(s, rec, result), ResultFrame(result));
    hide Finished;
    ResumeKeepsDelivery(Finished(s, rec, result), rec);
  }

  // How a rejection changes the shares of the run's responses.
  lemma SharesRejected(s: Registry, rec: nat, reason: string)
    requires Running(s, rec)
    ensures var r, q := s.records[rec], Rejected(s, rec, reason).records[rec];
            && History(q) == History(r)
            && (forall conn :: Share(r, conn) == History(r) && FailureFrames(r, conn) == [])
            && (forall conn | conn != r.origin :: Share(q, conn) == History(r) && FailureFrames(q, conn) == [])
            && FailureFrames(q, r.origin) == [ResultFrame(InternalError(reason))]
            && forall start: nat | start <= |r.events| ::
                 Share(q, r.origin)[start..] == History(r)[start..] + [ResultFrame(InternalError(reason))]
  {
    var r, q := s.records[rec], Rejected(s, rec, reason).records[rec];
    assert History(q) == History(r);
    forall start: nat | start <= |r.events|
      ensures Share(q, r.origin)[start..] == History(r)[start..] + [ResultFrame(InternalError(reason))]
    {
      HistorySplit(q, start);
    }
  }

  lemma RejectedConns(s: Registry, rec: nat, reason: string)
    requires Delivery(s) && Running(s, rec)
    ensures var t := Rejected(s, rec, reason); forall i | 0 <= i < |t.conns| :: ConnOk(t, i)
  {
    var t := Rejected(s, rec, reason);
    SharesRejected(s, rec, reason);
    assert RecordOk(s, rec);
    RejectedOrigin(s, rec, reason);
    forall i | 0 <= i < |t.conns| && i != s.records[rec].origin ensures ConnOk(t, i) {
      RejectedOther(s, rec, reason, i);
    }
    hide ConnOk, RecordOk;
  }

  lemma RejectedOther(s: Registry, rec: nat, reason: string, i: nat)
    requires Delivery(s) && Running(s, rec) && i < |s.conns| && i != s.records[rec].origin
    ensures var t := Rejected(s, rec, reason); i < |t.conns| && ConnOk(t, i)
  {
    var t := Rejected(s, rec, reason);
    SharesRejected(s, rec, reason);
    assert ConnOk(s, i);
    assert t.conns[i] == s.conns[i] && |t.records| == |s.records|;
    hide History, Share, FailureFrames, WaitingOk, RecordOk, Delivery;
    if s.conns[i].target.Some? {
      var q := s.conns[i].target.value.rec;
      assert t.records[q] == s.records[q].(failure := t.records[q].failure);
      hide Rejected;
      SameConn(s, t, i);
    }
  }

  // A response looks at its own record only, and there at its share.
  lemma SameConn(s: Registry, t: Registry, i: nat)
    requires i < |s.conns| && i < |t.conns| && ConnOk(s, i) && t.conns[i] == s.conns[i] && s.conns[i].target.Some?
    requires var rec := s.conns[i].target.value.rec;
             && rec < |t.records|
             && var r, q := s.records[rec], t.records[rec];
             && q.events == r.events && q.result == r.result && q.subs == r.subs
             && Share(q, i) == Share(r, i) && FailureFrames(q, i) == FailureFrames(r, i)
    ensures ConnOk(t, i)
  {
    hide Share, FailureFrames;
  }

  lemma RejectedOrigin(s: Registry, rec: nat, reason: string)
    requires Delivery(s) && Running(s, rec)
    ensures var t := Rejected(s, rec, reason);
            s.records[rec].origin < |t.conns| && ConnOk(t, s.records[rec].origin)
  {
    SharesRejected(s, rec, reason);
    assert RecordOk(s, rec) && ConnOk(s, s.records[rec].origin);
    hide History, Share, FailureFrames, WaitingOk, RecordOk, Delivery;
  }

  lemma RejectedRecords(s: Registry, rec: nat, reason: string)
    requires Delivery(s) && Running(s, rec)
    ensures var t := Rejected(s, rec, reason); forall n | 0 <= n < |t.records| :: RecordOk(t, n)
  {
    var t := Rejected(s, rec, reason);
    SharesRejected(s, rec, reason);
    assert RecordOk(s, rec);
    hide History, Share, FailureFrames, WaitingOk, ConnOk;
    forall n | 0 <= n < |t.records| ensures RecordOk(t, n) {
      assert RecordOk(s, n);
    }
  }

  lemma FailKeepsDelivery(s: Registry, rec: nat, reason: string)
    requires Delivery(s) && Running(s, rec)
    ensures Delivery(Rejected(s, rec, reason))
  {
    RejectedConns(s, rec, reason);
    RejectedRecords(s, rec, reason);
    StillWaiting(s, Rejected(s, rec, reason));
    hide ConnOk, RecordOk, WaitingOk;
  }

  lemma StillWaiting(s: Registry, t: Registry)
    requires WaitingOk(s) && t.waiting == s.waiting && |t.records| == |s.records| && |t.conns| == |s.conns|
    requires forall i | 0 <= i < |s.conns| :: t.conns[i].target == s.conns[i].target
    ensures WaitingOk(t)
  {
  }

  // ---- at most one process per session key ----------------------------------

  ghost predicate HasWaiter(s: Registry, key: Key) {
    exists i :: 0 <= i < |s.waiting| && s.waiting[i].key == key
  }

  // A record is live exactly while its CLI process may run.
  ghost predicate OneLivePerKey(s: Registry) {
    forall p: nat, q: nat | Live(s, p) && Live(s, q) && s.records[p].key == s.records[q].key :: p == q
  }

  ghost predicate Owns(s: Registry, rec: nat)
    requires rec < |s.records|
  {
    s.records[rec].key in s.runs && s.runs[s.records[rec].key] == rec
  }

  ghost predicate Exclusive(s: Registry) {
    && WellFormed(s)
    && (forall rec | Live(s, rec) :: Owns(s, rec))
    && (forall rec | 0 <= rec < |s.records| && s.records[rec].timer :: s.records[rec].result.Some? && Owns(s, rec))
    && (forall k | k in s.runs :: s.records[s.runs[k]].key == k)
    && (forall i | 0 <= i < |s.waiting| ::
          Live(s, s.waiting[i].rec) && s.records[s.waiting[i].rec].key == s.waiting[i].key)
    && (forall i, j | 0 <= i < j < |s.waiting| :: s.waiting[i].key != s.waiting[j].key)
  }

  lemma ExclusiveMeansOneLive(s: Registry)
    requires Exclusive(s)
    ensures OneLivePerKey(s)
  {
    forall p: nat, q: nat | Live(s, p) && Live(s, q) && s.records[p].key == s.records[q].key ensures p == q {
      assert Owns(s, p) && Owns(s, q);
    }
  }

  // Exclusivity looks at keys, results, timers, the map and the waiters only.
  lemma ExclusiveFrame(s: Registry, t: Registry)
    requires Exclusive(s) && t.runs == s.runs && t.waiting == s.waiting
    requires |t.records| == |s.records| && |s.conns| <= |t.conns|
    requires forall i | 0 <= i < |s.records| ::
               && t.records[i].key == s.records[i].key && t.records[i].result == s.records[i].result
               && t.records[i].timer == s.records[i].timer
    ensures Exclusive(t)
    ensures forall k | HasWaiter(t, k) :: HasWaiter(s, k)
  {
    forall rec | 0 <= rec < |t.records| && (Live(t, rec) || t.records[rec].timer) ensures Owns(t, rec) {
      assert Owns(s, rec);
    }
    forall i | 0 <= i < |t.waiting| ensures Live(t, t.waiting[i].rec) {
      assert Live(s, s.waiting[i].rec);
    }
  }

  // Starting a run for a key whose previous record is over, replaced and timerless.
  lemma StartRunKeepsExclusive(s: Registry, key: Key, conn: nat)
    requires Exclusive(s) && conn < |s.conns| && key !in s.runs && !HasWaiter(s, key)
    ensures Exclusive(StartRun(s, key, conn))
    ensures Live(StartRun(s, key, conn), |s.records|)
  {
    var t := StartRun(s, key, conn);
    forall rec | 0 <= rec < |t.records| && (Live(t, rec) || t.records[rec].timer) ensures Owns(t, rec) {
      if rec < |s.records| { assert Owns(s, rec); }
    }
  }

  lemma SupersedeKeepsExclusive(s: Registry, w: Waiter)
    requires Exclusive(s) && w.conn < |s.conns| && !HasWaiter(s, w.key)
    requires w.key in s.runs && s.runs[w.key] == w.rec && !Live(s, w.rec)
    ensures Exclusive(Supersede(s, w))
  {
    var t := s.(records := s.records[w.rec := s.records[w.rec].(timer := false)], runs := s.runs - {w.key});
    forall rec | 0 <= rec < |t.records| && (Live(t, rec) || t.records[rec].timer) ensures Owns(t, rec) {
      assert Owns(s, rec);
    }
    StartRunKeepsExclusive(t, w.key, w.conn);
  }

  lemma WellFormedWaiters(s: Registry)
    requires WellFormed(s)
    ensures WaitersOk(s)
  {
  }

  lemma NoWaiterNoResume(s: Registry, rec: nat)
    requires WaitersOk(s) && forall i | 0 <= i < |s.waiting| :: s.waiting[i].rec != rec
    ensures Resume(s, rec) == s
  {
  }

  lemma ExitKeepsExclusive(s: Registry, rec: nat, result: RunResult)
    requires Exclusive(s) && Running(s, rec)
    ensures Exclusive(Resume(Finished(s, rec, result), rec))
  {
    var f := Finished(s, rec, result);
    FinishedOwns(s, rec, result);
    hide StartRun, Supersede, Resume, Finished, Attach;
    var i := FirstWaiter(f.waiting, rec);
    if i < |f.waiting| {
      var t := Without(f, i);
      WithoutWaiter(s, f, i, t);
      hide Exclusive;
      SupersedeKeepsExclusive(t, f.waiting[i]);
      SupersedeShape(t, f.waiting[i]);
      ResumeStep(f, rec, i);
      NoWaiterNoResume(Supersede(t, f.waiting[i]), rec);
    } else {
      NoWaiterNoResume(f, rec);
      WithoutWaiter(s, f, |f.waiting|, f);
    }
  }

  // What is left of exclusivity right after a run ends.
  lemma FinishedOwns(s: Registry, rec: nat, result: RunResult)
    requires Exclusive(s) && Live(s, rec)
    ensures var f := Finished(s, rec, result);
            && WellFormed(f) && f.waiting == s.waiting && f.runs == s.runs && |f.records| == |s.records|
            && (forall q | 0 <= q < |f.records| && (Live(f, q) || f.records[q].timer) ::
                  Owns(f, q) && (f.records[q].timer ==> f.records[q].result.Some?))
            && (forall q | 0 <= q < |f.records| :: f.records[q].key == s.records[q].key)
            && (forall j | 0 <= j < |s.waiting| && j != FirstWaiter(f.waiting, rec) ::
                  Live(f, s.waiting[j].rec) && s.waiting[j].rec != rec)
  {
    var f := Finished(s, rec, result);
    assert Owns(s, rec);
    forall q | 0 <= q < |f.records| && (Live(f, q) || f.records[q].timer) ensures Owns(f, q) {
      if q != rec { assert Owns(s, q); }
    }
    forall j | 0 <= j < |s.waiting| && j != FirstWaiter(f.waiting, rec)
      ensures Live(f, s.waiting[j].rec) && s.waiting[j].rec != rec
    {
      assert Owns(s, s.waiting[j].rec);
    }
  }

  // After a run ends, only its own waiter is left over from it.
  lemma WithoutWaiter(s: Registry, f: Registry, i: nat, t: Registry)
    requires Exclusive(s) && WellFormed(f) && f.waiting == s.waiting && f.runs == s.runs && |f.records| == |s.records|
    requires i <= |s.waiting|
    requires t == if i == |f.waiting| then f else Without(f, i)
    requires forall q | 0 <= q < |f.records| && (Live(f, q) || f.records[q].timer) ::
               Owns(f, q) && (f.records[q].timer ==> f.records[q].result.Some?)
    requires forall q | 0 <= q < |f.records| :: f.records[q].key == s.records[q].key
    requires forall j | 0 <= j < |s.waiting| && j != i :: Live(f, s.waiting[j].rec)
    ensures Exclusive(t)
    ensures i < |s.waiting| ==> !HasWaiter(t, s.waiting[i].key)
    ensures forall j | 0 <= j < |t.waiting| :: Live(f, t.waiting[j].rec)
  {
    assert forall j | 0 <= j < |t.waiting| :: t.waiting[j] == s.waiting[if j < i then j else j + 1];
    forall q | 0 <= q < |t.records| && (Live(t, q) || t.records[q].timer) ensures Owns(t, q) {
      assert Owns(f, q);
    }
    forall j | 0 <= j < |t.waiting| ensures Live(t, t.waiting[j].rec) {
      assert Live(f, t.waiting[j].rec);
    }
  }

  lemma DispatchKeepsExclusive(s: Registry, key: Key)
    requires Exclusive(s) && !HasWaiter(s, key)
    ensures Exclusive(Apply(s, Dispatch(key)))
  {
    hide StartRun, Resume;
    var conn := |s.conns|;
    var arrived := s.(conns := s.conns + [NewConn]);
    ExclusiveFrame(s, arrived);
    if key !in s.runs {
      StartRunKeepsExclusive(arrived, key, conn);
    } else if Live(s, s.runs[key]) {
      var t := Apply(s, Dispatch(key));
      var u := t.(waiting := s.waiting);
      ExclusiveFrame(s, u);
      forall q | 0 <= q < |t.records| && (Live(t, q) || t.records[q].timer) ensures Owns(t, q) {
        assert Owns(u, q);
      }
      forall i | 0 <= i < |s.waiting| ensures Live(t, t.waiting[i].rec) && s.waiting[i].key != key {
        assert Live(u, u.waiting[i].rec);
      }
    } else {
      SupersedeKeepsExclusive(arrived, Waiter(key, s.runs[key], conn));
    }
  }

  lemma ReconnectKeepsExclusive(s: Registry, key: Key, cursor: int)
    requires Exclusive(s)
    ensures Exclusive(Apply(s, Reconnect(key, cursor)))
  {
    hide StartRun, Resume, Supersede;
    var arrived := s.(conns := s.conns + [NewConn]);
    ExclusiveFrame(s, arrived);
    if key in s.runs {
      ExclusiveFrame(s, Apply(s, Reconnect(key, cursor)));
    } else {
      assert forall i | 0 <= i < |s.waiting| :: Owns(s, s.waiting[i].rec);
      StartRunKeepsExclusive(arrived, key, |s.conns|);
    }
  }

  lemma EvictKeepsExclusive(s: Registry, rec: nat)
    requires Exclusive(s) && Enabled(s, Evict(rec))
    ensures Exclusive(Apply(s, Evict(rec)))
  {
    hide StartRun, Resume, Supersede, Attach;
    var t := Apply(s, Evict(rec));
    assert Owns(s, rec);
    forall q | 0 <= q < |t.records| && (Live(t, q) || t.records[q].timer) ensures Owns(t, q) {
      assert Owns(s, q);
    }
    forall i | 0 <= i < |t.waiting| ensures Live(t, t.waiting[i].rec) {
      assert Live(s, s.waiting[i].rec);
    }
  }

  /** No step makes a second process for a key, if no fresh dispatch meets a waiting one. */
  lemma ApplyKeepsExclusive(s: Registry, a: Action)
    requires Exclusive(s) && Enabled(s, a)
    requires a.Dispatch? ==> !HasWaiter(s, a.key)
    ensures Exclusive(Apply(s, a))
  {
    hide StartRun, Supersede, Attach;
    match a {
      case Dispatch(key) => DispatchKeepsExclusive(s, key);
      case Reconnect(key, cursor) => ReconnectKeepsExclusive(s, key, cursor);
      case Exit(rec, result) => ExitKeepsExclusive(s, rec, result);
      case Evict(rec) => EvictKeepsExclusive(s, rec);
      case _ => ExclusiveFrame(s, Apply(s, a));
    }
  }

  /** A record's own timer is the only thing that evicts it, and it evicts nothing else. */
  lemma EvictionIsOwn(s: Registry, rec: nat)
    requires Exclusive(s) && Enabled(s, Evict(rec))
    ensures var t := Apply(s, Evict(rec));
            && !Live(s, rec)
            && (forall k | k in s.runs && s.runs[k] != rec :: k in t.runs && t.runs[k] == s.runs[k])
            && s.records[rec].key !in t.runs
  {
    assert Owns(s, rec);
  }

  lemma SupersedeShape(s: Registry, w: Waiter)
    requires w.rec < |s.records| && w.conn < |s.conns|
    ensures var t := Supersede(s, w);
            && t.waiting == s.waiting && |t.records| == |s.records| + 1 && |t.conns| == |s.conns|
            && t.runs == (s.runs - {w.key})[w.key := |s.records|]
            && t.records[|s.records|].key == w.key && Running(t, |s.records|)
            && forall i | 0 <= i < |s.records| ::
                 t.records[i] == s.records[i].(timer := s.records[i].timer && i != w.rec)
  {
  }

  lemma ResumeStep(s: Registry, rec: nat, i: nat)
    requires WaitersOk(s) && i < |s.waiting| && s.waiting[i].rec == rec
    requires forall j | 0 <= j < i :: s.waiting[j].rec != rec
    ensures var t := Supersede(Without(s, i), s.waiting[i]);
            WaitersOk(t) && Resume(s, rec) == Resume(t, rec)
  {
    hide Supersede;
    SupersedeShape(Without(s, i), s.waiting[i]);
    assert FirstWaiter(s.waiting, rec) == i;
    assert forall j | 0 <= j < |s.waiting| - 1 :: Without(s, i).waiting[j] == s.waiting[if j < i then j else j + 1];
  }

  lemma ResumeNext(s: Registry, rec: nat)
    requires WaitersOk(s) && FirstWaiter(s.waiting, rec) < |s.waiting|
    ensures var i := FirstWaiter(s.waiting, rec);
            var t := Supersede(Without(s, i), s.waiting[i]);
            WaitersOk(t) && Resume(s, rec) == Resume(t, rec)
  {
    ResumeStep(s, rec, FirstWaiter(s.waiting, rec));
    hide Supersede, Resume;
  }

  lemma NobodyToResume(s: Registry, rec: nat)
    requires WaitersOk(s) && FirstWaiter(s.waiting, rec) >= |s.waiting|
    ensures Resume(s, rec) == s
  {
  }

  // Records n and n + 1 are two live runs of one key; the map knows only the second.
  ghost predicate TwinRuns(u: Registry, n: nat, key: Key) {
    && |u.records| == n + 2
    && Running(u, n) && Running(u, n + 1)
    && u.records[n].key == key && u.records[n + 1].key == key
    && key in u.runs && u.runs[key] == n + 1
  }

  // With exactly two waiters on a run, its end starts both of their runs.
  lemma ResumeTwo(f: Registry, rec: nat, key: Key, i: nat)
    requires WaitersOk(f) && i < |f.waiting| - 1
    requires forall j | 0 <= j < |f.waiting| :: f.waiting[j].rec == rec <==> j == i || j == |f.waiting| - 1
    requires f.waiting[i].key == key && f.waiting[|f.waiting| - 1].key == key
    ensures TwinRuns(Resume(f, rec), |f.records|, key)
  {
    hide Supersede, Resume, Without;
    var n := |f.waiting| - 1;
    var g := ResumeOne(f, rec, i);
    var h := ResumeOne(g, rec, n - 1);
    NoWaiterNoResume(h, rec);
  }

  // One waiter of a run that ended starts its own run; the others keep waiting, in order.
  lemma ResumeOne(f: Registry, rec: nat, i: nat) returns (g: Registry)
    requires WaitersOk(f) && i < |f.waiting| && f.waiting[i].rec == rec
    requires forall j | 0 <= j < i :: f.waiting[j].rec != rec
    ensures WaitersOk(g) && Resume(f, rec) == Resume(g, rec)
    ensures |g.waiting| == |f.waiting| - 1 && forall j | 0 <= j < |g.waiting| :: g.waiting[j] == f.waiting[if j < i then j else j + 1]
    ensures |g.records| == |f.records| + 1 && Running(g, |f.records|) && g.records[|f.records|].key == f.waiting[i].key
    ensures f.waiting[i].key in g.runs && g.runs[f.waiting[i].key] == |f.records|
    ensures forall q | 0 <= q < |f.records| :: g.records[q] == f.records[q].(timer := g.records[q].timer)
  {
    hide Supersede, Resume;
    g := Supersede(Without(f, i), f.waiting[i]);
    SupersedeShape(Without(f, i), f.waiting[i]);
    assert WaitersOk(g) && Resume(f, rec) == Resume(g, rec) by { ResumeStep(f, rec, i); }
  }

  // Two dispatches waiting for the same run: both start a process when it ends.
  lemma OverlapBreaksExclusion(s: Registry, key: Key, result: RunResult)
    requires Delivery(s) && Exclusive(s) && HasWaiter(s, key) && key in s.runs && Running(s, s.runs[key])
    ensures var t := Apply(s, Dispatch(key));
            && Delivery(t)
            && TwinRuns(Apply(t, Exit(s.runs[key], result)), |s.records|, key)
  {
    hide Apply, Delivery, Exclusive, Supersede, Resume, Finished;
    var i :| 0 <= i < |s.waiting| && s.waiting[i].key == key;
    WaitersForRec(s, key, i);
    DispatchWaits(s, key);
    var t := Apply(s, Dispatch(key));
    ExitResumes(t, s.runs[key], result);
    ResumeTwo(Finished(t, s.runs[key], result), s.runs[key], key, i);
  }

  lemma DispatchWaits(s: Registry, key: Key)
    requires Delivery(s) && key in s.runs && Live(s, s.runs[key])
    ensures var t := Apply(s, Dispatch(key));
            && WellFormed(s) && WellFormed(t) && Delivery(t) && Live(t, s.runs[key])
            && t.records[s.runs[key]].failure == s.records[s.runs[key]].failure
            && t.waiting == s.waiting + [Waiter(key, s.runs[key], |s.conns|)]
            && |t.records| == |s.records|
  {
    ApplyKeepsDelivery(s, Dispatch(key));
  }

  lemma ExitResumes(t: Registry, rec: nat, result: RunResult)
    requires WellFormed(t) && Running(t, rec)
    ensures var f := Finished(t, rec, result);
            && WaitersOk(f) && f.waiting == t.waiting && |f.records| == |t.records|
            && Apply(t, Exit(rec, result)) == Resume(f, rec)
  {
    hide Resume;
  }

  lemma WaitersForRec(s: Registry, key: Key, i: nat)
    requires Exclusive(s) && key in s.runs && i < |s.waiting| && s.waiting[i].key == key
    ensures Live(s, s.runs[key])
    ensures forall j | 0 <= j < |s.waiting| :: s.waiting[j].rec == s.runs[key] <==> j == i
  {
    assert Owns(s, s.waiting[i].rec);
    forall j | 0 <= j < |s.waiting| ensures s.waiting[j].rec == s.runs[key] <==> j == i {
      assert Owns(s, s.waiting[j].rec);
    }
  }

  /** A dispatch that finds a live run keeps "one process per key" exactly when nobody waits for that key. */
  lemma DispatchSafeIffNobodyWaits(s: Registry, key: Key, result: RunResult)
    requires Delivery(s) && Exclusive(s) && key in s.runs && Running(s, s.runs[key])
    ensures var t := Apply(s, Dispatch(key));
            && Delivery(t) && Running(t, s.runs[key])
            && (OneLivePerKey(Apply(t, Exit(s.runs[key], result))) <==> !HasWaiter(s, key))
  {
    ApplyKeepsDelivery(s, Dispatch(key));
    var t := Apply(s, Dispatch(key));
    if HasWaiter(s, key) {
      OverlapBreaksExclusion(s, key, result);
    } else {
      ApplyKeepsExclusive(s, Dispatch(key));
      ApplyKeepsExclusive(t, Exit(s.runs[key], result));
      ExclusiveMeansOneLive(Apply(t, Exit(s.runs[key], result)));
    }
  }

  /** Of two such twins, the forgotten one later evicts the other: its timer deletes the key while that run is live. */
  lemma ForgottenTwinEvictsTheOther(u: Registry, n: nat, key: Key, result: RunResult)
    requires WellFormed(u) && TwinRuns(u, n, key)
    requires forall j | 0 <= j < |u.waiting| :: u.waiting[j].rec != n
    ensures var v := Apply(u, Exit(n, result));
            && WellFormed(v) && Enabled(v, Evict(n))
            && var w := Apply(v, Evict(n));
            && key !in w.runs && Live(w, n + 1)
  {
    hide Resume;
    var f := Finished(u, n, result);
    NoWaiterNoResume(f, n);
    assert Apply(u, Exit(n, result)) == f;
  }

  // ---- whole runs -----------------------------------------------------------

  ghost function Step(s: Registry, a: Action): Registry {
    if WellFormed(s) && Enabled(s, a) then Apply(s, a) else s
  }

  ghost function Execute(s: Registry, actions: seq<Action>): Registry {
    if actions == [] then s
    else Step(Execute(s, actions[..|actions| - 1]), actions[|actions| - 1])
  }

  // No fresh dispatch for a key arrives while another one waits for that key.
  ghost predicate Orderly(actions: seq<Action>) {
    forall i | 0 <= i < |actions| && actions[i].Dispatch? ::
      !HasWaiter(Execute(Empty, actions[..i]), actions[i].key)
  }

  /** In every reachable registry each response has been written its run's history from where it attached. */
  lemma {:induction false} EveryRunDelivers(actions: seq<Action>)
    ensures Delivery(Execute(Empty, actions))
  {
    if actions != [] {
      var before := Execute(Empty, actions[..|actions| - 1]);
      EveryRunDelivers(actions[..|actions| - 1]);
      if Enabled(before, actions[|actions| - 1]) {
        ApplyKeepsDelivery(before, actions[|actions| - 1]);
      }
    }
  }

  /** In every orderly run at most one process per session key is alive. */
  lemma {:induction false} OrderlyRunsAreExclusive(actions: seq<Action>)
    requires Orderly(actions)
    ensures Exclusive(Execute(Empty, actions)) && OneLivePerKey(Execute(Empty, actions))
  {
    if actions != [] {
      var n := |actions| - 1;
      var before := Execute(Empty, actions[..n]);
      forall i | 0 <= i < n && actions[..n][i].Dispatch?
        ensures !HasWaiter(Execute(Empty, actions[..n][..i]), actions[..n][i].key)
      {
        assert actions[..n][..i] == actions[..i];
      }
      OrderlyRunsAreExclusive(actions[..n]);
      if Enabled(before, actions[n]) {
        ApplyKeepsExclusive(before, actions[n]);
      }
    }
    ExclusiveMeansOneLive(Execute(Empty, actions));
  }
}
