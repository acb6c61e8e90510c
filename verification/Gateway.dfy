/**
 The gateway's handlers over mutable run records and responses, each proved to
 take the corresponding step of the run registry.
 */
module Gateway {
  import opened Text
  import opened Wire
  import R = RunRegistry

  class Response {
    ghost const id: nat
    var written: seq<Frame>
    var ended: bool
    var closed: bool
    ghost var target: Option<R.Attachment>

    constructor (ghost id: nat)
      ensures this.id == id && View() == R.NewConn
    {
      this.id := id;
      written, ended, closed, target := [], false, false, None;
    }

    ghost function View(): R.Conn
      reads this
    {
      R.Conn(written, ended, closed, target)
    }
  }

  class RunRecord {
    ghost const id: nat
    ghost const origin: nat
    const key: R.Key
    var events: seq<StreamEvent>
    var result: Option<RunResult>
    var done: bool
    var aborted: bool
    var subscribers: set<Response>
    var evictTimer: bool

    // What the error handler told the driving response; the source keeps no trace of it.
    ghost var failure: Option<RunResult>

    constructor (ghost id: nat, key: R.Key, ghost origin: nat)
      ensures this.id == id && this.key == key && subscribers == {} && !done
      ensures View() == R.Record(key, [], None, None, origin, false, {}, false)
    {
      this.id, this.key, this.origin, failure := id, key, origin, None;
      events, result, done, aborted, subscribers, evictTimer := [], None, false, false, {}, false;
    }

    ghost function View(): R.Record
      reads this
    {
      R.Record(key, events, result, failure, origin, aborted, set s | s in subscribers :: s.id, evictTimer)
    }
  }

  // Send one line to every subscriber, and end the responses with the last one.
  method Broadcast(subscribers: set<Response>, f: Frame, end: bool)
    modifies subscribers
    ensures forall s | s in subscribers ::
              s.View() == old(s.View()).(written := old(s.written) + [f], ended := old(s.ended) || end)
  {
    var todo := subscribers;
    while todo != {}
      invariant todo <= subscribers
      invariant forall s | s in subscribers ::
                  s.View() == if s in todo then old(s.View())
                              else old(s.View()).(written := old(s.written) + [f], ended := old(s.ended) || end)
      decreases todo
    {
      var s :| s in todo;
      s.written := s.written + [f];
      if end { s.ended := true; }
      todo := todo - {s};
    }
  }

  // Replay the events from `fromIndex`, then flush the result or subscribe.
  method AttachSubscriber(record: RunRecord, res: Response, fromIndex: int)
    requires record.done == record.result.Some?
    modifies record`subscribers, res`written, res`ended, res`target
    ensures var start := R.Clamp(fromIndex, |record.events|);
            && res.target == Some(R.Attachment(record.id, start))
            && res.written == old(res.written) + EventFrames(record.events[start..]) + R.ResultFrames(record.View())
    ensures res.ended == (old(res.ended) || record.done)
    ensures record.subscribers == if record.done then old(record.subscribers) else old(record.subscribers) + {res}
  {
    hide EventFrames;
    var start := if fromIndex < 0 then 0 else fromIndex;
    ghost var from := R.Clamp(fromIndex, |record.events|);
    res.target := Some(R.Attachment(record.id, from));
    var i := start;
    assert record.events[from..from] == [];
    while i < |record.events|
      invariant start <= i
      invariant res.ended == old(res.ended) && res.target == Some(R.Attachment(record.id, from))
      invariant record.subscribers == old(record.subscribers)
      invariant from <= |record.events| && (i <= |record.events| ==> from <= i)
      invariant res.written == old(res.written)
                               + EventFrames(record.events[from..if i <= |record.events| then i else |record.events|])
      invariant i > |record.events| ==> from == |record.events|
    {
      assert record.events[from..i + 1] == record.events[from..i] + [record.events[i]];
      EventFramesSnoc(record.events[from..i], record.events[i]);
      res.written := res.written + [EventFrame(record.events[i])];
      i := i + 1;
    }
    assert record.events[from..|record.events|] == record.events[from..];
    if record.done {
      res.written := res.written + [ResultFrame(record.result.value)];
      res.ended := true;
      return;
    }
    record.subscribers := record.subscribers + {res};
  }

  lemma EventFramesSnoc(events: seq<StreamEvent>, e: StreamEvent)
    ensures EventFrames(events + [e]) == EventFrames(events) + [EventFrame(e)]
  {
  }

  datatype Pending = Pending(key: R.Key, record: RunRecord, res: Response)

  // The registry's module state. `records` and `conns` list every record and
  // response ever made; `waiting` holds the handlers suspended on `finished`.
  class Server {
    var runs: map<R.Key, RunRecord>
    var waiting: seq<Pending>
    ghost var records: seq<RunRecord>
    ghost var conns: seq<Response>

    static ghost function RecordViews(rs: seq<RunRecord>): (v: seq<R.Record>)
      reads rs
      ensures |v| == |rs| && forall i | 0 <= i < |v| :: v[i] == rs[i].View()
    {
      if rs == [] then [] else [rs[0].View()] + RecordViews(rs[1..])
    }

    static ghost function ConnViews(cs: seq<Response>): (v: seq<R.Conn>)
      reads cs
      ensures |v| == |cs| && forall i | 0 <= i < |v| :: v[i] == cs[i].View()
    {
      if cs == [] then [] else [cs[0].View()] + ConnViews(cs[1..])
    }

    static ghost function WaiterViews(ws: seq<Pending>): (v: seq<R.Waiter>)
      ensures |v| == |ws| && forall i | 0 <= i < |v| :: v[i] == R.Waiter(ws[i].key, ws[i].record.id, ws[i].res.id)
    {
      if ws == [] then [] else [R.Waiter(ws[0].key, ws[0].record.id, ws[0].res.id)] + WaiterViews(ws[1..])
    }

    static ghost function RunIds(runs: map<R.Key, RunRecord>): (v: map<R.Key, nat>)
      ensures v.Keys == runs.Keys && forall k | k in runs :: v[k] == runs[k].id
    {
      map k | k in runs :: runs[k].id
    }

    static lemma RunIdsUpdate(m: map<R.Key, RunRecord>, key: R.Key, r: RunRecord)
      ensures RunIds(m[key := r]) == RunIds(m)[key := r.id]
    {
    }

    static lemma RunIdsRemove(m: map<R.Key, RunRecord>, key: R.Key)
      ensures RunIds(m - {key}) == RunIds(m) - {key}
    {
    }

    static lemma RecordViewsSnoc(rs: seq<RunRecord>, r: RunRecord)
      ensures RecordViews(rs + [r]) == RecordViews(rs) + [r.View()]
    {
      hide RecordViews;
    }

    static lemma ConnViewsSnoc(cs: seq<Response>, c: Response)
      ensures ConnViews(cs + [c]) == ConnViews(cs) + [c.View()]
    {
      hide ConnViews;
    }

    static lemma RecordViewsStep(rs: seq<RunRecord>, before: seq<R.Record>, i: nat)
      requires i < |rs| == |before|
      requires forall j | 0 <= j < |rs| && j != i :: rs[j].View() == before[j]
      ensures RecordViews(rs) == before[i := rs[i].View()]
    {
      hide RecordViews;
    }

    static lemma RecordViewsSame(rs: seq<RunRecord>, before: seq<R.Record>)
      requires |rs| == |before| && forall j | 0 <= j < |rs| :: rs[j].View() == before[j]
      ensures RecordViews(rs) == before
    {
      hide RecordViews;
    }

    static lemma ConnViewsStep(cs: seq<Response>, before: seq<R.Conn>, i: nat)
      requires i < |cs| == |before|
      requires forall j | 0 <= j < |cs| && j != i :: cs[j].View() == before[j]
      ensures ConnViews(cs) == before[i := cs[i].View()]
    {
      hide ConnViews;
    }

    static lemma ConnViewsSame(cs: seq<Response>, before: seq<R.Conn>)
      requires |cs| == |before| && forall j | 0 <= j < |cs| :: cs[j].View() == before[j]
      ensures ConnViews(cs) == before
    {
      hide ConnViews;
    }

    // What Broadcast does to all responses.
    static lemma ConnViewsWrite(cs: seq<Response>, before: seq<R.Conn>, subs: set<Response>, f: Frame, end: bool)
      requires |cs| == |before| && forall j | 0 <= j < |cs| :: cs[j].id == j
      requires forall s | s in subs :: s.id < |cs| && cs[s.id] == s
      requires forall j | 0 <= j < |cs| ::
                 cs[j].View() == if cs[j] in subs
                                 then before[j].(written := before[j].written + [f], ended := before[j].ended || end)
                                 else before[j]
      ensures ConnViews(cs) == R.Write(before, set s | s in subs :: s.id, f, end)
    {
      hide ConnViews, R.Write;
      var ids := set s | s in subs :: s.id;
      forall j | 0 <= j < |cs| ensures cs[j] in subs <==> j in ids {
      }
    }

    static lemma WaiterViewsSnoc(ws: seq<Pending>, p: Pending)
      ensures WaiterViews(ws + [p]) == WaiterViews(ws) + [R.Waiter(p.key, p.record.id, p.res.id)]
    {
      hide WaiterViews;
    }

    static lemma WaiterViewsWithout(ws: seq<Pending>, i: nat)
      requires i < |ws|
      ensures WaiterViews(ws[..i] + ws[i + 1..]) == WaiterViews(ws)[..i] + WaiterViews(ws)[i + 1..]
    {
      hide WaiterViews;
    }

    ghost function View(): R.Registry
      reads this, records, conns
    {
      R.Registry(RecordViews(records), RunIds(runs), ConnViews(conns), WaiterViews(waiting))
    }

    ghost predicate Knows(r: RunRecord)
      reads this`records
    {
      r.id < |records| && records[r.id] == r
    }

    ghost predicate Serves(s: Response)
      reads this`conns
    {
      s.id < |conns| && conns[s.id] == s
    }

    ghost predicate Hears(r: RunRecord)
      reads this`conns, r
    {
      && r.done == r.result.Some?
      && forall s | s in r.subscribers :: Serves(s)
    }

    ghost predicate Valid()
      reads this, records, conns
    {
      && (forall i | 0 <= i < |records| :: records[i].id == i)
      && (forall i | 0 <= i < |conns| :: conns[i].id == i)
      && (forall i | 0 <= i < |records| :: Hears(records[i]))
      && (forall k | k in runs :: Knows(runs[k]))
      && (forall i | 0 <= i < |waiting| :: Knows(waiting[i].record) && Serves(waiting[i].res))
    }

    constructor ()
      ensures Valid() && View() == R.Empty
    {
      runs, waiting, records, conns := map[], [], [], [];
    }

    // A new record under the key, with the given response as its first subscriber.
    method StartRun(key: R.Key, res: Response)
      requires Valid() && Serves(res)
      modifies this`runs, this`records, res`written, res`ended, res`target
      ensures Valid() && View() == R.StartRun(old(View()), key, res.id)
      ensures conns == old(conns) && waiting == old(waiting) && old(records) <= records
      ensures fresh(records[|old(records)|..])
    {
      hide RecordViews, ConnViews, WaiterViews, RunIds, EventFrames, R.StartRun;
      ghost var before := View();
      R.StartRunIs(before, key, res.id);
      var record := new RunRecord(|records|, key, res.id);
      records := records + [record];
      runs := runs[key := record];
      AttachSubscriber(record, res, 0);
      assert res.written == old(res.written);
      assert (set s | s in record.subscribers :: s.id) == {res.id};
      assert Valid() by {
        StillValid();
      }
      assert RecordViews(records) == before.records + [record.View()] by {
        RecordViewsSnoc(old(records), record);
        RecordViewsSame(old(records), before.records);
      }
      assert ConnViews(conns) == before.conns[res.id := res.View()] by {
        ConnViewsStep(conns, before.conns, res.id);
      }
      RunIdsUpdate(old(runs), key, record);
    }

    // Validity survives a step that only adds records and responses and keeps what it knows known.
    twostate lemma StillValid()
      requires old(Valid()) && old(conns) <= conns && old(records) <= records
      requires forall i | |old(records)| <= i < |records| :: records[i].id == i
      requires forall i | |old(conns)| <= i < |conns| :: conns[i].id == i
      requires forall i | 0 <= i < |records| ::
                 Hears(records[i]) || (i < |old(records)| && unchanged(records[i]))
      requires forall k | k in runs :: Knows(runs[k]) || (k in old(runs) && runs[k] == old(runs[k]))
      requires forall i | 0 <= i < |waiting| ::
                 (Knows(waiting[i].record) && Serves(waiting[i].res)) || waiting[i] in old(waiting)
      ensures Valid()
    {
      forall i | 0 <= i < |records| ensures Hears(records[i]) {
        if i < |old(records)| { assert old(Hears(records[i])); }
      }
      forall k | k in runs ensures Knows(runs[k]) {
        if k in old(runs) && runs[k] == old(runs[k]) { assert old(Knows(runs[k])); }
      }
    }

    // The tail of a fresh dispatch once the run it supersedes is over.
    method Supersede(p: Pending)
      requires Valid() && Knows(p.record) && Serves(p.res)
      modifies this`runs, this`records, p.record`evictTimer, p.res`written, p.res`ended, p.res`target
      ensures Valid() && View() == R.Supersede(old(View()), R.Waiter(p.key, p.record.id, p.res.id))
      ensures conns == old(conns) && waiting == old(waiting) && old(records) <= records
      ensures fresh(records[|old(records)|..])
    {
      hide RecordViews, ConnViews, WaiterViews, RunIds, R.StartRun;
      ghost var before := View();
      if p.record.evictTimer { p.record.evictTimer := false; }
      runs := runs - {p.key};
      assert Valid() by {
        StillValid();
      }
      assert View() == before.(records := before.records[p.record.id := before.records[p.record.id].(timer := false)],
                               runs := before.runs - {p.key}) by {
        RecordViewsStep(records, before.records, p.record.id);
        RunIdsRemove(old(runs), p.key);
        ConnViewsSame(conns, before.conns);
      }
      StartRun(p.key, p.res);
    }

    method Arrive() returns (res: Response)
      requires Valid()
      modifies this`conns
      ensures Valid() && Serves(res) && fresh(res) && conns == old(conns) + [res]
      ensures View() == old(View()).(conns := old(View()).conns + [R.NewConn])
      ensures res.id == |old(conns)|
    {
      hide RecordViews, ConnViews, WaiterViews, RunIds;
      ghost var before := View();
      res := new Response(|conns|);
      conns := conns + [res];
      assert Valid() by {
        StillValid();
      }
      ConnViewsSnoc(old(conns), res);
      ConnViewsSame(old(conns), before.conns);
      RecordViewsSame(records, before.records);
    }

    // A reconnect that finds a record.
    method Rejoin(existing: RunRecord, cursor: int, res: Response)
      requires Valid() && Serves(res) && Knows(existing)
      modifies existing`subscribers, res`written, res`ended, res`target
      ensures Valid() && View() == R.Attach(old(View()), existing.id, res.id, cursor)
    {
      hide RecordViews, ConnViews, WaiterViews, RunIds, EventFrames;
      ghost var before := View();
      ghost var ids := set s | s in existing.subscribers :: s.id;
      AttachSubscriber(existing, res, cursor);
      assert Valid() by {
        StillValid();
      }
      assert !existing.done ==> (set s | s in existing.subscribers :: s.id) == ids + {res.id};
      ghost var after := R.Attach(before, existing.id, res.id, cursor);
      assert RecordViews(records) == after.records by {
        RecordViewsStep(records, before.records, existing.id);
      }
      assert ConnViews(conns) == after.conns by {
        ConnViewsStep(conns, before.conns, res.id);
      }
    }

    // A dispatch that finds a live run: abort it and wait for its exit.
    method AwaitPrior(key: R.Key, existing: RunRecord, res: Response)
      requires Valid() && Serves(res) && Knows(existing)
      modifies this`waiting, existing`aborted
      ensures Valid()
      ensures View() == R.Abort(old(View()), existing.id).(waiting := old(View()).waiting
                                                                      + [R.Waiter(key, existing.id, res.id)])
    {
      hide RecordViews, ConnViews, WaiterViews, RunIds;
      ghost var before := View();
      existing.aborted := true;
      waiting := waiting + [Pending(key, existing, res)];
      assert Valid() by {
        StillValid();
      }
      RecordViewsStep(records, before.records, existing.id);
      ConnViewsSame(conns, before.conns);
      WaiterViewsSnoc(old(waiting), Pending(key, existing, res));
    }

    // POST /v1/run, up to the point where it waits for a prior run to exit.
    method HandleRun(key: R.Key, resumeCursor: Option<int>) returns (res: Response)
      requires Valid()
      modifies this, records
      ensures Valid() && R.WellFormed(old(View()))
      ensures View() == R.Apply(old(View()), match resumeCursor
                                             case None => R.Dispatch(key)
                                             case Some(cursor) => R.Reconnect(key, cursor))
    {
      hide RecordViews, ConnViews, WaiterViews, RunIds, R.StartRun, R.Supersede, R.Attach, R.Resume;
      ViewIsWellFormed();
      res := Arrive();
      if key in runs && resumeCursor.Some? {
        Rejoin(runs[key], resumeCursor.value, res);
        return;
      }
      if key in runs {
        var existing := runs[key];
        if !existing.done {
          AwaitPrior(key, existing, res);
          return;
        }
        Supersede(Pending(key, existing, res));
        return;
      }
      StartRun(key, res);
    }

    lemma ViewIsWellFormed()
      requires Valid()
      ensures R.WellFormed(View())
    {
      hide RecordViews, ConnViews, WaiterViews, RunIds;
    }

    // The CLI produced an event.
    method OnEvent(record: RunRecord, event: StreamEvent)
      requires Valid() && Knows(record) && !record.done && record.failure.None?
      modifies record, record.subscribers
      ensures Valid() && R.WellFormed(old(View()))
      ensures View() == R.Apply(old(View()), R.Emit(record.id, event))
    {
      hide RecordViews, ConnViews, WaiterViews, RunIds, R.Resume;
      ghost var before := View();
      ViewIsWellFormed();
      assert forall s | s in record.subscribers :: Serves(s);
      record.events := record.events + [event];
      Broadcast(record.subscribers, EventFrame(event), false);
      assert Valid() by {
        StillValid();
      }
      RecordViewsStep(records, before.records, record.id);
      ConnViewsWrite(conns, before.conns, record.subscribers, EventFrame(event), false);
    }

    // The CLI exited: flush the result, arm the eviction timer, then let the
    // handlers that were awaiting this run continue.
    method OnExit(record: RunRecord, result: RunResult)
      requires Valid() && Knows(record) && !record.done && record.failure.None?
      modifies this, records, conns
      ensures Valid() && R.WellFormed(old(View()))
      ensures View() == R.Apply(old(View()), R.Exit(record.id, result))
    {
      hide R.Resume;
      ViewIsWellFormed();
      ghost var before := View();
      Finish(record, result);
      R.ExitResumes(before, record.id, result);
      ResumeWaiters(record);
    }

    method Finish(record: RunRecord, result: RunResult)
      requires Valid() && Knows(record) && !record.done && record.failure.None?
      modifies record, record.subscribers
      ensures Valid() && View() == R.Finished(old(View()), record.id, result)
    {
      hide RecordViews, ConnViews, WaiterViews, RunIds;
      ghost var before := View();
      assert forall s | s in record.subscribers :: Serves(s);
      record.result := Some(result);
      record.done := true;
      Broadcast(record.subscribers, ResultFrame(result), true);
      record.subscribers := {};
      record.evictTimer := true;
      assert Valid() by {
        StillValid();
      }
      assert record.View().subs == {};
      RecordViewsStep(records, before.records, record.id);
      ConnViewsWrite(conns, before.conns, old(record.subscribers), ResultFrame(result), true);
    }

    // The first handler that awaits the record, or the number of waiting handlers.
    method FirstPending(record: RunRecord) returns (i: nat)
      requires Valid() && Knows(record)
      ensures i == R.FirstWaiter(View().waiting, record.id)
      ensures i <= |waiting| && forall j | 0 <= j < i :: waiting[j].record != record
      ensures i < |waiting| ==> waiting[i].record == record && Serves(waiting[i].res)
    {
      hide RecordViews, ConnViews, RunIds;
      i := 0;
      while i < |waiting| && waiting[i].record != record
        invariant i <= |waiting|
        invariant forall j | 0 <= j < i :: waiting[j].record != record
      {
        i := i + 1;
      }
      assert forall j | 0 <= j < |waiting| :: Knows(waiting[j].record);
      assert forall j | 0 <= j < |waiting| :: View().waiting[j].rec == record.id <==> waiting[j].record == record;
    }

    method TakePending(i: nat) returns (p: Pending)
      requires Valid() && i < |waiting|
      modifies this`waiting
      ensures Valid() && p == old(waiting)[i] && Knows(p.record) && Serves(p.res)
      ensures waiting == old(waiting)[..i] + old(waiting)[i + 1..]
      ensures View() == R.Without(old(View()), i)
    {
      hide RecordViews, ConnViews, WaiterViews, RunIds;
      ghost var before := View();
      p := waiting[i];
      assert Knows(p.record) && Serves(p.res);
      waiting := waiting[..i] + waiting[i + 1..];
      assert Valid() by {
        StillValid();
      }
      WaiterViewsWithout(old(waiting), i);
      RecordViewsSame(records, before.records);
      ConnViewsSame(conns, before.conns);
    }

    // One waiting handler starts its run; what is left to resume is the same.
    method ResumeOne(record: RunRecord, i: nat)
      requires Valid() && Knows(record) && i < |waiting| && waiting[i].record == record
      requires i == R.FirstWaiter(View().waiting, record.id) && R.WaitersOk(View())
      modifies this`runs, this`records, this`waiting, record`evictTimer, waiting[i].res
      ensures Valid() && Knows(record) && conns == old(conns) && |waiting| < |old(waiting)|
      ensures R.WaitersOk(View()) && R.Resume(View(), record.id) == R.Resume(old(View()), record.id)
    {
      hide RecordViews, ConnViews, WaiterViews, RunIds, R.Supersede, R.Resume, R.Without, R.WaitersOk, R.FirstWaiter;
      ghost var before := View();
      R.ResumeNext(before, record.id);
      var p := TakePending(i);
      Supersede(p);
    }

    method ResumeWaiters(record: RunRecord)
      requires Valid() && Knows(record)
      modifies this, records, conns
      ensures Valid() && R.WellFormed(old(View()))
      ensures View() == R.Resume(old(View()), record.id)
    {
      hide RecordViews, ConnViews, WaiterViews, RunIds, R.Supersede, R.Resume, R.WellFormed, R.Without, R.WaitersOk, R.FirstWaiter, Valid;
      ViewIsWellFormed();
      ghost var before := View();
      R.WellFormedWaiters(before);
      var i := FirstPending(record);
      while i < |waiting|
        invariant Valid() && Knows(record) && i == R.FirstWaiter(View().waiting, record.id)
        invariant i < |waiting| ==> waiting[i].record == record && Serves(waiting[i].res)
        invariant R.WaitersOk(View()) && R.Resume(View(), record.id) == R.Resume(before, record.id)
        invariant conns == old(conns) && record in old(records)
        decreases |waiting|
      {
        ResumeOne(record, i);
        i := FirstPending(record);
      }
      R.NobodyToResume(View(), record.id);
    }

    // The handler of a run was rejected after the response had its headers: the router's
    // error handler tells that response and ends it.
    method OnReject(record: RunRecord, res: Response, reason: string)
      requires Valid() && Knows(record) && !record.done && record.failure.None?
      requires Serves(res) && res.id == record.origin
      modifies record`failure, res`written, res`ended
      ensures Valid() && R.WellFormed(old(View()))
      ensures View() == R.Apply(old(View()), R.Fail(record.id, reason))
    {
      hide RecordViews, ConnViews, WaiterViews, RunIds, R.Resume;
      ghost var before := View();
      ViewIsWellFormed();
      record.failure := Some(R.InternalError(reason));
      if !res.closed {
        res.written := res.written + [ResultFrame(R.InternalError(reason))];
        res.ended := true;
      }
      assert Valid() by {
        StillValid();
      }
      RecordViewsStep(records, before.records, record.id);
      ConnViewsStep(conns, before.conns, res.id);
    }

    // The eviction timer of a finished run fired.
    method OnEvict(record: RunRecord)
      requires Valid() && Knows(record) && record.evictTimer
      modifies this`runs, record`evictTimer
      ensures Valid() && R.WellFormed(old(View()))
      ensures View() == R.Apply(old(View()), R.Evict(record.id))
    {
      hide RecordViews, ConnViews, WaiterViews, RunIds, R.Resume;
      ghost var before := View();
      ViewIsWellFormed();
      record.evictTimer := false;
      runs := runs - {record.key};
      assert Valid() by {
        StillValid();
      }
      RecordViewsStep(records, before.records, record.id);
      ConnViewsSame(conns, before.conns);
      RunIdsRemove(old(runs), record.key);
    }

    // POST /v1/cancel.
    method HandleCancel(key: R.Key)
      requires Valid()
      modifies if key in runs then {runs[key]} else {}
      ensures Valid() && R.WellFormed(old(View()))
      ensures View() == R.Step(old(View()), R.Cancel(key))
    {
      hide RecordViews, ConnViews, WaiterViews, RunIds, R.Resume;
      ghost var before := View();
      ViewIsWellFormed();
      if key in runs && !runs[key].done {
        runs[key].aborted := true;
        assert Valid() by {
          StillValid();
        }
        RecordViewsStep(records, before.records, runs[key].id);
        ConnViewsSame(conns, before.conns);
      }
    }

    // A response's socket closed; the callback, if one was registered, forgets the subscriber.
    method OnClose(record: RunRecord?, res: Response)
      requires Valid() && Serves(res) && !res.closed
      requires match res.target
               case None => record == null
               case Some(a) => record != null && Knows(record) && record.id == a.rec
      modifies res`closed, if record == null then {} else {record}
      ensures Valid() && R.WellFormed(old(View()))
      ensures View() == R.Apply(old(View()), R.Drop(res.id))
    {
      hide RecordViews, ConnViews, WaiterViews, RunIds, R.Resume;
      ghost var before := View();
      ViewIsWellFormed();
      res.closed := true;
      if record == null {
        RecordViewsSame(records, before.records);
      } else {
        ghost var ids := set s | s in record.subscribers :: s.id;
        assert Hears(record);
        record.subscribers := record.subscribers - {res};
        assert (set s | s in record.subscribers :: s.id) == ids - {res.id};
        RecordViewsStep(records, before.records, record.id);
      }
      ConnViewsStep(conns, before.conns, res.id);
      assert Valid() by {
        StillValid();
      }
    }
  }
}
