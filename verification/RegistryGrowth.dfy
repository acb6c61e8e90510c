/** What no step of the registry takes back: events, results, bytes sent, attachments. */
module RegistryGrowth {
  import opened Text
  import opened Wire
  import opened RunRegistry

  ghost predicate RecordGrows(r: Record, q: Record) {
    && q.key == r.key && q.origin == r.origin && r.events <= q.events
    && (r.result.Some? ==> q.result == r.result && q.failure == r.failure && q.events == r.events)
    && (r.failure.Some? ==> q.result == r.result && q.failure == r.failure && q.events == r.events)
  }

  ghost predicate ConnGrows(c: Conn, d: Conn) {
    && c.written <= d.written
    && (c.target.Some? ==> d.target == c.target)
    && (c.target.None? && d.target.Some? ==> d.target.value.start == 0)
  }

  ghost predicate Grows(s: Registry, t: Registry) {
    && |s.records| <= |t.records| && |s.conns| <= |t.conns|
    && (forall i | 0 <= i < |s.records| :: RecordGrows(s.records[i], t.records[i]))
    && (forall i | 0 <= i < |s.conns| :: ConnGrows(s.conns[i], t.conns[i]))
    && (forall i | 0 <= i < |s.conns| && s.conns[i].target.None? && t.conns[i].target.Some? ::
          t.conns[i].target.value.rec >= |s.records|)
  }

  lemma GrowsTransitive(s: Registry, t: Registry, u: Registry)
    requires Grows(s, t) && Grows(t, u)
    ensures Grows(s, u)
  {
    forall i | 0 <= i < |s.records| ensures RecordGrows(s.records[i], u.records[i]) {
      assert RecordGrows(s.records[i], t.records[i]) && RecordGrows(t.records[i], u.records[i]);
    }
    forall i | 0 <= i < |s.conns| ensures ConnGrows(s.conns[i], u.conns[i]) {
      assert ConnGrows(s.conns[i], t.conns[i]) && ConnGrows(t.conns[i], u.conns[i]);
    }
  }

  lemma AttachGrows(s: Registry, rec: nat, conn: nat, from: int)
    requires rec < |s.records| && conn < |s.conns| && s.conns[conn].target.None?
    ensures var t := Attach(s, rec, conn, from);
            && |t.records| == |s.records| && |t.conns| == |s.conns|
            && (forall i | 0 <= i < |s.records| :: RecordGrows(s.records[i], t.records[i]))
            && (forall i | 0 <= i < |s.conns| && i != conn :: t.conns[i] == s.conns[i])
            && s.conns[conn].written <= t.conns[conn].written
            && t.conns[conn].target == Some(Attachment(rec, Clamp(from, |s.records[rec].events|)))
  {
  }

  lemma StartRunGrows(s: Registry, key: Key, conn: nat)
    requires conn < |s.conns| && s.conns[conn].target.None?
    ensures Grows(s, StartRun(s, key, conn))
    ensures StartRun(s, key, conn).conns[conn].target == Some(Attachment(|s.records|, 0))
    ensures StartRun(s, key, conn).records[|s.records|].key == key
    ensures StartRun(s, key, conn).records[|s.records|].events == []
    ensures Running(StartRun(s, key, conn), |s.records|)
  {
    var rec := |s.records|;
    var t := s.(records := s.records + [Record(key, [], None, None, conn, false, {}, false)], runs := s.runs[key := rec]);
    AttachGrows(t, rec, conn, 0);
    var u := StartRun(s, key, conn);
    forall i | 0 <= i < |s.records| ensures RecordGrows(s.records[i], u.records[i]) {
      assert RecordGrows(t.records[i], u.records[i]);
    }
  }

  lemma SupersedeGrows(s: Registry, w: Waiter)
    requires w.rec < |s.records| && w.conn < |s.conns| && s.conns[w.conn].target.None?
    ensures Grows(s, Supersede(s, w))
    ensures Supersede(s, w).conns[w.conn].target == Some(Attachment(|s.records|, 0))
    ensures Supersede(s, w).records[|s.records|].events == []
  {
    var t := s.(records := s.records[w.rec := s.records[w.rec].(timer := false)], runs := s.runs - {w.key});
    StartRunGrows(t, w.key, w.conn);
    GrowsTransitive(s, t, Supersede(s, w));
  }

  lemma ResumeGrows(s: Registry, rec: nat)
    requires Delivery(s)
    ensures Grows(s, Resume(s, rec))
    decreases |s.waiting|
  {
    hide Supersede, Resume, Grows;
    var i := FirstWaiter(s.waiting, rec);
    if i == |s.waiting| {
      NoWaiterNoResume(s, rec);
      GrowsSame(s, s);
    } else {
      var t := Without(s, i);
      var u := Supersede(t, s.waiting[i]);
      SupersedeOneGrows(s, rec, i);
      hide Delivery;
      ResumeGrows(u, rec);
      GrowsTransitive(s, u, Resume(u, rec));
    }
  }

  lemma SupersedeOneGrows(s: Registry, rec: nat, i: nat)
    requires Delivery(s) && i == FirstWaiter(s.waiting, rec) && i < |s.waiting|
    ensures var u := Supersede(Without(s, i), s.waiting[i]);
            Delivery(u) && Grows(s, u) && |u.waiting| < |s.waiting| && Resume(s, rec) == Resume(u, rec)
  {
    hide Supersede, Resume, Grows;
    var t := Without(s, i);
    var u := Supersede(t, s.waiting[i]);
    assert Delivery(t) by { SameRunsKeepsDelivery(s, t); }
    assert Delivery(u) && Grows(t, u) by {
      SupersedeKeepsDelivery(t, s.waiting[i]);
      SupersedeGrows(t, s.waiting[i]);
    }
    assert |u.waiting| < |s.waiting| by { SupersedeShape(t, s.waiting[i]); }
    assert Resume(s, rec) == Resume(u, rec) by { ResumeStep(s, rec, i); }
    hide Delivery;
    GrowsSame(s, t);
    GrowsTransitive(s, t, u);
  }

  lemma GrowsSame(s: Registry, t: Registry)
    requires t.records == s.records && t.conns == s.conns
    ensures Grows(s, t)
  {
  }

  lemma ArrivalGrows(s: Registry)
    ensures Grows(s, s.(conns := s.conns + [NewConn]))
  {
  }

  // What every kind of request does to the registry.
  lemma DispatchGrows(s: Registry, key: Key)
    requires Delivery(s)
    ensures Grows(s, Apply(s, Dispatch(key)))
  {
    hide StartRun, Supersede, Grows;
    var conn := |s.conns|;
    var arrived := s.(conns := s.conns + [NewConn]);
    ArrivalGrows(s);
    if key !in s.runs {
      StartRunGrows(arrived, key, conn);
      GrowsTransitive(s, arrived, StartRun(arrived, key, conn));
    } else if Live(s, s.runs[key]) {
      AbortGrows(s, s.runs[key], Apply(s, Dispatch(key)));
    } else {
      SupersedeGrows(arrived, Waiter(key, s.runs[key], conn));
      GrowsTransitive(s, arrived, Supersede(arrived, Waiter(key, s.runs[key], conn)));
    }
  }

  lemma AbortGrows(s: Registry, rec: nat, t: Registry)
    requires rec < |s.records| && t.records == s.records[rec := s.records[rec].(aborted := true)]
    requires |t.conns| >= |s.conns| && forall i | 0 <= i < |s.conns| :: t.conns[i] == s.conns[i]
    ensures Grows(s, t)
  {
  }

  lemma ReconnectGrows(s: Registry, key: Key, cursor: int)
    requires Delivery(s)
    ensures Grows(s, Apply(s, Reconnect(key, cursor)))
  {
    hide StartRun, Attach, Grows;
    var conn := |s.conns|;
    var arrived := s.(conns := s.conns + [NewConn]);
    ArrivalGrows(s);
    if key in s.runs {
      AttachGrows(arrived, s.runs[key], conn, cursor);
      NewConnGrows(s, arrived, Attach(arrived, s.runs[key], conn, cursor));
    } else {
      StartRunGrows(arrived, key, conn);
      GrowsTransitive(s, arrived, StartRun(arrived, key, conn));
    }
  }

  // Only the response that just arrived was attached.
  lemma NewConnGrows(s: Registry, arrived: Registry, t: Registry)
    requires arrived == s.(conns := s.conns + [NewConn])
    requires |t.records| == |s.records| && |t.conns| == |arrived.conns|
    requires forall i | 0 <= i < |s.records| :: RecordGrows(arrived.records[i], t.records[i])
    requires forall i | 0 <= i < |s.conns| :: t.conns[i] == arrived.conns[i]
    ensures Grows(s, t)
  {
  }

  lemma ExitGrows(s: Registry, rec: nat, result: RunResult)
    requires Delivery(s) && Running(s, rec)
    ensures Grows(s, Resume(Finished(s, rec, result), rec))
  {
    var f := Finished(s, rec, result);
    FinishedGrows(s, rec, result);
    WriteKeepsDelivery(s, rec, f, ResultFrame(result));
    hide Delivery, Grows, Resume, Finished;
    ResumeGrows(f, rec);
    GrowsTransitive(s, f, Resume(f, rec));
  }

  lemma FinishedGrows(s: Registry, rec: nat, result: RunResult)
    requires Running(s, rec)
    ensures Grows(s, Finished(s, rec, result))
  {
  }

  /** Every step only adds: to a record until it is done, to a response until it is attached and after. */
  lemma ApplyGrows(s: Registry, a: Action)
    requires Delivery(s) && Enabled(s, a)
    ensures Grows(s, Apply(s, a))
  {
    match a {
      case Dispatch(key) => DispatchGrows(s, key);
      case Reconnect(key, cursor) => ReconnectGrows(s, key, cursor);
      case Exit(rec, result) => ExitGrows(s, rec, result); hide Grows, Resume, Finished;
      case Cancel(key) => if key in s.runs && Live(s, s.runs[key]) { AbortGrows(s, s.runs[key], Apply(s, a)); }
      case Evict(rec) => PlainGrows(s, a);
      case Emit(rec, e) => PlainGrows(s, a);
      case Fail(rec, reason) => PlainGrows(s, a);
      case Drop(conn) => PlainGrows(s, a);
    }
    hide Delivery, Resume, StartRun, Supersede, Attach;
  }

  lemma PlainGrows(s: Registry, a: Action)
    requires Delivery(s) && Enabled(s, a) && (a.Evict? || a.Emit? || a.Fail? || a.Drop?)
    ensures Grows(s, Apply(s, a))
  {
    hide StartRun, Supersede, Attach, Resume;
  }
}
