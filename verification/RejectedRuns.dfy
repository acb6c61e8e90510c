/**
 Runs whose CLI cannot be started. The error handler of the request tells the one
 response that drives the run and forgets the record: no result, no done flag, no
 timer, nobody woken.
 */
module RejectedRuns {
  import opened Text
  import opened Wire
  import opened RunRegistry
  import G = RegistryGrowth

  // ---- what responses hold when nobody was told of a rejection -------------------

  // A response holds its run's history from where it attached, and is ended iff the run is done.
  ghost predicate ConnFaithful(s: Registry, i: nat)
    requires i < |s.conns|
  {
    var c := s.conns[i];
    match c.target
    case None => c.written == [] && !c.ended
    case Some(a) =>
      && a.rec < |s.records| && a.start <= |s.records[a.rec].events|
      && var h := History(s.records[a.rec])[a.start..];
      && c.written <= h
      && (!c.closed ==> c.written == h && (c.ended <==> s.records[a.rec].result.Some?))
  }

  ghost predicate Faithful(s: Registry) {
    forall i | 0 <= i < |s.conns| :: ConnFaithful(s, i)
  }

  // A response that ends with a result although its run is not done.
  ghost predicate Misled(s: Registry, i: nat) {
    && i < |s.conns| && s.conns[i].target.Some? && s.conns[i].target.value.rec < |s.records|
    && var r := s.records[s.conns[i].target.value.rec];
    && r.failure.Some? && r.result.None? && s.conns[i].target.value.start <= |r.events|
    && s.conns[i].written == History(r)[s.conns[i].target.value.start..] + [ResultFrame(r.failure.value)]
  }

  lemma ConnFaithfulIff(s: Registry, i: nat)
    requires Delivery(s) && i < |s.conns|
    ensures ConnFaithful(s, i) <==> !Misled(s, i)
  {
    assert ConnOk(s, i);
    if s.conns[i].target.Some? {
      var a := s.conns[i].target.value;
      assert RecordOk(s, a.rec);
      HistorySplit(s.records[a.rec], a.start);
      hide History;
      PrefixOfOneMore(s.conns[i].written, History(s.records[a.rec])[a.start..], FailureFrames(s.records[a.rec], i));
    }
  }

  lemma PrefixOfOneMore(w: seq<Frame>, h: seq<Frame>, more: seq<Frame>)
    requires w <= h + more && |more| <= 1
    ensures w <= h || w == h + more
  {
    if |w| <= |h| {
      assert w == (h + more)[..|w|] == h[..|w|];
    }
  }

  lemma FaithfulIff(s: Registry)
    requires Delivery(s)
    ensures Faithful(s) <==> forall i: nat :: !Misled(s, i)
  {
    forall i: nat | i < |s.conns| ensures ConnFaithful(s, i) <==> !Misled(s, i) {
      ConnFaithfulIff(s, i);
    }
    hide ConnFaithful, Delivery;
    assert forall i: nat :: Misled(s, i) ==> i < |s.conns|;
    hide Misled;
  }

  // ---- the responses a step writes to --------------------------------------------

  // Once attached, a response is written to by the emits and the exit of its running run, and by its rejection.
  ghost predicate Untouched(s: Registry, t: Registry, i: nat) {
    i < |s.conns| && i < |t.conns| && t.conns[i].written == s.conns[i].written
  }

  lemma ResumeLeaves(s: Registry, rec: nat, i: nat)
    requires Delivery(s) && i < |s.conns| && s.conns[i].target.Some?
    ensures Untouched(s, Resume(s, rec), i)
    decreases |s.waiting|
  {
    hide Supersede, Resume, Delivery, Untouched;
    var n := FirstWaiter(s.waiting, rec);
    assert WaitersOk(s) by { WaitersAreOk(s); }
    if n == |s.waiting| {
      NoWaiterNoResume(s, rec);
      SameIsUntouched(s, i);
    } else {
      var u := Supersede(Without(s, n), s.waiting[n]);
      G.SupersedeOneGrows(s, rec, n);
      SupersedeLeaves(s, n, i);
      ResumeLeaves(u, rec, i);
      WaitersAreOk(u);
      UntouchedTwice(s, u, Resume(u, rec), i);
    }
  }

  lemma WaitersAreOk(s: Registry)
    requires Delivery(s)
    ensures WaitersOk(s)
  {
  }

  lemma SameIsUntouched(s: Registry, i: nat)
    requires i < |s.conns|
    ensures Untouched(s, s, i)
  {
  }

  lemma UntouchedTwice(s: Registry, u: Registry, t: Registry, i: nat)
    requires Untouched(s, u, i) && Untouched(u, t, i)
    ensures Untouched(s, t, i)
  {
  }

  lemma SupersedeLeaves(s: Registry, n: nat, i: nat)
    requires Delivery(s) && n < |s.waiting| && i < |s.conns| && s.conns[i].target.Some?
    ensures var u := Supersede(Without(s, n), s.waiting[n]); Untouched(s, u, i) && u.conns[i].target.Some?
  {
    assert WaitingOk(s);
  }

  lemma StepLeaves(s: Registry, a: Action, i: nat)
    requires Delivery(s) && Enabled(s, a) && i < |s.conns| && s.conns[i].target.Some?
    requires !Running(s, s.conns[i].target.value.rec)
    ensures Untouched(s, Apply(s, a), i)
  {
    match a {
      case Exit(rec, result) =>
        FinishLeaves(s, rec, result, i);
        ExitKeepsFinished(s, rec, result);
        ResumeLeaves(Finished(s, rec, result), rec, i);
      case Emit(rec, e) =>
        assert RecordOk(s, rec);
        hide Resume;
      case Fail(rec, reason) =>
        assert RecordOk(s, rec);
        hide Resume;
      case Dispatch(key) => DispatchLeaves(s, key, i);
      case _ => hide Resume;
    }
    hide Delivery, Resume;
  }

  lemma DispatchLeaves(s: Registry, key: Key, i: nat)
    requires Delivery(s) && i < |s.conns|
    ensures Untouched(s, Apply(s, Dispatch(key)), i)
  {
    hide Resume;
  }

  lemma FinishLeaves(s: Registry, rec: nat, result: RunResult, i: nat)
    requires Delivery(s) && Running(s, rec) && i < |s.conns| && s.conns[i].target.Some?
    requires !Running(s, s.conns[i].target.value.rec)
    ensures var f := Finished(s, rec, result); Untouched(s, f, i) && f.conns[i].target.Some?
  {
    assert RecordOk(s, rec);
  }

  lemma ExitKeepsFinished(s: Registry, rec: nat, result: RunResult)
    requires Delivery(s) && Running(s, rec)
    ensures Delivery(Finished(s, rec, result))
  {
    WriteKeepsDelivery(s, rec, Finished(s, rec, result), ResultFrame(result));
  }

  // ---- who misleads a response ---------------------------------------------------

  // A rejection that reaches the response driving the run.
  predicate Reaches(s: Registry, a: Action) {
    && a.Fail? && a.rec < |s.records| && s.records[a.rec].failure.None? && s.records[a.rec].result.None?
    && s.records[a.rec].origin < |s.conns| && !s.conns[s.records[a.rec].origin].closed
  }

  lemma MisledStays(s: Registry, a: Action, i: nat)
    requires Delivery(s) && Enabled(s, a) && Misled(s, i)
    ensures Misled(Apply(s, a), i)
  {
    var t := Apply(s, a);
    var rec := s.conns[i].target.value.rec;
    StepLeaves(s, a, i);
    G.ApplyGrows(s, a);
    assert G.ConnGrows(s.conns[i], t.conns[i]) && G.RecordGrows(s.records[rec], t.records[rec]);
    assert History(t.records[rec]) == History(s.records[rec]);
    hide Apply, Delivery, G.Grows, History;
  }

  lemma RejectionMisleads(s: Registry, rec: nat, reason: string)
    requires Delivery(s) && Running(s, rec) && Reaches(s, Fail(rec, reason))
    ensures Misled(Apply(s, Fail(rec, reason)), s.records[rec].origin)
  {
    var i, t := s.records[rec].origin, Apply(s, Fail(rec, reason));
    assert RecordOk(s, rec) && ConnOk(s, i);
    assert History(t.records[rec]) == History(s.records[rec]);
    assert Share(s.records[rec], i)[0..] == History(s.records[rec])[0..];
    hide Delivery, History;
  }

  // Nothing else does.
  lemma OnlyRejectionMisleads(s: Registry, a: Action, i: nat)
    requires Delivery(s) && Enabled(s, a) && !Reaches(s, a) && !Misled(s, i)
    ensures !Misled(Apply(s, a), i)
  {
    var t := Apply(s, a);
    if Misled(t, i) {
      var rec := t.conns[i].target.value.rec;
      FailureIsNew(s, a, i);
      G.ApplyGrows(s, a);
      assert G.ConnGrows(s.conns[i], t.conns[i]) && G.RecordGrows(s.records[rec], t.records[rec]);
      if s.records[rec].failure.Some? {
        assert RecordOk(s, rec);
        StepLeaves(s, a, i);
        SameSayings(s.records[rec], t.records[rec]);
      } else {
        UnreachedIsFaithful(s, a.rec, a.reason, i);
      }
      hide Delivery, G.Grows, Apply, History;
    }
  }

  lemma SameSayings(r: Record, q: Record)
    requires q.events == r.events && q.result == r.result
    ensures History(q) == History(r)
  {
  }

  // A rejection shown in the state after a step is either old or that step's.
  lemma FailureIsNew(s: Registry, a: Action, i: nat)
    requires Delivery(s) && Enabled(s, a) && Misled(Apply(s, a), i)
    ensures var rec := Apply(s, a).conns[i].target.value.rec;
            && i < |s.conns| && rec < |s.records| && s.conns[i].target == Apply(s, a).conns[i].target
            && (s.records[rec].failure.Some? || (a.Fail? && a.rec == rec))
  {
    var t := Apply(s, a);
    var rec := t.conns[i].target.value.rec;
    ApplyKeepsDelivery(s, a);
    MisledIsOrigin(t, i);
    StepFailures(s, a, rec);
    G.ApplyGrows(s, a);
    assert RecordOk(s, rec);
    hide Delivery, Apply, Misled;
    assert G.RecordGrows(s.records[rec], t.records[rec]);
    assert G.ConnGrows(s.conns[i], t.conns[i]);
  }

  lemma MisledIsOrigin(t: Registry, i: nat)
    requires Delivery(t) && Misled(t, i)
    ensures t.records[t.conns[i].target.value.rec].origin == i
  {
    assert ConnOk(t, i);
    var a := t.conns[i].target.value;
    HistorySplit(t.records[a.rec], a.start);
    hide History;
  }

  lemma StepFailures(s: Registry, a: Action, rec: nat)
    requires Delivery(s) && Enabled(s, a) && rec < |Apply(s, a).records| && Apply(s, a).records[rec].failure.Some?
    ensures rec < |s.records| && (s.records[rec].failure.Some? || (a.Fail? && a.rec == rec))
  {
    match a {
      case Exit(r, result) =>
        ResumeFailures(Finished(s, r, result), r, rec);
        hide Resume;
      case Dispatch(key) =>
        if key in s.runs && !Live(s, s.runs[key]) {
          SupersedeShape(s.(conns := s.conns + [NewConn]), Waiter(key, s.runs[key], |s.conns|));
          hide Supersede;
        }
        hide Resume;
      case _ => hide Resume, Supersede;
    }
  }

  lemma ResumeFailures(f: Registry, r: nat, rec: nat)
    requires WaitersOk(f) && rec < |Resume(f, r).records| && Resume(f, r).records[rec].failure.Some?
    ensures rec < |f.records| && f.records[rec].failure.Some?
    decreases |f.waiting|
  {
    hide Resume, Supersede;
    var i := FirstWaiter(f.waiting, r);
    if i == |f.waiting| {
      NoWaiterNoResume(f, r);
    } else {
      var g := ResumeOne(f, r, i);
      ResumeFailures(g, r, rec);
    }
  }

  lemma UnreachedIsFaithful(s: Registry, rec: nat, reason: string, i: nat)
    requires Delivery(s) && Running(s, rec) && !Reaches(s, Fail(rec, reason)) && i < |s.conns|
    requires s.conns[i].target.Some? && s.conns[i].target.value.rec == rec
    ensures !Misled(Apply(s, Fail(rec, reason)), i)
  {
    assert ConnOk(s, i) && RecordOk(s, rec);
    var t := Apply(s, Fail(rec, reason));
    assert t.conns == s.conns && History(t.records[rec]) == History(s.records[rec]);
    HistorySplit(s.records[rec], s.conns[i].target.value.start);
  }

  // ---- whole runs of the registry ------------------------------------------------

  ghost predicate SomebodyMisled(s: Registry) {
    exists i: nat :: Misled(s, i)
  }

  ghost predicate ReachesAt(actions: seq<Action>, j: nat)
    requires j < |actions|
  {
    Reaches(Execute(Empty, actions[..j]), actions[j])
  }

  lemma {:induction false} MisledIffReached(actions: seq<Action>)
    ensures SomebodyMisled(Execute(Empty, actions)) <==> exists j: nat :: j < |actions| && ReachesAt(actions, j)
    decreases |actions|
  {
    hide Delivery, Misled, Reaches, Apply;
    EveryRunDelivers(actions);
    if actions == [] {
      NobodyThere();
    } else {
      var n := |actions| - 1;
      var init, a := actions[..n], actions[n];
      var s := Execute(Empty, init);
      MisledIffReached(init);
      EveryRunDelivers(init);
      forall j: nat | j < n ensures ReachesAt(init, j) <==> ReachesAt(actions, j) {
        assert init[..j] == actions[..j];
      }
      StepMisleads(s, a);
      assert ReachesAt(actions, n) <==> Reaches(s, a);
      if exists j: nat :: j < n && ReachesAt(init, j) {
        var j: nat :| j < n && ReachesAt(init, j);
        assert ReachesAt(actions, j);
      }
      hide Execute, ReachesAt;
    }
  }

  lemma NobodyThere()
    ensures !SomebodyMisled(Empty)
  {
  }

  lemma StepMisleads(s: Registry, a: Action)
    requires Delivery(s)
    ensures SomebodyMisled(Step(s, a)) <==> SomebodyMisled(s) || Reaches(s, a)
  {
    assert WellFormed(s);
    if Enabled(s, a) {
      if SomebodyMisled(s) {
        var i: nat :| Misled(s, i);
        MisledStays(s, a, i);
      } else if Reaches(s, a) {
        RejectionMisleads(s, a.rec, a.reason);
      } else {
        forall i: nat ensures !Misled(Apply(s, a), i) {
          OnlyRejectionMisleads(s, a, i);
        }
      }
      hide Delivery, Misled, Apply;
    } else {
      hide Delivery, Misled;
    }
  }

  /**
   In every run of the registry, each response holds exactly its run's history and result if and only if no run's
   driving response was told of a rejection.
   */
  lemma FaithfulIffNobodyIsTold(actions: seq<Action>)
    ensures Faithful(Execute(Empty, actions)) <==> !exists j: nat :: j < |actions| && ReachesAt(actions, j)
  {
    EveryRunDelivers(actions);
    FaithfulIff(Execute(Empty, actions));
    MisledIffReached(actions);
    hide Delivery, Misled, Faithful, Execute, ReachesAt;
  }

  // ---- a rejected run is never over ----------------------------------------------

  // The key names a rejected run that is not done, and nothing that could end it or take the key from it is left.
  ghost predicate Stuck(s: Registry, rec: nat, key: Key) {
    && WellFormed(s) && rec < |s.records|
    && s.records[rec].key == key && s.records[rec].failure.Some? && s.records[rec].result.None?
    && key in s.runs && s.runs[key] == rec
    && (forall k | k in s.runs :: s.records[s.runs[k]].key == k)
    && (forall q | 0 <= q < |s.records| && q != rec && s.records[q].key == key ::
          s.records[q].result.Some? && !s.records[q].timer)
    && !s.records[rec].timer
    && (forall i | 0 <= i < |s.waiting| :: s.waiting[i].key == key <==> s.waiting[i].rec == rec)
  }

  lemma RejectionSticks(s: Registry, rec: nat, reason: string)
    requires Exclusive(s) && Running(s, rec)
    ensures Stuck(Apply(s, Fail(rec, reason)), rec, s.records[rec].key)
  {
    var t := Apply(s, Fail(rec, reason));
    assert Owns(s, rec);
    forall q | 0 <= q < |s.records| && q != rec && s.records[q].key == s.records[rec].key
      ensures s.records[q].result.Some? && !s.records[q].timer
    {
      assert Live(s, q) || s.records[q].timer ==> Owns(s, q);
    }
    forall i | 0 <= i < |s.waiting| ensures s.waiting[i].key == s.records[rec].key <==> s.waiting[i].rec == rec {
      assert Owns(s, s.waiting[i].rec);
    }
    hide Exclusive;
  }

  // What steps leave of the records, the map and the waiters of a key.
  ghost predicate KeyKept(s: Registry, t: Registry, rec: nat, key: Key) {
    && |s.records| <= |t.records|
    && (forall q | 0 <= q < |s.records| ::
          && t.records[q].key == s.records[q].key
          && (s.records[q].key == key ==>
                && t.records[q].result == s.records[q].result && t.records[q].failure == s.records[q].failure
                && (t.records[q].timer ==> s.records[q].timer)))
    && (forall q | |s.records| <= q < |t.records| :: t.records[q].key != key)
    && (key in s.runs ==> key in t.runs && t.runs[key] == s.runs[key])
    && (forall k | k in t.runs && t.runs[k] < |t.records| ::
          (k in s.runs && t.runs[k] == s.runs[k]) || t.records[t.runs[k]].key == k)
    && (forall i | 0 <= i < |t.waiting| :: t.waiting[i] in s.waiting || t.waiting[i] == Waiter(key, rec, |s.conns|))
  }

  lemma KeptIsStuck(s: Registry, t: Registry, rec: nat, key: Key)
    requires Stuck(s, rec, key) && KeyKept(s, t, rec, key) && WellFormed(t)
    ensures Stuck(t, rec, key)
  {
  }

  lemma ResumeKeepsKey(f: Registry, r: nat, rec: nat, key: Key)
    requires WellFormed(f) && r != rec
    requires forall i | 0 <= i < |f.waiting| :: f.waiting[i].key == key <==> f.waiting[i].rec == rec
    ensures KeyKept(f, Resume(f, r), rec, key) && WellFormed(Resume(f, r))
    decreases |f.waiting|
  {
    hide Resume, Supersede;
    var i := FirstWaiter(f.waiting, r);
    if i == |f.waiting| {
      NoWaiterNoResume(f, r);
    } else {
      var g := Supersede(Without(f, i), f.waiting[i]);
      SupersedeShape(Without(f, i), f.waiting[i]);
      ResumeStep(f, r, i);
      assert forall j | 0 <= j < |g.waiting| :: g.waiting[j] == f.waiting[if j < i then j else j + 1];
      assert KeyKept(f, g, rec, key) && WellFormed(g);
      ResumeKeepsKey(g, r, rec, key);
      KeptTwice(f, g, Resume(g, r), rec, key);
    }
  }

  lemma KeptTwice(f: Registry, g: Registry, h: Registry, rec: nat, key: Key)
    requires KeyKept(f, g, rec, key) && KeyKept(g, h, rec, key) && |g.conns| == |f.conns| && WellFormed(g)
    ensures KeyKept(f, h, rec, key)
  {
  }

  lemma StuckStays(s: Registry, a: Action, rec: nat, key: Key)
    requires Stuck(s, rec, key) && Enabled(s, a)
    ensures Stuck(Apply(s, a), rec, key)
  {
    match a {
      case Exit(r, result) =>
        var f := Finished(s, r, result);
        assert s.records[r].key != key;
        FinishedKeepsKey(s, r, result, rec, key);
        hide Resume, Stuck, KeyKept, Finished;
        ResumeKeepsKey(f, r, rec, key);
        KeptIsStuck(f, Resume(f, r), rec, key);
      case Dispatch(k) => DispatchStaysStuck(s, k, rec, key);
      case _ =>
        hide Resume, Supersede;
        PlainStaysStuck(s, a, rec, key);
    }
  }

  lemma FinishedKeepsKey(s: Registry, r: nat, result: RunResult, rec: nat, key: Key)
    requires Stuck(s, rec, key) && Running(s, r)
    ensures r != rec && Stuck(Finished(s, r, result), rec, key)
    ensures var f := Finished(s, r, result); WellFormed(f) && f.waiting == s.waiting
    ensures forall i | 0 <= i < |s.waiting| :: s.waiting[i].key == key <==> s.waiting[i].rec == rec
  {
  }

  lemma DispatchStaysStuck(s: Registry, k: Key, rec: nat, key: Key)
    requires Stuck(s, rec, key)
    ensures Stuck(Apply(s, Dispatch(k)), rec, key)
  {
    hide Resume;
    if k in s.runs && !Live(s, s.runs[k]) {
      SupersedeShape(s.(conns := s.conns + [NewConn]), Waiter(k, s.runs[k], |s.conns|));
      hide Supersede;
    } else if k !in s.runs {
      StartRunIs(s.(conns := s.conns + [NewConn]), k, |s.conns|);
      hide StartRun;
    }
  }

  lemma PlainStaysStuck(s: Registry, a: Action, rec: nat, key: Key)
    requires Stuck(s, rec, key) && Enabled(s, a) && !a.Exit? && !a.Dispatch?
    ensures Stuck(Apply(s, a), rec, key)
  {
    match a {
      case Reconnect(k, cursor) =>
        if k in s.runs {
          hide Stuck;
          SubscribersStayStuck(s, Apply(s, a), rec, key);
        } else {
          OtherKeyStarts(s, k, rec, key);
        }
      case Evict(r) => OtherEvicted(s, r, rec, key);
      case Emit(r, e) => hide Stuck; SubscribersStayStuck(s, Apply(s, a), rec, key);
      case Fail(r, reason) => hide Stuck; SubscribersStayStuck(s, Apply(s, a), rec, key);
      case Cancel(k) => hide Stuck; SubscribersStayStuck(s, Apply(s, a), rec, key);
      case Drop(conn) => hide Stuck; SubscribersStayStuck(s, Apply(s, a), rec, key);
    }
    hide Resume, Supersede, StartRun;
  }

  lemma OtherKeyStarts(s: Registry, k: Key, rec: nat, key: Key)
    requires Stuck(s, rec, key) && k !in s.runs
    ensures Stuck(StartRun(s.(conns := s.conns + [NewConn]), k, |s.conns|), rec, key)
  {
    StartRunIs(s.(conns := s.conns + [NewConn]), k, |s.conns|);
    hide StartRun;
  }

  lemma OtherEvicted(s: Registry, r: nat, rec: nat, key: Key)
    requires Stuck(s, rec, key) && r < |s.records| && s.records[r].timer
    ensures Stuck(s.(records := s.records[r := s.records[r].(timer := false)], runs := s.runs - {s.records[r].key}), rec, key)
  {
  }

  // Being stuck does not depend on events, subscribers, connections, abort flags and other keys' rejections.
  lemma SubscribersStayStuck(s: Registry, t: Registry, rec: nat, key: Key)
    requires Stuck(s, rec, key) && t.runs == s.runs && t.waiting == s.waiting
    requires |t.records| == |s.records| && |t.conns| >= |s.conns|
    requires forall q | 0 <= q < |s.records| ::
               && t.records[q].key == s.records[q].key && t.records[q].result == s.records[q].result
               && t.records[q].timer == s.records[q].timer
               && (s.records[q].failure.Some? ==> t.records[q].failure == s.records[q].failure)
    ensures Stuck(t, rec, key)
  {
  }

  /** Once its run was rejected a key is stuck: whatever happens later, its record stays the rejected one, not done. */
  lemma {:induction false} StuckForever(s: Registry, actions: seq<Action>, rec: nat, key: Key)
    requires Stuck(s, rec, key)
    ensures Stuck(Execute(s, actions), rec, key)
  {
    if actions != [] {
      StuckForever(s, actions[..|actions| - 1], rec, key);
      var t := Execute(s, actions[..|actions| - 1]);
      hide Stuck;
      if WellFormed(t) && Enabled(t, actions[|actions| - 1]) {
        StuckStays(t, actions[|actions| - 1], rec, key);
      }
    }
  }

  // A dispatch for a stuck key waits, and nothing but its own closing ever happens to its response.
  ghost predicate Waits(s: Registry, conn: nat, rec: nat, key: Key) {
    && conn < |s.conns| && s.conns[conn].target.None? && s.conns[conn].written == [] && !s.conns[conn].ended
    && Waiter(key, rec, conn) in s.waiting
  }

  lemma WaitsOn(s: Registry, a: Action, conn: nat, rec: nat, key: Key)
    requires Delivery(s) && Stuck(s, rec, key) && Waits(s, conn, rec, key) && Enabled(s, a)
    ensures Waits(Apply(s, a), conn, rec, key)
  {
    ApplyKeepsDelivery(s, a);
    var t := Apply(s, a);
    assert Waiter(key, rec, conn) in t.waiting by {
      WaiterStays(s, a, conn, rec, key);
    }
    WaiterIsUnattached(t, Waiter(key, rec, conn));
    hide Delivery, Apply, Stuck;
    var i :| 0 <= i < |t.waiting| && t.waiting[i] == Waiter(key, rec, conn);
  }

  lemma WaiterIsUnattached(t: Registry, w: Waiter)
    requires Delivery(t) && w in t.waiting
    ensures w.conn < |t.conns| && t.conns[w.conn].target.None? && t.conns[w.conn].written == [] && !t.conns[w.conn].ended
  {
    var i :| 0 <= i < |t.waiting| && t.waiting[i] == w;
    assert ConnOk(t, w.conn);
  }

  lemma WaiterStays(s: Registry, a: Action, conn: nat, rec: nat, key: Key)
    requires Stuck(s, rec, key) && Enabled(s, a) && Waiter(key, rec, conn) in s.waiting
    ensures Waiter(key, rec, conn) in Apply(s, a).waiting
  {
    match a {
      case Exit(r, result) =>
        ResumeKeepsWaiter(Finished(s, r, result), r, Waiter(key, rec, conn));
        hide Resume;
      case Dispatch(k) =>
        if k in s.runs && !Live(s, s.runs[k]) {
          SupersedeShape(s.(conns := s.conns + [NewConn]), Waiter(k, s.runs[k], |s.conns|));
          hide Supersede;
        }
      case _ => hide Resume, Supersede;
    }
  }

  lemma ResumeKeepsWaiter(f: Registry, r: nat, w: Waiter)
    requires WaitersOk(f) && w in f.waiting && w.rec != r
    ensures w in Resume(f, r).waiting
    decreases |f.waiting|
  {
    hide Resume, Supersede;
    var i := FirstWaiter(f.waiting, r);
    if i == |f.waiting| {
      NoWaiterNoResume(f, r);
    } else {
      var g := ResumeOne(f, r, i);
      var j :| 0 <= j < |f.waiting| && f.waiting[j] == w;
      assert g.waiting[if j < i then j else j - 1] == w;
      ResumeKeepsWaiter(g, r, w);
    }
  }

  lemma {:induction false} WaitsForever(s: Registry, actions: seq<Action>, conn: nat, rec: nat, key: Key)
    requires Delivery(s) && Stuck(s, rec, key) && Waits(s, conn, rec, key)
    ensures Delivery(Execute(s, actions)) && Waits(Execute(s, actions), conn, rec, key)
  {
    if actions != [] {
      var init, a := actions[..|actions| - 1], actions[|actions| - 1];
      WaitsForever(s, init, conn, rec, key);
      StuckForever(s, init, rec, key);
      var t := Execute(s, init);
      hide Stuck, Waits, Delivery;
      if WellFormed(t) && Enabled(t, a) {
        ApplyKeepsDelivery(t, a);
        WaitsOn(t, a, conn, rec, key);
      }
    }
  }

  /**
   After a rejection in an orderly registry, every later fresh dispatch for that key, now or after any further
   actions, waits for good: its response never gets a byte.
   */
  lemma LaterDispatchesNeverStart(s: Registry, rec: nat, reason: string, before: seq<Action>, after: seq<Action>)
    requires Delivery(s) && Exclusive(s) && Running(s, rec)
    ensures var key := s.records[rec].key;
            var t := Execute(Apply(s, Fail(rec, reason)), before);
            var u := Execute(Step(t, Dispatch(key)), after);
            Waits(u, |t.conns|, rec, key) && Stuck(u, rec, key)
  {
    var key := s.records[rec].key;
    var f := Apply(s, Fail(rec, reason));
    ApplyKeepsDelivery(s, Fail(rec, reason));
    RejectionSticks(s, rec, reason);
    StuckForever(f, before, rec, key);
    DeliveryGoesOn(f, before);
    var t := Execute(f, before);
    var d := Step(t, Dispatch(key));
    ApplyKeepsDelivery(t, Dispatch(key));
    StuckStays(t, Dispatch(key), rec, key);
    assert d.waiting[|t.waiting|] == Waiter(key, rec, |t.conns|);
    WaiterIsUnattached(d, Waiter(key, rec, |t.conns|));
    hide Execute, Delivery, Stuck;
    WaitsForever(d, after, |t.conns|, rec, key);
    StuckForever(d, after, rec, key);
  }

  lemma {:induction false} DeliveryGoesOn(s: Registry, actions: seq<Action>)
    requires Delivery(s)
    ensures Delivery(Execute(s, actions))
  {
    if actions != [] {
      DeliveryGoesOn(s, actions[..|actions| - 1]);
      var t := Execute(s, actions[..|actions| - 1]);
      hide Delivery;
      if WellFormed(t) && Enabled(t, actions[|actions| - 1]) {
        ApplyKeepsDelivery(t, actions[|actions| - 1]);
      }
    }
  }

  /** The input: a first dispatch whose CLI cannot be started is answered with a result, and its run is never done. */
  lemma FirstRunRejected(key: Key, reason: string)
    ensures var s := Execute(Empty, [Dispatch(key), Fail(0, reason)]);
            && |s.records| == 1 && |s.conns| == 1 && !Faithful(s)
            && s.conns[0].written == [ResultFrame(InternalError(reason))] && s.conns[0].ended
            && s.records[0].result.None? && !s.records[0].timer && Stuck(s, 0, key)
  {
    var both := [Dispatch(key), Fail(0, reason)];
    assert both[..1] == [Dispatch(key)] && both[..1][..0] == [];
    assert Execute(Empty, []) == Empty;
    StartRunIs(Empty.(conns := [NewConn]), key, 0);
    var d := StartRun(Empty.(conns := [NewConn]), key, 0);
    assert Empty.conns + [NewConn] == [NewConn];
    assert Execute(Empty, [Dispatch(key)]) == d;
    var s := Apply(d, Fail(0, reason));
    assert Execute(Empty, both) == s;
    hide Execute, StartRun;
    assert s.conns[0].written == [] + [ResultFrame(InternalError(reason))];
    assert !ConnFaithful(s, 0);
  }
}
