/** Every run record is the history of what happened to it: over whole runs of the registry, field by field. */
module RunHistory {
  import opened Text
  import opened Wire
  import opened RunRegistry
  import G = RegistryGrowth

  // ---- what one step does to each record and waiter ----------------------------

  // A cancel, or a fresh dispatch, finds the record under its key still at work.
  predicate Strikes(s: Registry, a: Action, rec: nat) {
    && (a.Cancel? || a.Dispatch?) && a.key in s.runs && s.runs[a.key] == rec
    && rec < |s.records| && s.records[rec].result.None?
  }

  // A finished run is left to its timer, unless somebody was waiting for it.
  predicate Arms(s: Registry, a: Action, rec: nat) {
    a.Exit? && a.rec == rec && forall w | w in s.waiting :: w.rec != rec
  }

  // The timer fires, or a fresh dispatch replaces the finished record.
  predicate Disarms(s: Registry, a: Action, rec: nat) {
    || a == Evict(rec)
    || (a.Dispatch? && a.key in s.runs && s.runs[a.key] == rec && rec < |s.records| && s.records[rec].result.Some?)
  }

  ghost predicate RecordChanges(s: Registry, a: Action, rec: nat, r: Record, q: Record) {
    && q.key == r.key && q.origin == r.origin
    && q.events == (if a.Emit? && a.rec == rec then r.events + [a.event] else r.events)
    && q.result == (if a.Exit? && a.rec == rec then Some(a.result) else r.result)
    && q.failure == (if a.Fail? && a.rec == rec then Some(RunResult(false, "", "internal_error", a.reason)) else r.failure)
    && q.aborted == (r.aborted || Strikes(s, a, rec))
    && q.timer == (if a.Exit? && a.rec == rec then Arms(s, a, rec) else r.timer && !Disarms(s, a, rec))
  }

  predicate Untold(r: Record) {
    r.events == [] && r.result.None? && r.failure.None? && !r.aborted && !r.timer
  }

  ghost predicate WaitersChange(s: Registry, a: Action, t: Registry) {
    forall w :: w in t.waiting <==>
      || (w in s.waiting && !(a.Exit? && a.rec == w.rec))
      || (a.Dispatch? && Strikes(s, a, w.rec) && w.key == a.key && w.conn == |s.conns|)
  }

  ghost predicate Changes(s: Registry, a: Action, t: Registry) {
    && |s.records| <= |t.records|
    && (forall i | 0 <= i < |s.records| :: RecordChanges(s, a, i, s.records[i], t.records[i]))
    && (forall i | |s.records| <= i < |t.records| :: Untold(t.records[i]))
    && WaitersChange(s, a, t)
  }

  // The handlers that awaited a run: its timer is cleared, new runs are started, nobody waits for it any more.
  ghost predicate Resumed(f: Registry, rec: nat, t: Registry) {
    && |f.records| <= |t.records|
    && (forall i | 0 <= i < |f.records| ::
          t.records[i] == f.records[i].(timer := f.records[i].timer && (i != rec || forall w | w in f.waiting :: w.rec != rec)))
    && (forall i | |f.records| <= i < |t.records| :: Untold(t.records[i]))
    && (forall w :: w in t.waiting <==> w in f.waiting && w.rec != rec)
  }

  // The old records stay but for one timer, and one new run is started.
  ghost predicate Replaced(s: Registry, rec: nat, t: Registry) {
    && |t.records| == |s.records| + 1 && Untold(t.records[|s.records|])
    && (forall k | 0 <= k < |s.records| :: t.records[k] == s.records[k].(timer := s.records[k].timer && k != rec))
    && t.waiting == s.waiting
  }

  lemma SupersedeReplaces(s: Registry, w: Waiter)
    requires w.rec < |s.records| && w.conn < |s.conns|
    ensures Replaced(s, w.rec, Supersede(s, w))
  {
    StartRunIs(s.(records := s.records[w.rec := s.records[w.rec].(timer := false)], runs := s.runs - {w.key}), w.key, w.conn);
    hide StartRun;
  }

  lemma ResumeChanges(f: Registry, rec: nat)
    requires WaitersOk(f)
    ensures Resumed(f, rec, Resume(f, rec))
    decreases |f.waiting|
  {
    hide Resume, Supersede;
    var i := FirstWaiter(f.waiting, rec);
    if i == |f.waiting| {
      NoWaiterNoResume(f, rec);
    } else {
      var g := Supersede(Without(f, i), f.waiting[i]);
      ResumeNext(f, rec);
      SupersedeReplaces(Without(f, i), f.waiting[i]);
      ResumeChanges(g, rec);
      ResumedOneMore(f, rec, i, g, Resume(g, rec));
    }
  }

  lemma ResumedOneMore(f: Registry, rec: nat, i: nat, g: Registry, t: Registry)
    requires i < |f.waiting| && f.waiting[i].rec == rec && Resumed(g, rec, t)
    requires |g.records| == |f.records| + 1 && Untold(g.records[|f.records|])
    requires forall k | 0 <= k < |f.records| :: g.records[k] == f.records[k].(timer := f.records[k].timer && k != rec)
    requires g.waiting == f.waiting[..i] + f.waiting[i + 1..]
    ensures Resumed(f, rec, t)
  {
    assert f.waiting[i] in f.waiting;
    assert forall w :: w in f.waiting <==> w in g.waiting || w == f.waiting[i] by {
      assert f.waiting == f.waiting[..i] + [f.waiting[i]] + f.waiting[i + 1..];
    }
    assert f.waiting[i].rec == rec;
  }

  lemma ExitChanges(s: Registry, rec: nat, result: RunResult)
    requires WellFormed(s) && Running(s, rec)
    ensures Changes(s, Exit(rec, result), Apply(s, Exit(rec, result)))
  {
    var f := Finished(s, rec, result);
    assert f.records == s.records[rec := s.records[rec].(result := Some(result), subs := {}, timer := true)];
    assert f.waiting == s.waiting && |f.conns| == |s.conns|;
    hide Finished, Resume;
    ResumeChanges(f, rec);
    ResumedIsChanged(s, rec, result, f, Resume(f, rec));
    hide Changes, Resumed;
  }

  lemma ResumedIsChanged(s: Registry, rec: nat, result: RunResult, f: Registry, t: Registry)
    requires rec < |s.records| && f.waiting == s.waiting && Resumed(f, rec, t)
    requires f.records == s.records[rec := s.records[rec].(result := Some(result), subs := {}, timer := true)]
    ensures Changes(s, Exit(rec, result), t)
  {
    hide Untold;
    forall i | 0 <= i < |s.records| ensures RecordChanges(s, Exit(rec, result), i, s.records[i], t.records[i]) {
      assert t.records[i].timer == (f.records[i].timer && (i != rec || forall w | w in f.waiting :: w.rec != rec));
    }
    hide RecordChanges;
  }

  lemma DispatchChanges(s: Registry, key: Key)
    requires WellFormed(s)
    ensures Changes(s, Dispatch(key), Apply(s, Dispatch(key)))
  {
    hide Resume, StartRun, Supersede;
    var conn := |s.conns|;
    var arrived := s.(conns := s.conns + [NewConn]);
    if key !in s.runs {
      StartRunIs(arrived, key, conn);
    } else if Live(s, s.runs[key]) {
      assert Apply(s, Dispatch(key)).waiting == s.waiting + [Waiter(key, s.runs[key], conn)];
    } else {
      SupersedeReplaces(arrived, Waiter(key, s.runs[key], conn));
      ReplacedIsChanged(s, key, Apply(s, Dispatch(key)));
    }
  }

  lemma ReplacedIsChanged(s: Registry, key: Key, t: Registry)
    requires key in s.runs && s.runs[key] < |s.records| && s.records[s.runs[key]].result.Some?
    requires Replaced(s.(conns := t.conns), s.runs[key], t.(conns := t.conns))
    ensures Changes(s, Dispatch(key), t)
  {
  }

  /** What a step does to every record and to everybody who waits; nothing else about them changes. */
  lemma StepChanges(s: Registry, a: Action)
    requires WellFormed(s) && Enabled(s, a)
    ensures Changes(s, a, Apply(s, a))
  {
    if a.Dispatch? {
      DispatchChanges(s, a.key);
    } else if a.Exit? {
      ExitChanges(s, a.rec, a.result);
    } else if a.Reconnect? {
      ReconnectChanges(s, a.key, a.cursor);
    } else {
      PlainChanges(s, a);
    }
  }

  lemma ReconnectChanges(s: Registry, key: Key, cursor: int)
    requires WellFormed(s)
    ensures Changes(s, Reconnect(key, cursor), Apply(s, Reconnect(key, cursor)))
  {
    hide Resume, StartRun, Supersede;
    StartRunIs(s.(conns := s.conns + [NewConn]), key, |s.conns|);
  }

  lemma PlainChanges(s: Registry, a: Action)
    requires WellFormed(s) && Enabled(s, a) && !a.Dispatch? && !a.Exit? && !a.Reconnect?
    ensures Changes(s, a, Apply(s, a))
  {
    hide Resume, StartRun, Supersede;
  }

  // ---- whole runs --------------------------------------------------------------

  // The registry before action j of a run.
  ghost function Before(actions: seq<Action>, j: nat): Registry
    requires j <= |actions|
  {
    Execute(Empty, actions[..j])
  }

  ghost predicate Happens(actions: seq<Action>, j: nat) {
    j < |actions| && WellFormed(Before(actions, j)) && Enabled(Before(actions, j), actions[j])
  }

  // What the process of a run said, in order.
  ghost function Spoken(actions: seq<Action>, rec: nat): seq<StreamEvent> {
    if actions == [] then []
    else
      var n := |actions| - 1;
      Spoken(actions[..n], rec)
      + if Happens(actions, n) && actions[n].Emit? && actions[n].rec == rec then [actions[n].event] else []
  }

  ghost predicate StruckAt(actions: seq<Action>, j: nat, rec: nat) {
    Happens(actions, j) && Strikes(Before(actions, j), actions[j], rec)
  }

  ghost predicate ArmedAt(actions: seq<Action>, j: nat, rec: nat) {
    Happens(actions, j) && Arms(Before(actions, j), actions[j], rec)
  }

  ghost predicate DisarmedAt(actions: seq<Action>, j: nat, rec: nat) {
    Happens(actions, j) && Disarms(Before(actions, j), actions[j], rec)
  }

  ghost predicate ExitedAt(actions: seq<Action>, j: nat, rec: nat, result: RunResult) {
    Happens(actions, j) && actions[j] == Exit(rec, result)
  }

  ghost predicate RejectedAt(actions: seq<Action>, j: nat, rec: nat, reason: string) {
    Happens(actions, j) && actions[j] == Fail(rec, reason)
  }

  // Cutting off the last action.
  lemma BeforeInit(actions: seq<Action>, j: nat)
    requires actions != [] && j < |actions|
    ensures var init := actions[..|actions| - 1];
            && Before(actions, j) == Before(init, j) && Before(actions, |actions| - 1) == Execute(Empty, init)
            && (j < |init| ==> init[j] == actions[j] && (Happens(actions, j) <==> Happens(init, j)))
  {
    var init := actions[..|actions| - 1];
    assert actions[..j] == init[..j];
  }

  lemma LastChanges(actions: seq<Action>)
    requires actions != []
    ensures var n := |actions| - 1;
            var s, t := Execute(Empty, actions[..n]), Execute(Empty, actions);
            && Before(actions, n) == s && WellFormed(s)
            && if Happens(actions, n) then Changes(s, actions[n], t) else s == t
  {
    var n := |actions| - 1;
    EveryRunDelivers(actions[..n]);
    if Happens(actions, n) {
      StepChanges(Before(actions, n), actions[n]);
    }
    hide Changes, Apply, Enabled;
  }

  /** In every run a record holds just the events its process emitted, in order. */
  lemma {:induction false} EventsAreSpoken(actions: seq<Action>, rec: nat)
    ensures var s := Execute(Empty, actions);
            if rec < |s.records| then s.records[rec].events == Spoken(actions, rec) else Spoken(actions, rec) == []
  {
    if actions != [] {
      var n := |actions| - 1;
      EventsAreSpoken(actions[..n], rec);
      LastChanges(actions);
      var s, t := Execute(Empty, actions[..n]), Execute(Empty, actions);
      hide Execute;
      if Happens(actions, n) {
        if rec < |s.records| {
          assert RecordChanges(s, actions[n], rec, s.records[rec], t.records[rec]);
        }
      }
    }
  }

  // What happened to a record before the last action is what happened in the shorter run.
  lemma SameBefore(actions: seq<Action>, k: nat, rec: nat)
    requires actions != [] && k < |actions| - 1
    ensures var init := actions[..|actions| - 1];
            && Before(actions, k) == Before(init, k) && actions[k] == init[k]
            && (ArmedAt(actions, k, rec) <==> ArmedAt(init, k, rec))
            && (DisarmedAt(actions, k, rec) <==> DisarmedAt(init, k, rec))
            && (StruckAt(actions, k, rec) <==> StruckAt(init, k, rec))
            && (ExitsAt(actions, k, rec) <==> ExitsAt(init, k, rec))
            && (forall result :: ExitedAt(actions, k, rec, result) <==> ExitedAt(init, k, rec, result))
            && (forall reason :: RejectedAt(actions, k, rec, reason) <==> RejectedAt(init, k, rec, reason))
  {
    BeforeInit(actions, k);
    hide Happens, Arms, Disarms, Strikes, Execute;
  }

  ghost predicate ExitsAt(actions: seq<Action>, k: nat, rec: nat) {
    Happens(actions, k) && actions[k].Exit? && actions[k].rec == rec
  }

  lemma NothingAfter(actions: seq<Action>, rec: nat)
    ensures forall k: nat | k >= |actions| :: !DisarmedAt(actions, k, rec)
    ensures forall k: nat | k >= |actions| :: !ArmedAt(actions, k, rec)
    ensures forall k: nat | k >= |actions| :: !ExitsAt(actions, k, rec)
    ensures forall k: nat | k >= |actions| :: !StruckAt(actions, k, rec)
    ensures forall k: nat, result | k >= |actions| :: !ExitedAt(actions, k, rec, result)
    ensures forall k: nat, reason | k >= |actions| :: !RejectedAt(actions, k, rec, reason)
  {
  }

  // The record after the last action.
  lemma LastRecord(actions: seq<Action>, rec: nat)
    requires actions != []
    ensures var n := |actions| - 1;
            var s, t := Execute(Empty, actions[..n]), Execute(Empty, actions);
            && |s.records| <= |t.records|
            && (rec < |t.records| && t.records[rec].aborted <==>
                  (rec < |s.records| && s.records[rec].aborted) || StruckAt(actions, n, rec))
            && (forall result :: rec < |t.records| && t.records[rec].result == Some(result) <==>
                  (rec < |s.records| && s.records[rec].result == Some(result)) || ExitedAt(actions, n, rec, result))
  {
    var n := |actions| - 1;
    LastChanges(actions);
    var s, t := Execute(Empty, actions[..n]), Execute(Empty, actions);
    hide Execute, Arms, Disarms;
    if Happens(actions, n) && rec < |s.records| {
      assert RecordChanges(s, actions[n], rec, s.records[rec], t.records[rec]);
    }
  }

  /** In every run a record holds a result exactly if its process exited with it. */
  lemma {:induction false} ResultIsExit(actions: seq<Action>, rec: nat, result: RunResult)
    ensures var s := Execute(Empty, actions);
            (rec < |s.records| && s.records[rec].result == Some(result)) <==> exists j :: ExitedAt(actions, j, rec, result)
  {
    NothingAfter(actions, rec);
    if actions != [] {
      var n := |actions| - 1;
      var init := actions[..n];
      ResultIsExit(init, rec, result);
      LastRecord(actions, rec);
      hide Execute, ExitedAt;
      forall j: nat | j < n ensures ExitedAt(actions, j, rec, result) <==> ExitedAt(init, j, rec, result) {
        SameBefore(actions, j, rec);
      }
      NothingAfter(init, rec);
    }
  }

  lemma LastFailure(actions: seq<Action>, rec: nat, reason: string)
    requires actions != []
    ensures var n, failure := |actions| - 1, Some(RunResult(false, "", "internal_error", reason));
            var s, t := Execute(Empty, actions[..n]), Execute(Empty, actions);
            rec < |t.records| && t.records[rec].failure == failure <==>
              (rec < |s.records| && s.records[rec].failure == failure) || RejectedAt(actions, n, rec, reason)
  {
    var n := |actions| - 1;
    LastChanges(actions);
    var s, t := Execute(Empty, actions[..n]), Execute(Empty, actions);
    hide Execute, Arms, Disarms, Strikes;
    if Happens(actions, n) && rec < |s.records| {
      assert RecordChanges(s, actions[n], rec, s.records[rec], t.records[rec]);
    }
  }

  /** In every run a record was rejected exactly if its handler failed with that reason. */
  lemma {:induction false} FailureIsRejection(actions: seq<Action>, rec: nat, reason: string)
    ensures var s := Execute(Empty, actions);
            (rec < |s.records| && s.records[rec].failure == Some(RunResult(false, "", "internal_error", reason)))
            <==> exists j :: RejectedAt(actions, j, rec, reason)
  {
    NothingAfter(actions, rec);
    if actions != [] {
      var n := |actions| - 1;
      var init := actions[..n];
      FailureIsRejection(init, rec, reason);
      LastFailure(actions, rec, reason);
      hide Execute, RejectedAt;
      forall j: nat | j < n ensures RejectedAt(actions, j, rec, reason) <==> RejectedAt(init, j, rec, reason) {
        SameBefore(actions, j, rec);
      }
      NothingAfter(init, rec);
    }
  }

  /**
   In every run a process is told to abort exactly if a cancel or a fresh dispatch met it at work under its key; this is
   never taken back.
   */
  lemma {:induction false} AbortedIsStruck(actions: seq<Action>, rec: nat)
    ensures var s := Execute(Empty, actions);
            (rec < |s.records| && s.records[rec].aborted) <==> exists j :: StruckAt(actions, j, rec)
  {
    NothingAfter(actions, rec);
    if actions != [] {
      var n := |actions| - 1;
      var init := actions[..n];
      AbortedIsStruck(init, rec);
      LastRecord(actions, rec);
      hide Execute, StruckAt;
      forall j: nat | j < n ensures StruckAt(actions, j, rec) <==> StruckAt(init, j, rec) {
        SameBefore(actions, j, rec);
      }
      NothingAfter(init, rec);
    }
  }

  // An eviction timer runs since its run's exit.
  ghost predicate ArmedSince(actions: seq<Action>, j: nat, rec: nat) {
    ArmedAt(actions, j, rec) && forall k: nat | j < k :: !DisarmedAt(actions, k, rec)
  }

  lemma ArmedBefore(actions: seq<Action>, init: seq<Action>, n: nat, j: nat, rec: nat)
    requires |actions| == n + 1 && init == actions[..n] && j < n
    ensures ArmedSince(actions, j, rec) <==> ArmedSince(init, j, rec) && !DisarmedAt(actions, n, rec)
  {
    hide ArmedAt, DisarmedAt, StruckAt, ExitsAt, ExitedAt, RejectedAt, Before;
    NothingAfter(actions, rec);
    NothingAfter(init, rec);
    SameBefore(actions, j, rec);
    forall k: nat | k < n ensures DisarmedAt(actions, k, rec) <==> DisarmedAt(init, k, rec) {
      SameBefore(actions, k, rec);
    }
  }

  lemma ExitIsOnce(actions: seq<Action>, rec: nat)
    requires var s := Execute(Empty, actions); rec < |s.records| && s.records[rec].result.None?
    ensures forall j: nat :: !ArmedSince(actions, j, rec)
  {
    forall j: nat ensures !ArmedSince(actions, j, rec) {
      if ArmedSince(actions, j, rec) {
        ResultIsExit(actions, rec, actions[j].result);
        assert ExitedAt(actions, j, rec, actions[j].result);
      }
    }
  }

  /**
   In every run a record's eviction timer is armed exactly if it ended with nobody waiting, and was not evicted or
   replaced since.
   */
  lemma {:induction false} TimerIsArmed(actions: seq<Action>, rec: nat)
    ensures var s := Execute(Empty, actions);
            (rec < |s.records| && s.records[rec].timer) <==> exists j :: ArmedSince(actions, j, rec)
  {
    if actions != [] {
      var n := |actions| - 1;
      var s, t := Execute(Empty, actions[..n]), Execute(Empty, actions);
      TimerIsArmed(actions[..n], rec);
      LastTimer(actions, rec);
      hide Execute;
      forall j: nat | j < n ensures ArmedSince(actions, j, rec) <==> ArmedSince(actions[..n], j, rec) && !DisarmedAt(actions, n, rec) {
        ArmedBefore(actions, actions[..n], n, j, rec);
      }
      NotLater(actions, actions[..n], n, rec);
      if ExitsAt(actions, n, rec) {
        ExitIsOnce(actions[..n], rec);
      }
      hide ArmedSince, ArmedAt, DisarmedAt;
    } else {
      assert forall j: nat :: !ArmedAt(actions, j, rec);
    }
  }

  lemma NotLater(actions: seq<Action>, init: seq<Action>, n: nat, rec: nat)
    requires |actions| == n + 1 && init == actions[..n]
    ensures ArmedSince(actions, n, rec) <==> ArmedAt(actions, n, rec)
    ensures forall j: nat | j > n :: !ArmedSince(actions, j, rec)
    ensures forall j: nat | j >= n :: !ArmedSince(init, j, rec)
  {
    NothingAfter(actions, rec);
    NothingAfter(init, rec);
    hide ArmedAt, DisarmedAt;
  }

  // The timer after the last action.
  lemma LastTimer(actions: seq<Action>, rec: nat)
    requires actions != []
    ensures var n := |actions| - 1;
            var s, t := Execute(Empty, actions[..n]), Execute(Empty, actions);
            && |s.records| <= |t.records|
            && (ExitsAt(actions, n, rec) ==> rec < |s.records| && s.records[rec].result.None?)
            && (ArmedAt(actions, n, rec) ==> ExitsAt(actions, n, rec))
            && (rec < |t.records| && t.records[rec].timer <==>
                  rec < |s.records| && if ExitsAt(actions, n, rec) then ArmedAt(actions, n, rec)
                                       else s.records[rec].timer && !DisarmedAt(actions, n, rec))
  {
    var n := |actions| - 1;
    LastChanges(actions);
    var s, t := Execute(Empty, actions[..n]), Execute(Empty, actions);
    hide Execute, Arms, Disarms, Strikes;
    if Happens(actions, n) && rec < |s.records| {
      assert RecordChanges(s, actions[n], rec, s.records[rec], t.records[rec]);
    }
  }

  // A dispatch has been waiting for the end of a run since it met it.
  ghost predicate WaitsSince(actions: seq<Action>, j: nat, w: Waiter) {
    && StruckAt(actions, j, w.rec) && actions[j] == Dispatch(w.key) && w.conn == |Before(actions, j).conns|
    && forall k: nat | j < k :: !ExitsAt(actions, k, w.rec)
  }

  lemma WaitedBefore(actions: seq<Action>, j: nat, w: Waiter)
    requires actions != [] && j < |actions| - 1
    ensures WaitsSince(actions, j, w) <==> WaitsSince(actions[..|actions| - 1], j, w) && !ExitsAt(actions, |actions| - 1, w.rec)
  {
    var n := |actions| - 1;
    hide StruckAt, ExitsAt, Execute;
    NothingAfter(actions, w.rec);
    NothingAfter(actions[..n], w.rec);
    SameBefore(actions, j, w.rec);
    forall k: nat | k < n ensures ExitsAt(actions, k, w.rec) <==> ExitsAt(actions[..n], k, w.rec) {
      SameBefore(actions, k, w.rec);
    }
  }

  /** In every run a dispatch waits exactly if it met a run at work that has not exited since. */
  lemma {:induction false} WaiterWaitsSince(actions: seq<Action>, w: Waiter)
    ensures w in Execute(Empty, actions).waiting <==> exists j :: WaitsSince(actions, j, w)
  {
    if actions != [] {
      var n := |actions| - 1;
      WaiterWaitsSince(actions[..n], w);
      LastWaiter(actions, w);
      forall j: nat | j < n ensures WaitsSince(actions, j, w) <==> WaitsSince(actions[..n], j, w) && !ExitsAt(actions, n, w.rec) {
        WaitedBefore(actions, j, w);
      }
      hide Execute, WaitsSince, ExitsAt;
    } else {
      assert forall j: nat :: !StruckAt(actions, j, w.rec);
    }
  }

  lemma LastWaiter(actions: seq<Action>, w: Waiter)
    requires actions != []
    ensures var n := |actions| - 1;
            && (w in Execute(Empty, actions).waiting <==>
                  (w in Execute(Empty, actions[..n]).waiting && !ExitsAt(actions, n, w.rec)) || WaitsSince(actions, n, w))
            && (forall j: nat | j > n :: !WaitsSince(actions, j, w)) && (forall j: nat | j >= n :: !WaitsSince(actions[..n], j, w))
  {
    var n := |actions| - 1;
    LastChanges(actions);
    var s, t := Execute(Empty, actions[..n]), Execute(Empty, actions);
    NothingAfter(actions, w.rec);
    NothingAfter(actions[..n], w.rec);
    hide Execute, RecordChanges, Untold;
    assert StruckAt(actions, n, w.rec) <==> Happens(actions, n) && Strikes(s, actions[n], w.rec);
    hide Strikes;
  }

  // ---- every fresh dispatch waits or has its run -------------------------------

  // Response c drives a run of its own for this key, started since there were n records.
  ghost predicate Drives(s: Registry, c: nat, key: Key, n: nat) {
    && c < |s.conns| && s.conns[c].target.Some?
    && var a := s.conns[c].target.value;
    n <= a.rec < |s.records| && a.start == 0 && s.records[a.rec].key == key && s.records[a.rec].origin == c
  }

  lemma DrivesStays(s: Registry, t: Registry, c: nat, key: Key, n: nat)
    requires Drives(s, c, key, n) && G.Grows(s, t)
    ensures Drives(t, c, key, n)
  {
    assert G.ConnGrows(s.conns[c], t.conns[c]) && G.RecordGrows(s.records[s.conns[c].target.value.rec], t.records[s.conns[c].target.value.rec]);
  }

  lemma SupersedeDrives(s: Registry, w: Waiter)
    requires w.rec < |s.records| && w.conn < |s.conns|
    ensures Drives(Supersede(s, w), w.conn, w.key, |s.records|)
  {
    StartRunIs(s.(records := s.records[w.rec := s.records[w.rec].(timer := false)], runs := s.runs - {w.key}), w.key, w.conn);
    hide StartRun;
  }

  lemma ResumeStarts(f: Registry, rec: nat, w: Waiter)
    requires Delivery(f) && w in f.waiting && w.rec == rec
    ensures Drives(Resume(f, rec), w.conn, w.key, |f.records|)
    decreases |f.waiting|
  {
    hide Resume, Supersede, Delivery, G.Grows, Drives;
    assert WaitersOk(f) by { DeliveryWaiters(f); }
    var i := FirstWaiter(f.waiting, rec);
    var k :| 0 <= k < |f.waiting| && f.waiting[k] == w;
    assert i <= k < |f.waiting|;
    var g := Supersede(Without(f, i), f.waiting[i]);
    G.SupersedeOneGrows(f, rec, i);
    DeliveryWaiters(g);
    SupersedeReplaces(Without(f, i), f.waiting[i]);
    if i == k {
      SupersedeDrives(Without(f, i), w);
      G.ResumeGrows(g, rec);
      DrivesStays(g, Resume(g, rec), w.conn, w.key, |f.records|);
    } else {
      assert g.waiting[k - 1] == w;
      ResumeStarts(g, rec, w);
      DrivesEarlier(Resume(g, rec), w.conn, w.key, |f.records|, |g.records|);
    }
  }

  lemma DrivesEarlier(s: Registry, c: nat, key: Key, n: nat, m: nat)
    requires n <= m && Drives(s, c, key, m)
    ensures Drives(s, c, key, n)
  {
  }

  lemma DeliveryWaiters(s: Registry)
    requires Delivery(s)
    ensures WellFormed(s) && WaitersOk(s)
  {
  }

  /** When a run ends, everybody who waited for it starts a run of his own. */
  lemma ExitStartsWaiters(s: Registry, rec: nat, result: RunResult, w: Waiter)
    requires Delivery(s) && Running(s, rec) && w in s.waiting && w.rec == rec
    ensures Drives(Apply(s, Exit(rec, result)), w.conn, w.key, |s.records|)
  {
    var f := Finished(s, rec, result);
    WriteKeepsDelivery(s, rec, f, ResultFrame(result));
    assert f.waiting == s.waiting && |f.records| == |s.records|;
    hide Delivery, Resume, Finished, Drives;
    ResumeStarts(f, rec, w);
  }

  lemma DispatchDrivesOrWaits(s: Registry, key: Key)
    requires Delivery(s)
    ensures var t := Apply(s, Dispatch(key));
            || Drives(t, |s.conns|, key, |s.records|)
            || (exists w :: w in t.waiting && w.key == key && w.conn == |s.conns|)
  {
    hide Supersede, StartRun, Resume;
    var arrived := s.(conns := s.conns + [NewConn]);
    var t := Apply(s, Dispatch(key));
    if key !in s.runs {
      StartRunIs(arrived, key, |s.conns|);
    } else if Live(s, s.runs[key]) {
      assert t.waiting[|s.waiting|] == Waiter(key, s.runs[key], |s.conns|);
      assert Waiter(key, s.runs[key], |s.conns|) in t.waiting;
    } else {
      SupersedeDrives(arrived, Waiter(key, s.runs[key], |s.conns|));
    }
  }

  // A response waits for a run, or drives one of its own.
  ghost predicate Served(s: Registry, c: nat, key: Key, n: nat) {
    n <= |s.records| && (Drives(s, c, key, n) || exists w :: w in s.waiting && w.key == key && w.conn == c)
  }

  lemma ServedStays(s: Registry, a: Action, c: nat, key: Key, n: nat)
    requires Delivery(s) && Enabled(s, a) && Served(s, c, key, n)
    ensures Served(Apply(s, a), c, key, n)
  {
    var t := Apply(s, a);
    DeliveryWaiters(s);
    G.ApplyGrows(s, a);
    StepChanges(s, a);
    hide Delivery, Apply, G.Grows, Enabled, Drives, RecordChanges, Untold;
    if Drives(s, c, key, n) {
      DrivesStays(s, t, c, key, n);
    } else {
      var w :| w in s.waiting && w.key == key && w.conn == c;
      if a.Exit? && a.rec == w.rec {
        assert Running(s, a.rec) by { ExitIsEnabled(s, a.rec, a.result); }
        ExitStartsWaiters(s, a.rec, a.result, w);
        DrivesEarlier(t, c, key, n, |s.records|);
      } else {
        assert w in t.waiting;
      }
    }
  }

  lemma ExitIsEnabled(s: Registry, rec: nat, result: RunResult)
    requires Enabled(s, Exit(rec, result))
    ensures Running(s, rec)
  {
  }

  lemma ExecuteLast(s: Registry, actions: seq<Action>)
    requires actions != []
    ensures Execute(s, actions) == Step(Execute(s, actions[..|actions| - 1]), actions[|actions| - 1])
  {
  }

  /** In every run each fresh dispatch is still waiting for the run it met, or has started one of its own. */
  lemma {:induction false} DispatchesAreServed(actions: seq<Action>, j: nat)
    requires j < |actions| && actions[j].Dispatch?
    ensures Served(Execute(Empty, actions), |Before(actions, j).conns|, actions[j].key, |Before(actions, j).records|)
  {
    var n := |actions| - 1;
    var init, a := actions[..n], actions[n];
    var s := Execute(Empty, init);
    EveryRunDelivers(init);
    DeliveryWaiters(s);
    ExecuteLast(Empty, actions);
    hide Execute, Delivery, Apply, Enabled;
    if j == n {
      DispatchIsServed(s, a.key);
    } else {
      DispatchesAreServed(init, j);
      BeforeInit(actions, j);
      hide Served;
      if Enabled(s, a) {
        ServedStays(s, a, |Before(init, j).conns|, init[j].key, |Before(init, j).records|);
      }
    }
  }

  lemma DispatchIsServed(s: Registry, key: Key)
    requires Delivery(s)
    ensures Enabled(s, Dispatch(key)) && Served(Apply(s, Dispatch(key)), |s.conns|, key, |s.records|)
  {
    DeliveryWaiters(s);
    DispatchDrivesOrWaits(s, key);
    StepChanges(s, Dispatch(key));
    hide Delivery, Apply, Drives;
    RecordsStay(s, Dispatch(key), Apply(s, Dispatch(key)));
    hide Changes;
  }

  lemma RecordsStay(s: Registry, a: Action, t: Registry)
    requires Changes(s, a, t)
    ensures |s.records| <= |t.records|
  {
  }

  // ---- a dropped response is forgotten -----------------------------------------

  ghost predicate Forgotten(s: Registry, i: nat) {
    && i < |s.conns| && s.conns[i].target.Some? && s.conns[i].closed
    && forall r | 0 <= r < |s.records| :: i !in s.records[r].subs
  }

  // What a step leaves of a forgotten response.
  ghost predicate LeftAlone(s: Registry, t: Registry, i: nat) {
    Forgotten(t, i) && i < |s.conns| && t.conns[i].written == s.conns[i].written
  }

  lemma DropForgets(s: Registry, i: nat)
    requires Delivery(s) && i < |s.conns| && s.conns[i].target.Some? && !s.conns[i].closed
    ensures LeftAlone(s, Apply(s, Drop(i)), i)
  {
    assert ConnOk(s, i);
    forall r | 0 <= r < |s.records| && i in s.records[r].subs ensures s.conns[i].target.value.rec == r {
      assert RecordOk(s, r);
    }
    hide Delivery, Resume;
  }

  lemma SupersedeLeavesAlone(s: Registry, w: Waiter, i: nat)
    requires w.rec < |s.records| && w.conn < |s.conns| && w.conn != i && Forgotten(s, i)
    ensures LeftAlone(s, Supersede(s, w), i)
  {
    StartRunIs(s.(records := s.records[w.rec := s.records[w.rec].(timer := false)], runs := s.runs - {w.key}), w.key, w.conn);
    hide StartRun;
  }

  lemma ResumeLeavesAlone(f: Registry, rec: nat, i: nat)
    requires Delivery(f) && Forgotten(f, i)
    ensures LeftAlone(f, Resume(f, rec), i)
    decreases |f.waiting|
  {
    hide Resume, Supersede, Delivery, G.Grows;
    assert WaitersOk(f) by { DeliveryWaiters(f); }
    var n := FirstWaiter(f.waiting, rec);
    if n == |f.waiting| {
      NoWaiterNoResume(f, rec);
    } else {
      var g := Supersede(Without(f, n), f.waiting[n]);
      G.SupersedeOneGrows(f, rec, n);
      assert f.waiting[n].conn != i by { WaiterIsUnattached(f, n); }
      SupersedeLeavesAlone(Without(f, n), f.waiting[n], i);
      ResumeLeavesAlone(g, rec, i);
    }
  }

  lemma WaiterIsUnattached(f: Registry, n: nat)
    requires Delivery(f) && n < |f.waiting|
    ensures f.waiting[n].conn < |f.conns| && f.conns[f.waiting[n].conn].target.None?
  {
  }

  lemma StepLeavesAlone(s: Registry, a: Action, i: nat)
    requires Delivery(s) && Enabled(s, a) && Forgotten(s, i)
    ensures LeftAlone(s, Apply(s, a), i)
  {
    if a.Exit? {
      var f := Finished(s, a.rec, a.result);
      WriteKeepsDelivery(s, a.rec, f, ResultFrame(a.result));
      assert LeftAlone(s, f, i) by { hide Resume, Delivery; }
      hide Finished, Delivery, Resume;
      ResumeLeavesAlone(f, a.rec, i);
    } else if a.Dispatch? || a.Reconnect? {
      RequestLeavesAlone(s, a, i);
    } else {
      hide Resume, Delivery, Supersede;
    }
  }

  lemma RequestLeavesAlone(s: Registry, a: Action, i: nat)
    requires WellFormed(s) && Forgotten(s, i) && (a.Dispatch? || a.Reconnect?)
    ensures LeftAlone(s, Apply(s, a), i)
  {
    hide Resume, StartRun, Supersede;
    var arrived := s.(conns := s.conns + [NewConn]);
    StartRunIs(arrived, a.key, |s.conns|);
    if a.Dispatch? && a.key in s.runs && !Live(s, s.runs[a.key]) {
      SupersedeLeavesAlone(arrived, Waiter(a.key, s.runs[a.key], |s.conns|), i);
    }
  }

  lemma {:induction false} ForgottenStays(s: Registry, actions: seq<Action>, i: nat)
    requires Delivery(s) && Forgotten(s, i)
    ensures Delivery(Execute(s, actions)) && LeftAlone(s, Execute(s, actions), i)
  {
    if actions != [] {
      var n := |actions| - 1;
      ForgottenStays(s, actions[..n], i);
      var t := Execute(s, actions[..n]);
      DeliveryWaiters(t);
      hide Delivery, Apply, Enabled, Execute;
      assert Execute(s, actions) == Step(t, actions[n]) by { ExecuteLast(s, actions); }
      if Enabled(t, actions[n]) {
        ApplyKeepsDelivery(t, actions[n]);
        StepLeavesAlone(t, actions[n], i);
      }
    } else {
      hide Delivery;
    }
  }

  /** Once an attached response is dropped, nothing more is ever written to it, and no record has it as a subscriber. */
  lemma DroppedIsForgotten(s: Registry, actions: seq<Action>, i: nat)
    requires Delivery(s) && i < |s.conns| && s.conns[i].target.Some? && !s.conns[i].closed
    ensures LeftAlone(s, Execute(Apply(s, Drop(i)), actions), i)
  {
    DeliveryWaiters(s);
    hide Delivery, Execute;
    ApplyKeepsDelivery(s, Drop(i));
    DropForgets(s, i);
    hide Apply;
    ForgottenStays(Apply(s, Drop(i)), actions, i);
  }
}
