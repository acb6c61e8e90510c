/**
 Calls that nobody disturbs own their run whenever they come back to it, and whole
 calls that show what each disturbance does to the caller.
 */
module QuietCalls {
  import opened Text
  import opened Framing
  import opened Wire
  import opened GatewayClient
  import opened FrameStream
  import opened ResumableRun
  import opened ReconnectSafety
  import R = RunRegistry
  import G = RegistryGrowth
  import J = RejectedRuns

  // ---- what the other parties leave alone ----------------------------------------

  // Nobody else dispatches this key or evicts this call's record, fresh dispatches do
  // not overlap, and the call's first POST reaches the gateway.
  ghost predicate Quiet(k: Call, w: World, s: Step) {
    match s
    case Other(a) =>
      && (a.Dispatch? ==> a.key != k.key && !R.HasWaiter(w.reg, a.key))
      && (a.Evict? ==> Mine(w) != Some(a.rec))
    case PostLost(reached, _, _) => w.client.attempt == 0 ==> reached
    case _ => true
  }

  // The first POST has not been made, waits for the run it supersedes, or has its run, which the key names.
  ghost predicate Undisturbed(k: Call, w: World) {
    && R.Exclusive(w.reg) && R.Delivery(w.reg)
    && match w.first
       case None => !R.HasWaiter(w.reg, k.key) && ((w.client.attempt == 0 && w.client.phase.Posting?) || w.client.phase.GaveUp?)
       case Some(f) =>
         && f < |w.reg.conns| && k.key in w.reg.runs
         && if w.reg.conns[f].target.None?
            then R.Waiter(k.key, w.reg.runs[k.key], f) in w.reg.waiting
            else Own(k, w) && !R.HasWaiter(w.reg, k.key)
  }

  // ---- a key that nobody touches --------------------------------------------------

  lemma KeyStays(s: R.Registry, a: R.Action, key: R.Key)
    requires R.Exclusive(s) && R.Enabled(s, a) && key in s.runs && !R.HasWaiter(s, key)
    requires (a.Dispatch? ==> a.key != key) && (a.Evict? ==> a.rec != s.runs[key])
    ensures var t := R.Apply(s, a); key in t.runs && t.runs[key] == s.runs[key] && !R.HasWaiter(t, key)
  {
    match a {
      case Exit(r, result) => ExitLeavesKey(s, r, result, key);
      case Dispatch(other) =>
        if other in s.runs && !R.Live(s, s.runs[other]) {
          R.SupersedeShape(s.(conns := s.conns + [R.NewConn]), R.Waiter(other, s.runs[other], |s.conns|));
          hide R.Supersede;
        }
      case Evict(r) => assert R.Owns(s, r);
      case _ => hide R.Resume, R.Supersede;
    }
    hide R.Resume, R.StartRun;
  }

  lemma ExitLeavesKey(s: R.Registry, r: nat, result: RunResult, key: R.Key)
    requires R.Exclusive(s) && R.Running(s, r) && key in s.runs && !R.HasWaiter(s, key)
    ensures var t := R.Resume(R.Finished(s, r, result), r);
            key in t.runs && t.runs[key] == s.runs[key] && !R.HasWaiter(t, key)
  {
    var f := R.Finished(s, r, result);
    var rec := s.runs[key];
    forall i | 0 <= i < |s.waiting| ensures s.waiting[i].key != key && s.waiting[i].rec != rec {
      assert R.Owns(s, s.waiting[i].rec);
    }
    hide R.Resume, R.Exclusive;
    if r == rec {
      R.NoWaiterNoResume(f, r);
    } else {
      assert R.WellFormed(f);
      J.ResumeKeepsKey(f, r, rec, key);
      OnlyOldWaiters(f, R.Resume(f, r), r, rec, key);
    }
  }

  lemma OnlyOldWaiters(f: R.Registry, t: R.Registry, r: nat, rec: nat, key: R.Key)
    requires R.WaitersOk(f) && t == R.Resume(f, r) && forall i | 0 <= i < |f.waiting| :: f.waiting[i].key != key
    ensures forall i | 0 <= i < |t.waiting| :: t.waiting[i] in f.waiting && t.waiting[i].key != key
    decreases |f.waiting|
  {
    hide R.Resume, R.Supersede;
    var i := R.FirstWaiter(f.waiting, r);
    if i == |f.waiting| {
      R.NoWaiterNoResume(f, r);
    } else {
      var g := R.ResumeOne(f, r, i);
      OnlyOldWaiters(g, t, r, rec, key);
    }
  }

  // What a step leaves of a dispatch that waits for the run the key names.
  ghost predicate WaitsOrStarted(t: R.Registry, key: R.Key, f: nat) {
    && f < |t.conns| && key in t.runs
    && if t.conns[f].target.None? then R.Waiter(key, t.runs[key], f) in t.waiting
       else t.conns[f].target == Some(R.Attachment(t.runs[key], 0)) && !R.HasWaiter(t, key)
  }

  // In an exclusive registry the waiters of a key are those of the run it names, and there is one at most.
  lemma OneWaiter(s: R.Registry, key: R.Key, f: nat)
    requires R.Exclusive(s) && key in s.runs && R.Waiter(key, s.runs[key], f) in s.waiting
    ensures R.Live(s, s.runs[key])
    ensures forall i | 0 <= i < |s.waiting| :: s.waiting[i].key == key <==> s.waiting[i].rec == s.runs[key]
    ensures forall i | 0 <= i < |s.waiting| && s.waiting[i].key == key :: s.waiting[i] == R.Waiter(key, s.runs[key], f)
  {
    var n :| 0 <= n < |s.waiting| && s.waiting[n] == R.Waiter(key, s.runs[key], f);
    forall i | 0 <= i < |s.waiting| ensures s.waiting[i].key == key <==> s.waiting[i].rec == s.runs[key] {
      assert R.Owns(s, s.waiting[i].rec);
    }
  }

  lemma WaiterGoesOn(s: R.Registry, a: R.Action, key: R.Key, f: nat)
    requires R.Exclusive(s) && R.Delivery(s) && R.Enabled(s, a) && key in s.runs
    requires R.Waiter(key, s.runs[key], f) in s.waiting
    requires a.Dispatch? ==> a.key != key
    ensures WaitsOrStarted(R.Apply(s, a), key, f)
  {
    OneWaiter(s, key, f);
    R.ApplyKeepsDelivery(s, a);
    if a.Exit? && a.rec == s.runs[key] {
      WaiterStarts(s, a.result, key, f);
      hide R.Resume, R.Exclusive, R.Delivery;
    } else {
      WaiterWaits(s, a, key, f);
      J.WaiterIsUnattached(R.Apply(s, a), R.Waiter(key, s.runs[key], f));
      hide R.Apply, R.Exclusive, R.Delivery;
    }
  }

  lemma WaiterStarts(s: R.Registry, result: RunResult, key: R.Key, f: nat)
    requires R.Exclusive(s) && R.Delivery(s) && key in s.runs && R.Running(s, s.runs[key])
    requires R.Waiter(key, s.runs[key], f) in s.waiting
    ensures WaitsOrStarted(R.Resume(R.Finished(s, s.runs[key], result), s.runs[key]), key, f)
  {
    var rec := s.runs[key];
    var d := R.Finished(s, rec, result);
    OneWaiter(s, key, f);
    J.WaiterIsUnattached(s, R.Waiter(key, rec, f));
    var i := R.FirstWaiter(s.waiting, rec);
    assert s.waiting[i] == R.Waiter(key, rec, f);
    OtherWaiters(s, key, i);
    assert R.WaitersOk(d) && d.waiting == s.waiting && |d.conns| == |s.conns| && d.conns[f].target.None?;
    hide R.Exclusive, R.Delivery, R.Finished;
    TheWaiterStarts(d, rec, key, f, i);
  }

  lemma TheWaiterStarts(d: R.Registry, rec: nat, key: R.Key, f: nat, i: nat)
    requires R.WaitersOk(d) && i < |d.waiting| && f < |d.conns| && rec < |d.records| && d.conns[f].target.None?
    requires d.waiting[i] == R.Waiter(key, rec, f)
    requires forall j | 0 <= j < |d.waiting| && j != i :: d.waiting[j].key != key && d.waiting[j].rec != rec
    ensures WaitsOrStarted(R.Resume(d, rec), key, f)
  {
    hide R.Resume, R.Supersede, G.Grows, R.FirstWaiter;
    var w := R.Without(d, i);
    var t := R.Supersede(w, d.waiting[i]);
    assert R.WaitersOk(t) && R.Resume(d, rec) == R.Resume(t, rec) by { R.ResumeStep(d, rec, i); }
    R.SupersedeShape(w, d.waiting[i]);
    G.SupersedeGrows(w, d.waiting[i]);
    assert forall j | 0 <= j < |t.waiting| :: t.waiting[j] == d.waiting[if j < i then j else j + 1];
    assert forall j | 0 <= j < |t.waiting| :: t.waiting[j].key != key && t.waiting[j].rec != rec;
    R.NoWaiterNoResume(t, rec);
  }

  lemma OtherWaiters(s: R.Registry, key: R.Key, i: nat)
    requires R.Exclusive(s) && i < |s.waiting| && s.waiting[i].key == key
    ensures forall j | 0 <= j < |s.waiting| && j != i :: s.waiting[j].key != key
  {
  }

  lemma WaiterWaits(s: R.Registry, a: R.Action, key: R.Key, f: nat)
    requires R.Exclusive(s) && R.Enabled(s, a) && key in s.runs
    requires R.Waiter(key, s.runs[key], f) in s.waiting
    requires (a.Dispatch? ==> a.key != key) && (a.Exit? ==> a.rec != s.runs[key])
    ensures var t := R.Apply(s, a);
            key in t.runs && t.runs[key] == s.runs[key] && R.Waiter(key, s.runs[key], f) in t.waiting
  {
    OneWaiter(s, key, f);
    match a {
      case Exit(r, result) =>
        var d := R.Finished(s, r, result);
        assert R.WellFormed(d) && d.waiting == s.waiting && d.runs == s.runs;
        hide R.Exclusive, R.Resume, R.Finished;
        J.ResumeKeepsKey(d, r, s.runs[key], key);
        J.ResumeKeepsWaiter(d, r, R.Waiter(key, s.runs[key], f));
      case Dispatch(other) =>
        if other in s.runs && !R.Live(s, s.runs[other]) {
          R.SupersedeShape(s.(conns := s.conns + [R.NewConn]), R.Waiter(other, s.runs[other], |s.conns|));
          hide R.Supersede;
        }
      case Evict(r) => assert R.Owns(s, r);
      case _ => hide R.Resume, R.Supersede;
    }
    hide R.Resume, R.StartRun;
  }

  // ---- every step of a quiet call --------------------------------------------------

  lemma OthersStayQuiet(k: Call, w: World, a: R.Action)
    requires Undisturbed(k, w) && R.Enabled(w.reg, a) && Quiet(k, w, Other(a))
    ensures Undisturbed(k, w.(reg := R.Apply(w.reg, a)))
  {
    assert R.WellFormed(w.reg);
    R.ApplyKeepsExclusive(w.reg, a);
    R.ApplyKeepsDelivery(w.reg, a);
    hide R.Exclusive, R.Delivery, R.Apply, R.HasWaiter, R.WellFormed;
    if w.first.None? {
      NoWaiterAppears(w.reg, a, k.key);
    } else if w.reg.conns[w.first.value].target.None? {
      WaiterGoesOn(w.reg, a, k.key, w.first.value);
      StartedIsUndisturbed(k, w, R.Apply(w.reg, a));
    } else {
      OwnStays(w.reg, a, k.key, w.first.value);
      StartedIsUndisturbed(k, w, R.Apply(w.reg, a));
    }
  }

  lemma StartedIsUndisturbed(k: Call, w: World, reg: R.Registry)
    requires w.first.Some? && R.Exclusive(reg) && R.Delivery(reg) && w.first.value < |reg.conns| && k.key in reg.runs
    requires var x := reg.conns[w.first.value].target;
             if x.None? then R.Waiter(k.key, reg.runs[k.key], w.first.value) in reg.waiting
             else x.value.rec == reg.runs[k.key] && !R.HasWaiter(reg, k.key)
    ensures Undisturbed(k, w.(reg := reg))
  {
    hide R.Exclusive, R.Delivery, R.HasWaiter;
  }

  lemma OwnStays(s: R.Registry, a: R.Action, key: R.Key, f: nat)
    requires R.Exclusive(s) && R.Delivery(s) && R.Enabled(s, a) && key in s.runs && !R.HasWaiter(s, key)
    requires f < |s.conns| && s.conns[f].target.Some?
    requires (a.Dispatch? ==> a.key != key) && (a.Evict? ==> a.rec != s.runs[key])
    ensures var t := R.Apply(s, a);
            && key in t.runs && t.runs[key] == s.runs[key] && !R.HasWaiter(t, key)
            && f < |t.conns| && t.conns[f].target == s.conns[f].target
  {
    KeyStays(s, a, key);
    G.ApplyGrows(s, a);
    assert G.ConnGrows(s.conns[f], R.Apply(s, a).conns[f]);
    hide R.Exclusive, R.Delivery, R.Apply, R.HasWaiter;
  }

  lemma NoWaiterAppears(s: R.Registry, a: R.Action, key: R.Key)
    requires R.WellFormed(s) && R.Enabled(s, a) && !R.HasWaiter(s, key) && (a.Dispatch? ==> a.key != key)
    ensures !R.HasWaiter(R.Apply(s, a), key)
  {
    if a.Exit? {
      OnlyOldWaiters(R.Finished(s, a.rec, a.result), R.Apply(s, a), a.rec, a.rec, key);
    } else if a.Dispatch? && a.key in s.runs && !R.Live(s, s.runs[a.key]) {
      R.SupersedeShape(s.(conns := s.conns + [R.NewConn]), R.Waiter(a.key, s.runs[a.key], |s.conns|));
      hide R.Supersede;
    }
    hide R.Resume, R.StartRun;
  }

  // The call's own first POST.
  lemma DispatchIsUndisturbed(k: Call, w: World, client: Client)
    requires Undisturbed(k, w) && w.first.None? && w.client.attempt == 0 && w.client.phase.Posting?
    ensures var reg := R.Apply(w.reg, R.Dispatch(k.key));
            forall v: World | v.reg == reg && v.first == Some(|w.reg.conns|) :: Undisturbed(k, v)
  {
    var s := w.reg;
    var reg := R.Apply(s, R.Dispatch(k.key));
    var conn := |s.conns|;
    var arrived := s.(conns := s.conns + [R.NewConn]);
    R.ApplyKeepsExclusive(s, R.Dispatch(k.key));
    R.ApplyKeepsDelivery(s, R.Dispatch(k.key));
    if k.key !in s.runs {
      R.StartRunIs(arrived, k.key, conn);
      hide R.StartRun;
    } else if R.Live(s, s.runs[k.key]) {
      hide R.StartRun, R.Supersede;
      assert reg.waiting[|s.waiting|] == R.Waiter(k.key, s.runs[k.key], conn);
      J.WaiterIsUnattached(reg, R.Waiter(k.key, s.runs[k.key], conn));
    } else {
      R.SupersedeShape(arrived, R.Waiter(k.key, s.runs[k.key], conn));
      G.SupersedeGrows(arrived, R.Waiter(k.key, s.runs[k.key], conn));
      hide R.Supersede;
    }
    hide R.Exclusive, R.Delivery;
  }

  // A reconnect finds the key, so it only adds a response.
  lemma ReconnectIsUndisturbed(k: Call, w: World)
    requires Undisturbed(k, w) && w.first.Some? && w.client.phase.Posting?
    ensures var reg := R.Apply(w.reg, R.Reconnect(k.key, w.client.cursor));
            forall v: World | v.reg == reg && v.first == w.first :: Undisturbed(k, v)
  {
    var a := R.Reconnect(k.key, w.client.cursor);
    R.ApplyKeepsExclusive(w.reg, a);
    R.ApplyKeepsDelivery(w.reg, a);
    AttachLeaves(w.reg.(conns := w.reg.conns + [R.NewConn]), w.reg.runs[k.key], |w.reg.conns|, w.client.cursor);
    hide R.Exclusive, R.Delivery, R.Attach;
  }

  lemma NextIsUndisturbed(k: Call, w: World, s: Step)
    requires Undisturbed(k, w) && R.WellFormed(w.reg) && Enabled(k, w, s) && Quiet(k, w, s)
    requires w.client.phase.Posting? && w.client.attempt == 0 ==> w.first.None?
    ensures Undisturbed(k, Next(k, w, s))
  {
    if s.Other? {
      OthersStayQuiet(k, w, s.action);
    } else if s.Posted? || (s.PostLost? && s.reached) {
      if w.first.None? {
        DispatchIsUndisturbed(k, w, w.client);
      } else {
        ReconnectIsUndisturbed(k, w);
      }
    } else {
      ClientMovesOn(k, w, s);
    }
    hide R.Exclusive, R.Delivery, R.Apply, Answered, Consume, Flush, Conclude, R.HasWaiter;
  }

  // The client's own moves touch nothing at the gateway, and it posts anew only after its first POST.
  lemma ClientMovesOn(k: Call, w: World, s: Step)
    requires Undisturbed(k, w) && R.WellFormed(w.reg) && Enabled(k, w, s) && Quiet(k, w, s)
    requires s.PostRefused? || s.Read? || s.End? || (s.PostLost? && !s.reached)
    requires w.client.phase.Posting? && w.client.attempt == 0 ==> w.first.None?
    ensures Undisturbed(k, Next(k, w, s))
  {
    hide R.Exclusive, R.Delivery, R.Apply, Consume, Flush, R.HasWaiter, BackoffMs, ErrorResult;
  }

  // Only the first POST is made on attempt 0.
  ghost predicate Counted(w: World) {
    && (w.client.phase.Posting? && w.client.attempt == 0 ==> w.first.None?)
    && (w.client.phase.Streaming? ==> w.first.Some?)
  }

  lemma NextIsCounted(k: Call, w: World, s: Step)
    requires Counted(w) && R.WellFormed(w.reg) && Enabled(k, w, s)
    requires w.client.attempt > 0 && w.client.phase.Posting? ==> w.first.Some?
    ensures Counted(Next(k, w, s))
  {
    if s.Read? {
      ReadIsCounted(k, w, s.n);
    } else if s.End? {
      FlushKeeps(k.codec, w.client, s.broke);
      hide Flush, BackoffMs, ErrorResult;
    } else {
      hide R.Apply, BackoffMs, ErrorResult, ReadAll;
    }
  }

  lemma ReadIsCounted(k: Call, w: World, n: nat)
    requires Counted(w) && R.WellFormed(w.reg) && Enabled(k, w, Read(n))
    ensures Counted(Next(k, w, Read(n)))
  {
    hide Consume, R.Apply, BackoffMs, ErrorResult, Stream;
    ConsumeCounts(k.codec, w.client, Stream(k.codec, w.reg.conns[w.conn].written)[w.got..w.got + n]);
  }

  lemma UndisturbedPosts(k: Call, w: World)
    requires Undisturbed(k, w) && w.client.attempt > 0 && w.client.phase.Posting?
    ensures w.first.Some?
  {
  }

  lemma ConsumeCounts(codec: Codec, c: Client, chunk: string)
    ensures var d := Consume(codec, c, chunk).client; d.attempt == c.attempt && d.phase == c.phase
  {
    hide SplitAll, RouteAll;
    RouteKeeps(codec, c.(buf := ""), SplitAll(c.buf + chunk, NL).pieces);
  }

  lemma FlushKeeps(codec: Codec, c: Client, broke: bool)
    ensures var d := Flush(codec, c, broke).client; d.attempt == c.attempt && d.phase == c.phase
  {
    RouteOneKeeps(codec, c, c.buf);
    hide Route;
  }

  // ---- whole quiet calls -----------------------------------------------------------

  ghost predicate AllQuiet(k: Call, w: World, steps: seq<Step>) {
    forall i | 0 <= i < |steps| :: Quiet(k, Execute(k, w, steps[..i]), steps[i])
  }

  lemma {:induction false} QuietStays(k: Call, w: World, steps: seq<Step>)
    requires Undisturbed(k, w) && Counted(w) && AllQuiet(k, w, steps)
    ensures Undisturbed(k, Execute(k, w, steps)) && Counted(Execute(k, w, steps))
    decreases |steps|
  {
    hide Undisturbed, Next, Quiet, Counted;
    if steps != [] {
      var n := |steps| - 1;
      QuietBefore(k, w, steps, n);
      QuietStays(k, w, steps[..n]);
      var v := Execute(k, w, steps[..n]);
      assert Quiet(k, v, steps[n]);
      if R.WellFormed(v.reg) && Enabled(k, v, steps[n]) {
        CountedFirst(v);
        NextIsUndisturbed(k, v, steps[n]);
        if v.client.attempt > 0 && v.client.phase.Posting? { UndisturbedPosts(k, v); }
        NextIsCounted(k, v, steps[n]);
      }
    }
  }

  lemma CountedFirst(w: World)
    requires Counted(w)
    ensures w.client.phase.Posting? && w.client.attempt == 0 ==> w.first.None?
  {
  }

  lemma QuietBefore(k: Call, w: World, steps: seq<Step>, n: nat)
    requires n <= |steps| && AllQuiet(k, w, steps)
    ensures AllQuiet(k, w, steps[..n])
  {
    hide Quiet, Execute;
    forall i | 0 <= i < n ensures Quiet(k, Execute(k, w, steps[..n][..i]), steps[..n][i]) {
      assert steps[..n][..i] == steps[..i];
    }
  }

  // A POST after the first that reaches the gateway.
  predicate Reconnects(w: World, s: Step) {
    w.client.attempt > 0 && (s.Posted? || (s.PostLost? && s.reached))
  }

  /**
   What `EventsDeliveredInOrder` assumes, from what the others do: in a call whose first POST arrives, and during which
   nobody else dispatches the key or evicts its record, it is met exactly if every reconnect comes after the run the
   first POST superseded has made room for this call's own.
   */
  lemma QuietCallsAreAssumed(k: Call, reg: R.Registry, steps: seq<Step>)
    requires R.Exclusive(reg) && R.Delivery(reg) && !R.HasWaiter(reg, k.key) && AllQuiet(k, Start(reg), steps)
    ensures AllAssumed(k, Start(reg), steps)
       <==> forall i | 0 <= i < |steps| && Reconnects(Execute(k, Start(reg), steps[..i]), steps[i]) ::
              Mine(Execute(k, Start(reg), steps[..i])).Some?
  {
    forall i | 0 <= i < |steps|
      ensures Assumed(k, Execute(k, Start(reg), steps[..i]), steps[i])
         <==> (Reconnects(Execute(k, Start(reg), steps[..i]), steps[i]) ==> Mine(Execute(k, Start(reg), steps[..i])).Some?)
    {
      QuietBefore(k, Start(reg), steps, i);
      QuietStays(k, Start(reg), steps[..i]);
      assert Quiet(k, Execute(k, Start(reg), steps[..i]), steps[i]);
      QuietOwns(k, Execute(k, Start(reg), steps[..i]));
      hide Undisturbed, Counted, Execute, AllQuiet, Own, Mine;
    }
    hide Execute, Assumed, Reconnects, Mine;
  }

  lemma QuietOwns(k: Call, w: World)
    requires Undisturbed(k, w)
    ensures Mine(w).Some? <==> Own(k, w)
  {
    hide R.Exclusive, R.Delivery, R.HasWaiter;
  }

  // ---- one whole call per dropped assumption ----------------------------------------

  lemma {:induction false} ExecuteAppend(k: Call, w: World, a: seq<Step>, b: seq<Step>)
    ensures Execute(k, w, a + b) == Execute(k, Execute(k, w, a), b)
    decreases |b|
  {
    hide Next, Enabled;
    if b == [] {
      assert a + b == a;
    } else {
      assert (a + b)[..|a + b| - 1] == a + b[..|b| - 1];
      ExecuteAppend(k, w, a, b[..|b| - 1]);
    }
  }

  // A call after these steps goes wrong, although whatever happens later meets the assumption.
  ghost predicate GoesWrong(k: Call, reg: R.Registry, steps: seq<Step>) {
    exists more :: AllAssumed(k, Execute(k, Start(reg), steps), more) && !Kept(Execute(k, Start(reg), steps + more))
  }

  // A faithful call that posts again while the key names something else that goes on.
  lemma PostsIntoHarm(k: Call, reg: R.Registry, steps: seq<Step>)
    requires var w := Execute(k, Start(reg), steps);
             Inv(k, w) && w.client.phase.Posting? && w.client.attempt > 0 && !Own(k, w) && !Harmless(k, w)
    ensures GoesWrong(k, reg, steps + [Posted])
  {
    var w := Execute(k, Start(reg), steps);
    var more := UnsafeReconnect(k, w, StreamEvent(AssistantText, "", false));
    InvIsWellFormed(k, w);
    hide Inv, Own, Harmless, AllAssumed, Kept, Execute, Next;
    ExecuteMore(k, Start(reg), steps, Posted);
    ExecuteAppend(k, Start(reg), steps + [Posted], more);
  }

  lemma InvIsWellFormed(k: Call, w: World)
    requires Inv(k, w)
    ensures R.WellFormed(w.reg) && R.Delivery(w.reg) && Lossless(k.codec)
  {
  }

  lemma StartIsFaithful(k: Call, reg: R.Registry)
    requires Lossless(k.codec) && R.Delivery(reg) && k.before == |reg.records|
    ensures Inv(k, Start(reg))
  {
  }

  // The first POST reaches the gateway and its response breaks before anything arrives.
  function BrokenStart(): seq<Step> {
    [Posted] + [End(true, false)]
  }

  lemma BrokenStartLeads(k: Call, reg: R.Registry)
    requires Lossless(k.codec) && R.Delivery(reg) && k.before == |reg.records| && k.key !in reg.runs
    ensures var w := Execute(k, Start(reg), BrokenStart());
            && Inv(k, w) && w.client.phase.Posting? && w.client.attempt == 1
            && w.reg == R.StartRun(reg.(conns := reg.conns + [R.NewConn]), k.key, |reg.conns|)
            && Mine(w) == Some(|reg.records|)
  {
    var w0 := Start(reg);
    StartIsFaithful(k, reg);
    InvIsWellFormed(k, w0);
    assert Execute(k, w0, []) == w0;
    PostedKeeps(k, w0);
    var w1 := Next(k, w0, Posted);
    R.StartRunIs(reg.(conns := reg.conns + [R.NewConn]), k.key, |reg.conns|);
    assert Mine(w1) == Some(|reg.records|);
    EndKeeps(k, w1, true, false);
    BrokenFlush(k.codec, w1.client);
    InvIsWellFormed(k, w1);
    hide Inv, Execute, R.StartRun, R.Delivery, Flush, BackoffMs, R.WellFormed;
    ExecuteMore(k, w0, [], Posted);
    assert [] + [Posted] == [Posted];
    ExecuteMore(k, w0, [Posted], End(true, false));
  }

  // One more step of somebody else's keeps the call faithful.
  lemma SomebodyActs(k: Call, reg: R.Registry, steps: seq<Step>, a: R.Action)
    requires var w := Execute(k, Start(reg), steps); Inv(k, w) && R.Enabled(w.reg, a)
    ensures var w := Execute(k, Start(reg), steps);
            && R.WellFormed(w.reg)
            && Execute(k, Start(reg), steps + [Other(a)]) == w.(reg := R.Apply(w.reg, a))
            && Inv(k, Execute(k, Start(reg), steps + [Other(a)]))
  {
    var w := Execute(k, Start(reg), steps);
    InvIsWellFormed(k, w);
    NextKeeps(k, w, Other(a));
    hide Inv, Execute, R.Apply;
    ExecuteMore(k, Start(reg), steps, Other(a));
  }

  // The run of a fresh record ends; nobody waits for it.
  lemma FreshRunEnds(s: R.Registry, rec: nat, result: RunResult, n: nat)
    requires R.WaitersOk(s) && R.Running(s, rec) && rec == n && forall i | 0 <= i < |s.waiting| :: s.waiting[i].rec < n
    ensures var t := R.Resume(R.Finished(s, rec, result), rec);
            && t.runs == s.runs && |t.records| == |s.records| && t.records[rec].result.Some? && t.records[rec].timer
            && t.records[rec].key == s.records[rec].key
  {
    R.NoWaiterNoResume(R.Finished(s, rec, result), rec);
  }

  lemma EndedRun(k: Call, reg: R.Registry, result: RunResult)
    requires Lossless(k.codec) && R.Delivery(reg) && k.before == |reg.records| && k.key !in reg.runs
    ensures var rec := |reg.records|;
            var w := Execute(k, Start(reg), BrokenStart() + [Other(R.Exit(rec, result))]);
            && Inv(k, w) && w.client.phase.Posting? && w.client.attempt == 1 && Mine(w) == Some(rec)
            && |w.reg.records| == rec + 1 && w.reg.records[rec].key == k.key && w.reg.records[rec].result.Some? && w.reg.records[rec].timer
            && k.key in w.reg.runs && w.reg.runs[k.key] == rec
  {
    var rec := |reg.records|;
    BrokenStartLeads(k, reg);
    var w := Execute(k, Start(reg), BrokenStart());
    R.StartRunIs(reg.(conns := reg.conns + [R.NewConn]), k.key, |reg.conns|);
    assert R.WaitersOk(reg);
    hide R.StartRun, R.Delivery, R.Resume, R.Finished, Execute, BrokenStart, Inv;
    SomebodyActs(k, reg, BrokenStart(), R.Exit(rec, result));
    FreshRunEnds(w.reg, rec, result, rec);
    InvMine(k, w, w.reg, R.Exit(rec, result));
  }

  lemma InvMine(k: Call, w: World, reg: R.Registry, a: R.Action)
    requires Inv(k, w) && reg == w.reg && R.Enabled(reg, a) && Mine(w).Some?
    ensures R.WellFormed(reg) && Mine(w.(reg := R.Apply(reg, a))) == Mine(w)
  {
    G.ApplyGrows(reg, a);
    assert G.ConnGrows(reg.conns[w.first.value], R.Apply(reg, a).conns[w.first.value]);
    hide R.Apply, R.Delivery, Lossless;
  }

  /** The record evicted while the client reconnects: the reconnect silently starts a second run. */
  lemma EvictionGoesWrong(k: Call, reg: R.Registry, result: RunResult)
    requires Lossless(k.codec) && R.Delivery(reg) && k.before == |reg.records| && k.key !in reg.runs
    ensures var rec := |reg.records|;
            GoesWrong(k, reg, BrokenStart() + [Other(R.Exit(rec, result))] + [Other(R.Evict(rec))] + [Posted])
  {
    var rec := |reg.records|;
    var steps := BrokenStart() + [Other(R.Exit(rec, result))];
    EndedRun(k, reg, result);
    var w := Execute(k, Start(reg), steps);
    hide R.Delivery, Execute, BrokenStart, Inv;
    SomebodyActs(k, reg, steps, R.Evict(rec));
    PostsIntoHarm(k, reg, steps + [Other(R.Evict(rec))]);
  }

  /** The record superseded while the client reconnects: it joins the run of somebody else's turn. */
  lemma SupersedingGoesWrong(k: Call, reg: R.Registry, result: RunResult)
    requires Lossless(k.codec) && R.Delivery(reg) && k.before == |reg.records| && k.key !in reg.runs
    ensures var rec := |reg.records|;
            GoesWrong(k, reg, BrokenStart() + [Other(R.Exit(rec, result))] + [Other(R.Dispatch(k.key))] + [Posted])
  {
    var rec := |reg.records|;
    var steps := BrokenStart() + [Other(R.Exit(rec, result))];
    EndedRun(k, reg, result);
    var w := Execute(k, Start(reg), steps);
    SomebodyActs(k, reg, steps, R.Dispatch(k.key));
    R.SupersedeShape(w.reg.(conns := w.reg.conns + [R.NewConn]), R.Waiter(k.key, rec, |w.reg.conns|));
    InvMine(k, w, w.reg, R.Dispatch(k.key));
    hide R.Delivery, Execute, BrokenStart, Inv, R.Supersede;
    PostsIntoHarm(k, reg, steps + [Other(R.Dispatch(k.key))]);
  }

  /** A retry while the first POST still waits for the run it supersedes: it joins that old run. */
  lemma EarlyRetryGoesWrong(k: Call, reg: R.Registry, message: string)
    requires Lossless(k.codec) && R.Delivery(reg) && k.before == |reg.records|
    requires k.key in reg.runs && R.Running(reg, reg.runs[k.key])
    ensures GoesWrong(k, reg, [PostLost(true, message, false)] + [Posted])
  {
    var w0, s := Start(reg), PostLost(true, message, false);
    StartIsFaithful(k, reg);
    InvIsWellFormed(k, w0);
    NextKeeps(k, w0, s);
    R.DispatchWaits(reg, k.key);
    DispatchOpensWaiting(reg, k.key);
    assert Execute(k, w0, []) == w0;
    ExecuteMore(k, w0, [], s);
    assert [] + [s] == [s];
    hide Inv, Execute, R.Delivery, BackoffMs, ErrorResult, ReadAll;
    PostsIntoHarm(k, reg, [s]);
  }

  lemma DispatchOpensWaiting(s: R.Registry, key: R.Key)
    requires R.Delivery(s) && key in s.runs && R.Running(s, s.runs[key])
    ensures var t := R.Apply(s, R.Dispatch(key));
            && t.conns[|s.conns|].target.None? && t.runs == s.runs && R.Running(t, s.runs[key]) && |t.conns| == |s.conns| + 1
  {
  }

  /** A first POST that never arrived: the retry is answered with the previous turn, events, result and all. */
  lemma LostFirstPostGoesWrong(k: Call, reg: R.Registry, message: string) returns (steps: seq<Step>)
    requires Lossless(k.codec) && R.Delivery(reg) && k.key in reg.runs && reg.records[reg.runs[k.key]].result.Some?
    ensures |steps| == 4 && steps[..2] == [PostLost(false, message, false), Posted]
    ensures var r, w := reg.records[reg.runs[k.key]], Execute(k, Start(reg), steps);
            w.client.phase == Finished(r.result.value) && w.client.delivered == r.events && Mine(w).None? && !Kept(w)
  {
    var w0, s := Start(reg), PostLost(false, message, false);
    assert Execute(k, w0, []) == w0;
    ExecuteMore(k, w0, [], s);
    assert [] + [s] == [s];
    var w1 := Next(k, w0, s);
    ExecuteMore(k, w0, [s], Posted);
    var rec := ReconnectAttaches(k, w1);
    var v := Next(k, w1, Posted);
    var r := reg.records[rec];
    OverIsTold(v.reg, v.conn, rec, R.Clamp(w1.client.cursor, |r.events|));
    assert R.WellFormed(v.reg) && r.events[0..] == r.events;
    hide Execute, R.Delivery, Told, R.Apply, BackoffMs, ErrorResult, Lossless, R.WellFormed;
    var more := ReadToTheEnd(k, w0, [s] + [Posted], r.events, r.result);
    steps := [s] + [Posted] + more;
    HeardWhole(v.client, r.events, r.result.value);
  }

  lemma HeardWhole(c: Client, evs: seq<StreamEvent>, result: RunResult)
    requires c.delivered == []
    ensures var d := Conclude(Heard(c, evs, Some(result), |Told(evs, Some(result))|), false, false);
            d.phase == Finished(result) && d.delivered == evs
  {
    assert evs[..|evs|] == evs && [] + evs == evs;
  }
}
