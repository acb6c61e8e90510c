/**
 The optimistic append of task events: the next sequence number is read as
 MAX + 1, the row is inserted under a unique index on (task, sequence), and a
 collision is retried up to five times. Any number of writers interleave
 between another writer's read and its insert.
 */
module TaskEventLog {
  import opened Text

  const MAX_APPEND_RETRY := 5

  type TaskId = string
  datatype Row = Row(task: TaskId, sequence: nat, writer: nat)

  // The sequence numbers of one task, in the order their rows were committed.
  function Sequences(rows: seq<Row>, task: TaskId): seq<nat> {
    if rows == [] then []
    else
      var before := Sequences(rows[..|rows| - 1], task);
      var last := rows[|rows| - 1];
      if last.task == task then before + [last.sequence] else before
  }

  // SELECT COALESCE(MAX(sequence), 0) ... WHERE task_id = task.
  function MaxOf(s: seq<nat>): (m: nat)
    ensures forall x | x in s :: x <= m
    ensures m == 0 || m in s
  {
    if s == [] then 0
    else
      var m := MaxOf(s[..|s| - 1]);
      assert s == s[..|s| - 1] + [s[|s| - 1]];
      if m < s[|s| - 1] then s[|s| - 1] else m
  }

  function MaxSequence(rows: seq<Row>, task: TaskId): nat {
    MaxOf(Sequences(rows, task))
  }

  // The unique index.
  predicate Taken(rows: seq<Row>, task: TaskId, n: nat) {
    n in Sequences(rows, task)
  }

  // Gapless and free of duplicates: the n-th committed row of the task has number n.
  ghost predicate Gapless(rows: seq<Row>, task: TaskId) {
    var s := Sequences(rows, task);
    forall i | 0 <= i < |s| :: s[i] == i + 1
  }

  lemma GaplessMax(rows: seq<Row>, task: TaskId)
    requires Gapless(rows, task)
    ensures MaxSequence(rows, task) == |Sequences(rows, task)|
    ensures forall n: nat :: Taken(rows, task, n) <==> 1 <= n <= |Sequences(rows, task)|
  {
    var s := Sequences(rows, task);
    if s != [] { assert s[|s| - 1] in s; }
    forall n: nat ensures Taken(rows, task, n) <==> 1 <= n <= |s| {
      if 1 <= n <= |s| { assert s[n - 1] == n; }
    }
  }

  // ---- concurrent writers ------------------------------------------------------

  // One appendTaskEvent call: before its read, between read and insert, or over.
  datatype Phase = Ready | Read(next: nat) | Returned(sequence: nat) | GaveUp | Threw

  // `begun` is the number of rows in the table when the call began.
  datatype Writer = Writer(task: TaskId, attempt: nat, phase: Phase, begun: nat)
  datatype Log = Log(rows: seq<Row>, writers: seq<Writer>)

  datatype Step = Begin(task: TaskId) | Snapshot(w: nat) | Insert(w: nat) | Fail(w: nat)

  predicate Enabled(l: Log, s: Step) {
    match s
    case Begin(_) => true
    case Snapshot(w) => w < |l.writers| && l.writers[w].phase.Ready?
    case Insert(w) => w < |l.writers| && l.writers[w].phase.Read?
    case Fail(w) => w < |l.writers| && l.writers[w].phase.Read?
  }

  function Next(l: Log, s: Step): Log
    requires Enabled(l, s)
  {
    match s
    case Begin(task) => l.(writers := l.writers + [Writer(task, 0, Ready, |l.rows|)])
    case Snapshot(w) =>
      var x := l.writers[w];
      l.(writers := l.writers[w := x.(phase := Read(MaxSequence(l.rows, x.task) + 1))])
    case Insert(w) =>
      var x := l.writers[w];
      if Taken(l.rows, x.task, x.phase.next) then
        l.(writers := l.writers[w := x.(attempt := x.attempt + 1,
                                        phase := if x.attempt + 1 < MAX_APPEND_RETRY then Ready else GaveUp)])
      else
        Log(l.rows + [Row(x.task, x.phase.next, w)], l.writers[w := x.(phase := Returned(x.phase.next))])
    case Fail(w) => l.(writers := l.writers[w := l.writers[w].(phase := Threw)])
  }

  // Rows of the task committed since row number `from`.
  function Since(rows: seq<Row>, task: TaskId, from: nat): int {
    if from <= |rows| then |Sequences(rows, task)| - |Sequences(rows[..from], task)| else 0
  }

  ghost predicate WriterOk(l: Log, w: nat)
    requires w < |l.writers|
  {
    var x := l.writers[w];
    && x.begun <= |l.rows|
    && x.attempt <= Since(l.rows, x.task, x.begun)
    && (x.phase.Read? ==>
          |Sequences(l.rows[..x.begun], x.task)| + x.attempt < x.phase.next <= |Sequences(l.rows, x.task)| + 1)
    && (x.phase.GaveUp? ==> x.attempt == MAX_APPEND_RETRY)
    && (x.phase.Ready? || x.phase.Read? ==> x.attempt < MAX_APPEND_RETRY)
    && (match x.phase
        case Returned(n) => exists i :: 0 <= i < |l.rows| && l.rows[i] == Row(x.task, n, w)
        case _ => forall i | 0 <= i < |l.rows| :: l.rows[i].writer != w)
  }

  ghost predicate Inv(l: Log) {
    && (forall task :: Gapless(l.rows, task))
    && (forall w | 0 <= w < |l.writers| :: WriterOk(l, w))
    && (forall i | 0 <= i < |l.rows| :: l.rows[i].writer < |l.writers|)
    && (forall i, j | 0 <= i < j < |l.rows| :: l.rows[i].writer != l.rows[j].writer)
  }

  lemma SequencesSnoc(rows: seq<Row>, r: Row, task: TaskId)
    ensures Sequences(rows + [r], task)
         == if r.task == task then Sequences(rows, task) + [r.sequence] else Sequences(rows, task)
  {
    assert (rows + [r])[..|rows|] == rows;
  }

  lemma InsertKeeps(l: Log, w: nat)
    requires Inv(l) && Enabled(l, Insert(w))
    ensures Inv(Next(l, Insert(w)))
  {
    hide Sequences;
    var x, t := l.writers[w], Next(l, Insert(w));
    assert WriterOk(l, w);
    assert Gapless(l.rows, x.task);
    GaplessMax(l.rows, x.task);
    if Taken(l.rows, x.task, x.phase.next) {
      forall v | 0 <= v < |t.writers| ensures WriterOk(t, v) {
        assert WriterOk(l, v);
      }
    } else {
      var r := Row(x.task, x.phase.next, w);
      forall task ensures Gapless(t.rows, task) {
        SequencesSnoc(l.rows, r, task);
        assert Gapless(l.rows, task);
      }
      forall v | 0 <= v < |t.writers| ensures WriterOk(t, v) {
        assert WriterOk(l, v);
        SequencesSnoc(l.rows, r, l.writers[v].task);
        assert t.rows[..l.writers[v].begun] == l.rows[..l.writers[v].begun];
        if v == w {
          assert t.rows[|l.rows|] == r;
        } else if l.writers[v].phase.Returned? {
          var i :| 0 <= i < |l.rows| && l.rows[i] == Row(l.writers[v].task, l.writers[v].phase.sequence, v);
          assert t.rows[i] == l.rows[i];
        }
      }
    }
  }

  lemma NextKeeps(l: Log, s: Step)
    requires Inv(l) && Enabled(l, s)
    ensures Inv(Next(l, s))
  {
    match s {
      case Insert(w) => InsertKeeps(l, w);
      case Begin(task) =>
        hide Sequences;
        var t := Next(l, s);
        assert l.rows[..|l.rows|] == l.rows;
        forall v | 0 <= v < |t.writers| ensures WriterOk(t, v) {
          if v < |l.writers| { assert WriterOk(l, v); }
        }
      case Snapshot(w) =>
        hide Sequences;
        var t := Next(l, s);
        assert Gapless(l.rows, l.writers[w].task);
        GaplessMax(l.rows, l.writers[w].task);
        forall v | 0 <= v < |t.writers| ensures WriterOk(t, v) {
          assert WriterOk(l, v);
        }
      case Fail(w) =>
        hide Sequences;
        var t := Next(l, s);
        forall v | 0 <= v < |t.writers| ensures WriterOk(t, v) {
          assert WriterOk(l, v);
        }
    }
  }

  function Execute(steps: seq<Step>): Log {
    if steps == [] then Log([], [])
    else
      var l := Execute(steps[..|steps| - 1]);
      if Enabled(l, steps[|steps| - 1]) then Next(l, steps[|steps| - 1]) else l
  }

  lemma {:induction false} ExecuteKeeps(steps: seq<Step>)
    ensures Inv(Execute(steps))
  {
    if steps == [] {
      assert forall task :: Sequences([], task) == [];
    } else {
      ExecuteKeeps(steps[..|steps| - 1]);
      var l := Execute(steps[..|steps| - 1]);
      hide Inv;
      if Enabled(l, steps[|steps| - 1]) {
        NextKeeps(l, steps[|steps| - 1]);
      }
    }
  }

  /** With any number of concurrent writers a task's numbers are always exactly 1..n, in commit order. */
  lemma NumbersAreGapless(steps: seq<Step>, task: TaskId, n: nat)
    ensures var rows := Execute(steps).rows;
            && Gapless(rows, task)
            && (Taken(rows, task, n) <==> 1 <= n <= |Sequences(rows, task)|)
  {
    ExecuteKeeps(steps);
    assert Gapless(Execute(steps).rows, task);
    GaplessMax(Execute(steps).rows, task);
  }

  /** An append that gives up saw at least five appends of other calls to its task commit while it ran. */
  lemma GivingUpNeedsFiveOthers(steps: seq<Step>, w: nat)
    requires w < |Execute(steps).writers| && Execute(steps).writers[w].phase.GaveUp?
    ensures var l := Execute(steps);
            var x := l.writers[w];
            && x.begun <= |l.rows|
            && Since(l.rows, x.task, x.begun) >= MAX_APPEND_RETRY
            && forall i | 0 <= i < |l.rows| :: l.rows[i].writer != w
  {
    ExecuteKeeps(steps);
    assert WriterOk(Execute(steps), w);
  }

  /** A returned append owns exactly one row, and that row carries the number it returned. */
  lemma ReturnedOwnsOneRow(steps: seq<Step>, w: nat)
    requires w < |Execute(steps).writers| && Execute(steps).writers[w].phase.Returned?
    ensures var l := Execute(steps);
            exists i :: 0 <= i < |l.rows| && l.rows[i] == Row(l.writers[w].task, l.writers[w].phase.sequence, w)
                        && forall j | 0 <= j < |l.rows| && l.rows[j].writer == w :: j == i
  {
    ExecuteKeeps(steps);
    var l := Execute(steps);
    assert WriterOk(l, w);
    var i :| 0 <= i < |l.rows| && l.rows[i] == Row(l.writers[w].task, l.writers[w].phase.sequence, w);
    assert forall j | 0 <= j < |l.rows| && l.rows[j].writer == w :: j == i;
  }

  /**
   An insert commits exactly if nobody else's append to the task committed since this call's read; otherwise the call
   reads again, or gives up after its fifth attempt.
   */
  lemma InsertCommitsIff(steps: seq<Step>, w: nat)
    requires Enabled(Execute(steps), Insert(w))
    ensures var l, t := Execute(steps), Next(Execute(steps), Insert(w));
            var x := l.writers[w];
            && |t.writers| == |l.writers| && (forall v | 0 <= v < |l.writers| && v != w :: t.writers[v] == l.writers[v])
            && if x.phase.next == |Sequences(l.rows, x.task)| + 1
               then t.rows == l.rows + [Row(x.task, x.phase.next, w)] && t.writers[w] == x.(phase := Returned(x.phase.next))
               else t.rows == l.rows && t.writers[w] == x.(attempt := x.attempt + 1, phase := if x.attempt == 4 then GaveUp else Ready)
  {
    ExecuteKeeps(steps);
    var l := Execute(steps);
    assert WriterOk(l, w) && Gapless(l.rows, l.writers[w].task);
    GaplessMax(l.rows, l.writers[w].task);
    hide Sequences, Execute, Inv, Gapless;
  }

  /** A read finds the number after the last committed one. */
  lemma SnapshotFindsNext(steps: seq<Step>, w: nat)
    requires Enabled(Execute(steps), Snapshot(w))
    ensures var l, t := Execute(steps), Next(Execute(steps), Snapshot(w));
            && t.rows == l.rows
            && t.writers == l.writers[w := l.writers[w].(phase := Read(|Sequences(l.rows, l.writers[w].task)| + 1))]
  {
    ExecuteKeeps(steps);
    var l := Execute(steps);
    assert Gapless(l.rows, l.writers[w].task);
    GaplessMax(l.rows, l.writers[w].task);
    hide Sequences, Execute, Inv, Gapless;
  }

  // ---- appendTaskEvent ---------------------------------------------------------

  datatype Outcome = Appended(sequence: nat) | UniqueViolation | OtherError

  // How many rows of the task others commit between this call's read and its
  // insert in attempt i, and whether that insert fails for another reason.
  datatype Weather = Weather(others: nat -> nat, broken: nat -> bool)

  function Committed(others: nat -> nat, n: nat): nat {
    if n == 0 then 0 else Committed(others, n - 1) + others(n - 1)
  }

  lemma CommittedStep(others: nat -> nat, n: nat)
    ensures Committed(others, 0) == 0 && Committed(others, n + 1) == Committed(others, n) + others(n)
  {
  }

  class EventTable {
    var rows: seq<Row>

    constructor ()
      ensures rows == []
    {
      rows := [];
    }

    ghost predicate Valid(task: TaskId)
      reads this
    {
      Gapless(rows, task)
    }

    ghost function Count(task: TaskId): nat
      reads this
    {
      |Sequences(rows, task)|
    }

    method NextSequence(task: TaskId) returns (next: nat)
      requires Valid(task)
      ensures next == Count(task) + 1
    {
      GaplessMax(rows, task);
      return MaxSequence(rows, task) + 1;
    }

    // INSERT under the unique index: refused when the number is taken.
    method Insert(task: TaskId, next: nat, writer: nat) returns (ok: bool)
      requires Valid(task) && 1 <= next <= Count(task) + 1
      modifies this
      ensures Valid(task) && ok == (next == old(Count(task)) + 1)
      ensures rows == if ok then old(rows) + [Row(task, next, writer)] else old(rows)
      ensures Count(task) == if ok then next else old(Count(task))
    {
      GaplessMax(rows, task);
      ok := !Taken(rows, task, next);
      if ok {
        SequencesSnoc(rows, Row(task, next, writer), task);
        rows := rows + [Row(task, next, writer)];
      }
    }

    method Interfere(task: TaskId, k: nat, writer: nat)
      requires Valid(task)
      modifies this
      ensures Valid(task) && Count(task) == old(Count(task)) + k
    {
      for i := 0 to k
        invariant Valid(task) && Count(task) == old(Count(task)) + i
      {
        var next := NextSequence(task);
        var _ := Insert(task, next, writer);
      }
    }

    /** The retry loop succeeds at its first undisturbed attempt, and gives up only after five disturbed ones. */
    method AppendTaskEvent(task: TaskId, writer: nat, others: nat, w: Weather) returns (r: Outcome, attempts: nat)
      requires Valid(task)
      modifies this
      ensures Valid(task)
      ensures attempts <= MAX_APPEND_RETRY && forall i | 0 <= i < attempts - 1 :: w.others(i) > 0 && !w.broken(i)
      ensures match r
              case Appended(n) =>
                && attempts > 0 && w.others(attempts - 1) == 0 && !w.broken(attempts - 1)
                && n == old(Count(task)) + Committed(w.others, attempts) + 1
                && Count(task) == n && rows != [] && rows[|rows| - 1] == Row(task, n, writer)
              case UniqueViolation =>
                && attempts == MAX_APPEND_RETRY && w.others(attempts - 1) > 0 && !w.broken(attempts - 1)
                && Count(task) == old(Count(task)) + Committed(w.others, attempts)
              case OtherError =>
                && attempts > 0 && w.broken(attempts - 1)
                && Count(task) == old(Count(task)) + Committed(w.others, attempts)
    {
      hide Sequences, Gapless, Committed;
      CommittedStep(w.others, 0);
      attempts := 0;
      while attempts < MAX_APPEND_RETRY
        invariant attempts <= MAX_APPEND_RETRY && Valid(task)
        invariant forall i | 0 <= i < attempts :: w.others(i) > 0 && !w.broken(i)
        invariant Count(task) == old(Count(task)) + Committed(w.others, attempts)
      {
        CommittedStep(w.others, attempts);
        var next := NextSequence(task);
        Interfere(task, w.others(attempts), others);
        attempts := attempts + 1;
        if w.broken(attempts - 1) { return OtherError, attempts; }
        var ok := Insert(task, next, writer);
        if ok { return Appended(next), attempts; }
      }
      return UniqueViolation, attempts;
    }
  }
}
