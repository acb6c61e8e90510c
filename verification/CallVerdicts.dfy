/** How a whole call ends, read off the answers the network gave. */
module CallVerdicts {
  import opened Text
  import opened Framing
  import opened Wire
  import opened GatewayClient

  // ---- what a stream says, line by line ----------------------------------------

  // The lines of a stream that are routed: a clean end also routes the tail.
  function StreamLines(chunks: seq<string>, broke: bool): seq<string> {
    var s := SplitAll(Concat(chunks), NL);
    if broke then s.pieces else s.pieces + [s.rest]
  }

  // A literal null, or an event the callback throws on.
  predicate Throws(codec: Codec, line: string) {
    && Trim(line) != ""
    && var p := codec.parse(Trim(line));
    p == NullValue || (p.Framed? && p.frame.EventFrame? && !codec.accepts(p.frame.event))
  }

  predicate IsResult(codec: Codec, line: string, r: RunResult) {
    Trim(line) != "" && codec.parse(Trim(line)) == Framed(ResultFrame(r))
  }

  // The stream broke: the connection did, or the router threw.
  predicate Broken(codec: Codec, chunks: seq<string>, broke: bool) {
    broke || exists l :: l in StreamLines(chunks, broke) && Throws(codec, l)
  }

  // The first n lines are routed without a throw, and the next one, if any, throws.
  predicate Quiet(codec: Codec, lines: seq<string>, n: nat) {
    && n <= |lines| && (forall j | 0 <= j < n :: !Throws(codec, lines[j]))
    && (n < |lines| ==> Throws(codec, lines[n]))
  }

  // The last result among the lines routed before anything is thrown.
  ghost predicate Gives(codec: Codec, lines: seq<string>, r: RunResult) {
    exists n: nat, i: nat :: Quiet(codec, lines, n) && LastResult(codec, lines, n, i, r)
  }

  ghost predicate LastResult(codec: Codec, lines: seq<string>, n: nat, i: nat, r: RunResult) {
    i < n <= |lines| && IsResult(codec, lines[i], r) && forall j, q | i < j < n :: !IsResult(codec, lines[j], q)
  }

  // ---- the router hears just that ----------------------------------------------

  lemma RouteHears(codec: Codec, c: Client, line: string)
    ensures var r := Route(codec, c, line);
            && (r.threw <==> Throws(codec, line))
            && (forall q | IsResult(codec, line, q) :: r.client.result == Some(q))
            && ((forall q :: !IsResult(codec, line, q)) ==> r.client.result == c.result)
  {
    hide Trim;
    var p := codec.parse(Trim(line));
    if Trim(line) != "" && p.Framed? && p.frame.ResultFrame? {
      assert IsResult(codec, line, p.frame.result);
    }
  }

  lemma {:induction false} RouteAllHears(codec: Codec, c: Client, lines: seq<string>, n: nat)
    requires Quiet(codec, lines, n)
    ensures var r := RouteAll(codec, c, lines);
            && (r.threw <==> n < |lines|)
            && (forall i: nat, q | LastResult(codec, lines, n, i, q) :: r.client.result == Some(q))
            && ((forall i, q | 0 <= i < n :: !IsResult(codec, lines[i], q)) ==> r.client.result == c.result)
    decreases |lines|
  {
    if lines != [] {
      RouteHears(codec, c, lines[0]);
      hide Route, Throws, IsResult;
      if n > 0 {
        var d, rest := Route(codec, c, lines[0]).client, lines[1..];
        var m: nat := n - 1;
        assert Quiet(codec, rest, m);
        RouteAllHears(codec, d, rest, m);
        forall i: nat, q | LastResult(codec, lines, n, i, q) ensures RouteAll(codec, c, lines).client.result == Some(q) {
          if i > 0 {
            assert LastResult(codec, rest, m, i - 1, q);
          } else {
            assert forall j, p | 0 <= j < m :: !IsResult(codec, rest[j], p) by {
              assert forall j | 0 <= j < m :: rest[j] == lines[j + 1];
            }
          }
        }
        if forall i, q | 0 <= i < n :: !IsResult(codec, lines[i], q) {
          assert forall i, q | 0 <= i < m :: !IsResult(codec, rest[i], q);
        }
      }
    }
  }

  lemma {:induction false} RouteAllAppend(codec: Codec, c: Client, a: seq<string>, b: seq<string>)
    ensures var r := RouteAll(codec, c, a);
            RouteAll(codec, c, a + b) == if r.threw then r else RouteAll(codec, r.client, b)
    decreases |a|
  {
    hide Route;
    if a == [] {
      assert a + b == b;
    } else {
      assert (a + b)[0] == a[0] && (a + b)[1..] == a[1..] + b;
      if !Route(codec, c, a[0]).threw {
        RouteAllAppend(codec, Route(codec, c, a[0]).client, a[1..], b);
      }
    }
  }

  // However the text is cut, the lines of the whole are routed in order up to the first throw.
  lemma {:induction false} ConsumeAllRoutes(codec: Codec, c: Client, chunks: seq<string>)
    requires SplitAll(c.buf, NL) == Split([], c.buf)
    ensures var s := SplitAll(c.buf + Concat(chunks), NL);
            var r, t := RouteAll(codec, c.(buf := ""), s.pieces), ConsumeAll(codec, c, chunks);
            && t.threw == r.threw && t.client.result == r.client.result
            && (!t.threw ==> t.client == r.client.(buf := s.rest))
    decreases |chunks|
  {
    hide SplitAll, Route;
    if chunks == [] {
      assert c.buf + Concat(chunks) == c.buf;
      assert c.(buf := "").(buf := c.buf) == c;
    } else {
      var first, rest := SplitAll(c.buf + chunks[0], NL), Concat(chunks[1..]);
      assert c.buf + Concat(chunks) == c.buf + chunks[0] + rest;
      SplitAppend(c.buf + chunks[0], rest, NL);
      RestIsWhole(c.buf + chunks[0]);
      RouteAllAppend(codec, c.(buf := ""), first.pieces, SplitAll(first.rest + rest, NL).pieces);
      RouteKeeps(codec, c.(buf := ""), first.pieces);
      var d := Consume(codec, c, chunks[0]);
      if !d.threw {
        assert d.client.(buf := "") == RouteAll(codec, c.(buf := ""), first.pieces).client;
        ConsumeAllRoutes(codec, d.client, chunks[1..]);
      }
    }
  }

  lemma RestIsWhole(text: string)
    ensures SplitAll(SplitAll(text, NL).rest, NL) == Split([], SplitAll(text, NL).rest)
  {
    SplitIsFaithful(text, NL);
    assert Terminated([], NL) + SplitAll(text, NL).rest == SplitAll(text, NL).rest;
    SplitOfTerminated([], SplitAll(text, NL).rest);
  }

  lemma ReadAllHears(codec: Codec, p: Client, chunks: seq<string>, broke: bool)
    requires p.buf == ""
    ensures var lines, t := StreamLines(chunks, broke), ReadAll(codec, p, chunks, broke);
            && t.client.result == RouteAll(codec, p, lines).client.result
            && t.threw == (broke || RouteAll(codec, p, lines).threw)
  {
    hide SplitAll, Route;
    var s := SplitAll(Concat(chunks), NL);
    assert SplitAll(p.buf, NL) == Split([], p.buf) by { RestIsWhole(""); assert SplitAll("", NL).rest == "" by { SplitIsFaithful("", NL); } }
    assert p.buf + Concat(chunks) == Concat(chunks) && p.(buf := "") == p;
    ConsumeAllRoutes(codec, p, chunks);
    RouteAllAppend(codec, p, s.pieces, [s.rest]);
    var r := RouteAll(codec, p, s.pieces);
    assert RouteAll(codec, r.client, [s.rest]) == Route(codec, r.client, s.rest) by { assert [s.rest][1..] == []; }
    if !broke && !r.threw { RouteBuf(codec, r.client, s.rest); }
  }

  // Routing a line does not look at the buffer.
  lemma RouteBuf(codec: Codec, c: Client, line: string)
    ensures var a, b := Route(codec, c, line), Route(codec, c.(buf := line), line);
            a.threw == b.threw && a.client.result == b.client.result
  {
    hide Trim;
  }

  lemma {:induction false} FirstThrow(codec: Codec, lines: seq<string>) returns (n: nat)
    ensures Quiet(codec, lines, n)
    ensures n < |lines| <==> exists l :: l in lines && Throws(codec, l)
  {
    hide Throws;
    n := 0;
    while n < |lines| && !Throws(codec, lines[n])
      invariant n <= |lines| && forall j | 0 <= j < n :: !Throws(codec, lines[j])
    {
      n := n + 1;
    }
  }

  lemma LastGives(codec: Codec, lines: seq<string>, n: nat, i: nat, r: RunResult)
    requires Quiet(codec, lines, n) && LastResult(codec, lines, n, i, r)
    ensures Gives(codec, lines, r)
  {
  }

  lemma {:induction false} LastExists(codec: Codec, lines: seq<string>, n: nat, m: nat)
    requires m <= n <= |lines| && Quiet(codec, lines, n)
    requires forall i, q | m <= i < n :: !IsResult(codec, lines[i], q)
    requires forall r :: !Gives(codec, lines, r)
    ensures forall i, q | 0 <= i < n :: !IsResult(codec, lines[i], q)
    decreases m
  {
    hide Quiet, IsResult;
    if m > 0 {
      var i: nat := m - 1;
      forall q ensures !IsResult(codec, lines[i], q) {
        if IsResult(codec, lines[i], q) {
          LastGives(codec, lines, n, i, q);
        }
      }
      LastExists(codec, lines, n, i);
    }
  }

  // What one attempt reads, as the lines of its stream say.
  lemma StreamHears(codec: Codec, p: Client, chunks: seq<string>, broke: bool)
    requires p.buf == "" && p.result == None
    ensures var lines, t := StreamLines(chunks, broke), ReadAll(codec, p, chunks, broke);
            && (t.threw <==> Broken(codec, chunks, broke))
            && (forall r | Gives(codec, lines, r) :: t.client.result == Some(r))
            && ((forall r :: !Gives(codec, lines, r)) ==> t.client.result == None)
  {
    ReadAllHears(codec, p, chunks, broke);
    LinesHear(codec, p, StreamLines(chunks, broke));
    hide StreamLines, Throws, RouteAll, ReadAll, Gives;
  }

  lemma LinesHear(codec: Codec, p: Client, lines: seq<string>)
    requires p.result == None
    ensures var t := RouteAll(codec, p, lines);
            && (t.threw <==> exists l :: l in lines && Throws(codec, l))
            && (forall r | Gives(codec, lines, r) :: t.client.result == Some(r))
            && ((forall r :: !Gives(codec, lines, r)) ==> t.client.result == None)
  {
    var n := FirstThrow(codec, lines);
    hide Throws, IsResult, RouteAll, LastResult;
    RouteAllHears(codec, p, lines, n);
    var t := RouteAll(codec, p, lines);
    forall r | Gives(codec, lines, r) ensures t.client.result == Some(r) {
      GivenIsLast(codec, lines, n, r);
    }
    if forall r :: !Gives(codec, lines, r) {
      hide Quiet, Gives;
      LastExists(codec, lines, n, n);
    }
  }

  lemma GivenIsLast(codec: Codec, lines: seq<string>, n: nat, r: RunResult)
    requires Quiet(codec, lines, n) && Gives(codec, lines, r)
    ensures exists i: nat :: LastResult(codec, lines, n, i, r)
  {
    hide Throws, LastResult;
    var m: nat, i: nat :| Quiet(codec, lines, m) && LastResult(codec, lines, m, i, r);
    assert m == n;
  }

  // ---- what an answer does to the call -----------------------------------------

  // The caller aborted: the fetch threw, the stream broke, or it ended without a result.
  ghost predicate Aborts(codec: Codec, a: Answer) {
    match a
    case FetchThrew(_, aborted) => aborted
    case Opened(chunks, broke, aborted) =>
      aborted && (Broken(codec, chunks, broke) || forall r :: !Gives(codec, StreamLines(chunks, broke), r))
    case _ => false
  }

  ghost predicate Returns(codec: Codec, a: Answer, r: RunResult) {
    && a.Opened? && Gives(codec, StreamLines(a.chunks, a.broke), r)
    && !(a.aborted && Broken(codec, a.chunks, a.broke))
  }

  // Neither an error nor a result, and nobody aborted.
  ghost predicate Inconclusive(codec: Codec, a: Answer) {
    match a
    case FetchThrew(_, aborted) => !aborted
    case Opened(chunks, broke, aborted) => !aborted && forall r :: !Gives(codec, StreamLines(chunks, broke), r)
    case _ => false
  }

  ghost function WhyInconclusive(codec: Codec, a: Answer): string
    requires Inconclusive(codec, a)
  {
    if a.FetchThrew? then a.message
    else if Broken(codec, a.chunks, a.broke) then "gateway stream dropped, exhausted reconnects"
    else "gateway closed without a result line"
  }

  // The call ended on this answer.
  ghost predicate EndedOn(codec: Codec, a: Answer, d: Client) {
    && (Aborts(codec, a) ==> d.phase == GaveUp(RunResult(false, "", "cancelled", "run aborted")) && d.cancels == 1)
    && (!Aborts(codec, a) ==> d.cancels == 0)
    && (a.Unauthorized? ==> d.phase == GaveUp(RunResult(false, "", "gateway_unauthorized", "bad gateway bearer")))
    && (a.HttpFailure? ==> d.phase == GaveUp(RunResult(false, "", "prompt_failed", "gateway HTTP " + a.status)))
    && (forall r | Returns(codec, a, r) :: d.phase == Finished(r))
    && (Inconclusive(codec, a) ==> d.phase == GaveUp(RunResult(false, "", "gateway_unreachable", WhyInconclusive(codec, a))))
  }

  lemma AnswerDecides(codec: Codec, c: Client, a: Answer)
    requires c.phase.Posting? && c.cancels == 0
    ensures var d := Answered(codec, c, a);
            && (Inconclusive(codec, a) && c.attempt < 5 <==> d.phase.Posting?)
            && (d.phase.Posting? ==> d.cancels == 0)
            && (!d.phase.Posting? ==> EndedOn(codec, a, d))
  {
    hide Gives, StreamLines, ReadAll, BackoffMs, Broken;
    if a.Opened? {
      StreamHears(codec, Post(c), a.chunks, a.broke);
      ReadAllKeeps(codec, Post(c), a.chunks, a.broke);
    }
  }

  // The back-off before POST k in all: 1, 2, 3, 4 and 5 seconds.
  const WAITED_MS: seq<nat> := [0, 1000, 3000, 6000, 10_000, 15_000]

  lemma {:induction false} PlayDecides(codec: Codec, c: Client, net: nat -> Answer)
    requires c.phase.Posting? && c.cancels == 0 && c.attempt <= 5 && c.posts == c.attempt && c.sleptMs == WAITED_MS[c.attempt]
    ensures var d := Play(codec, c, net);
            && c.attempt < d.posts <= 6 && d.sleptMs == WAITED_MS[d.posts - 1]
            && (forall j: nat | c.attempt <= j < d.posts - 1 :: Inconclusive(codec, net(j)))
            && (Inconclusive(codec, net(d.posts - 1)) ==> d.posts == 6)
            && EndedOn(codec, net(d.posts - 1), d)
    decreases 5 - c.attempt
  {
    hide Play, Answered, EndedOn, Inconclusive, BackoffMs;
    var a := net(c.attempt);
    var d := Answered(codec, c, a);
    PlayUnfold(codec, c, net);
    AnsweredFacts(codec, c, a);
    AnswerDecides(codec, c, a);
    if d.phase.Posting? {
      Waits(c.attempt, d.attempt);
      PlayDecides(codec, d, net);
    }
  }

  lemma Waits(k: nat, m: nat)
    requires k < 5 && m == k + 1
    ensures WAITED_MS[k] + BackoffMs(m) == WAITED_MS[m]
  {
  }

  /**
   Every call: it posts again after each answer that concludes nothing, six times at most and waiting as long as the
   schedule says, and ends on the first other answer, or the sixth, with what that answer says.
   */
  lemma CallDecided(codec: Codec, net: nat -> Answer)
    ensures var d := Play(codec, Fresh, net);
            && 1 <= d.posts <= 6 && d.sleptMs == WAITED_MS[d.posts - 1]
            && (forall j: nat | j < d.posts - 1 :: Inconclusive(codec, net(j)))
            && (Inconclusive(codec, net(d.posts - 1)) ==> d.posts == 6)
            && EndedOn(codec, net(d.posts - 1), d)
  {
    hide Play, EndedOn, Inconclusive;
    PlayDecides(codec, Fresh, net);
  }

  /** If POST k is reached and its answer concludes something, the call ends there, as that answer says. */
  lemma CallEndsThere(codec: Codec, net: nat -> Answer, k: nat)
    requires k < 6 && (forall j: nat | j < k :: Inconclusive(codec, net(j))) && !Inconclusive(codec, net(k))
    ensures var d := Play(codec, Fresh, net); d.posts == k + 1 && EndedOn(codec, net(k), d)
  {
    hide Play, EndedOn, Inconclusive;
    CallDecided(codec, net);
  }

  // An answer aborts, returns a result, fails, or concludes nothing.
  lemma AnswersDiffer(codec: Codec, a: Answer)
    ensures a.Unauthorized? || a.HttpFailure? || Aborts(codec, a) || Inconclusive(codec, a) || exists r :: Returns(codec, a, r)
    ensures Aborts(codec, a) ==> !Inconclusive(codec, a) && !a.Unauthorized? && !a.HttpFailure?
  {
    hide StreamLines, Broken;
    if r :| a.Opened? && Gives(codec, StreamLines(a.chunks, a.broke), r) {
      hide Gives;
      assert Aborts(codec, a) || Returns(codec, a, r);
    }
  }

  /**
   The gateway is sent a cancel, and one only, exactly if the call ended as cancelled, which is when its last answer
   found the caller gone; it is unreachable exactly if six answers concluded nothing.
   */
  lemma CancelledIff(codec: Codec, net: nat -> Answer)
    ensures var d := Play(codec, Fresh, net);
            && (d.cancels > 0 <==> d.phase.GaveUp? && d.phase.result.error == "cancelled") && d.cancels <= 1
            && d.posts >= 1 && (d.cancels > 0 <==> Aborts(codec, net(d.posts - 1)))
            && (d.phase.GaveUp? && d.phase.result.error == "gateway_unreachable"
                <==> forall j: nat | j < 6 :: Inconclusive(codec, net(j)))
  {
    hide Play, Aborts, Inconclusive, EndedOn;
    CallDecided(codec, net);
    var d := Play(codec, Fresh, net);
    EndedFacts(codec, net(d.posts - 1), d);
  }

  lemma EndedFacts(codec: Codec, a: Answer, d: Client)
    requires EndedOn(codec, a, d)
    ensures d.cancels <= 1 && (d.cancels > 0 <==> Aborts(codec, a))
    ensures d.phase.GaveUp? && d.phase.result.error == "cancelled" <==> Aborts(codec, a)
    ensures d.phase.GaveUp? && d.phase.result.error == "gateway_unreachable" <==> Inconclusive(codec, a)
  {
    hide Aborts, Inconclusive, Returns, WhyInconclusive;
    AnswersDiffer(codec, a);
  }
}
