/**
 The adapter's run client: POST a turn, read its event stream, and after a
 broken stream POST again with a cursor, up to five times.
 */
module GatewayClient {
  import opened Text
  import opened Framing
  import opened Wire

  const MAX_RECONNECTS := 5

  // Finished: the gateway's own result was returned. GaveUp: an error the client made.
  datatype Phase = Posting | Streaming | Finished(result: RunResult) | GaveUp(result: RunResult)

  datatype Client = Client(attempt: nat, cursor: nat, delivered: seq<StreamEvent>, buf: string,
                           result: Option<RunResult>, phase: Phase, posts: nat, sleptMs: nat, cancels: nat)

  // What the network answers to one POST. `aborted` is the caller's signal as
  // the client reads it after the stream ended or the fetch threw.
  datatype Answer =
    | FetchThrew(message: string, aborted: bool)
    | Unauthorized
    | HttpFailure(status: string)
    | Opened(chunks: seq<string>, broke: bool, aborted: bool)

  datatype Routed = Routed(client: Client, threw: bool)

  const Fresh := Client(0, 0, [], "", None, Posting, 0, 0, 0)

  function ErrorResult(error: string, reason: string): RunResult {
    RunResult(false, "", error, reason)
  }

  // ---- the steps of the client as functions of its state -------------------

  function Route(codec: Codec, c: Client, line: string): Routed {
    var trimmed := Trim(line);
    if trimmed == "" then Routed(c, false)
    else match codec.parse(trimmed)
      case Malformed | OtherValue => Routed(c, false)
      case NullValue => Routed(c, true)
      case Framed(EventFrame(e)) =>
        var told := c.(delivered := c.delivered + [e]);
        if codec.accepts(e) then Routed(told.(cursor := c.cursor + 1), false) else Routed(told, true)
      case Framed(ResultFrame(r)) => Routed(c.(result := Some(r)), false)
  }

  function RouteAll(codec: Codec, c: Client, lines: seq<string>): Routed
    decreases |lines|
  {
    if lines == [] then Routed(c, false)
    else
      var r := Route(codec, c, lines[0]);
      if r.threw then r else RouteAll(codec, r.client, lines[1..])
  }

  function Consume(codec: Codec, c: Client, chunk: string): Routed {
    var s := SplitAll(c.buf + chunk, NL);
    var r := RouteAll(codec, c.(buf := ""), s.pieces);
    if r.threw then r else Routed(r.client.(buf := s.rest), false)
  }

  function ConsumeAll(codec: Codec, c: Client, chunks: seq<string>): Routed
    decreases |chunks|
  {
    if chunks == [] then Routed(c, false)
    else
      var r := Consume(codec, c, chunks[0]);
      if r.threw then r else ConsumeAll(codec, r.client, chunks[1..])
  }

  function Post(c: Client): Client {
    c.(phase := Streaming, buf := "", result := None, posts := c.posts + 1)
  }

  function BackoffMs(attempt: nat): nat {
    if 1000 * attempt <= 5000 then 1000 * attempt else 5000
  }

  function Retry(c: Client, reason: string): Client {
    var next := c.(attempt := c.attempt + 1, buf := "", result := None);
    if c.attempt < MAX_RECONNECTS
    then next.(phase := Posting, sleptMs := c.sleptMs + BackoffMs(c.attempt + 1))
    else next.(phase := GaveUp(ErrorResult("gateway_unreachable", reason)))
  }

  function Cancelled(c: Client): Client {
    c.(phase := GaveUp(ErrorResult("cancelled", "run aborted")), buf := "", result := None, cancels := c.cancels + 1)
  }

  // The checks after the read loop.
  function Conclude(c: Client, broke: bool, aborted: bool): Client {
    if broke && aborted then Cancelled(c)
    else match c.result
      case Some(r) => c.(phase := Finished(r), buf := "", result := None)
      case None =>
        if aborted then Cancelled(c)
        else Retry(c, if broke then "gateway stream dropped, exhausted reconnects"
                      else "gateway closed without a result line")
  }

  // The stream ended: a clean end flushes the unterminated tail first.
  function Flush(codec: Codec, c: Client, broke: bool): Routed {
    if broke then Routed(c, true) else Route(codec, c, c.buf)
  }

  // The whole read loop of one attempt; `threw` says its catch branch ran.
  function ReadAll(codec: Codec, c: Client, chunks: seq<string>, broke: bool): Routed {
    var r := ConsumeAll(codec, c, chunks);
    if r.threw then r else Flush(codec, r.client, broke)
  }

  function Answered(codec: Codec, c: Client, a: Answer): Client {
    var p := Post(c);
    match a
    case FetchThrew(message, aborted) => if aborted then Cancelled(p) else Retry(p, message)
    case Unauthorized => p.(phase := GaveUp(ErrorResult("gateway_unauthorized", "bad gateway bearer")))
    case HttpFailure(status) => p.(phase := GaveUp(ErrorResult("prompt_failed", "gateway HTTP " + status)))
    case Opened(chunks, broke, aborted) =>
      var r := ReadAll(codec, p, chunks, broke);
      Conclude(r.client, r.threw, aborted)
  }

  // The whole call against a network that answers POST number n with net(n).
  function Play(codec: Codec, c: Client, net: nat -> Answer): Client
    requires c.attempt <= MAX_RECONNECTS
    decreases MAX_RECONNECTS - c.attempt
  {
    var d := Answered(codec, c, net(c.attempt));
    AnsweredFacts(codec, c, net(c.attempt));
    if d.phase.Posting? then Play(codec, d, net) else d
  }

  lemma PlayUnfold(codec: Codec, c: Client, net: nat -> Answer)
    requires c.attempt <= MAX_RECONNECTS
    ensures var d := Answered(codec, c, net(c.attempt));
            && (d.phase.Posting? ==> d.attempt <= MAX_RECONNECTS)
            && Play(codec, c, net) == if d.phase.Posting? then Play(codec, d, net) else d
  {
    AnsweredFacts(codec, c, net(c.attempt));
  }

  // How many of the events handed over the callback took.
  function Taken(codec: Codec, events: seq<StreamEvent>): nat {
    if events == [] then 0
    else Taken(codec, events[..|events| - 1]) + if codec.accepts(events[|events| - 1]) then 1 else 0
  }

  lemma TakenSnoc(codec: Codec, events: seq<StreamEvent>, e: StreamEvent)
    ensures Taken(codec, events + [e]) == Taken(codec, events) + if codec.accepts(e) then 1 else 0
  {
    assert (events + [e])[..|events|] == events;
  }

  lemma {:induction false} TakenAll(codec: Codec, events: seq<StreamEvent>)
    ensures Taken(codec, events) <= |events|
    ensures Taken(codec, events) == |events| <==> forall i | 0 <= i < |events| :: codec.accepts(events[i])
  {
    if events != [] {
      var n := |events| - 1;
      TakenAll(codec, events[..n]);
      assert forall i | 0 <= i < n :: events[..n][i] == events[i];
    }
  }

  lemma RouteOneKeeps(codec: Codec, c: Client, line: string)
    ensures var d := Route(codec, c, line).client;
            && d == c.(cursor := d.cursor, delivered := d.delivered, result := d.result)
            && d.cursor - Taken(codec, d.delivered) == c.cursor - Taken(codec, c.delivered)
  {
    hide Trim, Taken;
    forall e {
      TakenSnoc(codec, c.delivered, e);
    }
  }

  lemma RouteKeeps(codec: Codec, c: Client, lines: seq<string>)
    ensures var d := RouteAll(codec, c, lines).client;
            d == c.(cursor := d.cursor, delivered := d.delivered, result := d.result)
    ensures var d := RouteAll(codec, c, lines).client;
            d.cursor - Taken(codec, d.delivered) == c.cursor - Taken(codec, c.delivered)
    decreases |lines|
  {
    if lines != [] {
      RouteOneKeeps(codec, c, lines[0]);
      hide Route;
      if !Route(codec, c, lines[0]).threw {
        RouteKeeps(codec, Route(codec, c, lines[0]).client, lines[1..]);
      }
    }
  }

  lemma ConsumeKeeps(codec: Codec, c: Client, chunks: seq<string>)
    ensures var d := ConsumeAll(codec, c, chunks).client;
            d == c.(cursor := d.cursor, delivered := d.delivered, result := d.result, buf := d.buf)
    ensures var d := ConsumeAll(codec, c, chunks).client;
            d.cursor - Taken(codec, d.delivered) == c.cursor - Taken(codec, c.delivered)
    decreases |chunks|
  {
    hide Trim, SplitAll, RouteAll;
    if chunks != [] {
      var s := SplitAll(c.buf + chunks[0], NL);
      RouteKeeps(codec, c.(buf := ""), s.pieces);
      if !Consume(codec, c, chunks[0]).threw {
        ConsumeKeeps(codec, Consume(codec, c, chunks[0]).client, chunks[1..]);
      }
    }
  }

  lemma ReadAllKeeps(codec: Codec, c: Client, chunks: seq<string>, broke: bool)
    ensures var d := ReadAll(codec, c, chunks, broke).client;
            && d == c.(cursor := d.cursor, delivered := d.delivered, result := d.result, buf := d.buf)
            && d.cursor - Taken(codec, d.delivered) == c.cursor - Taken(codec, c.delivered)
  {
    hide Trim, ConsumeAll;
    ConsumeKeeps(codec, c, chunks);
  }

  lemma ConcludeFacts(c: Client, broke: bool, aborted: bool)
    ensures var d := Conclude(c, broke, aborted);
            && !d.phase.Streaming? && d.posts == c.posts && d.delivered == c.delivered && d.cursor == c.cursor
            && (d.phase.Posting? ==> c.attempt < MAX_RECONNECTS && d.attempt == c.attempt + 1
                                     && d.sleptMs == c.sleptMs + BackoffMs(d.attempt))
            && (!d.phase.Posting? ==> d.sleptMs == c.sleptMs)
  {
    hide BackoffMs, ErrorResult;
  }

  lemma AnsweredFacts(codec: Codec, c: Client, a: Answer)
    ensures var d := Answered(codec, c, a);
            && !d.phase.Streaming?
            && d.posts == c.posts + 1
            && d.cursor - Taken(codec, d.delivered) == c.cursor - Taken(codec, c.delivered)
            && (d.phase.Posting? ==> c.attempt < MAX_RECONNECTS && d.attempt == c.attempt + 1
                                     && d.sleptMs == c.sleptMs + BackoffMs(d.attempt))
            && (!d.phase.Posting? ==> d.sleptMs == c.sleptMs)
  {
    hide ReadAll, Conclude, BackoffMs, ErrorResult;
    if a.Opened? {
      var r := ReadAll(codec, Post(c), a.chunks, a.broke);
      ReadAllKeeps(codec, Post(c), a.chunks, a.broke);
      ConcludeFacts(r.client, r.threw, a.aborted);
    }
  }

  // The back-off of the first attempts together.
  function SleptMs(attempts: nat): nat {
    if attempts == 0 then 0 else SleptMs(attempts - 1) + BackoffMs(attempts)
  }

  lemma SleptBound(attempts: nat)
    requires attempts <= MAX_RECONNECTS
    ensures SleptMs(attempts) <= 15_000
  {
    assert SleptMs(1) == 1000 && SleptMs(2) == 3000 && SleptMs(3) == 6000;
    assert SleptMs(4) == 10_000 && SleptMs(5) == 15_000;
  }

  /**
   Whatever the network does: at most 6 POSTs, at most 15 s of back-off, and the cursor counts the events the
   callback took, so it is the number of events handed over exactly if the callback never threw.
   */
  lemma {:induction false} Budget(codec: Codec, c: Client, net: nat -> Answer)
    requires c.attempt <= MAX_RECONNECTS && c.posts == c.attempt && c.cursor == Taken(codec, c.delivered)
    requires c.sleptMs == SleptMs(c.attempt)
    ensures var d := Play(codec, c, net);
            && (d.phase.Finished? || d.phase.GaveUp?)
            && d.posts <= MAX_RECONNECTS + 1
            && d.sleptMs <= 15_000
            && d.cursor == Taken(codec, d.delivered)
            && (d.cursor == |d.delivered| <==> forall i | 0 <= i < |d.delivered| :: codec.accepts(d.delivered[i]))
    decreases MAX_RECONNECTS - c.attempt
  {
    hide Answered, BackoffMs, Play, Taken;
    TakenAll(codec, Play(codec, c, net).delivered);
    var d := Answered(codec, c, net(c.attempt));
    PlayUnfold(codec, c, net);
    AnsweredFacts(codec, c, net(c.attempt));
    SleptBound(c.attempt);
    if d.phase.Posting? {
      Budget(codec, d, net);
    }
  }

  // ---- a callback that throws --------------------------------------------------

  // One line carries an event the callback throws on.
  ghost predicate Refused(codec: Codec, line: string, e: StreamEvent) {
    line != "" && Trim(line) == line && Free(line, NL) && codec.parse(line) == Framed(EventFrame(e)) && !codec.accepts(e)
  }

  lemma AnsweredRefused(codec: Codec, c: Client, line: string, e: StreamEvent)
    requires Refused(codec, line, e) && c.phase.Posting?
    ensures Answered(codec, c, Opened([line + NL], false, false))
         == Retry(Post(c).(delivered := c.delivered + [e]), "gateway stream dropped, exhausted reconnects")
  {
    hide Trim, Free, SplitAll, BackoffMs, ErrorResult;
    var text, p := line + NL, Post(c);
    assert SplitAll(text, NL) == Split([line], "") by {
      SplitOfLine(line);
    }
    assert p.buf + text == text;
    assert Route(codec, p, line) == Routed(p.(delivered := c.delivered + [e]), true);
    assert p.(buf := "") == p;
    assert Consume(codec, p, text) == Routed(p.(delivered := c.delivered + [e]), true);
    assert ReadAll(codec, p, [text], false) == Routed(p.(delivered := c.delivered + [e]), true);
  }

  lemma SplitOfLine(line: string)
    requires Free(line, NL)
    ensures SplitAll(line + NL, NL) == Split([line], "")
  {
    assert Terminated([line], NL) + "" == line + NL;
    assert Free("", NL);
    SplitOfTerminated([line], "");
  }

  lemma {:induction false} RefusedPlay(codec: Codec, c: Client, line: string, e: StreamEvent, net: nat -> Answer)
    requires Refused(codec, line, e) && c.attempt <= MAX_RECONNECTS && c.phase.Posting?
    requires forall i :: net(i) == Opened([line + NL], false, false)
    ensures var d := Play(codec, c, net);
            && d.phase.GaveUp? && d.cursor == c.cursor && |d.delivered| == |c.delivered| + 6 - c.attempt
            && forall i | |c.delivered| <= i < |d.delivered| :: d.delivered[i] == e
    ensures c.delivered <= Play(codec, c, net).delivered
    decreases MAX_RECONNECTS - c.attempt
  {
    AnsweredRefused(codec, c, line, e);
    PlayUnfold(codec, c, net);
    hide Play, Answered, Refused, BackoffMs, ErrorResult;
    var d := Answered(codec, c, net(c.attempt));
    if d.phase.Posting? {
      RefusedPlay(codec, d, line, e, net);
    }
  }

  /** A callback that throws on an event is handed that event again by every POST: six times, and the cursor never moves. */
  lemma ThrowingCallbackRepeats(codec: Codec, line: string, e: StreamEvent, net: nat -> Answer)
    requires Refused(codec, line, e) && forall i :: net(i) == Opened([line + NL], false, false)
    ensures Play(codec, Fresh, net).delivered == [e, e, e, e, e, e] && Play(codec, Fresh, net).cursor == 0
  {
    RefusedPlay(codec, Fresh, line, e, net);
    hide Play;
  }

  lemma StartsUnslept()
    ensures SleptMs(0) == 0
  {
  }

  // ---- gatewayRun ----------------------------------------------------------

  method RouteLine(codec: Codec, line: string, cursor: nat, delivered: seq<StreamEvent>, result: Option<RunResult>)
    returns (cursor': nat, delivered': seq<StreamEvent>, result': Option<RunResult>, threw: bool)
    ensures forall c: Client | c.cursor == cursor && c.delivered == delivered && c.result == result ::
              Route(codec, c, line) == Routed(c.(cursor := cursor', delivered := delivered', result := result'), threw)
  {
    cursor', delivered', result', threw := cursor, delivered, result, false;
    var trimmed := Trim(line);
    if trimmed == "" { return; }
    match codec.parse(trimmed) {
      case Malformed => return;
      case NullValue => threw := true;
      case OtherValue =>
      case Framed(EventFrame(e)) =>
        delivered' := delivered + [e];
        if !codec.accepts(e) {
          threw := true;
          return;
        }
        cursor' := cursor + 1;
      case Framed(ResultFrame(r)) =>
        result' := Some(r);
    }
  }

  // The try block around the reader: chunks are appended to `buf` and cut at newlines.
  method ReadStream(codec: Codec, ghost p: Client, chunks: seq<string>, broke: bool,
                    cursor0: nat, delivered0: seq<StreamEvent>)
    returns (cursor: nat, delivered: seq<StreamEvent>, result: Option<RunResult>, streamBroke: bool)
    requires p.cursor == cursor0 && p.delivered == delivered0 && p.buf == "" && p.result == None
    ensures var r := ReadAll(codec, p, chunks, broke);
            && r.threw == streamBroke
            && r.client == p.(cursor := cursor, delivered := delivered, result := result, buf := r.client.buf)
  {
    hide Trim, SplitAll, IndexOf, Route;
    cursor, delivered, result, streamBroke := cursor0, delivered0, None, false;
    var buf := "";
    var i := 0;
    while i < |chunks|
      invariant 0 <= i <= |chunks|
      invariant ConsumeAll(codec, p, chunks)
        == ConsumeAll(codec, p.(cursor := cursor, delivered := delivered, result := result, buf := buf), chunks[i..])
      invariant !streamBroke
    {
      assert chunks[i..][0] == chunks[i] && chunks[i..][1..] == chunks[i + 1..];
      buf := buf + chunks[i];
      ghost var split := SplitAll(buf, NL);
      ghost var routed := RouteAll(codec, p.(cursor := cursor, delivered := delivered, result := result), split.pieces);
      var idx := IndexOf(buf, NL, 0);
      while idx >= 0
        invariant idx == IndexOf(buf, NL, 0) && !streamBroke
        invariant routed == RouteAll(codec, p.(cursor := cursor, delivered := delivered, result := result),
                                     SplitAll(buf, NL).pieces)
        invariant split.rest == SplitAll(buf, NL).rest
        decreases |buf|
      {
        SplitUnfold(buf, NL);
        cursor, delivered, result, streamBroke := RouteLine(codec, buf[..idx], cursor, delivered, result);
        if streamBroke { return; }
        buf := buf[idx + 1..];
        idx := IndexOf(buf, NL, 0);
      }
      SplitUnfold(buf, NL);
      i := i + 1;
    }
    if broke {
      streamBroke := true;
    } else {
      cursor, delivered, result, streamBroke := RouteLine(codec, buf, cursor, delivered, result);
    }
  }

  // One POST and what comes of it: the call is over, or the reason to try again.
  method Attempt(codec: Codec, answer: Answer, ghost start: Client, cursor0: nat, delivered0: seq<StreamEvent>)
    returns (cursor: nat, delivered: seq<StreamEvent>, over: Option<RunResult>, reason: string, own: bool, cancels: nat)
    requires start == Client(start.attempt, cursor0, delivered0, "", None, Posting, start.posts, start.sleptMs, 0)
    ensures var d := Answered(codec, start, answer);
            var tried := start.(cursor := cursor, delivered := delivered, posts := start.posts + 1);
            match over
            case None => d == Retry(tried, reason)
            case Some(r) => d == tried.(phase := if own then Finished(r) else GaveUp(r), cancels := cancels)
  {
    hide ReadAll, BackoffMs, ErrorResult;
    cursor, delivered, over, reason, own, cancels := cursor0, delivered0, None, "", false, 0;
    match answer {
      case FetchThrew(message, aborted) =>
        if aborted {
          over, cancels := Some(ErrorResult("cancelled", "run aborted")), 1;
        } else {
          reason := message;
        }
      case Unauthorized =>
        over := Some(ErrorResult("gateway_unauthorized", "bad gateway bearer"));
      case HttpFailure(status) =>
        over := Some(ErrorResult("prompt_failed", "gateway HTTP " + status));
      case Opened(chunks, broke, aborted) =>
        var result: Option<RunResult>, streamBroke: bool;
        cursor, delivered, result, streamBroke := ReadStream(codec, Post(start), chunks, broke, cursor, delivered);
        if streamBroke && aborted {
          over, cancels := Some(ErrorResult("cancelled", "run aborted")), 1;
        } else if result.Some? {
          over, own := result, true;
        } else if aborted {
          over, cancels := Some(ErrorResult("cancelled", "run aborted")), 1;
        } else {
          reason := if streamBroke then "gateway stream dropped, exhausted reconnects"
                    else "gateway closed without a result line";
        }
    }
  }

  /** The call with its reconnect loop computes Play. */
  method GatewayRun(codec: Codec, net: nat -> Answer)
    returns (run: Client)
    ensures run == Play(codec, Fresh, net)
    ensures run.phase.Finished? || run.phase.GaveUp?
    ensures run.posts <= MAX_RECONNECTS + 1 && run.sleptMs <= 15_000 && run.cursor == Taken(codec, run.delivered)
  {
    hide Answered, Play, BackoffMs, ErrorResult, SleptMs;
    StartsUnslept();
    Budget(codec, Fresh, net);
    var cursor: nat, attempt: nat := 0, 0;
    var delivered: seq<StreamEvent> := [];
    var posts: nat, sleptMs: nat := 0, 0;
    while true
      invariant attempt <= MAX_RECONNECTS
      invariant Play(codec, Client(attempt, cursor, delivered, "", None, Posting, posts, sleptMs, 0), net)
             == Play(codec, Fresh, net)
      decreases MAX_RECONNECTS - attempt
    {
      ghost var start := Client(attempt, cursor, delivered, "", None, Posting, posts, sleptMs, 0);
      PlayUnfold(codec, start, net);
      var over: Option<RunResult>, reason: string, own: bool, cancels: nat;
      cursor, delivered, over, reason, own, cancels := Attempt(codec, net(attempt), start, cursor, delivered);
      posts := posts + 1;
      if over.Some? {
        return Client(attempt, cursor, delivered, "", None, if own then Finished(over.value) else GaveUp(over.value),
                      posts, sleptMs, cancels);
      }
      attempt := attempt + 1;
      if attempt - 1 < MAX_RECONNECTS {
        sleptMs := sleptMs + BackoffMs(attempt);
        continue;
      }
      return Client(attempt, cursor, delivered, "", None,
                    GaveUp(ErrorResult("gateway_unreachable", reason)), posts, sleptMs, 0);
    }
  }
}
