/** What a chat reply comes to, told from its payloads, and which payloads frames of several lines carry. */
module ChatOutcomes {
  import opened Text
  import opened Framing
  import opened ChatStream

  // ---- what the payloads come to -----------------------------------------------

  // The first n payloads are read without a throw, and the next one, if any, throws.
  predicate ReadUpTo(payloads: seq<string>, parse: string -> Parsed, n: nat) {
    && n <= |payloads| && (forall i | 0 <= i < n :: !parse(payloads[i]).Throws?)
    && (n < |payloads| ==> parse(payloads[n]).Throws?)
  }

  // The texts of the first n payloads, in order, without empty ones.
  function Texts(payloads: seq<string>, parse: string -> Parsed, n: nat): seq<string>
    requires n <= |payloads|
  {
    if n == 0 then []
    else
      var c := parse(payloads[n - 1]);
      Texts(payloads, parse, n - 1) + if c.Chunk? && c.delta != "" then [c.delta] else []
  }

  predicate Reports(payload: string, parse: string -> Parsed) {
    parse(payload).Chunk? && parse(payload).usage.Some?
  }

  // The usage reported last by the first n payloads.
  ghost predicate LastUsage(payloads: seq<string>, parse: string -> Parsed, n: nat, usage: Option<Usage>)
    requires n <= |payloads|
  {
    match usage
    case None => forall i | 0 <= i < n :: !Reports(payloads[i], parse)
    case Some(_) =>
      exists i :: 0 <= i < n && Reports(payloads[i], parse) && parse(payloads[i]).usage == usage
                  && forall j | i < j < n :: !Reports(payloads[j], parse)
  }

  lemma RunLast(payloads: seq<string>, parse: string -> Parsed, n: nat)
    requires 0 < n <= |payloads|
    ensures Run(START, payloads[..n], parse) == Apply(Run(START, payloads[..n - 1], parse), parse(payloads[n - 1]))
  {
    assert payloads[..n] == payloads[..n - 1] + [payloads[n - 1]];
    RunAppend(START, payloads[..n - 1], [payloads[n - 1]], parse);
    var p := Run(START, payloads[..n - 1], parse);
    assert [payloads[n - 1]][1..] == [];
    assert Run(Apply(p, parse(payloads[n - 1])), [], parse) == Apply(p, parse(payloads[n - 1]));
  }

  lemma {:induction false} PrefixMeans(payloads: seq<string>, parse: string -> Parsed, n: nat)
    requires n <= |payloads| && forall i | 0 <= i < n :: !parse(payloads[i]).Throws?
    ensures var p := Run(START, payloads[..n], parse);
            && !p.thrown && p.deltas == Texts(payloads, parse, n) && LastUsage(payloads, parse, n, p.usage)
  {
    if n > 0 {
      PrefixMeans(payloads, parse, n - 1);
      RunLast(payloads, parse, n);
      var p, q := Run(START, payloads[..n - 1], parse), Run(START, payloads[..n], parse);
      hide Run;
      assert p.deltas + [] == p.deltas;
      if Reports(payloads[n - 1], parse) {
        assert q.usage == parse(payloads[n - 1]).usage;
      } else if p.usage.Some? {
        var i :| 0 <= i < n - 1 && Reports(payloads[i], parse) && parse(payloads[i]).usage == p.usage
                 && forall j | i < j < n - 1 :: !Reports(payloads[j], parse);
        assert forall j | i < j < n :: !Reports(payloads[j], parse);
      }
    }
  }

  /**
   A reply, whatever it says: the texts up to the first payload that throws, with the usage reported last before it. It
   is complete unless something threw; then it is cancelled if the caller had aborted, and an invalid response otherwise,
   except that a failure without a message passes.
   */
  lemma ReplyMeans(payloads: seq<string>, end: Ending, parse: string -> Parsed, n: nat)
    requires ReadUpTo(payloads, parse, n)
    ensures var p := Run(START, payloads, parse);
            && p.deltas == Texts(payloads, parse, n) && LastUsage(payloads, parse, n, p.usage) && (p.thrown <==> n < |payloads|)
            && var text, usage, r := Concat(Texts(payloads, parse, n)), p.usage, Conclude(p, end);
            && (n == |payloads| && end.failure.None? ==> r == Completed(text, usage))
            && (n < |payloads| || end.failure.Some? ==>
                  && (end.aborted ==> r == Cancelled(text, usage))
                  && (!end.aborted && (n < |payloads| || end.failure.value != "") ==> r == InvalidResponse(text, usage))
                  && (!end.aborted && n == |payloads| && end.failure.value == "" ==> r == Completed(text, usage)))
  {
    PrefixMeans(payloads, parse, n);
    if n < |payloads| {
      RunLast(payloads, parse, n + 1);
      var p := Run(START, payloads[..n + 1], parse);
      assert payloads == payloads[..n + 1] + payloads[n + 1..];
      RunAppend(START, payloads[..n + 1], payloads[n + 1..], parse);
      ThrownStays(p, payloads[n + 1..], parse);
    } else {
      assert payloads[..n] == payloads;
    }
    hide Run, Texts, LastUsage, Concat;
  }

  // ---- frames of several lines -------------------------------------------------

  // A payload on one line, trimmed and not blank; `[DONE]` is one.
  ghost predicate Printable(payload: string) {
    payload != "" && Trim(payload) == payload && forall i | 0 <= i < |payload| :: payload[i] != '\n'
  }

  function LineOf(payload: string): (line: string)
    ensures |line| > 0 && line[0] == 'd'
  {
    DATA + " " + payload
  }

  // A frame with one data line for each payload.
  function Frame(payloads: seq<string>): string
    requires payloads != []
  {
    if |payloads| == 1 then LineOf(payloads[0]) else LineOf(payloads[0]) + NL + Frame(payloads[1..])
  }

  ghost predicate WellSpaced(text: string) {
    && text != "" && text[0] != '\n' && text[|text| - 1] != '\n'
    && forall i | 0 <= i < |text| - 1 :: !(text[i] == '\n' && text[i + 1] == '\n')
  }

  lemma LineIsSpaced(payload: string)
    requires Printable(payload)
    ensures var l := LineOf(payload); WellSpaced(l) && forall i | 0 <= i < |l| :: l[i] != '\n'
  {
    hide Trim;
  }

  lemma JoinIsSpaced(a: string, b: string)
    requires WellSpaced(a) && WellSpaced(b)
    ensures WellSpaced(a + NL + b)
  {
    var t := a + NL + b;
    assert forall i | 0 <= i < |t| :: t[i] == if i < |a| then a[i] else if i == |a| then '\n' else b[i - |a| - 1];
  }

  lemma {:induction false} FrameIsSpaced(payloads: seq<string>)
    requires payloads != [] && forall p | p in payloads :: Printable(p)
    ensures WellSpaced(Frame(payloads))
  {
    LineIsSpaced(payloads[0]);
    if |payloads| > 1 {
      FrameIsSpaced(payloads[1..]);
      JoinIsSpaced(LineOf(payloads[0]), Frame(payloads[1..]));
    }
  }

  lemma NewlinesAt(s: string, i: nat)
    ensures OccursAt(s, NL, i) <==> i < |s| && s[i] == '\n'
    ensures OccursAt(s, BLANK_LINE, i) <==> i + 1 < |s| && s[i] == '\n' && s[i + 1] == '\n'
  {
    assert i < |s| ==> s[i..i + 1] == [s[i]];
    assert i + 1 < |s| ==> s[i..i + 2] == [s[i], s[i + 1]];
  }

  lemma SpacedIsLeftmost(piece: string, more: string)
    requires WellSpaced(piece)
    ensures IndexOf(piece + BLANK_LINE + more, BLANK_LINE, 0) == |piece|
  {
    var s := piece + BLANK_LINE + more;
    assert forall i | 0 <= i < |piece| :: s[i] == piece[i];
    assert s[|piece|] == '\n' && s[|piece| + 1] == '\n';
    forall i: nat ensures OccursAt(s, BLANK_LINE, i) <==> i + 1 < |s| && s[i] == '\n' && s[i + 1] == '\n' {
      NewlinesAt(s, i);
    }
    hide OccursAt;
  }

  lemma NoNewlineHere(line: string)
    requires forall i | 0 <= i < |line| :: line[i] != '\n'
    ensures Free(line, NL)
  {
    forall i: nat | i <= |line| ensures !OccursAt(line, NL, i) {
      NewlinesAt(line, i);
    }
  }

  lemma {:induction false} FrameLines(payloads: seq<string>)
    requires payloads != [] && forall p | p in payloads :: Printable(p)
    ensures LinesOf(Frame(payloads)) == Written(payloads)
  {
    var line := LineOf(payloads[0]);
    LineIsSpaced(payloads[0]);
    NoNewlineHere(line);
    if |payloads| == 1 {
      assert Terminated([], NL) + line == line;
      SplitOfTerminated([], line);
      assert Written(payloads) == [line] by { assert payloads[1..] == []; }
    } else {
      var more := Frame(payloads[1..]);
      var s := SplitAll(more, NL);
      FrameLines(payloads[1..]);
      SplitIsFaithful(more, NL);
      assert Terminated([line] + s.pieces, NL) + s.rest == line + NL + more by {
        assert ([line] + s.pieces)[1..] == s.pieces;
      }
      SplitOfTerminated([line] + s.pieces, s.rest);
      assert [line] + s.pieces + [s.rest] == [line] + (s.pieces + [s.rest]);
    }
  }

  lemma PrintedCarries(payload: string)
    requires Printable(payload)
    ensures var l := LineOf(payload); Carries(l) && Trim(l[|DATA|..]) == payload
  {
    var line := LineOf(payload);
    assert line[|DATA|..] == " " + payload && DATA <= line;
    TrimLeadingSpace(payload);
    hide Trim;
  }

  lemma {:induction false} FrameCarries(payloads: seq<string>)
    requires forall p | p in payloads :: Printable(p)
    ensures DataLines(Written(payloads)) == payloads
  {
    hide Trim, Printable, Carries;
    if payloads != [] {
      PrintedCarries(payloads[0]);
      FrameCarries(payloads[1..]);
      assert Written(payloads)[0] == LineOf(payloads[0]) && Written(payloads)[1..] == Written(payloads[1..]);
      assert DataLines(Written(payloads)) == [payloads[0]] + payloads[1..];
    }
  }

  // The first `[DONE]` of a frame is at k, or there is none and k is its length.
  predicate DoneAt(payloads: seq<string>, k: nat) {
    k <= |payloads| && (forall i | 0 <= i < k :: payloads[i] != DONE) && (k < |payloads| ==> payloads[k] == DONE)
  }

  lemma {:induction false} DoneCuts(payloads: seq<string>, k: nat)
    requires DoneAt(payloads, k)
    ensures BeforeDone(payloads) == payloads[..k]
  {
    if k > 0 {
      DoneCuts(payloads[1..], k - 1);
      assert payloads[..k] == [payloads[0]] + payloads[1..][..k - 1];
    }
  }

  function Frames(frames: seq<seq<string>>): seq<string>
    requires forall i | 0 <= i < |frames| :: frames[i] != []
  {
    if frames == [] then [] else [Frame(frames[0])] + Frames(frames[1..])
  }

  // Of each frame the payloads before its own end.
  function Kept(frames: seq<seq<string>>, cuts: seq<nat>): seq<string>
    requires |cuts| == |frames| && forall i | 0 <= i < |frames| :: DoneAt(frames[i], cuts[i])
  {
    if frames == [] then []
    else
      assert DoneAt(frames[0], cuts[0]);
      frames[0][..cuts[0]] + Kept(frames[1..], cuts[1..])
  }

  /** Frames of several data lines are read up to their own `[DONE]`, which ends no other frame; an unterminated tail counts for nothing. */
  lemma {:induction false} FramesRead(frames: seq<seq<string>>, cuts: seq<nat>, tail: string)
    requires |cuts| == |frames|
    requires forall i | 0 <= i < |frames| :: frames[i] != [] && forall p | p in frames[i] :: Printable(p)
    requires forall i | 0 <= i < |frames| :: DoneAt(frames[i], cuts[i])
    requires Free(tail, BLANK_LINE)
    ensures Payloads(Terminated(Frames(frames), BLANK_LINE) + tail) == Kept(frames, cuts)
    decreases |frames|
  {
    hide IndexOf, SplitAll, LinesOf, DataLines, BeforeDone, Printable, Frame;
    var text := Terminated(Frames(frames), BLANK_LINE) + tail;
    SplitUnfold(text, BLANK_LINE);
    if frames == [] {
      assert text == tail;
      assert IndexOf(text, BLANK_LINE, 0) < 0;
    } else {
      var piece, more := Frame(frames[0]), Terminated(Frames(frames[1..]), BLANK_LINE) + tail;
      assert text == piece + BLANK_LINE + more;
      FrameIsSpaced(frames[0]);
      SpacedIsLeftmost(piece, more);
      assert text[..|piece|] == piece && text[|piece| + 2..] == more;
      FrameLines(frames[0]);
      FrameCarries(frames[0]);
      DoneCuts(frames[0], cuts[0]);
      FramesRead(frames[1..], cuts[1..], tail);
      assert SplitAll(text, BLANK_LINE).pieces[0] == piece;
      assert SplitAll(text, BLANK_LINE).pieces[1..] == SplitAll(more, BLANK_LINE).pieces;
    }
  }
}
