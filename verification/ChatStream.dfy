/** The Hermes adapter's reader of an event stream: blank-line frames, `data:` lines, `[DONE]`. */
module ChatStream {
  import opened Text
  import opened Framing

  const BLANK_LINE: string := "\n\n"
  const DATA: string := "data:"
  const DONE: string := "[DONE]"

  datatype Usage = Usage(tokensIn: nat, tokensOut: nat, cachedTokensIn: nat)

  // What a payload gives: not JSON, a value whose property access throws (null),
  // or a chunk with its usage and the text of its first choice, if any.
  datatype Parsed = Malformed | Throws | Chunk(usage: Option<Usage>, delta: string)

  // The deltas passed on so far, the latest usage, and whether reading has thrown.
  datatype Progress = Progress(deltas: seq<string>, usage: Option<Usage>, thrown: bool)

  const START := Progress([], None, false)

  // How the reads end, and whether the caller had aborted by the time an exception is caught.
  datatype Ending = Ending(failure: Option<string>, aborted: bool)
  datatype Outcome =
    | Completed(reply: string, usage: Option<Usage>)
    | Cancelled(partial: string, usage: Option<Usage>)
    | InvalidResponse(partial: string, usage: Option<Usage>)

  // ---- what a text says --------------------------------------------------------

  function LinesOf(frame: string): (lines: seq<string>)
    ensures |lines| > 0
  {
    SplitAll(frame, NL).pieces + [SplitAll(frame, NL).rest]
  }

  predicate Carries(line: string) {
    DATA <= line && Trim(line[|DATA|..]) != ""
  }

  function DataLines(lines: seq<string>): seq<string> {
    if lines == [] then []
    else (if Carries(lines[0]) then [Trim(lines[0][|DATA|..])] else []) + DataLines(lines[1..])
  }

  function BeforeDone(payloads: seq<string>): seq<string> {
    if payloads == [] || payloads[0] == DONE then [] else [payloads[0]] + BeforeDone(payloads[1..])
  }

  // `[DONE]` ends its own frame only.
  function PayloadsOf(frames: seq<string>): seq<string> {
    if frames == [] then [] else BeforeDone(DataLines(LinesOf(frames[0]))) + PayloadsOf(frames[1..])
  }

  // The payloads of a whole text; a frame that no blank line ends does not count.
  function Payloads(text: string): seq<string> {
    PayloadsOf(SplitAll(text, BLANK_LINE).pieces)
  }

  function Apply(p: Progress, parsed: Parsed): Progress {
    if p.thrown then p
    else match parsed
      case Malformed => p
      case Throws => p.(thrown := true)
      case Chunk(usage, delta) =>
        Progress(if delta == "" then p.deltas else p.deltas + [delta], if usage.Some? then usage else p.usage, false)
  }

  function Run(p: Progress, payloads: seq<string>, parse: string -> Parsed): Progress
    decreases |payloads|
  {
    if payloads == [] then p else Run(Apply(p, parse(payloads[0])), payloads[1..], parse)
  }

  function Conclude(p: Progress, end: Ending): Outcome {
    if p.thrown || end.failure.Some? then
      if end.aborted then Cancelled(Concat(p.deltas), p.usage)
      else if p.thrown || end.failure.value != "" then InvalidResponse(Concat(p.deltas), p.usage)
      else Completed(Concat(p.deltas), p.usage)
    else Completed(Concat(p.deltas), p.usage)
  }

  lemma {:induction false} RunAppend(p: Progress, a: seq<string>, b: seq<string>, parse: string -> Parsed)
    ensures Run(p, a + b, parse) == Run(Run(p, a, parse), b, parse)
    decreases |a|
  {
    if a == [] {
      assert a + b == b;
    } else {
      assert (a + b)[1..] == a[1..] + b;
      RunAppend(Apply(p, parse(a[0])), a[1..], b, parse);
    }
  }

  lemma {:induction false} ThrownStays(p: Progress, payloads: seq<string>, parse: string -> Parsed)
    requires p.thrown
    ensures Run(p, payloads, parse) == p
    decreases |payloads|
  {
    if payloads != [] {
      ThrownStays(p, payloads[1..], parse);
    }
  }

  lemma {:induction false} PayloadsAppend(a: seq<string>, b: seq<string>)
    ensures PayloadsOf(a + b) == PayloadsOf(a) + PayloadsOf(b)
    decreases |a|
  {
    hide LinesOf, DataLines, BeforeDone;
    if a == [] {
      assert a + b == b;
    } else {
      assert (a + b)[1..] == a[1..] + b;
      PayloadsAppend(a[1..], b);
    }
  }

  // ---- the reader --------------------------------------------------------------

  lemma NoDataLines()
    ensures DataLines([]) == []
  {
  }

  lemma DataLinesAt(lines: seq<string>, i: nat)
    requires i < |lines|
    ensures DataLines(lines[i..])
         == if Carries(lines[i]) then [Trim(lines[i][|DATA|..])] + DataLines(lines[i + 1..]) else DataLines(lines[i + 1..])
  {
    assert lines[i..][0] == lines[i] && lines[i..][1..] == lines[i + 1..];
    hide Trim;
  }

  method HandleFrame(p: Progress, frame: string, parse: string -> Parsed) returns (q: Progress)
    requires !p.thrown
    ensures q == Run(p, BeforeDone(DataLines(LinesOf(frame))), parse)
  {
    NoDataLines();
    hide LinesOf, Trim, DataLines;
    var lines := LinesOf(frame);
    q := p;
    var i := 0;
    while i < |lines|
      invariant i <= |lines| && !q.thrown
      invariant Run(p, BeforeDone(DataLines(lines)), parse) == Run(q, BeforeDone(DataLines(lines[i..])), parse)
    {
      var line := lines[i];
      DataLinesAt(lines, i);
      i := i + 1;
      if !(DATA <= line) { continue; }
      var payload := Trim(line[|DATA|..]);
      if payload == "" { continue; }
      assert Carries(line);
      assert DataLines(lines[i - 1..]) == [payload] + DataLines(lines[i..]);
      if payload == DONE {
        assert BeforeDone([payload] + DataLines(lines[i..])) == [];
        return;
      }
      assert BeforeDone([payload] + DataLines(lines[i..])) == [payload] + BeforeDone(DataLines(lines[i..]));
      var chunk := parse(payload);
      if chunk.Throws? {
        ThrownStays(q.(thrown := true), BeforeDone(DataLines(lines[i..])), parse);
        q := q.(thrown := true);
        return;
      }
      if chunk.Chunk? {
        if chunk.usage.Some? {
          q := q.(usage := chunk.usage);
        }
        if chunk.delta != "" {
          q := q.(deltas := q.deltas + [chunk.delta]);
        }
      }
    }
    assert lines[i..] == [];
    assert BeforeDone(DataLines(lines[i..])) == [];
  }

  // Later reads only add frames.
  lemma {:induction false} FeedPrefix(parts: seq<string>, k: nat)
    requires k <= |parts|
    ensures FeedAll(parts[..k], BLANK_LINE).pieces <= FeedAll(parts, BLANK_LINE).pieces
    decreases |parts|
  {
    hide SplitAll;
    if k == |parts| {
      assert parts[..k] == parts;
    } else {
      FeedPrefix(parts[..|parts| - 1], k);
      assert parts[..|parts| - 1][..k] == parts[..k];
    }
  }

  // Frames after one that throws do not matter.
  lemma ThrownDecides(p: Progress, frames: seq<string>, all: seq<string>, parse: string -> Parsed)
    requires frames <= all && p == Run(START, PayloadsOf(frames), parse) && p.thrown
    ensures Run(START, PayloadsOf(all), parse) == p
  {
    var rest := all[|frames|..];
    assert all == frames + rest;
    PayloadsAppend(frames, rest);
    RunAppend(START, PayloadsOf(frames), PayloadsOf(rest), parse);
    ThrownStays(p, PayloadsOf(rest), parse);
  }

  lemma OneMoreFrame(p: Progress, frames: seq<string>, frame: string, q: Progress, parse: string -> Parsed)
    requires p == Run(START, PayloadsOf(frames), parse) && q == Run(p, BeforeDone(DataLines(LinesOf(frame))), parse)
    ensures q == Run(START, PayloadsOf(frames + [frame]), parse)
  {
    PayloadsAppend(frames, [frame]);
    assert PayloadsOf([frame]) == BeforeDone(DataLines(LinesOf(frame))) by {
      assert [frame][1..] == [];
    }
    RunAppend(START, PayloadsOf(frames), PayloadsOf([frame]), parse);
  }

  // All frames of one read, from the buffer that holds it.
  method HandleRead(p: Progress, held: string, ghost before: seq<string>, parse: string -> Parsed)
    returns (q: Progress, buf: string, ghost done: seq<string>)
    requires !p.thrown && p == Run(START, PayloadsOf(before), parse)
    ensures q == Run(START, PayloadsOf(before + done), parse) && done <= SplitAll(held, BLANK_LINE).pieces
    ensures !q.thrown ==> SplitAll(held, BLANK_LINE) == Split(done, buf)
  {
    hide SplitAll, PayloadsOf, Run, DataLines, BeforeDone, LinesOf, IndexOf;
    q, buf, done := p, held, [];
    assert before + done == before;
    var sep := IndexOf(buf, BLANK_LINE, 0);
    while sep >= 0
      invariant sep == IndexOf(buf, BLANK_LINE, 0) && !q.thrown
      invariant SplitAll(held, BLANK_LINE) == Split(done + SplitAll(buf, BLANK_LINE).pieces, SplitAll(buf, BLANK_LINE).rest)
      invariant q == Run(START, PayloadsOf(before + done), parse)
      decreases |buf|
    {
      SplitUnfold(buf, BLANK_LINE);
      var frame := buf[..sep];
      ghost var p1, frames := q, before + done;
      done := done + [frame];
      buf := buf[sep + 2..];
      q := HandleFrame(q, frame, parse);
      OneMoreFrame(p1, frames, frame, q, parse);
      assert before + done == frames + [frame];
      if q.thrown { return; }
      sep := IndexOf(buf, BLANK_LINE, 0);
    }
    SplitUnfold(buf, BLANK_LINE);
  }

  /** However the text is cut into reads, the outcome is that of the whole text's payloads. */
  method StreamChat(parts: seq<string>, end: Ending, parse: string -> Parsed) returns (r: Outcome, deltas: seq<string>)
    ensures var p := Run(START, Payloads(Concat(parts)), parse);
            r == Conclude(p, end) && deltas == p.deltas
  {
    hide SplitAll, PayloadsOf, Concat, Run;
    ChunkingIndependent(parts, BLANK_LINE);
    StartsEmpty(parse);
    var p, buf, k := START, "", 0;
    while k < |parts|
      invariant k <= |parts| && !p.thrown
      invariant buf == FeedAll(parts[..k], BLANK_LINE).rest
      invariant p == Run(START, PayloadsOf(FeedAll(parts[..k], BLANK_LINE).pieces), parse)
    {
      ghost var before, done: seq<string> := FeedAll(parts[..k], BLANK_LINE), [];
      assert parts[..k + 1][..k] == parts[..k];
      ghost var now := SplitAll(before.rest + parts[k], BLANK_LINE);
      assert FeedAll(parts[..k + 1], BLANK_LINE) == Split(before.pieces + now.pieces, now.rest);
      buf := buf + parts[k];
      p, buf, done := HandleRead(p, buf, before.pieces, parse);
      k := k + 1;
      if p.thrown {
        FeedPrefix(parts, k);
        assert before.pieces + done <= before.pieces + now.pieces;
        ThrownDecides(p, before.pieces + done, FeedAll(parts, BLANK_LINE).pieces, parse);
        break;
      }
    }
    assert parts[..|parts|] == parts;
    r, deltas := Conclude(p, end), p.deltas;
  }

  lemma StartsEmpty(parse: string -> Parsed)
    ensures Run(START, PayloadsOf([]), parse) == START
  {
  }

  // ---- a stream as a server writes it ------------------------------------------

  function Written(payloads: seq<string>): seq<string> {
    if payloads == [] then [] else [DATA + " " + payloads[0]] + Written(payloads[1..])
  }

  // A payload on one line, trimmed and not blank.
  ghost predicate Sendable(payload: string) {
    payload != "" && Trim(payload) == payload && payload != DONE && forall i | 0 <= i < |payload| :: payload[i] != '\n'
  }

  lemma FrameIsLeftmost(piece: string, more: string)
    requires forall i | 0 <= i < |piece| :: piece[i] != '\n'
    ensures IndexOf(piece + BLANK_LINE + more, BLANK_LINE, 0) == |piece|
    ensures IndexOf(piece, NL, 0) < 0
  {
    var s := piece + BLANK_LINE + more;
    assert OccursAt(s, BLANK_LINE, |piece|);
    forall j: nat | j < |piece| ensures !OccursAt(s, BLANK_LINE, j) {
      if j + 2 <= |s| { assert s[j..j + 2][0] == s[j] == piece[j]; }
    }
    forall j: nat ensures !OccursAt(piece, NL, j) {
      if j + 1 <= |piece| { assert piece[j..j + 1][0] == piece[j]; }
    }
  }

  lemma LineCarries(payload: string)
    requires Sendable(payload)
    ensures BeforeDone(DataLines(LinesOf(DATA + " " + payload))) == [payload]
  {
    var line := DATA + " " + payload;
    OnOneLine(payload);
    FrameIsLeftmost(line, "");
    assert LinesOf(line) == [line] by {
      SplitUnfold(line, NL);
      hide SplitAll, IndexOf;
    }
    hide SplitAll, IndexOf, LinesOf;
    assert line[|DATA|..] == " " + payload;
    TrimLeadingSpace(payload);
    assert DataLines([line]) == [payload] by {
      assert [line][1..] == [];
    }
  }

  lemma TrimLeadingSpace(s: string)
    ensures Trim(" " + s) == Trim(s)
  {
    var t := " " + s;
    assert IsSpace(' ');
    hide IsSpace;
    var lo := SkipSpace(s, 0);
    var hi := SkipSpaceBack(s, lo, |s|);
    assert forall k | 0 < k < |t| :: t[k] == s[k - 1];
    SkipSpaceIs(t, 0, lo + 1);
    SkipSpaceBackIs(t, lo + 1, |t|, hi + 1);
    assert t[lo + 1..hi + 1] == s[lo..hi];
  }

  lemma OnOneLine(payload: string)
    requires Sendable(payload)
    ensures var line := DATA + " " + payload; forall i | 0 <= i < |line| :: line[i] != '\n'
  {
  }

  /** What a server sends, payload by payload, is what is read; an unterminated tail counts for nothing. */
  lemma {:induction false} WrittenStreamReads(payloads: seq<string>, tail: string)
    requires forall p | p in payloads :: Sendable(p)
    requires Free(tail, BLANK_LINE)
    ensures Payloads(Terminated(Written(payloads), BLANK_LINE) + tail) == payloads
    decreases |payloads|
  {
    hide IndexOf, Trim, SplitAll, BeforeDone, DataLines, LinesOf, Sendable;
    var text := Terminated(Written(payloads), BLANK_LINE) + tail;
    SplitUnfold(text, BLANK_LINE);
    if payloads == [] {
      assert text == tail;
      assert IndexOf(text, BLANK_LINE, 0) < 0;
    } else {
      var piece := DATA + " " + payloads[0];
      var more := Terminated(Written(payloads[1..]), BLANK_LINE) + tail;
      assert payloads[0] in payloads;
      assert text == piece + BLANK_LINE + more;
      OnOneLine(payloads[0]);
      FrameIsLeftmost(piece, more);
      assert text[..|piece|] == piece && text[|piece| + 2..] == more;
      LineCarries(payloads[0]);
      WrittenStreamReads(payloads[1..], tail);
      assert SplitAll(text, BLANK_LINE).pieces[0] == piece;
      assert SplitAll(text, BLANK_LINE).pieces[1..] == SplitAll(more, BLANK_LINE).pieces;
    }
  }
}
