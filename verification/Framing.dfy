/**
 Stream reassembly: cutting a text that arrives in chunks at a separator.
 The gateways cut the CLI's stdout at newlines and the Hermes adapter cuts an
 event stream at blank lines; both keep an unterminated tail in a buffer.
 */
module Framing {
  import opened Text

  // The complete pieces of a text and the unterminated tail after the last separator.
  datatype Split = Split(pieces: seq<string>, rest: string)

  function SplitAll(text: string, sep: string): (r: Split)
    requires sep != ""
    decreases |text|
  {
    var i := IndexOf(text, sep, 0);
    if i < 0 then Split([], text)
    else
      var tail := SplitAll(text[i + |sep|..], sep);
      Split([text[..i]] + tail.pieces, tail.rest)
  }

  // Writing the pieces back, each followed by its separator.
  function Terminated(pieces: seq<string>, sep: string): string {
    if pieces == [] then "" else pieces[0] + sep + Terminated(pieces[1..], sep)
  }

  predicate Free(s: string, sep: string) {
    forall i: nat | i <= |s| :: !OccursAt(s, sep, i)
  }

  lemma SplitUnfold(text: string, sep: string)
    requires sep != ""
    ensures var i := IndexOf(text, sep, 0);
            if i < 0 then SplitAll(text, sep) == Split([], text)
            else
              var tail := SplitAll(text[i + |sep|..], sep);
              SplitAll(text, sep) == Split([text[..i]] + tail.pieces, tail.rest)
  {
    hide IndexOf;
  }

  // Splitting loses nothing, and no piece and no tail hides a separator.
  lemma {:induction false} SplitIsFaithful(text: string, sep: string)
    requires sep != ""
    ensures var s := SplitAll(text, sep);
            && text == Terminated(s.pieces, sep) + s.rest
            && Free(s.rest, sep)
            && forall p | p in s.pieces :: Free(p, sep)
    decreases |text|
  {
    hide IndexOf, SplitAll;
    SplitUnfold(text, sep);
    var i := IndexOf(text, sep, 0);
    if i < 0 {
    } else {
      SplitIsFaithful(text[i + |sep|..], sep);
      var pieces, tail := SplitAll(text, sep).pieces, SplitAll(text[i + |sep|..], sep);
      assert pieces[0] == text[..i] && pieces[1..] == tail.pieces;
      calc {
        text;
        text[..i] + text[i..i + |sep|] + text[i + |sep|..];
        pieces[0] + sep + (Terminated(tail.pieces, sep) + tail.rest);
        pieces[0] + sep + Terminated(tail.pieces, sep) + tail.rest;
      }
      PrefixIsFree(text, sep, i);
    }
  }

  lemma PrefixIsFree(text: string, sep: string, i: nat)
    requires i <= |text| && forall j: nat | j < i :: !OccursAt(text, sep, j)
    requires sep != ""
    ensures Free(text[..i], sep)
  {
    forall j: nat | j <= i ensures !OccursAt(text[..i], sep, j) {
      if OccursAt(text[..i], sep, j) {
        assert text[..i][j..j + |sep|] == text[j..j + |sep|];
        assert OccursAt(text, sep, j);
      }
    }
  }

  // Splitting is the only way to cut a text into newline-free lines.
  lemma {:induction false} SplitOfTerminated(lines: seq<string>, rest: string)
    requires forall l | l in lines :: Free(l, NL)
    requires Free(rest, NL)
    ensures SplitAll(Terminated(lines, NL) + rest, NL) == Split(lines, rest)
  {
    if lines == [] {
      assert Terminated(lines, NL) + rest == rest;
    } else {
      var text := Terminated(lines, NL) + rest;
      var more := Terminated(lines[1..], NL) + rest;
      assert text == lines[0] + NL + more;
      assert lines[0] in lines && text[..|lines[0]|] == lines[0];
      assert OccursAt(text, NL, |lines[0]|);
      LeftmostIs(text, NL, |lines[0]|);
      assert text[|lines[0]| + 1..] == more;
      assert text[..|lines[0]|] == lines[0];
      SplitOfTerminated(lines[1..], rest);
    }
  }

  // An occurrence whose prefix holds no newline is the one indexOf reports.
  lemma LeftmostIs(text: string, sep: string, i: nat)
    requires |sep| == 1 && OccursAt(text, sep, i) && Free(text[..i], sep)
    ensures IndexOf(text, sep, 0) == i
  {
    var r := IndexOf(text, sep, 0);
    if 0 <= r < i {
      assert text[..i][r..r + 1] == text[r..r + 1];
      assert OccursAt(text[..i], sep, r);
    }
  }

  /** Text that arrives later never changes the pieces already cut off. */
  lemma {:induction false} SplitAppend(a: string, b: string, sep: string)
    requires sep != ""
    ensures var s := SplitAll(a, sep);
            var t := SplitAll(s.rest + b, sep);
            SplitAll(a + b, sep) == Split(s.pieces + t.pieces, t.rest)
    decreases |a|
  {
    hide IndexOf;
    var i := IndexOf(a, sep, 0);
    if i < 0 {
      assert SplitAll(a, sep).pieces + SplitAll(a + b, sep).pieces == SplitAll(a + b, sep).pieces;
    } else {
      IndexOfAppend(a, b, sep);
      assert (a + b)[..i] == a[..i];
      assert (a + b)[i + |sep|..] == a[i + |sep|..] + b;
      SplitAppend(a[i + |sep|..], b, sep);
      var s := SplitAll(a, sep);
      var s1 := SplitAll(a[i + |sep|..], sep);
      var t := SplitAll(s.rest + b, sep);
      assert [a[..i]] + (s1.pieces + t.pieces) == s.pieces + t.pieces;
    }
  }

  // The buffer and the pieces cut off so far after feeding chunks one by one.
  function FeedAll(chunks: seq<string>, sep: string): Split
    requires sep != ""
  {
    if chunks == [] then Split([], "")
    else
      var before := FeedAll(chunks[..|chunks| - 1], sep);
      var now := SplitAll(before.rest + chunks[|chunks| - 1], sep);
      Split(before.pieces + now.pieces, now.rest)
  }

  /** However a text is cut into chunks, the pieces are those of the whole text. */
  lemma {:induction false} ChunkingIndependent(chunks: seq<string>, sep: string)
    requires sep != ""
    ensures FeedAll(chunks, sep) == SplitAll(Concat(chunks), sep)
  {
    if chunks == [] {
      assert IndexOf("", sep, 0) < 0;
    } else {
      var init, last := chunks[..|chunks| - 1], chunks[|chunks| - 1];
      ChunkingIndependent(init, sep);
      assert chunks == init + [last];
      ConcatSnoc(init, last);
      SplitAppend(Concat(init), last, sep);
    }
  }

  // What routeLine hands to JSON.parse: the trimmed lines that are not blank.
  function Routable(lines: seq<string>): seq<string> {
    if lines == [] then []
    else (if Trim(lines[0]) == "" then [] else [Trim(lines[0])]) + Routable(lines[1..])
  }

  lemma RoutableAppend(a: seq<string>, b: seq<string>)
    ensures Routable([]) == []
    ensures Routable(a + b) == Routable(a) + Routable(b)
  {
    if a == [] {
      assert a + b == b;
    } else {
      assert (a + b)[1..] == a[1..] + b;
      RoutableAppend(a[1..], b);
    }
  }

  /** The newline framer that both gateways run over the CLI's stdout. */
  class LineFramer {
    var lineBuf: string
    var routed: seq<string>
    ghost var seen: string

    ghost predicate Valid()
      reads this
    {
      && lineBuf == SplitAll(seen, NL).rest
      && routed == Routable(SplitAll(seen, NL).pieces)
    }

    constructor ()
      ensures Valid() && seen == "" && routed == []
    {
      lineBuf, routed, seen := "", [], "";
    }

    method RouteLine(line: string)
      modifies this`routed
      ensures routed == old(routed) + Routable([line])
    {
      var trimmed := Trim(line);
      if trimmed == "" { return; }
      routed := routed + [trimmed];
    }

    method Consume(chunk: string)
      requires Valid()
      modifies this
      ensures Valid() && seen == old(seen) + chunk
    {
      hide IndexOf, Trim, SplitAll, Routable;
      ghost var before := SplitAll(seen, NL);
      lineBuf := lineBuf + chunk;
      ghost var whole := SplitAll(lineBuf, NL);
      ghost var done: seq<string> := [];
      RoutableAppend(done, done);
      var idx := IndexOf(lineBuf, NL, 0);
      while idx >= 0
        invariant idx == IndexOf(lineBuf, NL, 0)
        invariant whole == Split(done + SplitAll(lineBuf, NL).pieces, SplitAll(lineBuf, NL).rest)
        invariant routed == old(routed) + Routable(done)
        invariant seen == old(seen)
        decreases |lineBuf|
      {
        SplitUnfold(lineBuf, NL);
        var line := lineBuf[..idx];
        done := done + [line];
        lineBuf := lineBuf[idx + 1..];
        RoutableAppend(done[..|done| - 1], [line]);
        assert done == done[..|done| - 1] + [line];
        RouteLine(line);
        idx := IndexOf(lineBuf, NL, 0);
      }
      SplitUnfold(lineBuf, NL);
      SplitAppend(seen, chunk, NL);
      RoutableAppend(before.pieces, whole.pieces);
      assert done == whole.pieces;
      seen := seen + chunk;
    }

    // The CLI closed its stdout: a non-blank tail is routed as a last line.
    method Close()
      requires Valid()
      modifies this
      ensures seen == old(seen)
      ensures routed == Routable(SplitAll(seen, NL).pieces + [SplitAll(seen, NL).rest])
    {
      RoutableAppend(SplitAll(seen, NL).pieces, [lineBuf]);
      if Trim(lineBuf) != "" {
        RouteLine(lineBuf);
      }
    }
  }
}
