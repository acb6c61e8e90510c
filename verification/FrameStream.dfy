/** Reading a connection's bytes, cut anywhere, gives back whole frames in order. */
module FrameStream {
  import opened Text
  import opened Framing
  import opened Wire
  import opened GatewayClient

  function ApplyFrames(c: Client, frames: seq<Frame>): Client
    decreases |frames|
  {
    if frames == [] then c
    else match frames[0]
      case EventFrame(e) => ApplyFrames(c.(delivered := c.delivered + [e], cursor := c.cursor + 1), frames[1..])
      case ResultFrame(r) => ApplyFrames(c.(result := Some(r)), frames[1..])
  }

  lemma {:induction false} RouteFrames(codec: Codec, c: Client, frames: seq<Frame>)
    requires Lossless(codec)
    ensures RouteAll(codec, c, Lines(codec, frames)) == Routed(ApplyFrames(c, frames), false)
    decreases |frames|
  {
    hide Trim;
    if frames == [] {
    } else {
      var f := frames[0];
      assert Lines(codec, frames)[1..] == Lines(codec, frames[1..]);
      assert Trim(codec.render(f)) == codec.render(f) && codec.parse(codec.render(f)) == Framed(f);
      RouteFrames(codec, Route(codec, c, codec.render(f)).client, frames[1..]);
    }
  }

  lemma PrefixFree(s: string, k: nat)
    requires Free(s, NL) && k <= |s|
    ensures Free(s[..k], NL)
  {
    assert forall j: nat | j <= k :: OccursAt(s[..k], NL, j) ==> OccursAt(s, NL, j);
  }

  lemma CutInside(line: string, more: string, k: nat)
    requires Free(line, NL) && k <= |line|
    ensures SplitAll((line + NL + more)[..k], NL) == Split([], line[..k])
  {
    assert (line + NL + more)[..k] == line[..k];
    PrefixFree(line, k);
    SplitUnfold(line[..k], NL);
    hide SplitAll, IndexOf;
    assert IndexOf(line[..k], NL, 0) < 0 by {
      hide Free;
      assert Free(line[..k], NL);
      FreeHasNone(line[..k]);
    }
  }

  lemma FreeHasNone(s: string)
    requires Free(s, NL)
    ensures IndexOf(s, NL, 0) < 0
  {
  }

  lemma CutBeyond(line: string, more: string, k: nat)
    requires Free(line, NL) && |line| < k <= |line| + 1 + |more|
    ensures var tail := SplitAll(more[..k - |line| - 1], NL);
            SplitAll((line + NL + more)[..k], NL) == Split([line] + tail.pieces, tail.rest)
  {
    hide SplitAll, IndexOf;
    var cut := (line + NL + more)[..k];
    assert cut == line + NL + more[..k - |line| - 1];
    assert cut[..|line|] == line && cut[|line|..|line| + 1] == NL && cut[|line| + 1..] == more[..k - |line| - 1];
    LeftmostIs(cut, NL, |line|);
    SplitUnfold(cut, NL);
  }

  // The first k characters of terminated lines are m whole lines and a part of the next one.
  lemma {:induction false} PrefixLines(lines: seq<string>, k: nat)
    requires forall l | l in lines :: Free(l, NL)
    requires k <= |Terminated(lines, NL)|
    ensures var s := SplitAll(Terminated(lines, NL)[..k], NL);
            var m := |s.pieces|;
            && m <= |lines| && s.pieces == lines[..m]
            && if m == |lines| then s.rest == "" else s.rest <= lines[m]
    decreases |lines|
  {
    hide IndexOf, SplitAll, Free;
    var text := Terminated(lines, NL);
    if lines == [] {
      assert text[..k] == "";
      SplitOfNothing();
    } else {
      var line, more := lines[0], Terminated(lines[1..], NL);
      assert line in lines;
      if k <= |line| {
        CutInside(line, more, k);
      } else {
        CutBeyond(line, more, k);
        PrefixLines(lines[1..], k - |line| - 1);
        var m := |SplitAll(more[..k - |line| - 1], NL).pieces|;
        assert lines[..m + 1] == [line] + lines[1..][..m];
      }
    }
  }

  lemma SplitOfNothing()
    ensures SplitAll("", NL) == Split([], "")
  {
  }

  // The first k bytes of a stream are m whole lines and a part of the next one.
  lemma PrefixPieces(codec: Codec, frames: seq<Frame>, k: nat)
    requires Lossless(codec) && k <= |Stream(codec, frames)|
    ensures var s := SplitAll(Stream(codec, frames)[..k], NL);
            var m := |s.pieces|;
            && m <= |frames|
            && s.pieces == Lines(codec, frames[..m])
            && (m == |frames| ==> s.rest == "")
            && (m < |frames| ==> s.rest <= codec.render(frames[m]))
  {
    var lines := Lines(codec, frames);
    forall l | l in lines ensures Free(l, NL) {
      var i :| 0 <= i < |lines| && lines[i] == l;
      assert Free(codec.render(frames[i]), NL);
    }
    hide SplitAll, Free, Lossless, Terminated;
    PrefixLines(lines, k);
    var m := |SplitAll(Stream(codec, frames)[..k], NL).pieces|;
    assert lines[..m] == Lines(codec, frames[..m]);
  }

  // The number of whole lines, and the partial one, among the first k bytes.
  function Whole(codec: Codec, frames: seq<Frame>, k: nat): nat
    requires k <= |Stream(codec, frames)|
  {
    |SplitAll(Stream(codec, frames)[..k], NL).pieces|
  }

  function Partial(codec: Codec, frames: seq<Frame>, k: nat): string
    requires k <= |Stream(codec, frames)|
  {
    SplitAll(Stream(codec, frames)[..k], NL).rest
  }

  /** Consuming bytes k..k2 applies exactly the frames completed in between. */
  lemma ConsumeFrames(codec: Codec, c: Client, frames: seq<Frame>, k: nat, k2: nat)
    requires Lossless(codec) && k <= k2 <= |Stream(codec, frames)|
    requires c.buf == Partial(codec, frames, k)
    ensures var m, m2 := Whole(codec, frames, k), Whole(codec, frames, k2);
            && m <= m2 <= |frames|
            && Consume(codec, c, Stream(codec, frames)[k..k2])
               == Routed(ApplyFrames(c.(buf := ""), frames[m..m2]).(buf := Partial(codec, frames, k2)), false)
  {
    hide IndexOf, SplitAll, RouteAll;
    var text := Stream(codec, frames);
    assert text[..k] + text[k..k2] == text[..k2];
    SplitAppend(text[..k], text[k..k2], NL);
    PrefixPieces(codec, frames, k);
    PrefixPieces(codec, frames, k2);
    var m, m2 := Whole(codec, frames, k), Whole(codec, frames, k2);
    var more := SplitAll(c.buf + text[k..k2], NL).pieces;
    assert SplitAll(text[..k2], NL).pieces == SplitAll(text[..k], NL).pieces + more;
    assert more == Lines(codec, frames[m..m2]);
    RouteFrames(codec, c.(buf := ""), frames[m..m2]);
  }

  /** Flushing the tail at a clean end applies the next frame only if all of it arrived. */
  lemma FlushFrames(codec: Codec, c: Client, frames: seq<Frame>, k: nat)
    requires Lossless(codec) && k <= |Stream(codec, frames)|
    requires c.buf == Partial(codec, frames, k)
    ensures var m := Whole(codec, frames, k);
            var n := if m < |frames| && c.buf == codec.render(frames[m]) then m + 1 else m;
            && m <= n <= |frames|
            && Flush(codec, c, false) == Routed(ApplyFrames(c, frames[m..n]), false)
  {
    hide IndexOf, SplitAll, Trim;
    PrefixPieces(codec, frames, k);
    var m := Whole(codec, frames, k);
    TrimNothing();
    if m < |frames| {
      var line := codec.render(frames[m]);
      assert Trim(line) == line && codec.parse(line) == Framed(frames[m]);
      if c.buf == line {
        assert frames[m..m + 1] == [frames[m]];
      } else {
        assert c.buf == line[..|c.buf|];
        assert codec.parse(Trim(line[..|c.buf|])) == Malformed;
      }
    }
  }

  lemma TrimNothing()
    ensures Trim("") == ""
  {
  }
}
