/** The block markers agents put into their replies: `[[OCCA:TOKEN]] body [[/OCCA:TOKEN]]`. */
module Markers {
  import opened Text

  datatype Block = Block(token: string, raw: string)

  predicate TokenChar(c: char) {
    'A' <= c <= 'Z' || c == '_'
  }

  predicate IsToken(t: string) {
    t != "" && forall i | 0 <= i < |t| :: TokenChar(t[i])
  }

  const OPEN: string := "[[OCCA:"
  const END: string := "]]"

  function Open(token: string): string {
    OPEN + token + END
  }

  function Close(token: string): string {
    "[[/OCCA:" + token + END
  }

  function Printed(b: Block): string {
    Open(b.token) + b.raw + Close(b.token)
  }

  // ---- the pattern -------------------------------------------------------------

  // A block stands at the start of s, and its body is the shortest that some closing tag ends.
  ghost predicate Starts(s: string, b: Block) {
    && IsToken(b.token) && Printed(b) <= s
    && forall e: nat | e < |b.raw| :: !OccursAt(b.raw + Close(b.token), Close(b.token), e)
  }

  // The length of the longest run of token characters at the start of s.
  function TokenRun(s: string): (n: nat)
    ensures n <= |s| && (forall i | 0 <= i < n :: TokenChar(s[i])) && (n < |s| ==> !TokenChar(s[n]))
  {
    if s == "" || !TokenChar(s[0]) then 0 else 1 + TokenRun(s[1..])
  }

  // What the expression matches at the start of s; a token cannot be cut short, as `]` is no token character.
  function MatchHere(s: string): Option<Block> {
    if !(OPEN <= s) then None
    else
      var rest := s[|OPEN|..];
      var n := TokenRun(rest);
      if n == 0 || !OccursAt(rest, END, n) then None
      else
        var token, body := rest[..n], rest[n + 2..];
        var e := IndexOf(body, Close(token), 0);
        if e < 0 then None else Some(Block(token, body[..e]))
  }

  lemma TokenRunOf(token: string, rest: string)
    requires IsToken(token) && rest != "" && !TokenChar(rest[0])
    ensures TokenRun(token + rest) == |token|
  {
    var s := token + rest;
    assert s[|token|] == rest[0];
    assert forall i | 0 <= i < |token| :: s[i] == token[i];
  }

  lemma OccursInPrefix(s: string, cut: string, pat: string, k: nat)
    requires cut <= s && k + |pat| <= |cut|
    ensures OccursAt(s, pat, k) <==> OccursAt(cut, pat, k)
  {
    assert s[k..k + |pat|] == cut[k..k + |pat|];
  }

  // The leftmost occurrence does not look past its own end.
  lemma IndexOfCut(s: string, cut: string, pat: string, e: nat)
    requires cut <= s && |cut| == e + |pat| && OccursAt(cut, pat, e)
    ensures IndexOf(s, pat, 0) == e <==> forall k: nat | k < e :: !OccursAt(cut, pat, k)
  {
    forall k: nat | k <= e ensures OccursAt(s, pat, k) <==> OccursAt(cut, pat, k) {
      OccursInPrefix(s, cut, pat, k);
    }
    hide OccursAt;
    assert OccursAt(s, pat, e);
    var r := IndexOf(s, pat, 0);
    assert 0 <= r <= e;
  }

  // What a text that opens with a tag matches is decided by the closing tag alone.
  lemma AfterOpen(token: string, body: string)
    requires IsToken(token)
    ensures var e := IndexOf(body, Close(token), 0);
            MatchHere(Open(token) + body) == if e < 0 then None else Some(Block(token, body[..e]))
  {
    var s := Open(token) + body;
    var rest := s[|OPEN|..];
    assert s[..|OPEN|] == OPEN && OPEN <= s;
    assert rest == token + (END + body);
    TokenRunOf(token, END + body);
    assert rest[..|token|] == token && rest[|token|..|token| + 2] == END && rest[|token| + 2..] == body;
  }

  /** The search is exact: it finds a block precisely when one stands there. */
  lemma MatchIsExact(s: string, b: Block)
    ensures MatchHere(s) == Some(b) <==> Starts(s, b)
  {
    if Starts(s, b) {
      PrintedMatches(s, b);
    } else if MatchHere(s) == Some(b) {
      MatchedStarts(s, b);
    }
  }

  lemma PrintedMatches(s: string, b: Block)
    requires Starts(s, b)
    ensures MatchHere(s) == Some(b)
  {
    var body := s[|Open(b.token)|..];
    var p := Printed(b);
    assert s[..|p|] == p;
    assert s == Open(b.token) + body;
    assert body[..|b.raw| + |Close(b.token)|] == b.raw + Close(b.token) by {
      assert p[|Open(b.token)|..] == b.raw + Close(b.token);
      assert s[|Open(b.token)|..|p|] == p[|Open(b.token)|..];
    }
    var c := b.raw + Close(b.token);
    assert c[..|b.raw|] == b.raw && c[|b.raw|..] == Close(b.token);
    assert body[..|c|] == c && body[..|b.raw|] == b.raw;
    hide Close, Open;
    IndexOfCut(body, c, Close(b.token), |b.raw|);
    AfterOpen(b.token, body);
  }

  lemma MatchedOpens(s: string, b: Block) returns (body: string)
    requires MatchHere(s) == Some(b)
    ensures IsToken(b.token) && s == Open(b.token) + body
    ensures var e := IndexOf(body, Close(b.token), 0); e >= 0 && b.raw == body[..e]
  {
    var rest := s[|OPEN|..];
    var n := TokenRun(rest);
    body := rest[n + 2..];
    hide TokenRun, IndexOf, TokenChar;
    assert s == OPEN + rest && rest == rest[..n] + END + body;
    assert OPEN + (b.token + END + body) == Open(b.token) + body;
  }

  lemma MatchedStarts(s: string, b: Block)
    requires MatchHere(s) == Some(b)
    ensures Starts(s, b)
  {
    var body := MatchedOpens(s, b);
    var close := Close(b.token);
    hide MatchHere, Open, Close, IsToken;
    var e := IndexOf(body, close, 0);
    var c := b.raw + close;
    assert c[|b.raw|..] == close && body[..|c|] == c by {
      assert body[..e] == b.raw && body[e..e + |close|] == close;
    }
    IndexOfCut(body, c, close, e);
    Regroup(Open(b.token), b.raw, close, body);
    hide IndexOf, OccursAt;
  }

  lemma Regroup(open: string, raw: string, close: string, body: string)
    requires raw + close <= body
    ensures open + raw + close <= open + body
  {
    assert open + body == open + raw + close + body[|raw| + |close|..];
  }

  // ---- the blocks of a text ----------------------------------------------------

  // Leftmost first, each search after the end of the last block.
  ghost predicate Extracted(s: string, from: nat, blocks: seq<Block>)
    requires from <= |s|
    decreases blocks
  {
    if blocks == [] then forall i, b | from <= i <= |s| :: !Starts(s[i..], b)
    else
      exists p ::
        && from <= p && p + |Printed(blocks[0])| <= |s|
        && Starts(s[p..], blocks[0]) && (forall i, b | from <= i < p :: !Starts(s[i..], b))
        && Extracted(s, p + |Printed(blocks[0])|, blocks[1..])
  }

  // RegExp.exec with `lastIndex` at `from`.
  method Exec(s: string, from: nat) returns (p: nat, m: Option<Block>)
    requires from <= |s|
    ensures m.Some? ==> from <= p <= |s| && Starts(s[p..], m.value) && forall i, b | from <= i < p :: !Starts(s[i..], b)
    ensures m.None? ==> forall i, b | from <= i <= |s| :: !Starts(s[i..], b)
  {
    p := from;
    while true
      invariant from <= p <= |s|
      invariant forall i | from <= i < p :: MatchHere(s[i..]) == None
      decreases |s| - p
    {
      m := MatchHere(s[p..]);
      if m.Some? {
        MatchIsExact(s[p..], m.value);
        break;
      }
      if p == |s| {
        break;
      }
      p := p + 1;
    }
    hide MatchHere, Starts;
    forall i, b | from <= i <= |s| && MatchHere(s[i..]) == None ensures !Starts(s[i..], b) {
      MatchIsExact(s[i..], b);
    }
  }

  /** A text has one extraction only. */
  lemma {:induction false} ExtractionIsUnique(s: string, from: nat, a: seq<Block>, b: seq<Block>)
    requires from <= |s| && Extracted(s, from, a) && Extracted(s, from, b)
    ensures a == b
    decreases |a|
  {
    hide Starts, Extracted, Printed, MatchHere;
    if a != [] && b != [] {
      var p := Place(s, from, a);
      var q := Place(s, from, b);
      assert p == q;
      MatchIsExact(s[p..], a[0]);
      MatchIsExact(s[p..], b[0]);
      ExtractionIsUnique(s, p + |Printed(a[0])|, a[1..], b[1..]);
    } else if a != [] {
      NoneLeft(s, from);
      var p := Place(s, from, a);
      assert false;
    } else if b != [] {
      NoneLeft(s, from);
      var p := Place(s, from, b);
      assert false;
    }
  }

  lemma NoneLeft(s: string, from: nat)
    requires from <= |s| && Extracted(s, from, [])
    ensures forall i, b | from <= i <= |s| :: !Starts(s[i..], b)
  {
    hide Starts;
  }

  // Where the first block of an extraction stands.
  lemma Place(s: string, from: nat, blocks: seq<Block>) returns (p: nat)
    requires from <= |s| && blocks != [] && Extracted(s, from, blocks)
    ensures from <= p && p + |Printed(blocks[0])| <= |s|
    ensures Starts(s[p..], blocks[0]) && forall i, b | from <= i < p :: !Starts(s[i..], b)
    ensures Extracted(s, p + |Printed(blocks[0])|, blocks[1..])
  {
    p :| from <= p && p + |Printed(blocks[0])| <= |s|
         && Starts(s[p..], blocks[0]) && (forall i, b | from <= i < p :: !Starts(s[i..], b))
         && Extracted(s, p + |Printed(blocks[0])|, blocks[1..]);
  }

  // ---- bodies ------------------------------------------------------------------

  const FENCE: string := "```"

  // replace(/^```(?:json)?\s*/i, "")
  function WithoutFenceStart(s: string): string {
    if !(FENCE <= s) then s
    else
      var json := |s| >= 7 && Lower(s[3]) == 'j' && Lower(s[4]) == 's' && Lower(s[5]) == 'o' && Lower(s[6]) == 'n';
      s[SkipSpace(s, if json then 7 else 3)..]
  }

  // The tag "json" in any letter case.
  predicate IsJsonTag(tag: string) {
    |tag| == 4 && Lower(tag[0]) == 'j' && Lower(tag[1]) == 's' && Lower(tag[2]) == 'o' && Lower(tag[3]) == 'n'
  }

  // replace(/\s*```$/i, "")
  function WithoutFenceEnd(s: string): string {
    if |s| >= 3 && s[|s| - 3..] == FENCE then s[..SkipSpaceBack(s, 0, |s| - 3)] else s
  }

  function Unfenced(raw: string): string {
    Trim(WithoutFenceEnd(WithoutFenceStart(Trim(raw))))
  }

  // A block with its body decoded, if the body is a JSON object.
  datatype ActionBlock<B> = ActionBlock(token: string, raw: string, body: Option<B>)

  function Bare<B>(blocks: seq<ActionBlock<B>>): (r: seq<Block>)
    ensures |r| == |blocks| && forall i | 0 <= i < |r| :: r[i] == Block(blocks[i].token, blocks[i].raw)
  {
    seq(|blocks|, i requires 0 <= i < |blocks| => Block(blocks[i].token, blocks[i].raw))
  }

  lemma StartsFits(s: string, b: Block)
    requires Starts(s, b)
    ensures 0 < |Printed(b)| <= |s|
  {
  }

  lemma ExtractedCons(s: string, from: nat, p: nat, b: Block, more: seq<Block>)
    requires from <= p && p + |Printed(b)| <= |s| && Starts(s[p..], b)
    requires forall i, c | from <= i < p :: !Starts(s[i..], c)
    requires Extracted(s, p + |Printed(b)|, more)
    ensures Extracted(s, from, [b] + more)
  {
    hide Starts, Printed;
    assert ([b] + more)[1..] == more;
  }

  // The blocks up to a position, whatever follows it.
  ghost predicate Resumes(s: string, from: nat, before: seq<Block>)
    requires from <= |s|
  {
    forall more | Extracted(s, from, more) :: Extracted(s, 0, before + more)
  }

  lemma ResumesAtStart(s: string)
    ensures Resumes(s, 0, [])
  {
    assert forall more: seq<Block> :: [] + more == more;
  }

  lemma ResumesAfter(s: string, from: nat, before: seq<Block>, p: nat, b: Block)
    requires from <= p <= |s| && Starts(s[p..], b) && forall i, c | from <= i < p :: !Starts(s[i..], c)
    requires Resumes(s, from, before)
    ensures p < p + |Printed(b)| <= |s| && Resumes(s, p + |Printed(b)|, before + [b])
  {
    StartsFits(s[p..], b);
    hide Starts, Printed;
    forall more | Extracted(s, p + |Printed(b)|, more) ensures Extracted(s, 0, before + [b] + more) {
      ExtractedCons(s, from, p, b, more);
      assert before + [b] + more == before + ([b] + more);
    }
  }

  lemma ResumesAtEnd(s: string, from: nat, before: seq<Block>)
    requires from <= |s| && Resumes(s, from, before) && forall i, b | from <= i <= |s| :: !Starts(s[i..], b)
    ensures Extracted(s, 0, before)
  {
    hide Starts;
    assert Extracted(s, from, []) && before + [] == before;
  }

  /** `decode` stands for the JSON parser restricted to objects. */
  method ExtractActionBlocks<B>(text: string, decode: string -> Option<B>) returns (out: seq<ActionBlock<B>>)
    ensures Extracted(text, 0, Bare(out))
    ensures forall i | 0 <= i < |out| :: out[i].body == decode(Unfenced(out[i].raw))
  {
    hide Starts, Unfenced, Printed, Extracted, Resumes;
    out := [];
    ResumesAtStart(text);
    var last := 0;
    var p, m := Exec(text, last);
    assert Bare(out) == [];
    while m.Some?
      invariant last <= |text|
      invariant m.Some? ==> last <= p <= |text| && Starts(text[p..], m.value) && forall i, b | last <= i < p :: !Starts(text[i..], b)
      invariant m.None? ==> forall i, b | last <= i <= |text| :: !Starts(text[i..], b)
      invariant Resumes(text, last, Bare(out))
      invariant forall i | 0 <= i < |out| :: out[i].body == decode(Unfenced(out[i].raw))
      decreases |text| - last
    {
      var b := m.value;
      ResumesAfter(text, last, Bare(out), p, b);
      ghost var before := out;
      out := out + [ActionBlock(b.token, b.raw, decode(Unfenced(b.raw)))];
      assert Bare(out) == Bare(before) + [b];
      last := p + |Printed(b)|;
      p, m := Exec(text, last);
    }
    ResumesAtEnd(text, last, Bare(out));
  }

  // ---- printing and reading back -----------------------------------------------

  ghost predicate BracketFree(s: string) {
    forall i | 0 <= i < |s| :: s[i] != '['
  }

  // Blocks with text before, between and after them.
  function Document(gaps: seq<string>, blocks: seq<Block>): string
    requires |gaps| == |blocks| + 1
  {
    if blocks == [] then gaps[0] else gaps[0] + Printed(blocks[0]) + Document(gaps[1..], blocks[1..])
  }

  ghost predicate Clean(b: Block) {
    forall e: nat :: !OccursAt(b.raw, Close(b.token), e)
  }

  // A closing tag differs from every shifted copy of itself.
  lemma NoOverlap(token: string, d: nat)
    requires IsToken(token) && 0 < d < |Close(token)|
    ensures var j := if d == 1 then 1 else 0;
            d + j < |Close(token)| && Close(token)[j] != Close(token)[d + j]
  {
    assert forall k | 8 <= k < 8 + |token| :: Close(token)[k] == token[k - 8];
  }

  // So none straddles the end of a body.
  lemma NoStraddle(b: Block, e: nat)
    requires IsToken(b.token) && e < |b.raw| && OccursAt(b.raw + Close(b.token), Close(b.token), e)
    ensures OccursAt(b.raw, Close(b.token), e)
  {
    var close := Close(b.token);
    var s := b.raw + close;
    assert forall j | 0 <= j < |close| :: s[e..e + |close|][j] == s[e + j] == close[j];
    assert forall j | |b.raw| <= j < |s| :: s[j] == close[j - |b.raw|];
    hide Close;
    if e + |close| > |b.raw| {
      NoOverlap(b.token, |b.raw| - e);
      assert false;
    }
    assert s[e..e + |close|] == b.raw[e..e + |close|];
  }

  lemma CleanBlockStarts(b: Block, rest: string)
    requires IsToken(b.token) && Clean(b)
    ensures Starts(Printed(b) + rest, b)
  {
    forall e: nat | e < |b.raw| ensures !OccursAt(b.raw + Close(b.token), Close(b.token), e) {
      if OccursAt(b.raw + Close(b.token), Close(b.token), e) {
        NoStraddle(b, e);
      }
    }
    hide OccursAt;
  }

  lemma {:induction false} CleanDocumentsRead(text: string, from: nat, gaps: seq<string>, blocks: seq<Block>)
    requires from <= |text| && |gaps| == |blocks| + 1 && text[from..] == Document(gaps, blocks)
    requires forall g | g in gaps :: BracketFree(g)
    requires forall b | b in blocks :: IsToken(b.token) && Clean(b)
    ensures Extracted(text, from, blocks)
    decreases |blocks|
  {
    var p := from + |gaps[0]|;
    assert gaps[0] in gaps;
    forall i, b | from <= i <= |text| && (i < p || i == |text|) ensures !Starts(text[i..], b) {
      if i < p {
        assert text[i] == text[from..][i - from] == gaps[0][i - from];
      }
    }
    if blocks != [] {
      assert blocks[0] in blocks;
      var rest := Document(gaps[1..], blocks[1..]);
      assert text[from..] == gaps[0] + (Printed(blocks[0]) + rest);
      assert text[p..] == Printed(blocks[0]) + rest;
      CleanBlockStarts(blocks[0], rest);
      hide Starts, Printed, Document, Clean;
      var q := p + |Printed(blocks[0])|;
      assert text[q..] == rest;
      CleanDocumentsRead(text, q, gaps[1..], blocks[1..]);
    }
  }

  lemma {:induction false} ReadBlocksAreClean(text: string, from: nat, blocks: seq<Block>)
    requires from <= |text| && Extracted(text, from, blocks)
    ensures forall b | b in blocks :: Clean(b)
    decreases |blocks|
  {
    if blocks != [] {
      var p := Place(text, from, blocks);
      var b := blocks[0];
      forall e: nat ensures !OccursAt(b.raw, Close(b.token), e) {
        if OccursAt(b.raw, Close(b.token), e) {
          OccursInPrefix(b.raw + Close(b.token), b.raw, Close(b.token), e);
        }
      }
      hide Starts, Extracted;
      ReadBlocksAreClean(text, p + |Printed(b)|, blocks[1..]);
    }
  }

  /** Blocks printed between bracket-free texts read back as they are exactly if no body holds its own closing tag. */
  lemma RoundTrip(gaps: seq<string>, blocks: seq<Block>, found: seq<Block>)
    requires |gaps| == |blocks| + 1 && forall g | g in gaps :: BracketFree(g)
    requires forall b | b in blocks :: IsToken(b.token)
    requires Extracted(Document(gaps, blocks), 0, found)
    ensures found == blocks <==> forall b | b in blocks :: Clean(b)
  {
    var text := Document(gaps, blocks);
    if forall b | b in blocks :: Clean(b) {
      CleanDocumentsRead(text, 0, gaps, blocks);
      ExtractionIsUnique(text, 0, found, blocks);
    } else if found == blocks {
      ReadBlocksAreClean(text, 0, blocks);
    }
  }

  predicate IsObject(s: string) {
    |s| > 1 && s[0] == '{' && s[|s| - 1] == '}'
  }

  lemma TrimOf(pre: string, core: string, post: string)
    requires Blank(pre) && Blank(post) && core != "" && !IsSpace(core[0]) && !IsSpace(core[|core| - 1])
    ensures Trim(pre + core + post) == core
  {
    var s := pre + core + post;
    var lo, hi := |pre|, |pre| + |core|;
    assert s[lo] == core[0] && s[hi - 1] == core[|core| - 1];
    assert forall k | 0 <= k < lo :: s[k] == pre[k];
    assert forall k | hi <= k < |s| :: s[k] == post[k - hi];
    assert SkipSpace(s, 0) == lo;
    assert SkipSpaceBack(s, lo, |s|) == hi;
    assert s[lo..hi] == core;
  }

  /** A JSON object reaches the parser unchanged, whether it is bare or in a code fence. */
  lemma FencesAreTransparent(body: string, pre: string, mid: string, last: string, post: string, tag: string)
    requires IsObject(body) && Blank(pre) && Blank(mid) && Blank(last) && Blank(post)
    requires tag == "" || IsJsonTag(tag)
    ensures Unfenced(pre + body + post) == body
    ensures Unfenced(pre + (FENCE + tag + mid + body + last + FENCE) + post) == body
  {
    hide Trim, WithoutFenceStart, WithoutFenceEnd, Blank, IsJsonTag;
    var fenced := FENCE + tag + mid + body + last + FENCE;
    assert fenced[0] == '`' && fenced[|fenced| - 1] == '`';
    assert FENCE + tag + mid + (body + (last + FENCE)) == fenced;
    assert body + (last + FENCE) == body + last + FENCE;
    assert "" + body + "" == body;
    assert Blank("") by { NothingIsBlank(); }
    FenceStartOf(tag, mid, body, last + FENCE);
    FenceEndOf(body, last);
    NoFences(body);
    TrimOf(pre, body, post);
    TrimOf(pre, fenced, post);
    TrimOf("", body, "");
    hide IsObject;
  }

  lemma NothingIsBlank()
    ensures Blank("")
  {
  }

  lemma NoFences(body: string)
    requires IsObject(body)
    ensures WithoutFenceStart(body) == body && WithoutFenceEnd(body) == body
  {
    assert body[0] != FENCE[0] && body[|body| - 1] != FENCE[2];
    if |body| >= 3 {
      assert body[|body| - 3..][2] == body[|body| - 1];
    }
  }

  lemma FenceStartOf(tag: string, mid: string, body: string, rest: string)
    requires IsObject(body) && Blank(mid) && (tag == "" || IsJsonTag(tag))
    ensures WithoutFenceStart(FENCE + tag + mid + (body + rest)) == body + rest
  {
    var s, at := FENCE + tag + mid + (body + rest), 3 + |tag|;
    assert forall k | 0 <= k < |s| ::
        s[k] == if k < 3 then '`' else if k < at then tag[k - 3] else if k < at + |mid| then mid[k - at] else (body + rest)[k - at - |mid|];
    assert s[..3] == FENCE;
    assert SkipSpace(s, at) == at + |mid| by {
      assert s[at + |mid|] == '{';
    }
    assert s[at + |mid|..] == body + rest;
    if tag == "" {
      assert Lower(s[3]) != 'j' by {
        if mid == "" { assert s[3] == '{'; } else { assert s[3] == mid[0]; }
      }
    } else {
      assert s[3] == tag[0] && s[4] == tag[1] && s[5] == tag[2] && s[6] == tag[3];
    }
  }

  lemma FenceEndOf(body: string, last: string)
    requires IsObject(body) && Blank(last)
    ensures WithoutFenceEnd(body + last + FENCE) == body
  {
    var s := body + last + FENCE;
    assert s[|s| - 3..] == FENCE;
    assert forall k | 0 <= k < |s| - 3 :: s[k] == if k < |body| then body[k] else last[k - |body|];
    assert SkipSpaceBack(s, 0, |s| - 3) == |body|;
    assert s[..|body|] == body;
  }
}
