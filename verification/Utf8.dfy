/**
 Decoding a byte stream that arrives in chunks. The UTF-8 decoder is that of
 the WHATWG Encoding Standard: an ill-formed sequence becomes U+FFFD. The
 gateways decode every stdout chunk by itself, the stream readers carry an
 unfinished sequence over to the next chunk.
 */
module Utf8 {
  import opened Text
  import opened Framing

  const REPLACEMENT: char := '\U{FFFD}'

  // ---- the decoder, byte by byte -----------------------------------------------

  // How many bytes follow a lead byte; 0 if it begins no sequence.
  function Following(lead: byte): nat {
    if 0xC2 <= lead <= 0xDF then 1
    else if 0xE0 <= lead <= 0xEF then 2
    else if 0xF0 <= lead <= 0xF4 then 3
    else 0
  }

  // Whether b can come next in an unfinished sequence. The second byte excludes
  // overlong forms, surrogates and what lies beyond U+10FFFF.
  predicate Continues(begun: Bytes, b: byte)
    requires begun != []
  {
    var least := if |begun| > 1 then 0x80 else if begun[0] == 0xE0 then 0xA0 else if begun[0] == 0xF0 then 0x90 else 0x80;
    var most := if |begun| > 1 then 0xBF else if begun[0] == 0xED then 0x9F else if begun[0] == 0xF4 then 0x8F else 0xBF;
    least <= b <= most
  }

  // A sequence begun but not finished, or nothing.
  predicate Unfinished(begun: Bytes) {
    && (begun != [] ==> 0 < |begun| <= Following(begun[0]))
    && forall k | 0 < k < |begun| :: Continues(begun[..k], begun[k])
  }

  type Begun = b: Bytes | Unfinished(b) witness []

  datatype Decoding = Decoding(begun: Begun, text: string)

  // The character of a finished sequence.
  function Value(begun: Begun, b: byte): (c: char)
    requires begun != [] && |begun| == Following(begun[0]) && Continues(begun, b)
  {
    var last := b - 0x80;
    if |begun| == 1 then ((begun[0] - 0xC0) * 64 + last) as char
    else
      assert Continues(begun[..1], begun[1]);
      var second := begun[1] - 0x80;
      if |begun| == 2 then ((begun[0] - 0xE0) * 4096 + second * 64 + last) as char
      else
        assert Continues(begun[..2], begun[2]);
        var third: int := begun[2] - 0x80;
        ((begun[0] - 0xF0) * 262144 + second * 4096 + third * 64 + last) as char
  }

  function Begin(b: byte): Decoding {
    if b < 0x80 then Decoding([], [b as char])
    else if Following(b) > 0 then Decoding([b], [])
    else Decoding([], [REPLACEMENT])
  }

  function Extended(begun: Begun, b: byte): Begun
    requires begun != [] && |begun| < Following(begun[0]) && Continues(begun, b)
  {
    var longer := begun + [b];
    assert forall k | 0 < k < |longer| :: longer[..k] == begun[..k];
    assert begun[..|begun|] == begun;
    longer
  }

  function Step(begun: Begun, b: byte): Decoding {
    if begun == [] then Begin(b)
    else if !Continues(begun, b) then Decoding(Begin(b).begun, [REPLACEMENT] + Begin(b).text)
    else if |begun| < Following(begun[0]) then Decoding(Extended(begun, b), [])
    else Decoding([], [Value(begun, b)])
  }

  function Run(begun: Begun, bytes: Bytes): Decoding
    decreases |bytes|
  {
    if bytes == [] then Decoding(begun, [])
    else
      var first := Step(begun, bytes[0]);
      var rest := Run(first.begun, bytes[1..]);
      Decoding(rest.begun, first.text + rest.text)
  }

  // At the end of the bytes an unfinished sequence is ill-formed.
  function Flushed(begun: Begun): string {
    if begun == [] then [] else [REPLACEMENT]
  }

  function Finish(begun: Begun, bytes: Bytes): string {
    Run(begun, bytes).text + Flushed(Run(begun, bytes).begun)
  }

  // Buffer.toString: the bytes decoded as a whole.
  function Decode(bytes: Bytes): string {
    Finish([], bytes)
  }

  lemma {:induction false} RunAppend(begun: Begun, a: Bytes, b: Bytes)
    ensures var r := Run(begun, a);
            var t := Run(r.begun, b);
            Run(begun, a + b) == Decoding(t.begun, r.text + t.text)
    decreases |a|
  {
    hide Step, Continues, Following;
    if a == [] {
      assert a + b == b;
    } else {
      assert (a + b)[1..] == a[1..] + b && (a + b)[0] == a[0];
      var first := Step(begun, a[0]);
      RunAppend(first.begun, a[1..], b);
    }
  }

  // ---- chunks ------------------------------------------------------------------

  function Bytewise(chunks: seq<Bytes>): Bytes {
    if chunks == [] then [] else chunks[0] + Bytewise(chunks[1..])
  }

  // d.toString() of every chunk, put together.
  function DecodeEach(chunks: seq<Bytes>): string {
    if chunks == [] then "" else Decode(chunks[0]) + DecodeEach(chunks[1..])
  }

  // Position k of the bytes lies inside a sequence: one is begun there and the next byte belongs to it.
  predicate Inside(bytes: Bytes, k: nat) {
    k < |bytes| && Run([], bytes[..k]).begun != [] && Continues(Run([], bytes[..k]).begun, bytes[k])
  }

  // Where the n-th chunk begins.
  function Boundary(chunks: seq<Bytes>, n: nat): nat
    requires n <= |chunks|
  {
    |Bytewise(chunks[..n])|
  }

  // No chunk boundary falls inside a sequence.
  ghost predicate CutBetween(chunks: seq<Bytes>) {
    forall n: nat | n <= |chunks| :: !Inside(Bytewise(chunks), Boundary(chunks, n))
  }

  function Damage(s: string): nat {
    if s == "" then 0 else (if s[0] == REPLACEMENT then 1 else 0) + Damage(s[1..])
  }

  lemma {:induction false} DamageAppend(a: string, b: string)
    ensures Damage(a + b) == Damage(a) + Damage(b)
  {
    if a == "" {
      assert a + b == b;
    } else {
      assert (a + b)[1..] == a[1..] + b;
      DamageAppend(a[1..], b);
    }
  }

  lemma DamageOne(c: char)
    ensures Damage([c]) == if c == REPLACEMENT then 1 else 0
  {
    assert [c][1..] == "";
    assert Damage([c][1..]) == 0;
  }

  lemma RunUnfold(begun: Begun, bytes: Bytes)
    requires bytes != []
    ensures var first := Step(begun, bytes[0]);
            Finish(begun, bytes) == first.text + Finish(first.begun, bytes[1..])
  {
  }

  // Giving up an unfinished sequence at a boundary: harmless exactly if the next byte does not belong to it.
  lemma {:induction false} GivingUp(begun: Begun, rest: Bytes)
    requires begun != []
    ensures rest == [] || !Continues(begun, rest[0]) ==> [REPLACEMENT] + Finish([], rest) == Finish(begun, rest)
    ensures Damage(Finish(begun, rest)) <= 1 + Damage(Finish([], rest))
    ensures rest != [] && Continues(begun, rest[0]) ==> Damage(Finish(begun, rest)) < 1 + Damage(Finish([], rest))
    decreases |rest|
  {
    DamageOne(REPLACEMENT);
    if rest == [] {
      DamageAppend([REPLACEMENT], Finish([], rest));
    } else {
      RunUnfold(begun, rest);
      RunUnfold([], rest);
      var next := rest[1..];
      hide Damage, Finish;
      if !Continues(begun, rest[0]) {
        var b := Begin(rest[0]);
        assert [REPLACEMENT] + (b.text + Finish(b.begun, next)) == ([REPLACEMENT] + b.text) + Finish(b.begun, next);
        DamageAppend([REPLACEMENT], Finish([], rest));
      } else {
        assert rest[0] >= 0x80 && Following(rest[0]) == 0;
        assert Finish([], rest) == [REPLACEMENT] + Finish([], next);
        DamageAppend([REPLACEMENT], Finish([], next));
        if |begun| < Following(begun[0]) {
          assert "" + Finish(Extended(begun, rest[0]), next) == Finish(Extended(begun, rest[0]), next);
          GivingUp(Extended(begun, rest[0]), next);
        } else {
          DamageOne(Value(begun, rest[0]));
          DamageAppend([Value(begun, rest[0])], Finish([], next));
        }
      }
    }
  }

  // A boundary inside no sequence leaves the decoder as if it had started there.
  lemma SameFromNext(begun: Begun, rest: Bytes, k: nat)
    requires begun != [] ==> rest != [] && !Continues(begun, rest[0])
    requires 0 < k <= |rest|
    ensures Run(begun, rest[..k]).begun == Run([], rest[..k]).begun
  {
    assert rest[..k][0] == rest[0];
  }

  // Positions behind the first chunk, counted from there.
  lemma InsideBehind(a: Bytes, rest: Bytes, k: nat)
    requires !Inside(a + rest, |a|)
    ensures Inside(a + rest, |a| + k) <==> Inside(rest, k)
  {
    var begun := Run([], a).begun;
    assert (a + rest)[..|a|] == a;
    assert k < |rest| ==> (a + rest)[|a| + k] == rest[k];
    assert rest != [] ==> (a + rest)[|a|] == rest[0];
    hide Continues, Run;
    if 0 < k < |rest| {
      assert (a + rest)[..|a| + k] == a + rest[..k];
      RunAppend([], a, rest[..k]);
      SameFromNext(begun, rest, k);
    } else if k == 0 {
      NothingBegun(rest);
    }
  }

  lemma NothingBegun(rest: Bytes)
    ensures !Inside(rest, 0)
  {
    assert rest[..0] == [];
  }

  lemma BoundaryBehind(chunks: seq<Bytes>, n: nat, m: nat)
    requires chunks != [] && n < |chunks| && m == n + 1
    ensures Boundary(chunks, 0) == 0
    ensures Boundary(chunks, m) == |chunks[0]| + Boundary(chunks[1..], n)
  {
    assert chunks[..0] == [];
    assert chunks[..m][1..] == chunks[1..][..n] && chunks[..m][0] == chunks[0];
  }

  lemma InsideBreaks(chunks: seq<Bytes>)
    requires chunks != [] && Inside(Bytewise(chunks), |chunks[0]|)
    ensures !CutBetween(chunks)
  {
    BoundaryBehind(chunks, 0, 1);
    hide Inside, Bytewise;
    assert Boundary(chunks[1..], 0) == 0 by { NoBoundary(chunks[1..]); }
    hide Boundary;
    assert Inside(Bytewise(chunks), Boundary(chunks, 1));
  }

  lemma NoBoundary(chunks: seq<Bytes>)
    ensures Boundary(chunks, 0) == 0
  {
    assert chunks[..0] == [];
  }

  lemma CutBehind(chunks: seq<Bytes>)
    requires chunks != []
    ensures CutBetween(chunks) <==> !Inside(Bytewise(chunks), |chunks[0]|) && CutBetween(chunks[1..])
  {
    hide *;
    if Inside(Bytewise(chunks), |chunks[0]|) {
      InsideBreaks(chunks);
    } else {
      CutShifts(chunks);
    }
  }

  lemma CutShifts(chunks: seq<Bytes>)
    requires chunks != [] && !Inside(Bytewise(chunks), |chunks[0]|)
    ensures CutBetween(chunks) <==> CutBetween(chunks[1..])
  {
    var whole, rest := Bytewise(chunks), Bytewise(chunks[1..]);
    hide Inside, Bytewise, Boundary;
    if CutBetween(chunks) {
      forall n: nat | n <= |chunks[1..]| ensures !Inside(rest, Boundary(chunks[1..], n)) {
        BoundaryShifts(chunks, n, n + 1);
      }
    }
    if CutBetween(chunks[1..]) {
      forall n: nat | n <= |chunks| ensures !Inside(whole, Boundary(chunks, n)) {
        if n == 0 {
          NothingBegun(whole);
          NoBoundary(chunks);
        } else {
          BoundaryShifts(chunks, n - 1, n);
        }
      }
    }
  }

  lemma BoundaryShifts(chunks: seq<Bytes>, n: nat, m: nat)
    requires chunks != [] && !Inside(Bytewise(chunks), |chunks[0]|) && n < |chunks| && m == n + 1
    ensures Inside(Bytewise(chunks), Boundary(chunks, m)) <==> Inside(Bytewise(chunks[1..]), Boundary(chunks[1..], n))
  {
    hide *;
    BoundaryBehind(chunks, n, m);
    Unfold(chunks);
    InsideBehind(chunks[0], Bytewise(chunks[1..]), Boundary(chunks[1..], n));
  }

  // Two texts with the same beginning: what the first chunk leaves, and what follows it.
  lemma DamageCompared(text: string, mark: string, each: string, decoded: string, whole: string, inside: bool, between: bool)
    requires Damage(decoded) <= Damage(each) && (decoded == each <==> between) && (!between ==> Damage(decoded) < Damage(each))
    requires !inside ==> whole == mark + decoded
    requires inside ==> Damage(whole) < Damage(mark) + Damage(decoded)
    ensures text + (mark + each) == text + whole <==> !inside && between
    ensures (!inside && between) || Damage(text + whole) < Damage(text + (mark + each))
  {
    DamageAppend(mark, each);
    DamageAppend(mark, decoded);
    DamageAppend(text, whole);
    DamageAppend(text, mark + each);
    hide Damage;
  }

  /**
   Decoding chunk by chunk gives the text of the whole exactly if no boundary falls inside a sequence; otherwise it
   has more replacement characters.
   */
  lemma {:induction false} EachAgainstWhole(chunks: seq<Bytes>)
    ensures CutBetween(chunks) <==> DecodeEach(chunks) == Decode(Bytewise(chunks))
    ensures CutBetween(chunks) || Damage(Decode(Bytewise(chunks))) < Damage(DecodeEach(chunks))
    decreases |chunks|
  {
    if chunks == [] {
      assert chunks[..0] == [];
    } else {
      hide *;
      EachAgainstWhole(chunks[1..]);
      CutBehind(chunks);
      OneMoreChunk(chunks[0], chunks[1..], CutBetween(chunks[1..]));
      Unfold(chunks);
    }
  }

  lemma Unfold(chunks: seq<Bytes>)
    requires chunks != []
    ensures DecodeEach(chunks) == Decode(chunks[0]) + DecodeEach(chunks[1..])
    ensures Bytewise(chunks) == chunks[0] + Bytewise(chunks[1..])
  {
  }

  lemma OneMoreChunk(a: Bytes, more: seq<Bytes>, between: bool)
    requires between <==> DecodeEach(more) == Decode(Bytewise(more))
    requires between || Damage(Decode(Bytewise(more))) < Damage(DecodeEach(more))
    ensures var all, each := a + Bytewise(more), Decode(a) + DecodeEach(more);
            && (each == Decode(all) <==> !Inside(all, |a|) && between)
            && ((!Inside(all, |a|) && between) || Damage(Decode(all)) < Damage(each))
  {
    hide Decode, Finish, Run, Inside, Damage, Flushed, Continues, Following, Bytewise, DecodeEach;
    var rest, r := Bytewise(more), Run([], a);
    BoundaryIs(a, rest);
    FirstChunk(a, rest);
    var mark, whole := Flushed(r.begun), Finish(r.begun, rest);
    assert Decode(a) + DecodeEach(more) == r.text + (mark + DecodeEach(more));
    DamageCompared(r.text, mark, DecodeEach(more), Decode(rest), whole, Inside(a + rest, |a|), between);
  }

  // The first chunk, decoded by itself or as the beginning of the whole.
  lemma FirstChunk(a: Bytes, rest: Bytes)
    ensures var r := Run([], a);
            && Decode(a) == r.text + Flushed(r.begun) && Decode(a + rest) == r.text + Finish(r.begun, rest)
            && var inside := rest != [] && r.begun != [] && Continues(r.begun, rest[0]);
            && (!inside ==> Finish(r.begun, rest) == Flushed(r.begun) + Decode(rest))
            && (inside ==> Damage(Finish(r.begun, rest)) < Damage(Flushed(r.begun)) + Damage(Decode(rest)))
  {
    hide Step, Damage, Continues, Following;
    var r := Run([], a);
    RunAppend([], a, rest);
    assert Decode(a + rest) == r.text + Finish(r.begun, rest) by { hide Flushed; }
    hide Run;
    if r.begun != [] {
      assert Flushed(r.begun) == [REPLACEMENT];
      DamageOne(REPLACEMENT);
      assert Decode(rest) == Finish([], rest);
      hide Finish, Flushed, Decode;
      GivingUp(r.begun, rest);
    }
  }

  lemma BoundaryIs(a: Bytes, rest: Bytes)
    ensures Inside(a + rest, |a|) <==> rest != [] && Run([], a).begun != [] && Continues(Run([], a).begun, rest[0])
  {
    assert (a + rest)[..|a|] == a;
  }

  // ---- well-formed text --------------------------------------------------------

  function EncodeChar(c: char): (r: Bytes)
    ensures r != []
  {
    var n := c as int;
    if n < 0x80 then [n]
    else if n < 0x800 then [0xC0 + n / 64, 0x80 + n % 64]
    else if n < 0x10000 then [0xE0 + n / 4096, 0x80 + n / 64 % 64, 0x80 + n % 64]
    else [0xF0 + n / 262144, 0x80 + n / 4096 % 64, 0x80 + n / 64 % 64, 0x80 + n % 64]
  }

  function Encode(s: string): Bytes {
    if s == "" then [] else EncodeChar(s[0]) + Encode(s[1..])
  }

  // The bytes of one sequence: a lead byte and as many continuations as it announces.
  ghost predicate IsSequence(e: Bytes) {
    && |e| > 1 && Following(e[0]) == |e| - 1
    && forall k | 0 < k < |e| :: Continues(e[..k], e[k])
  }

  lemma PrefixUnfinished(e: Bytes, k: nat)
    requires IsSequence(e) && 0 < k < |e|
    ensures Unfinished(e[..k])
  {
    forall j | 0 < j < k ensures Continues(e[..k][..j], e[..k][j]) {
      assert e[..k][..j] == e[..j];
    }
  }

  lemma RunOne(begun: Begun, b: byte)
    ensures Run(begun, [b]) == Step(begun, b)
  {
    var first := Step(begun, b);
    assert [b][1..] == [];
    assert Run(first.begun, []) == Decoding(first.begun, []);
    assert first.text + [] == first.text;
    hide Step;
  }

  lemma {:induction false} SequenceBegins(e: Bytes, k: nat)
    requires IsSequence(e) && 0 < k < |e|
    ensures Run([], e[..k]).begun == e[..k] && Run([], e[..k]).text == ""
  {
    PrefixUnfinished(e, k);
    if k == 1 {
      assert e[..1] == [e[0]];
      RunOne([], e[0]);
    } else {
      var m := k - 1;
      PrefixUnfinished(e, m);
      SequenceBegins(e, m);
      assert e[..k] == e[..m] + [e[m]];
      RunAppend([], e[..m], [e[m]]);
      hide Run, Following;
      RunOne(e[..m], e[m]);
    }
  }

  lemma SequenceEnds(e: Bytes)
    requires IsSequence(e)
    ensures Unfinished(e[..|e| - 1])
    ensures Run([], e) == Decoding([], [Value(e[..|e| - 1], e[|e| - 1])])
  {
    var m := |e| - 1;
    PrefixUnfinished(e, m);
    SequenceBegins(e, m);
    assert e == e[..m] + [e[m]];
    RunAppend([], e[..m], [e[m]]);
    hide Run, Following;
    RunOne(e[..m], e[m]);
  }

  lemma CharIsSequence(c: char)
    requires c as int >= 0x80
    ensures IsSequence(EncodeChar(c))
  {
    var n, e := c as int, EncodeChar(c);
    if n < 0x800 {
    } else if n < 0x10000 {
      assert Continues(e[..1], e[1]) && Continues(e[..2], e[2]);
    } else {
      assert Continues(e[..1], e[1]) && Continues(e[..2], e[2]) && Continues(e[..3], e[3]);
    }
  }

  lemma CharValue(c: char)
    requires c as int >= 0x80
    ensures var e := EncodeChar(c);
            && IsSequence(e) && Unfinished(e[..|e| - 1]) && Value(e[..|e| - 1], e[|e| - 1]) == c
  {
    CharIsSequence(c);
    var n, e := c as int, EncodeChar(c);
    PrefixUnfinished(e, |e| - 1);
    hide IsSequence, Unfinished;
    if n >= 0x10000 {
      assert n == n / 262144 * 262144 + n / 4096 % 64 * 4096 + n / 64 % 64 * 64 + n % 64;
    } else if n >= 0x800 {
      assert n == n / 4096 * 4096 + n / 64 % 64 * 64 + n % 64;
    }
  }

  lemma CharRoundTrip(c: char)
    ensures Run([], EncodeChar(c)) == Decoding([], [c])
  {
    if c as int < 0x80 {
      RunOne([], c as int);
    } else {
      CharValue(c);
      SequenceEnds(EncodeChar(c));
    }
  }

  /** Text survives the way through bytes. */
  lemma {:induction false} TextRoundTrip(s: string)
    ensures Run([], Encode(s)) == Decoding([], s) && Decode(Encode(s)) == s
  {
    if s != "" {
      TextRoundTrip(s[1..]);
      CharRoundTrip(s[0]);
      RunAppend([], EncodeChar(s[0]), Encode(s[1..]));
      assert s == [s[0]] + s[1..];
    }
    hide Run, EncodeChar;
  }

  lemma InsideChar(c: char, rest: Bytes, k: nat)
    requires 0 < k < |EncodeChar(c)|
    ensures Inside(EncodeChar(c) + rest, k)
  {
    var e := EncodeChar(c);
    CharIsSequence(c);
    SequenceBegins(e, k);
    assert (e + rest)[..k] == e[..k] && (e + rest)[k] == e[k];
    hide Run, EncodeChar;
  }

  lemma BehindChar(c: char, rest: Bytes, k: nat)
    ensures Inside(EncodeChar(c) + rest, |EncodeChar(c)| + k) <==> Inside(rest, k)
  {
    CharRoundTrip(c);
    hide EncodeChar, Run, Continues;
    BoundaryIs(EncodeChar(c), rest);
    InsideBehind(EncodeChar(c), rest, k);
  }

  lemma EncodeTake(s: string, j: nat)
    requires s != "" && 0 < j <= |s|
    ensures Encode(s[..j]) == EncodeChar(s[0]) + Encode(s[1..][..j - 1])
  {
    assert s[..j][0] == s[0] && s[..j][1..] == s[1..][..j - 1];
  }

  // A character of the encoded text begins or ends at position k.
  ghost predicate AtCharacter(s: string, k: nat) {
    exists j: nat :: j <= |s| && |Encode(s[..j])| == k
  }

  /** A position lies inside a sequence of encoded text exactly if it is not between characters. */
  lemma {:induction false} InsideText(s: string, k: nat)
    requires k <= |Encode(s)|
    ensures Inside(Encode(s), k) <==> !AtCharacter(s, k)
  {
    assert Encode(s[..0]) == [];
    if k == 0 {
      NothingBegun(Encode(s));
    } else {
      var e, rest := EncodeChar(s[0]), Encode(s[1..]);
      assert Encode(s) == e + rest;
      hide EncodeChar, Inside;
      CharacterBehind(s, k);
      hide Encode, AtCharacter;
      if k < |e| {
        InsideChar(s[0], rest, k);
      } else {
        BehindChar(s[0], rest, k - |e|);
        InsideText(s[1..], k - |e|);
      }
    }
  }

  lemma CharacterBehind(s: string, k: nat)
    requires s != "" && k > 0
    ensures AtCharacter(s, k) <==> k >= |EncodeChar(s[0])| && AtCharacter(s[1..], k - |EncodeChar(s[0])|)
  {
    var e := EncodeChar(s[0]);
    assert Encode(s[..0]) == [];
    hide EncodeChar;
    if AtCharacter(s, k) {
      var j: nat :| j <= |s| && |Encode(s[..j])| == k;
      EncodeTake(s, j);
      var i: nat := j - 1;
      assert |Encode(s[1..][..i])| == k - |e|;
    }
    if k >= |e| && AtCharacter(s[1..], k - |e|) {
      var j: nat :| j <= |s[1..]| && |Encode(s[1..][..j])| == k - |e|;
      var i := j + 1;
      EncodeTake(s, i);
      assert |Encode(s[..i])| == k;
    }
  }

  /** Text sent as UTF-8 and decoded chunk by chunk arrives exactly if every chunk ends where a character ends. */
  lemma TextArrivesIff(s: string, chunks: seq<Bytes>)
    requires Bytewise(chunks) == Encode(s)
    ensures DecodeEach(chunks) == s <==>
              forall n: nat | n <= |chunks| :: AtCharacter(s, Boundary(chunks, n))
  {
    TextRoundTrip(s);
    EachAgainstWhole(chunks);
    hide *;
    forall n: nat | n <= |chunks|
      ensures Inside(Bytewise(chunks), Boundary(chunks, n)) <==> !AtCharacter(s, Boundary(chunks, n))
    {
      BoundaryFits(chunks, n);
      InsideText(s, Boundary(chunks, n));
    }
    CutBetweenIs(chunks);
  }

  lemma CutBetweenIs(chunks: seq<Bytes>)
    ensures CutBetween(chunks) <==> forall n: nat | n <= |chunks| :: !Inside(Bytewise(chunks), Boundary(chunks, n))
  {
    hide Inside, Boundary;
  }

  lemma {:induction false} BoundaryFits(chunks: seq<Bytes>, n: nat)
    requires n <= |chunks|
    ensures Boundary(chunks, n) <= |Bytewise(chunks)|
  {
    if n == 0 {
      NoBoundary(chunks);
    } else {
      BoundaryBehind(chunks, n - 1, n);
      BoundaryFits(chunks[1..], n - 1);
    }
  }

  /** One two-byte character cut in half becomes two replacement characters. */
  lemma CutCharacter()
    ensures var chunks: seq<Bytes> := [[0xC3], [0xA9]];
            && Bytewise(chunks) == Encode([0xE9 as char]) && Decode(Bytewise(chunks)) == [0xE9 as char]
            && DecodeEach(chunks) == [REPLACEMENT, REPLACEMENT]
  {
    var a: Bytes, b: Bytes, none: seq<Bytes> := [0xC3], [0xA9], [];
    var chunks: seq<Bytes>, c := [a, b], 0xE9 as char;
    RunOne([], 0xC3);
    RunOne([], 0xA9);
    assert Decode(a) == [REPLACEMENT] && Decode(b) == [REPLACEMENT];
    TextRoundTrip([c]);
    assert Encode([c]) == [0xC3, 0xA9] by { assert Encode([c]) == EncodeChar(c) + Encode([c][1..]) && [c][1..] == ""; }
    hide Decode, Run, Continues, Encode;
    Unfold(chunks);
    assert chunks[1..] == [b];
    Unfold([b]);
    assert [b][1..] == none;
    assert Bytewise(none) == [] && DecodeEach(none) == "";
  }

  // ---- the streaming decoder ---------------------------------------------------

  // What decoder.decode(value, {stream: true}) returns chunk by chunk.
  function Streamed(begun: Begun, chunks: seq<Bytes>): seq<string>
    decreases |chunks|
  {
    if chunks == [] then []
    else
      var r := Run(begun, chunks[0]);
      [r.text] + Streamed(r.begun, chunks[1..])
  }

  lemma {:induction false} StreamedIsRun(begun: Begun, chunks: seq<Bytes>)
    ensures Concat(Streamed(begun, chunks)) == Run(begun, Bytewise(chunks)).text
    decreases |chunks|
  {
    if chunks != [] {
      var r := Run(begun, chunks[0]);
      StreamedIsRun(r.begun, chunks[1..]);
      RunAppend(begun, chunks[0], Bytewise(chunks[1..]));
      assert Streamed(begun, chunks)[1..] == Streamed(r.begun, chunks[1..]);
      hide Run;
    }
  }

  /**
   A decoder that carries unfinished sequences over needs no condition: what it has returned is the text of the bytes
   so far, however they are cut, less a sequence unfinished at the end.
   */
  lemma StreamingNeedsNoCondition(chunks: seq<Bytes>)
    ensures Decode(Bytewise(chunks)) == Concat(Streamed([], chunks)) + Flushed(Run([], Bytewise(chunks)).begun)
    ensures forall s | Encode(s) == Bytewise(chunks) :: Concat(Streamed([], chunks)) == s
    ensures forall others | Bytewise(others) == Bytewise(chunks) :: Concat(Streamed([], others)) == Concat(Streamed([], chunks))
  {
    StreamedIsRun([], chunks);
    hide Run, Streamed, Bytewise;
    forall s | Encode(s) == Bytewise(chunks) ensures Concat(Streamed([], chunks)) == s {
      TextRoundTrip(s);
    }
    forall others | Bytewise(others) == Bytewise(chunks) ensures Concat(Streamed([], others)) == Concat(Streamed([], chunks)) {
      StreamedIsRun([], others);
    }
  }

  // ---- the lines the gateways route --------------------------------------------

  // What is routed of a text once the output is closed.
  function LinesOf(text: string): seq<string> {
    Routable(SplitAll(text, NL).pieces + [SplitAll(text, NL).rest])
  }

  lemma {:induction false} DecodeEachSnoc(chunks: seq<Bytes>, last: Bytes)
    ensures DecodeEach(chunks + [last]) == DecodeEach(chunks) + Decode(last)
  {
    hide Decode;
    if chunks == [] {
      assert [last][1..] == [] && chunks + [last] == [last];
    } else {
      assert (chunks + [last])[1..] == chunks[1..] + [last];
      DecodeEachSnoc(chunks[1..], last);
    }
  }

  /** The CLI's stdout, chunk by chunk, through `toString` and the line framer until it is closed. */
  method RouteOutput(chunks: seq<Bytes>) returns (routed: seq<string>)
    ensures routed == LinesOf(DecodeEach(chunks))
  {
    hide Decode, Routable, SplitAll;
    var framer := new LineFramer();
    for i := 0 to |chunks|
      invariant fresh(framer) && framer.Valid() && framer.seen == DecodeEach(chunks[..i])
    {
      assert chunks[..i + 1] == chunks[..i] + [chunks[i]];
      DecodeEachSnoc(chunks[..i], chunks[i]);
      framer.Consume(Decode(chunks[i]));
    }
    assert chunks[..|chunks|] == chunks;
    framer.Close();
    routed := framer.routed;
  }

  lemma {:induction false} SpacesUndamaged(s: string)
    requires Blank(s)
    ensures Damage(s) == 0
  {
    if s != "" {
      assert IsSpace(s[0]);
      SpacesUndamaged(s[1..]);
    }
  }

  lemma TrimDamage(s: string)
    ensures Damage(Trim(s)) == Damage(s)
  {
    var lo := SkipSpace(s, 0);
    var hi := SkipSpaceBack(s, lo, |s|);
    hide IsSpace, Damage, SkipSpace, SkipSpaceBack;
    assert s == s[..lo] + (s[lo..hi] + s[hi..]);
    SpacesUndamaged(s[..lo]);
    SpacesUndamaged(s[hi..]);
    DamageAppend(s[..lo], s[lo..hi] + s[hi..]);
    DamageAppend(s[lo..hi], s[hi..]);
  }

  lemma {:induction false} RoutableDamage(lines: seq<string>)
    ensures Damage(Concat(Routable(lines))) == Damage(Concat(lines))
  {
    hide Trim;
    if lines != [] {
      var first, more := Trim(lines[0]), Routable(lines[1..]);
      RoutableDamage(lines[1..]);
      TrimDamage(lines[0]);
      DamageAppend(lines[0], Concat(lines[1..]));
      if first == "" {
        assert Routable(lines) == more;
      } else {
        assert Routable(lines)[0] == first && Routable(lines)[1..] == more;
        DamageAppend(first, Concat(more));
      }
    }
  }

  lemma {:induction false} TerminatedDamage(pieces: seq<string>)
    ensures Damage(Terminated(pieces, NL)) == Damage(Concat(pieces))
  {
    if pieces != [] {
      TerminatedDamage(pieces[1..]);
      DamageOne('\n');
      DamageAppend(pieces[0] + NL, Terminated(pieces[1..], NL));
      DamageAppend(pieces[0], NL);
      DamageAppend(pieces[0], Concat(pieces[1..]));
      hide Damage;
    }
  }

  // Routing loses no replacement character.
  lemma LinesDamage(text: string)
    ensures Damage(Concat(LinesOf(text))) == Damage(text)
  {
    var split := SplitAll(text, NL);
    SplitIsFaithful(text, NL);
    hide SplitAll, Routable, Damage;
    RoutableDamage(split.pieces + [split.rest]);
    ConcatSnoc(split.pieces, split.rest);
    DamageAppend(Concat(split.pieces), split.rest);
    TerminatedDamage(split.pieces);
    DamageAppend(Terminated(split.pieces, NL), split.rest);
  }

  /** The lines a gateway routes are those of the CLI's output exactly if no chunk boundary falls inside a sequence. */
  lemma RoutedLinesIff(chunks: seq<Bytes>)
    ensures LinesOf(DecodeEach(chunks)) == LinesOf(Decode(Bytewise(chunks))) <==> CutBetween(chunks)
  {
    hide *;
    EachAgainstWhole(chunks);
    LinesDamage(DecodeEach(chunks));
    LinesDamage(Decode(Bytewise(chunks)));
  }
}
