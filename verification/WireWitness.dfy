/** The assumption on the JSON codec can be met: a small codec that has all it asks for. */
module WireWitness {
  import opened Text
  import opened Framing
  import opened Wire

  function Ones(n: nat): (s: string)
    ensures |s| == n && forall i | 0 <= i < n :: s[i] == '1'
  {
    seq(n, _ => '1')
  }

  // A text as unary character codes; the semicolon ends it.
  function Spell(s: string): string {
    if s == "" then ";" else Ones(s[0] as nat) + "," + Spell(s[1..])
  }

  predicate Plain(s: string) {
    forall i | 0 <= i < |s| :: !IsSpace(s[i]) && s[i] != '}'
  }

  lemma {:induction false} SpellIsPlain(s: string)
    ensures Plain(Spell(s)) && Spell(s) != ""
  {
    if s != "" {
      SpellIsPlain(s[1..]);
    }
  }

  lemma OnesEnd(m: nat, x: string, n: nat, y: string)
    requires Ones(m) + "," + x == Ones(n) + "," + y
    ensures m == n && x == y
  {
    var s, t := Ones(m) + "," + x, Ones(n) + "," + y;
    assert s[m] == ',' && t[n] == ',';
    assert forall i | 0 <= i < m :: s[i] == '1';
    assert forall i | 0 <= i < n :: t[i] == '1';
    assert x == s[m + 1..] && y == t[n + 1..];
  }

  // Spellings are told apart whatever follows them.
  lemma {:induction false} SpellIsPrefixFree(s: string, x: string, t: string, y: string)
    requires Spell(s) + x == Spell(t) + y
    ensures s == t && x == y
    decreases |s|
  {
    var a, b := Spell(s) + x, Spell(t) + y;
    if s != "" {
      assert a == Ones(s[0] as nat) + "," + (Spell(s[1..]) + x);
    }
    if t != "" {
      assert b == Ones(t[0] as nat) + "," + (Spell(t[1..]) + y);
    }
    assert a[0] == ';' <==> s == "";
    assert b[0] == ';' <==> t == "";
    if s != "" {
      OnesEnd(s[0] as nat, Spell(s[1..]) + x, t[0] as nat, Spell(t[1..]) + y);
      SpellIsPrefixFree(s[1..], x, t[1..], y);
      assert s == [s[0]] + s[1..] && t == [t[0]] + t[1..];
    } else {
      assert x == a[1..] && y == b[1..];
    }
  }

  function Head(f: Frame): char {
    match f
    case EventFrame(e) =>
      (match e.kind
       case AssistantText => if e.isError then 'a' else 'b'
       case ToolUse => if e.isError then 'c' else 'd'
       case ToolResult => if e.isError then 'e' else 'f'
       case ErrorEvent => if e.isError then 'g' else 'h')
    case ResultFrame(r) => if r.ok then 'i' else 'j'
  }

  function Body(f: Frame): string {
    match f
    case EventFrame(e) => Spell(e.text)
    case ResultFrame(r) => Spell(r.reply) + (Spell(r.error) + Spell(r.reason))
  }

  function Render(f: Frame): string {
    [Head(f)] + Body(f) + "}"
  }

  lemma RenderIsInjective(f: Frame, g: Frame)
    requires Render(f) == Render(g)
    ensures f == g
  {
    assert Head(f) == Render(f)[0] && Head(g) == Render(g)[0];
    assert Body(f) == Render(f)[1..|Render(f)| - 1] && Body(g) == Render(g)[1..|Render(g)| - 1];
    match f {
      case EventFrame(e) =>
        assert Body(f) == Body(f) + "" && Body(g) == Body(g) + "";
        SpellIsPrefixFree(e.text, "", g.event.text, "");
      case ResultFrame(r) =>
        SpellIsPrefixFree(r.reply, Spell(r.error) + Spell(r.reason), g.result.reply, Spell(g.result.error) + Spell(g.result.reason));
        SpellIsPrefixFree(r.error, Spell(r.reason), g.result.error, Spell(g.result.reason));
        assert Spell(r.reason) + "" == Spell(r.reason) && Spell(g.result.reason) + "" == Spell(g.result.reason);
        SpellIsPrefixFree(r.reason, "", g.result.reason, "");
    }
  }

  lemma RenderShape(f: Frame)
    ensures var s := Render(f); |s| > 1 && Plain(s[..|s| - 1]) && s[|s| - 1] == '}'
  {
    match f {
      case EventFrame(e) => SpellIsPlain(e.text);
      case ResultFrame(r) => SpellIsPlain(r.reply); SpellIsPlain(r.error); SpellIsPlain(r.reason);
    }
    var s := Render(f);
    assert s[..|s| - 1] == [Head(f)] + Body(f);
  }

  ghost function Parse(s: string): Parsed {
    if f :| Render(f) == s then Framed(f) else Malformed
  }

  lemma NothingToTrim(s: string)
    requires forall i | 0 <= i < |s| :: !IsSpace(s[i])
    ensures Trim(s) == s && Free(s, NL)
  {
    hide IsSpace;
    SkipSpaceIs(s, 0, 0);
    SkipSpaceBackIs(s, 0, |s|, |s|);
    assert IsSpace('\n') by { Newline(); }
    forall i: nat | i <= |s| ensures !OccursAt(s, NL, i) {
      if i < |s| { assert s[i..i + 1][0] == s[i]; }
    }
  }

  lemma Newline()
    ensures IsSpace('\n')
  {
  }

  /** A codec as the run protocol assumes it exists. */
  lemma LosslessCodecExists()
    ensures exists codec :: Lossless(codec)
  {
    var codec := Codec(Render, s => Parse(s), _ => true);
    forall f
      ensures codec.render(f) != "" && Trim(codec.render(f)) == codec.render(f) && Free(codec.render(f), NL)
      ensures codec.parse(codec.render(f)) == Framed(f)
      ensures forall k | 0 <= k < |codec.render(f)| :: codec.parse(Trim(codec.render(f)[..k])) == Malformed
    {
      var s := Render(f);
      RenderShape(f);
      NothingToTrim(s);
      forall g | Render(g) == s ensures g == f {
        RenderIsInjective(g, f);
      }
      forall k | 0 <= k < |s| ensures codec.parse(Trim(s[..k])) == Malformed {
        NothingToTrim(s[..k]);
        forall g ensures Render(g) != s[..k] {
          RenderShape(g);
        }
      }
    }
    assert Lossless(codec);
  }
}
