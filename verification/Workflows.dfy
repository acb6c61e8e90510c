/** Workflow definitions: the output references in tool inputs and the cross-step validator. */
module Workflows {
  import opened Text

  datatype Ref = Ref(id: string, field: Option<string>)
  datatype Match = Match(ref: Ref, len: nat)

  // ---- the reference grammar ---------------------------------------------------

  predicate Alphanumeric(c: char) {
    'a' <= Lower(c) <= 'z' || '0' <= c <= '9' || c == '_'
  }

  predicate IdChar(c: char) {
    Alphanumeric(c) || c == '-'
  }

  predicate IsOutput(s: string) {
    |s| == 7 && forall i | 0 <= i < 7 :: Lower(s[i]) == ".output"[i]
  }

  function FieldText(field: Option<string>): string {
    if field.Some? then "." + field.value else ""
  }

  predicate LegalRef(ref: Ref) {
    && ref.id != "" && (forall i | 0 <= i < |ref.id| :: IdChar(ref.id[i]))
    && (ref.field.Some? ==> ref.field.value != "" && forall i | 0 <= i < |ref.field.value| :: Alphanumeric(ref.field.value[i]))
  }

  predicate Spaces(s: string, lo: nat, hi: nat) {
    lo <= hi <= |s| && forall k | lo <= k < hi :: IsSpace(s[k])
  }

  // The id lies at i, `.output` at j, the field before f and the closing braces at e.
  predicate Layout(s: string, ref: Ref, i: nat, j: nat, f: nat, e: nat) {
    && 2 <= i <= j && j + 7 <= f <= e && e + 2 <= |s|
    && s[..2] == "{{" && Spaces(s, 2, i) && s[i..j] == ref.id && IsOutput(s[j..j + 7])
    && s[j + 7..f] == FieldText(ref.field) && Spaces(s, f, e) && s[e..e + 2] == "}}"
  }

  // {{ id.output }} or {{ id.output.field }}, with spaces inside the braces and `output` in any case.
  ghost predicate Spells(s: string, len: nat, ref: Ref) {
    LegalRef(ref) && exists i: nat, j: nat, f: nat, e: nat :: Layout(s, ref, i, j, f, e) && len == e + 2
  }

  function RunEnd(s: string, i: nat, p: char -> bool): (r: nat)
    requires i <= |s|
    ensures i <= r <= |s| && (forall k | i <= k < r :: p(s[k])) && (r < |s| ==> !p(s[r]))
    decreases |s| - i
  {
    if i == |s| || !p(s[i]) then i else RunEnd(s, i + 1, p)
  }

  // What the expression matches at the start of s; none of its runs can be cut short.
  function MatchHere(s: string): Option<Match> {
    if !OccursAt(s, "{{", 0) then None
    else
      var i := SkipSpace(s, 2);
      var j := RunEnd(s, i, IdChar);
      if j == i || j + 7 > |s| || !IsOutput(s[j..j + 7]) then None
      else
        var k := j + 7;
        var dotted := k < |s| && s[k] == '.';
        var m := if dotted then RunEnd(s, k + 1, Alphanumeric) else k;
        var e := SkipSpace(s, m);
        if (dotted && m == k + 1) || !OccursAt(s, "}}", e) then None
        else Some(Match(Ref(s[i..j], if dotted then Some(s[k + 1..m]) else None), e + 2))
  }

  /** The matcher is exact: it finds a reference precisely when one is spelled there, and only one can be. */
  lemma MatchIsExact(s: string, m: Match)
    ensures MatchHere(s) == Some(m) <==> Spells(s, m.len, m.ref)
  {
    if MatchHere(s) == Some(m) {
      MatchedIsSpelled(s, m);
    } else if Spells(s, m.len, m.ref) {
      var i: nat, j: nat, f: nat, e: nat :| Layout(s, m.ref, i, j, f, e) && m.len == e + 2;
      SpelledIsMatched(s, m, i, j, f, e);
    }
  }

  lemma MatchedIsSpelled(s: string, m: Match)
    requires MatchHere(s) == Some(m)
    ensures Spells(s, m.len, m.ref)
  {
    hide IsSpace, IdChar, Alphanumeric, IsOutput, RunEnd, SkipSpace;
    var i := SkipSpace(s, 2);
    var j := RunEnd(s, i, IdChar);
    var k := j + 7;
    var f := if k < |s| && s[k] == '.' then RunEnd(s, k + 1, Alphanumeric) else k;
    var e := SkipSpace(s, f);
    if f > k {
      assert s[k..f] == [s[k]] + s[k + 1..f];
    }
    assert s[k..f] == FieldText(m.ref.field);
    assert Layout(s, m.ref, i, j, f, e);
  }

  lemma CharClasses()
    ensures forall c | IdChar(c) || Alphanumeric(c) :: !IsSpace(c) && c != '.' && c != '}'
    ensures !IsSpace('.') && !IsSpace('}')
    ensures !IdChar('.') && !Alphanumeric('}') && forall c | IsSpace(c) :: !Alphanumeric(c) && c != '.'
  {
  }

  // The runs end where the layout says.
  lemma RunsEnd(s: string, ref: Ref, i: nat, j: nat, f: nat, e: nat)
    requires LegalRef(ref) && Layout(s, ref, i, j, f, e)
    ensures i < j && SkipSpace(s, 2) == i && RunEnd(s, i, IdChar) == j && SkipSpace(s, f) == e
  {
    CharClasses();
    assert s[i] == s[i..j][0] && s[e] == s[e..e + 2][0] == '}';
    assert s[j] == s[j..j + 7][0] && Lower('.') == '.';
    assert s[j] == '.';
    assert forall x | i <= x < j :: s[x] == s[i..j][x - i];
    hide IsSpace, IdChar, Alphanumeric;
  }

  lemma FieldEnds(s: string, ref: Ref, i: nat, j: nat, f: nat, e: nat)
    requires LegalRef(ref) && Layout(s, ref, i, j, f, e)
    ensures s[j + 7] == '.' <==> ref.field.Some?
    ensures ref.field.Some? ==> f > j + 8 && RunEnd(s, j + 8, Alphanumeric) == f && s[j + 8..f] == ref.field.value
    ensures ref.field.None? ==> f == j + 7
  {
    CharClasses();
    var k, field := j + 7, FieldText(ref.field);
    assert s[e] == s[e..e + 2][0] == '}';
    assert forall x | k <= x < f :: s[x] == s[k..f][x - k] == field[x - k];
    hide IsSpace, Alphanumeric, IsOutput;
    if ref.field.Some? {
      assert s[k + 1..f] == s[k..f][1..];
      assert f < |s| && !Alphanumeric(s[f]);
    }
  }

  lemma SpelledIsMatched(s: string, m: Match, i: nat, j: nat, f: nat, e: nat)
    requires LegalRef(m.ref) && Layout(s, m.ref, i, j, f, e) && m.len == e + 2
    ensures MatchHere(s) == Some(m)
  {
    hide IsSpace, IdChar, Alphanumeric, IsOutput, RunEnd, SkipSpace, LegalRef;
    RunsEnd(s, m.ref, i, j, f, e);
    FieldEnds(s, m.ref, i, j, f, e);
  }

  // ---- the references of a text ------------------------------------------------

  function Refs(s: string, from: nat): seq<Ref>
    requires from <= |s|
    decreases |s| - from
  {
    if from == |s| then []
    else match MatchHere(s[from..])
      case None => Refs(s, from + 1)
      case Some(m) => [m.ref] + Refs(s, from + m.len)
  }

  // Leftmost first, each search after the end of the last reference.
  ghost predicate Reads(s: string, from: nat, refs: seq<Ref>)
    requires from <= |s|
    decreases |refs|
  {
    if refs == [] then forall i: nat, len: nat, r: Ref | from <= i <= |s| :: !Spells(s[i..], len, r)
    else
      exists p: nat, len: nat ::
        && from <= p && p + len <= |s| && Spells(s[p..], len, refs[0])
        && (forall i: nat, n: nat, r: Ref | from <= i < p :: !Spells(s[i..], n, r))
        && Reads(s, p + len, refs[1..])
  }

  lemma NothingSpelled(s: string)
    requires MatchHere(s).None?
    ensures forall len: nat, r: Ref :: !Spells(s, len, r)
  {
    forall len: nat, r: Ref ensures !Spells(s, len, r) {
      MatchIsExact(s, Match(r, len));
    }
  }

  // A search may start after a position where nothing is spelled.
  lemma ReadsSkip(s: string, from: nat, refs: seq<Ref>)
    requires from < |s| && MatchHere(s[from..]).None? && Reads(s, from + 1, refs)
    ensures Reads(s, from, refs)
  {
    NothingSpelled(s[from..]);
    hide Spells, MatchHere;
    if refs != [] {
      var p: nat, len: nat :| from + 1 <= p && p + len <= |s| && Spells(s[p..], len, refs[0])
        && (forall i: nat, n: nat, r: Ref | from + 1 <= i < p :: !Spells(s[i..], n, r))
        && Reads(s, p + len, refs[1..]);
      assert Reads(s, p + len, refs[1..]);
    }
  }

  /** Extraction reads the text leftmost first, and there is one such reading. */
  lemma {:induction false} RefsAreLeftmost(s: string, from: nat)
    requires from <= |s|
    ensures Reads(s, from, Refs(s, from))
    decreases |s| - from
  {
    hide MatchHere, Spells;
    if from == |s| {
      NothingAtEnd(s[from..]);
    } else {
      match MatchHere(s[from..]) {
        case None =>
          RefsAreLeftmost(s, from + 1);
          ReadsSkip(s, from, Refs(s, from + 1));
        case Some(m) =>
          MatchIsExact(s[from..], m);
          MatchFits(s[from..], m);
          RefsAreLeftmost(s, from + m.len);
          var refs := Refs(s, from);
          assert refs[0] == m.ref && refs[1..] == Refs(s, from + m.len);
          assert Spells(s[from..], m.len, refs[0]) && Reads(s, from + m.len, refs[1..]);
      }
    }
  }

  lemma NothingAtEnd(s: string)
    requires s == ""
    ensures MatchHere(s).None? && forall len: nat, r: Ref :: !Spells(s, len, r)
  {
    NothingSpelled(s);
  }

  lemma MatchFits(s: string, m: Match)
    requires MatchHere(s) == Some(m)
    ensures 0 < m.len <= |s|
  {
  }

  lemma {:induction false} ReadingIsUnique(s: string, from: nat, a: seq<Ref>, b: seq<Ref>)
    requires from <= |s| && Reads(s, from, a) && Reads(s, from, b)
    ensures a == b
    decreases |a|
  {
    hide Spells, MatchHere, Reads;
    if a != [] && b != [] {
      var p, m := FirstRead(s, from, a);
      var q, n := FirstRead(s, from, b);
      assert p == q;
      MatchIsExact(s[p..], Match(a[0], m));
      MatchIsExact(s[p..], Match(b[0], n));
      ReadingIsUnique(s, p + m, a[1..], b[1..]);
    } else if a != [] {
      NotNothing(s, from, a, b);
    } else if b != [] {
      NotNothing(s, from, b, a);
    }
  }

  // The first reference of a reading, and where it stands.
  lemma FirstRead(s: string, from: nat, refs: seq<Ref>) returns (p: nat, m: nat)
    requires from <= |s| && refs != [] && Reads(s, from, refs)
    ensures from <= p && p + m <= |s| && Spells(s[p..], m, refs[0]) && Reads(s, p + m, refs[1..])
    ensures forall i: nat, n: nat, r: Ref | from <= i < p :: !Spells(s[i..], n, r)
  {
    hide Spells;
    p, m :| from <= p && p + m <= |s| && Spells(s[p..], m, refs[0])
      && (forall i: nat, n: nat, r: Ref | from <= i < p :: !Spells(s[i..], n, r)) && Reads(s, p + m, refs[1..]);
  }

  lemma NotNothing(s: string, from: nat, refs: seq<Ref>, none: seq<Ref>)
    requires from <= |s| && refs != [] && none == [] && Reads(s, from, refs)
    ensures !Reads(s, from, none)
  {
    hide Spells;
    var p, m := FirstRead(s, from, refs);
  }

  method ExtractOutputRefs(value: string) returns (refs: seq<Ref>)
    ensures Reads(value, 0, refs)
    ensures refs == Refs(value, 0)
  {
    hide MatchHere, Reads;
    refs := [];
    var last := 0;
    while last < |value|
      invariant last <= |value|
      invariant Refs(value, 0) == refs + Refs(value, last)
      decreases |value| - last
    {
      var m := MatchHere(value[last..]);
      if m.Some? {
        MatchFits(value[last..], m.value);
        refs := refs + [m.value.ref];
        last := last + m.value.len;
      } else {
        last := last + 1;
      }
    }
    assert refs == Refs(value, 0);
    RefsAreLeftmost(value, 0);
  }

  // ---- substitution ------------------------------------------------------------

  function Resolve(s: string, from: nat, lookup: Ref -> string): string
    requires from <= |s|
    decreases |s| - from
  {
    if from == |s| then ""
    else match MatchHere(s[from..])
      case None => [s[from]] + Resolve(s, from + 1, lookup)
      case Some(m) => lookup(m.ref) + Resolve(s, from + m.len, lookup)
  }

  // The text between the references, and the spelling of each.
  function Literals(s: string, from: nat): (r: seq<string>)
    requires from <= |s|
    ensures r != []
    decreases |s| - from
  {
    if from == |s| then [""]
    else match MatchHere(s[from..])
      case None => var rest := Literals(s, from + 1); [[s[from]] + rest[0]] + rest[1..]
      case Some(m) => [""] + Literals(s, from + m.len)
  }

  function Spellings(s: string, from: nat): seq<string>
    requires from <= |s|
    decreases |s| - from
  {
    if from == |s| then []
    else match MatchHere(s[from..])
      case None => Spellings(s, from + 1)
      case Some(m) => [s[from..from + m.len]] + Spellings(s, from + m.len)
  }

  function Weave(literals: seq<string>, values: seq<string>): string
    requires |literals| == |values| + 1
  {
    if values == [] then literals[0] else literals[0] + values[0] + Weave(literals[1..], values[1..])
  }

  function Looked(refs: seq<Ref>, lookup: Ref -> string): (r: seq<string>)
    ensures |r| == |refs| && forall i | 0 <= i < |r| :: r[i] == lookup(refs[i])
  {
    if refs == [] then [] else [lookup(refs[0])] + Looked(refs[1..], lookup)
  }

  lemma WeaveLonger(c: char, literals: seq<string>, values: seq<string>)
    requires |literals| == |values| + 1
    ensures Weave([[c] + literals[0]] + literals[1..], values) == [c] + Weave(literals, values)
  {
    var longer := [[c] + literals[0]] + literals[1..];
    assert longer[1..] == literals[1..];
    if values != [] {
      assert [c] + (literals[0] + values[0] + Weave(literals[1..], values[1..]))
          == [c] + literals[0] + values[0] + Weave(literals[1..], values[1..]);
    }
  }

  lemma WeaveEmpty(value: string, literals: seq<string>, values: seq<string>)
    requires |literals| == |values| + 1
    ensures Weave([""] + literals, [value] + values) == value + Weave(literals, values)
  {
    assert ([""] + literals)[1..] == literals && ([value] + values)[1..] == values;
    assert "" + value == value;
  }

  /** Resolving looks up the extracted references, each once and in order, and changes nothing between them. */
  lemma {:induction false} ResolveWeaves(s: string, from: nat, lookup: Ref -> string)
    requires from <= |s|
    ensures |Literals(s, from)| == |Refs(s, from)| + 1 && |Spellings(s, from)| == |Refs(s, from)|
    ensures Resolve(s, from, lookup) == Weave(Literals(s, from), Looked(Refs(s, from), lookup))
    ensures s[from..] == Weave(Literals(s, from), Spellings(s, from))
    decreases |s| - from
  {
    hide MatchHere;
    if from < |s| {
      match MatchHere(s[from..]) {
        case None =>
          ResolveWeaves(s, from + 1, lookup);
          WeaveLonger(s[from], Literals(s, from + 1), Looked(Refs(s, from + 1), lookup));
          WeaveLonger(s[from], Literals(s, from + 1), Spellings(s, from + 1));
          assert s[from..] == [s[from]] + s[from + 1..];
        case Some(m) =>
          MatchFits(s[from..], m);
          ResolveWeaves(s, from + m.len, lookup);
          var rest := Refs(s, from + m.len);
          assert Refs(s, from)[1..] == rest;
          WeaveEmpty(lookup(m.ref), Literals(s, from + m.len), Looked(rest, lookup));
          WeaveEmpty(s[from..from + m.len], Literals(s, from + m.len), Spellings(s, from + m.len));
          assert s[from..] == s[from..from + m.len] + s[from + m.len..];
      }
    }
  }

  /** Only the extracted references matter to the result. */
  lemma ResolveDependsOnRefs(s: string, f: Ref -> string, g: Ref -> string)
    requires forall r | r in Refs(s, 0) :: f(r) == g(r)
    ensures Resolve(s, 0, f) == Resolve(s, 0, g)
  {
    ResolveWeaves(s, 0, f);
    ResolveWeaves(s, 0, g);
    hide Refs, Resolve, Literals, Spellings, Weave;
    assert forall r | r in Refs(s, 0) :: f(r) == g(r);
    assert Looked(Refs(s, 0), f) == Looked(Refs(s, 0), g);
  }

  // ---- the validator -----------------------------------------------------------

  datatype Entry = Entry(key: string, value: string)
  datatype Step = Work(id: Option<string>, onFailGoto: Option<string>, input: seq<Entry>) | MetaAction
  datatype Issue = UnknownReference(step: nat, key: string, id: string) | DuplicateId(step: nat) | UnknownGoto(step: nat)

  function IdOf(s: Step): Option<string> {
    match s case Work(id, _, _) => id case MetaAction => None
  }

  // Some step before i has this id.
  ghost predicate Named(steps: seq<Step>, i: nat, id: string) {
    exists j :: 0 <= j < i && j < |steps| && IdOf(steps[j]) == Some(id)
  }

  ghost predicate References(e: Entry, id: string) {
    exists r :: r in Refs(e.value, 0) && r.id == id
  }

  ghost predicate IsIssue(steps: seq<Step>, x: Issue) {
    x.step < |steps| && steps[x.step].Work? &&
    match x
    case UnknownReference(i, key, id) =>
      !Named(steps, i, id) && exists e :: e in steps[i].input && e.key == key && References(e, id)
    case DuplicateId(i) => steps[i].id.Some? && Named(steps, i, steps[i].id.value)
    case UnknownGoto(i) => steps[i].onFailGoto.Some? && !Named(steps, |steps|, steps[i].onFailGoto.value)
  }

  ghost predicate IdsAreUnique(steps: seq<Step>) {
    forall i, j | 0 <= i < j < |steps| && IdOf(steps[i]).Some? :: IdOf(steps[i]) != IdOf(steps[j])
  }

  ghost predicate GotosExist(steps: seq<Step>) {
    forall i | 0 <= i < |steps| && steps[i].Work? && steps[i].onFailGoto.Some? ::
      exists j :: 0 <= j < |steps| && IdOf(steps[j]) == steps[i].onFailGoto
  }

  // Every input reference names a strictly earlier step.
  ghost predicate InputsLookBack(steps: seq<Step>) {
    forall i, e, r | 0 <= i < |steps| && steps[i].Work? && e in steps[i].input && r in Refs(e.value, 0) ::
      exists j :: 0 <= j < i && IdOf(steps[j]) == Some(r.id)
  }

  ghost predicate WellFormed(steps: seq<Step>) {
    IdsAreUnique(steps) && GotosExist(steps) && InputsLookBack(steps)
  }

  // References under one key that no earlier step answers.
  ghost predicate Unanswered(x: Issue, i: nat, key: string, refs: seq<Ref>, seen: set<string>) {
    x.UnknownReference? && x.step == i && x.key == key && x.id !in seen && exists r :: r in refs && r.id == x.id
  }

  method CheckReferences(i: nat, key: string, refs: seq<Ref>, seen: set<string>) returns (found: seq<Issue>)
    ensures forall x :: x in found <==> Unanswered(x, i, key, refs, seen)
  {
    found := [];
    var n := 0;
    while n < |refs|
      invariant n <= |refs|
      invariant forall x :: x in found <==> Unanswered(x, i, key, refs[..n], seen)
    {
      if refs[n].id !in seen {
        found := found + [UnknownReference(i, key, refs[n].id)];
      }
      assert refs[..n + 1] == refs[..n] + [refs[n]];
      n := n + 1;
    }
    assert refs[..|refs|] == refs;
  }

  // The references of one step's input that no earlier step answers.
  method CheckInput(i: nat, input: seq<Entry>, seen: set<string>) returns (found: seq<Issue>)
    ensures forall x :: x in found <==> exists e :: e in input && Unanswered(x, i, e.key, Refs(e.value, 0), seen)
  {
    hide Refs, Reads, Unanswered;
    found := [];
    var k := 0;
    while k < |input|
      invariant k <= |input|
      invariant forall x :: x in found <==> exists e :: e in input[..k] && Unanswered(x, i, e.key, Refs(e.value, 0), seen)
    {
      var refs := ExtractOutputRefs(input[k].value);
      var more := CheckReferences(i, input[k].key, refs, seen);
      found := found + more;
      assert input[..k + 1] == input[..k] + [input[k]];
      k := k + 1;
    }
    assert input[..|input|] == input;
  }

  /** One pass reports exactly the violations. */
  method Validate(steps: seq<Step>) returns (issues: seq<Issue>)
    ensures forall x :: x in issues <==> IsIssue(steps, x)
    ensures issues == [] <==> WellFormed(steps)
  {
    var seen: set<string>, ids: set<string> := {}, {};
    for i := 0 to |steps|
      invariant forall id :: id in ids <==> Named(steps, i, id)
    {
      if steps[i].Work? && steps[i].id.Some? {
        ids := ids + {steps[i].id.value};
      }
    }
    issues := [];
    for i := 0 to |steps|
      invariant forall id :: id in seen <==> Named(steps, i, id)
      invariant forall x :: x in issues <==> x.step < i && IsIssue(steps, x)
    {
      if steps[i].Work? {
        var s := steps[i];
        var found := CheckInput(i, s.input, seen);
        issues := issues + found;
        if s.id.Some? {
          if s.id.value in seen {
            issues := issues + [DuplicateId(i)];
          }
          seen := seen + {s.id.value};
        }
        if s.onFailGoto.Some? && s.onFailGoto.value !in ids {
          issues := issues + [UnknownGoto(i)];
        }
      }
    }
    NoIssueIffWellFormed(steps, issues);
  }

  lemma NoIssueIffWellFormed(steps: seq<Step>, issues: seq<Issue>)
    requires forall x :: x in issues <==> IsIssue(steps, x)
    ensures issues == [] <==> WellFormed(steps)
  {
    hide Refs;
    if issues == [] {
      NoIssueIsWellFormed(steps);
    } else if WellFormed(steps) {
      assert issues[0] in issues;
      WellFormedHasNoIssue(steps, issues[0]);
    }
  }

  lemma NoIssueIsWellFormed(steps: seq<Step>)
    requires forall x :: !IsIssue(steps, x)
    ensures WellFormed(steps)
  {
    forall i, j | 0 <= i < j < |steps| && IdOf(steps[i]).Some? ensures IdOf(steps[i]) != IdOf(steps[j]) {
      assert !IsIssue(steps, DuplicateId(j));
      assert IdOf(steps[i]) == IdOf(steps[j]) ==> Named(steps, j, IdOf(steps[i]).value);
    }
    assert IdsAreUnique(steps);
    forall i | 0 <= i < |steps| && steps[i].Work? && steps[i].onFailGoto.Some?
      ensures exists j :: 0 <= j < |steps| && IdOf(steps[j]) == steps[i].onFailGoto
    {
      assert !IsIssue(steps, UnknownGoto(i));
    }
    assert GotosExist(steps);
    forall i, e, r | 0 <= i < |steps| && steps[i].Work? && e in steps[i].input && r in Refs(e.value, 0)
      ensures exists j :: 0 <= j < i && IdOf(steps[j]) == Some(r.id)
    {
      assert !IsIssue(steps, UnknownReference(i, e.key, r.id));
      assert References(e, r.id);
      assert Named(steps, i, r.id);
    }
    assert InputsLookBack(steps);
  }

  lemma WellFormedHasNoIssue(steps: seq<Step>, x: Issue)
    requires WellFormed(steps)
    ensures !IsIssue(steps, x)
  {
    hide Refs;
  }

  /** On a valid definition, what a step's input resolves to depends on the outputs of earlier steps only. */
  lemma ValidStepsReadBackwards(steps: seq<Step>, i: nat, e: Entry, f: Ref -> string, g: Ref -> string)
    requires WellFormed(steps) && i < |steps| && steps[i].Work? && e in steps[i].input
    requires forall r: Ref, j | 0 <= j < i && IdOf(steps[j]) == Some(r.id) :: f(r) == g(r)
    ensures Resolve(e.value, 0, f) == Resolve(e.value, 0, g)
  {
    forall r | r in Refs(e.value, 0) ensures f(r) == g(r) {
      var j :| 0 <= j < i && IdOf(steps[j]) == Some(r.id);
    }
    ResolveDependsOnRefs(e.value, f, g);
  }
}
