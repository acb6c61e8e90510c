/** Options and the string primitives of JavaScript that the models share. */
module Text {

  datatype Option<+T> = None | Some(value: T)

  type byte = x: int | 0 <= x < 256
  type Bytes = seq<byte>

  const NL: string := "\n"

  // The characters String.prototype.trim removes and `\s` matches:
  // the WhiteSpace and LineTerminator productions of ECMAScript.
  predicate IsSpace(c: char) {
    var n := c as int;
    || 9 <= n <= 13 || n == 32 || n == 0xA0 || n == 0x1680 || 0x2000 <= n <= 0x200A
    || n == 0x2028 || n == 0x2029 || n == 0x202F || n == 0x205F || n == 0x3000 || n == 0xFEFF
  }

  // The first index at or after `i` that holds no space.
  function SkipSpace(s: string, i: nat): (r: nat)
    requires i <= |s|
    ensures i <= r <= |s|
    ensures forall k | i <= k < r :: IsSpace(s[k])
    ensures r < |s| ==> !IsSpace(s[r])
    decreases |s| - i
  {
    if i == |s| || !IsSpace(s[i]) then i else SkipSpace(s, i + 1)
  }

  // The end of `s[lo..hi]` without its trailing spaces.
  function SkipSpaceBack(s: string, lo: nat, hi: nat): (r: nat)
    requires lo <= hi <= |s|
    ensures lo <= r <= hi
    ensures forall k | r <= k < hi :: IsSpace(s[k])
    ensures lo < r ==> !IsSpace(s[r - 1])
    decreases hi
  {
    if hi == lo || !IsSpace(s[hi - 1]) then hi else SkipSpaceBack(s, lo, hi - 1)
  }

  lemma SkipSpaceIs(s: string, i: nat, r: nat)
    requires i <= r <= |s| && (forall k | i <= k < r :: IsSpace(s[k])) && (r < |s| ==> !IsSpace(s[r]))
    ensures SkipSpace(s, i) == r
  {
    hide IsSpace, SkipSpace;
    var q := SkipSpace(s, i);
  }

  lemma SkipSpaceBackIs(s: string, lo: nat, hi: nat, r: nat)
    requires lo <= r <= hi <= |s| && (forall k | r <= k < hi :: IsSpace(s[k])) && (lo < r ==> !IsSpace(s[r - 1]))
    ensures SkipSpaceBack(s, lo, hi) == r
  {
    hide IsSpace, SkipSpaceBack;
    var q := SkipSpaceBack(s, lo, hi);
  }

  predicate Blank(s: string) {
    forall i | 0 <= i < |s| :: IsSpace(s[i])
  }

  // Lower case of the ASCII letters, as case-insensitive patterns compare them.
  function Lower(c: char): char {
    if 'A' <= c <= 'Z' then (c as int + 32) as char else c
  }

  function Trim(s: string): (r: string)
    ensures r != "" ==> !IsSpace(r[0]) && !IsSpace(r[|r| - 1])
    ensures r == "" <==> forall i | 0 <= i < |s| :: IsSpace(s[i])
  {
    var lo := SkipSpace(s, 0);
    s[lo..SkipSpaceBack(s, lo, |s|)]
  }

  predicate OccursAt(s: string, pat: string, i: nat) {
    i + |pat| <= |s| && s[i..i + |pat|] == pat
  }

  // String.prototype.indexOf: the leftmost occurrence at or after `from`, or -1.
  function IndexOf(s: string, pat: string, from: nat): (r: int)
    ensures r < 0 ==> r == -1 && forall i: nat | from <= i :: !OccursAt(s, pat, i)
    ensures r >= 0 ==> from <= r && OccursAt(s, pat, r)
    ensures r >= 0 ==> forall i: nat | from <= i < r :: !OccursAt(s, pat, i)
    decreases |s| + 1 - from
  {
    if |s| < from + |pat| then -1
    else if OccursAt(s, pat, from) then from
    else if from == |s| then -1
    else IndexOf(s, pat, from + 1)
  }

  // Appending text cannot move the leftmost occurrence.
  lemma IndexOfAppend(a: string, b: string, pat: string)
    requires IndexOf(a, pat, 0) >= 0
    ensures IndexOf(a + b, pat, 0) == IndexOf(a, pat, 0)
  {
    var i, r := IndexOf(a, pat, 0), IndexOf(a + b, pat, 0);
    assert (a + b)[i..i + |pat|] == a[i..i + |pat|];
    assert OccursAt(a + b, pat, i);
    if r < i {
      assert (a + b)[r..r + |pat|] == a[r..r + |pat|];
      assert OccursAt(a, pat, r);
    }
  }

  function Concat(parts: seq<string>): string {
    if parts == [] then "" else parts[0] + Concat(parts[1..])
  }

  lemma ConcatSnoc(parts: seq<string>, last: string)
    ensures Concat(parts + [last]) == Concat(parts) + last
  {
    if parts == [] {
    } else {
      assert (parts + [last])[1..] == parts[1..] + [last];
      ConcatSnoc(parts[1..], last);
    }
  }
}
