/** The string operations the device code relies on: `str::trim`,
    `str::contains` and left-aligned padding (`{:<5}`). Strings are sequences
    of Unicode scalar values, as Rust's `char`s are. */
module Text {

  /** The Unicode White_Space property, which `str::trim` strips. */
  predicate IsWhitespace(c: char) {
    var n := c as int;
    (0x09 <= n <= 0x0D) || n == 0x20 || n == 0x85 || n == 0xA0 || n == 0x1680
    || (0x2000 <= n <= 0x200A) || n == 0x2028 || n == 0x2029 || n == 0x202F
    || n == 0x205F || n == 0x3000
  }

  function TrimStart(s: string): (r: string)
    ensures |r| <= |s| && r == s[|s| - |r|..]
    ensures forall i :: 0 <= i < |s| - |r| ==> IsWhitespace(s[i])
    ensures |r| > 0 ==> !IsWhitespace(r[0])
  {
    if |s| > 0 && IsWhitespace(s[0]) then TrimStart(s[1..]) else s
  }

  function TrimEnd(s: string): (r: string)
    ensures |r| <= |s| && r == s[..|r|]
    ensures forall i :: |r| <= i < |s| ==> IsWhitespace(s[i])
    ensures |r| > 0 ==> !IsWhitespace(r[|r| - 1])
  {
    if |s| > 0 && IsWhitespace(s[|s| - 1]) then TrimEnd(s[..|s| - 1]) else s
  }

  /** `r` sits at position `i` of `s` with only whitespace around it. */
  ghost predicate FramedBy(s: string, i: int, r: string) {
    && 0 <= i && i + |r| <= |s| && s[i..i + |r|] == r
    && (forall k :: 0 <= k < i ==> IsWhitespace(s[k]))
    && (forall k :: i + |r| <= k < |s| ==> IsWhitespace(s[k]))
  }

  /** `str::trim`: `s` without its leading and trailing whitespace. */
  function Trim(s: string): (r: string)
    ensures exists i :: FramedBy(s, i, r)
    ensures |r| > 0 ==> !IsWhitespace(r[0]) && !IsWhitespace(r[|r| - 1])
  {
    var t := TrimStart(s);
    var r := TrimEnd(t);
    assert FramedBy(s, |s| - |t|, r);
    r
  }

  lemma {:induction false} TrimStartAt(s: string, i: nat)
    requires i <= |s|
    requires forall k :: 0 <= k < i ==> IsWhitespace(s[k])
    requires i < |s| ==> !IsWhitespace(s[i])
    ensures TrimStart(s) == s[i..]
    decreases i
  {
    if i > 0 {
      TrimStartAt(s[1..], i - 1);
      assert s[1..][i - 1..] == s[i..];
    }
  }

  lemma {:induction false} TrimEndAt(s: string, j: nat)
    requires j <= |s|
    requires forall k :: j <= k < |s| ==> IsWhitespace(s[k])
    requires j > 0 ==> !IsWhitespace(s[j - 1])
    ensures TrimEnd(s) == s[..j]
    decreases |s| - j
  {
    if j < |s| {
      TrimEndAt(s[..|s| - 1], j);
      assert s[..|s| - 1][..j] == s[..j];
    }
  }

  /** The trimmed string is the only whitespace-framed part of `s` that neither
      starts nor ends with whitespace. */
  lemma TrimUnique(s: string, i: int, r: string)
    requires FramedBy(s, i, r)
    requires |r| > 0 ==> !IsWhitespace(r[0]) && !IsWhitespace(r[|r| - 1])
    ensures Trim(s) == r
  {
    if |r| == 0 {
      assert forall k :: 0 <= k < |s| ==> IsWhitespace(s[k]) by {
        forall k | 0 <= k < |s| ensures IsWhitespace(s[k]) {
          if k >= i { assert i + |r| <= k; }
        }
      }
      TrimStartAt(s, |s|);
    } else {
      assert s[i] == r[0];
      TrimStartAt(s, i);
      var t := s[i..];
      assert t[..|r|] == r;
      TrimEndAt(t, |r|);
    }
  }

  lemma TrimIdempotent(s: string)
    ensures Trim(Trim(s)) == Trim(s)
  {
    var r := Trim(s);
    assert FramedBy(r, 0, r);
    TrimUnique(r, 0, r);
  }

  /** `needle` occurs in `hay` at position `i`. */
  predicate OccursAt(hay: string, needle: string, i: int) {
    0 <= i && i + |needle| <= |hay| && hay[i..i + |needle|] == needle
  }

  ghost predicate Occurs(hay: string, needle: string) {
    exists i :: OccursAt(hay, needle, i)
  }

  lemma ShiftOccurs(hay: string, needle: string)
    requires |hay| > 0
    ensures forall j :: OccursAt(hay[1..], needle, j) ==> OccursAt(hay, needle, j + 1)
    ensures forall j :: 1 <= j && OccursAt(hay, needle, j) ==> OccursAt(hay[1..], needle, j - 1)
  {
    forall j | OccursAt(hay[1..], needle, j) ensures OccursAt(hay, needle, j + 1) {
      assert hay[1..][j..j + |needle|] == hay[j + 1..j + 1 + |needle|];
    }
    forall j | 1 <= j && OccursAt(hay, needle, j) ensures OccursAt(hay[1..], needle, j - 1) {
      assert hay[1..][j - 1..j - 1 + |needle|] == hay[j..j + |needle|];
    }
  }

  /** `str::contains` with a string pattern. */
  function Contains(hay: string, needle: string): (r: bool)
    ensures r <==> Occurs(hay, needle)
    decreases |hay|
  {
    if |needle| > |hay| then false
    else if hay[..|needle|] == needle then assert OccursAt(hay, needle, 0); true
    else ShiftOccurs(hay, needle); Contains(hay[1..], needle)
  }

  function Spaces(n: nat): (r: string)
    ensures |r| == n && forall i :: 0 <= i < n ==> r[i] == ' '
  {
    seq(n, _ => ' ')
  }

  /** `{:<width}`: `s` left-aligned and padded with spaces to at least `width` characters. */
  function PadRight(s: string, width: nat): (r: string)
    ensures |r| == if |s| < width then width else |s|
    ensures r[..|s|] == s
    ensures forall i :: |s| <= i < |r| ==> r[i] == ' '
  {
    if |s| < width then s + Spaces(width - |s|) else s
  }
}
