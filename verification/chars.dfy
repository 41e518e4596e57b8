/**
 * Character classes and small string operations shared by every component.
 * Python's `\w`, `\s`, `str.lower`, `str.upper`, `str.strip` and `str.isalnum`
 * are Unicode-aware; they are modelled here on ASCII.
 */
module Chars {

  /** `\s` and `str.isspace()` on ASCII: space, tab, newline, vertical tab,
    * form feed, carriage return (`\t`-`\r`) and the four separators
    * `\x1c`-`\x1f`. */
  predicate IsSpace(c: char) {
    c == ' ' || '\t' <= c <= '\r' || '\U{1C}' <= c <= '\U{1F}'
  }

  predicate IsUpperChar(c: char) { 'A' <= c <= 'Z' }

  predicate IsAlnumChar(c: char) {
    'a' <= c <= 'z' || IsUpperChar(c) || '0' <= c <= '9'
  }

  /** `\w`: letters, digits and the underscore. */
  predicate IsWordChar(c: char) { IsAlnumChar(c) || c == '_' }

  /** `str.isalnum()`: non-empty and every character a letter or a digit. */
  predicate IsAlnum(s: string) {
    |s| > 0 && forall i :: 0 <= i < |s| ==> IsAlnumChar(s[i])
  }

  predicate AllSpace(s: string) {
    forall i :: 0 <= i < |s| ==> IsSpace(s[i])
  }

  function LowerChar(c: char): (r: char)
    ensures !IsUpperChar(r)
    ensures IsUpperChar(c) ==> r as int == c as int + 32
    ensures !IsUpperChar(c) ==> r == c
  {
    if IsUpperChar(c) then (c as int + 32) as char else c
  }

  function UpperChar(c: char): (r: char)
    ensures 'a' <= c <= 'z' ==> r as int == c as int - 32
    ensures !('a' <= c <= 'z') ==> r == c
  {
    if 'a' <= c <= 'z' then (c as int - 32) as char else c
  }

  /** `str.lower()` */
  function Lower(s: string): (r: string)
    ensures |r| == |s|
    ensures forall i :: 0 <= i < |s| ==> r[i] == LowerChar(s[i])
  {
    if s == [] then [] else [LowerChar(s[0])] + Lower(s[1..])
  }

  /** `str.upper()` */
  function Upper(s: string): (r: string)
    ensures |r| == |s|
    ensures forall i :: 0 <= i < |s| ==> r[i] == UpperChar(s[i])
  {
    if s == [] then [] else [UpperChar(s[0])] + Upper(s[1..])
  }

  /** Leading whitespace removed. */
  function StripLeft(s: string): (r: string)
    ensures |r| <= |s| && r == s[|s| - |r|..]
    ensures forall i :: 0 <= i < |s| - |r| ==> IsSpace(s[i])
    ensures r == [] || !IsSpace(r[0])
  {
    if s != [] && IsSpace(s[0]) then StripLeft(s[1..]) else s
  }

  /** Trailing whitespace removed. */
  function StripRight(s: string): (r: string)
    ensures |r| <= |s| && r == s[..|r|]
    ensures forall i :: |r| <= i < |s| ==> IsSpace(s[i])
    ensures r == [] || !IsSpace(r[|r| - 1])
  {
    if s != [] && IsSpace(s[|s| - 1]) then StripRight(s[..|s| - 1]) else s
  }

  /** `str.strip()`: the infix left once the whitespace at both ends is removed. */
  function Strip(s: string): (r: string)
    ensures r == [] || (!IsSpace(r[0]) && !IsSpace(r[|r| - 1]))
    ensures exists i :: InfixAt(r, s, i)
    ensures exists i, j :: 0 <= i <= j <= |s| && r == s[i..j] && AllSpace(s[..i]) && AllSpace(s[j..])
    ensures AllSpace(s) <==> r == []
  {
    var l := StripLeft(s);
    var r := StripRight(l);
    StripBounds(s, l, r);
    r
  }

  /** The two halves of `Strip` cut whitespace only, at the two ends. */
  lemma {:induction false} StripBounds(s: string, l: string, r: string)
    requires |l| <= |s| && l == s[|s| - |l|..]
    requires forall k :: 0 <= k < |s| - |l| ==> IsSpace(s[k])
    requires |r| <= |l| && r == l[..|r|]
    requires forall k :: |r| <= k < |l| ==> IsSpace(l[k])
    ensures InfixAt(r, s, |s| - |l|)
    ensures AllSpace(s[..|s| - |l|]) && AllSpace(s[|s| - |l| + |r|..])
  {
    var i := |s| - |l|;
    var head := s[..i];
    assert AllSpace(head) by {
      forall k | 0 <= k < |head| ensures IsSpace(head[k]) {
        assert head[k] == s[k];
      }
    }
    var tail := s[i + |r|..];
    assert AllSpace(tail) by {
      forall k | 0 <= k < |tail| ensures IsSpace(tail[k]) {
        assert tail[k] == l[|r| + k];
      }
    }
  }

  /** `r` is the slice `s[i:i + len(r)]`. */
  predicate InfixAt(r: string, s: string, i: int) {
    0 <= i <= |s| - |r| && s[i..i + |r|] == r
  }

  /** Stripping twice is stripping once. */
  lemma StripIdempotent(s: string)
    ensures Strip(Strip(s)) == Strip(s)
  {
    var t := Strip(s);
    assert StripLeft(t) == t;
    assert StripRight(t) == t;
  }

  /** The slice `s[:n]`. */
  function Truncate(s: string, n: nat): (r: string)
    ensures |r| == if |s| <= n then |s| else n
    ensures r == s[..|r|]
  {
    if |s| <= n then s else s[..n]
  }

  /** `s[:100] + "..." if len(s) > 100 else s`: the 100-character preview. */
  function Preview(s: string): (r: string)
    ensures |s| <= 100 ==> r == s
    ensures |s| > 100 ==> |r| == 103 && r[..100] == s[..100] && r[100..] == "..."
  {
    if |s| > 100 then s[..100] + "..." else s
  }

  /** `needle in hay` for strings. */
  predicate Occurs(needle: string, hay: string) {
    exists i :: 0 <= i <= |hay| - |needle| && InfixAt(needle, hay, i)
  }

  /** Executable form of `Occurs`, scanning positions left to right. */
  function OccursFrom(needle: string, hay: string, i: nat): (b: bool)
    requires i <= |hay|
    ensures b <==> exists j :: i <= j && InfixAt(needle, hay, j)
    decreases |hay| - i
  {
    if i + |needle| > |hay| then false
    else if hay[i..i + |needle|] == needle then assert InfixAt(needle, hay, i); true
    else OccursFrom(needle, hay, i + 1)
  }
}
