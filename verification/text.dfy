/** Optional values and the string operations the front end and the
    controllers rely on: ASCII case mapping, substring search (`includes`)
    and whitespace trimming (`trim`) as JavaScript defines them. */
module Text {

  datatype Option<+T> = None | Some(value: T) {
    function GetOr(default: T): T {
      match this
      case Some(v) => v
      case None => default
    }
  }

  function Min(a: int, b: int): int {
    if a <= b then a else b
  }

  function Max(a: int, b: int): int {
    if a <= b then b else a
  }

  predicate IsLowerAscii(ch: char) {
    'a' <= ch <= 'z'
  }

  predicate IsUpperAscii(ch: char) {
    'A' <= ch <= 'Z'
  }

  /** `toUpperCase` / `strtoupper` on one character: the ASCII letters only. */
  function UpperChar(ch: char): char {
    if IsLowerAscii(ch) then (ch as int - 'a' as int + 'A' as int) as char else ch
  }

  /** `toLowerCase` on one character: the ASCII letters only. */
  function LowerChar(ch: char): char {
    if IsUpperAscii(ch) then (ch as int - 'A' as int + 'a' as int) as char else ch
  }

  /** `toUpperCase` of a string: character by character, no lower-case
      ASCII letter left. */
  function Upper(s: string): (r: string)
    ensures |r| == |s|
    ensures forall i :: 0 <= i < |s| ==> r[i] == UpperChar(s[i]) && !IsLowerAscii(r[i])
  {
    seq(|s|, i requires 0 <= i < |s| => UpperChar(s[i]))
  }

  /** `toLowerCase` of a string: character by character, no upper-case
      ASCII letter left. */
  function Lower(s: string): (r: string)
    ensures |r| == |s|
    ensures forall i :: 0 <= i < |s| ==> r[i] == LowerChar(s[i]) && !IsUpperAscii(r[i])
  {
    seq(|s|, i requires 0 <= i < |s| => LowerChar(s[i]))
  }

  predicate StartsWith(s: string, prefix: string) {
    |prefix| <= |s| && s[..|prefix|] == prefix
  }

  /** `hay.includes(needle)`, searching from the left one position at a
      time. */
  predicate Contains(hay: string, needle: string)
    decreases |hay|
  {
    StartsWith(hay, needle) || (|hay| > 0 && Contains(hay[1..], needle))
  }

  /** `needle` occurs in `hay` starting at index `i`. */
  predicate OccursAt(hay: string, needle: string, i: int) {
    0 <= i <= |hay| - |needle| && hay[i..i + |needle|] == needle
  }

  /** Where `includes` finds the needle. */
  lemma {:induction false} FirstOccurrence(hay: string, needle: string) returns (i: int)
    requires Contains(hay, needle)
    ensures OccursAt(hay, needle, i)
    decreases |hay|
  {
    if StartsWith(hay, needle) {
      i := 0;
    } else {
      var j := FirstOccurrence(hay[1..], needle);
      assert hay[1..][j..j + |needle|] == hay[j + 1..j + 1 + |needle|];
      i := j + 1;
    }
  }

  /** An occurrence anywhere is found by `includes`. */
  lemma {:induction false} OccurrenceFound(hay: string, needle: string, i: int)
    requires OccursAt(hay, needle, i)
    ensures Contains(hay, needle)
    decreases i
  {
    if i > 0 {
      assert hay[1..][i - 1..i - 1 + |needle|] == hay[i..i + |needle|];
      OccurrenceFound(hay[1..], needle, i - 1);
    }
  }

  /** `includes` holds exactly when the needle occurs at some index of the
      haystack. */
  lemma ContainsOccurs(hay: string, needle: string)
    ensures Contains(hay, needle) <==> exists i :: OccursAt(hay, needle, i)
  {
    if Contains(hay, needle) {
      var i := FirstOccurrence(hay, needle);
    }
    forall i | OccursAt(hay, needle, i)
      ensures Contains(hay, needle)
    {
      OccurrenceFound(hay, needle, i);
    }
  }

  /** The characters `trim` removes: JavaScript's WhiteSpace (tab, vertical
      tab, form feed, space, no-break space, byte order mark and the Zs
      space separators) and its LineTerminators. */
  predicate IsJsSpace(ch: char) {
    || ch == '\U{9}' || ch == '\U{B}' || ch == '\U{C}' || ch == ' '
    || ch == '\U{A0}' || ch == '\U{FEFF}'
    || ch == '\U{1680}' || ('\U{2000}' <= ch <= '\U{200A}')
    || ch == '\U{202F}' || ch == '\U{205F}' || ch == '\U{3000}'
    || ch == '\U{A}' || ch == '\U{D}' || ch == '\U{2028}' || ch == '\U{2029}'
  }

  /** The end of the whitespace run of `s` that starts at index `i`:
      `trim`'s scan from the left. */
  function SkipSpaces(s: string, i: nat): (j: nat)
    requires i <= |s|
    ensures i <= j <= |s|
    ensures forall k :: i <= k < j ==> IsJsSpace(s[k])
    ensures j < |s| ==> !IsJsSpace(s[j])
    decreases |s| - i
  {
    if i < |s| && IsJsSpace(s[i]) then SkipSpaces(s, i + 1) else i
  }

  /** The start of the whitespace run of `s` that ends at index `j`, not
      going below `lo`: `trim`'s scan from the right. */
  function SkipSpacesBack(s: string, lo: nat, j: nat): (e: nat)
    requires lo <= j <= |s|
    ensures lo <= e <= j
    ensures forall k :: e <= k < j ==> IsJsSpace(s[k])
    ensures e > lo ==> !IsJsSpace(s[e - 1])
    decreases j - lo
  {
    if lo < j && IsJsSpace(s[j - 1]) then SkipSpacesBack(s, lo, j - 1) else j
  }

  /** `r` is `s` with its first `i` characters and everything after
      `i + |r|` removed, all of them whitespace. */
  predicate StrippedAt(s: string, r: string, i: int) {
    && 0 <= i <= i + |r| <= |s| && r == s[i..i + |r|]
    && (forall k :: 0 <= k < i ==> IsJsSpace(s[k]))
    && (forall k :: i + |r| <= k < |s| ==> IsJsSpace(s[k]))
  }

  /** `r` is `s` with some whitespace cut from each end. */
  ghost predicate Stripped(s: string, r: string) {
    exists i :: StrippedAt(s, r, i)
  }

  /** `trim`: a contiguous piece of `s` whose removed ends are all
      whitespace and whose own ends are not. */
  function Trim(s: string): (r: string)
    ensures Stripped(s, r)
    ensures |r| > 0 ==> !IsJsSpace(r[0]) && !IsJsSpace(r[|r| - 1])
  {
    var a := SkipSpaces(s, 0);
    var b := SkipSpacesBack(s, a, |s|);
    assert StrippedAt(s, s[a..b], a);
    s[a..b]
  }
}
