/**
 * The few string operations the scraper relies on, with Python's meaning:
 * `sep.join(parts)`, `s.split(c)`, `s.strip()`, lower-casing and substring
 * search.
 */
module Strings {
  import opened Collections

  /** `part` stands, whole, at offset `o` of `whole`. */
  predicate IsInfixAt(part: string, whole: string, o: nat) {
    o + |part| <= |whole| && forall i :: o <= i < o + |part| ==> whole[i] == part[i - o]
  }

  /** At offset 0, standing in `whole` is being its prefix. */
  lemma InfixAtZero(part: string, whole: string)
    ensures IsInfixAt(part, whole, 0) <==> |part| <= |whole| && whole[..|part|] == part
  {
    if IsInfixAt(part, whole, 0) {
      assert forall i :: 0 <= i < |part| ==> whole[..|part|][i] == part[i];
    }
  }

  /** An infix stays an infix when text is added after the whole. */
  lemma InfixAppend(part: string, whole: string, o: nat, after: string)
    requires IsInfixAt(part, whole, o)
    ensures IsInfixAt(part, whole + after, o)
  {
    var w := whole + after;
    forall i | o <= i < o + |part| ensures w[i] == part[i - o] {
      assert w[i] == whole[i];
    }
  }

  /** An infix stays an infix, further on, when text is added before the whole. */
  lemma InfixPrepend(part: string, whole: string, o: nat, before: string)
    requires IsInfixAt(part, whole, o)
    ensures IsInfixAt(part, before + whole, |before| + o)
  {
    var w := before + whole;
    forall i | |before| + o <= i < |before| + o + |part| ensures w[i] == part[i - (|before| + o)] {
      assert w[i] == whole[i - |before|];
    }
  }

  /** `s.startswith(prefix)`. */
  predicate StartsWith(s: string, prefix: string) {
    |prefix| <= |s| && s[..|prefix|] == prefix
  }

  /** `s.endswith(suffix)`. */
  predicate EndsWith(s: string, suffix: string) {
    |suffix| <= |s| && s[|s| - |suffix|..] == suffix
  }

  /**
   * A text assembled as the prompts are: instructions, the introduction of
   * the field list, the field list, closing text, then the page text.
   */
  function Framed(instructions: string, intro: string, fieldList: string, closing: string, data: string): (p: string)
    ensures |p| == |instructions| + |intro| + |fieldList| + |closing| + |data|
    ensures StartsWith(p, instructions)
    ensures EndsWith(p, data)
  {
    var p := (instructions + intro) + fieldList + (closing + data);
    assert p == instructions + (intro + fieldList + closing) + data;
    p
  }

  /** Whatever stands in the field list stands in the assembled text, after the instructions and the introduction. */
  lemma FramedKeepsInfix(instructions: string, intro: string, fieldList: string, closing: string, data: string, part: string, o: nat)
    requires IsInfixAt(part, fieldList, o)
    ensures IsInfixAt(part, Framed(instructions, intro, fieldList, closing, data), |instructions| + |intro| + o)
  {
    InfixPrepend(part, fieldList, o, instructions + intro);
    InfixAppend(part, (instructions + intro) + fieldList, |instructions + intro| + o, closing + data);
  }

  /** Every part of a joined field list stands in the assembled text, after the instructions and the introduction. */
  lemma FramedNamesEachPart(instructions: string, intro: string, sep: string, parts: seq<string>, closing: string, data: string, k: nat)
    requires k < |parts|
    ensures IsInfixAt(parts[k], Framed(instructions, intro, Join(sep, parts), closing, data),
                      |instructions| + |intro| + JoinOffset(sep, parts, k))
  {
    JoinContainsPart(sep, parts, k);
    FramedKeepsInfix(instructions, intro, Join(sep, parts), closing, data, parts[k], JoinOffset(sep, parts, k));
  }

  /** The field list itself stands in the assembled text, after the instructions and the introduction. */
  lemma FramedNamesList(instructions: string, intro: string, fieldList: string, closing: string, data: string)
    ensures IsInfixAt(fieldList, Framed(instructions, intro, fieldList, closing, data), |instructions| + |intro|)
  {
    assert IsInfixAt(fieldList, fieldList, 0);
    InfixPrepend(fieldList, fieldList, 0, instructions + intro);
    InfixAppend(fieldList, (instructions + intro) + fieldList, |instructions + intro|, closing + data);
  }

  /** Substring search: does `needle` occur somewhere in `hay`? */
  function Contains(hay: string, needle: string): (b: bool)
    ensures b <==> exists k: nat :: IsInfixAt(needle, hay, k)
    decreases |hay|
  {
    if |hay| < |needle| then false
    else if hay[..|needle|] == needle then (InfixAtZero(needle, hay); true)
    else
      var rest := Contains(hay[1..], needle);
      ContainsShift(hay, needle);
      rest
  }

  /** An occurrence of `needle` in `hay` other than at offset 0 is an occurrence in `hay[1..]`. */
  lemma ContainsShift(hay: string, needle: string)
    requires |hay| >= |needle| && hay[..|needle|] != needle
    ensures (exists k: nat :: IsInfixAt(needle, hay, k)) <==> (exists k: nat :: IsInfixAt(needle, hay[1..], k))
  {
    InfixAtZero(needle, hay);
    if k: nat :| IsInfixAt(needle, hay, k) {
      assert k != 0;
      assert IsInfixAt(needle, hay[1..], k - 1);
    }
    if k: nat :| IsInfixAt(needle, hay[1..], k) {
      assert IsInfixAt(needle, hay, k + 1);
    }
  }

  /** ASCII lower-casing of one character; every other character is kept. */
  function LowerChar(ch: char): char {
    if 'A' <= ch <= 'Z' then (ch as int + 32) as char else ch
  }

  /**
   * `s.lower()`, restricted to the ASCII letters: the result holds no ASCII
   * capital, and it differs from `s` only where `s` holds one, which it
   * replaces by the same letter in lower case.
   */
  function AsciiLower(s: string): (r: string)
    ensures |r| == |s|
    ensures forall i :: 0 <= i < |r| ==> !('A' <= r[i] <= 'Z')
    ensures forall i :: 0 <= i < |s| && !('A' <= s[i] <= 'Z') ==> r[i] == s[i]
    ensures forall i :: 0 <= i < |s| && 'A' <= s[i] <= 'Z' ==> 'a' <= r[i] <= 'z' && r[i] as int - s[i] as int == 'a' as int - 'A' as int
  {
    seq(|s|, i requires 0 <= i < |s| => LowerChar(s[i]))
  }

  /** `sep.join(parts)`. */
  function Join(sep: string, parts: seq<string>): string
  {
    if |parts| == 0 then ""
    else if |parts| == 1 then parts[0]
    else parts[0] + sep + Join(sep, parts[1..])
  }

  /** Where the k-th part starts inside `Join(sep, parts)`. */
  function JoinOffset(sep: string, parts: seq<string>, k: nat): nat
    requires k <= |parts|
  {
    if k == 0 then 0 else |parts[0]| + |sep| + JoinOffset(sep, parts[1..], k - 1)
  }

  /** The first part starts the joined string. */
  lemma JoinStartsWithFirst(sep: string, parts: seq<string>)
    requires |parts| > 0
    ensures IsInfixAt(parts[0], Join(sep, parts), 0)
  {
    assert IsInfixAt(parts[0], parts[0], 0);
    if |parts| > 1 {
      InfixAppend(parts[0], parts[0], 0, sep);
      InfixAppend(parts[0], parts[0] + sep, 0, Join(sep, parts[1..]));
    }
  }

  /** Every part stands, whole, at its offset in the joined string. */
  lemma {:induction false} JoinContainsPart(sep: string, parts: seq<string>, k: nat)
    requires k < |parts|
    ensures IsInfixAt(parts[k], Join(sep, parts), JoinOffset(sep, parts, k))
    decreases k
  {
    if k == 0 {
      JoinStartsWithFirst(sep, parts);
    } else {
      var tail := parts[1..];
      JoinContainsPart(sep, tail, k - 1);
      assert tail[k - 1] == parts[k];
      InfixPrepend(parts[k], Join(sep, tail), JoinOffset(sep, tail, k - 1), parts[0] + sep);
      assert Join(sep, parts) == (parts[0] + sep) + Join(sep, tail);
      assert JoinOffset(sep, parts, k) == |parts[0] + sep| + JoinOffset(sep, tail, k - 1);
    }
  }

  /** `s.split(c)`: the pieces between successive occurrences of `c`. */
  function Split(s: string, c: char): (parts: seq<string>)
    ensures |parts| >= 1
    ensures forall k :: 0 <= k < |parts| ==> c !in parts[k]
    decreases |s|
  {
    if c !in s then [s]
    else
      var i := FirstIndex(s, c);
      assert c !in s[..i];
      [s[..i]] + Split(s[i + 1..], c)
  }

  /** Joining the pieces of a split with the separator gives back the original string. */
  lemma {:induction false} JoinSplit(s: string, c: char)
    ensures Join([c], Split(s, c)) == s
    decreases |s|
  {
    if c in s {
      var i := FirstIndex(s, c);
      JoinSplit(s[i + 1..], c);
      assert Split(s, c) == [s[..i]] + Split(s[i + 1..], c);
      assert s == s[..i] + [c] + s[i + 1..];
    }
  }

  /** The characters Python's `str.strip()` removes (those for which `str.isspace` holds). */
  predicate IsSpace(ch: char) {
    || ch == ' '
    || '\t' <= ch <= '\r'
    || '\U{1C}' <= ch <= '\U{1F}'
    || ch == '\U{85}' || ch == '\U{A0}' || ch == '\U{1680}'
    || '\U{2000}' <= ch <= '\U{200A}'
    || ch == '\U{2028}' || ch == '\U{2029}' || ch == '\U{202F}' || ch == '\U{205F}' || ch == '\U{3000}'
  }

  /** The index of the first character at or after `i` that is not whitespace, `|s|` when there is none. */
  function LeadingSpaces(s: string, i: nat): (n: nat)
    requires i <= |s|
    ensures i <= n <= |s|
    ensures forall k :: i <= k < n ==> IsSpace(s[k])
    ensures n < |s| ==> !IsSpace(s[n])
    decreases |s| - i
  {
    if i < |s| && IsSpace(s[i]) then LeadingSpaces(s, i + 1) else i
  }

  /** The index just after the last character before `j` that is not whitespace, 0 when there is none. */
  function TrailingStart(s: string, j: nat): (n: nat)
    requires j <= |s|
    ensures n <= j
    ensures forall k :: n <= k < j ==> IsSpace(s[k])
    ensures n > 0 ==> !IsSpace(s[n - 1])
  {
    if j > 0 && IsSpace(s[j - 1]) then TrailingStart(s, j - 1) else j
  }

  /** `s` without its leading whitespace. */
  function TrimStart(s: string): (r: string)
    ensures |r| <= |s| && r == s[|s| - |r|..]
    ensures forall k :: 0 <= k < |s| - |r| ==> IsSpace(s[k])
    ensures |r| > 0 ==> !IsSpace(r[0])
  {
    s[LeadingSpaces(s, 0)..]
  }

  /** `s` without its trailing whitespace. */
  function TrimEnd(s: string): (r: string)
    ensures |r| <= |s| && r == s[..|r|]
    ensures forall k :: |r| <= k < |s| ==> IsSpace(s[k])
    ensures |r| > 0 ==> !IsSpace(r[|r| - 1])
  {
    s[..TrailingStart(s, |s|)]
  }

  /** `s.strip()`. */
  function Strip(s: string): string
  {
    TrimEnd(TrimStart(s))
  }

  /**
   * What `s.strip()` gives is a slice of `s`: everything cut off before
   * and after it is whitespace, and it neither starts nor ends with
   * whitespace.
   */
  lemma StripSlice(s: string)
    ensures |s| - |TrimStart(s)| + |Strip(s)| <= |s|
    ensures Strip(s) == s[|s| - |TrimStart(s)|..|s| - |TrimStart(s)| + |Strip(s)|]
    ensures forall k :: 0 <= k < |s| - |TrimStart(s)| ==> IsSpace(s[k])
    ensures forall k :: |s| - |TrimStart(s)| + |Strip(s)| <= k < |s| ==> IsSpace(s[k])
    ensures |Strip(s)| > 0 ==> !IsSpace(Strip(s)[0]) && !IsSpace(Strip(s)[|Strip(s)| - 1])
  {
    var t := TrimStart(s);
    var r := TrimEnd(t);
    var lo := |s| - |t|;
    SliceOfSuffix(s, lo, |r|);
    forall k | lo + |r| <= k < |s| ensures IsSpace(s[k]) {
      SuffixIndex(s, lo, k);
    }
  }

  /**
   * `t` is what stripping leaves of `s`: the slice of `s` that remains when
   * whitespace is cut from both ends, with no whitespace left at either
   * end of `t`.
   */
  predicate IsStripOf(t: string, s: string) {
    && (exists lo: nat :: lo <= |s| && CutAt(t, s, lo))
    && (|t| > 0 ==> !IsSpace(t[0]) && !IsSpace(t[|t| - 1]))
  }

  /** `t` stands at offset `lo` of `s`, and everything of `s` before and after it is whitespace. */
  predicate CutAt(t: string, s: string, lo: nat) {
    && lo + |t| <= |s| && t == s[lo..lo + |t|]
    && (forall i :: 0 <= i < lo ==> IsSpace(s[i]))
    && (forall i :: lo + |t| <= i < |s| ==> IsSpace(s[i]))
  }

  /** `s.strip()` is what stripping leaves of `s`. */
  lemma StripIsStripOf(s: string)
    ensures IsStripOf(Strip(s), s)
  {
    StripSlice(s);
    var lo := |s| - |TrimStart(s)|;
    assert CutAt(Strip(s), s, lo);
  }

  /** The first n elements of a suffix are a slice. */
  lemma SliceOfSuffix(s: string, lo: nat, n: nat)
    requires lo + n <= |s|
    ensures s[lo..][..n] == s[lo..lo + n]
  {
  }

  /** Indexing into a suffix. */
  lemma SuffixIndex(s: string, lo: nat, k: nat)
    requires lo <= k < |s|
    ensures s[lo..][k - lo] == s[k]
  {
  }

  /** Stripping twice is stripping once. */
  lemma StripIdempotent(s: string)
    ensures Strip(Strip(s)) == Strip(s)
  {
    var r := Strip(s);
    StripSlice(s);
    assert LeadingSpaces(r, 0) == 0;
    assert r[0..] == r;
    assert TrailingStart(r, |r|) == |r|;
    assert r[..|r|] == r;
  }
}
