/**
 * The JavaScript string operations the bot relies on, over strings as
 * sequences of characters: `startsWith`, `slice`, `split`, `join`,
 * `trim`, the `/[^0-9]/g` digit filter and `toLowerCase`.
 */
module JsString {
  import opened Wrappers

  type Str = seq<char>

  /** `s.startsWith(p)` */
  predicate StartsWith(s: Str, p: Str) {
    p <= s
  }

  /** `s.slice(n)` for a non-negative start: the suffix from `n`, or "" past the end. */
  function Slice(s: Str, n: nat): (r: Str)
    ensures n <= |s| ==> s == s[..n] + r
    ensures n >= |s| ==> r == []
  {
    if n <= |s| then s[n..] else []
  }

  /** `sep` occurs in `s` at position `i`. */
  predicate OccursAt(s: Str, sep: Str, i: nat) {
    i + |sep| <= |s| && s[i..i + |sep|] == sep
  }

  /** The first position at or after `from` where `sep` occurs in `s`, if any. */
  function IndexFrom(s: Str, sep: Str, from: nat): (r: Option<nat>)
    ensures r.Some? ==> from <= r.value && OccursAt(s, sep, r.value)
    ensures r.Some? ==> forall j :: from <= j < r.value ==> !OccursAt(s, sep, j)
    ensures r.None? ==> forall j :: from <= j <= |s| ==> !OccursAt(s, sep, j)
    decreases |s| - from
  {
    if from + |sep| > |s| then None
    else if OccursAt(s, sep, from) then Some(from)
    else IndexFrom(s, sep, from + 1)
  }

  /** `s.indexOf(sep)`: the first position at which `sep` occurs, if any. */
  function IndexOf(s: Str, sep: Str): (r: Option<nat>)
    ensures r.Some? ==> OccursAt(s, sep, r.value)
    ensures r.Some? ==> forall j :: 0 <= j < r.value ==> !OccursAt(s, sep, j)
    ensures r.None? ==> forall j :: 0 <= j <= |s| ==> !OccursAt(s, sep, j)
  {
    IndexFrom(s, sep, 0)
  }

  /** `s.split(sep)` for a non-empty separator: the pieces between the occurrences of `sep`. */
  function Split(s: Str, sep: Str): (parts: seq<Str>)
    requires sep != []
    ensures |parts| >= 1
    decreases |s|
  {
    match IndexOf(s, sep)
    case None => [s]
    case Some(i) => [s[..i]] + Split(s[i + |sep|..], sep)
  }

  /** `parts.join(sep)` */
  function Join(parts: seq<Str>, sep: Str): Str {
    if |parts| == 0 then []
    else if |parts| == 1 then parts[0]
    else parts[0] + sep + Join(parts[1..], sep)
  }

  /** Joining the pieces of a split with the same separator gives back the string. */
  lemma {:induction false} JoinSplit(s: Str, sep: Str)
    requires sep != []
    ensures Join(Split(s, sep), sep) == s
    decreases |s|
  {
    match IndexOf(s, sep)
    case None =>
    case Some(i) =>
      var rest := s[i + |sep|..];
      var parts := Split(s, sep);
      assert parts == [s[..i]] + Split(rest, sep);
      assert parts[1..] == Split(rest, sep);
      assert Join(parts, sep) == s[..i] + sep + Join(Split(rest, sep), sep);
      JoinSplit(rest, sep);
      assert s == s[..i] + s[i..i + |sep|] + rest;
  }

  /** The first piece of a split is everything before the first occurrence of the separator. */
  lemma FirstPiece(s: Str, sep: Str)
    requires sep != []
    ensures OccursAt(s, sep, |Split(s, sep)[0]|) || Split(s, sep)[0] == s
    ensures Split(s, sep)[0] <= s
    ensures forall j :: 0 <= j < |Split(s, sep)[0]| ==> !OccursAt(s, sep, j)
  {
  }

  /** A string that starts with the separator splits into "" followed by the pieces of the rest. */
  lemma SplitAfterLeading(s: Str, sep: Str)
    requires sep != [] && StartsWith(s, sep)
    ensures Split(s, sep) == [[]] + Split(s[|sep|..], sep)
  {
    assert OccursAt(s, sep, 0);
  }

  /** The second piece of a string that starts with the separator is the first piece of the rest. */
  lemma SecondPieceOfRest(s: Str, sep: Str)
    requires sep != [] && StartsWith(s, sep)
    ensures |Split(s, sep)| >= 2 && Split(s, sep)[1] == Split(s[|sep|..], sep)[0]
    ensures Split(s, sep)[1] <= s[|sep|..]
    ensures OccursAt(s[|sep|..], sep, |Split(s, sep)[1]|) || Split(s, sep)[1] == s[|sep|..]
    ensures forall k :: 0 <= k < |Split(s, sep)[1]| ==> !OccursAt(s[|sep|..], sep, k)
  {
    SplitAfterLeading(s, sep);
    FirstPiece(s[|sep|..], sep);
  }

  /**
   * For a string that starts with the separator, the second piece runs from
   * the end of that separator to its next occurrence, or to the end.
   */
  lemma SecondPiece(s: Str, sep: Str) returns (j: nat)
    requires sep != [] && StartsWith(s, sep)
    ensures |Split(s, sep)| >= 2
    ensures |sep| <= j <= |s| && (j == |s| || OccursAt(s, sep, j))
    ensures forall k :: |sep| <= k < j ==> !OccursAt(s, sep, k)
    ensures Split(s, sep)[1] == s[|sep|..j]
  {
    SecondPieceOfRest(s, sep);
    j := PieceInWhole(s, sep, |sep|, Split(s, sep)[1]);
  }

  /** A first piece of the suffix from `d`, read as positions of the whole string. */
  lemma PieceInWhole(s: Str, sep: Str, d: nat, seg: Str) returns (j: nat)
    requires d <= |s| && seg <= s[d..]
    requires OccursAt(s[d..], sep, |seg|) || seg == s[d..]
    requires forall k :: 0 <= k < |seg| ==> !OccursAt(s[d..], sep, k)
    ensures d <= j <= |s| && (j == |s| || OccursAt(s, sep, j))
    ensures forall k :: d <= k < j ==> !OccursAt(s, sep, k)
    ensures seg == s[d..j]
  {
    j := d + |seg|;
    assert s[d..j] == seg by { assert seg == s[d..][..|seg|]; }
    forall k | d <= k < j ensures !OccursAt(s, sep, k) {
      OccursShifted(s, sep, d, k - d);
    }
    if seg != s[d..] {
      OccursShifted(s, sep, d, |seg|);
    }
  }

  /** An occurrence in a suffix is an occurrence in the whole, shifted by the suffix's start. */
  lemma OccursShifted(s: Str, sep: Str, d: nat, k: nat)
    requires d <= |s|
    ensures OccursAt(s[d..], sep, k) <==> OccursAt(s, sep, d + k)
  {
    if d + k + |sep| <= |s| {
      assert s[d..][k..k + |sep|] == s[d + k..d + k + |sep|];
    }
  }

  /** The separator followed by text that does not contain it splits into "" and that text. */
  lemma SplitEnvelope(sep: Str, b: Str)
    requires sep != [] && IndexOf(b, sep).None?
    ensures Split(sep + b, sep) == [[], b]
  {
    var s := sep + b;
    assert s[..|sep|] == sep;
    assert s[|sep|..] == b;
    SplitAfterLeading(s, sep);
  }

  /** The JavaScript `String.prototype.trim` white-space and line-terminator characters. */
  predicate IsSpace(c: char) {
    c == '\t' || c == '\n' || c == '\U{B}' || c == '\U{C}' || c == '\r' || c == ' '
    || c == '\U{A0}' || c == '\U{1680}' || ('\U{2000}' <= c <= '\U{200A}')
    || c == '\U{2028}' || c == '\U{2029}' || c == '\U{202F}' || c == '\U{205F}'
    || c == '\U{3000}' || c == '\U{FEFF}'
  }

  /** The number of white-space characters at the start of `s`. */
  function LeadingSpaces(s: Str): (n: nat)
    ensures n <= |s|
    ensures forall k :: 0 <= k < n ==> IsSpace(s[k])
    ensures n < |s| ==> !IsSpace(s[n])
  {
    if s != [] && IsSpace(s[0]) then 1 + LeadingSpaces(s[1..]) else 0
  }

  /** The number of white-space characters at the end of `s`. */
  function TrailingSpaces(s: Str): (n: nat)
    ensures n <= |s|
    ensures forall k :: |s| - n <= k < |s| ==> IsSpace(s[k])
    ensures n < |s| ==> !IsSpace(s[|s| - 1 - n])
  {
    if s != [] && IsSpace(s[|s| - 1]) then 1 + TrailingSpaces(s[..|s| - 1]) else 0
  }

  /** `s.trim()`: `s` without its leading and trailing white space. */
  function Trim(s: Str): (r: Str)
    ensures r <= s[LeadingSpaces(s)..]
    ensures r == [] || (!IsSpace(r[0]) && !IsSpace(r[|r| - 1]))
    ensures forall k :: 0 <= k < LeadingSpaces(s) ==> IsSpace(s[k])
    ensures forall k :: LeadingSpaces(s) + |r| <= k < |s| ==> IsSpace(s[k])
  {
    var l := LeadingSpaces(s);
    var t := TrailingSpaces(s[l..]);
    s[l..|s| - t]
  }

  /** A string without white space at either end is its own trim. */
  lemma TrimNoSpaces(s: Str)
    requires s == [] || (!IsSpace(s[0]) && !IsSpace(s[|s| - 1]))
    ensures Trim(s) == s
  {
  }

  predicate IsDigit(c: char) {
    '0' <= c <= '9'
  }

  /** `s.replace(/[^0-9]/g, '')`: the decimal digits of `s`, in order. */
  function Digits(s: Str): (r: Str)
    ensures forall k :: 0 <= k < |r| ==> IsDigit(r[k])
    ensures |r| <= |s|
  {
    if s == [] then [] else (if IsDigit(s[0]) then [s[0]] else []) + Digits(s[1..])
  }

  /** The digit filter is empty exactly when the string holds no digit. */
  lemma {:induction false} DigitsEmpty(s: Str)
    ensures Digits(s) == [] <==> forall k :: 0 <= k < |s| ==> !IsDigit(s[k])
  {
    if s != [] {
      DigitsEmpty(s[1..]);
      assert forall k :: 1 <= k < |s| ==> s[k] == s[1..][k - 1];
    }
  }

  /** The digit filter of one character keeps it exactly when it is a digit. */
  lemma DigitsOne(c: char)
    ensures Digits([c]) == if IsDigit(c) then [c] else []
  {
    assert [c][1..] == [];
  }

  /** The digit filter of a concatenation is the filter of each part, in order. */
  lemma {:induction false} DigitsAppend(a: Str, b: Str)
    ensures Digits(a + b) == Digits(a) + Digits(b)
  {
    if a == [] {
      assert a + b == b;
    } else {
      assert (a + b)[0] == a[0];
      assert (a + b)[1..] == a[1..] + b;
      DigitsAppend(a[1..], b);
    }
  }

  /** `toLowerCase` on one character, restricted to the ASCII letters. */
  function LowerChar(c: char): char {
    if 'A' <= c <= 'Z' then (c as int + 32) as char else c
  }

  /** `s.toLowerCase()` on the ASCII letters: the same length, each character lowered. */
  function Lower(s: Str): (r: Str)
    ensures |r| == |s|
    ensures forall k :: 0 <= k < |s| ==> r[k] == LowerChar(s[k])
  {
    seq(|s|, k requires 0 <= k < |s| => LowerChar(s[k]))
  }
}
