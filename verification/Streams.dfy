/** Formatted text input: words and integers read from the front of the remaining text, as a stream
    extracts them, with the text each of them can be written as.
 */
module Streams {
  import opened Animals

  datatype Read<+T> = Read(value: T, rest: string)

  predicate IsSpace(c: char) {
    c == ' ' || '\t' <= c <= '\r'
  }

  predicate IsDigit(c: char) {
    '0' <= c <= '9'
  }

  function SkipSpace(s: string): string {
    if s != [] && IsSpace(s[0]) then SkipSpace(s[1..]) else s
  }

  function WordLength(s: string): (n: nat)
    ensures n <= |s|
  {
    if s == [] || IsSpace(s[0]) then 0 else 1 + WordLength(s[1..])
  }

  function ReadWord(s: string): Option<Read<string>> {
    var t := SkipSpace(s);
    var n := WordLength(t);
    if n == 0 then None else Some(Read(t[..n], t[n..]))
  }

  function DigitCount(s: string): (n: nat)
    ensures n <= |s| && forall k :: 0 <= k < n ==> IsDigit(s[k])
  {
    if s == [] || !IsDigit(s[0]) then 0 else 1 + DigitCount(s[1..])
  }

  function NumberOf(digits: string): nat
    requires forall k :: 0 <= k < |digits| ==> IsDigit(digits[k])
  {
    if digits == [] then 0
    else
      var last := digits[|digits| - 1];
      assert IsDigit(last);
      NumberOf(digits[..|digits| - 1]) * 10 + (last as int - '0' as int)
  }

  /** The integer the text starts with, an optional sign included. */
  function LeadingInt(s: string): Option<Read<int>> {
    var signed := s != [] && s[0] in ['+', '-'];
    var t := if signed then s[1..] else s;
    var n := DigitCount(t);
    if n == 0 then None
    else
      var size: int := NumberOf(t[..n]);
      Some(Read(if signed && s[0] == '-' then -size else size, t[n..]))
  }

  function ReadInt(s: string): Option<Read<int>> {
    LeadingInt(SkipSpace(s))
  }

  // ---------------------------------------------------------------- writing

  function DigitOf(d: nat): char
    requires d < 10
  {
    '0' + d as char
  }

  function Digits(n: nat): (s: string)
    ensures s != [] && forall k :: 0 <= k < |s| ==> IsDigit(s[k])
  {
    if n < 10 then [DigitOf(n)] else Digits(n / 10) + [DigitOf(n % 10)]
  }

  lemma {:induction false} NumberOfDigits(n: nat)
    ensures NumberOf(Digits(n)) == n
  {
    if n >= 10 {
      NumberOfDigits(n / 10);
      assert Digits(n)[..|Digits(n)| - 1] == Digits(n / 10);
    } else {
      assert Digits(n)[..0] == [];
    }
  }

  /** A word: something and no space. */
  predicate IsWord(w: string) {
    w != [] && forall k :: 0 <= k < |w| ==> !IsSpace(w[k])
  }

  /** Where a word or number may end. */
  predicate Stops(tail: string) {
    tail == [] || IsSpace(tail[0])
  }

  lemma {:induction false} WordEnds(w: string, tail: string)
    requires (forall k :: 0 <= k < |w| ==> !IsSpace(w[k])) && Stops(tail)
    ensures WordLength(w + tail) == |w|
    decreases |w|
  {
    if w != [] {
      WordEnds(w[1..], tail);
      assert (w + tail)[1..] == w[1..] + tail;
    } else {
      assert w + tail == tail;
    }
  }

  lemma {:induction false} DigitsEnd(d: string, tail: string)
    requires (forall k :: 0 <= k < |d| ==> IsDigit(d[k])) && Stops(tail)
    ensures DigitCount(d + tail) == |d|
    decreases |d|
  {
    if d != [] {
      DigitsEnd(d[1..], tail);
      assert (d + tail)[1..] == d[1..] + tail;
    } else {
      assert d + tail == tail;
    }
  }

  /** A written word is read back, whether or not a space comes before it. */
  lemma WordReadBack(space: char, w: string, tail: string)
    requires IsWord(w) && Stops(tail) && IsSpace(space)
    ensures ReadWord(w + tail) == Some(Read(w, tail))
    ensures ReadWord([space] + (w + tail)) == Some(Read(w, tail))
  {
    var t := w + tail;
    assert t[0] == w[0];
    assert SkipSpace(t) == t;
    assert ([space] + t)[1..] == t;
    WordEnds(w, tail);
    assert t[..|w|] == w && t[|w|..] == tail;
  }

  lemma DigitsLead(n: nat, tail: string)
    requires Stops(tail)
    ensures LeadingInt(Digits(n) + tail) == Some(Read(n, tail))
  {
    var d := Digits(n);
    var t := d + tail;
    assert t[0] == d[0] && IsDigit(d[0]);
    DigitsEnd(d, tail);
    assert t[..|d|] == d && t[|d|..] == tail;
    NumberOfDigits(n);
  }

  lemma IntReadBack(space: char, n: nat, tail: string)
    requires Stops(tail) && IsSpace(space)
    ensures ReadInt([space] + (Digits(n) + tail)) == Some(Read(n, tail))
  {
    var t := Digits(n) + tail;
    assert t[0] == Digits(n)[0] && IsDigit(t[0]);
    assert ([space] + t)[1..] == t;
    assert SkipSpace([space] + t) == SkipSpace(t) == t;
    DigitsLead(n, tail);
  }

  lemma DigitsAreWord(n: nat)
    ensures IsWord(Digits(n))
  {
  }

  /** Blank, tab, line feed, vertical tab, form feed and carriage return. */
  lemma SpacesInWords(c: char)
    ensures IsSpace(c) <==> c as int in {9, 10, 11, 12, 13, 32}
  {
  }

  lemma {:induction false} SpacesSkipped(spaces: string, text: string)
    requires forall k :: 0 <= k < |spaces| ==> IsSpace(spaces[k])
    ensures SkipSpace(spaces + text) == SkipSpace(text)
    decreases |spaces|
  {
    hide IsSpace;
    if spaces == [] {
      assert spaces + text == text;
    } else {
      SpacesSkipped(spaces[1..], text);
      assert (spaces + text)[1..] == spaces[1..] + text;
    }
  }

  /** Any run of them before a word or number is passed over. */
  lemma AnySpacing(spaces: string, text: string)
    requires forall k :: 0 <= k < |spaces| ==> IsSpace(spaces[k])
    ensures ReadWord(spaces + text) == ReadWord(text) && ReadInt(spaces + text) == ReadInt(text)
  {
    SpacesSkipped(spaces, text);
    hide SkipSpace, LeadingInt, WordLength;
  }

  /** A number may carry a sign. */
  lemma SignedNumber(n: nat, tail: string)
    requires Stops(tail)
    ensures LeadingInt(['+'] + (Digits(n) + tail)) == Some(Read(n, tail))
    ensures LeadingInt(['-'] + (Digits(n) + tail)) == Some(Read(0 - n as int, tail))
  {
    var t := Digits(n) + tail;
    DigitsLead(n, tail);
    hide Digits, DigitCount, NumberOf;
    assert t[0] == Digits(n)[0] && IsDigit(t[0]);
    assert (['+'] + t)[1..] == t && (['-'] + t)[1..] == t;
  }
}
