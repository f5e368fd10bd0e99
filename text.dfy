/**
 * The few pieces of Python's `str` behaviour the harness relies on:
 * `upper()`, the `in` operator on strings, `strip()`, `int()` on a line of
 * text and `str()` of a natural number. Case mapping and whitespace are
 * restricted to ASCII.
 */
module Text {
  import opened Wrappers

  // ---------------------------------------------------------------------------
  // upper()

  function UpperChar(c: char): char {
    if 'a' <= c <= 'z' then (c as int - 32) as char else c
  }

  /** `s.upper()`, for ASCII letters. */
  function Upper(s: string): (u: string)
    ensures |u| == |s|
    ensures forall i :: 0 <= i < |s| ==> u[i] == UpperChar(s[i])
  {
    if s == [] then [] else [UpperChar(s[0])] + Upper(s[1..])
  }

  /** Upper-casing leaves a string of decimal digits alone and produces one from nothing else. */
  lemma {:induction false} UpperIsDigitsExactly(s: string, d: string)
    requires forall i :: 0 <= i < |d| ==> IsDigit(d[i])
    ensures Upper(s) == d <==> s == d
  {
    if Upper(s) == d {
      assert |s| == |d|;
      forall i | 0 <= i < |s| ensures s[i] == d[i] {
        assert UpperChar(s[i]) == d[i];
      }
    }
    if s == d {
      forall i | 0 <= i < |s| ensures Upper(s)[i] == d[i] {
        assert IsDigit(s[i]);
      }
    }
  }

  /** Upper-casing works character by character, so it distributes over concatenation. */
  lemma {:induction false} UpperAppend(a: string, b: string)
    ensures Upper(a + b) == Upper(a) + Upper(b)
  {
    if a == [] {
      assert a + b == b;
    } else {
      assert (a + b)[1..] == a[1..] + b;
      UpperAppend(a[1..], b);
    }
  }

  // ---------------------------------------------------------------------------
  // `needle in hay`

  predicate IsPrefix(p: string, s: string) {
    |p| <= |s| && s[..|p|] == p
  }

  /** Python's `needle in hay` on strings: `needle` occurs as a contiguous block. */
  predicate Contains(hay: string, needle: string)
    decreases |hay|
  {
    IsPrefix(needle, hay) || (|hay| > 0 && Contains(hay[1..], needle))
  }

  lemma {:induction false} ContainsAt(hay: string, needle: string, i: nat)
    requires i + |needle| <= |hay| && hay[i..i + |needle|] == needle
    ensures Contains(hay, needle)
    decreases i
  {
    if i == 0 {
      assert hay[..|needle|] == needle;
    } else {
      assert hay[1..][i - 1..i - 1 + |needle|] == needle;
      ContainsAt(hay[1..], needle, i - 1);
    }
  }

  /** An occurrence is a position where the needle starts. */
  lemma {:induction false} ContainsWitness(hay: string, needle: string) returns (i: nat)
    requires Contains(hay, needle)
    ensures i + |needle| <= |hay| && hay[i..i + |needle|] == needle
    decreases |hay|
  {
    if IsPrefix(needle, hay) {
      i := 0;
    } else {
      var j := ContainsWitness(hay[1..], needle);
      i := j + 1;
      assert hay[i..i + |needle|] == hay[1..][j..j + |needle|];
    }
  }

  /** A non-empty needle fits only in a hay at least as long. */
  lemma ContainsImpliesLonger(hay: string, needle: string)
    requires Contains(hay, needle)
    ensures |needle| <= |hay|
  {
    var i := ContainsWitness(hay, needle);
  }

  /** Whatever stands around a piece of text, the whole contains it. */
  lemma ContainsInfix(a: string, b: string, c: string)
    ensures Contains(a + b + c, b)
  {
    var s := a + b + c;
    assert s[|a|..|a| + |b|] == b;
    ContainsAt(s, b, |a|);
  }

  /** An occurrence in the tail of a string is an occurrence in the whole. */
  lemma ContainsInSuffix(a: string, b: string, needle: string)
    requires Contains(b, needle)
    ensures Contains(a + b, needle)
  {
    var i := ContainsWitness(b, needle);
    var s := a + b;
    assert s[|a| + i..|a| + i + |needle|] == b[i..i + |needle|];
    ContainsAt(s, needle, |a| + i);
  }

  /** A needle whose first character does not occur in the hay is not in it. */
  lemma {:induction false} NotContainsFirst(hay: string, needle: string)
    requires |needle| > 0 && needle[0] !in hay
    ensures !Contains(hay, needle)
    decreases |hay|
  {
    if |hay| > 0 {
      assert hay[0] in hay;
      forall c | c in hay[1..] ensures c in hay {
        var k :| 0 <= k < |hay[1..]| && hay[1..][k] == c;
        assert hay[k + 1] == c;
      }
      NotContainsFirst(hay[1..], needle);
    }
  }

  // ---------------------------------------------------------------------------
  // str(n) for a natural number

  predicate IsDigit(c: char) {
    '0' <= c <= '9'
  }

  function DigitChar(d: nat): char
    requires d < 10
  {
    ('0' as int + d) as char
  }

  /** `str(n)`: the shortest decimal rendering of `n`. */
  function NatToString(n: nat): (s: string)
    ensures |s| > 0
    ensures forall i :: 0 <= i < |s| ==> IsDigit(s[i])
  {
    if n < 10 then [DigitChar(n)] else NatToString(n / 10) + [DigitChar(n % 10)]
  }

  /** `str(i)` for an integer. */
  function IntToString(i: int): string {
    if i < 0 then "-" + NatToString(-i) else NatToString(i)
  }

  /** The one-character strings "0", "1", "2" the answer extraction compares against. */
  lemma DigitStrings()
    ensures NatToString(0) == "0" && NatToString(1) == "1" && NatToString(2) == "2"
  {
  }

  // ---------------------------------------------------------------------------
  // strip() and int()

  /** ASCII characters that `str.strip()` removes. */
  predicate IsSpace(c: char) {
    c == ' ' || 9 <= c as int <= 13 || 28 <= c as int <= 31
  }

  function StripLeft(s: string): string {
    if |s| > 0 && IsSpace(s[0]) then StripLeft(s[1..]) else s
  }

  function StripRight(s: string): string {
    if |s| > 0 && IsSpace(s[|s| - 1]) then StripRight(s[..|s| - 1]) else s
  }

  /** `s.strip()`. */
  function Strip(s: string): string {
    StripLeft(StripRight(s))
  }

  /** The digit part that `int()` accepts: decimal digits, with single underscores between digits. */
  predicate IsDigitGroup(s: string) {
    && |s| > 0
    && IsDigit(s[0]) && IsDigit(s[|s| - 1])
    && (forall i :: 0 <= i < |s| ==> IsDigit(s[i]) || s[i] == '_')
    && (forall i :: 0 <= i < |s| - 1 && s[i] == '_' ==> s[i + 1] != '_')
  }

  /** The value of a digit group, underscores skipped. */
  function DigitGroupValue(s: string): nat {
    if s == [] then 0
    else
      var last := s[|s| - 1];
      if IsDigit(last) then DigitGroupValue(s[..|s| - 1]) * 10 + (last as int - '0' as int)
      else DigitGroupValue(s[..|s| - 1])
  }

  /** `int(s)` in base 10: `None` where Python raises `ValueError`. */
  function ParseInt(s: string): (r: Option<int>)
    ensures r.Some? ==> |s| > 0
  {
    var t := Strip(s);
    if |t| > 0 && (t[0] == '-' || t[0] == '+') then
      if IsDigitGroup(t[1..]) then
        var v: int := DigitGroupValue(t[1..]);
        Some(if t[0] == '-' then -v else v)
      else None
    else if IsDigitGroup(t) then Some(DigitGroupValue(t))
    else None
  }

  lemma {:induction false} NatToStringValue(n: nat)
    ensures DigitGroupValue(NatToString(n)) == n
  {
    if n >= 10 {
      var s := NatToString(n / 10) + [DigitChar(n % 10)];
      assert s[..|s| - 1] == NatToString(n / 10);
      NatToStringValue(n / 10);
    }
  }

  lemma StripKeeps(s: string)
    requires |s| > 0 && !IsSpace(s[0]) && !IsSpace(s[|s| - 1])
    ensures Strip(s) == s
  {
  }

  /** `int(str(i)) == i`: rendering an integer and parsing it back is the identity. */
  lemma IntRoundTrip(i: int)
    ensures ParseInt(IntToString(i)) == Some(i)
  {
    var s := IntToString(i);
    if i < 0 {
      var d := NatToString(-i);
      assert s == "-" + d;
      StripKeeps(s);
      assert s[1..] == d;
      NatToStringValue(-i);
    } else {
      StripKeeps(s);
      NatToStringValue(i);
    }
  }

  /** A line holding nothing but whitespace is not an integer. */
  lemma BlankIsNotInt(s: string)
    requires forall i :: 0 <= i < |s| ==> IsSpace(s[i])
    ensures ParseInt(s) == None
  {
    BlankStripsToEmpty(s);
  }

  /** `.strip()` of a line holding nothing but whitespace is empty; the right strip alone already empties it. */
  lemma {:induction false} BlankStripsToEmpty(s: string)
    requires forall i :: 0 <= i < |s| ==> IsSpace(s[i])
    ensures StripRight(s) == []
    ensures Strip(s) == []
  {
    if |s| > 0 {
      BlankStripsToEmpty(s[..|s| - 1]);
    }
  }
}
