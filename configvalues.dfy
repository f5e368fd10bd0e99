/**
 * The run-wide settings (src/Configvalues.py): the model name, how many tests
 * to pick, whether chat histories are cleared, and the timestamp that all
 * files of one run share.
 */
module Config {
  import opened Text

  const LLMVersion: string := "carterprince/google-gemma-2-27b-it-ortho-Q4_K_S-GGUF"
  const NumberOfTestsToChoose: nat := 100
  const CleanHistory: bool := true

  // ---------------------------------------------------------------------------
  // getllM

  function Unslashed(c: char): char {
    if c == '/' then '-' else c
  }

  /** `s.replace("/", "-")`. */
  function ReplaceSlash(s: string): (r: string)
    ensures |r| == |s|
    ensures forall i :: 0 <= i < |s| ==> r[i] == Unslashed(s[i])
  {
    if s == [] then [] else [Unslashed(s[0])] + ReplaceSlash(s[1..])
  }

  /** Nothing is left to replace afterwards. */
  lemma ReplaceSlashRemovesAll(s: string)
    ensures '/' !in ReplaceSlash(s)
  {
    var r := ReplaceSlash(s);
    forall i | 0 <= i < |r| ensures r[i] != '/' {
      assert r[i] == Unslashed(s[i]);
    }
  }

  /** A string without '/' is left alone, so replacing twice is replacing once. */
  lemma ReplaceSlashKeepsClean(s: string)
    requires '/' !in s
    ensures ReplaceSlash(s) == s
  {
    var r := ReplaceSlash(s);
    forall i | 0 <= i < |s| ensures r[i] == s[i] {
      assert s[i] in s;
    }
  }

  lemma ReplaceSlashIdempotent(s: string)
    ensures ReplaceSlash(ReplaceSlash(s)) == ReplaceSlash(s)
  {
    ReplaceSlashRemovesAll(s);
    ReplaceSlashKeepsClean(ReplaceSlash(s));
  }

  /** `r` is `s` with every '/' turned into '-' and every other character kept. */
  predicate Hyphenated(s: string, r: string) {
    |r| == |s| && forall i :: 0 <= i < |s| ==> r[i] == Unslashed(s[i])
  }

  lemma ReplaceSlashHyphenates(s: string)
    ensures Hyphenated(s, ReplaceSlash(s))
  {
  }

  /** `Konfigvalues.getllM()`: the model name with every '/' turned into '-', fit for a file name. */
  function GetLlm(): (r: string)
    ensures Hyphenated(LLMVersion, r)
    ensures '/' !in r
  {
    ReplaceSlashRemovesAll(LLMVersion);
    ReplaceSlashHyphenates(LLMVersion);
    ReplaceSlash(LLMVersion)
  }

  // ---------------------------------------------------------------------------
  // getNowTimestamp

  /** What `datetime.datetime.now()` reports; a Python `datetime` keeps every field in these ranges. */
  datatype DateTime = DateTime(year: nat, month: nat, day: nat, hour: nat, minute: nat, second: nat)

  predicate ValidDateTime(d: DateTime) {
    1 <= d.year <= 9999 && 1 <= d.month <= 12 && 1 <= d.day <= 31 && d.hour < 24 && d.minute < 60 && d.second < 60
  }

  /** The last `width` decimal digits of `n`, zero-padded. */
  function Digits(n: nat, width: nat): (s: string)
    ensures |s| == width
    ensures forall i :: 0 <= i < |s| ==> IsDigit(s[i])
  {
    if width == 0 then [] else Digits(n / 10, width - 1) + [DigitChar(n % 10)]
  }

  function Pow10(k: nat): (p: nat)
    ensures p >= 1
  {
    if k == 0 then 1 else 10 * Pow10(k - 1)
  }

  /** The padded digits read back as the number, as long as it fits. */
  lemma {:induction false} DigitsValue(n: nat, width: nat)
    requires n < Pow10(width)
    ensures DigitGroupValue(Digits(n, width)) == n
  {
    if width > 0 {
      var s := Digits(n, width);
      assert s[..|s| - 1] == Digits(n / 10, width - 1);
      DigitsValue(n / 10, width - 1);
    }
  }

  /** `strftime('%Y%m%dT%H%M%S')`. */
  function Format(d: DateTime): string
    requires ValidDateTime(d)
  {
    Digits(d.year, 4) + Digits(d.month, 2) + Digits(d.day, 2) + "T"
      + Digits(d.hour, 2) + Digits(d.minute, 2) + Digits(d.second, 2)
  }

  /** A formatted timestamp is fifteen characters: eight digits of date, 'T', six digits of time; the digits read back as the fields. */
  lemma FormatShape(d: DateTime)
    requires ValidDateTime(d)
    ensures |Format(d)| == 15
    ensures Format(d)[8] == 'T'
    ensures forall i :: 0 <= i < 15 && i != 8 ==> IsDigit(Format(d)[i])
    ensures DigitGroupValue(Format(d)[..4]) == d.year && DigitGroupValue(Format(d)[4..6]) == d.month
    ensures DigitGroupValue(Format(d)[6..8]) == d.day && DigitGroupValue(Format(d)[9..11]) == d.hour
    ensures DigitGroupValue(Format(d)[11..13]) == d.minute && DigitGroupValue(Format(d)[13..15]) == d.second
  {
    var f := Format(d);
    assert f[..4] == Digits(d.year, 4);
    assert f[4..6] == Digits(d.month, 2);
    assert f[6..8] == Digits(d.day, 2);
    assert f[9..11] == Digits(d.hour, 2);
    assert f[11..13] == Digits(d.minute, 2);
    assert f[13..15] == Digits(d.second, 2);
    DigitsValue(d.year, 4);
    DigitsValue(d.month, 2);
    DigitsValue(d.day, 2);
    DigitsValue(d.hour, 2);
    DigitsValue(d.minute, 2);
    DigitsValue(d.second, 2);
  }

  /** The value of `now` after one `getNowTimestamp` call at clock reading `clock`. */
  function NextNow(now: string, clock: DateTime): (r: string)
    requires ValidDateTime(clock)
    ensures |now| > 0 ==> r == now
    ensures |now| == 0 ==> r == Format(clock)
    ensures |r| > 0
  {
    FormatShape(clock);
    if |now| == 0 then Format(clock) else now
  }

  /** Once set, the timestamp never changes again, whatever the clock says later. */
  lemma NowIsStable(now: string, first: DateTime, later: DateTime)
    requires ValidDateTime(first) && ValidDateTime(later)
    ensures NextNow(NextNow(now, first), later) == NextNow(now, first)
  {
  }

  /** The class-level state of `Konfigvalues`. */
  class Konfigvalues {
    var now: string

    constructor()
      ensures now == ""
    {
      now := "";
    }

    /** `Konfigvalues.getNowTimestamp()`, the clock read as `clock`. */
    method GetNowTimestamp(clock: DateTime) returns (r: string)
      requires ValidDateTime(clock)
      modifies this
      ensures now == NextNow(old(now), clock)
      ensures r == now
    {
      if |now| == 0 {
        now := Format(clock);
      }
      r := now;
    }
  }
}
