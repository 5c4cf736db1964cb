/** Text helpers: Python's decimal `str(n)` for naturals, its inverse, and
    `s.replace(pat, "")`. */
module Text {

  predicate IsDigit(c: char) { '0' <= c <= '9' }

  predicate AllDigits(s: string) { forall i :: 0 <= i < |s| ==> IsDigit(s[i]) }

  function DigitChar(d: nat): (c: char)
    requires d < 10
    ensures IsDigit(c)
  {
    ('0' as int + d) as char
  }

  function DigitValue(c: char): (d: nat)
    requires IsDigit(c)
    ensures d < 10 && DigitChar(d) == c
  {
    c as int - '0' as int
  }

  /** `str(n)` for a natural number: its decimal digits, most significant first. */
  function NatToString(n: nat): (s: string)
    ensures |s| > 0 && AllDigits(s)
  {
    if n < 10 then [DigitChar(n)] else NatToString(n / 10) + [DigitChar(n % 10)]
  }

  /** `int(s)` for a string of decimal digits. */
  function ParseNat(s: string): nat
    requires AllDigits(s)
  {
    if |s| == 0 then 0 else 10 * ParseNat(s[..|s| - 1]) + DigitValue(s[|s| - 1])
  }

  /** Reading back the decimal text of `n` gives `n`. */
  lemma {:induction false} ParseNatToString(n: nat)
    ensures ParseNat(NatToString(n)) == n
  {
    var s := NatToString(n);
    if n >= 10 {
      ParseNatToString(n / 10);
      assert s[..|s| - 1] == NatToString(n / 10);
    }
  }

  /** Distinct numbers have distinct decimal texts. */
  lemma NatToStringInjective(m: nat, n: nat)
    requires NatToString(m) == NatToString(n)
    ensures m == n
  {
    ParseNatToString(m);
    ParseNatToString(n);
  }

  /** A run of digits closed by a non-digit mark is no longer than any other such run the text starts with. */
  lemma DigitRunShorter(d1: string, t1: string, d2: string, t2: string, mark: char)
    requires AllDigits(d1) && AllDigits(d2) && !IsDigit(mark)
    requires d1 + [mark] + t1 == d2 + [mark] + t2
    ensures |d1| <= |d2|
  {
    var s := d2 + [mark] + t2;
    assert !IsDigit(s[|d2|]);
    assert forall k :: 0 <= k < |d1| ==> IsDigit(s[k]) by {
      assert s == d1 + [mark] + t1;
    }
  }

  /** A run of digits closed by a non-digit mark is recovered from the text it starts. */
  lemma DigitRunUnique(d1: string, t1: string, d2: string, t2: string, mark: char)
    requires AllDigits(d1) && AllDigits(d2) && !IsDigit(mark)
    requires d1 + [mark] + t1 == d2 + [mark] + t2
    ensures d1 == d2
  {
    DigitRunShorter(d1, t1, d2, t2, mark);
    DigitRunShorter(d2, t2, d1, t1, mark);
    var s := d1 + [mark] + t1;
    assert d1 == s[..|d1|] == d2;
  }

  /** `pat` occurs somewhere in `s`. */
  predicate Occurs(pat: string, s: string)
  {
    exists i :: 0 <= i <= |s| - |pat| && pat <= s[i..]
  }

  /** `s.replace(pat, "")`: drop every non-overlapping occurrence, scanning left to right. */
  function RemoveAll(s: string, pat: string): (r: string)
    requires |pat| > 0
    ensures |r| <= |s|
    decreases |s|
  {
    if |s| == 0 then ""
    else if pat <= s then RemoveAll(s[|pat|..], pat)
    else [s[0]] + RemoveAll(s[1..], pat)
  }

  /** Without an occurrence of the pattern, `replace` leaves the text unchanged. */
  lemma {:induction false} RemoveAllAbsent(s: string, pat: string)
    requires |pat| > 0 && !Occurs(pat, s)
    ensures RemoveAll(s, pat) == s
  {
    if |s| > 0 {
      assert !(pat <= s[0..]);
      assert s[0..] == s;
      forall i | 0 <= i <= |s[1..]| - |pat|
        ensures !(pat <= s[1..][i..])
      {
        assert s[1..][i..] == s[i + 1..];
      }
      RemoveAllAbsent(s[1..], pat);
      assert [s[0]] + s[1..] == s;
    }
  }

  /** A leading occurrence is dropped and the rest is processed as if it stood alone. */
  lemma RemoveAllLeading(pat: string, s: string)
    requires |pat| > 0
    ensures RemoveAll(pat + s, pat) == RemoveAll(s, pat)
  {
    assert pat <= pat + s;
    assert (pat + s)[|pat|..] == s;
  }
}
