/** Decimal rendering of the numbers that end up in file names (`%d` in the suffix rules). */
module Decimal {
  import opened Wrappers

  const DIGITS := "0123456789"

  predicate IsDigit(c: char) {
    '0' <= c <= '9'
  }

  function Itoa(n: nat): (s: string)
    ensures |s| >= 1
  {
    if n < 10 then [DIGITS[n]] else Itoa(n / 10) + [DIGITS[n % 10]]
  }

  function DigitValue(c: char): (d: nat)
    requires IsDigit(c)
    ensures d < 10
  {
    (c as int) - ('0' as int)
  }

  /** The number a digit string denotes, read independently of Itoa. */
  function Atoi(s: string): nat
    requires AllDigits(s)
  {
    if s == [] then 0 else 10 * Atoi(s[..|s| - 1]) + DigitValue(s[|s| - 1])
  }

  lemma {:induction false} ItoaDigits(n: nat)
    ensures forall c | c in Itoa(n) :: IsDigit(c)
  {
    if n >= 10 {
      ItoaDigits(n / 10);
    }
  }

  lemma {:induction false} AtoiItoa(n: nat)
    ensures forall c | c in Itoa(n) :: IsDigit(c)
    ensures Atoi(Itoa(n)) == n
  {
    ItoaDigits(n);
    if n >= 10 {
      AtoiItoa(n / 10);
      assert Itoa(n)[..|Itoa(n)| - 1] == Itoa(n / 10);
    } else {
      assert Itoa(n)[..0] == [];
    }
  }

  lemma ItoaInjective(m: nat, n: nat)
    requires Itoa(m) == Itoa(n)
    ensures m == n
  {
    AtoiItoa(m);
    AtoiItoa(n);
  }

  predicate AllDigits(s: string) {
    forall c | c in s :: IsDigit(c)
  }

  // ---- numerals ----

  function Zeros(k: nat): (s: string)
    ensures |s| == k && forall i | 0 <= i < k :: s[i] == '0'
  {
    if k == 0 then "" else "0" + Zeros(k - 1)
  }

  /** The decimal rendering of `v`, with leading zeros or without. */
  ghost predicate Numeral(s: string, v: nat) {
    exists k: nat :: s == Zeros(k) + Itoa(v)
  }

  lemma AtoiAppend(s: string, c: char)
    requires AllDigits(s) && IsDigit(c)
    ensures AllDigits(s + [c]) && Atoi(s + [c]) == 10 * Atoi(s) + DigitValue(c)
  {
    assert (s + [c])[..|s|] == s;
  }

  lemma {:induction false} LeadingZero(s: string)
    requires AllDigits(s)
    ensures AllDigits("0" + s) && Atoi("0" + s) == Atoi(s)
  {
    if s == "" {
      AtoiAppend("", '0');
      assert "" + ['0'] == "0" + s;
    } else {
      var init, c := s[..|s| - 1], s[|s| - 1];
      LeadingZero(init);
      assert s == init + [c] && "0" + s == ("0" + init) + [c];
      hide Atoi;
      AtoiAppend(init, c);
      AtoiAppend("0" + init, c);
    }
  }

  lemma {:induction false} LeadingZeros(k: nat, s: string)
    requires AllDigits(s)
    ensures AllDigits(Zeros(k) + s) && Atoi(Zeros(k) + s) == Atoi(s)
  {
    if k == 0 {
      assert Zeros(0) + s == s;
    } else {
      assert Zeros(k) + s == "0" + (Zeros(k - 1) + s);
      hide Atoi, Zeros;
      LeadingZeros(k - 1, s);
      LeadingZero(Zeros(k - 1) + s);
    }
  }

  lemma ItoaAppend(v: nat, d: nat)
    requires d < 10
    ensures Itoa(10 * v + d) == if v == 0 then [DIGITS[d]] else Itoa(v) + [DIGITS[d]]
  {
    hide DIGITS;
  }

  lemma ItoaZero()
    ensures Itoa(0) == "0"
  {
  }

  /** One more digit behind a numeral. */
  lemma NumeralAppend(s: string, v: nat, d: nat)
    requires d < 10 && Numeral(s, v)
    ensures Numeral(s + [DIGITS[d]], 10 * v + d)
  {
    hide Itoa, Zeros;
    ItoaAppend(v, d);
    ItoaZero();
    var k: nat :| s == Zeros(k) + Itoa(v);
    if v > 0 {
      assert s + [DIGITS[d]] == Zeros(k) + Itoa(10 * v + d);
    } else {
      assert s == Zeros(k + 1);
      assert s + [DIGITS[d]] == Zeros(k + 1) + Itoa(d);
    }
  }

  lemma DigitNumeral(d: nat)
    requires d < 10
    ensures Numeral([DIGITS[d]], d)
  {
    assert [DIGITS[d]] == Zeros(0) + Itoa(d);
  }

  lemma {:induction false} DigitsAreNumeral(s: string)
    requires s != "" && AllDigits(s)
    ensures Numeral(s, Atoi(s))
  {
    var init, c := s[..|s| - 1], s[|s| - 1];
    var d := DigitValue(c);
    assert DIGITS[d] == c;
    assert s == init + [c];
    AtoiAppend(init, c);
    hide Numeral, Atoi, DIGITS;
    if init == "" {
      DigitNumeral(d);
      assert s == [c];
      assert Atoi(init) == 0 by {
        AtoiOfNothing();
      }
    } else {
      DigitsAreNumeral(init);
      NumeralAppend(init, Atoi(init), d);
    }
  }

  lemma AtoiOfNothing()
    ensures Atoi("") == 0
  {
  }

  /** Exactly the numerals of `v` denote `v`. */
  lemma NumeralIff(s: string, v: nat)
    ensures s != "" && AllDigits(s) && Atoi(s) == v <==> Numeral(s, v)
  {
    if s != "" && AllDigits(s) {
      DigitsAreNumeral(s);
    }
    AtoiItoa(v);
    hide Atoi, Itoa;
    if k: nat :| s == Zeros(k) + Itoa(v) {
      LeadingZeros(k, Itoa(v));
    }
  }

  // ---- reading settings back ----

  const INT64_LIMIT := 0x8000_0000_0000_0000

  /**
   The settings rule for day counts and retry limits: strconv.Atoi on 64 bits, then strictly positive.
   Anything else is an error, so that no run starts on a misread limit.
   */
  function ParsePositive(s: string): Option<nat> {
    var digits := if s != "" && s[0] in "+-" then s[1..] else s;
    if digits == "" || exists c | c in digits :: !IsDigit(c) then None
    else if Atoi(digits) == 0 || s[0] == '-' || Atoi(digits) >= INT64_LIMIT then None
    else Some(Atoi(digits))
  }

  /** Whatever the text: accepted are the numerals of the positive numbers of 63 bits, alone or after a plus. */
  lemma ParsePositiveExact(s: string, v: nat)
    ensures ParsePositive(s) == Some(v) <==>
              0 < v < INT64_LIMIT && (Numeral(s, v) || (s != "" && s[0] == '+' && Numeral(s[1..], v)))
  {
    NumeralIff(s, v);
    if s != "" {
      NumeralIff(s[1..], v);
    }
    assert s != "" && AllDigits(s) ==> s[0] in s;
  }

  lemma ParsePositiveOfItoa(n: nat)
    ensures ParsePositive(Itoa(n)) == if 0 < n < INT64_LIMIT then Some(n) else None
    ensures ParsePositive("-" + Itoa(n)) == None
  {
    AtoiItoa(n);
    assert Itoa(n)[0] in Itoa(n);
    assert ("-" + Itoa(n))[1..] == Itoa(n);
  }

  /** Empty is NULL; otherwise strconv.ParseInt on 64 bits and not negative. The outer None is a format error. */
  function ParseNonNegativeOpt(s: string): Option<Option<nat>> {
    if s == "" then Some(None)
    else
      var digits := if s[0] in "+-" then s[1..] else s;
      if digits == "" || !AllDigits(digits) || Atoi(digits) >= INT64_LIMIT then None
      else if s[0] == '-' && Atoi(digits) != 0 then None
      else Some(Some(Atoi(digits)))
  }

  /** Accepted are no text, the numerals of the numbers of 63 bits, alone or after a plus, and minus zero. */
  lemma NonNegativeExact(s: string, v: nat)
    ensures ParseNonNegativeOpt(s) == Some(None) <==> s == ""
    ensures ParseNonNegativeOpt(s) == Some(Some(v)) <==>
              && v < INT64_LIMIT
              && (Numeral(s, v) || (s != "" && (s[0] == '+' || (s[0] == '-' && v == 0)) && Numeral(s[1..], v)))
  {
    NumeralIff(s, v);
    if s != "" {
      NumeralIff(s[1..], v);
    }
    assert s != "" && AllDigits(s) ==> s[0] in s;
  }

  // ---- two digits ----

  /** Zero-padded to two digits, as Go's 01, 02, 15, 04 and 05 print. */
  function Two(n: nat): (s: string)
    requires n < 100
    ensures |s| == 2 && IsDigit(s[0]) && IsDigit(s[1])
  {
    [DIGITS[n / 10], DIGITS[n % 10]]
  }

  /** The two digits at `i`. */
  function Pair(n: string, i: nat): (v: nat)
    requires i + 1 < |n| && IsDigit(n[i]) && IsDigit(n[i + 1])
    ensures v < 100
  {
    10 * DigitValue(n[i]) + DigitValue(n[i + 1])
  }

  lemma DigitBack(c: char)
    requires IsDigit(c)
    ensures DIGITS[DigitValue(c)] == c
  {
  }

  lemma PairOfTwo(n: string, i: nat)
    requires i + 1 < |n| && IsDigit(n[i]) && IsDigit(n[i + 1])
    ensures Two(Pair(n, i)) == n[i..i + 2]
  {
    DigitBack(n[i]);
    DigitBack(n[i + 1]);
    hide IsDigit, DigitValue;
    var a, b := DigitValue(n[i]), DigitValue(n[i + 1]);
    assert Pair(n, i) / 10 == a && Pair(n, i) % 10 == b;
  }

  lemma TwoOfPair(n: string, i: nat, v: nat)
    requires v < 100 && i + 2 <= |n| && n[i..i + 2] == Two(v)
    ensures IsDigit(n[i]) && IsDigit(n[i + 1]) && Pair(n, i) == v
  {
    assert n[i] == n[i..i + 2][0] && n[i + 1] == n[i..i + 2][1];
    DigitAt(v / 10);
    DigitAt(v % 10);
    hide DigitValue;
  }

  lemma DigitAt(d: nat)
    requires d < 10
    ensures IsDigit(DIGITS[d]) && DigitValue(DIGITS[d]) == d
  {
  }

  lemma TwoIs(n: nat)
    requires n < 100
    ensures AllDigits(Two(n)) && Atoi(Two(n)) == n
  {
    DigitAt(n / 10);
    DigitAt(n % 10);
    AtoiOfNothing();
    AtoiAppend("", DIGITS[n / 10]);
    AtoiAppend([DIGITS[n / 10]], DIGITS[n % 10]);
    hide Atoi;
    assert "" + [DIGITS[n / 10]] == [DIGITS[n / 10]];
    assert [DIGITS[n / 10]] + [DIGITS[n % 10]] == Two(n);
  }

  lemma IsTwo(s: string)
    requires |s| == 2 && AllDigits(s)
    ensures Atoi(s) < 100 && Two(Atoi(s)) == s
  {
    PairOfTwo(s, 0);
    assert s[0..2] == s;
    TwoIs(Pair(s, 0));
  }

  /** Four digits are two times two. */
  lemma FourIs(s: string, t: string)
    requires |s| == |t| == 2 && AllDigits(s) && AllDigits(t)
    ensures AllDigits(s + t) && Atoi(s + t) == 100 * Atoi(s) + Atoi(t)
  {
    AtoiOfNothing();
    AtoiAppend(s, t[0]);
    AtoiAppend(s + [t[0]], t[1]);
    AtoiAppend("", t[0]);
    AtoiAppend([t[0]], t[1]);
    hide Atoi;
    assert "" + [t[0]] == [t[0]];
    assert [t[0]] + [t[1]] == t && s + [t[0]] + [t[1]] == s + t;
  }
}
