/**
  Go's `strconv.Atoi` on a 64-bit platform, which the asynchronous `Cycle`
  branch uses to read a string count. The general path is
  `ParseInt(s, 10, 0)`: an optional sign, then `ParseUint`'s left-to-right
  digit scan over uint64, which gives up at the first overflow, and a final
  clamp into int64. Inputs shorter than 19 bytes take a fast path without
  overflow checks, which gives the same results (`FastPathAgrees`).
 */
module GoAtoi {

  const MaxUint64: int := 0xFFFF_FFFF_FFFF_FFFF
  const MaxInt64: int := 0x7FFF_FFFF_FFFF_FFFF
  const MinInt64: int := -0x8000_0000_0000_0000

  /** `ParseUint`'s `cutoff` for base 10: the smallest accumulator that cannot
      be multiplied by 10 without overflow. */
  const Cutoff10: int := MaxUint64 / 10 + 1

  predicate IsDigit(c: char) {
    '0' <= c <= '9'
  }

  function DigitVal(c: char): nat
    requires IsDigit(c)
  {
    c as int - '0' as int
  }

  /** The outcome of `ParseUint`: a value, a syntax error, or a range error. */
  datatype Scan = Digits(n: nat) | SyntaxErr | RangeErr

  /** `ParseUint`'s loop from position `i` with the accumulated value `n`. A
      character that is not a digit is a syntax error; an accumulator at or
      above the cutoff, or a sum past `MaxUint64`, is a range error at once,
      whatever follows. */
  function ScanFrom(s: string, i: nat, n: nat): Scan
    requires i <= |s|
    decreases |s| - i
  {
    if i == |s| then Digits(n)
    else if !IsDigit(s[i]) then SyntaxErr
    else if n >= Cutoff10 then RangeErr
    else
      var n1 := n * 10 + DigitVal(s[i]);
      if n1 > MaxUint64 then RangeErr else ScanFrom(s, i + 1, n1)
  }

  /** `ParseUint(s, 10, 64)`. */
  function ParseUint(s: string): Scan {
    if |s| == 0 then SyntaxErr else ScanFrom(s, 0, 0)
  }

  /** The digits after an optional leading sign. */
  function Unsigned(s: string): string
    requires |s| > 0
  {
    if s[0] == '+' || s[0] == '-' then s[1..] else s
  }

  /** The value `Atoi` returns; its error result is discarded by the caller.
      A syntax error gives 0, a range error or a magnitude past int64 gives
      the bound in the sign's direction. */
  function Atoi(s: string): (v: int)
    ensures MinInt64 <= v <= MaxInt64
  {
    if |s| == 0 then 0
    else
      var neg := s[0] == '-';
      match ParseUint(Unsigned(s))
      case SyntaxErr => 0
      case RangeErr => if neg then MinInt64 else MaxInt64
      case Digits(u) =>
        var v: int := u;
        if !neg && v > MaxInt64 then MaxInt64
        else if neg && v > -MinInt64 then MinInt64
        else if neg then -v else v
  }

  /** The fast path's loop: digits accumulated without checks; any other
      character gives 0. */
  function FastScan(s: string, i: nat, n: nat): nat
    requires i <= |s|
    decreases |s| - i
  {
    if i == |s| then n
    else if !IsDigit(s[i]) then 0
    else FastScan(s, i + 1, n * 10 + DigitVal(s[i]))
  }

  /** `Atoi`'s fast path for inputs of 1 to 18 bytes. */
  function AtoiFast(s: string): int
    requires 0 < |s| < 19
  {
    var body := Unsigned(s);
    if |body| < 1 then 0
    else
      var n: int := FastScan(body, 0, 0);
      if s[0] == '-' then -n else n
  }

  function Pow10(k: nat): (r: nat)
    ensures r >= 1
  {
    if k == 0 then 1 else 10 * Pow10(k - 1)
  }

  predicate DigitsFrom(s: string, i: nat)
    requires i <= |s|
  {
    forall k :: i <= k < |s| ==> IsDigit(s[k])
  }

  /** 10^k for k <= 18 stays below the cutoff and below `MaxInt64`. */
  lemma {:induction false} Pow10Small(k: nat)
    requires k <= 18
    ensures Pow10(k) <= 1_000_000_000_000_000_000
    decreases 18 - k
  {
    if k < 18 {
      Pow10Small(k + 1);
    } else {
      assert Pow10(3) == 1_000;
      assert Pow10(6) == 1_000_000;
      assert Pow10(9) == 1_000_000_000;
      assert Pow10(12) == 1_000_000_000_000;
      assert Pow10(15) == 1_000_000_000_000_000;
      assert Pow10(18) == 1_000_000_000_000_000_000;
    }
  }

  /** On at most 18 characters the checked and the unchecked scans agree:
      neither overflows, both read all-digit input to the same value below
      `Pow10(|s|)`, and both reject any other character. */
  lemma {:induction false} ShortScanAgrees(s: string, i: nat, n: nat)
    requires i <= |s| <= 18 && n < Pow10(i)
    ensures DigitsFrom(s, i) ==> ScanFrom(s, i, n) == Digits(FastScan(s, i, n)) && FastScan(s, i, n) < Pow10(|s|)
    ensures !DigitsFrom(s, i) ==> ScanFrom(s, i, n) == SyntaxErr && FastScan(s, i, n) == 0
    decreases |s| - i
  {
    if i < |s| {
      if IsDigit(s[i]) {
        var n1 := n * 10 + DigitVal(s[i]);
        assert n1 < Pow10(i + 1);
        Pow10Small(i + 1);
        ShortScanAgrees(s, i + 1, n1);
        assert DigitsFrom(s, i) <==> DigitsFrom(s, i + 1);
      }
    }
  }

  /** `Atoi`'s fast path returns what the general path returns. */
  lemma FastPathAgrees(s: string)
    requires 0 < |s| < 19
    ensures AtoiFast(s) == Atoi(s)
  {
    var body := Unsigned(s);
    if |body| > 0 {
      ShortScanAgrees(body, 0, 0);
      Pow10Small(|body|);
    }
  }

  /** The decimal digit for `d`. */
  function DigitChar(d: nat): (c: char)
    requires d < 10
    ensures IsDigit(c) && DigitVal(c) == d
  {
    ('0' as int + d) as char
  }

  /** The decimal representation of `n`, without leading zeros. */
  function Show(n: nat): (s: string)
    ensures |s| > 0
  {
    if n < 10 then [DigitChar(n)] else Show(n / 10) + [DigitChar(n % 10)]
  }

  /** The decimal representation of an int, with `-` for a negative one, as
      `strconv.Itoa` writes it. */
  function ShowInt(n: int): string {
    if n < 0 then "-" + Show(-n) else Show(n)
  }

  /** The value of an all-digit string, read most significant digit first. */
  function Value(t: string): nat
    requires DigitsFrom(t, 0)
    decreases |t|
  {
    if |t| == 0 then 0
    else
      PrefixDigits(t, |t| - 1);
      Value(t[..|t| - 1]) * 10 + DigitVal(t[|t| - 1])
  }

  /** Every prefix of an all-digit string is all digits. */
  lemma PrefixDigits(t: string, j: nat)
    requires j <= |t| && DigitsFrom(t, 0)
    ensures DigitsFrom(t[..j], 0)
  {
    forall k | 0 <= k < j ensures IsDigit(t[..j][k]) {
      assert t[..j][k] == t[k];
    }
  }

  /** Extending a prefix by one digit multiplies its value by ten and adds the digit. */
  lemma PrefixStep(t: string, j: nat)
    requires j < |t| && DigitsFrom(t, 0)
    ensures DigitsFrom(t[..j], 0) && DigitsFrom(t[..j + 1], 0)
    ensures Value(t[..j + 1]) == Value(t[..j]) * 10 + DigitVal(t[j])
  {
    PrefixDigits(t, j);
    PrefixDigits(t, j + 1);
    assert t[..j + 1][..j] == t[..j];
  }

  /** A longer prefix has at least the value of a shorter one. */
  lemma {:induction false} PrefixMonotone(t: string, j: nat)
    requires j <= |t| && DigitsFrom(t, 0)
    ensures DigitsFrom(t[..j], 0)
    ensures Value(t[..j]) <= Value(t)
    decreases |t| - j
  {
    PrefixDigits(t, j);
    if j < |t| {
      PrefixStep(t, j);
      PrefixMonotone(t, j + 1);
    } else {
      assert t[..j] == t;
    }
  }

  /** The checked scan of an all-digit string within uint64 reads its value. */
  lemma {:induction false} ScanValue(t: string, i: nat)
    requires i <= |t| && DigitsFrom(t, 0) && Value(t) <= MaxUint64
    ensures DigitsFrom(t[..i], 0)
    ensures ScanFrom(t, i, Value(t[..i])) == Digits(Value(t))
    decreases |t| - i
  {
    PrefixDigits(t, i);
    if i == |t| {
      assert t[..i] == t;
    } else {
      PrefixStep(t, i);
      PrefixMonotone(t, i + 1);
      ScanValue(t, i + 1);
    }
  }

  /** The checked scan reports a range error as soon as an all-digit prefix
      overflows, whatever characters follow it. */
  lemma {:induction false} ScanOverflow(t: string, r: string, i: nat)
    requires i < |t| && DigitsFrom(t, 0) && Value(t) > MaxUint64
    requires DigitsFrom(t[..i], 0) && Value(t[..i]) <= MaxUint64
    ensures ScanFrom(t + r, i, Value(t[..i])) == RangeErr
    decreases |t| - i
  {
    PrefixStep(t, i);
    assert (t + r)[i] == t[i];
    if Value(t[..i]) < Cutoff10 {
      if i + 1 == |t| {
        assert t[..i + 1] == t;
      } else if Value(t[..i + 1]) <= MaxUint64 {
        ScanOverflow(t, r, i + 1);
      }
    }
  }

  /** A decimal representation is all digits and reads back as its number. */
  lemma {:induction false} ShowValue(n: nat)
    ensures DigitsFrom(Show(n), 0) && Value(Show(n)) == n
    decreases n
  {
    if n >= 10 {
      ShowValue(n / 10);
      var s := Show(n);
      var front := Show(n / 10);
      assert s == front + [DigitChar(n % 10)];
      assert forall k :: 0 <= k < |s| ==> IsDigit(s[k]) by {
        forall k | 0 <= k < |s| ensures IsDigit(s[k]) {
          if k < |front| {
            assert s[k] == front[k];
          }
        }
      }
      assert s[..|s| - 1] == front;
    }
  }

  /** `Atoi` reads back every int64 written in decimal. */
  lemma AtoiShow(n: int)
    requires MinInt64 <= n <= MaxInt64
    ensures Atoi(ShowInt(n)) == n
  {
    var m := if n < 0 then -n else n;
    ShowValue(m);
    var t := Show(m);
    ScanValue(t, 0);
    assert t[..0] == [];
    assert IsDigit(t[0]);
    if n < 0 {
      assert ShowInt(n)[1..] == t;
    }
  }

  /** Digits that overflow uint64 make `Atoi` clamp to `MaxInt64`, even when
      characters that are not digits follow: the range error is reported
      first. */
  lemma AtoiOverflowFirst(t: string, r: string)
    requires |t| > 0 && DigitsFrom(t, 0) && Value(t) > MaxUint64
    ensures Atoi(t + r) == MaxInt64
  {
    var s := t + r;
    assert t[..0] == [];
    ScanOverflow(t, r, 0);
    assert s[0] == t[0];
    assert Unsigned(s) == s;
    assert ParseUint(s) == RangeErr;
  }

  /** The same with a minus sign clamps to `MinInt64`. */
  lemma AtoiOverflowFirstNeg(t: string, r: string)
    requires |t| > 0 && DigitsFrom(t, 0) && Value(t) > MaxUint64
    ensures Atoi("-" + t + r) == MinInt64
  {
    var s := "-" + t + r;
    assert t[..0] == [];
    ScanOverflow(t, r, 0);
    assert s[0] == '-';
    assert Unsigned(s) == t + r;
    assert ParseUint(t + r) == RangeErr;
  }

  /** The checked scan of a string whose first `k` characters are digits of
      a value within uint64, followed by a character that is not a digit,
      reports a syntax error. */
  lemma {:induction false} ScanSyntax(u: string, k: nat, i: nat)
    requires i <= k < |u| && DigitsFrom(u[..k], 0) && Value(u[..k]) <= MaxUint64 && !IsDigit(u[k])
    ensures DigitsFrom(u[..i], 0)
    ensures ScanFrom(u, i, Value(u[..i])) == SyntaxErr
    decreases k - i
  {
    var t := u[..k];
    PrefixDigits(t, i);
    assert t[..i] == u[..i];
    if i < k {
      PrefixStep(t, i);
      PrefixMonotone(t, i + 1);
      assert t[..i + 1] == u[..i + 1];
      assert u[i] == t[i];
      ScanSyntax(u, k, i + 1);
    }
  }

  /** Where `Atoi` fails to parse: an empty string, a lone sign, or digits
      within uint64 after the optional sign followed by a character that is
      not a digit at position `k`. */
  predicate SyntaxFails(s: string, k: nat) {
    |s| == 0 || |Unsigned(s)| == 0
    || (k < |Unsigned(s)| && DigitsFrom(Unsigned(s)[..k], 0)
        && Value(Unsigned(s)[..k]) <= MaxUint64 && !IsDigit(Unsigned(s)[k]))
  }

  /** Every string that fails to parse gives 0. */
  lemma AtoiSyntax(s: string, k: nat)
    requires SyntaxFails(s, k)
    ensures Atoi(s) == 0
  {
    if |s| > 0 && |Unsigned(s)| > 0 {
      var u := Unsigned(s);
      ScanSyntax(u, k, 0);
      assert u[..0] == [];
    }
  }
}
