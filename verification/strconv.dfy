/**
  The conversions of Go's `strconv` package that the built-in flag parsers
  call: `ParseBool`/`FormatBool`, and `ParseInt`/`ParseUint`/`FormatInt`/
  `FormatUint` in base 10 with a 64-bit size. Integers are unbounded here, so
  the 64-bit range is checked explicitly, with the same cutoff test and the
  same order of checks as the Go library.
 */
module Strconv {
  import opened Wrappers

  /** `strconv.ErrSyntax` and `strconv.ErrRange`. */
  datatype NumErrorKind = ErrSyntax | ErrRange

  /** `*strconv.NumError`: the failing function, the input it was given, and why. */
  datatype NumError = NumError(fn: string, num: string, err: NumErrorKind)

  const MaxUint64: nat := 0xFFFF_FFFF_FFFF_FFFF
  const MinInt64: int := -0x8000_0000_0000_0000
  const MaxInt64: int := 0x7FFF_FFFF_FFFF_FFFF

  /** `1 << 63`: the magnitude bound `ParseInt` checks a 64-bit result against. */
  const Int64Cutoff: nat := 0x8000_0000_0000_0000

  // ---------------------------------------------------------------- booleans

  const TrueSpellings: set<string> := {"1", "t", "T", "true", "TRUE", "True"}
  const FalseSpellings: set<string> := {"0", "f", "F", "false", "FALSE", "False"}

  /** `strconv.ParseBool`: a fixed table of accepted spellings. */
  function ParseBool(s: string): (r: Result<bool, NumError>)
    ensures r.Success? <==> s in TrueSpellings || s in FalseSpellings
    ensures r.Success? ==> (r.value <==> s in TrueSpellings)
    ensures r.Failure? ==> r.error == NumError("ParseBool", s, ErrSyntax)
  {
    if s in TrueSpellings then Success(true)
    else if s in FalseSpellings then Success(false)
    else Failure(NumError("ParseBool", s, ErrSyntax))
  }

  /** `strconv.FormatBool`. */
  function FormatBool(b: bool): (r: string)
    ensures b ==> r in TrueSpellings
    ensures !b ==> r in FalseSpellings
  {
    if b then "true" else "false"
  }

  /** `FormatBool` renders a value `ParseBool` reads back unchanged. */
  lemma ParseFormatBool(b: bool)
    ensures ParseBool(FormatBool(b)) == Success(b)
  {
  }

  // ------------------------------------------------------------ digit strings

  predicate IsDigit(c: char) {
    '0' <= c <= '9'
  }

  function DigitValue(c: char): nat
    requires IsDigit(c)
  {
    c as int - '0' as int
  }

  function DigitChar(d: nat): (c: char)
    requires d < 10
    ensures IsDigit(c) && DigitValue(c) == d
  {
    (d + '0' as int) as char
  }

  predicate AllDigits(s: string) {
    forall i :: 0 <= i < |s| ==> IsDigit(s[i])
  }

  /** The number a string of decimal digits denotes, most significant digit first. */
  function DecimalValue(s: string): nat
    requires AllDigits(s)
    decreases |s|
  {
    if |s| == 0 then 0 else DecimalValue(s[..|s| - 1]) * 10 + DigitValue(s[|s| - 1])
  }

  /** A prefix of a digit string never denotes more than the whole string. */
  lemma {:induction false} DecimalValuePrefix(s: string, j: nat)
    requires AllDigits(s) && j <= |s|
    ensures DecimalValue(s[..j]) <= DecimalValue(s)
    decreases |s| - j
  {
    if j < |s| {
      var t := s[..|s| - 1];
      assert t[..j] == s[..j];
      DecimalValuePrefix(t, j);
    } else {
      assert s[..j] == s;
    }
  }

  /** A digit string whose first `j` characters already exceed 64 bits. */
  ghost predicate OverflowsAt(s: string, j: nat) {
    j <= |s| && AllDigits(s[..j]) && DecimalValue(s[..j]) > MaxUint64
  }

  /**
    The digit loop of `strconv.ParseUint` for base 10 and 64 bits, resumed at
    index `i` with the value `n` of the digits before it. A non-digit is a
    syntax error; a value that no longer fits is a range error, reported as
    soon as the offending digit is reached, before any later character is
    looked at.
   */
  function ScanUint(s: string, i: nat, n: nat): (r: Result<nat, NumErrorKind>)
    requires i <= |s| && AllDigits(s[..i]) && n == DecimalValue(s[..i]) && n <= MaxUint64
    ensures r.Success? <==> AllDigits(s) && DecimalValue(s) <= MaxUint64
    ensures r.Success? ==> r.value == DecimalValue(s)
    ensures r == Failure(ErrSyntax) ==> !AllDigits(s)
    ensures r == Failure(ErrRange) ==> exists j :: OverflowsAt(s, j)
    decreases |s| - i
  {
    if i == |s| then
      assert s[..i] == s;
      Success(n)
    else if !IsDigit(s[i]) then
      Failure(ErrSyntax)
    else
      assert s[..i + 1][..i] == s[..i];
      var n1 := n * 10 + DigitValue(s[i]);
      assert n1 == DecimalValue(s[..i + 1]);
      if n >= MaxUint64 / 10 + 1 then
        // n * 10 already overflows
        assert OverflowsAt(s, i + 1);
        LemmaOverflowFails(s, i + 1);
        Failure(ErrRange)
      else if n1 > MaxUint64 then
        // n * 10 + d overflows
        assert OverflowsAt(s, i + 1);
        LemmaOverflowFails(s, i + 1);
        Failure(ErrRange)
      else
        ScanUint(s, i + 1, n1)
  }

  /** A string with an overflowing digit prefix is not a 64-bit digit string. */
  lemma LemmaOverflowFails(s: string, j: nat)
    requires OverflowsAt(s, j)
    ensures !(AllDigits(s) && DecimalValue(s) <= MaxUint64)
  {
    if AllDigits(s) {
      DecimalValuePrefix(s, j);
    }
  }

  /** `strconv.ParseUint(s, 10, 64)`. */
  function ParseUint(s: string): (r: Result<nat, NumError>)
    ensures r.Success? <==> |s| > 0 && AllDigits(s) && DecimalValue(s) <= MaxUint64
    ensures r.Success? ==> r.value == DecimalValue(s) <= MaxUint64
    ensures r.Failure? ==> r.error.fn == "ParseUint" && r.error.num == s
    ensures r.Failure? && |s| > 0 && AllDigits(s) ==> r.error.err == ErrRange
  {
    if s == [] then Failure(NumError("ParseUint", s, ErrSyntax))
    else
      assert s[..0] == [];
      match ScanUint(s, 0, 0)
      case Success(n) => Success(n)
      case Failure(kind) =>
        assert kind == ErrSyntax ==> !AllDigits(s);
        Failure(NumError("ParseUint", s, kind))
  }

  /** The digits `ParseInt` hands to `ParseUint`: the input less one leading sign. */
  function UnsignedPart(s: string): string {
    if |s| > 0 && (s[0] == '+' || s[0] == '-') then s[1..] else s
  }

  /** A base-10 text whose value, with its optional sign, fits in 64 signed bits. */
  ghost predicate IsInt64Text(s: string) {
    var u := UnsignedPart(s);
    && |s| > 0 && |u| > 0 && AllDigits(u)
    && (if s[0] == '-' then DecimalValue(u) <= Int64Cutoff else DecimalValue(u) < Int64Cutoff)
  }

  /**
    `strconv.ParseInt(s, 10, 64)`: an optional sign, then the `ParseUint`
    digit loop, then the signed 64-bit range check. Errors name "ParseInt"
    and carry the whole input, sign included.
   */
  function ParseInt(s: string): (r: Result<int, NumError>)
    ensures r.Success? <==> IsInt64Text(s)
    ensures r.Success? ==> MinInt64 <= r.value <= MaxInt64
    ensures r.Success? ==> |s| > 0 && AllDigits(UnsignedPart(s))
    ensures r.Success? ==> (if s[0] == '-' then -r.value else r.value) == DecimalValue(UnsignedPart(s))
    ensures r.Failure? ==> r.error.fn == "ParseInt" && r.error.num == s
  {
    if s == [] then Failure(NumError("ParseInt", s, ErrSyntax))
    else
      var neg := s[0] == '-';
      match ParseUint(UnsignedPart(s))
      case Failure(e) =>
        if e.err == ErrRange then Failure(NumError("ParseInt", s, ErrRange))
        else Failure(NumError("ParseInt", s, ErrSyntax))
      case Success(un) =>
        if !neg && un >= Int64Cutoff then Failure(NumError("ParseInt", s, ErrRange))
        else if neg && un > Int64Cutoff then Failure(NumError("ParseInt", s, ErrRange))
        else Success(if neg then -(un as int) else un as int)
  }

  /** `strconv.FormatUint(n, 10)`: the shortest decimal rendering. */
  function FormatUint(n: nat): (r: string)
    ensures |r| > 0 && AllDigits(r) && DecimalValue(r) == n
    ensures n > 0 ==> r[0] != '0'
    ensures n == 0 ==> r == "0"
  {
    if n < 10 then [DigitChar(n)]
    else
      var r := FormatUint(n / 10) + [DigitChar(n % 10)];
      assert r[..|r| - 1] == FormatUint(n / 10);
      r
  }

  /** `strconv.FormatInt(i, 10)`: a minus sign for negative values, then the digits. */
  function FormatInt(i: int): (r: string)
    ensures |r| > 0 && (r[0] == '-' <==> i < 0)
    ensures var digits := if i < 0 then r[1..] else r;
      && |digits| > 0 && AllDigits(digits)
      && DecimalValue(digits) == (if i < 0 then -i else i)
      && (i != 0 ==> digits[0] != '0')
    ensures i == 0 ==> r == "0"
  {
    if i < 0 then "-" + FormatUint(-i) else FormatUint(i)
  }

  /** `FormatUint` renders every 64-bit value so that `ParseUint` reads it back unchanged. */
  lemma ParseFormatUint(n: nat)
    requires n <= MaxUint64
    ensures ParseUint(FormatUint(n)) == Success(n)
  {
  }

  /** `FormatInt` renders every 64-bit value so that `ParseInt` reads it back unchanged. */
  lemma ParseFormatInt(i: int)
    requires MinInt64 <= i <= MaxInt64
    ensures ParseInt(FormatInt(i)) == Success(i)
  {
    var s := FormatInt(i);
    if i < 0 {
      assert UnsignedPart(s) == FormatUint(-i);
    } else {
      assert IsDigit(s[0]);
      assert UnsignedPart(s) == FormatUint(i);
    }
  }

  /** Decimal renderings never contain the comma that separates list elements. */
  lemma FormatsHaveNoComma(n: nat, i: int, b: bool)
    ensures ',' !in FormatUint(n)
    ensures ',' !in FormatInt(i)
    ensures ',' !in FormatBool(b)
  {
    var u := FormatUint(n);
    assert forall k :: 0 <= k < |u| ==> u[k] != ',';
    if i < 0 {
      var v := FormatUint(-i);
      assert forall k :: 0 <= k < |v| ==> v[k] != ',';
      assert FormatInt(i) == "-" + v;
    } else {
      var v := FormatUint(i);
      assert forall k :: 0 <= k < |v| ==> v[k] != ',';
    }
  }
}
