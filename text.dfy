/** The parts of Go's `strings`, `strconv` and `fmt` packages the core relies
    on, restricted to ASCII: upper-casing, case-insensitive comparison,
    decimal rendering of integers and `strconv.Atoi` for a 64-bit `int`. */
module Text {
  import opened Values

  const MinInt: int := -0x8000_0000_0000_0000
  const MaxInt: int := 0x7fff_ffff_ffff_ffff

  predicate IsLowerLetter(c: char) { 'a' <= c <= 'z' }

  function UpperChar(c: char): char
  {
    if IsLowerLetter(c) then (c as int - 32) as char else c
  }

  /** `strings.ToUpper` on ASCII text. */
  function Upper(s: string): (r: string)
    ensures |r| == |s|
    ensures forall i :: 0 <= i < |s| ==> !IsLowerLetter(r[i])
    ensures forall i :: 0 <= i < |s| && !IsLowerLetter(s[i]) ==> r[i] == s[i]
    ensures forall i :: 0 <= i < |s| && IsLowerLetter(s[i]) ==> IsUpperLetter(r[i]) && LowerChar(r[i]) == s[i]
  {
    seq(|s|, i requires 0 <= i < |s| => UpperChar(s[i]))
  }

  /** Upper-casing twice is upper-casing once. */
  lemma UpperIdempotent(s: string)
    ensures Upper(Upper(s)) == Upper(s)
  {
    assert forall i :: 0 <= i < |s| ==> Upper(Upper(s))[i] == Upper(s)[i];
  }

  predicate IsUpperLetter(c: char) { 'A' <= c <= 'Z' }

  function LowerChar(c: char): char
  {
    if IsUpperLetter(c) then (c as int + 32) as char else c
  }

  /** `strings.ToLower` on ASCII text. */
  function Lower(s: string): (r: string)
    ensures |r| == |s|
    ensures forall i :: 0 <= i < |s| ==> !IsUpperLetter(r[i])
    ensures forall i :: 0 <= i < |s| && !IsUpperLetter(s[i]) ==> r[i] == s[i]
    ensures forall i :: 0 <= i < |s| && IsUpperLetter(s[i]) ==> IsLowerLetter(r[i]) && UpperChar(r[i]) == s[i]
  {
    seq(|s|, i requires 0 <= i < |s| => LowerChar(s[i]))
  }

  /** `strings.EqualFold` on ASCII text: equal once both sides are folded.
      It relates only strings of one length, holds of equal strings, and is
      symmetric. */
  predicate EqualFold(a: string, b: string)
    ensures EqualFold(a, b) ==> |a| == |b| && Upper(b) == Upper(a)
    ensures a == b ==> EqualFold(a, b)
  {
    Upper(a) == Upper(b)
  }

  /** Upper-casing is the only case-insensitively equal text without
      lower-case letters. */
  lemma UpperCharacterised(s: string, t: string)
    requires EqualFold(t, s)
    requires forall i :: 0 <= i < |t| ==> !IsLowerLetter(t[i])
    ensures t == Upper(s)
  {
    assert |t| == |Upper(t)|;
    forall i | 0 <= i < |t| ensures t[i] == Upper(s)[i] {
      assert Upper(t)[i] == t[i];
    }
  }

  /** Lower-casing keeps text case-insensitively equal to its input. */
  lemma LowerFolds(s: string)
    ensures EqualFold(Lower(s), s)
  {
    assert forall i :: 0 <= i < |s| ==> Upper(Lower(s))[i] == Upper(s)[i];
  }

  predicate IsDigit(c: char) { '0' <= c <= '9' }

  predicate AllDigits(s: string)
  {
    forall i :: 0 <= i < |s| ==> IsDigit(s[i])
  }

  function DigitChar(d: nat): char
    requires d < 10
  {
    ('0' as int + d) as char
  }

  /** The number a string of decimal digits denotes, most significant first. */
  function DigitsValue(s: string): nat
    requires AllDigits(s)
  {
    if s == [] then 0
    else DigitsValue(s[..|s| - 1]) * 10 + (s[|s| - 1] as int - '0' as int)
  }

  /** The shortest decimal digits of `n` (`strconv.Itoa` of a non-negative int). */
  function NatDigits(n: nat): (r: string)
    ensures |r| > 0 && AllDigits(r)
  {
    if n < 10 then [DigitChar(n)] else NatDigits(n / 10) + [DigitChar(n % 10)]
  }

  /** Decimal rendering of an integer, as `%v` and `strconv.Itoa` print it. */
  function IntToString(i: int): (r: string)
    ensures |r| > 0
    ensures i >= 0 <==> IsDigit(r[0])
  {
    if i < 0 then "-" + NatDigits(-i) else NatDigits(i)
  }

  /** The text has a leading sign character. */
  predicate Signed(s: string)
  {
    |s| > 0 && (s[0] == '-' || s[0] == '+')
  }

  /** The text after an optional leading sign. */
  function Unsigned(s: string): string
  {
    if Signed(s) then s[1..] else s
  }

  /** The number an optional sign and decimal digits denote. */
  function SignedValue(s: string): int
    requires AllDigits(Unsigned(s))
  {
    if Signed(s) && s[0] == '-' then -(DigitsValue(Unsigned(s)) as int) else DigitsValue(Unsigned(s))
  }

  /** `strconv.Atoi`: an optional sign followed by at least one ASCII digit,
      within the range of a 64-bit `int`. A syntax error is reported when
      the text after the sign is empty or holds a non-digit, a range error
      when the number does not fit. */
  function Atoi(s: string): (r: Result<int>)
    ensures r.Ok? ==> MinInt <= r.value <= MaxInt
    ensures r.Ok? ==> |s| > 0 && (IsDigit(s[0]) || s[0] == '-' || s[0] == '+')
    ensures r.Err? && r.error.NumberSyntax? <==> |Unsigned(s)| == 0 || !AllDigits(Unsigned(s))
    ensures r.Ok? ==> AllDigits(Unsigned(s)) && r.value == SignedValue(s)
    ensures |Unsigned(s)| > 0 && AllDigits(Unsigned(s)) ==> (r.Ok? <==> MinInt <= SignedValue(s) <= MaxInt)
    ensures r.Err? ==> r.error == NumberSyntax(s) || r.error == NumberRange(s)
  {
    if |Unsigned(s)| == 0 || !AllDigits(Unsigned(s)) then Err(NumberSyntax(s))
    else
      var n := SignedValue(s);
      if n < MinInt || n > MaxInt then Err(NumberRange(s)) else Ok(n)
  }

  /** Reading back the digits of `n` gives `n`. */
  lemma {:induction false} DigitsRoundTrip(n: nat)
    ensures DigitsValue(NatDigits(n)) == n
  {
    if n >= 10 {
      var prefix := NatDigits(n / 10);
      var s := prefix + [DigitChar(n % 10)];
      assert s[..|s| - 1] == prefix;
      DigitsRoundTrip(n / 10);
    }
  }

  /** `Atoi` inverts `IntToString` on every 64-bit integer. */
  lemma AtoiRoundTrip(i: int)
    requires MinInt <= i <= MaxInt
    ensures Atoi(IntToString(i)) == Ok(i)
  {
    var s := IntToString(i);
    if i < 0 {
      assert Signed(s) && s[0] == '-' && Unsigned(s) == NatDigits(-i);
      DigitsRoundTrip(-i);
    } else {
      assert !Signed(s) && Unsigned(s) == NatDigits(i);
      DigitsRoundTrip(i);
    }
  }

  /** A leading plus sign and leading zeros are accepted, as `strconv.Atoi` does. */
  lemma AtoiNonCanonical()
    ensures Atoi("+5") == Ok(5)
    ensures Atoi("007") == Ok(7)
    ensures Atoi("-0") == Ok(0)
  {
    assert Unsigned("+5") == "5";
    assert "007"[..2] == "00" && "00"[..1] == "0";
    assert Unsigned("-0") == "0";
  }

  /** `Atoi` rejects text without digits, such as the empty cell. */
  lemma AtoiNeedsDigits(s: string)
    requires forall i :: 0 <= i < |s| ==> !IsDigit(s[i])
    ensures Atoi(s).Err?
  {
    if |Unsigned(s)| > 0 {
      assert !IsDigit(Unsigned(s)[0]);
    }
  }
}
