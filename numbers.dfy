/** Decimal and hexadecimal conversions the decoder writes inline: the digit
    summation over count fields, Rust's `usize::from_str`, the `{:03}` key suffix
    and the `{:02X}` colour bytes. */
module Numbers {
  import opened Wrappers
  import opened Ascii

  predicate IsDigit(c: char) { '0' <= c <= '9' }

  predicate AllDigits(s: string) { forall i :: 0 <= i < |s| ==> IsDigit(s[i]) }

  function DigitValue(c: char): nat
    requires IsDigit(c)
  {
    c as int - '0' as int
  }

  function DigitChar(d: nat): char
    requires d < 10
  {
    ('0' as int + d) as char
  }

  function Pow10(k: nat): nat
  {
    if k == 0 then 1 else 10 * Pow10(k - 1)
  }

  /** The ordinary value of a string of decimal digits; leading zeros are allowed. */
  function DecimalValue(s: string): nat
    requires AllDigits(s)
  {
    if s == [] then 0 else 10 * DecimalValue(s[..|s| - 1]) + DigitValue(s[|s| - 1])
  }

  /** A k-digit decimal is below 10^k. */
  lemma {:induction false} DecimalBound(s: string)
    requires AllDigits(s)
    ensures DecimalValue(s) < Pow10(|s|)
  {
    if s != [] {
      DecimalBound(s[..|s| - 1]);
    }
  }

  lemma {:induction false} Pow10Monotone(a: nat, b: nat)
    requires a <= b
    ensures Pow10(a) <= Pow10(b)
  {
    if a < b {
      Pow10Monotone(a, b - 1);
    }
  }

  // ---------------------------------------------------------------------------
  // The count decoder as the source writes it: the bytes are taken from last to
  // first, and the byte i places from the end adds (byte - 48) * 10^i to the
  // sum, whatever the byte is.
  // ---------------------------------------------------------------------------

  function Reverse(s: seq<Byte>): seq<Byte>
  {
    seq(|s|, i requires 0 <= i < |s| => s[|s| - 1 - i])
  }

  /** Terms index k.. of the weighted sum over the reversed bytes r. */
  function Terms(r: seq<Byte>, k: nat): int
    decreases |r| - k
  {
    if k >= |r| then 0 else (r[k] - 48) * Pow10(k) + Terms(r, k + 1)
  }

  /** The digit summation the source applies to a count field, whatever its bytes. */
  function DigitSum(s: seq<Byte>): int
  {
    Terms(Reverse(s), 0)
  }

  /** The summation loop of the source. For a field of digits its sum is the
      field's decimal value. */
  method SumDigits(field: seq<Byte>) returns (sum: int)
    ensures sum == DigitSum(field)
    ensures AllDigits(Text(field)) ==> sum == DecimalValue(Text(field))
  {
    var reversed := Reverse(field);
    sum := 0;
    var index := 0;
    while index < |reversed|
      invariant 0 <= index <= |reversed|
      invariant sum + Terms(reversed, index) == Terms(reversed, 0)
    {
      sum := sum + (reversed[index] - 48) * Pow10(index);
      index := index + 1;
    }
    DigitSumIsDecimal(field);
  }

  /** Prepending one element to r multiplies every later weight by ten. */
  lemma {:induction false} TermsShift(x: Byte, r: seq<Byte>, k: nat)
    ensures Terms([x] + r, k + 1) == 10 * Terms(r, k)
    decreases |r| - k
  {
    if k < |r| {
      TermsShift(x, r, k + 1);
      assert ([x] + r)[k + 1] == r[k];
      calc {
        Terms([x] + r, k + 1);
        (r[k] - 48) * Pow10(k + 1) + Terms([x] + r, k + 2);
        (r[k] - 48) * (10 * Pow10(k)) + 10 * Terms(r, k + 1);
        { assert (r[k] - 48) * (10 * Pow10(k)) == 10 * ((r[k] - 48) * Pow10(k)); }
        10 * Terms(r, k);
      }
    }
  }

  /** The source's digit summation agrees with decimal parsing on digit fields. */
  lemma {:induction false} DigitSumIsDecimal(s: seq<Byte>)
    ensures AllDigits(Text(s)) ==> DigitSum(s) == DecimalValue(Text(s))
  {
    if s != [] && AllDigits(Text(s)) {
      var p := s[..|s| - 1];
      var d := s[|s| - 1];
      assert Reverse(s) == [d] + Reverse(p);
      assert Text(s)[..|s| - 1] == Text(p);
      assert AllDigits(Text(p)) by {
        forall i | 0 <= i < |p| ensures IsDigit(Text(p)[i]) { assert Text(p)[i] == Text(s)[i]; }
      }
      DigitSumIsDecimal(p);
      TermsShift(d, Reverse(p), 0);
      assert DigitValue(Text(s)[|s| - 1]) == d - 48;
    }
  }

  /** The summation accepts bytes that are not digits: "00:" sums to 10 and
      "-01" to -299. */
  lemma DigitSumAcceptsNonDigits()
    ensures !AllDigits(Text([48, 48, 58])) && DigitSum([48, 48, 58]) == 10
    ensures !AllDigits(Text([45, 48, 49])) && DigitSum([45, 48, 49]) == -299
  {
    assert Text([48, 48, 58])[2] == ':';
    assert Reverse([48, 48, 58]) == [58, 48, 48];
    assert Terms([58, 48, 48], 0) == 10 + Terms([58, 48, 48], 1);
    assert Text([45, 48, 49])[0] == '-';
    assert Reverse([45, 48, 49]) == [49, 48, 45];
    assert Terms([49, 48, 45], 3) == 0;
    assert Pow10(2) == 100;
  }

  /** A byte string is all digits exactly when its front is and its last byte is. */
  lemma DigitsSnoc(s: seq<Byte>)
    requires s != []
    ensures AllDigits(Text(s)) <==> AllDigits(Text(s[..|s| - 1])) && IsDigit(s[|s| - 1] as char)
  {
    var p := s[..|s| - 1];
    assert forall i :: 0 <= i < |p| ==> Text(p)[i] == Text(s)[i];
    assert Text(s)[|s| - 1] == s[|s| - 1] as char;
    if AllDigits(Text(p)) && IsDigit(s[|s| - 1] as char) {
      forall i | 0 <= i < |s| ensures IsDigit(Text(s)[i]) {
        if i < |p| { assert Text(s)[i] == Text(p)[i]; }
      }
    }
  }

  /** The value of a field of digit bytes, read from the most significant byte. */
  function DigitsValue(s: seq<Byte>): int
  {
    if s == [] then 0 else 10 * DigitsValue(s[..|s| - 1]) + (s[|s| - 1] as int - 48)
  }

  lemma {:induction false} DigitsValueIsDecimal(s: seq<Byte>)
    requires AllDigits(Text(s))
    ensures DigitsValue(s) == DecimalValue(Text(s))
  {
    if s != [] {
      var p := s[..|s| - 1];
      DigitsSnoc(s);
      DigitsValueIsDecimal(p);
      assert Text(s)[..|s| - 1] == Text(p);
    }
  }

  /** A count field read with a digit check: the value of its digits, or None
      for any field holding a byte that is not a decimal digit. */
  function CountValue(s: seq<Byte>): (r: Option<nat>)
    ensures r.Some? <==> AllDigits(Text(s))
  {
    if AllDigits(Text(s)) then
      DigitsValueIsDecimal(s);
      Some(DigitsValue(s))
    else None
  }

  /** The checked count is the decimal value of the field, agrees with the
      source's digit summation, and has at most as many digits as the field. */
  lemma CountValueIsDecimal(s: seq<Byte>)
    requires AllDigits(Text(s))
    ensures CountValue(s) == Some(DecimalValue(Text(s)))
    ensures DecimalValue(Text(s)) == DigitSum(s) && DecimalValue(Text(s)) < Pow10(|s|)
  {
    DigitSumIsDecimal(s);
    DecimalBound(Text(s));
    DigitsValueIsDecimal(s);
  }

  // ---------------------------------------------------------------------------
  // Rust's `str::parse::<usize>()` on a 64-bit target
  // ---------------------------------------------------------------------------

  const UsizeMax: nat := 0xFFFF_FFFF_FFFF_FFFF

  /** An optional '+', then at least one digit, with a value that fits a usize. */
  function ParseUsize(s: string): Option<nat>
  {
    var digits := if |s| > 0 && s[0] == '+' then s[1..] else s;
    if |digits| == 0 || !AllDigits(digits) || DecimalValue(digits) > UsizeMax then None
    else Some(DecimalValue(digits))
  }

  /** Every fixed-width digit field of the header (at most 19 digits) parses as a
      usize to its decimal value. */
  lemma ParseUsizeOfDigits(s: string)
    requires AllDigits(s) && 0 < |s| <= 19
    ensures ParseUsize(s) == Some(DecimalValue(s))
  {
    DecimalBound(s);
    Pow10Monotone(|s|, 19);
    assert Pow10(19) == 10_000_000_000_000_000_000 by {
      assert Pow10(4) == 10_000;
      assert Pow10(8) == 100_000_000;
      assert Pow10(12) == 1_000_000_000_000;
      assert Pow10(16) == 10_000_000_000_000_000;
    }
  }

  /** A text whose first character is neither a digit nor '+' is refused. */
  lemma ParseUsizeRejects(s: string)
    requires |s| > 0 && !IsDigit(s[0]) && s[0] != '+'
    ensures ParseUsize(s) == None
  {
  }

  // ---------------------------------------------------------------------------
  // `format!("{:03}", n)`
  // ---------------------------------------------------------------------------

  /** Shortest decimal text of n. */
  function DecimalText(n: nat): string
  {
    if n < 10 then [DigitChar(n)] else DecimalText(n / 10) + [DigitChar(n % 10)]
  }

  function Zeros(k: nat): string
  {
    seq(k, _ => '0')
  }

  /** `{:03}`: the decimal text of n, left-padded with zeros to three characters. */
  function FormatIndex(n: nat): string
  {
    var d := DecimalText(n);
    if |d| >= 3 then d else Zeros(3 - |d|) + d
  }

  lemma {:induction false} DecimalTextRoundTrip(n: nat)
    ensures AllDigits(DecimalText(n)) && 1 <= |DecimalText(n)|
    ensures DecimalValue(DecimalText(n)) == n
    ensures n < 1000 ==> |DecimalText(n)| <= 3
  {
    if n >= 10 {
      DecimalTextRoundTrip(n / 10);
      var d := DecimalText(n);
      assert d[..|d| - 1] == DecimalText(n / 10);
    }
  }

  lemma {:induction false} LeadingZeros(k: nat, s: string)
    requires AllDigits(s)
    ensures AllDigits(Zeros(k) + s) && DecimalValue(Zeros(k) + s) == DecimalValue(s)
  {
    var z := Zeros(k) + s;
    if s == [] {
      assert z == Zeros(k);
      if k > 0 {
        LeadingZeros(k - 1, s);
        assert z[..|z| - 1] == Zeros(k - 1) + s;
      }
    } else {
      LeadingZeros(k, s[..|s| - 1]);
      assert z[..|z| - 1] == Zeros(k) + s[..|s| - 1];
    }
  }

  /** The key suffix reads back as its index, and has exactly three digits for
      every index a three-digit count can produce. */
  lemma FormatIndexRoundTrip(n: nat)
    ensures AllDigits(FormatIndex(n)) && |FormatIndex(n)| >= 3
    ensures DecimalValue(FormatIndex(n)) == n
    ensures n < 1000 ==> |FormatIndex(n)| == 3
  {
    DecimalTextRoundTrip(n);
    var d := DecimalText(n);
    if |d| < 3 {
      LeadingZeros(3 - |d|, d);
    }
  }

  /** Distinct indexes give distinct key suffixes. */
  lemma FormatIndexInjective(a: nat, b: nat)
    requires FormatIndex(a) == FormatIndex(b)
    ensures a == b
  {
    FormatIndexRoundTrip(a);
    FormatIndexRoundTrip(b);
  }

  // ---------------------------------------------------------------------------
  // `format!("{:02X}", b)`
  // ---------------------------------------------------------------------------

  function HexDigit(v: nat): char
    requires v < 16
  {
    if v < 10 then DigitChar(v) else ('A' as int + v - 10) as char
  }

  predicate IsUpperHex(c: char) { '0' <= c <= '9' || 'A' <= c <= 'F' }

  function HexValue(c: char): nat
    requires IsUpperHex(c)
  {
    if c <= '9' then c as int - '0' as int else c as int - 'A' as int + 10
  }

  /** Two upper-case hexadecimal digits of one byte. */
  function Hex2(b: Byte): string
  {
    [HexDigit(b / 16), HexDigit(b % 16)]
  }

  /** Reading the two digits back gives the byte. */
  lemma Hex2RoundTrip(b: Byte)
    ensures |Hex2(b)| == 2 && IsUpperHex(Hex2(b)[0]) && IsUpperHex(Hex2(b)[1])
    ensures 16 * HexValue(Hex2(b)[0]) + HexValue(Hex2(b)[1]) == b
  {
  }
}
