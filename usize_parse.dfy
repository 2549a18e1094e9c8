/**
 * `str::parse::<usize>()` (Rust's `usize::from_str`) and decimal printing of
 * naturals, for a 64-bit target.
 */
module UsizeParse {
  import opened Wrappers

  const USIZE_MAX: nat := 0xFFFF_FFFF_FFFF_FFFF

  /** The values of Rust's `usize` on a 64-bit target. */
  type Usize = n: nat | n <= USIZE_MAX

  predicate IsDigit(c: char) {
    '0' <= c <= '9'
  }

  predicate AllDigits(s: string) {
    forall i :: 0 <= i < |s| ==> IsDigit(s[i])
  }

  function DigitChar(d: nat): (c: char)
    requires d < 10
    ensures IsDigit(c) && (c as int) - ('0' as int) == d
  {
    (('0' as int) + d) as char
  }

  /** The number an all-digit string denotes in base 10 (leading zeros allowed). */
  function DecimalValue(ds: string): nat
    requires AllDigits(ds)
    decreases |ds|
  {
    if |ds| == 0 then 0
    else DecimalValue(ds[..|ds| - 1]) * 10 + ((ds[|ds| - 1] as int) - ('0' as int))
  }

  /** The shortest decimal numeral of `n`, as `usize::to_string` prints it. */
  function DecimalString(n: nat): (r: string)
    ensures |r| >= 1 && AllDigits(r)
    ensures |r| > 1 ==> r[0] != '0'
    decreases n
  {
    if n < 10 then [DigitChar(n)] else DecimalString(n / 10) + [DigitChar(n % 10)]
  }

  /**
   * `s.parse::<usize>()`: an optional single leading `+`, then one or more ASCII
   * digits and nothing else; a value above `USIZE_MAX` overflows. A lone `+` or
   * `-`, a `-` sign, any space and the empty string are all errors.
   */
  function ParseUsize(s: string): (r: Option<Usize>)
    ensures r.Some? ==>
              || (|s| >= 1 && AllDigits(s) && r.value == DecimalValue(s))
              || (|s| >= 2 && s[0] == '+' && AllDigits(s[1..]) && r.value == DecimalValue(s[1..]))
  {
    if |s| == 0 then None
    else if (s[0] == '+' || s[0] == '-') && |s| == 1 then None
    else
      var ds := if s[0] == '+' then s[1..] else s;
      if AllDigits(ds) && DecimalValue(ds) <= USIZE_MAX then Some(DecimalValue(ds)) else None
  }

  lemma {:induction false} DecimalStringValue(n: nat)
    ensures DecimalValue(DecimalString(n)) == n
    decreases n
  {
    if n >= 10 {
      var r := DecimalString(n);
      assert r[..|r| - 1] == DecimalString(n / 10);
      DecimalStringValue(n / 10);
    }
  }

  /** Leading zeros do not change the value of a numeral. */
  lemma {:induction false} LeadingZeroValue(ds: string)
    requires AllDigits(ds)
    ensures AllDigits("0" + ds) && DecimalValue("0" + ds) == DecimalValue(ds)
    decreases |ds|
  {
    if |ds| > 0 {
      var z := "0" + ds;
      assert z[..|z| - 1] == "0" + ds[..|ds| - 1];
      LeadingZeroValue(ds[..|ds| - 1]);
    }
  }

  /**
   * Every `usize` printed in decimal parses back to itself, also with a leading
   * `+` or a leading zero.
   */
  lemma ParseUsizeOfDecimal(n: Usize)
    ensures ParseUsize(DecimalString(n)) == Some(n)
    ensures ParseUsize("+" + DecimalString(n)) == Some(n)
    ensures ParseUsize("0" + DecimalString(n)) == Some(n)
  {
    DecimalStringValue(n);
    LeadingZeroValue(DecimalString(n));
    assert ("+" + DecimalString(n))[1..] == DecimalString(n);
  }

  /** A numeral for more than `USIZE_MAX` overflows. */
  lemma ParseUsizeOverflows(n: nat)
    requires n > USIZE_MAX
    ensures ParseUsize(DecimalString(n)) == None
  {
    DecimalStringValue(n);
  }
}
