/** Go's strconv.Atoi on a 64-bit platform, and the decimal formatting it inverts. */
module GoStrconv {
  import opened Wrappers

  const MinInt64 := -0x8000_0000_0000_0000
  const MaxInt64 := 0x7FFF_FFFF_FFFF_FFFF

  predicate IsDigit(c: char) {
    '0' <= c <= '9'
  }

  predicate AllDigits(s: string) {
    forall i :: 0 <= i < |s| ==> IsDigit(s[i])
  }

  /** The value of a string of decimal digits, most significant first. */
  function DigitsValue(s: string): (n: nat)
    requires AllDigits(s)
  {
    if s == [] then 0 else 10 * DigitsValue(s[..|s| - 1]) + (s[|s| - 1] as int - '0' as int)
  }

  /** strconv.Atoi: an optional sign, then one or more decimal digits, whose value
      fits in 64 bits; anything else is an error (None). */
  function Atoi(s: string): (r: Option<int>)
    ensures r.Some? ==> MinInt64 <= r.value <= MaxInt64
    ensures r.Some? ==> |s| > 0 && (IsDigit(s[0]) || s[0] == '+' || s[0] == '-')
    ensures s == "" ==> r.None?
  {
    var neg := |s| > 0 && s[0] == '-';
    var digits := if |s| > 0 && (s[0] == '+' || s[0] == '-') then s[1..] else s;
    if digits == [] || !AllDigits(digits) then None
    else
      var v: int := if neg then -(DigitsValue(digits) as int) else DigitsValue(digits);
      if MinInt64 <= v <= MaxInt64 then Some(v) else None
  }

  /** strconv.Itoa of a natural number. */
  function FormatNat(n: nat): (s: string)
    ensures |s| > 0 && AllDigits(s)
  {
    if n < 10 then ['0' + n as char] else FormatNat(n / 10) + ['0' + (n % 10) as char]
  }

  /** strconv.Itoa. */
  function FormatInt(n: int): string {
    if n < 0 then "-" + FormatNat(-n) else FormatNat(n)
  }

  lemma {:induction false} DigitsOfFormat(n: nat)
    ensures DigitsValue(FormatNat(n)) == n
  {
    if n >= 10 {
      var s := FormatNat(n);
      DigitsOfFormat(n / 10);
      assert s[..|s| - 1] == FormatNat(n / 10);
    }
  }

  /** Atoi reads back what Itoa writes, for every 64-bit integer. */
  lemma AtoiFormat(n: int)
    requires MinInt64 <= n <= MaxInt64
    ensures Atoi(FormatInt(n)) == Some(n)
  {
    if n < 0 {
      DigitsOfFormat(-n);
      assert ("-" + FormatNat(-n))[1..] == FormatNat(-n);
    } else {
      DigitsOfFormat(n);
    }
  }
}
