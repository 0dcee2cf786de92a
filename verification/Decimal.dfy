/** Decimal text: Rust's integer `Display` and `FromStr`. */
module Decimal {
  import opened Wrappers

  const U64_LIMIT: int := 0x1_0000_0000_0000_0000
  const I64_LIMIT: int := 0x8000_0000_0000_0000

  type u64 = n: int | 0 <= n < U64_LIMIT
  type i64 = n: int | -I64_LIMIT <= n < I64_LIMIT

  predicate IsDigit(c: char) {
    '0' <= c <= '9'
  }

  predicate AllDigits(s: string) {
    forall i :: 0 <= i < |s| ==> IsDigit(s[i])
  }

  function Digit(n: nat): char
    requires n < 10
  {
    ('0' as int + n) as char
  }

  /** `n` in decimal, without leading zeros. */
  function Dec(n: nat): (s: string)
    ensures s != "" && AllDigits(s)
  {
    if n < 10 then [Digit(n)] else Dec(n / 10) + [Digit(n % 10)]
  }

  function DecInt(n: int): string {
    if n < 0 then "-" + Dec(-n) else Dec(n)
  }

  /** The number a digit string denotes. */
  function Value(s: string): nat
    requires AllDigits(s)
  {
    if s == "" then 0 else 10 * Value(s[..|s| - 1]) + (s[|s| - 1] as int - '0' as int)
  }

  lemma {:induction false} ValueOfDec(n: nat)
    ensures Value(Dec(n)) == n
  {
    if n >= 10 {
      ValueOfDec(n / 10);
      assert Dec(n)[..|Dec(n)| - 1] == Dec(n / 10);
    }
  }

  function Unsigned(s: string): Option<nat> {
    if s != "" && AllDigits(s) then Some(Value(s)) else None
  }

  /** `s.parse::<u64>()` (and `usize` on 64-bit): an optional `+`, digits, in range. */
  function ParseU64(s: string): (r: Option<nat>)
    ensures r.Some? ==> r.value < U64_LIMIT
  {
    match Unsigned(if s != "" && s[0] == '+' then s[1..] else s)
    case Some(n) => if n < U64_LIMIT then Some(n) else None
    case None => None
  }

  /** `s.parse::<i64>()`. */
  function ParseI64(s: string): Option<i64> {
    var sign := s != "" && s[0] in "+-";
    match Unsigned(if sign then s[1..] else s)
    case Some(n) =>
      var v := if sign && s[0] == '-' then 0 - (n as int) else n as int;
      if -I64_LIMIT <= v < I64_LIMIT then Some(v) else None
    case None => None
  }

  lemma ParseU64OfDec(n: nat)
    requires n < U64_LIMIT
    ensures ParseU64(Dec(n)) == Some(n)
  {
    ValueOfDec(n);
    assert IsDigit(Dec(n)[0]);
  }

  lemma ParseI64OfDec(n: i64)
    ensures ParseI64(DecInt(n)) == Some(n)
  {
    var v: int := n;
    if v < 0 {
      ValueOfDec(-v);
      assert DecInt(v)[1..] == Dec(-v);
    } else {
      ValueOfDec(v);
      assert IsDigit(Dec(v)[0]);
    }
  }
}
