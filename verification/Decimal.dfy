/** Decimal text of integers, as Go's strconv prints and parses it.
    Ports, claim keys, generated database names and version segments all go through it. */
module Decimal {
  import opened Prelude

  predicate IsDigit(c: char) {
    '0' <= c <= '9'
  }

  predicate AllDigits(s: string) {
    forall i :: 0 <= i < |s| ==> IsDigit(s[i])
  }

  function Digit(d: nat): (c: char)
    requires d < 10
    ensures IsDigit(c) && DigitValue(c) == d
  {
    ('0' as int + d) as char
  }

  function DigitValue(c: char): (d: nat)
    requires IsDigit(c)
    ensures d < 10
  {
    c as int - '0' as int
  }

  /** strconv.FormatUint(n, 10) */
  function Utoa(n: nat): (s: string)
    ensures |s| > 0 && AllDigits(s)
  {
    if n < 10 then [Digit(n)] else Utoa(n / 10) + [Digit(n % 10)]
  }

  /** strconv.Itoa, and fmt's %d */
  function Itoa(n: int): string {
    if n < 0 then "-" + Utoa(-n) else Utoa(n)
  }

  function Value(s: string): nat
    requires AllDigits(s)
  {
    if s == "" then 0 else 10 * Value(s[..|s| - 1]) + DigitValue(s[|s| - 1])
  }

  /** strconv.ParseUint(s, 10, bits), where limit is 2^bits */
  function ParseUint(s: string, limit: nat): Option<nat> {
    if s == "" || !AllDigits(s) || Value(s) >= limit then None else Some(Value(s))
  }

  const UINT32_LIMIT := 0x1_0000_0000
  const UINT64_LIMIT := 0x1_0000_0000_0000_0000
  const INT64_LIMIT := 0x8000_0000_0000_0000

  /** strconv.Atoi on a 64-bit platform */
  function Atoi(s: string): Option<int> {
    if s != "" && s[0] == '-' then
      match ParseUint(s[1..], INT64_LIMIT + 1)
      case None => None
      case Some(n) => Some(0 - n)
    else
      match ParseUint(if s != "" && s[0] == '+' then s[1..] else s, INT64_LIMIT)
      case None => None
      case Some(n) => Some(n)
  }

  lemma {:induction false} ValueOfUtoa(n: nat)
    ensures Value(Utoa(n)) == n
  {
    if n < 10 {
      assert Utoa(n)[..0] == "";
    } else {
      ValueOfUtoa(n / 10);
      assert Utoa(n)[..|Utoa(n)| - 1] == Utoa(n / 10);
    }
  }

  /** Printing and parsing an unsigned number round-trips exactly below the width's limit. */
  lemma ParseOfUtoa(n: nat, limit: nat)
    ensures ParseUint(Utoa(n), limit) == if n < limit then Some(n) else None
  {
    ValueOfUtoa(n);
  }

  lemma AtoiOfItoa(n: int)
    requires -INT64_LIMIT <= n < INT64_LIMIT
    ensures Atoi(Itoa(n)) == Some(n)
  {
    if n < 0 {
      ParseOfUtoa(-n, INT64_LIMIT + 1);
      assert Itoa(n)[1..] == Utoa(-n);
    } else {
      ParseOfUtoa(n, INT64_LIMIT);
      assert IsDigit(Utoa(n)[0]);
    }
  }

  lemma UtoaInjective(a: nat, b: nat)
    requires Utoa(a) == Utoa(b)
    ensures a == b
  {
    ValueOfUtoa(a);
    ValueOfUtoa(b);
  }

  lemma ItoaInjective(a: int, b: int)
    requires Itoa(a) == Itoa(b)
    ensures a == b
  {
    assert IsDigit(Utoa(if a < 0 then -a else a)[0]);
    assert IsDigit(Utoa(if b < 0 then -b else b)[0]);
    assert a < 0 ==> Itoa(a)[0] == '-' && Itoa(a)[1..] == Utoa(-a);
    assert b < 0 ==> Itoa(b)[0] == '-' && Itoa(b)[1..] == Utoa(-b);
    UtoaInjective(if a < 0 then -a else a, if b < 0 then -b else b);
  }
}
