/** Decimal integers as fmt prints them (%d) and fmt.Sscanf reads them back. */
module Decimal {
  import opened Words
  import opened Wrappers

  predicate IsDigit(c: char) {
    '0' <= c <= '9'
  }

  function Digit(d: int): char
    requires 0 <= d < 10
  {
    (d + ('0' as int)) as char
  }

  function Digits(n: nat): (s: string)
    ensures s != "" && forall i :: 0 <= i < |s| ==> IsDigit(s[i])
  {
    if n < 10 then [Digit(n)] else Digits(n / 10) + [Digit(n % 10)]
  }

  function Print(n: int): string {
    if n < 0 then "-" + Digits(-n) else Digits(n)
  }

  /** The length of the leading run of digits. */
  function Leading(s: string): (k: nat)
    ensures k <= |s|
    ensures forall i :: 0 <= i < k ==> IsDigit(s[i])
    ensures k < |s| ==> !IsDigit(s[k])
  {
    if s == "" || !IsDigit(s[0]) then 0
    else
      var k := Leading(s[1..]);
      assert forall i :: 0 < i < k + 1 ==> s[i] == s[1..][i - 1];
      k + 1
  }

  function Value(ds: string): nat
    requires forall i :: 0 <= i < |ds| ==> IsDigit(ds[i])
  {
    if ds == "" then 0
    else
      var last := ds[|ds| - 1];
      assert IsDigit(last);
      10 * Value(ds[..|ds| - 1]) + ((last as int) - ('0' as int))
  }

  function ScanDigits(s: string): Option<nat> {
    var k := Leading(s);
    if k == 0 then None else Some(Value(s[..k]))
  }

  function Signed(digits: Option<nat>, negative: bool): Option<int> {
    match digits
    case None => None
    case Some(n) =>
      var v: int := if negative then 0 - n else n;
      if MIN_INT64 <= v <= MAX_INT64 then Some(v) else None
  }

  /** An optional sign, then digits; what follows is ignored. None is the scan
      error: no digit, or a value that is not an int64. */
  function Scan(s: string): Option<int> {
    if s != "" && s[0] == '-' then Signed(ScanDigits(s[1..]), true)
    else if s != "" && s[0] == '+' then Signed(ScanDigits(s[1..]), false)
    else Signed(ScanDigits(s), false)
  }

  lemma {:induction false} DigitsValue(n: nat)
    ensures Value(Digits(n)) == n
  {
    if n < 10 {
    } else {
      DigitsValue(n / 10);
      assert Digits(n)[..|Digits(n)| - 1] == Digits(n / 10);
    }
  }

  lemma LeadingOf(ds: string, rest: string)
    requires forall i :: 0 <= i < |ds| ==> IsDigit(ds[i])
    requires rest != "" ==> !IsDigit(rest[0])
    ensures Leading(ds + rest) == |ds| && (ds + rest)[..|ds|] == ds
  {
    var s := ds + rest;
    assert forall i :: 0 <= i < |ds| ==> IsDigit(s[i]);
    assert |ds| < |s| ==> s[|ds|] == rest[0];
  }

  lemma ScanDigitsOf(n: nat, rest: string)
    requires rest != "" ==> !IsDigit(rest[0])
    ensures ScanDigits(Digits(n) + rest) == Some(n)
  {
    DigitsValue(n);
    LeadingOf(Digits(n), rest);
  }

  lemma ScanUnsigned(n: nat, rest: string)
    requires rest != "" ==> !IsDigit(rest[0])
    ensures Scan(Digits(n) + rest) == if n <= MAX_INT64 then Some(n) else None
  {
    var s := Digits(n) + rest;
    ScanDigitsOf(n, rest);
    assert s[0] == Digits(n)[0] && IsDigit(s[0]);
  }

  lemma ScanNegative(n: nat, rest: string)
    requires rest != "" ==> !IsDigit(rest[0])
    ensures Scan("-" + Digits(n) + rest) == if n <= -MIN_INT64 then Some(0 - n) else None
  {
    var s := "-" + Digits(n) + rest;
    ScanDigitsOf(n, rest);
    assert s[0] == '-' && s[1..] == Digits(n) + rest;
  }

  /** A plus sign is read, too. */
  lemma ScanPositive(n: nat, rest: string)
    requires rest != "" ==> !IsDigit(rest[0])
    ensures Scan("+" + Digits(n) + rest) == if n <= MAX_INT64 then Some(n) else None
  {
    var s := "+" + Digits(n) + rest;
    ScanDigitsOf(n, rest);
    assert s[0] == '+' && s[1..] == Digits(n) + rest;
  }

  /** Scanning a printed number gives the number back, whatever non-digit follows. */
  lemma ScanPrint(n: int, rest: string)
    requires MIN_INT64 <= n <= MAX_INT64
    requires rest != "" ==> !IsDigit(rest[0])
    ensures Scan(Print(n) + rest) == Some(n)
  {
    if n < 0 {
      ScanNegative(-n, rest);
    } else {
      ScanUnsigned(n, rest);
    }
  }

  /** Printing is injective. */
  lemma PrintInjective(a: int, b: int)
    requires MIN_INT64 <= a <= MAX_INT64 && MIN_INT64 <= b <= MAX_INT64
    ensures Print(a) == Print(b) <==> a == b
  {
    ScanPrint(a, "");
    ScanPrint(b, "");
    assert Print(a) + "" == Print(a) && Print(b) + "" == Print(b);
  }
}
