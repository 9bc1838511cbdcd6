/** Store-generated identifiers. The backend assigns an id to every
    inserted row; the model issues them from a counter: counter value `n`
    yields the decimal digits of `n`. `ParseId` inverts this, which is what
    makes an issued id provably new. */
module Ids {
  import opened Types

  predicate IsDigit(c: char) {
    '0' <= c <= '9'
  }

  function DigitChar(d: nat): (c: char)
    requires d < 10
    ensures IsDigit(c) && c as int - '0' as int == d
  {
    ('0' as int + d) as char
  }

  function DigitValue(c: char): nat
    requires IsDigit(c)
  {
    c as int - '0' as int
  }

  /** Decimal representation of `n`, most significant digit first. */
  function Digits(n: nat): (r: string)
    ensures |r| >= 1
    ensures forall k :: 0 <= k < |r| ==> IsDigit(r[k])
    decreases n
  {
    if n < 10 then [DigitChar(n)] else Digits(n / 10) + [DigitChar(n % 10)]
  }

  /** The number a non-empty string of decimal digits denotes. */
  function DigitsValue(s: string): nat
    requires |s| >= 1 && forall k :: 0 <= k < |s| ==> IsDigit(s[k])
    decreases |s|
  {
    if |s| == 1 then DigitValue(s[0])
    else DigitsValue(s[..|s| - 1]) * 10 + DigitValue(s[|s| - 1])
  }

  lemma {:induction false} DigitsRoundTrip(n: nat)
    ensures DigitsValue(Digits(n)) == n
    decreases n
  {
    if n >= 10 {
      var s := Digits(n);
      DigitsRoundTrip(n / 10);
      assert s[..|s| - 1] == Digits(n / 10);
      assert DigitValue(s[|s| - 1]) == n % 10;
    }
  }

  /** The id the store issues at counter value `n`. */
  function Gen(n: nat): Id {
    Digits(n)
  }

  /** The counter value an id was issued at, if it has the shape of an issued id. */
  function ParseId(x: Id): Option<nat> {
    if |x| >= 1 && forall k :: 0 <= k < |x| ==> IsDigit(x[k]) then Some(DigitsValue(x)) else None
  }

  lemma GenParses(n: nat)
    ensures ParseId(Gen(n)) == Some(n)
  {
    DigitsRoundTrip(n);
  }

  /** `x` is not an id the store issues at any counter value from `n` on. */
  predicate IssuedBelow(n: nat, x: Id) {
    match ParseId(x)
    case None => true
    case Some(m) => m < n
  }

  /** The id issued at `n` is issued below `n + 1` but not below `n`, so it
      differs from every id issued below `n` and from every id issued later. */
  lemma {:induction false} GenFresh(n: nat)
    ensures !IssuedBelow(n, Gen(n)) && IssuedBelow(n + 1, Gen(n))
    ensures forall x :: IssuedBelow(n, x) ==> x != Gen(n)
  {
    GenParses(n);
  }

  lemma {:induction false} GenInjective(m: nat, n: nat)
    requires Gen(m) == Gen(n)
    ensures m == n
  {
    GenParses(m);
    GenParses(n);
  }
}
