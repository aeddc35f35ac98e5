/** Decimal numerals in text. */
module DecimalText {
  import opened JsText

  const ZERO: CodeUnit := 48

  predicate IsDigit(c: CodeUnit) {
    ZERO <= c < ZERO + 10
  }

  predicate AllDigits(ds: Text) {
    forall i :: 0 <= i < |ds| ==> IsDigit(ds[i])
  }

  predicate StartsWithDigit(t: Text) {
    t != [] && IsDigit(t[0])
  }

  /** The length of the digits at the start of a text. */
  function DigitRun(t: Text): (n: nat)
    ensures n <= |t|
  {
    if StartsWithDigit(t) then 1 + DigitRun(t[1..]) else 0
  }

  /** `Number.parseInt(ds, 10)` on digits, without the rounding of large results. */
  function DigitsValue(ds: Text): nat {
    if ds == [] || !IsDigit(ds[|ds| - 1]) then 0
    else DigitsValue(ds[..|ds| - 1]) * 10 + (ds[|ds| - 1] - ZERO)
  }

  /** `String(n)` */
  function Digits(n: nat): Text {
    if n < 10 then [ZERO + n] else Digits(n / 10) + [ZERO + n % 10]
  }

  lemma {:induction false} DigitsRead(n: nat)
    ensures Digits(n) != [] && AllDigits(Digits(n))
    ensures DigitsValue(Digits(n)) == n
  {
    if n < 10 {
      assert Digits(n)[..0] == [];
    } else {
      DigitsRead(n / 10);
      assert Digits(n)[..|Digits(n)| - 1] == Digits(n / 10);
    }
  }

  lemma {:induction false} DigitRunFacts(t: Text)
    ensures AllDigits(t[..DigitRun(t)]) && !StartsWithDigit(t[DigitRun(t)..])
  {
    if StartsWithDigit(t) {
      DigitRunFacts(t[1..]);
      var n := DigitRun(t[1..]);
      assert t[..1 + n] == [t[0]] + t[1..][..n];
      assert t[1 + n..] == t[1..][n..];
    }
  }

  lemma {:induction false} DigitRunOf(ds: Text, rest: Text)
    requires AllDigits(ds) && !StartsWithDigit(rest)
    ensures DigitRun(ds + rest) == |ds|
  {
    if ds == [] {
      assert ds + rest == rest;
    } else {
      DigitRunOf(ds[1..], rest);
      assert (ds + rest)[1..] == ds[1..] + rest;
    }
  }
}
