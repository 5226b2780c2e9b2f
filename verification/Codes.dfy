// Six-digit codes: the "%06d" of the email authenticator and the ":06d" of the TOTP helpers.
module Codes {
  import opened Decimals

  lemma {:induction false} DigitsShort(n: nat, k: nat)
    requires k > 0 && n < Pow10(k)
    ensures |Digits(n)| <= k
  {
    if n >= 10 {
      assert n / 10 < Pow10(k - 1);
      DigitsShort(n / 10, k - 1);
    }
  }

  // Always six digits, and read as a number they give the value back.
  function SixDigits(n: nat): (code: string)
    requires n < 1_000_000
    ensures |code| == 6 && AllDigits(code) && NatOf(code) == n
  {
    assert Pow10(6) == 1_000_000 by { PowerSix(); }
    DigitsShort(n, 6);
    var pad := Zeros(6 - |Digits(n)|);
    NatOfConcat(pad, Digits(n));
    NatOfZeros(6 - |Digits(n)|);
    pad + Digits(n)
  }

  lemma PowerSix()
    ensures Pow10(6) == 1_000_000
  {
    assert Pow10(1) == 10;
    assert Pow10(3) == 1000;
    assert Pow10(5) == 100_000;
  }
}
