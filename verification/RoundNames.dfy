/** Transaction names: `round-` and the round number, zero-padded to eight digits. */
module RoundNames {
  function Digit(d: nat): char
    requires d < 10
  {
    "0123456789"[d]
  }

  function Decimal(n: nat): string {
    if n < 10 then [Digit(n)] else Decimal(n / 10) + [Digit(n % 10)]
  }

  function Zeros(n: nat): string {
    if n == 0 then "" else "0" + Zeros(n - 1)
  }

  function Padded(n: nat): string {
    var digits := Decimal(n);
    if |digits| < 8 then Zeros(8 - |digits|) + digits else digits
  }

  function RoundName(round: nat): string { "round-" + Padded(round) }

  function DigitValue(c: char): nat {
    if '0' <= c <= '9' then (c - '0') as nat else 0
  }

  /** Reading a number back. */
  function ValueOf(s: string): nat {
    if s == "" then 0 else 10 * ValueOf(s[..|s| - 1]) + DigitValue(s[|s| - 1])
  }

  lemma DigitRoundTrip(d: nat)
    requires d < 10
    ensures DigitValue(Digit(d)) == d
  {
  }

  lemma {:induction false} DecimalRoundTrip(n: nat)
    ensures ValueOf(Decimal(n)) == n
  {
    DigitRoundTrip(n % 10);
    if n >= 10 {
      DecimalRoundTrip(n / 10);
      assert Decimal(n)[..|Decimal(n)| - 1] == Decimal(n / 10);
    } else {
      assert ValueOf("") == 0 && [Digit(n)][..0] == "";
    }
  }

  lemma {:induction false} ZerosValue(k: nat)
    ensures ValueOf(Zeros(k)) == 0
  {
    if k > 0 {
      ZerosEnd(k - 1);
      assert Zeros(k)[..|Zeros(k)| - 1] == Zeros(k - 1);
      ZerosValue(k - 1);
    }
  }

  lemma {:induction false} ZerosEnd(k: nat)
    ensures "0" + Zeros(k) == Zeros(k) + "0"
  {
    if k > 0 { ZerosEnd(k - 1); }
  }

  lemma {:induction false} PaddingIgnored(k: nat, s: string)
    ensures ValueOf(Zeros(k) + s) == ValueOf(s)
  {
    if s == "" {
      assert Zeros(k) + s == Zeros(k);
      ZerosValue(k);
    } else {
      PaddingIgnored(k, s[..|s| - 1]);
      assert (Zeros(k) + s)[..|Zeros(k) + s| - 1] == Zeros(k) + s[..|s| - 1];
    }
  }

  lemma PaddedRoundTrip(n: nat)
    ensures ValueOf(Padded(n)) == n
  {
    hide Decimal, ValueOf, Zeros;
    DecimalRoundTrip(n);
    if |Decimal(n)| < 8 { PaddingIgnored(8 - |Decimal(n)|, Decimal(n)); }
  }

  /** Different rounds have different names. */
  lemma NamesDiffer(a: nat, b: nat)
    requires RoundName(a) == RoundName(b)
    ensures a == b
  {
    hide Padded, ValueOf;
    assert RoundName(a)[6..] == Padded(a) && RoundName(b)[6..] == Padded(b);
    PaddedRoundTrip(a);
    PaddedRoundTrip(b);
  }
}
