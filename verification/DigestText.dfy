/** What a digest is: the lower-case hexadecimal text of 32 bytes, and of nothing else. */
module DigestText {
  import opened SemanticTrace

  newtype Byte = x: int | 0 <= x < 256

  function HexDigit(n: nat): (c: char)
    requires n < 16
  {
    "0123456789abcdef"[n]
  }

  /** The text of some bytes, two digits each. */
  function Hex(bytes: seq<Byte>): (s: string)
    ensures |s| == 2 * |bytes|
  {
    if bytes == [] then "" else [HexDigit(bytes[0] as nat / 16), HexDigit(bytes[0] as nat % 16)] + Hex(bytes[1..])
  }

  lemma DigitIsHex(n: nat)
    requires n < 16
    ensures LowerHex(HexDigit(n))
  {
    var digits := "0123456789abcdef";
    assert forall i | 0 <= i < 16 :: LowerHex(digits[i]);
  }

  /** The value of a digit. */
  function DigitValue(c: char): (n: nat)
    requires LowerHex(c)
    ensures n < 16
  {
    if '0' <= c <= '9' then c as nat - '0' as nat else c as nat - 'a' as nat + 10
  }

  lemma ValueOfDigit(c: char)
    requires LowerHex(c)
    ensures HexDigit(DigitValue(c)) == c
  {
    var digits := "0123456789abcdef";
    assert '0' <= c <= '9' || 'a' <= c <= 'f';
    assert digits[0] == '0' && digits[1] == '1' && digits[2] == '2' && digits[3] == '3' && digits[4] == '4' && digits[5] == '5';
    assert digits[6] == '6' && digits[7] == '7' && digits[8] == '8' && digits[9] == '9' && digits[10] == 'a' && digits[11] == 'b';
    assert digits[12] == 'c' && digits[13] == 'd' && digits[14] == 'e' && digits[15] == 'f';
  }

  lemma {:induction false} HexIsLower(bytes: seq<Byte>)
    ensures forall i | 0 <= i < |Hex(bytes)| :: LowerHex(Hex(bytes)[i])
  {
    if bytes != [] {
      HexIsLower(bytes[1..]);
      DigitIsHex(bytes[0] as nat / 16);
      DigitIsHex(bytes[0] as nat % 16);
    }
  }

  lemma TwoDigits(high: nat, low: nat) returns (b: Byte)
    requires high < 16 && low < 16
    ensures b as nat / 16 == high && b as nat % 16 == low
  {
    b := (16 * high + low) as Byte;
  }

  /** The bytes a text of this kind stands for. */
  lemma {:induction false} BytesOf(s: string) returns (bytes: seq<Byte>)
    requires |s| % 2 == 0 && forall i | 0 <= i < |s| :: LowerHex(s[i])
    ensures Hex(bytes) == s
  {
    hide DigitValue, HexDigit, LowerHex;
    if s == "" {
      bytes := [];
    } else {
      var rest := BytesOf(s[2..]);
      var first := TwoDigits(DigitValue(s[0]), DigitValue(s[1]));
      ValueOfDigit(s[0]);
      ValueOfDigit(s[1]);
      bytes := [first] + rest;
      assert bytes[1..] == rest;
      assert s == [s[0], s[1]] + s[2..];
    }
  }

  /** A text is taken for a digest exactly if it is that of 32 bytes. */
  lemma DigestIsText(s: string)
    ensures IsDigest(s) <==> exists bytes: seq<Byte> :: |bytes| == 32 && Hex(bytes) == s
  {
    if IsDigest(s) {
      var bytes := BytesOf(s);
    }
    if bytes: seq<Byte> :| |bytes| == 32 && Hex(bytes) == s { HexIsLower(bytes); }
  }
}
