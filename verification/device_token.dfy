/** The APNs device token as `AppDelegate` logs it: each byte formatted with `%02.2hhx`
    and the pieces joined, giving lower-case, zero-padded hexadecimal.
 */
module DeviceToken {

  type byte = x: int | 0 <= x < 256

  /** A character the encoding can produce. */
  predicate IsLowerHexDigit(c: char)
  {
    '0' <= c <= '9' || 'a' <= c <= 'f'
  }

  /** The lower-case hexadecimal digit of a value below 16. */
  function HexDigit(n: int): (c: char)
    requires 0 <= n < 16
    ensures IsLowerHexDigit(c)
    ensures n < 10 <==> '0' <= c <= '9'
  {
    if n < 10 then ('0' as int + n) as char else ('a' as int + n - 10) as char
  }

  /** The value of a hexadecimal digit; 0 for any other character. */
  function DigitValue(c: char): (n: int)
    ensures 0 <= n < 16
  {
    if '0' <= c <= '9' then c as int - '0' as int
    else if 'a' <= c <= 'f' then c as int - 'a' as int + 10
    else 0
  }

  /** `String(format: "%02.2hhx", b)`: two digits, high nibble first. */
  function ByteToHex(b: byte): (r: string)
    ensures |r| == 2 && IsLowerHexDigit(r[0]) && IsLowerHexDigit(r[1])
    ensures DigitValue(r[0]) * 16 + DigitValue(r[1]) == b
    ensures r[0] == '0' <==> b < 16
  {
    [HexDigit(b / 16), HexDigit(b % 16)]
  }

  /** `deviceToken.map { ... }.joined()`. */
  function TokenString(token: seq<byte>): (r: string)
    ensures |r| == 2 * |token|
    decreases |token|
  {
    if |token| == 0 then "" else ByteToHex(token[0]) + TokenString(token[1..])
  }

  /** Each byte's two digits sit at positions 2i and 2i+1 of the token string. */
  lemma {:induction false} TokenStringDigits(token: seq<byte>)
    ensures forall i :: 0 <= i < |token| ==>
              TokenString(token)[2 * i] == ByteToHex(token[i])[0] && TokenString(token)[2 * i + 1] == ByteToHex(token[i])[1]
    decreases |token|
  {
    if |token| > 0 {
      TokenStringDigits(token[1..]);
      TokenStringCons(token);
      var r := TokenString(token);
      var rest := TokenString(token[1..]);
      forall i | 0 <= i < |token|
        ensures r[2 * i] == ByteToHex(token[i])[0] && r[2 * i + 1] == ByteToHex(token[i])[1]
      {
        if i > 0 {
          assert token[i] == token[1..][i - 1];
          assert r[2 * i] == rest[2 * (i - 1)] && r[2 * i + 1] == rest[2 * (i - 1) + 1];
        }
      }
    }
  }

  /** The token string holds only the characters 0-9 and a-f. */
  lemma TokenIsLowerHex(token: seq<byte>)
    ensures forall k :: 0 <= k < |TokenString(token)| ==> IsLowerHexDigit(TokenString(token)[k])
  {
    var r := TokenString(token);
    TokenStringDigits(token);
    forall k | 0 <= k < |r| ensures IsLowerHexDigit(r[k]) {
      var i := k / 2;
      var hex := ByteToHex(token[i]);
      if k == 2 * i {
        assert r[k] == hex[0];
      } else {
        assert k == 2 * i + 1;
        assert r[k] == hex[1];
      }
    }
  }

  /** Reading a token string back two digits at a time. */
  function DecodeTokenString(s: string): (r: seq<byte>)
    ensures |r| == |s| / 2
    decreases |s|
  {
    if |s| < 2 then [] else [DigitValue(s[0]) * 16 + DigitValue(s[1])] + DecodeTokenString(s[2..])
  }

  /** Decoding the token string gives back the token's bytes, in order. */
  lemma {:induction false} DecodeOfTokenString(token: seq<byte>)
    ensures DecodeTokenString(TokenString(token)) == token
    decreases |token|
  {
    if |token| > 0 {
      TokenStringCons(token);
      DecodeStep(ByteToHex(token[0]), TokenString(token[1..]));
      DecodeOfTokenString(token[1..]);
      assert token == [token[0]] + token[1..];
    }
  }

  lemma TokenStringCons(token: seq<byte>)
    requires |token| > 0
    ensures TokenString(token) == ByteToHex(token[0]) + TokenString(token[1..])
  {
  }

  /** Decoding reads one byte from the first two digits and continues after them. */
  lemma DecodeStep(hex: string, rest: string)
    requires |hex| == 2
    ensures DecodeTokenString(hex + rest) == [DigitValue(hex[0]) * 16 + DigitValue(hex[1])] + DecodeTokenString(rest)
  {
    var r := hex + rest;
    assert r[0] == hex[0] && r[1] == hex[1];
    assert r[2..] == rest;
  }

  /** Distinct tokens are logged as distinct strings. */
  lemma TokenStringInjective(a: seq<byte>, b: seq<byte>)
    ensures TokenString(a) == TokenString(b) ==> a == b
  {
    DecodeOfTokenString(a);
    DecodeOfTokenString(b);
  }
}
