/**
 * `getRandomStringSecure(length)`: `randomBytes(length / 2).toString('hex')`. The random bytes
 * are an input; the model is the hex encoding, two lower-case digits per byte.
 */
module ServerHelpers {
  import opened Common

  predicate IsHexDigit(c: char) {
    ('0' <= c <= '9') || ('a' <= c <= 'f')
  }

  function HexDigit(n: int): (c: char)
    requires 0 <= n < 16
    ensures IsHexDigit(c)
  {
    if n < 10 then ('0' as int + n) as char else ('a' as int + n - 10) as char
  }

  function HexValue(c: char): (n: int)
    requires IsHexDigit(c)
    ensures 0 <= n < 16
    ensures HexDigit(n) == c
  {
    if c <= '9' then c as int - '0' as int else c as int - 'a' as int + 10
  }

  /** `buffer.toString('hex')`. */
  function HexEncode(bytes: seq<byte>): (s: string)
    ensures |s| == 2 * |bytes|
    ensures forall i :: 0 <= i < |s| ==> IsHexDigit(s[i])
  {
    if bytes == [] then [] else [HexDigit(bytes[0] / 16), HexDigit(bytes[0] % 16)] + HexEncode(bytes[1..])
  }

  /** Reads back a string of hex digit pairs. */
  function HexDecode(s: string): (bytes: seq<byte>)
    requires |s| % 2 == 0 && forall i :: 0 <= i < |s| ==> IsHexDigit(s[i])
    ensures |bytes| == |s| / 2
  {
    if s == [] then [] else [16 * HexValue(s[0]) + HexValue(s[1])] + HexDecode(s[2..])
  }

  /** The hex string determines the bytes, so distinct random bytes give distinct strings. */
  lemma {:induction false} HexRoundTrip(bytes: seq<byte>)
    ensures HexDecode(HexEncode(bytes)) == bytes
  {
    if bytes != [] {
      var s := HexEncode(bytes);
      assert s[2..] == HexEncode(bytes[1..]);
      HexRoundTrip(bytes[1..]);
    }
  }

  /**
   * `getRandomStringSecure(length)` given the `length / 2` bytes the generator returned: a
   * string of hex digits whose length is `length` rounded down to an even number.
   */
  function RandomStringSecure(length: nat, randomBytes: seq<byte>): (s: string)
    requires |randomBytes| == length / 2
    ensures |s| == 2 * (length / 2) && (length % 2 == 0 ==> |s| == length)
    ensures forall i :: 0 <= i < |s| ==> IsHexDigit(s[i])
    ensures HexDecode(s) == randomBytes
  {
    HexRoundTrip(randomBytes);
    HexEncode(randomBytes)
  }
}
