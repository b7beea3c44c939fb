/** Fixed-width big-endian integers (packages/keys/src/derivation.ts). */
module Integers {
  import opened Digits

  /** `bytesToBigInt`. */
  method BytesToBigInt(bytes: seq<nat>) returns (result: nat)
    ensures result == FromDigits(256, bytes)
  {
    result := 0;
    for i := 0 to |bytes|
      invariant result == FromDigits(256, bytes[..i])
    {
      assert bytes[..i + 1][..i] == bytes[..i];
      result := result * 256 + bytes[i];
    }
    assert bytes[..|bytes|] == bytes;
  }

  /** `bigIntToBytes`: the low bytes are written from the end; shifting and masking a negative
      value behave as division and remainder do. */
  method BigIntToBytes(value: int, length: nat) returns (result: array<nat>)
    ensures fresh(result) && result[..] == ToDigits(256, value, length)
  {
    result := new nat[length];
    var remaining := value;
    ghost var written: seq<nat> := [];
    FromToDigits(256, value, length);
    for i := length downto 0
      invariant result[i..] == written && |written| == length - i
      invariant ToDigits(256, value, length) == ToDigits(256, remaining, i) + written
    {
      assert ToDigits(256, remaining, i + 1) == ToDigits(256, remaining / 256, i) + [Low(remaining, 256)];
      result[i] := Low(remaining, 256);
      written := [Low(remaining, 256)] + written;
      assert result[i..] == [result[i]] + result[i + 1..];
      remaining := remaining / 256;
    }
  }

  /** Bytes survive the trip through a number of the same width. */
  lemma BytesRoundTrip(bytes: seq<nat>)
    requires AreDigits(256, bytes)
    ensures ToDigits(256, FromDigits(256, bytes), |bytes|) == bytes
  {
    ToFromDigits(256, bytes);
  }

  /** A number survives the trip through `length` bytes exactly when it fits. */
  lemma NumberRoundTripIff(value: int, length: nat)
    ensures FromDigits(256, ToDigits(256, value, length)) == value <==> 0 <= value < Pow(256, length)
  {
    FromToDigits(256, value, length);
    DivMod(value, Pow(256, length));
    if 0 <= value < Pow(256, length) { DivModUnique(Pow(256, length), 0, value); }
  }
}
