/** BIP-39 word selection (packages/keys/src/derivation.ts): eleven-bit groups of 256 entropy bits
    and an eight-bit checksum. */
module Mnemonic {
  import opened Sequences
  import opened Digits
  import opened Strings

  /** Bit `p` of a byte sequence, counting from the most significant bit of the first byte. */
  function Bit(data: seq<nat>, p: nat): nat
    requires p / 8 < |data|
  {
    data[p / 8] / Pow(2, 7 - p % 8) % 2
  }

  /** `n` consecutive bits. */
  function Bits(data: seq<nat>, offset: nat, n: nat): (r: seq<nat>)
    requires offset + n <= 8 * |data|
    ensures |r| == n
  {
    if n == 0 then [] else Bits(data, offset, n - 1) + [Bit(data, offset + n - 1)]
  }

  lemma {:induction false} BitsAreDigits(data: seq<nat>, offset: nat, n: nat)
    requires offset + n <= 8 * |data|
    ensures AreDigits(2, Bits(data, offset, n))
  {
    if n > 0 { BitsAreDigits(data, offset, n - 1); }
  }

  lemma {:induction false} BitsConcat(data: seq<nat>, offset: nat, m: nat, n: nat)
    requires offset + m + n <= 8 * |data|
    ensures Bits(data, offset, m + n) == Bits(data, offset, m) + Bits(data, offset + m, n)
  {
    if n > 0 { BitsConcat(data, offset, m, n - 1); }
  }

  /** The `k`-bit groups of the first `n * k` bits. */
  function Groups(data: seq<nat>, k: nat, n: nat): (r: seq<seq<nat>>)
    requires n * k <= 8 * |data|
    ensures |r| == n
  {
    if n == 0 then [] else
      assert (n - 1) * k + k == n * k;
      Groups(data, k, n - 1) + [Bits(data, (n - 1) * k, k)]
  }

  lemma FlattenSnoc(groups: seq<seq<nat>>, g: seq<nat>)
    ensures Flatten(groups + [g]) == Flatten(groups) + g
  {
    assert (groups + [g])[..|groups|] == groups;
  }

  lemma GroupsSnoc(data: seq<nat>, k: nat, n: nat)
    requires 0 < n && n * k <= 8 * |data|
    ensures (n - 1) * k + k == n * k
    ensures Groups(data, k, n) == Groups(data, k, n - 1) + [Bits(data, (n - 1) * k, k)]
  {
    hide Bits;
    assert (n - 1) * k + k == n * k;
  }

  lemma {:induction false} GroupsFlatten(data: seq<nat>, k: nat, n: nat)
    requires n * k <= 8 * |data|
    ensures Flatten(Groups(data, k, n)) == Bits(data, 0, n * k)
  {
    if n > 0 {
      hide Bits, Flatten, Groups;
      GroupsSnoc(data, k, n);
      var m := (n - 1) * k;
      GroupsFlatten(data, k, n - 1);
      BitsConcat(data, 0, m, k);
      FlattenSnoc(Groups(data, k, n - 1), Bits(data, m, k));
      assert Flatten(Groups(data, k, n)) == Bits(data, 0, m) + Bits(data, m, k);
      assert Bits(data, 0, m + k) == Bits(data, 0, n * k);
    } else {
      assert n * k == 0;
    }
  }

  lemma {:induction false} GroupAt(data: seq<nat>, k: nat, n: nat, i: nat)
    requires n * k <= 8 * |data| && i < n
    ensures i * k + k <= n * k && Groups(data, k, n)[i] == Bits(data, i * k, k)
  {
    assert (n - 1) * k + k == n * k;
    if i < n - 1 { GroupAt(data, k, n - 1, i); }
  }

  // ---- extractBits -----------------------------------------------------------------------

  /** A number with bit `k` set. */
  function SetBit(value: int, k: nat): int {
    if value / Pow(2, k) % 2 == 1 then value else value + Pow(2, k)
  }

  /** `value | (1 << k)` on 32-bit integers: the shift count is taken modulo 32, and bit 31 is the
      sign. */
  function OrShift(value: int, k: nat): int {
    if k % 32 == 31 then (if value < 0 then value else value - Pow(2, 31)) else SetBit(value, k % 32)
  }

  lemma SetClearBit(high: nat, k: nat)
    ensures SetBit(high * Pow(2, k + 1), k) == high * Pow(2, k + 1) + Pow(2, k)
  {
    assert high * Pow(2, k + 1) == (high * 2) * Pow(2, k) by { MulAssociative(high, 2, Pow(2, k)); }
    DivModUnique(Pow(2, k), high * 2, 0);
  }

  /** What the loop has gathered after `i` of `n` bits. */
  function Gathered(data: seq<nat>, offset: nat, n: nat, i: nat): int
    requires i <= n && (i > 0 ==> offset + i <= 8 * |data|)
  {
    if i == 0 then 0
    else
      var value := Gathered(data, offset, n, i - 1);
      if Bit(data, offset + i - 1) == 1 then OrShift(value, n - i) else value
  }

  lemma BitsSnoc(data: seq<nat>, offset: nat, n: nat)
    requires offset + n + 1 <= 8 * |data|
    ensures FromDigits(2, Bits(data, offset, n + 1)) == FromDigits(2, Bits(data, offset, n)) * 2 + Bit(data, offset + n)
  {
    assert Bits(data, offset, n + 1)[..n] == Bits(data, offset, n);
  }

  /** Setting the next bit below a run of digits appends a one. */
  lemma AppendBit(high: nat, bit: nat, k: nat)
    requires bit < 2
    ensures (if bit == 1 then SetBit(high * Pow(2, k + 1), k) else high * Pow(2, k + 1)) == (high * 2 + bit) * Pow(2, k)
  {
    SetClearBit(high, k);
    MulAssociative(high, 2, Pow(2, k));
    MulDistributes(high * 2, bit, Pow(2, k));
  }

  lemma GatheredSnoc(data: seq<nat>, offset: nat, i: nat, high: nat, bit: nat, k: nat)
    requires 0 < i && k <= 30 && offset + i <= 8 * |data| && bit == Bit(data, offset + i - 1)
    requires Gathered(data, offset, i + k, i - 1) == high * Pow(2, k + 1)
    ensures Gathered(data, offset, i + k, i) == (high * 2 + bit) * Pow(2, k)
  {
    AppendBit(high, bit, k);
    assert k % 32 == k;
    hide Pow;
  }

  lemma {:induction false} GatheredDenotes(data: seq<nat>, offset: nat, n: nat, i: nat)
    requires i <= n <= 31 && offset + i <= 8 * |data|
    ensures Gathered(data, offset, n, i) == FromDigits(2, Bits(data, offset, i)) * Pow(2, n - i)
  {
    if i > 0 {
      var k := n - i;
      assert n == i + k;
      var high, bit := FromDigits(2, Bits(data, offset, i - 1)), Bit(data, offset + i - 1);
      GatheredDenotes(data, offset, n, i - 1);
      GatheredSnoc(data, offset, i, high, bit, k);
      BitsSnoc(data, offset, i - 1);
    }
  }

  lemma GatheredAll(data: seq<nat>, offset: nat, n: nat)
    requires offset + n <= 8 * |data| && n <= 31
    ensures Gathered(data, offset, n, n) == FromDigits(2, Bits(data, offset, n)) < Pow(2, n)
  {
    GatheredDenotes(data, offset, n, n);
    BitsAreDigits(data, offset, n);
    FromDigitsBound(2, Bits(data, offset, n));
  }

  /** `extractBits`: fails exactly when a read would leave the data, and otherwise returns the
      number its bits denote, if that number fits below the sign bit. */
  method ExtractBits(data: seq<nat>, offset: nat, n: nat) returns (r: Option<int>)
    ensures r.Some? <==> n == 0 || offset + n <= 8 * |data|
    ensures n == 0 ==> r == Some(0)
    ensures 0 < n <= 31 && r.Some? ==> r.value == FromDigits(2, Bits(data, offset, n)) < Pow(2, n)
    ensures 0 < n && r.Some? ==> r.value == Gathered(data, offset, n, n)
  {
    var value: int := 0;
    for i := 0 to n
      invariant i > 0 ==> offset + i <= 8 * |data|
      invariant value == Gathered(data, offset, n, i)
    {
      var byteIndex, bitIndex := (offset + i) / 8, 7 - (offset + i) % 8;
      if byteIndex >= |data| {
        return None;
      }
      assert Gathered(data, offset, n, i + 1) ==
        if Bit(data, offset + i) == 1 then OrShift(value, n - 1 - i) else value;
      if data[byteIndex] / Pow(2, bitIndex) % 2 == 1 {
        value := OrShift(value, n - 1 - i);
      }
    }
    if 0 < n <= 31 { GatheredAll(data, offset, n); }
    return Some(value);
  }

  // ---- Bits, bytes and words -------------------------------------------------------------

  /** The first `j` bits of a byte are its quotient by the remaining power of two. */
  lemma {:induction false} LeadingBits(data: seq<nat>, i: nat, j: nat)
    requires i < |data| && data[i] < 256 && j <= 8
    ensures FromDigits(2, Bits(data, 8 * i, j)) == data[i] / Pow(2, 8 - j)
  {
    if j == 0 {
      SmallPowers();
      assert Bits(data, 8 * i, j) == [];
    } else {
      LeadingBits(data, i, j - 1);
      var bits := Bits(data, 8 * i, j);
      assert bits[..j - 1] == Bits(data, 8 * i, j - 1);
      assert (8 * i + (j - 1)) / 8 == i && (8 * i + (j - 1)) % 8 == j - 1;
      assert bits[j - 1] == data[i] / Pow(2, 8 - j) % 2;
      DivNested(data[i], Pow(2, 8 - j), 2);
      assert Pow(2, 8 - j) * 2 == Pow(2, 9 - j);
    }
  }

  lemma SmallPowers()
    ensures Pow(2, 8) == 256 && Pow(2, 11) == 2048
  {
    assert Pow(2, 2) == 4;
    assert Pow(2, 4) == 16;
    assert Pow(2, 6) == 64;
    assert Pow(2, 8) == 256;
    assert Pow(2, 10) == 1024;
  }

  /** The eight bits of a byte denote it. */
  lemma ByteBits(data: seq<nat>, i: nat, eight: nat)
    requires i < |data| && data[i] < 256 && eight == 8
    ensures FromDigits(2, Bits(data, 8 * i, eight)) == data[i]
  {
    LeadingBits(data, i, eight);
    assert Pow(2, 8 - eight) == 1;
  }

  lemma ByteGroups(data: seq<nat>, eight: nat)
    requires AreDigits(256, data) && eight == 8
    ensures GroupValues(2, Groups(data, eight, |data|)) == data
  {
    var groups := Groups(data, eight, |data|);
    forall i | 0 <= i < |data| ensures GroupValues(2, groups)[i] == data[i] {
      GroupAt(data, eight, |data|, i);
      ByteBits(data, i, eight);
      assert i * eight == 8 * i;
    }
  }

  /** Groups of any width denote the number of the bits they cover. */
  lemma GroupsDenoteBits(data: seq<nat>, k: nat, n: nat)
    requires n * k <= 8 * |data|
    ensures FromDigits(Pow(2, k), GroupValues(2, Groups(data, k, n))) == FromDigits(2, Bits(data, 0, n * k))
  {
    GroupsFlatten(data, k, n);
    GroupsAreBits(data, k, n);
    Regroup(2, k, Groups(data, k, n));
  }

  lemma {:induction false} GroupsAreBits(data: seq<nat>, k: nat, n: nat)
    requires n * k <= 8 * |data|
    ensures forall i | 0 <= i < n :: |Groups(data, k, n)[i]| == k && AreDigits(2, Groups(data, k, n)[i])
  {
    if n > 0 {
      assert (n - 1) * k + k == n * k;
      GroupsAreBits(data, k, n - 1);
      BitsAreDigits(data, (n - 1) * k, k);
    }
  }

  lemma GroupsBounded(data: seq<nat>, k: nat, n: nat)
    requires n * k <= 8 * |data|
    ensures AreDigits(Pow(2, k), GroupValues(2, Groups(data, k, n)))
  {
    var groups := Groups(data, k, n);
    GroupsAreBits(data, k, n);
    forall i | 0 <= i < n ensures GroupValues(2, groups)[i] < Pow(2, k) { FromDigitsBound(2, groups[i]); }
  }

  /** The bits of a byte sequence denote the same number as its bytes. */
  lemma BitsDenoteBytes(data: seq<nat>, eight: nat)
    requires AreDigits(256, data) && eight == 8
    ensures FromDigits(2, Bits(data, 0, |data| * eight)) == FromDigits(256, data)
  {
    SmallPowers();
    GroupsDenoteBits(data, eight, |data|);
    ByteGroups(data, eight);
  }

  /** Regrouping all bits of a byte sequence by `k` gives the base `2^k` digits of its number. */
  lemma RegroupBytes(data: seq<nat>, k: nat, n: nat, eight: nat)
    requires AreDigits(256, data) && k > 0 && eight == 8 && n * k == |data| * eight
    ensures var values := GroupValues(2, Groups(data, k, n));
            && AreDigits(Pow(2, k), values)
            && FromDigits(Pow(2, k), values) == FromDigits(256, data)
            && values == ToDigits(Pow(2, k), FromDigits(256, data), n)
  {
    GroupsBounded(data, k, n);
    GroupsDenoteBits(data, k, n);
    BitsDenoteBytes(data, eight);
    assert Pow(2, k) == 2 * Pow(2, k - 1);
    ToFromDigits(Pow(2, k), GroupValues(2, Groups(data, k, n)));
  }

  // ---- generateMnemonic ------------------------------------------------------------------

  const LIST_SIZE := 2048

  /** The indices selected from entropy followed by its checksum; for 32 entropy bytes and one
      checksum byte these are 24. */
  function WordIndices(allBytes: seq<nat>): (r: seq<nat>)
    ensures |r| == 8 * |allBytes| / 11
  {
    GroupValues(2, Groups(allBytes, 11, 8 * |allBytes| / 11))
  }

  /** The indices are below 2048, and they are the base-2048 digits of the 264-bit big-endian
      number formed by entropy and checksum. */
  lemma IndicesAreBase2048Digits(allBytes: seq<nat>)
    requires |allBytes| == 33 && AreDigits(256, allBytes)
    ensures |WordIndices(allBytes)| == 24
    ensures AreDigits(LIST_SIZE, WordIndices(allBytes))
    ensures FromDigits(LIST_SIZE, WordIndices(allBytes)) == FromDigits(256, allBytes)
    ensures WordIndices(allBytes) == ToDigits(LIST_SIZE, FromDigits(256, allBytes), |WordIndices(allBytes)|)
  {
    SmallPowers();
    RegroupBytes(allBytes, 11, 8 * |allBytes| / 11, 8);
  }

  lemma IndexAt(allBytes: seq<nat>, i: nat, eleven: nat)
    requires |allBytes| == 33 && i < 24 && eleven == 11
    ensures i * eleven + eleven <= 8 * |allBytes|
    ensures WordIndices(allBytes)[i] == FromDigits(2, Bits(allBytes, i * eleven, eleven))
  {
    GroupAt(allBytes, eleven, 24, i);
  }

  /** A decoder: the entropy of the given length and the checksum byte a list of indices names. */
  function Decode(indices: seq<nat>, length: nat): (seq<nat>, nat) {
    var number := FromDigits(LIST_SIZE, indices);
    (ToDigits(256, number / 256, length), number % 256)
  }

  /** Decoding the selected indices returns the entropy and the checksum byte. */
  lemma DecodeIndices(entropy: seq<nat>, checksum: nat)
    requires |entropy| == 32 && AreDigits(256, entropy) && checksum < 256
    ensures Decode(WordIndices(entropy + [checksum]), |entropy|) == (entropy, checksum)
  {
    var allBytes := entropy + [checksum];
    IndicesAreBase2048Digits(allBytes);
    DropLastDigit(256, entropy, checksum);
    ToFromDigits(256, entropy);
  }

  lemma DropLastDigit(b: nat, digits: seq<nat>, last: nat)
    requires last < b
    ensures FromDigits(b, digits + [last]) / b == FromDigits(b, digits) && FromDigits(b, digits + [last]) % b == last
  {
    assert (digits + [last])[..|digits|] == digits;
    DivModUnique(b, FromDigits(b, digits), last);
  }

  /** A BIP-39 word list: 2048 different words without spaces. */
  ghost predicate WordList(words: seq<string>) {
    && |words| == LIST_SIZE && NoDup(words)
    && forall i | 0 <= i < |words| :: ' ' !in words[i]
  }

  function Select(words: seq<string>, indices: seq<nat>): (r: seq<string>)
    requires AreDigits(|words|, indices)
    ensures |r| == |indices|
    ensures forall i | 0 <= i < |indices| :: r[i] == words[indices[i]]
  {
    if indices == [] then [] else
      Select(words, indices[..|indices| - 1]) + [words[indices[|indices| - 1]]]
  }

  /** `extractBits(allBytes, i * 11, 11)`. */
  method ReadIndex(allBytes: seq<nat>, i: nat, width: nat) returns (index: Option<int>)
    requires |allBytes| == 33 && i < 24 && width == 11
    ensures index == Some(WordIndices(allBytes)[i])
  {
    IndexAt(allBytes, i, width);
    index := ExtractBits(allBytes, i * width, width);
  }

  /** `generateMnemonic` after the entropy and its checksum byte are known: every read is in
      bounds and every index names a word. */
  method GenerateMnemonic(entropy: seq<nat>, checksum: nat, words: seq<string>) returns (mnemonic: Option<string>)
    requires |entropy| == 32 && AreDigits(256, entropy) && checksum < 256 && |words| == LIST_SIZE
    ensures AreDigits(|words|, WordIndices(entropy + [checksum]))
    ensures mnemonic == Some(Join(Select(words, WordIndices(entropy + [checksum])), ' '))
  {
    var allBytes := entropy + [checksum];
    IndicesAreBase2048Digits(allBytes);
    ghost var indices := WordIndices(allBytes);
    var chosen: seq<string> := [];
    for i := 0 to 24
      invariant |chosen| == i && forall j | 0 <= j < i :: chosen[j] == words[indices[j]]
    {
      var index := ReadIndex(allBytes, i, 11);
      if index.None? || index.value >= |words| { return None; }
      chosen := chosen + [words[index.value]];
    }
    assert chosen == Select(words, indices);
    return Some(Join(chosen, ' '));
  }

  lemma SelectInjective(words: seq<string>, a: seq<nat>, b: seq<nat>)
    requires NoDup(words) && AreDigits(|words|, a) && AreDigits(|words|, b)
    requires Select(words, a) == Select(words, b)
    ensures a == b
  {
    forall i | 0 <= i < |a| ensures a[i] == b[i] {
      assert Select(words, a)[i] == words[a[i]] && Select(words, b)[i] == words[b[i]];
    }
  }

  /** The sentence determines the entropy and the checksum uniquely. */
  lemma MnemonicDeterminesEntropy(e1: seq<nat>, c1: nat, e2: seq<nat>, c2: nat, words: seq<string>)
    requires |e1| == 32 && AreDigits(256, e1) && c1 < 256
    requires |e2| == 32 && AreDigits(256, e2) && c2 < 256
    requires WordList(words)
    requires AreDigits(|words|, WordIndices(e1 + [c1])) && AreDigits(|words|, WordIndices(e2 + [c2]))
    requires Join(Select(words, WordIndices(e1 + [c1])), ' ') == Join(Select(words, WordIndices(e2 + [c2])), ' ')
    ensures e1 == e2 && c1 == c2
  {
    SplitJoin(Select(words, WordIndices(e1 + [c1])), ' ');
    SplitJoin(Select(words, WordIndices(e2 + [c2])), ' ');
    SelectInjective(words, WordIndices(e1 + [c1]), WordIndices(e2 + [c2]));
    DecodeIndices(e1, c1);
    DecodeIndices(e2, c2);
  }
}
