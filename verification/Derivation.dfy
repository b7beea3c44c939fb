/** BIP-32 derivation paths and child keys (packages/keys/src/derivation.ts), following BIP-32,
    sections "Conventions" and "Child key derivation (CKD) functions". */
module Derivation {
  import opened Sequences
  import opened Digits
  import opened Strings
  import opened Integers

  datatype Segment = Segment(index: nat, hardened: bool)

  const HARDENED_OFFSET := 0x8000_0000
  const MAX_DERIVATION_INDEX := 0x7fff_ffff

  // ---- Decimal numerals ------------------------------------------------------------------

  predicate IsDigit(c: char) {
    '0' <= c <= '9'
  }

  /** `/^\d+$/`. */
  predicate AllDigits(s: string) {
    s != "" && forall i | 0 <= i < |s| :: IsDigit(s[i])
  }

  /** `Number.parseInt(s, 10)` on digits; a value too large for a double is over the index limit
      either way. */
  function Decimal(s: string): nat {
    if s == "" then 0 else
      Decimal(s[..|s| - 1]) * 10 + (if IsDigit(s[|s| - 1]) then s[|s| - 1] as int - '0' as int else 0)
  }

  function DigitChar(d: nat): char
    requires d < 10
  {
    (d + '0' as int) as char
  }

  function Numeral(n: nat): string {
    if n < 10 then [DigitChar(n)] else Numeral(n / 10) + [DigitChar(n % 10)]
  }

  lemma {:induction false} DecimalNumeral(n: nat)
    ensures AllDigits(Numeral(n)) && Decimal(Numeral(n)) == n
  {
    if n >= 10 {
      DecimalNumeral(n / 10);
      assert Numeral(n)[..|Numeral(n)| - 1] == Numeral(n / 10);
    } else {
      assert Numeral(n)[..0] == "";
    }
  }

  predicate NoLeadingZero(s: string) {
    s == "0" || (s != "" && s[0] != '0')
  }

  lemma {:induction false} DecimalPositive(s: string)
    requires AllDigits(s) && s[0] != '0'
    ensures Decimal(s) > 0
  {
    if |s| > 1 {
      DecimalPositive(s[..|s| - 1]);
    } else {
      assert s[..0] == "";
    }
  }

  /** A digit string is the numeral of its value exactly when it has no superfluous zero. */
  lemma {:induction false} NumeralDecimalIff(s: string)
    requires AllDigits(s)
    ensures Numeral(Decimal(s)) == s <==> NoLeadingZero(s)
  {
    var n := |s| - 1;
    assert s == s[..n] + [s[n]];
    if n == 0 {
      assert s[..0] == "";
    } else {
      NumeralDecimalIff(s[..n]);
      var v := Decimal(s[..n]);
      if s[0] != '0' { DecimalPositive(s[..n]); }
      if v == 0 {
        assert Numeral(Decimal(s)) == [s[n]];
        assert |Numeral(Decimal(s))| != |s|;
      } else {
        assert Numeral(Decimal(s)) == Numeral(v) + [s[n]];
        if Numeral(Decimal(s)) == s { assert Numeral(v) == Numeral(Decimal(s))[..n]; }
        assert Decimal("0") == 0 by { assert "0"[..0] == ""; }
      }
    }
  }

  // ---- Parsing ---------------------------------------------------------------------------

  function IndexText(part: string): string {
    if part != "" && part[|part| - 1] == '\'' then part[..|part| - 1] else part
  }

  /** One path component, or `None` where the program throws. */
  function ParseSegment(part: string): Option<Segment> {
    if part == "" then None
    else
      var text := IndexText(part);
      if AllDigits(text) && Decimal(text) <= MAX_DERIVATION_INDEX
      then Some(Segment(Decimal(text), text != part)) else None
  }

  function ParseSegments(parts: seq<string>): Option<seq<Segment>> {
    if parts == [] then Some([]) else
      match ParseSegments(parts[..|parts| - 1])
      case None => None
      case Some(earlier) =>
        match ParseSegment(parts[|parts| - 1])
        case None => None
        case Some(segment) => Some(earlier + [segment])
  }

  function Parsed(path: string): Option<seq<Segment>> {
    var parts := Split(path, '/');
    if parts[0] != "m" then None else ParseSegments(parts[1..])
  }

  lemma {:induction false} FailedPrefix(parts: seq<string>, i: nat)
    requires i <= |parts| && ParseSegments(parts[..i]).None?
    ensures ParseSegments(parts).None?
  {
    if i < |parts| {
      assert parts[..|parts| - 1][..i] == parts[..i];
      FailedPrefix(parts[..|parts| - 1], i);
    } else {
      assert parts[..i] == parts;
    }
  }

  /** `parsePath`. */
  method ParsePath(path: string) returns (segments: Option<seq<Segment>>)
    ensures segments == Parsed(path)
  {
    if path == "m" {
      SplitSingle(path, '/');
      return Some([]);
    }
    var parts := Split(path, '/');
    if parts[0] != "m" { return None; }
    ghost var rest := parts[1..];
    var out: seq<Segment> := [];
    for i := 1 to |parts|
      invariant ParseSegments(rest[..i - 1]) == Some(out)
    {
      var part := parts[i];
      assert rest[..i][..i - 1] == rest[..i - 1];
      var segment := ParseSegment(part);
      if segment.None? {
        assert ParseSegments(rest[..i]).None?;
        FailedPrefix(rest, i);
        return None;
      }
      out := out + [segment.value];
    }
    assert rest[..|rest|] == rest;
    return Some(out);
  }

  // ---- Printing --------------------------------------------------------------------------

  function PrintSegment(segment: Segment): string {
    Numeral(segment.index) + (if segment.hardened then "'" else "")
  }

  function PrintSegments(segments: seq<Segment>): (r: seq<string>)
    ensures |r| == |segments|
    ensures forall i | 0 <= i < |segments| :: r[i] == PrintSegment(segments[i])
  {
    if segments == [] then [] else
      PrintSegments(segments[..|segments| - 1]) + [PrintSegment(segments[|segments| - 1])]
  }

  function PrintPath(segments: seq<Segment>): string {
    Join(["m"] + PrintSegments(segments), '/')
  }

  predicate InRange(segments: seq<Segment>) {
    forall i | 0 <= i < |segments| :: segments[i].index <= MAX_DERIVATION_INDEX
  }

  lemma ParsePrintSegment(segment: Segment)
    requires segment.index <= MAX_DERIVATION_INDEX
    ensures ParseSegment(PrintSegment(segment)) == Some(segment)
    ensures '/' !in PrintSegment(segment)
  {
    DecimalNumeral(segment.index);
    hide Numeral, Decimal;
    PrintedText(Numeral(segment.index), segment.hardened);
  }

  /** The index text of digits with or without an apostrophe. */
  lemma PrintedText(n: string, hardened: bool)
    requires AllDigits(n)
    ensures var part := n + (if hardened then "'" else "");
            part != "" && IndexText(part) == n && (n != part <==> hardened) && '/' !in part
  {
    assert IsDigit(n[|n| - 1]);
    if hardened {
      assert (n + "'")[..|n|] == n;
      assert |n + "'"| != |n|;
    } else {
      assert n + "" == n;
    }
  }

  lemma {:induction false} ParseAll(parts: seq<string>, segments: seq<Segment>)
    requires |parts| == |segments| && forall i | 0 <= i < |parts| :: ParseSegment(parts[i]) == Some(segments[i])
    ensures ParseSegments(parts) == Some(segments)
  {
    if parts != [] {
      var n := |parts| - 1;
      ParseAll(parts[..n], segments[..n]);
      assert segments == segments[..n] + [segments[n]];
    }
  }

  lemma {:induction false} ParsedAll(parts: seq<string>)
    requires ParseSegments(parts).Some?
    ensures var segments := ParseSegments(parts).value;
            |segments| == |parts| && forall i | 0 <= i < |parts| :: ParseSegment(parts[i]) == Some(segments[i])
  {
    if parts != [] { ParsedAll(parts[..|parts| - 1]); }
  }

  lemma ParsePrintSegments(segments: seq<Segment>)
    requires InRange(segments)
    ensures ParseSegments(PrintSegments(segments)) == Some(segments)
  {
    var parts := PrintSegments(segments);
    forall i | 0 <= i < |parts| ensures ParseSegment(parts[i]) == Some(segments[i]) { ParsePrintSegment(segments[i]); }
    ParseAll(parts, segments);
  }

  lemma PrintedWithoutSlash(segments: seq<Segment>)
    requires InRange(segments)
    ensures forall i | 0 <= i < |segments| :: '/' !in PrintSegments(segments)[i]
  {
    forall i | 0 <= i < |segments| ensures '/' !in PrintSegments(segments)[i] {
      ParsePrintSegment(segments[i]);
    }
  }

  /** Parsing inverts printing for every list of segments with 31-bit indices. */
  lemma ParsePrint(segments: seq<Segment>)
    requires InRange(segments)
    ensures Parsed(PrintPath(segments)) == Some(segments)
  {
    ParsePrintSegments(segments);
    PrintedWithoutSlash(segments);
    var parts := ["m"] + PrintSegments(segments);
    SplitJoin(parts, '/');
    assert parts[1..] == PrintSegments(segments);
  }

  lemma PrintParseSegment(part: string)
    requires ParseSegment(part).Some?
    ensures PrintSegment(ParseSegment(part).value) == part <==> NoLeadingZero(IndexText(part))
  {
    var text := IndexText(part);
    NumeralDecimalIff(text);
    var printed := PrintSegment(ParseSegment(part).value);
    if text != part {
      assert part == text + "'";
      if printed == part {
        assert Numeral(Decimal(text)) == printed[..|printed| - 1] == text;
      }
    } else {
      assert printed == Numeral(Decimal(text));
    }
  }

  lemma PrintParseSegments(parts: seq<string>)
    requires ParseSegments(parts).Some?
    ensures InRange(ParseSegments(parts).value)
    ensures PrintSegments(ParseSegments(parts).value) == parts <==>
            forall i | 0 <= i < |parts| :: NoLeadingZero(IndexText(parts[i]))
  {
    var segments := ParseSegments(parts).value;
    ParsedAll(parts);
    forall i | 0 <= i < |parts|
      ensures segments[i].index <= MAX_DERIVATION_INDEX
      ensures PrintSegments(segments)[i] == parts[i] <==> NoLeadingZero(IndexText(parts[i]))
    {
      PrintParseSegment(parts[i]);
    }
  }

  /** The components after the leading `m`. */
  function Components(path: string): seq<string> {
    Split(path, '/')[1..]
  }

  /** Paths that start with `m` are determined by their components. */
  lemma PathOfComponents(path: string, segments: seq<Segment>)
    requires Split(path, '/')[0] == "m" && InRange(segments)
    ensures PrintPath(segments) == path <==> PrintSegments(segments) == Components(path)
  {
    var printed := ["m"] + PrintSegments(segments);
    JoinSplit(path, '/');
    PrintedWithoutSlash(segments);
    SplitJoin(printed, '/');
    assert printed[1..] == PrintSegments(segments);
    assert Split(path, '/') == ["m"] + Components(path);
  }

  /** An accepted path has 31-bit indices, and printing what was parsed gives the same text exactly
      when no component has a superfluous leading zero. */
  lemma PrintParseIff(path: string)
    requires Parsed(path).Some?
    ensures InRange(Parsed(path).value)
    ensures PrintPath(Parsed(path).value) == path <==>
            forall i | 0 <= i < |Components(path)| :: NoLeadingZero(IndexText(Components(path)[i]))
  {
    PrintParseSegments(Components(path));
    PathOfComponents(path, Parsed(path).value);
  }

  // ---- Which paths are accepted ----------------------------------------------------------

  function DigitText(digits: seq<nat>): (text: string)
    requires AreDigits(10, digits)
    ensures |text| == |digits| && forall i | 0 <= i < |text| :: text[i] as int == '0' as int + digits[i]
  {
    seq(|digits|, i requires 0 <= i < |digits| => (digits[i] + '0' as int) as char)
  }

  /** A component that is some decimal digits denoting the index, and an apostrophe if hardened. */
  ghost predicate Denotes(part: string, segment: Segment) {
    exists digits | digits != [] && AreDigits(10, digits) ::
      && part == DigitText(digits) + (if segment.hardened then "'" else "")
      && segment.index == FromDigits(10, digits) <= MAX_DERIVATION_INDEX
  }

  lemma {:induction false} DecimalDenotes(digits: seq<nat>)
    requires AreDigits(10, digits)
    ensures Decimal(DigitText(digits)) == FromDigits(10, digits)
  {
    if digits != [] {
      var n := |digits| - 1;
      DecimalDenotes(digits[..n]);
      assert DigitText(digits)[..n] == DigitText(digits[..n]);
    }
  }

  lemma DigitsOf(text: string) returns (digits: seq<nat>)
    requires AllDigits(text)
    ensures digits != [] && AreDigits(10, digits) && DigitText(digits) == text
  {
    digits := seq(|text|, i requires 0 <= i < |text| => text[i] as int - '0' as int);
    forall i | 0 <= i < |text| ensures DigitText(digits)[i] == text[i] {}
  }

  lemma ParseSegmentIff(part: string, segment: Segment)
    ensures ParseSegment(part) == Some(segment) <==> Denotes(part, segment)
    ensures Denotes(part, segment) ==> '/' !in part
  {
    hide Decimal, FromDigits;
    if ParseSegment(part) == Some(segment) {
      var digits := DigitsOf(IndexText(part));
      DecimalDenotes(digits);
      assert part == DigitText(digits) + (if segment.hardened then "'" else "");
    }
    if Denotes(part, segment) {
      var digits :| digits != [] && AreDigits(10, digits)
        && part == DigitText(digits) + (if segment.hardened then "'" else "")
        && segment.index == FromDigits(10, digits) <= MAX_DERIVATION_INDEX;
      DecimalDenotes(digits);
      PrintedText(DigitText(digits), segment.hardened);
    }
  }

  /** A path is parsed as these segments exactly when it is `m` followed by a slash and a component
      denoting each of them in turn; every other text is rejected. */
  lemma ParsedIff(path: string, segments: seq<Segment>)
    ensures Parsed(path) == Some(segments) <==>
            exists parts | |parts| == |segments| && (forall i | 0 <= i < |parts| :: Denotes(parts[i], segments[i])) ::
              path == Join(["m"] + parts, '/')
  {
    hide Denotes, ParseSegment;
    if Parsed(path) == Some(segments) {
      var parts := Components(path);
      ParsedAll(parts);
      forall i | 0 <= i < |parts| ensures Denotes(parts[i], segments[i]) { ParseSegmentIff(parts[i], segments[i]); }
      JoinSplit(path, '/');
      assert Split(path, '/') == ["m"] + parts;
    }
    if parts :| |parts| == |segments| && (forall i | 0 <= i < |parts| :: Denotes(parts[i], segments[i]))
                && path == Join(["m"] + parts, '/') {
      forall i | 0 <= i < |parts| ensures ParseSegment(parts[i]) == Some(segments[i]) && '/' !in parts[i] {
        ParseSegmentIff(parts[i], segments[i]);
      }
      ParseAll(parts, segments);
      SplitJoin(["m"] + parts, '/');
      assert (["m"] + parts)[1..] == parts;
    }
  }

  // ---- Child indices ---------------------------------------------------------------------

  /** `(index + HARDENED_OFFSET) >>> 0` for a hardened segment. */
  function ChildIndex(segment: Segment): nat {
    if segment.hardened then (segment.index + HARDENED_OFFSET) % 0x1_0000_0000 else segment.index
  }

  /** The four shifted and masked bytes. */
  function IndexBytes(childIndex: nat): seq<nat> {
    [childIndex / 0x100_0000 % 256, childIndex / 0x1_0000 % 256, childIndex / 0x100 % 256, childIndex % 256]
  }

  /** The bytes decode to the index, and different segments give different bytes. */
  lemma IndexBytesFaithful(a: Segment, b: Segment)
    requires a.index <= MAX_DERIVATION_INDEX && b.index <= MAX_DERIVATION_INDEX
    ensures FromDigits(256, IndexBytes(ChildIndex(a))) == ChildIndex(a) < 0x1_0000_0000
    ensures IndexBytes(ChildIndex(a)) == IndexBytes(ChildIndex(b)) <==> a == b
  {
    ChildIndexSeparates(a, b);
    hide ChildIndex, IndexBytes;
    DecodeIndexBytes(ChildIndex(a));
    DecodeIndexBytes(ChildIndex(b));
  }

  lemma ChildIndexSeparates(a: Segment, b: Segment)
    requires a.index <= MAX_DERIVATION_INDEX && b.index <= MAX_DERIVATION_INDEX
    ensures ChildIndex(a) < 0x1_0000_0000 && ChildIndex(b) < 0x1_0000_0000
    ensures ChildIndex(a) == ChildIndex(b) <==> a == b
  {
  }

  lemma DecodeIndexBytes(x: nat)
    requires x < 0x1_0000_0000
    ensures FromDigits(256, IndexBytes(x)) == x
  {
    var d := IndexBytes(x);
    Snoc256([], d[0]);
    Snoc256([d[0]], d[1]);
    Snoc256([d[0], d[1]], d[2]);
    Snoc256([d[0], d[1], d[2]], d[3]);
    assert [] + [d[0]] == [d[0]] && [d[0]] + [d[1]] == [d[0], d[1]];
    assert [d[0], d[1]] + [d[2]] == [d[0], d[1], d[2]] && [d[0], d[1], d[2]] + [d[3]] == d;
    FourBytes(x);
  }

  lemma Snoc256(s: seq<nat>, d: nat)
    ensures FromDigits(256, s + [d]) == FromDigits(256, s) * 256 + d
  {
    assert (s + [d])[..|s|] == s;
  }

  lemma FourBytes(x: nat)
    requires x < 0x1_0000_0000
    ensures ((x / 0x100_0000 % 256 * 256 + x / 0x1_0000 % 256) * 256 + x / 0x100 % 256) * 256 + x % 256 == x
  {
    assert x / 0x1_0000 == x / 0x100 / 0x100;
    assert x / 0x100_0000 == x / 0x1_0000 / 0x100;
  }

  // ---- Child keys ------------------------------------------------------------------------

  /** The order of secp256k1. */
  const ORDER := 0xFFFFFFFF_FFFFFFFF_FFFFFFFF_FFFFFFFE_BAAEDCE6_AF48A03B_BFD25E8C_D0364141

  /** The HMAC input: parent key or compressed public key, then the index. */
  function ChildData(parentKey: seq<nat>, publicKey: seq<nat>, segment: Segment): seq<nat> {
    (if segment.hardened then [0] + parentKey else publicKey) + IndexBytes(ChildIndex(segment))
  }

  /** The 37 bytes of BIP-32: a zero byte and the parent key for a hardened child, the compressed public
      key for a normal one, then the index, from 2^31 on for a hardened child. */
  lemma ChildDataLayout(parentKey: seq<nat>, publicKey: seq<nat>, segment: Segment)
    requires |parentKey| == 32 && |publicKey| == 33 && segment.index <= MAX_DERIVATION_INDEX
    ensures var data := ChildData(parentKey, publicKey, segment);
            && |data| == 37
            && data[..33] == (if segment.hardened then [0] + parentKey else publicKey)
            && AreDigits(256, data[33..])
            && FromDigits(256, data[33..]) == segment.index + (if segment.hardened then 0x8000_0000 else 0)
  {
    DecodeIndexBytes(ChildIndex(segment));
    hide FromDigits;
    assert ChildData(parentKey, publicKey, segment)[33..] == IndexBytes(ChildIndex(segment));
  }

  /** Different segments of one parent never hash the same input. */
  lemma ChildDataSeparates(parentKey: seq<nat>, publicKey: seq<nat>, a: Segment, b: Segment)
    requires |parentKey| == 32 && |publicKey| == 33
    requires a.index <= MAX_DERIVATION_INDEX && b.index <= MAX_DERIVATION_INDEX
    ensures ChildData(parentKey, publicKey, a) == ChildData(parentKey, publicKey, b) <==> a == b
  {
    IndexBytesFaithful(a, b);
    var x, y := ChildData(parentKey, publicKey, a), ChildData(parentKey, publicKey, b);
    assert x[33..] == IndexBytes(ChildIndex(a)) && y[33..] == IndexBytes(ChildIndex(b));
  }

  /** `deriveChild`, for any HMAC and public-key function: the 32 bytes returned denote the sum of
      parent key and left half modulo the group order, with nothing cut off. */
  method DeriveChild(parentKey: seq<nat>, chainCode: seq<nat>, segment: Segment,
                     hmac: (seq<nat>, seq<nat>) -> seq<nat>, publicKeyOf: seq<nat> -> seq<nat>)
    returns (privateKey: array<nat>, childChainCode: seq<nat>)
    requires |hmac(chainCode, ChildData(parentKey, publicKeyOf(parentKey), segment))| == 64
    ensures fresh(privateKey) && privateKey.Length == 32
    ensures var derived := hmac(chainCode, ChildData(parentKey, publicKeyOf(parentKey), segment));
            && FromDigits(256, privateKey[..]) == (FromDigits(256, parentKey) + FromDigits(256, derived[..32])) % ORDER
            && childChainCode == derived[32..]
  {
    var derived := hmac(chainCode, ChildData(parentKey, publicKeyOf(parentKey), segment));
    var parentNumber := BytesToBigInt(parentKey);
    var childNumber := BytesToBigInt(derived[..32]);
    var result := (parentNumber + childNumber) % ORDER;
    var length := 32;
    privateKey := BigIntToBytes(result, length);
    OrderFits(256, length);
    NumberRoundTripIff(result, length);
    FromToDigits(256, result, length);
    assert privateKey.Length == |privateKey[..]|;
    childChainCode := derived[32..];
  }

  lemma OrderFits(b: nat, length: nat)
    requires b == 256 && length == 32
    ensures ORDER < Pow(b, length)
  {
    var four, eight, sixteen := length / 8, length / 4, length / 2;
    FourthPower(b, four);
    hide Pow;
    PowAdd(b, four, four);
    assert Pow(b, eight) == 0x1_0000_0000_0000_0000;
    PowAdd(b, eight, eight);
    assert Pow(b, sixteen) == 0x1_0000_0000_0000_0000_0000_0000_0000_0000;
    PowAdd(b, sixteen, sixteen);
  }

  lemma PowStep(b: nat, n: nat)
    requires n > 0
    ensures Pow(b, n) == b * Pow(b, n - 1)
  {
  }

  lemma FourthPower(b: nat, four: nat)
    requires b == 256 && four == 4
    ensures Pow(b, four) == 0x1_0000_0000
  {
    assert Pow(b, four - 4) == 1;
    hide Pow;
    PowStep(b, four - 3);
    PowStep(b, four - 2);
    PowStep(b, four - 1);
    PowStep(b, four);
  }
}
