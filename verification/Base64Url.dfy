/** base64url and compact tokens (packages/keys/src/jwt.ts): `btoa`/`atob` follow RFC 4648
    section 4, with the forgiving decoding of `atob`; the URL form follows section 5. */
module Base64Url {
  import opened Sequences
  import opened Strings

  type Byte = b: nat | b < 256

  /** The alphabet: `A-Z`, `a-z`, `0-9`, `+`, `/`. */
  function Sextet(v: nat): char
    requires v < 64
  {
    if v < 26 then (v + 'A' as int) as char
    else if v < 52 then (v - 26 + 'a' as int) as char
    else if v < 62 then (v - 52 + '0' as int) as char
    else if v == 62 then '+'
    else '/'
  }

  function Value(c: char): Option<nat> {
    if 'A' <= c <= 'Z' then Some(c as int - 'A' as int)
    else if 'a' <= c <= 'z' then Some(c as int - 'a' as int + 26)
    else if '0' <= c <= '9' then Some(c as int - '0' as int + 52)
    else if c == '+' then Some(62)
    else if c == '/' then Some(63)
    else None
  }

  lemma SextetValue(v: nat)
    requires v < 64
    ensures Value(Sextet(v)) == Some(v)
    ensures Sextet(v) != '=' && Sextet(v) != '.' && Sextet(v) != '-' && Sextet(v) != '_'
  {
  }

  // ---- btoa ------------------------------------------------------------------------------

  predicate AreSextets(v: seq<nat>) {
    forall i | 0 <= i < |v| :: v[i] < 64
  }

  function Group(a: Byte, b: Byte, c: Byte): (r: seq<nat>)
    ensures |r| == 4 && AreSextets(r)
  {
    [a / 4, a % 4 * 16 + b / 16, b % 16 * 4 + c / 64, c % 64]
  }

  /** Three bytes become four sextets; a final one or two become two or three. */
  function ToSextets(data: seq<Byte>): (r: seq<nat>)
    ensures AreSextets(r)
    ensures |r| == (4 * |data| + 2) / 3
  {
    if data == [] then []
    else if |data| == 1 then Group(data[0], 0, 0)[..2]
    else if |data| == 2 then Group(data[0], data[1], 0)[..3]
    else Group(data[0], data[1], data[2]) + ToSextets(data[3..])
  }

  function Letters(v: seq<nat>): (r: string)
    requires AreSextets(v)
    ensures |r| == |v| && forall i | 0 <= i < |v| :: r[i] == Sextet(v[i])
  {
    seq(|v|, i requires 0 <= i < |v| => Sextet(v[i]))
  }

  function Pad(n: nat): (r: string)
    ensures |r| == n && forall i | 0 <= i < n :: r[i] == '='
  {
    seq(n, i => '=')
  }

  /** `btoa`: letters, then padding to a multiple of four. */
  function Btoa(data: seq<Byte>): string {
    Letters(ToSextets(data)) + Pad((3 - |data| % 3) % 3)
  }

  // ---- atob ------------------------------------------------------------------------------

  predicate AsciiSpace(c: char) {
    c as int in {9, 10, 12, 13, 32}
  }

  function WithoutSpace(s: string): string {
    if s == "" then "" else (if AsciiSpace(s[0]) then "" else [s[0]]) + WithoutSpace(s[1..])
  }

  /** At most two trailing `=` are dropped, when the length is a multiple of four. */
  function WithoutPadding(s: string): string {
    if |s| % 4 != 0 || s == "" || s[|s| - 1] != '=' then s
    else if s[|s| - 2] == '=' then s[..|s| - 2]
    else s[..|s| - 1]
  }

  predicate InAlphabet(s: string) {
    forall i | 0 <= i < |s| :: Value(s[i]).Some?
  }

  function Values(s: string): (r: seq<nat>)
    requires InAlphabet(s)
    ensures |r| == |s| && AreSextets(r)
    ensures forall i | 0 <= i < |s| :: r[i] == Value(s[i]).value
  {
    seq(|s|, i requires 0 <= i < |s| => Value(s[i]).value)
  }

  function Ungroup(v: seq<nat>): (r: seq<Byte>)
    requires |v| == 4 && AreSextets(v)
    ensures |r| == 3
  {
    [v[0] * 4 + v[1] / 16, v[1] % 16 * 16 + v[2] / 4, v[2] % 4 * 64 + v[3]]
  }

  /** Four sextets become three bytes; a final two or three become one or two, the surplus bits
      being discarded. */
  function FromSextets(v: seq<nat>): seq<Byte>
    requires AreSextets(v) && |v| % 4 != 1
  {
    if v == [] then []
    else if |v| == 2 then Ungroup(v + [0, 0])[..1]
    else if |v| == 3 then Ungroup(v + [0])[..2]
    else Ungroup(v[..4]) + FromSextets(v[4..])
  }

  function Atob(s: string): Option<seq<Byte>> {
    var body := WithoutPadding(WithoutSpace(s));
    if |body| % 4 != 1 && InAlphabet(body) then Some(FromSextets(Values(body))) else None
  }

  // ---- The URL form ----------------------------------------------------------------------

  function ReplaceAll(s: string, a: char, b: char): (r: string)
    ensures |r| == |s|
    ensures forall i | 0 <= i < |s| :: r[i] == if s[i] == a then b else s[i]
  {
    if s == "" then "" else [if s[0] == a then b else s[0]] + ReplaceAll(s[1..], a, b)
  }

  /** `.replace(/=+$/, "")`. */
  function DropPadding(s: string): string {
    if s != "" && s[|s| - 1] == '=' then DropPadding(s[..|s| - 1]) else s
  }

  /** `base64urlEncode`. */
  function Encode(data: seq<Byte>): string {
    if |data| == 0 then "" else DropPadding(ReplaceAll(ReplaceAll(Btoa(data), '+', '-'), '/', '_'))
  }

  /** `base64urlDecode`; `None` where `atob` throws. */
  function Decode(s: string): Option<seq<Byte>> {
    if s == "" then Some([])
    else
      var padded := s + Pad((4 - |s| % 4) % 4);
      Atob(ReplaceAll(ReplaceAll(padded, '-', '+'), '_', '/'))
  }

  // ---- Round trip ------------------------------------------------------------------------

  lemma UngroupGroup(a: Byte, b: Byte, c: Byte)
    ensures Ungroup(Group(a, b, c)) == [a, b, c]
  {
  }

  lemma UngroupThenRest(group: seq<nat>, rest: seq<nat>)
    requires |group| == 4 && AreSextets(group) && AreSextets(rest) && |rest| % 4 != 1
    ensures AreSextets(group + rest) && |group + rest| % 4 != 1
    ensures FromSextets(group + rest) == Ungroup(group) + FromSextets(rest)
  {
    assert (group + rest)[..4] == group && (group + rest)[4..] == rest;
  }

  /** Regrouping the sextets gives the bytes back. */
  lemma {:induction false} FromToSextets(data: seq<Byte>)
    ensures |ToSextets(data)| % 4 != 1 && FromSextets(ToSextets(data)) == data
  {
    if |data| == 1 {
      UngroupGroup(data[0], 0, 0);
      assert Group(data[0], 0, 0)[..2] + [0, 0] == Group(data[0], 0, 0);
    } else if |data| == 2 {
      UngroupGroup(data[0], data[1], 0);
      assert Group(data[0], data[1], 0)[..3] + [0] == Group(data[0], data[1], 0);
    } else if |data| >= 3 {
      FromToSextets(data[3..]);
      UngroupGroup(data[0], data[1], data[2]);
      UngroupThenRest(Group(data[0], data[1], data[2]), ToSextets(data[3..]));
      assert data == [data[0], data[1], data[2]] + data[3..];
    }
  }

  /** The URL form of a text. */
  function ToUrl(s: string): string {
    ReplaceAll(ReplaceAll(s, '+', '-'), '/', '_')
  }

  function FromUrl(s: string): string {
    ReplaceAll(ReplaceAll(s, '-', '+'), '_', '/')
  }

  lemma LettersDecode(v: seq<nat>)
    requires AreSextets(v)
    ensures InAlphabet(Letters(v)) && Values(Letters(v)) == v
    ensures forall i | 0 <= i < |v| :: Letters(v)[i] != '=' && Letters(v)[i] != '.' && !AsciiSpace(Letters(v)[i])
    ensures FromUrl(ToUrl(Letters(v))) == Letters(v)
    ensures '.' !in ToUrl(Letters(v))
  {
    forall i | 0 <= i < |v| ensures Value(Letters(v)[i]) == Some(v[i]) { SextetValue(v[i]); }
    forall i | 0 <= i < |v| ensures ToUrl(Letters(v))[i] != '.' { SextetValue(v[i]); }
  }

  lemma {:induction false} DropPaddingExact(body: string, n: nat)
    requires forall i | 0 <= i < |body| :: body[i] != '='
    ensures DropPadding(body + Pad(n)) == body
  {
    var s := body + Pad(n);
    if n == 0 {
      assert s == body;
    } else {
      assert s[..|s| - 1] == body + Pad(n - 1);
      DropPaddingExact(body, n - 1);
    }
  }

  lemma {:induction false} WithoutSpaceNone(s: string)
    requires forall i | 0 <= i < |s| :: !AsciiSpace(s[i])
    ensures WithoutSpace(s) == s
  {
    if s != "" {
      WithoutSpaceNone(s[1..]);
      assert s == [s[0]] + s[1..];
    }
  }

  /** An encoding is the URL form of its letters: the padding is gone. */
  lemma EncodeLetters(data: seq<Byte>)
    ensures Encode(data) == ToUrl(Letters(ToSextets(data)))
  {
    var letters, n := Letters(ToSextets(data)), (3 - |data| % 3) % 3;
    LettersDecode(ToSextets(data));
    assert ToUrl(letters + Pad(n)) == ToUrl(letters) + Pad(n);
    DropPaddingExact(ToUrl(letters), n);
    if data == [] { assert ToUrl(letters) == ""; }
  }

  /** Restored padding is dropped again by `atob`, and nothing else is. */
  lemma AtobPadded(letters: string, n: nat)
    requires InAlphabet(letters) && |letters| % 4 != 1 && n == (4 - |letters| % 4) % 4
    requires forall i | 0 <= i < |letters| :: letters[i] != '=' && !AsciiSpace(letters[i])
    ensures Atob(letters + Pad(n)) == Some(FromSextets(Values(letters)))
  {
    var s := letters + Pad(n);
    WithoutSpaceNone(s);
    PaddingDropped(letters, n);
  }

  lemma PaddingDropped(letters: string, n: nat)
    requires |letters| % 4 != 1 && n == (4 - |letters| % 4) % 4
    requires forall i | 0 <= i < |letters| :: letters[i] != '='
    ensures WithoutPadding(letters + Pad(n)) == letters
  {
    var s := letters + Pad(n);
    assert n <= 2 && |s| % 4 == 0;
    if n > 0 {
      assert s[|s| - 1] == '=' && (s[|s| - 2] == '=' <==> n == 2);
    } else {
      assert s == letters;
    }
  }

  /** Decoding inverts encoding for every byte sequence. */
  lemma DecodeEncode(data: seq<Byte>)
    ensures Decode(Encode(data)) == Some(data)
  {
    var letters := Letters(ToSextets(data));
    EncodeLetters(data);
    LettersDecode(ToSextets(data));
    FromToSextets(data);
    if data == [] {
      assert Encode(data) == "";
    } else {
      assert |letters| > 0;
      DecodeLetters(letters);
    }
  }

  /** Decoding the URL form of letters that miss only their padding. */
  lemma DecodeLetters(letters: string)
    requires letters != "" && InAlphabet(letters) && |letters| % 4 != 1
    requires forall i | 0 <= i < |letters| :: letters[i] != '=' && !AsciiSpace(letters[i])
    requires FromUrl(ToUrl(letters)) == letters
    ensures Decode(ToUrl(letters)) == Some(FromSextets(Values(letters)))
  {
    hide Atob, FromSextets, Values, InAlphabet, ReplaceAll;
    var n := (4 - |letters| % 4) % 4;
    var url := ToUrl(letters);
    assert FromUrl(url + Pad(n)) == FromUrl(url) + Pad(n);
    AtobPadded(letters, n);
  }

  /** The unpadded length, and an alphabet without dots. */
  lemma EncodeShape(data: seq<Byte>)
    ensures |Encode(data)| == (4 * |data| + 2) / 3
    ensures '.' !in Encode(data) && '=' !in Encode(data)
  {
    EncodeLetters(data);
    LettersDecode(ToSextets(data));
  }

  /** Different byte sequences have different encodings. */
  lemma EncodeInjective(a: seq<Byte>, b: seq<Byte>)
    ensures Encode(a) == Encode(b) ==> a == b
  {
    DecodeEncode(a);
    DecodeEncode(b);
  }

  // ---- The letters of RFC 4648 -------------------------------------------------------------

  /** Table 2 of RFC 4648, in the order of the values. */
  const UPPER := "ABCDEFGHIJKLMNOPQRSTUVWXYZ"
  const LOWER := "abcdefghijklmnopqrstuvwxyz"
  const OTHER := "0123456789-_"
  const ALPHABET := UPPER + LOWER + OTHER

  lemma UpperAt(v: nat)
    requires v < 26
    ensures UPPER[v] as int == v + 65 && LOWER[v] as int == v + 97
  {
  }

  lemma UrlOne(c: char)
    ensures ToUrl([c]) == [if c == '+' then '-' else if c == '/' then '_' else c]
  {
  }

  lemma AlphabetAt(v: nat)
    requires v < 64
    ensures |ALPHABET| == 64 && ToUrl([Sextet(v)]) == [ALPHABET[v]]
  {
    UrlOne(Sextet(v));
    hide ReplaceAll, ToUrl;
    if v < 52 { UpperAt(v % 26); }
  }

  /** A byte of the data, or zero beyond its end. */
  function ByteAt(data: seq<Byte>, i: nat): nat {
    if i < |data| then data[i] else 0
  }

  /** The three bytes of a group as one 24-bit number. */
  function GroupNumber(data: seq<Byte>, k: nat): nat {
    ByteAt(data, 3 * k) * 0x1_0000 + ByteAt(data, 3 * k + 1) * 0x100 + ByteAt(data, 3 * k + 2)
  }

  /** The `r`-th six bits of a 24-bit number, from the most significant. */
  function SixBits(n: nat, r: nat): (v: nat)
    ensures v < 64
  {
    if r == 0 then n / 0x4_0000 % 64 else if r == 1 then n / 0x1000 % 64 else if r == 2 then n / 0x40 % 64 else n % 64
  }

  lemma GroupBits(a: Byte, b: Byte, c: Byte, r: nat)
    requires r < 4
    ensures Group(a, b, c)[r] == SixBits(a * 0x1_0000 + b * 0x100 + c, r)
  {
    if r == 0 { FirstBits(a, b, c); }
    else if r == 1 { SecondBits(a, b, c); }
    else if r == 2 { ThirdBits(a, b, c); }
    else { FourthBits(a, b, c); }
  }

  lemma FirstBits(a: Byte, b: Byte, c: Byte)
    ensures (a * 0x1_0000 + b * 0x100 + c) / 0x4_0000 % 64 == a / 4
  {
    assert a * 0x1_0000 + b * 0x100 + c == a / 4 * 0x4_0000 + (a % 4 * 0x1_0000 + b * 0x100 + c);
  }

  lemma SecondBits(a: Byte, b: Byte, c: Byte)
    ensures (a * 0x1_0000 + b * 0x100 + c) / 0x1000 % 64 == a % 4 * 16 + b / 16
  {
    assert a * 0x1_0000 + b * 0x100 + c == (a / 4 * 64 + (a % 4 * 16 + b / 16)) * 0x1000 + (b % 16 * 0x100 + c);
  }

  lemma ThirdBits(a: Byte, b: Byte, c: Byte)
    ensures (a * 0x1_0000 + b * 0x100 + c) / 0x40 % 64 == b % 16 * 4 + c / 64
  {
    assert a * 0x1_0000 + b * 0x100 + c == ((a * 16 + b / 16) * 64 + (b % 16 * 4 + c / 64)) * 0x40 + c % 64;
  }

  lemma FourthBits(a: Byte, b: Byte, c: Byte)
    ensures (a * 0x1_0000 + b * 0x100 + c) % 64 == c % 64
  {
    assert a * 0x1_0000 + b * 0x100 + c == (a * 0x400 + b * 4 + c / 64) * 64 + c % 64;
  }

  lemma {:induction false} SextetBits(data: seq<Byte>, i: nat)
    requires i < |ToSextets(data)|
    ensures ToSextets(data)[i] == SixBits(GroupNumber(data, i / 4), i % 4)
  {
    hide SixBits, Group;
    var a, b, c := ByteAt(data, 0), ByteAt(data, 1), ByteAt(data, 2);
    if i < 4 {
      GroupBits(a, b, c, i);
    } else {
      SextetBits(data[3..], i - 4);
      GroupShift(data, i / 4);
    }
  }

  lemma GroupShift(data: seq<Byte>, k: nat)
    requires |data| >= 3 && k > 0
    ensures GroupNumber(data[3..], k - 1) == GroupNumber(data, k)
  {
  }

  /** Each group of three bytes, zeros added at the end, gives four letters of the alphabet in the order
      of its bits. */
  lemma EncodedLetter(data: seq<Byte>, i: nat)
    requires i < |Encode(data)|
    ensures |ALPHABET| == 64 && Encode(data)[i] == ALPHABET[SixBits(GroupNumber(data, i / 4), i % 4)]
  {
    var v := ToSextets(data);
    EncodeLetters(data);
    SextetBits(data, i);
    AlphabetAt(v[i]);
    assert ToUrl(Letters(v))[i] == ToUrl([Sextet(v[i])])[0];
  }

  // ---- Canonical texts ---------------------------------------------------------------------

  predicate UrlLetter(c: char) {
    'A' <= c <= 'Z' || 'a' <= c <= 'z' || '0' <= c <= '9' || c == '-' || c == '_'
  }

  /** The bits of a final partial group that belong to no byte are zero. */
  predicate SurplusZero(v: seq<nat>) {
    && (|v| % 4 == 2 ==> v[|v| - 1] % 16 == 0)
    && (|v| % 4 == 3 ==> v[|v| - 1] % 4 == 0)
  }

  /** Unpadded, in the URL alphabet, of a possible length, with zero surplus bits. */
  predicate Canonical(s: string) {
    && (forall i | 0 <= i < |s| :: UrlLetter(s[i]))
    && |s| % 4 != 1
    && InAlphabet(FromUrl(s)) && SurplusZero(Values(FromUrl(s)))
  }

  lemma LetterSextet(c: char)
    requires Value(c).Some?
    ensures Sextet(Value(c).value) == c
  {
  }

  lemma {:induction false} ToSextetsSurplus(data: seq<Byte>)
    ensures SurplusZero(ToSextets(data))
  {
    if |data| == 1 {
      assert ToSextets(data)[1] == data[0] % 4 * 16;
    } else if |data| == 2 {
      assert ToSextets(data)[2] == data[1] % 16 * 4;
    } else if |data| >= 3 {
      ToSextetsSurplus(data[3..]);
      SurplusAfterGroup(Group(data[0], data[1], data[2]), ToSextets(data[3..]));
    }
  }

  lemma SurplusAfterGroup(group: seq<nat>, rest: seq<nat>)
    requires |group| == 4 && SurplusZero(rest)
    ensures SurplusZero(group + rest)
  {
    if rest != [] { assert (group + rest)[|group + rest| - 1] == rest[|rest| - 1]; }
  }

  lemma GroupUngroup(v: seq<nat>)
    requires |v| == 4 && AreSextets(v)
    ensures var b := Ungroup(v); Group(b[0], b[1], b[2]) == v
  {
    var b := Ungroup(v);
    assert b[0] / 4 == v[0] && b[0] % 4 == v[1] / 16;
    assert b[1] / 16 == v[1] % 16 && b[1] % 16 == v[2] / 4;
    assert b[2] / 64 == v[2] % 4 && b[2] % 64 == v[3];
  }

  lemma {:induction false} ToFromSextets(v: seq<nat>)
    requires AreSextets(v) && |v| % 4 != 1 && SurplusZero(v)
    ensures ToSextets(FromSextets(v)) == v
  {
    if |v| == 2 {
      PairRegroups(v);
    } else if |v| == 3 {
      TripleRegroups(v);
    } else if |v| >= 4 {
      hide ToSextets, FromSextets, Group, Ungroup;
      var group, rest := v[..4], v[4..];
      assert v == group + rest;
      if rest != [] { assert rest[|rest| - 1] == v[|v| - 1]; }
      ToFromSextets(rest);
      UngroupThenRest(group, rest);
      GroupUngroup(group);
      GroupThenRest(Ungroup(group), FromSextets(rest));
    }
  }

  lemma PairRegroups(v: seq<nat>)
    requires AreSextets(v) && |v| == 2 && v[1] % 16 == 0
    ensures ToSextets(FromSextets(v)) == v
  {
    var b := Ungroup(v + [0, 0]);
    GroupUngroup(v + [0, 0]);
    assert b[1] == 0 && b[2] == 0;
    assert FromSextets(v) == [b[0]];
    assert (v + [0, 0])[..2] == v;
  }

  lemma TripleRegroups(v: seq<nat>)
    requires AreSextets(v) && |v| == 3 && v[2] % 4 == 0
    ensures ToSextets(FromSextets(v)) == v
  {
    var b := Ungroup(v + [0]);
    GroupUngroup(v + [0]);
    assert b[2] == 0;
    assert FromSextets(v) == [b[0], b[1]];
    assert (v + [0])[..3] == v;
  }

  lemma GroupThenRest(b: seq<Byte>, rest: seq<Byte>)
    requires |b| == 3
    ensures ToSextets(b + rest) == Group(b[0], b[1], b[2]) + ToSextets(rest)
  {
    assert (b + rest)[3..] == rest;
  }

  lemma UrlText(s: string)
    requires forall i | 0 <= i < |s| :: UrlLetter(s[i])
    ensures InAlphabet(FromUrl(s)) && ToUrl(FromUrl(s)) == s
    ensures forall i | 0 <= i < |s| :: FromUrl(s)[i] != '=' && !AsciiSpace(FromUrl(s)[i])
    ensures Letters(Values(FromUrl(s))) == FromUrl(s)
  {
    var t := FromUrl(s);
    forall i | 0 <= i < |s| ensures Value(t[i]).Some? && ToUrl(t)[i] == s[i] {}
    forall i | 0 <= i < |s| ensures Letters(Values(t))[i] == t[i] { LetterSextet(t[i]); }
  }

  lemma UrlLetters(v: seq<nat>)
    requires AreSextets(v)
    ensures forall i | 0 <= i < |v| :: UrlLetter(ToUrl(Letters(v))[i])
  {
    forall i | 0 <= i < |v| ensures UrlLetter(ToUrl(Letters(v))[i]) { SextetValue(v[i]); }
  }

  /** Of all texts that decode to the same bytes, exactly the canonical one is what encoding gives:
      a text decodes and is restored by encoding exactly when it is canonical. */
  lemma RestoredIffCanonical(s: string)
    ensures Decode(s).Some? && Encode(Decode(s).value) == s <==> Canonical(s)
  {
    if Canonical(s) { CanonicalRestored(s); }
    if Decode(s).Some? && Encode(Decode(s).value) == s { EncodedCanonical(Decode(s).value); }
  }

  lemma CanonicalRestored(s: string)
    requires Canonical(s)
    ensures Decode(s).Some? && Encode(Decode(s).value) == s
  {
    var letters := FromUrl(s);
    var v := Values(letters);
    UrlText(s);
    if s == "" {
      assert Encode([]) == "";
    } else {
      DecodeLetters(letters);
      ToFromSextets(v);
      EncodeLetters(FromSextets(v));
    }
  }

  lemma EncodedCanonical(data: seq<Byte>)
    ensures Canonical(Encode(data))
  {
    var v := ToSextets(data);
    EncodeLetters(data);
    LettersDecode(v);
    UrlLetters(v);
    ToSextetsSurplus(data);
    hide ToSextets, Encode, SurplusZero, ReplaceAll;
  }

  // ---- Compact tokens --------------------------------------------------------------------

  /** `encodeJwt`, on the UTF-8 bytes of header and payload. */
  function EncodeJwt(header: seq<Byte>, payload: seq<Byte>): string {
    Encode(header) + "." + Encode(payload)
  }

  /** The token `signJwt` returns. */
  function Compact(header: seq<Byte>, payload: seq<Byte>, signature: seq<Byte>): string {
    EncodeJwt(header, payload) + "." + Encode(signature)
  }

  datatype Parts = Parts(header: seq<Byte>, payload: seq<Byte>, signed: string, signature: seq<Byte>)

  /** The three-part split of `verifyJwt`, the two-part split of `decodeJwt`, and the decoding of
      each part. */
  function SplitToken(token: string): Option<Parts> {
    var parts := Split(token, '.');
    if |parts| != 3 then None
    else
      var signed := parts[0] + "." + parts[1];
      var inner := Split(signed, '.');
      if |inner| != 2 then None
      else match (Decode(inner[0]), Decode(inner[1]), Decode(parts[2]))
        case (Some(header), Some(payload), Some(signature)) => Some(Parts(header, payload, signed, signature))
        case _ => None
  }

  lemma TwoParts(h: string, p: string)
    requires '.' !in h && '.' !in p
    ensures Split(h + "." + p, '.') == [h, p]
  {
    SplitHead(h, p, '.');
    SplitSingle(p, '.');
  }

  lemma ThreeParts(h: string, p: string, s: string)
    requires '.' !in h && '.' !in p && '.' !in s
    ensures Split(h + "." + p + "." + s, '.') == [h, p, s]
  {
    var tail := p + "." + s;
    TwoParts(p, s);
    SplitHead(h, tail, '.');
    Regrouped(h, p, s);
  }

  lemma Regrouped(h: string, p: string, s: string)
    ensures h + "." + p + "." + s == h + "." + (p + "." + s)
  {
  }

  /** A compact token splits back into exactly its own parts. */
  lemma TokenRoundTrip(header: seq<Byte>, payload: seq<Byte>, signature: seq<Byte>)
    ensures SplitToken(Compact(header, payload, signature)) ==
            Some(Parts(header, payload, EncodeJwt(header, payload), signature))
  {
    EncodeShape(header);
    EncodeShape(payload);
    EncodeShape(signature);
    ThreeParts(Encode(header), Encode(payload), Encode(signature));
    TwoParts(Encode(header), Encode(payload));
    DecodeEncode(header);
    DecodeEncode(payload);
    DecodeEncode(signature);
  }
}
