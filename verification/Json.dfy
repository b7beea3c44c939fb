/** JSON values without `undefined`, their compact serialization, and the proof that the
    serialization can be read back in only one way. */
module Json {

  /** `Num` carries the text `JSON.stringify` prints for a finite number; an object lists its
      fields in enumeration order. */
  datatype Json =
    | Null
    | Bool(b: bool)
    | Num(lexeme: string)
    | Str(s: string)
    | Arr(items: seq<Json>)
    | Obj(fields: seq<Field>)

  datatype Field = Field(key: string, value: Json)

  predicate NumberChar(c: char) {
    '0' <= c <= '9' || c == '-' || c == '+' || c == '.' || c == 'e'
  }

  ghost predicate WellFormed(v: Json) {
    match v
    case Num(lexeme) => lexeme != "" && forall i | 0 <= i < |lexeme| :: NumberChar(lexeme[i])
    case Arr(items) => forall i | 0 <= i < |items| :: WellFormed(items[i])
    case Obj(fields) =>
      && DistinctKeys(fields)
      && forall i | 0 <= i < |fields| :: WellFormed(fields[i].value)
    case _ => true
  }

  ghost predicate DistinctKeys(fields: seq<Field>) {
    forall i, j | 0 <= i < j < |fields| :: fields[i].key != fields[j].key
  }

  // ---- Serialization ---------------------------------------------------------------------

  function HexDigit(n: nat): char
    requires n < 16
  {
    "0123456789abcdef"[n]
  }

  /** The text of one character inside a JSON string. */
  function EscapeChar(c: char): string {
    if c == '\"' then "\\\""
    else if c == '\\' then "\\\\"
    else if c as int == 8 then "\\b"
    else if c as int == 9 then "\\t"
    else if c as int == 10 then "\\n"
    else if c as int == 12 then "\\f"
    else if c as int == 13 then "\\r"
    else if c as int < 32 then "\\u00" + [HexDigit(c as int / 16), HexDigit(c as int % 16)]
    else [c]
  }

  /** Each printer puts its text in front of what follows it. */
  function PrintChars(s: string, rest: string): string {
    if s == "" then rest else EscapeChar(s[0]) + PrintChars(s[1..], rest)
  }

  function PrintString(s: string, rest: string): string {
    "\"" + PrintChars(s, "\"" + rest)
  }

  function Print(v: Json, rest: string): string
    decreases v, 1
  {
    match v
    case Null => "null" + rest
    case Bool(b) => (if b then "true" else "false") + rest
    case Num(lexeme) => lexeme + rest
    case Str(s) => PrintString(s, rest)
    case Arr(items) => "[" + PrintItems(items, "]" + rest)
    case Obj(fields) => "{" + PrintFields(fields, "}" + rest)
  }

  function PrintItems(items: seq<Json>, rest: string): string
    decreases items, 0
  {
    if items == [] then rest else Print(items[0], ItemsTail(items, rest))
  }

  /** After an element: the closing bracket, or a comma and the remaining elements. */
  function ItemsTail(items: seq<Json>, rest: string): string
    requires items != []
    decreases items, 0, 0
  {
    if |items| == 1 then rest else "," + PrintItems(items[1..], rest)
  }

  function PrintFields(fields: seq<Field>, rest: string): string
    decreases fields, 0
  {
    if fields == [] then rest else
      assert fields[0].value < fields[0];
      PrintString(fields[0].key, ":" + Print(fields[0].value, FieldsTail(fields, rest)))
  }

  function FieldsTail(fields: seq<Field>, rest: string): string
    requires fields != []
    decreases fields, 0, 0
  {
    if |fields| == 1 then rest else "," + PrintFields(fields[1..], rest)
  }

  /** `JSON.stringify` without indentation. */
  function Stringify(v: Json): string {
    Print(v, "")
  }

  // ---- Unique readability ----------------------------------------------------------------

  /** Text that may follow a value: nothing, or a delimiter. */
  predicate Delimited(rest: string) {
    rest == "" || rest[0] == ',' || rest[0] == ']' || rest[0] == '}'
  }

  function HexValue(c: char): nat {
    if '0' <= c <= '9' then c as int - '0' as int
    else if 'a' <= c <= 'f' then c as int - 'a' as int + 10
    else 0
  }

  /** Reads back the first character of an escaped text. */
  function ReadChar(x: string): (char, string)
    requires x != ""
  {
    if x[0] != '\\' || |x| < 2 then (x[0], x[1..])
    else if x[1] == 'u' && |x| >= 6 then
      (((HexValue(x[4]) * 16 + HexValue(x[5])) % 256) as char, x[6..])
    else
      ((match x[1]
        case 'b' => 8 as char
        case 't' => 9 as char
        case 'n' => 10 as char
        case 'f' => 12 as char
        case 'r' => 13 as char
        case c => c), x[2..])
  }

  lemma ReadEscaped(c: char, rest: string)
    ensures ReadChar(EscapeChar(c) + rest) == (c, rest)
    ensures EscapeChar(c)[0] != '\"'
  {
    var e, x := EscapeChar(c), EscapeChar(c) + rest;
    assert x[0] == e[0] && x[|e|..] == rest;
    if |e| >= 2 { assert x[1] == e[1]; }
    if |e| == 6 {
      assert x[4] == e[4] && x[5] == e[5];
      HexRoundTrip(c as int / 16);
      HexRoundTrip(c as int % 16);
    }
  }

  lemma HexRoundTrip(n: nat)
    requires n < 16
    ensures HexValue(HexDigit(n)) == n
  {
  }

  lemma CharsFirst(s: string, rest: string)
    ensures PrintChars(s, "\"" + rest) != ""
    ensures PrintChars(s, "\"" + rest)[0] == '\"' <==> s == ""
  {
    if s != "" { ReadEscaped(s[0], PrintChars(s[1..], "\"" + rest)); }
  }

  lemma {:induction false} CharsUnique(s: string, t: string, r1: string, r2: string)
    requires PrintChars(s, "\"" + r1) == PrintChars(t, "\"" + r2)
    ensures s == t && r1 == r2
  {
    CharsFirst(s, r1);
    CharsFirst(t, r2);
    if s == "" {
      assert ("\"" + r1)[1..] == r1 && ("\"" + r2)[1..] == r2;
    } else {
      ReadEscaped(s[0], PrintChars(s[1..], "\"" + r1));
      ReadEscaped(t[0], PrintChars(t[1..], "\"" + r2));
      CharsUnique(s[1..], t[1..], r1, r2);
      assert s == [s[0]] + s[1..] && t == [t[0]] + t[1..];
    }
  }

  lemma StringUnique(s: string, t: string, r1: string, r2: string)
    requires PrintString(s, r1) == PrintString(t, r2)
    ensures s == t && r1 == r2
  {
    Behind('\"', PrintChars(s, "\"" + r1), PrintChars(t, "\"" + r2));
    CharsUnique(s, t, r1, r2);
  }

  /** Texts that agree behind a common first character. */
  lemma Behind(c: char, x: string, y: string)
    requires [c] + x == [c] + y
    ensures x == y
  {
    assert ([c] + x)[1..] == x && ([c] + y)[1..] == y;
  }

  /** The length of the longest number at the start of a text. */
  function NumberSpan(x: string): nat {
    if x == "" || !NumberChar(x[0]) then 0 else 1 + NumberSpan(x[1..])
  }

  lemma {:induction false} LexemeSpan(m: string, rest: string)
    requires forall i | 0 <= i < |m| :: NumberChar(m[i])
    requires Delimited(rest)
    ensures NumberSpan(m + rest) == |m|
  {
    if m == "" {
      assert m + rest == rest;
    } else {
      LexemeSpan(m[1..], rest);
      assert (m + rest)[1..] == m[1..] + rest;
    }
  }

  /** The kind of a value shows in its first character. */
  function Kind(v: Json): char
    requires WellFormed(v)
  {
    match v
    case Null => 'n'
    case Bool(b) => if b then 't' else 'f'
    case Num(lexeme) => lexeme[0]
    case Str(_) => '\"'
    case Arr(_) => '['
    case Obj(_) => '{'
  }

  lemma FirstChar(v: Json, rest: string)
    requires WellFormed(v)
    ensures Print(v, rest) != "" && Print(v, rest)[0] == Kind(v)
  {
  }

  lemma SpelledUnique(word: string, r1: string, r2: string)
    requires word + r1 == word + r2
    ensures r1 == r2
  {
    assert (word + r1)[|word|..] == r1 && (word + r2)[|word|..] == r2;
  }

  lemma NumUnique(m: string, n: string, r1: string, r2: string)
    requires forall i | 0 <= i < |m| :: NumberChar(m[i])
    requires forall i | 0 <= i < |n| :: NumberChar(n[i])
    requires Delimited(r1) && Delimited(r2) && m + r1 == n + r2
    ensures m == n && r1 == r2
  {
    LexemeSpan(m, r1);
    LexemeSpan(n, r2);
    assert m == (m + r1)[..|m|] && n == (n + r2)[..|m|];
    SpelledUnique(m, r1, r2);
  }

  lemma {:induction false} PrintUnique(v: Json, w: Json, r1: string, r2: string)
    requires WellFormed(v) && WellFormed(w) && Delimited(r1) && Delimited(r2)
    requires Print(v, r1) == Print(w, r2)
    ensures v == w && r1 == r2
    decreases v, 1
  {
    FirstChar(v, r1);
    FirstChar(w, r2);
    match v {
      case Null => SpelledUnique("null", r1, r2);
      case Bool(b) => SpelledUnique(if b then "true" else "false", r1, r2);
      case Num(lexeme) => NumUnique(lexeme, w.lexeme, r1, r2);
      case Str(s) => StringUnique(s, w.s, r1, r2);
      case Arr(items) =>
        Behind('[', PrintItems(items, "]" + r1), PrintItems(w.items, "]" + r2));
        ItemsUnique(items, w.items, r1, r2);
      case Obj(fields) =>
        Behind('{', PrintFields(fields, "}" + r1), PrintFields(w.fields, "}" + r2));
        FieldsUnique(fields, w.fields, r1, r2);
    }
  }

  lemma {:induction false} ItemsUnique(a: seq<Json>, b: seq<Json>, r1: string, r2: string)
    requires forall i | 0 <= i < |a| :: WellFormed(a[i])
    requires forall i | 0 <= i < |b| :: WellFormed(b[i])
    requires PrintItems(a, "]" + r1) == PrintItems(b, "]" + r2)
    ensures a == b && r1 == r2
    decreases a, 0
  {
    if a != [] { FirstChar(a[0], ItemsTail(a, "]" + r1)); }
    if b != [] { FirstChar(b[0], ItemsTail(b, "]" + r2)); }
    if a == [] {
      Behind(']', r1, r2);
    } else {
      PrintUnique(a[0], b[0], ItemsTail(a, "]" + r1), ItemsTail(b, "]" + r2));
      if |a| == 1 {
        Behind(']', r1, r2);
        assert a == [a[0]] && b == [b[0]];
      } else {
        Behind(',', PrintItems(a[1..], "]" + r1), PrintItems(b[1..], "]" + r2));
        ItemsUnique(a[1..], b[1..], r1, r2);
        assert a == [a[0]] + a[1..] && b == [b[0]] + b[1..];
      }
    }
  }

  lemma {:induction false} FieldsUnique(a: seq<Field>, b: seq<Field>, r1: string, r2: string)
    requires forall i | 0 <= i < |a| :: WellFormed(a[i].value)
    requires forall i | 0 <= i < |b| :: WellFormed(b[i].value)
    requires PrintFields(a, "}" + r1) == PrintFields(b, "}" + r2)
    ensures a == b && r1 == r2
    decreases a, 0
  {
    assert PrintFields(a, "}" + r1)[0] == if a == [] then '}' else '\"';
    assert PrintFields(b, "}" + r2)[0] == if b == [] then '}' else '\"';
    if a == [] {
      Behind('}', r1, r2);
    } else {
      var v1, v2 := Print(a[0].value, FieldsTail(a, "}" + r1)), Print(b[0].value, FieldsTail(b, "}" + r2));
      StringUnique(a[0].key, b[0].key, ":" + v1, ":" + v2);
      Behind(':', v1, v2);
      PrintUnique(a[0].value, b[0].value, FieldsTail(a, "}" + r1), FieldsTail(b, "}" + r2));
      if |a| == 1 {
        Behind('}', r1, r2);
        assert a == [a[0]] && b == [b[0]];
      } else {
        Behind(',', PrintFields(a[1..], "}" + r1), PrintFields(b[1..], "}" + r2));
        FieldsUnique(a[1..], b[1..], r1, r2);
        assert a == [a[0]] + a[1..] && b == [b[0]] + b[1..];
      }
    }
  }

  /** Different values never print alike. */
  lemma StringifyInjective(v: Json, w: Json)
    requires WellFormed(v) && WellFormed(w)
    ensures Stringify(v) == Stringify(w) ==> v == w
  {
    if Stringify(v) == Stringify(w) {
      PrintUnique(v, w, "", "");
    }
  }
}
