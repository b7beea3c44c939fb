/** `String.prototype.split` and `Array.prototype.join` with a one-character separator. */
module Strings {

  function Join(parts: seq<string>, sep: char): string
  {
    if parts == [] then ""
    else if |parts| == 1 then parts[0]
    else parts[0] + [sep] + Join(parts[1..], sep)
  }

  /** The position of the first separator, or the length. */
  function Find(s: string, sep: char): (i: nat)
    ensures i <= |s|
    ensures i < |s| ==> s[i] == sep
    ensures forall j | 0 <= j < i :: s[j] != sep
  {
    if s == "" || s[0] == sep then 0 else 1 + Find(s[1..], sep)
  }

  function Split(s: string, sep: char): (parts: seq<string>)
    ensures parts != []
    decreases |s|
  {
    var i := Find(s, sep);
    if i == |s| then [s] else [s[..i]] + Split(s[i + 1..], sep)
  }

  lemma JoinCons(part: string, rest: seq<string>, sep: char)
    requires rest != []
    ensures Join([part] + rest, sep) == part + [sep] + Join(rest, sep)
  {
    assert ([part] + rest)[1..] == rest;
  }

  /** Joining what was split gives the string back. */
  lemma {:induction false} JoinSplit(s: string, sep: char)
    ensures Join(Split(s, sep), sep) == s
    decreases |s|
  {
    hide Join, Find;
    var i := Find(s, sep);
    if i < |s| {
      var rest := s[i + 1..];
      JoinSplit(rest, sep);
      JoinCons(s[..i], Split(rest, sep), sep);
      assert s == s[..i] + [sep] + rest;
    } else {
      JoinOne(s, sep);
    }
  }

  lemma JoinOne(s: string, sep: char)
    ensures Join([s], sep) == s
  {
  }

  /** No part contains the separator. */
  lemma {:induction false} PartsWithout(s: string, sep: char)
    ensures forall i | 0 <= i < |Split(s, sep)| :: sep !in Split(s, sep)[i]
    decreases |s|
  {
    var i := Find(s, sep);
    assert sep !in s[..i];
    if i < |s| {
      PartsWithout(s[i + 1..], sep);
    } else {
      assert s[..i] == s;
    }
  }

  lemma {:induction false} FindInPrefix(part: string, rest: string, sep: char)
    requires sep !in part && (rest == "" || rest[0] == sep)
    ensures Find(part + rest, sep) == |part|
  {
    if part != "" {
      assert (part + rest)[1..] == part[1..] + rest;
      assert part[0] in part;
      FindInPrefix(part[1..], rest, sep);
    } else {
      assert part + rest == rest;
    }
  }

  lemma SplitHead(part: string, rest: string, sep: char)
    requires sep !in part
    ensures Split(part + [sep] + rest, sep) == [part] + Split(rest, sep)
  {
    var s := part + [sep] + rest;
    assert s == part + ([sep] + rest);
    FindInPrefix(part, [sep] + rest, sep);
    assert s[..|part|] == part && s[|part| + 1..] == rest;
  }

  lemma SplitSingle(part: string, sep: char)
    requires sep !in part
    ensures Split(part, sep) == [part]
  {
    FindInPrefix(part, "", sep);
    assert part + "" == part;
  }

  /** Splitting what was joined gives the parts back, when none contains the separator. */
  lemma {:induction false} SplitJoin(parts: seq<string>, sep: char)
    requires parts != [] && forall i | 0 <= i < |parts| :: sep !in parts[i]
    ensures Split(Join(parts, sep), sep) == parts
  {
    if |parts| == 1 {
      SplitSingle(parts[0], sep);
    } else {
      SplitJoin(parts[1..], sep);
      SplitHead(parts[0], Join(parts[1..], sep), sep);
    }
  }
}
