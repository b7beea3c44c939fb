/** Which messages the invite listener treats as join requests, and how a recovery scan picks one
    message per request (packages/cli/src/invite-host-listener.ts). */
module InviteCandidates {
  import opened Sequences

  /** What `extractJoinRequestContent` sees: plain text, a join request, or neither. */
  datatype Content = Text(text: string) | Request(slug: string) | Opaque

  datatype Message = Message(id: string, sender: string, structured: bool, content: Content, historical: bool)

  predicate IsSpace(c: char) {
    c == ' ' || 9 <= c as int <= 13
  }

  function TrimStart(s: string): string {
    if s != "" && IsSpace(s[0]) then TrimStart(s[1..]) else s
  }

  function TrimEnd(s: string): string {
    if s != "" && IsSpace(s[|s| - 1]) then TrimEnd(s[..|s| - 1]) else s
  }

  function Trim(s: string): string {
    TrimEnd(TrimStart(s))
  }

  function LowerChar(c: char): char {
    if 'A' <= c <= 'Z' then (c as int + 32) as char else c
  }

  function Lower(s: string): string {
    if s == "" then "" else [LowerChar(s[0])] + Lower(s[1..])
  }

  /** The invite slug a message carries, or nothing. */
  function Slug(m: Message): string {
    match m.content
    case Request(slug) => slug
    case Text(text) => Trim(text)
    case Opaque => ""
  }

  /** `resolveInviteRequestKey`. */
  function RequestKey(m: Message): Option<string> {
    if Slug(m) == "" then None else Some(Lower(m.sender) + ":" + Slug(m))
  }

  /** `isInviteCandidate`. */
  predicate IsCandidate(m: Message) {
    && !m.historical
    && (m.structured || (m.content.Text? && |Trim(m.content.text)| >= 50 && ' ' !in Trim(m.content.text)))
  }

  // ---- What identifies a request ---------------------------------------------------------

  /** Outside these positions there is only white space, and none at their ends. */
  predicate TrimmedAt(s: string, i: nat, j: nat) {
    && i <= j <= |s|
    && (forall k | 0 <= k < |s| :: k < i || j <= k ==> IsSpace(s[k]))
    && (i < j ==> !IsSpace(s[i]) && !IsSpace(s[j - 1]))
  }

  lemma {:induction false} TrimStartAt(s: string) returns (i: nat)
    ensures i <= |s| && TrimStart(s) == s[i..]
    ensures (forall k | 0 <= k < i :: IsSpace(s[k])) && (i < |s| ==> !IsSpace(s[i]))
  {
    i := 0;
    if s != "" && IsSpace(s[0]) {
      var n := TrimStartAt(s[1..]);
      i := n + 1;
      assert forall k | 0 < k < |s| :: s[k] == s[1..][k - 1];
    }
  }

  lemma {:induction false} TrimEndAt(s: string) returns (j: nat)
    ensures j <= |s| && TrimEnd(s) == s[..j]
    ensures (forall k | j <= k < |s| :: IsSpace(s[k])) && (j > 0 ==> !IsSpace(s[j - 1]))
  {
    j := |s|;
    if s != "" && IsSpace(s[|s| - 1]) { j := TrimEndAt(s[..|s| - 1]); }
  }

  lemma TrimAt(s: string) returns (i: nat, j: nat)
    ensures TrimmedAt(s, i, j) && Trim(s) == s[i..j]
  {
    i := TrimStartAt(s);
    var n := TrimEndAt(s[i..]);
    j := i + n;
    assert forall k | i <= k < |s| :: s[k] == s[i..][k - i];
  }

  /** Whatever is so placed is the trimmed text. */
  lemma TrimUnique(s: string, i: nat, j: nat)
    requires TrimmedAt(s, i, j)
    ensures Trim(s) == s[i..j]
  {
    var a, b := TrimAt(s);
    if i < j { assert !IsSpace(s[i]) && !IsSpace(s[j - 1]); }
    if a < b { assert !IsSpace(s[a]) && !IsSpace(s[b - 1]); }
  }

  /** A message is a candidate exactly when it is not historical and is either structured or a text
      with one unbroken word of at least fifty characters between white space. */
  lemma CandidateIff(m: Message)
    ensures IsCandidate(m) <==>
            && !m.historical
            && (m.structured ||
                (m.content.Text? && exists i: nat, j: nat ::
                   TrimmedAt(m.content.text, i, j) && j - i >= 50 && ' ' !in m.content.text[i..j]))
  {
    if m.content.Text? {
      var text := m.content.text;
      var a, b := TrimAt(text);
      forall i: nat, j: nat | TrimmedAt(text, i, j) ensures text[i..j] == Trim(text) && |Trim(text)| == j - i {
        TrimUnique(text, i, j);
      }
    }
  }

  /** Equal letters, or the two cases of one ASCII letter. */
  predicate SameLetter(a: char, b: char) {
    a == b || ('A' <= a <= 'Z' && b as int == a as int + 32) || ('A' <= b <= 'Z' && a as int == b as int + 32)
  }

  predicate SameIgnoringCase(a: string, b: string) {
    |a| == |b| && forall i | 0 <= i < |a| :: SameLetter(a[i], b[i])
  }

  lemma {:induction false} LowerIff(a: string, b: string)
    ensures |Lower(a)| == |a| && (':' !in a ==> ':' !in Lower(a))
    ensures Lower(a) == Lower(b) <==> SameIgnoringCase(a, b)
  {
    if a != "" && b != "" {
      LowerIff(a[1..], b[1..]);
      assert Lower(a) == [LowerChar(a[0])] + Lower(a[1..]) && Lower(b) == [LowerChar(b[0])] + Lower(b[1..]);
      assert Lower(a)[1..] == Lower(a[1..]) && Lower(b)[1..] == Lower(b[1..]);
      assert SameIgnoringCase(a, b) ==> SameIgnoringCase(a[1..], b[1..]);
    } else if a != "" {
      LowerIff(a[1..], "");
    }
    if b != "" && a == "" { assert Lower(b) != ""; }
  }

  /** Two requests have one key exactly when one sender, ignoring case, sent one slug; a message
      without a slug has none. */
  lemma RequestKeyIff(m: Message, n: Message)
    requires ':' !in m.sender && ':' !in n.sender && Slug(m) != ""
    ensures RequestKey(m) == RequestKey(n) <==> SameIgnoringCase(m.sender, n.sender) && Slug(m) == Slug(n)
  {
    LowerIff(m.sender, n.sender);
    LowerIff(n.sender, m.sender);
    var a, b := Lower(m.sender), Lower(n.sender);
    if RequestKey(m) == RequestKey(n) {
      var key := RequestKey(m).value;
      assert key[|a|] == ':' && key[|b|] == ':';
      assert |a| == |b|;
      assert key[..|a|] == a && key[..|b|] == b && key[|a| + 1..] == Slug(m) && key[|b| + 1..] == Slug(n);
    }
  }

  /** The key under which a scan files a message. */
  function FilingKey(m: Message): string {
    match RequestKey(m)
    case Some(key) => key
    case None => m.id
  }

  /** `preferInviteCandidate`. */
  function Prefer(current: Option<Message>, candidate: Message): Message {
    match current
    case None => candidate
    case Some(m) => if candidate.structured && !m.structured then candidate else m
  }

  /** Whether a scan considers a message at all. */
  predicate Eligible(m: Message, processedIds: set<string>, processedKeys: set<string>) {
    && IsCandidate(m)
    && m.id !in processedIds
    && (RequestKey(m).Some? ==> RequestKey(m).value !in processedKeys)
  }

  /** One page of an identity's messages as they are visited, with the processed sets as they are when
      the page has arrived: other calls may have grown them since the page before. */
  datatype Page = Page(messages: seq<Message>, processedIds: set<string>, processedKeys: set<string>)

  function FiledUnder(page: Page, key: string): Message -> bool {
    (m: Message) => Eligible(m, page.processedIds, page.processedKeys) && FilingKey(m) == key
  }

  /** The eligible messages filed under one key, in scan order over all pages. */
  function Filed(pages: seq<Page>, key: string): seq<Message> {
    if pages == [] then [] else
      var n := |pages| - 1;
      Filed(pages[..n], key) + Filter(pages[n].messages, FiledUnder(pages[n], key))
  }

  /** Which of several messages for one request a scan reports: the first structured one if there
      is any, and the first one otherwise. */
  function Winner(filed: seq<Message>): Option<Message> {
    if filed == [] then None else
      match FirstStructured(filed)
      case Some(m) => Some(m)
      case None => Some(filed[0])
  }

  function FirstStructured(filed: seq<Message>): Option<Message> {
    if filed == [] then None
    else if filed[0].structured then Some(filed[0])
    else FirstStructured(filed[1..])
  }

  lemma {:induction false} FirstStructuredSnoc(filed: seq<Message>, m: Message)
    ensures FirstStructured(filed + [m]) ==
      match FirstStructured(filed) case Some(w) => Some(w) case None => if m.structured then Some(m) else None
    ensures FirstStructured(filed).Some? ==> FirstStructured(filed).value.structured
  {
    if filed == [] {
      assert [m][1..] == [];
    } else {
      assert (filed + [m])[1..] == filed[1..] + [m];
      FirstStructuredSnoc(filed[1..], m);
    }
  }

  lemma {:induction false} NoStructured(filed: seq<Message>)
    ensures FirstStructured(filed).None? ==> forall i | 0 <= i < |filed| :: !filed[i].structured
  {
    if filed != [] { NoStructured(filed[1..]); }
  }

  /** The structured message at `i` is the first. */
  ghost predicate FirstAt(filed: seq<Message>, i: int) {
    0 <= i < |filed| && filed[i].structured && forall j | 0 <= j < i :: !filed[j].structured
  }

  lemma {:induction false} FirstStructuredAt(filed: seq<Message>) returns (i: int)
    ensures FirstStructured(filed).Some? ==> FirstAt(filed, i) && FirstStructured(filed) == Some(filed[i])
    ensures FirstStructured(filed).None? ==> forall j | 0 <= j < |filed| :: !filed[j].structured
  {
    i := 0;
    if filed != [] && !filed[0].structured {
      i := FirstStructuredAt(filed[1..]);
      i := i + 1;
      assert forall j | 0 < j < |filed| :: filed[j] == filed[1..][j - 1];
    }
  }

  /** The winner is the first structured message, if there is one, and the first message otherwise. */
  lemma WinnerIsFirst(filed: seq<Message>)
    ensures Winner(filed).None? <==> filed == []
    ensures forall i | FirstAt(filed, i) :: Winner(filed) == Some(filed[i])
    ensures filed != [] && (forall j | 0 <= j < |filed| :: !filed[j].structured) ==> Winner(filed) == Some(filed[0])
  {
    var i := FirstStructuredAt(filed);
  }

  /** The page offers the message under the key: a candidate whose id was not processed when the page
      arrived and whose request key, or whose id for want of one, is that key and was not either. */
  ghost predicate Offers(page: Page, key: string, m: Message) {
    && m in page.messages && IsCandidate(m) && m.id !in page.processedIds
    && (if RequestKey(m).Some? then RequestKey(m) == Some(key) && key !in page.processedKeys else m.id == key)
  }

  lemma PageOffers(page: Page, key: string, m: Message)
    ensures m in Filter(page.messages, FiledUnder(page, key)) <==> Offers(page, key, m)
  {
    FilterMembers(page.messages, FiledUnder(page, key));
  }

  lemma {:induction false} FiledMembers(pages: seq<Page>, key: string, m: Message)
    ensures m in Filed(pages, key) <==> exists k | 0 <= k < |pages| :: Offers(pages[k], key, m)
  {
    if pages != [] {
      hide Offers, Filter;
      var n := |pages| - 1;
      FiledMembers(pages[..n], key, m);
      PageOffers(pages[n], key, m);
      if k :| 0 <= k < n && Offers(pages[..n][k], key, m) { assert Offers(pages[k], key, m); }
      if k :| 0 <= k < |pages| && Offers(pages[k], key, m) && k < n { assert Offers(pages[..n][k], key, m); }
    }
  }

  /** Preferring message by message ends with the winner. */
  lemma PreferReachesWinner(filed: seq<Message>, m: Message)
    ensures Winner(filed + [m]) == Some(Prefer(Winner(filed), m))
  {
    FirstStructuredSnoc(filed, m);
    NoStructured(filed);
  }

  function Lookup(found: map<string, Message>, key: string): Option<Message> {
    if key in found then Some(found[key]) else None
  }

  lemma NothingFiled(page: Page, key: string)
    ensures Filter(page.messages[..0], FiledUnder(page, key)) == []
  {
  }

  /** One more message of a page. */
  lemma FileOne(found: map<string, Message>, filed: seq<Message>, page: Page, j: nat, key: string)
    requires j < |page.messages|
    requires Lookup(found, key) == Winner(filed + Filter(page.messages[..j], FiledUnder(page, key)))
    ensures var m := page.messages[j];
            Winner(filed + Filter(page.messages[..j + 1], FiledUnder(page, key))) ==
            if FiledUnder(page, key)(m) then Some(Prefer(Lookup(found, key), m)) else Lookup(found, key)
  {
    var m, earlier := page.messages[j], Filter(page.messages[..j], FiledUnder(page, key));
    FilterSnoc(page.messages, j, FiledUnder(page, key));
    if FiledUnder(page, key)(m) {
      assert filed + (earlier + [m]) == (filed + earlier) + [m];
      PreferReachesWinner(filed + earlier, m);
    } else {
      assert earlier + [] == earlier;
    }
  }

  /** The filing loops of a scan: for every key exactly its winner over all pages, and nothing for
      a key under which nothing is filed. */
  method CollectCandidates(pages: seq<Page>) returns (found: map<string, Message>)
    ensures forall key :: Lookup(found, key) == Winner(Filed(pages, key))
  {
    found := map[];
    assert forall key :: Winner(Filed(pages[..0], key)) == None;
    hide Winner, Filter;
    for i := 0 to |pages|
      invariant forall key :: Lookup(found, key) == Winner(Filed(pages[..i], key))
    {
      var page := pages[i];
      forall key
        ensures Filed(pages[..i], key) + Filter(page.messages[..0], FiledUnder(page, key)) == Filed(pages[..i], key)
      {
        NothingFiled(page, key);
      }
      for j := 0 to |page.messages|
        invariant forall key ::
                    Lookup(found, key) ==
                    Winner(Filed(pages[..i], key) + Filter(page.messages[..j], FiledUnder(page, key)))
      {
        var m := page.messages[j];
        var before := found;
        if Eligible(m, page.processedIds, page.processedKeys) {
          var key := FilingKey(m);
          found := found[key := Prefer(Lookup(found, key), m)];
        }
        forall key
          ensures Lookup(found, key) ==
                  Winner(Filed(pages[..i], key) + Filter(page.messages[..j + 1], FiledUnder(page, key)))
        {
          FileOne(before, Filed(pages[..i], key), page, j, key);
        }
      }
      assert page.messages[..|page.messages|] == page.messages;
      assert pages[..i + 1][..i] == pages[..i];
    }
    assert pages[..|pages|] == pages;
  }
}
