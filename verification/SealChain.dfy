/** Seal payloads, the link between a seal and its predecessor (packages/seals/src/build.ts) and
    the two chain checks (packages/seals/src/chain-validator.ts). */
module SealChain {
  import opened Sequences
  import opened ScopeDelta
  import Json
  import Canonical

  /** The disclosures a seal carries beside its permissions. */
  datatype Disclosure = Disclosure(
    scopeMode: string,
    adminAccess: Option<Json.Json>,
    trustTier: Option<string>,
    operatorDisclosures: Option<Json.Json>,
    provenanceMap: Option<Json.Json>)

  datatype SealInput = SealInput(
    credentialId: string,
    operatorId: string,
    chatId: string,
    permissions: ScopeSet,
    disclosure: Disclosure,
    bypassed: bool)

  /** `issuedAt` in milliseconds. */
  datatype Payload = Payload(sealId: string, input: SealInput, issuedAt: int)

  datatype Chain = Chain(current: Payload, previous: Option<Payload>, delta: Delta)

  /** A prefix followed by sixteen lowercase hex digits. */
  predicate IsResourceId(prefix: string, id: string) {
    && |id| == |prefix| + 16
    && id[..|prefix|] == prefix
    && forall i | |prefix| <= i < |id| :: '0' <= id[i] <= '9' || 'a' <= id[i] <= 'f'
  }

  /** The same, as a text: the digits are those of lowercase hexadecimal. */
  lemma ResourceIdIff(prefix: string, id: string)
    ensures IsResourceId(prefix, id) <==>
            exists hex: string | |hex| == 16 && (forall c | c in hex :: c in "0123456789abcdef") :: id == prefix + hex
  {
    if IsResourceId(prefix, id) {
      var hex := id[|prefix|..];
      forall c | c in hex ensures c in "0123456789abcdef" { HexLetter(c); }
      assert id == prefix + hex;
    }
    if hex: string :| |hex| == 16 && (forall c | c in hex :: c in "0123456789abcdef") && id == prefix + hex {
      forall i | |prefix| <= i < |id| ensures '0' <= id[i] <= '9' || 'a' <= id[i] <= 'f' {
        assert hex[i - |prefix|] in hex;
        LetterHex(id[i]);
      }
    }
  }

  lemma LetterHex(c: char)
    requires c in "0123456789abcdef"
    ensures '0' <= c <= '9' || 'a' <= c <= 'f'
  {
  }

  lemma HexLetter(c: char)
    requires '0' <= c <= '9' || 'a' <= c <= 'f'
    ensures c in "0123456789abcdef"
  {
    var i := if c <= '9' then c as int - '0' as int else c as int - 'a' as int + 10;
    assert "0123456789abcdef"[i] == c;
  }

  /** `SealPayload.safeParse`: the identifier formats, and a verdict on the remaining fields. */
  predicate SchemaAccepts(p: Payload, restOk: bool) {
    && restOk
    && IsResourceId("seal_", p.sealId)
    && IsResourceId("cred_", p.input.credentialId)
    && IsResourceId("op_", p.input.operatorId)
    && IsResourceId("conv_", p.input.chatId)
  }

  /** `buildSeal`: stamp the input with a fresh id and the time, validate, and link. */
  function BuildSeal(input: SealInput, previous: Option<Payload>, sealId: string, now: int, restOk: bool)
    : Option<Chain>
  {
    var current := Payload(sealId, input, now);
    if !SchemaAccepts(current, restOk) then None
    else Some(Chain(current, previous, ExpectedDelta(previous, current)))
  }

  /** `validateSealChain`. */
  predicate ValidateSealChain(chain: Chain) {
    match chain.previous
    case None => true
    case Some(previous) =>
      && chain.current.input.operatorId == previous.input.operatorId
      && chain.current.input.credentialId == previous.input.credentialId
      && chain.current.input.chatId == previous.input.chatId
      && previous.issuedAt <= chain.current.issuedAt
  }

  function ExpectedDelta(previous: Option<Payload>, current: Payload): Delta {
    if previous.Some?
    then DeltaOf(previous.value.input.permissions, current.input.permissions)
    else EMPTY_DELTA
  }

  /** `verifyChainDelta`. */
  predicate VerifyChainDelta(chain: Chain) {
    DeltaEquals(ExpectedDelta(chain.previous, chain.current), chain.delta)
  }

  /** A seal that `buildSeal` accepts always carries a delta that verifies, and it passes the
      structural check exactly when the input names the predecessor's operator, credential and
      chat and the clock has not gone back. */
  lemma BuiltChainPasses(input: SealInput, previous: Option<Payload>, sealId: string, now: int, restOk: bool)
    requires BuildSeal(input, previous, sealId, now, restOk).Some?
    ensures var chain := BuildSeal(input, previous, sealId, now, restOk).value;
            && VerifyChainDelta(chain)
            && chain.current == Payload(sealId, input, now)
            && chain.delta == ExpectedDelta(previous, chain.current)
            && (ValidateSealChain(chain) <==>
                previous.Some? ==>
                  && input.operatorId == previous.value.input.operatorId
                  && input.credentialId == previous.value.input.credentialId
                  && input.chatId == previous.value.input.chatId
                  && previous.value.issuedAt <= now)
  {
    if previous.Some? {
      DeltaEqualsIff(previous.value.input.permissions, input.permissions,
                     DeltaOf(previous.value.input.permissions, input.permissions));
    }
  }

  /** For any stored chain, whoever wrote it: the delta check accepts exactly the reports a
      recomputation makes, and for a first seal exactly the empty delta. */
  lemma VerifyChainDeltaIff(chain: Chain)
    ensures VerifyChainDelta(chain) <==>
      (if chain.previous.Some?
       then SameReports(DeltaOf(chain.previous.value.input.permissions, chain.current.input.permissions), chain.delta)
       else chain.delta == EMPTY_DELTA)
  {
    if chain.previous.Some? {
      DeltaEqualsIff(chain.previous.value.input.permissions, chain.current.input.permissions, chain.delta);
    }
  }

  // ---- Input comparison ------------------------------------------------------------------

  /** `stableSerialize` of an optional field. */
  function StableSerialize(value: Option<Json.Json>): string {
    match value
    case None => ""
    case Some(v) => Canonical.Canonicalize(v, Canonical.InOrder)
  }

  /** `hasInputChanges`. */
  predicate HasInputChanges(previous: SealInput, next: SealInput) {
    || previous.credentialId != next.credentialId
    || previous.operatorId != next.operatorId
    || previous.chatId != next.chatId
    || previous.disclosure.scopeMode != next.disclosure.scopeMode
    || StableSerialize(previous.disclosure.adminAccess) != StableSerialize(next.disclosure.adminAccess)
    || previous.disclosure.trustTier != next.disclosure.trustTier
    || StableSerialize(previous.disclosure.operatorDisclosures) != StableSerialize(next.disclosure.operatorDisclosures)
    || StableSerialize(previous.disclosure.provenanceMap) != StableSerialize(next.disclosure.provenanceMap)
  }

  ghost predicate WellFormedInput(input: SealInput) {
    var d := input.disclosure;
    && (d.adminAccess.Some? ==> Json.WellFormed(d.adminAccess.value))
    && (d.operatorDisclosures.Some? ==> Json.WellFormed(d.operatorDisclosures.value))
    && (d.provenanceMap.Some? ==> Json.WellFormed(d.provenanceMap.value))
  }

  ghost predicate SameOptional(v: Option<Json.Json>, w: Option<Json.Json>) {
    && (v.Some? <==> w.Some?)
    && (v.Some? ==> Canonical.MeaningOf(v.value, Canonical.InOrder) == Canonical.MeaningOf(w.value, Canonical.InOrder))
  }

  /** Two inputs disclose the same thing: listed permissions as sets, nested metadata up to key
      order. `bypassed` is not compared. */
  ghost predicate SameDisclosure(v: SealInput, w: SealInput) {
    && v.credentialId == w.credentialId && v.operatorId == w.operatorId && v.chatId == w.chatId
    && ListsOf(v.permissions) == ListsOf(w.permissions)
    && v.disclosure.scopeMode == w.disclosure.scopeMode
    && v.disclosure.trustTier == w.disclosure.trustTier
    && SameOptional(v.disclosure.adminAccess, w.disclosure.adminAccess)
    && SameOptional(v.disclosure.operatorDisclosures, w.disclosure.operatorDisclosures)
    && SameOptional(v.disclosure.provenanceMap, w.disclosure.provenanceMap)
  }

  /** The test by which `issue` skips a new seal: the current seal's permissions against the new
      ones, and the input it was built from against the new input. */
  predicate NothingToReport(permissions: ScopeSet, previous: SealInput, next: SealInput) {
    !IsMaterialChange(DeltaOf(permissions, next.permissions)) && !HasInputChanges(previous, next)
  }

  lemma StableSerializeIff(v: Option<Json.Json>, w: Option<Json.Json>)
    requires v.Some? ==> Json.WellFormed(v.value)
    requires w.Some? ==> Json.WellFormed(w.value)
    ensures StableSerialize(v) == StableSerialize(w) <==> SameOptional(v, w)
  {
    if v.Some? {
      Canonical.NormalWellFormed(v.value, Canonical.InOrder);
      Json.FirstChar(Canonical.Normal(v.value, Canonical.InOrder), "");
    }
    if w.Some? {
      Canonical.NormalWellFormed(w.value, Canonical.InOrder);
      Json.FirstChar(Canonical.Normal(w.value, Canonical.InOrder), "");
    }
    if v.Some? && w.Some? {
      Canonical.InOrderUntied(v.value);
      Canonical.CanonicalIffSameMeaning(v.value, w.value, Canonical.InOrder);
    }
  }

  /** The test passes exactly when the new input discloses the same thing. */
  lemma NothingToReportIff(previous: SealInput, next: SealInput)
    requires WellFormedInput(previous) && WellFormedInput(next)
    ensures NothingToReport(previous.permissions, previous, next) <==> SameDisclosure(previous, next)
  {
    MaterialIffListsDiffer(previous.permissions, next.permissions);
    StableSerializeIff(previous.disclosure.adminAccess, next.disclosure.adminAccess);
    StableSerializeIff(previous.disclosure.operatorDisclosures, next.disclosure.operatorDisclosures);
    StableSerializeIff(previous.disclosure.provenanceMap, next.disclosure.provenanceMap);
  }

  // ---- Chain keys ------------------------------------------------------------------------

  function ChainKey(credentialId: string, chatId: string): string {
    credentialId + ":" + chatId
  }

  lemma NoColon(prefix: string, id: string)
    requires IsResourceId(prefix, id) && ':' !in prefix
    ensures ':' !in id
  {
    forall i | 0 <= i < |id| ensures id[i] != ':' {
      if i < |prefix| { assert id[i] == prefix[i]; }
    }
  }

  /** The composite key of a seal belongs to no other pair, well-formed or not. */
  lemma ChainKeyInjective(c1: string, h1: string, c2: string, h2: string)
    requires IsResourceId("cred_", c2) && IsResourceId("conv_", h2)
    ensures ChainKey(c1, h1) == ChainKey(c2, h2) <==> c1 == c2 && h1 == h2
  {
    var k1, k2 := ChainKey(c1, h1), ChainKey(c2, h2);
    NoColon("cred_", c2);
    NoColon("conv_", h2);
    if k1 == k2 {
      assert k2[|c1|] == ':';
      assert |c1| == |c2|;
      assert c1 == k1[..|c1|] && h1 == k1[|c1| + 1..];
      assert c2 == k2[..|c2|] && h2 == k2[|c2| + 1..];
    }
  }

  /** Without the identifier format they can. */
  lemma ChainKeyCollides()
    ensures ChainKey("a:b", "c") == ChainKey("a", "b:c")
  {
    assert ChainKey("a:b", "c") == "a:b:c" == ChainKey("a", "b:c");
  }
}
