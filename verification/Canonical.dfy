/** Canonical forms: recursive key sorting before signing
    (packages/seals/src/canonicalize.ts) and the key-and-array sorting behind the policy hash
    (packages/sessions/src/policy-hash.ts). */
module Canonical {
  import opened Ordering
  import opened Bags
  import opened Json

  /** What the canonical form must preserve: objects as maps, arrays as sequences or, for the
      policy hash, as bags. */
  datatype Meaning =
    | MNull
    | MBool(b: bool)
    | MNum(lexeme: string)
    | MStr(s: string)
    | MSeq(items: seq<Meaning>)
    | MBag(bag: multiset<Meaning>)
    | MMap(fields: map<string, Meaning>)

  /** What happens to arrays: they keep their order, or are sorted by a comparison of their items'
      texts and so stand for bags. */
  datatype Arrays = InOrder | AsBags(le: (string, string) -> bool)

  ghost function MeaningOf(v: Json, arrays: Arrays): Meaning
    decreases v, 1
  {
    match v
    case Null => MNull
    case Bool(b) => MBool(b)
    case Num(lexeme) => MNum(lexeme)
    case Str(s) => MStr(s)
    case Arr(items) => if arrays.AsBags? then MBag(multiset(Meanings(items, arrays))) else MSeq(Meanings(items, arrays))
    case Obj(fields) => MMap(ToMap(Entries(fields, arrays)))
  }

  ghost function Meanings(items: seq<Json>, arrays: Arrays): seq<Meaning>
    decreases items, 0
  {
    if items == [] then [] else [MeaningOf(items[0], arrays)] + Meanings(items[1..], arrays)
  }

  ghost function Entries(fields: seq<Field>, arrays: Arrays): seq<(string, Meaning)>
    decreases fields, 0
  {
    if fields == [] then [] else
      assert fields[0].value < fields[0];
      [(fields[0].key, MeaningOf(fields[0].value, arrays))] + Entries(fields[1..], arrays)
  }

  // ---- The two normal forms --------------------------------------------------------------

  predicate FieldLe(x: Field, y: Field) {
    StringLe(x.key, y.key)
  }

  /** `JSON.stringify(left).localeCompare(JSON.stringify(right)) <= 0`. */
  function ItemLe(arrays: Arrays): (Json, Json) -> bool
    requires arrays.AsBags?
  {
    (x: Json, y: Json) => arrays.le(Stringify(x), Stringify(y))
  }

  /** `sortKeys` with arrays in order, `normalize` with arrays as bags. */
  function Normal(v: Json, arrays: Arrays): Json
    decreases v, 1
  {
    match v
    case Arr(items) =>
      var normals := NormalItems(items, arrays);
      Arr(if arrays.AsBags? then SortBy(ItemLe(arrays), normals) else normals)
    case Obj(fields) => Obj(SortBy(FieldLe, NormalFields(fields, arrays)))
    case _ => v
  }

  function NormalItems(items: seq<Json>, arrays: Arrays): seq<Json>
    decreases items, 0
  {
    if items == [] then [] else [Normal(items[0], arrays)] + NormalItems(items[1..], arrays)
  }

  function NormalFields(fields: seq<Field>, arrays: Arrays): seq<Field>
    decreases fields, 0
  {
    if fields == [] then [] else
      assert fields[0].value < fields[0];
      [Field(fields[0].key, Normal(fields[0].value, arrays))] + NormalFields(fields[1..], arrays)
  }

  /** `canonicalize`: the text that is signed or hashed. */
  function Canonicalize(v: Json, arrays: Arrays): string {
    Stringify(Normal(v, arrays))
  }

  // ---- The lists above as maps over their elements ---------------------------------------

  ghost function Means(arrays: Arrays): Json -> Meaning {
    v => MeaningOf(v, arrays)
  }

  ghost function Entry(arrays: Arrays): Field -> (string, Meaning) {
    (f: Field) => (f.key, MeaningOf(f.value, arrays))
  }

  ghost function Normals(arrays: Arrays): Json -> Json {
    v => Normal(v, arrays)
  }

  ghost function NormalField(arrays: Arrays): Field -> Field {
    (f: Field) => Field(f.key, Normal(f.value, arrays))
  }

  lemma MeaningsMap(items: seq<Json>, arrays: Arrays)
    ensures Meanings(items, arrays) == MapSeq(Means(arrays), items)
  {
    if items != [] { MeaningsMap(items[1..], arrays); }
  }

  lemma EntriesMap(fields: seq<Field>, arrays: Arrays)
    ensures Entries(fields, arrays) == MapSeq(Entry(arrays), fields)
  {
    if fields != [] { EntriesMap(fields[1..], arrays); }
  }

  lemma NormalItemsMap(items: seq<Json>, arrays: Arrays)
    ensures NormalItems(items, arrays) == MapSeq(Normals(arrays), items)
  {
    if items != [] { NormalItemsMap(items[1..], arrays); }
  }

  lemma NormalFieldsMap(fields: seq<Field>, arrays: Arrays)
    ensures NormalFields(fields, arrays) == MapSeq(NormalField(arrays), fields)
  {
    if fields != [] { NormalFieldsMap(fields[1..], arrays); }
  }

  lemma ItemAt(items: seq<Json>, i: nat, arrays: Arrays)
    requires i < |items|
    ensures |Meanings(items, arrays)| == |items| == |NormalItems(items, arrays)|
    ensures Meanings(items, arrays)[i] == MeaningOf(items[i], arrays)
    ensures NormalItems(items, arrays)[i] == Normal(items[i], arrays)
  {
    MeaningsMap(items, arrays);
    NormalItemsMap(items, arrays);
    MapSeqAt(Means(arrays), items, i);
    MapSeqAt(Normals(arrays), items, i);
  }

  lemma FieldAt(fields: seq<Field>, i: nat, arrays: Arrays)
    requires i < |fields|
    ensures |Entries(fields, arrays)| == |fields| == |NormalFields(fields, arrays)|
    ensures Entries(fields, arrays)[i] == (fields[i].key, MeaningOf(fields[i].value, arrays))
    ensures NormalFields(fields, arrays)[i] == Field(fields[i].key, Normal(fields[i].value, arrays))
  {
    EntriesMap(fields, arrays);
    NormalFieldsMap(fields, arrays);
    MapSeqAt(Entry(arrays), fields, i);
    MapSeqAt(NormalField(arrays), fields, i);
  }

  // ---- The normal form represents the meaning --------------------------------------------

  lemma EntriesDistinct(fields: seq<Field>, arrays: Arrays)
    requires DistinctKeys(fields)
    ensures DistinctFirst(Entries(fields, arrays))
  {
    EntriesMap(fields, arrays);
    forall i | 0 <= i < |fields| ensures Entries(fields, arrays)[i].0 == fields[i].key {
      FieldAt(fields, i, arrays);
    }
  }

  /** Permuting fields keeps their keys distinct. */
  lemma DistinctPermutation(s: seq<Field>, t: seq<Field>)
    requires DistinctKeys(s) && multiset(s) == multiset(t)
    ensures DistinctKeys(t)
  {
    SameMembers(s, t);
    forall i, j | 0 <= i < j < |t| ensures t[i].key != t[j].key {
      assert t[i] in s && t[j] in s;
      SingleCount(s, t[i]);
      if t[i] == t[j] { DoubleCount(t, i, j); }
    }
  }

  lemma {:induction false} NormalWellFormed(v: Json, arrays: Arrays)
    requires WellFormed(v)
    ensures WellFormed(Normal(v, arrays))
  {
    match v {
      case Arr(items) =>
        ItemsWellFormed(items, arrays);
        if arrays.AsBags? {
          SameMembers(NormalItems(items, arrays), SortBy(ItemLe(arrays), NormalItems(items, arrays)));
        }
      case Obj(fields) =>
        FieldsWellFormed(fields, arrays);
        var normals := NormalFields(fields, arrays);
        var sorted := SortBy(FieldLe, normals);
        DistinctPermutation(normals, sorted);
        SameMembers(normals, sorted);
        forall i | 0 <= i < |sorted| ensures WellFormed(sorted[i].value) { assert sorted[i] in normals; }
      case _ =>
    }
  }

  lemma {:induction false} ItemsWellFormed(items: seq<Json>, arrays: Arrays)
    requires forall i | 0 <= i < |items| :: WellFormed(items[i])
    ensures forall x | x in NormalItems(items, arrays) :: WellFormed(x)
    decreases items
  {
    if items != [] {
      NormalWellFormed(items[0], arrays);
      ItemsWellFormed(items[1..], arrays);
    }
  }

  lemma {:induction false} FieldsWellFormed(fields: seq<Field>, arrays: Arrays)
    requires forall i | 0 <= i < |fields| :: WellFormed(fields[i].value)
    ensures forall f | f in NormalFields(fields, arrays) :: WellFormed(f.value)
    ensures DistinctKeys(fields) ==> DistinctKeys(NormalFields(fields, arrays))
    decreases fields
  {
    if fields != [] {
      assert fields[0].value < fields[0];
      NormalWellFormed(fields[0].value, arrays);
      FieldsWellFormed(fields[1..], arrays);
    }
    forall i | 0 <= i < |fields|
      ensures |NormalFields(fields, arrays)| == |fields| && NormalFields(fields, arrays)[i].key == fields[i].key
    {
      FieldAt(fields, i, arrays);
    }
    NormalFieldsMap(fields, arrays);
  }

  lemma {:induction false} NormalKeepsMeaning(v: Json, arrays: Arrays)
    requires WellFormed(v)
    ensures MeaningOf(Normal(v, arrays), arrays) == MeaningOf(v, arrays)
    decreases v, 1
  {
    match v {
      case Arr(items) =>
        ItemsKeepMeaning(items, arrays);
        if arrays.AsBags? {
          var normals := NormalItems(items, arrays);
          MeaningsMap(normals, arrays);
          MeaningsMap(SortBy(ItemLe(arrays), normals), arrays);
          MapPermutation(Means(arrays), SortBy(ItemLe(arrays), normals), normals);
        }
      case Obj(fields) =>
        FieldsKeepMeaning(fields, arrays);
        FieldsWellFormed(fields, arrays);
        var normals := NormalFields(fields, arrays);
        var sorted := SortBy(FieldLe, normals);
        EntriesMap(normals, arrays);
        EntriesMap(sorted, arrays);
        MapPermutation(Entry(arrays), sorted, normals);
        DistinctPermutation(normals, sorted);
        EntriesDistinct(normals, arrays);
        EntriesDistinct(sorted, arrays);
        ToMapIffBag(Entries(sorted, arrays), Entries(normals, arrays));
      case _ =>
    }
  }

  lemma {:induction false} ItemsKeepMeaning(items: seq<Json>, arrays: Arrays)
    requires forall i | 0 <= i < |items| :: WellFormed(items[i])
    ensures Meanings(NormalItems(items, arrays), arrays) == Meanings(items, arrays)
    decreases items, 0
  {
    if items != [] {
      NormalKeepsMeaning(items[0], arrays);
      ItemsKeepMeaning(items[1..], arrays);
      assert NormalItems(items, arrays)[1..] == NormalItems(items[1..], arrays);
    }
  }

  lemma {:induction false} FieldsKeepMeaning(fields: seq<Field>, arrays: Arrays)
    requires forall i | 0 <= i < |fields| :: WellFormed(fields[i].value)
    ensures Entries(NormalFields(fields, arrays), arrays) == Entries(fields, arrays)
    decreases fields, 0
  {
    if fields != [] {
      assert fields[0].value < fields[0];
      NormalKeepsMeaning(fields[0].value, arrays);
      FieldsKeepMeaning(fields[1..], arrays);
      assert NormalFields(fields, arrays)[1..] == NormalFields(fields[1..], arrays);
    }
  }

  lemma FieldOrder()
    ensures TotalPreorder(FieldLe)
  {
    forall x, y ensures FieldLe(x, y) || FieldLe(y, x) { StringLeTotal(x.key, y.key); }
    forall x, y, z | FieldLe(x, y) && FieldLe(y, z) ensures FieldLe(x, z) {
      StringLeTransitive(x.key, y.key, z.key);
    }
  }

  /** Comparing texts is a total preorder. */
  ghost predicate Ordered(arrays: Arrays) {
    arrays.AsBags? ==> TotalPreorder(arrays.le)
  }

  /** In every array of the value the comparison ties no two different normal items. */
  ghost predicate Untied(v: Json, arrays: Arrays)
    decreases v
  {
    match v
    case Arr(items) =>
      && (arrays.AsBags? ==> AntisymmetricOn(ItemLe(arrays), NormalItems(items, arrays)))
      && (forall x | x in items :: Untied(x, arrays))
    case Obj(fields) => forall f | f in fields :: (assert f.value < f; Untied(f.value, arrays))
    case _ => true
  }

  /** The comparison ties no two different normal forms at all. */
  ghost predicate Separates(arrays: Arrays) {
    arrays.AsBags? ==>
      forall x, y | NormalForm(x, arrays) && NormalForm(y, arrays)
                    && ItemLe(arrays)(x, y) && ItemLe(arrays)(y, x) :: x == y
  }

  ghost predicate NormalForm(x: Json, arrays: Arrays) {
    WellFormed(x) && Normal(x, arrays) == x
  }

  lemma ItemOrder(arrays: Arrays)
    requires arrays.AsBags? && TotalPreorder(arrays.le)
    ensures TotalPreorder(ItemLe(arrays))
  {
    var le := ItemLe(arrays);
    forall x, y ensures le(x, y) || le(y, x) {
      assert arrays.le(Stringify(x), Stringify(y)) || arrays.le(Stringify(y), Stringify(x));
    }
    forall x, y, z | le(x, y) && le(y, z) ensures le(x, z) {
      assert arrays.le(Stringify(x), Stringify(y)) && arrays.le(Stringify(y), Stringify(z));
    }
  }

  lemma FieldLeSeparates(fields: seq<Field>)
    requires DistinctKeys(fields)
    ensures AntisymmetricOn(FieldLe, fields)
  {
    forall x, y | x in fields && y in fields && FieldLe(x, y) && FieldLe(y, x) ensures x == y {
      StringLeTotal(x.key, y.key);
    }
  }

  // ---- Normal forms are stable -----------------------------------------------------------

  /** Canonicalising twice changes nothing, whether or not the comparison ties. */
  lemma {:induction false} NormalIdempotent(v: Json, arrays: Arrays)
    requires WellFormed(v) && Ordered(arrays)
    ensures Normal(Normal(v, arrays), arrays) == Normal(v, arrays)
    decreases v
  {
    match v {
      case Arr(items) =>
        forall x | x in items ensures Normal(Normal(x, arrays), arrays) == Normal(x, arrays) {
          NormalIdempotent(x, arrays);
        }
        ArrayStable(items, arrays);
      case Obj(fields) =>
        forall f | f in fields ensures Normal(Normal(f.value, arrays), arrays) == Normal(f.value, arrays) {
          assert f.value < f;
          NormalIdempotent(f.value, arrays);
        }
        ObjectStable(fields, arrays);
      case _ =>
    }
  }

  lemma AllNormal(items: seq<Json>, arrays: Arrays)
    requires forall x | x in items :: Normal(x, arrays) == x
    ensures NormalItems(items, arrays) == items
  {
    NormalItemsMap(items, arrays);
    forall i | 0 <= i < |items| ensures NormalItems(items, arrays)[i] == items[i] { ItemAt(items, i, arrays); }
  }

  lemma ArrayStable(items: seq<Json>, arrays: Arrays)
    requires Ordered(arrays)
    requires forall x | x in items :: Normal(Normal(x, arrays), arrays) == Normal(x, arrays)
    ensures Normal(Normal(Arr(items), arrays), arrays) == Normal(Arr(items), arrays)
  {
    var normals := NormalItems(items, arrays);
    NormalItemsMap(items, arrays);
    forall x | x in normals ensures Normal(x, arrays) == x {
      var i :| 0 <= i < |normals| && normals[i] == x;
      ItemAt(items, i, arrays);
      assert items[i] in items;
    }
    if arrays.AsBags? {
      var sorted := SortBy(ItemLe(arrays), normals);
      ItemOrder(arrays);
      SameMembers(sorted, normals);
      AllNormal(sorted, arrays);
      SortBySorted(ItemLe(arrays), normals);
      SortSorted(ItemLe(arrays), sorted);
    } else {
      AllNormal(normals, arrays);
    }
  }

  lemma ObjectStable(fields: seq<Field>, arrays: Arrays)
    requires forall f | f in fields :: Normal(Normal(f.value, arrays), arrays) == Normal(f.value, arrays)
    ensures Normal(Normal(Obj(fields), arrays), arrays) == Normal(Obj(fields), arrays)
  {
    var normals := NormalFields(fields, arrays);
    var sorted := SortBy(FieldLe, normals);
    forall f | f in normals ensures Normal(f.value, arrays) == f.value {
      NormalFieldsMap(fields, arrays);
      var i :| 0 <= i < |normals| && normals[i] == f;
      FieldAt(fields, i, arrays);
      assert fields[i] in fields;
    }
    SameMembers(sorted, normals);
    AllFieldsNormal(sorted, arrays);
    FieldOrder();
    SortBySorted(FieldLe, normals);
    SortSorted(FieldLe, sorted);
  }

  lemma AllFieldsNormal(fields: seq<Field>, arrays: Arrays)
    requires forall f | f in fields :: Normal(f.value, arrays) == f.value
    ensures NormalFields(fields, arrays) == fields
  {
    NormalFieldsMap(fields, arrays);
    forall i | 0 <= i < |fields| ensures NormalFields(fields, arrays)[i] == fields[i] {
      FieldAt(fields, i, arrays);
      assert fields[i] in fields;
    }
  }

  /** Two values with the same meaning have the same normal form. */
  lemma {:induction false} NormalDetermined(v: Json, w: Json, arrays: Arrays)
    requires WellFormed(v) && WellFormed(w) && Ordered(arrays) && Untied(v, arrays)
    requires MeaningOf(v, arrays) == MeaningOf(w, arrays)
    ensures Normal(v, arrays) == Normal(w, arrays)
    decreases v
  {
    match v {
      case Arr(items) =>
        forall x, y | x in items && y in w.items && MeaningOf(x, arrays) == MeaningOf(y, arrays)
          ensures Normal(x, arrays) == Normal(y, arrays)
        {
          NormalDetermined(x, y, arrays);
        }
        if arrays.AsBags? {
          BagsDetermined(items, w.items, arrays);
        } else {
          ListsDetermined(items, w.items, arrays);
        }
      case Obj(fields) =>
        forall x, y | x in fields && y in w.fields && MeaningOf(x.value, arrays) == MeaningOf(y.value, arrays)
          ensures Normal(x.value, arrays) == Normal(y.value, arrays)
        {
          assert x.value < x;
          NormalDetermined(x.value, y.value, arrays);
        }
        FieldsDetermined(fields, w.fields, arrays);
      case _ =>
    }
  }

  lemma {:induction false} ListsDetermined(a: seq<Json>, b: seq<Json>, arrays: Arrays)
    requires Meanings(a, arrays) == Meanings(b, arrays)
    requires forall x, y | x in a && y in b && MeaningOf(x, arrays) == MeaningOf(y, arrays) ::
               Normal(x, arrays) == Normal(y, arrays)
    ensures NormalItems(a, arrays) == NormalItems(b, arrays)
  {
    MeaningsMap(a, arrays);
    MeaningsMap(b, arrays);
    if a != [] {
      ItemAt(a, 0, arrays);
      ItemAt(b, 0, arrays);
      assert a[0] in a && b[0] in b;
      assert Meanings(a, arrays)[1..] == Meanings(a[1..], arrays);
      assert Meanings(b, arrays)[1..] == Meanings(b[1..], arrays);
      ListsDetermined(a[1..], b[1..], arrays);
    }
  }

  lemma BagsDetermined(a: seq<Json>, b: seq<Json>, arrays: Arrays)
    requires arrays.AsBags? && Ordered(arrays) && AntisymmetricOn(ItemLe(arrays), NormalItems(a, arrays))
    requires multiset(Meanings(a, arrays)) == multiset(Meanings(b, arrays))
    requires forall x, y | x in a && y in b && MeaningOf(x, arrays) == MeaningOf(y, arrays) ::
               Normal(x, arrays) == Normal(y, arrays)
    ensures SortBy(ItemLe(arrays), NormalItems(a, arrays)) == SortBy(ItemLe(arrays), NormalItems(b, arrays))
  {
    MeaningsMap(a, arrays);
    MeaningsMap(b, arrays);
    NormalItemsMap(a, arrays);
    NormalItemsMap(b, arrays);
    assert Finer(Means(arrays), Normals(arrays), a, b);
    BagMatch(Means(arrays), Normals(arrays), a, b);
    ItemOrder(arrays);
    SortCanonical(ItemLe(arrays), NormalItems(a, arrays), NormalItems(b, arrays));
  }

  lemma FieldsDetermined(a: seq<Field>, b: seq<Field>, arrays: Arrays)
    requires WellFormed(Obj(a)) && WellFormed(Obj(b))
    requires ToMap(Entries(a, arrays)) == ToMap(Entries(b, arrays))
    requires forall x, y | x in a && y in b && MeaningOf(x.value, arrays) == MeaningOf(y.value, arrays) ::
               Normal(x.value, arrays) == Normal(y.value, arrays)
    ensures SortBy(FieldLe, NormalFields(a, arrays)) == SortBy(FieldLe, NormalFields(b, arrays))
  {
    EntriesDistinct(a, arrays);
    EntriesDistinct(b, arrays);
    ToMapIffBag(Entries(a, arrays), Entries(b, arrays));
    EntriesMap(a, arrays);
    EntriesMap(b, arrays);
    NormalFieldsMap(a, arrays);
    NormalFieldsMap(b, arrays);
    assert Finer(Entry(arrays), NormalField(arrays), a, b);
    BagMatch(Entry(arrays), NormalField(arrays), a, b);
    FieldOrder();
    FieldsWellFormed(a, arrays);
    FieldLeSeparates(NormalFields(a, arrays));
    SortCanonical(FieldLe, NormalFields(a, arrays), NormalFields(b, arrays));
  }

  // ---- The order of a normal form --------------------------------------------------------

  /** Keys come in lexicographic order and, where arrays stand for bags, items in that of the
      comparison of their texts, at every depth. */
  ghost predicate Ascending(v: Json, arrays: Arrays)
    decreases v
  {
    match v
    case Arr(items) =>
      && (arrays.AsBags? ==>
            forall i, j | 0 <= i < j < |items| :: arrays.le(Stringify(items[i]), Stringify(items[j])))
      && (forall x | x in items :: Ascending(x, arrays))
    case Obj(fields) =>
      && (forall i, j | 0 <= i < j < |fields| :: StringLe(fields[i].key, fields[j].key))
      && (forall f | f in fields :: (assert f.value < f; Ascending(f.value, arrays)))
    case _ => true
  }

  lemma {:induction false} NormalAscending(v: Json, arrays: Arrays)
    requires Ordered(arrays)
    ensures Ascending(Normal(v, arrays), arrays)
    decreases v
  {
    match v {
      case Arr(items) =>
        forall x | x in items ensures Ascending(Normal(x, arrays), arrays) { NormalAscending(x, arrays); }
        ItemsAscending(items, arrays);
      case Obj(fields) =>
        forall f | f in fields ensures Ascending(Normal(f.value, arrays), arrays) {
          assert f.value < f;
          NormalAscending(f.value, arrays);
        }
        FieldsAscending(fields, arrays);
      case _ =>
    }
  }

  lemma ItemsAscending(items: seq<Json>, arrays: Arrays)
    requires Ordered(arrays) && forall x | x in items :: Ascending(Normal(x, arrays), arrays)
    ensures Ascending(Normal(Arr(items), arrays), arrays)
  {
    var normals := NormalItems(items, arrays);
    NormalItemsAscend(items, arrays);
    if arrays.AsBags? { ItemsSorted(normals, arrays); }
    hide Ordered, Stringify, NormalItems, SortBy, ItemLe;
  }

  lemma {:induction false} NormalItemsAscend(items: seq<Json>, arrays: Arrays)
    requires forall x | x in items :: Ascending(Normal(x, arrays), arrays)
    ensures forall x | x in NormalItems(items, arrays) :: Ascending(x, arrays)
  {
    hide Ascending, Normal;
    if items != [] { NormalItemsAscend(items[1..], arrays); }
  }

  lemma ItemsSorted(normals: seq<Json>, arrays: Arrays)
    requires arrays.AsBags? && Ordered(arrays)
    ensures var sorted := SortBy(ItemLe(arrays), normals);
            && (forall i, j | 0 <= i < j < |sorted| :: arrays.le(Stringify(sorted[i]), Stringify(sorted[j])))
            && forall x :: x in sorted <==> x in normals
  {
    var sorted := SortBy(ItemLe(arrays), normals);
    ItemOrder(arrays);
    SortBySorted(ItemLe(arrays), normals);
    SameMembers(normals, sorted);
    forall i, j | 0 <= i < j < |sorted| ensures ItemLe(arrays)(sorted[i], sorted[j]) {
      SortedAt(ItemLe(arrays), sorted, i, j);
    }
  }

  lemma FieldsAscending(fields: seq<Field>, arrays: Arrays)
    requires forall f | f in fields :: Ascending(Normal(f.value, arrays), arrays)
    ensures Ascending(Normal(Obj(fields), arrays), arrays)
  {
    NormalFieldsAscend(fields, arrays);
    FieldsSorted(NormalFields(fields, arrays));
    hide NormalFields, SortBy, StringLe;
  }

  lemma {:induction false} NormalFieldsAscend(fields: seq<Field>, arrays: Arrays)
    requires forall f | f in fields :: Ascending(Normal(f.value, arrays), arrays)
    ensures forall f | f in NormalFields(fields, arrays) :: Ascending(f.value, arrays)
  {
    hide Ascending, Normal;
    if fields != [] { NormalFieldsAscend(fields[1..], arrays); }
  }

  lemma FieldsSorted(normals: seq<Field>)
    ensures var sorted := SortBy(FieldLe, normals);
            && (forall i, j | 0 <= i < j < |sorted| :: StringLe(sorted[i].key, sorted[j].key))
            && forall f :: f in sorted <==> f in normals
  {
    var sorted := SortBy(FieldLe, normals);
    FieldOrder();
    SortBySorted(FieldLe, normals);
    SameMembers(normals, sorted);
    forall i, j | 0 <= i < j < |sorted| ensures FieldLe(sorted[i], sorted[j]) { SortedAt(FieldLe, sorted, i, j); }
  }

  // ---- Main results ----------------------------------------------------------------------

  /** Two values have the same canonical text exactly when they are equal up to the order of
      object keys and, as bags, of array elements, if the comparison ties no two different items
      of an array of one of them. */
  lemma CanonicalIffSameMeaning(v: Json, w: Json, arrays: Arrays)
    requires WellFormed(v) && WellFormed(w) && Ordered(arrays) && Untied(v, arrays)
    ensures Canonicalize(v, arrays) == Canonicalize(w, arrays) <==> MeaningOf(v, arrays) == MeaningOf(w, arrays)
  {
    NormalWellFormed(v, arrays);
    NormalWellFormed(w, arrays);
    StringifyInjective(Normal(v, arrays), Normal(w, arrays));
    NormalKeepsMeaning(v, arrays);
    NormalKeepsMeaning(w, arrays);
    if MeaningOf(v, arrays) == MeaningOf(w, arrays) {
      NormalDetermined(v, w, arrays);
    }
  }

  lemma ItemsNormalForm(items: seq<Json>, arrays: Arrays)
    requires Ordered(arrays) && forall i | 0 <= i < |items| :: WellFormed(items[i])
    ensures forall x | x in NormalItems(items, arrays) :: NormalForm(x, arrays)
  {
    var normals := NormalItems(items, arrays);
    NormalItemsMap(items, arrays);
    forall x | x in normals ensures NormalForm(x, arrays) {
      var i :| 0 <= i < |normals| && normals[i] == x;
      ItemAt(items, i, arrays);
      NormalWellFormed(items[i], arrays);
      NormalIdempotent(items[i], arrays);
    }
  }

  lemma {:induction false} SeparatesUntied(v: Json, arrays: Arrays)
    requires WellFormed(v) && Ordered(arrays) && Separates(arrays)
    ensures Untied(v, arrays)
    decreases v
  {
    match v {
      case Arr(items) =>
        ItemsNormalForm(items, arrays);
        forall x | x in items ensures Untied(x, arrays) { SeparatesUntied(x, arrays); }
      case Obj(fields) =>
        forall f | f in fields ensures Untied(f.value, arrays) {
          assert f.value < f;
          SeparatesUntied(f.value, arrays);
        }
      case _ =>
    }
  }

  /** With arrays in order there is nothing to tie. */
  lemma {:induction false} InOrderUntied(v: Json)
    ensures Untied(v, InOrder)
    decreases v
  {
    match v {
      case Arr(items) => forall x | x in items ensures Untied(x, InOrder) { InOrderUntied(x); }
      case Obj(fields) =>
        forall f | f in fields ensures Untied(f.value, InOrder) {
          assert f.value < f;
          InOrderUntied(f.value);
        }
      case _ =>
    }
  }

  /** Canonical texts stand for meanings on all values exactly when the comparison ties no two
      different normal forms. */
  ghost predicate Faithful(arrays: Arrays) {
    forall v, w | WellFormed(v) && WellFormed(w) ::
      Canonicalize(v, arrays) == Canonicalize(w, arrays) <==> MeaningOf(v, arrays) == MeaningOf(w, arrays)
  }

  lemma FaithfulIffSeparates(arrays: Arrays)
    requires Ordered(arrays)
    ensures Faithful(arrays) <==> Separates(arrays)
  {
    if Separates(arrays) {
      forall v, w | WellFormed(v) && WellFormed(w)
        ensures Canonicalize(v, arrays) == Canonicalize(w, arrays) <==> MeaningOf(v, arrays) == MeaningOf(w, arrays)
      {
        SeparatesUntied(v, arrays);
        CanonicalIffSameMeaning(v, w, arrays);
      }
    }
    if Faithful(arrays) && arrays.AsBags? {
      forall x, y | NormalForm(x, arrays) && NormalForm(y, arrays) && ItemLe(arrays)(x, y) && ItemLe(arrays)(y, x)
        ensures x == y
      {
        TiedPair(x, y, arrays);
        StringifyInjective(Arr([x, y]), Arr([y, x]));
        assert Arr([x, y]).items[0] == Arr([y, x]).items[0];
      }
    }
  }

  /** Two tied normal forms, in either order, are one bag but two normal arrays. */
  lemma TiedPair(x: Json, y: Json, arrays: Arrays)
    requires arrays.AsBags? && NormalForm(x, arrays) && NormalForm(y, arrays)
    requires ItemLe(arrays)(x, y) && ItemLe(arrays)(y, x)
    ensures WellFormed(Arr([x, y])) && WellFormed(Arr([y, x]))
    ensures Normal(Arr([x, y]), arrays) == Arr([x, y]) && Normal(Arr([y, x]), arrays) == Arr([y, x])
    ensures MeaningOf(Arr([x, y]), arrays) == MeaningOf(Arr([y, x]), arrays)
  {
    hide Normal, Meanings, Stringify, ItemLe;
    OrderedPair(x, y, arrays);
    OrderedPair(y, x, arrays);
    var m, n := MeaningOf(x, arrays), MeaningOf(y, arrays);
    assert multiset([m, n]) == multiset([n, m]);
  }

  lemma OrderedPair(x: Json, y: Json, arrays: Arrays)
    requires arrays.AsBags? && NormalForm(x, arrays) && NormalForm(y, arrays) && ItemLe(arrays)(x, y)
    ensures Normal(Arr([x, y]), arrays) == Arr([x, y])
    ensures Meanings([x, y], arrays) == [MeaningOf(x, arrays), MeaningOf(y, arrays)]
  {
    var le := ItemLe(arrays);
    assert [x, y][1..] == [y] && [y][1..] == [];
    assert NormalItems([y], arrays) == [y];
    assert NormalItems([x, y], arrays) == [x, y];
    assert SortBy(le, [y]) == [y];
    assert SortBy(le, [x, y]) == [x, y];
    assert Meanings([y], arrays) == [MeaningOf(y, arrays)];
  }

  // ---- The loops of the program ----------------------------------------------------------

  function KeysOf(fields: seq<Field>): (r: seq<string>)
    ensures |r| == |fields|
    ensures forall i | 0 <= i < |fields| :: r[i] == fields[i].key
  {
    seq(|fields|, i requires 0 <= i < |fields| => fields[i].key)
  }

  /** `value[key]`, and the position it is found at. */
  method IndexOfKey(fields: seq<Field>, key: string) returns (i: nat)
    requires key in KeysOf(fields)
    ensures i < |fields| && fields[i].key == key
  {
    i := 0;
    while fields[i].key != key
      invariant i < |fields|
      invariant forall j | 0 <= j < i :: fields[j].key != key
      decreases |fields| - i
    {
      assert exists j | 0 <= j < |fields| :: KeysOf(fields)[j] == key;
      i := i + 1;
    }
  }

  ghost function KeyOf(): Field -> string {
    (f: Field) => f.key
  }

  ghost function Itself(): Field -> Field {
    (f: Field) => f
  }

  lemma KeysMap(fields: seq<Field>)
    ensures MapSeq(KeyOf(), fields) == KeysOf(fields)
  {
    forall i | 0 <= i < |fields| ensures MapSeq(KeyOf(), fields)[i] == fields[i].key {
      MapSeqAt(KeyOf(), fields, i);
    }
  }

  /** Fields taken from a list with distinct keys, with the same keys as the list. */
  lemma KeysDetermineFields(built: seq<Field>, fields: seq<Field>)
    requires DistinctKeys(fields)
    requires forall i | 0 <= i < |built| :: built[i] in fields
    requires multiset(KeysOf(built)) == multiset(KeysOf(fields))
    ensures multiset(built) == multiset(fields)
  {
    KeysMap(built);
    KeysMap(fields);
    assert Finer(KeyOf(), Itself(), built, fields);
    BagMatch(KeyOf(), Itself(), built, fields);
    MapIdentity(Itself(), built);
    MapIdentity(Itself(), fields);
  }

  lemma NormalKeys(fields: seq<Field>, arrays: Arrays)
    ensures KeysOf(NormalFields(fields, arrays)) == KeysOf(fields)
  {
    NormalFieldsMap(fields, arrays);
    forall i | 0 <= i < |fields| ensures NormalFields(fields, arrays)[i].key == fields[i].key {
      FieldAt(fields, i, arrays);
    }
  }

  /** A sorted list of keys names each field once; the fields built in that order are the
      sorted normal fields. */
  lemma BuiltInKeyOrder(fields: seq<Field>, built: seq<Field>, arrays: Arrays)
    requires WellFormed(Obj(fields))
    requires KeysOf(built) == SortBy(StringLe, KeysOf(fields))
    requires forall i | 0 <= i < |built| :: built[i] in NormalFields(fields, arrays)
    ensures built == SortBy(FieldLe, NormalFields(fields, arrays))
  {
    var normals := NormalFields(fields, arrays);
    FieldsWellFormed(fields, arrays);
    NormalKeys(fields, arrays);
    KeysDetermineFields(built, normals);
    StringOrder();
    FieldOrder();
    SortBySorted(StringLe, KeysOf(fields));
    SortedByKey(KeysOf(built), built);
    SortBySorted(FieldLe, normals);
    FieldLeSeparates(normals);
    SameMembers(built, normals);
    SortedUnique(FieldLe, built, SortBy(FieldLe, normals));
  }

  lemma {:induction false} SortedByKey(keys: seq<string>, fields: seq<Field>)
    requires |keys| == |fields| && Sorted(StringLe, keys)
    requires forall i | 0 <= i < |keys| :: fields[i].key == keys[i]
    ensures Sorted(FieldLe, fields)
  {
    if keys != [] {
      SortedByKey(keys[1..], fields[1..]);
      forall f | f in fields[1..] ensures FieldLe(fields[0], f) {
        var i :| 0 <= i < |fields[1..]| && fields[1..][i] == f;
        assert keys[1..][i] in keys[1..];
      }
    }
  }

  /** The `map` over an array. */
  method NormalizeItems(items: seq<Json>, arrays: Arrays) returns (out: seq<Json>)
    requires forall i | 0 <= i < |items| :: WellFormed(items[i])
    ensures out == NormalItems(items, arrays)
    decreases items, 0
  {
    out := [];
    NormalItemsMap(items, arrays);
    for i := 0 to |items|
      invariant |out| == i && |NormalItems(items, arrays)| == |items|
      invariant forall j | 0 <= j < i :: out[j] == NormalItems(items, arrays)[j]
    {
      var item := Normalize(items[i], arrays);
      ItemAt(items, i, arrays);
      out := out + [item];
    }
  }

  /** The loop that rebuilds an object by looking its keys up in sorted order. */
  method NormalizeFields(fields: seq<Field>, arrays: Arrays) returns (built: seq<Field>)
    requires WellFormed(Obj(fields))
    ensures built == SortBy(FieldLe, NormalFields(fields, arrays))
    decreases fields, 0
  {
    var keys := SortBy(StringLe, KeysOf(fields));
    SameMembers(keys, KeysOf(fields));
    built := [];
    for i := 0 to |keys|
      invariant |built| == i
      invariant forall j | 0 <= j < i :: built[j].key == keys[j] && built[j] in NormalFields(fields, arrays)
    {
      var k := IndexOfKey(fields, keys[i]);
      assert fields[k].value < fields[k];
      var value := Normalize(fields[k].value, arrays);
      FieldAt(fields, k, arrays);
      assert Field(keys[i], value) == NormalFields(fields, arrays)[k];
      built := built + [Field(keys[i], value)];
    }
    assert KeysOf(built) == keys;
    BuiltInKeyOrder(fields, built, arrays);
  }

  /** `sortKeys` and `normalize`: arrays are mapped, and sorted for the policy hash; an object is
      rebuilt in key order. */
  method Normalize(v: Json, arrays: Arrays) returns (r: Json)
    requires WellFormed(v)
    ensures r == Normal(v, arrays)
    decreases v, 1
  {
    match v {
      case Arr(items) =>
        var out := NormalizeItems(items, arrays);
        r := Arr(if arrays.AsBags? then SortBy(ItemLe(arrays), out) else out);
      case Obj(fields) =>
        var built := NormalizeFields(fields, arrays);
        r := Obj(built);
      case _ =>
        r := v;
    }
  }

  // ---- The policy hash -------------------------------------------------------------------

  function Strings(s: seq<string>): (r: seq<Json>)
    ensures |r| == |s| && forall i | 0 <= i < |s| :: r[i] == Str(s[i])
  {
    seq(|s|, i requires 0 <= i < |s| => Str(s[i]))
  }

  /** The object that `computePolicyHash` hashes. */
  function PolicyJson(allow: seq<string>, deny: seq<string>, chatIds: seq<string>): Json {
    Obj([Field("scopes", Obj([Field("allow", Arr(Strings(allow))), Field("deny", Arr(Strings(deny)))])),
         Field("chatIds", Arr(Strings(chatIds)))])
  }

  function PolicyText(allow: seq<string>, deny: seq<string>, chatIds: seq<string>, arrays: Arrays): string {
    Canonicalize(PolicyJson(allow, deny, chatIds), arrays)
  }

  ghost function AsMeaning(): string -> Meaning {
    (x: string) => MStr(x)
  }

  ghost function AsString(): string -> string {
    (x: string) => x
  }

  lemma StringsMap(s: seq<string>, arrays: Arrays)
    ensures Meanings(Strings(s), arrays) == MapSeq(AsMeaning(), s)
  {
    MeaningsMap(Strings(s), arrays);
    forall i | 0 <= i < |s| ensures Meanings(Strings(s), arrays)[i] == MapSeq(AsMeaning(), s)[i] {
      ItemAt(Strings(s), i, arrays);
      MapSeqAt(AsMeaning(), s, i);
    }
  }

  lemma StringsMeaning(s: seq<string>, t: seq<string>, arrays: Arrays)
    ensures multiset(Meanings(Strings(s), arrays)) == multiset(Meanings(Strings(t), arrays)) <==>
      multiset(s) == multiset(t)
  {
    StringsMap(s, arrays);
    StringsMap(t, arrays);
    if multiset(s) == multiset(t) {
      MapPermutation(AsMeaning(), s, t);
    }
    if multiset(MapSeq(AsMeaning(), s)) == multiset(MapSeq(AsMeaning(), t)) {
      assert Finer(AsMeaning(), AsString(), s, t);
      BagMatch(AsMeaning(), AsString(), s, t);
      MapIdentity(AsString(), s);
      MapIdentity(AsString(), t);
    }
  }

  ghost function BagOf(s: seq<string>, arrays: Arrays): Meaning {
    MBag(multiset(Meanings(Strings(s), arrays)))
  }

  lemma PolicyMeaning(allow: seq<string>, deny: seq<string>, chatIds: seq<string>, arrays: Arrays)
    requires arrays.AsBags?
    ensures MeaningOf(PolicyJson(allow, deny, chatIds), arrays) ==
            PolicyMap(BagOf(allow, arrays), BagOf(deny, arrays), BagOf(chatIds, arrays))
  {
    var inner := [Field("allow", Arr(Strings(allow))), Field("deny", Arr(Strings(deny)))];
    var outer := [Field("scopes", Obj(inner)), Field("chatIds", Arr(Strings(chatIds)))];
    PairMap(inner[0], inner[1], arrays);
    PairMap(outer[0], outer[1], arrays);
  }

  lemma PolicyWellFormed(allow: seq<string>, deny: seq<string>, chatIds: seq<string>)
    ensures WellFormed(PolicyJson(allow, deny, chatIds))
  {
    var inner := [Field("allow", Arr(Strings(allow))), Field("deny", Arr(Strings(deny)))];
    assert WellFormed(inner[0].value) && WellFormed(inner[1].value);
    assert WellFormed(Obj(inner));
    var outer := [Field("scopes", Obj(inner)), Field("chatIds", Arr(Strings(chatIds)))];
    assert WellFormed(outer[0].value) && WellFormed(outer[1].value);
  }

  /** The comparison ties no two different strings of the list. */
  ghost predicate UntiedStrings(s: seq<string>, arrays: Arrays)
    requires arrays.AsBags?
  {
    forall x, y | x in s && y in s && ItemLe(arrays)(Str(x), Str(y)) && ItemLe(arrays)(Str(y), Str(x)) :: x == y
  }

  lemma StringsUntied(s: seq<string>, arrays: Arrays)
    requires arrays.AsBags? && UntiedStrings(s, arrays)
    ensures Untied(Arr(Strings(s)), arrays)
  {
    var items := Strings(s);
    forall x | x in items ensures Normal(x, arrays) == x && Untied(x, arrays) && x.Str? && x.s in s {}
    AllNormal(items, arrays);
  }

  lemma PolicyUntied(allow: seq<string>, deny: seq<string>, chatIds: seq<string>, arrays: Arrays)
    requires arrays.AsBags?
    requires UntiedStrings(allow, arrays) && UntiedStrings(deny, arrays) && UntiedStrings(chatIds, arrays)
    ensures Untied(PolicyJson(allow, deny, chatIds), arrays)
  {
    StringsUntied(allow, arrays);
    StringsUntied(deny, arrays);
    StringsUntied(chatIds, arrays);
    var inner := [Field("allow", Arr(Strings(allow))), Field("deny", Arr(Strings(deny)))];
    assert Untied(Obj(inner), arrays);
  }

  lemma PairMap(f: Field, g: Field, arrays: Arrays)
    requires f.key != g.key
    ensures ToMap(Entries([f, g], arrays))
      == map[f.key := MeaningOf(f.value, arrays), g.key := MeaningOf(g.value, arrays)]
  {
    assert [f, g][1..] == [g] && [g][1..] == [];
    assert Entries([], arrays) == [];
    assert Entries([g], arrays) == [(g.key, MeaningOf(g.value, arrays))];
    var e := [(f.key, MeaningOf(f.value, arrays)), (g.key, MeaningOf(g.value, arrays))];
    assert Entries([f, g], arrays) == e;
    assert e[1..] == [(g.key, MeaningOf(g.value, arrays))];
    assert e[1..][1..] == [];
    assert ToMap(e[1..]) == map[g.key := MeaningOf(g.value, arrays)];
  }

  /** The meaning of a policy, from the meanings of its three lists. */
  ghost function PolicyMap(allow: Meaning, deny: Meaning, chatIds: Meaning): Meaning {
    MMap(map["scopes" := MMap(map["allow" := allow, "deny" := deny]), "chatIds" := chatIds])
  }

  lemma PolicyMapInjective(a1: Meaning, d1: Meaning, c1: Meaning, a2: Meaning, d2: Meaning, c2: Meaning)
    ensures PolicyMap(a1, d1, c1) == PolicyMap(a2, d2, c2) <==> a1 == a2 && d1 == d2 && c1 == c2
  {
    var m, n := PolicyMap(a1, d1, c1), PolicyMap(a2, d2, c2);
    if m == n {
      assert m.fields["scopes"] == n.fields["scopes"] && m.fields["chatIds"] == n.fields["chatIds"];
      var x, y := m.fields["scopes"].fields, n.fields["scopes"].fields;
      assert x["allow"] == y["allow"] && x["deny"] == y["deny"];
    }
  }

  /** Two policies are hashed from the same text exactly when they list the same scopes and
      chats, in any order: a permission list counts repetitions. */
  lemma PolicyTextIff(a1: seq<string>, d1: seq<string>, c1: seq<string>,
                      a2: seq<string>, d2: seq<string>, c2: seq<string>, arrays: Arrays)
    requires arrays.AsBags? && Ordered(arrays)
    requires UntiedStrings(a1, arrays) && UntiedStrings(d1, arrays) && UntiedStrings(c1, arrays)
    ensures PolicyText(a1, d1, c1, arrays) == PolicyText(a2, d2, c2, arrays) <==>
      multiset(a1) == multiset(a2) && multiset(d1) == multiset(d2) && multiset(c1) == multiset(c2)
  {
    hide MeaningOf, Meanings, PolicyJson, Canonicalize, Untied, UntiedStrings, Ordered, WellFormed, PolicyMap, Strings;
    PolicyUntied(a1, d1, c1, arrays);
    PolicyWellFormed(a1, d1, c1);
    PolicyWellFormed(a2, d2, c2);
    CanonicalIffSameMeaning(PolicyJson(a1, d1, c1), PolicyJson(a2, d2, c2), arrays);
    PolicyMeaning(a1, d1, c1, arrays);
    PolicyMeaning(a2, d2, c2, arrays);
    PolicyMapInjective(BagOf(a1, arrays), BagOf(d1, arrays), BagOf(c1, arrays),
                       BagOf(a2, arrays), BagOf(d2, arrays), BagOf(c2, arrays));
    StringsMeaning(a1, a2, arrays);
    StringsMeaning(d1, d2, arrays);
    StringsMeaning(c1, c2, arrays);
  }

  // ---- Which policies are hashed whatever their order ------------------------------------

  /** A list as the policy text prints it. */
  function Listing(s: seq<string>, arrays: Arrays): seq<Json>
    requires arrays.AsBags?
  {
    SortBy(ItemLe(arrays), Strings(s))
  }

  lemma ListingNormal(s: seq<string>, arrays: Arrays)
    requires arrays.AsBags?
    ensures Normal(Arr(Strings(s)), arrays) == Arr(Listing(s, arrays))
  {
    AllNormal(Strings(s), arrays);
  }

  /** The fields of a sorted object with two keys can be read back. */
  lemma SortedPair(f1: Field, g1: Field, f2: Field, g2: Field)
    requires f1.key == f2.key != g1.key == g2.key
    requires SortBy(FieldLe, [f1, g1]) == SortBy(FieldLe, [f2, g2])
    ensures f1 == f2 && g1 == g2
  {
    assert multiset([f1, g1]) == multiset([f2, g2]);
    assert f1 in multiset([f2, g2]) && g1 in multiset([f2, g2]);
  }

  lemma NormalPair(f: Field, g: Field, arrays: Arrays)
    ensures Normal(Obj([f, g]), arrays) ==
            Obj(SortBy(FieldLe, [Field(f.key, Normal(f.value, arrays)), Field(g.key, Normal(g.value, arrays))]))
  {
    assert [f, g][1..] == [g] && [g][1..] == [];
    assert NormalFields([g], arrays) == [Field(g.key, Normal(g.value, arrays))];
  }

  /** The scopes object of a policy, normalised. */
  function NormalScopes(allow: seq<string>, deny: seq<string>, arrays: Arrays): Json
    requires arrays.AsBags?
  {
    Obj(SortBy(FieldLe, [Field("allow", Arr(Listing(allow, arrays))), Field("deny", Arr(Listing(deny, arrays)))]))
  }

  lemma NormalPolicy(allow: seq<string>, deny: seq<string>, chatIds: seq<string>, arrays: Arrays)
    requires arrays.AsBags?
    ensures Normal(PolicyJson(allow, deny, chatIds), arrays) ==
            Obj(SortBy(FieldLe, [Field("scopes", NormalScopes(allow, deny, arrays)),
                                 Field("chatIds", Arr(Listing(chatIds, arrays)))]))
  {
    hide Normal, Listing, SortBy;
    var f, g := Field("allow", Arr(Strings(allow))), Field("deny", Arr(Strings(deny)));
    ListingNormal(allow, arrays);
    ListingNormal(deny, arrays);
    ListingNormal(chatIds, arrays);
    NormalPair(f, g, arrays);
    NormalPair(Field("scopes", Obj([f, g])), Field("chatIds", Arr(Strings(chatIds))), arrays);
  }

  /** Equal policy texts print the same lists. */
  lemma PolicyTextListings(a1: seq<string>, d1: seq<string>, c1: seq<string>,
                           a2: seq<string>, d2: seq<string>, c2: seq<string>, arrays: Arrays)
    requires arrays.AsBags? && PolicyText(a1, d1, c1, arrays) == PolicyText(a2, d2, c2, arrays)
    ensures Listing(a1, arrays) == Listing(a2, arrays)
    ensures Listing(d1, arrays) == Listing(d2, arrays)
    ensures Listing(c1, arrays) == Listing(c2, arrays)
  {
    hide Listing, SortBy, Normal, PolicyJson, WellFormed;
    var p1, p2 := PolicyJson(a1, d1, c1), PolicyJson(a2, d2, c2);
    PolicyWellFormed(a1, d1, c1);
    PolicyWellFormed(a2, d2, c2);
    NormalWellFormed(p1, arrays);
    NormalWellFormed(p2, arrays);
    StringifyInjective(Normal(p1, arrays), Normal(p2, arrays));
    NormalPolicy(a1, d1, c1, arrays);
    NormalPolicy(a2, d2, c2, arrays);
    SortedPair(Field("scopes", NormalScopes(a1, d1, arrays)), Field("chatIds", Arr(Listing(c1, arrays))),
               Field("scopes", NormalScopes(a2, d2, arrays)), Field("chatIds", Arr(Listing(c2, arrays))));
    SortedPair(Field("allow", Arr(Listing(a1, arrays))), Field("deny", Arr(Listing(d1, arrays))),
               Field("allow", Arr(Listing(a2, arrays))), Field("deny", Arr(Listing(d2, arrays))));
  }

  lemma TakeOut(s: seq<string>, x: string) returns (rest: seq<string>)
    requires x in s
    ensures multiset(s) == multiset{x} + multiset(rest)
  {
    var i :| 0 <= i < |s| && s[i] == x;
    rest := s[..i] + s[i + 1..];
    assert s == s[..i] + [x] + s[i + 1..];
  }

  /** Two entries moved to the front, in either order. */
  lemma TakeOutTwo(s: seq<string>, x: string, y: string) returns (rest: seq<string>)
    requires x in s && y in s && x != y
    ensures multiset([x] + ([y] + rest)) == multiset(s)
    ensures multiset([y] + ([x] + rest)) == multiset(s)
  {
    var others := TakeOut(s, x);
    assert y in others by { assert y in multiset(s) && y in multiset(others); }
    rest := TakeOut(others, y);
  }

  ghost predicate Tied(x: string, y: string, arrays: Arrays)
    requires arrays.AsBags?
  {
    x != y && ItemLe(arrays)(Str(x), Str(y)) && ItemLe(arrays)(Str(y), Str(x))
  }

  lemma StringsPair(x: string, y: string, rest: seq<string>)
    ensures Strings([x] + ([y] + rest)) == [Str(x)] + ([Str(y)] + Strings(rest))
  {
  }

  lemma TiedListings(x: string, y: string, rest: seq<string>, arrays: Arrays)
    requires arrays.AsBags? && Ordered(arrays) && Tied(x, y, arrays)
    ensures Listing([x] + ([y] + rest), arrays) != Listing([y] + ([x] + rest), arrays)
  {
    ItemOrder(arrays);
    StringsPair(x, y, rest);
    StringsPair(y, x, rest);
    hide ItemLe, SortBy, Strings;
    SortTied(ItemLe(arrays), Str(x), Str(y), Strings(rest));
  }

  /** With two tied entries, some reordering of a list is printed differently. */
  lemma TiedReordering(s: seq<string>, arrays: Arrays) returns (t: seq<string>)
    requires arrays.AsBags? && Ordered(arrays) && !UntiedStrings(s, arrays)
    ensures multiset(t) == multiset(s) && Listing(t, arrays) != Listing(s, arrays)
  {
    var x, y :| x in s && y in s && x != y && ItemLe(arrays)(Str(x), Str(y)) && ItemLe(arrays)(Str(y), Str(x));
    assert Tied(x, y, arrays);
    hide Ordered, Listing;
    var rest := TakeOutTwo(s, x, y);
    TiedListings(x, y, rest, arrays);
    var a, b := [x] + ([y] + rest), [y] + ([x] + rest);
    t := if Listing(a, arrays) != Listing(s, arrays) then a else b;
  }

  /** A policy shares its text with exactly the policies that list the same in some order. */
  ghost predicate OrderFree(a1: seq<string>, d1: seq<string>, c1: seq<string>, arrays: Arrays) {
    forall a2, d2, c2 ::
      PolicyText(a1, d1, c1, arrays) == PolicyText(a2, d2, c2, arrays) <==>
      multiset(a1) == multiset(a2) && multiset(d1) == multiset(d2) && multiset(c1) == multiset(c2)
  }

  /** That holds of a policy exactly when the comparison ties no two different entries of one of its
      lists. */
  lemma OrderFreeIff(a1: seq<string>, d1: seq<string>, c1: seq<string>, arrays: Arrays)
    requires arrays.AsBags? && Ordered(arrays)
    ensures OrderFree(a1, d1, c1, arrays) <==>
            UntiedStrings(a1, arrays) && UntiedStrings(d1, arrays) && UntiedStrings(c1, arrays)
  {
    hide PolicyText, UntiedStrings, Listing, Ordered;
    if UntiedStrings(a1, arrays) && UntiedStrings(d1, arrays) && UntiedStrings(c1, arrays) {
      forall a2, d2, c2
        ensures PolicyText(a1, d1, c1, arrays) == PolicyText(a2, d2, c2, arrays) <==>
                multiset(a1) == multiset(a2) && multiset(d1) == multiset(d2) && multiset(c1) == multiset(c2)
      {
        PolicyTextIff(a1, d1, c1, a2, d2, c2, arrays);
      }
    } else if OrderFree(a1, d1, c1, arrays) {
      var a2, d2, c2 := a1, d1, c1;
      if !UntiedStrings(a1, arrays) {
        a2 := TiedReordering(a1, arrays);
      } else if !UntiedStrings(d1, arrays) {
        d2 := TiedReordering(d1, arrays);
      } else {
        c2 := TiedReordering(c1, arrays);
      }
      assert PolicyText(a1, d1, c1, arrays) == PolicyText(a2, d2, c2, arrays);
      PolicyTextListings(a1, d1, c1, a2, d2, c2, arrays);
      assert false;
    }
  }
}
