/**
 Canonical JSON (src/lib/canonical-json.ts): values are normalised and printed so that two values
 print alike exactly when they mean the same.

 Text is UTF-16, as in the source. A finite number stands for the numeral the runtime prints for it,
 so the two zeros are one number here, as they are in the output.
 */
module CanonicalJson {
  import opened Wrappers
  import opened Text

  /** A value as the caller gives it; fields are in insertion order. */
  datatype Value =
    | Undefined | Null | Bool(b: bool) | Str(s: Utf16) | Num(numeral: Utf16) | NonFinite | Unsupported
    | Arr(items: seq<Value>) | Obj(fields: seq<Field>)

  datatype Field = Field(key: Utf16, value: Value)

  /** A normalised value; members are in the order in which they are printed. */
  datatype Json =
    | JNull | JBool(b: bool) | JStr(s: Utf16) | JNum(numeral: Utf16)
    | JArr(items: seq<Json>) | JObj(members: seq<Member>)

  datatype Member = Member(key: Utf16, value: Json)

  /** What a value means: key order and undefined fields forgotten. */
  datatype Meaning =
    | MNull | MBool(b: bool) | MStr(s: Utf16) | MNum(numeral: Utf16)
    | MArr(items: seq<Meaning>) | MObj(fields: map<Utf16, Meaning>)

  // ----- Keys -----

  /** The runtime's default sort order: by code units. */
  predicate Less(a: Utf16, b: Utf16) {
    b != [] && (a == [] || a[0] < b[0] || (a[0] == b[0] && Less(a[1..], b[1..])))
  }

  function Insert(key: Utf16, sorted: seq<Utf16>): (r: seq<Utf16>)
    ensures forall k :: k in r <==> k == key || k in sorted
  {
    if sorted == [] then [key]
    else if Less(key, sorted[0]) then [key] + sorted
    else
      assert sorted == [sorted[0]] + sorted[1..];
      [sorted[0]] + Insert(key, sorted[1..])
  }

  function Sort(keys: seq<Utf16>): (r: seq<Utf16>)
    ensures forall k :: k in r <==> k in keys
  {
    if keys == [] then [] else assert keys == [keys[0]] + keys[1..]; Insert(keys[0], Sort(keys[1..]))
  }

  const ZERO: CodeUnit := 0x30
  const NINE: CodeUnit := 0x39

  predicate IsDigit(u: CodeUnit) { ZERO <= u <= NINE }

  function Number(key: Utf16): nat
    requires forall i :: 0 <= i < |key| ==> IsDigit(key[i])
  {
    if key == [] then 0 else assert IsDigit(key[|key| - 1]); Number(key[..|key| - 1]) * 10 + (key[|key| - 1] - ZERO)
  }

  /** A key that is an array index in canonical decimal. */
  predicate IsIndex(key: Utf16) {
    && key != []
    && (forall i :: 0 <= i < |key| ==> IsDigit(key[i]))
    && (key[0] == ZERO ==> |key| == 1)
    && Number(key) < 0xFFFF_FFFF
  }

  function InsertIndex(key: Utf16, indices: seq<Utf16>): seq<Utf16>
    requires IsIndex(key) && forall i :: 0 <= i < |indices| ==> IsIndex(indices[i])
  {
    if indices == [] then [key]
    else
      assert IsIndex(indices[0]);
      if Number(key) < Number(indices[0]) then [key] + indices
      else [indices[0]] + InsertIndex(key, indices[1..])
  }

  /** The index keys in ascending order. */
  function Indices(keys: seq<Utf16>): (r: seq<Utf16>)
    ensures forall k :: k in r <==> k in keys && IsIndex(k)
  {
    if keys == [] then []
    else if IsIndex(keys[0]) then
      InsertIndexKeeps(keys[0], Indices(keys[1..]));
      InsertIndex(keys[0], Indices(keys[1..]))
    else Indices(keys[1..])
  }

  lemma {:induction false} InsertIndexKeeps(key: Utf16, indices: seq<Utf16>)
    requires IsIndex(key) && forall i :: 0 <= i < |indices| ==> IsIndex(indices[i])
    ensures forall k :: k in InsertIndex(key, indices) <==> k == key || k in indices
  {
    if indices != [] && Number(key) >= Number(indices[0]) {
      InsertIndexKeeps(key, indices[1..]);
      assert indices == [indices[0]] + indices[1..];
    }
  }

  function Names(keys: seq<Utf16>): (r: seq<Utf16>)
    ensures forall k :: k in r <==> k in keys && !IsIndex(k)
  {
    if keys == [] then [] else (if IsIndex(keys[0]) then [] else [keys[0]]) + Names(keys[1..])
  }

  /**
   The order in which an object lists keys that were added to it in this order: indices first, in
   ascending order, then the others as they were added.
   */
  function OwnOrder(keys: seq<Utf16>): (r: seq<Utf16>)
    ensures forall k :: k in r <==> k in keys
  {
    Indices(keys) + Names(keys)
  }

  ghost predicate Sorted(keys: seq<Utf16>) {
    forall i, j :: 0 <= i < j < |keys| ==> Less(keys[i], keys[j])
  }

  lemma {:induction false} LessIsStrict(a: Utf16, b: Utf16)
    ensures !(Less(a, b) && Less(b, a)) && !Less(a, a)
    ensures a != b ==> Less(a, b) || Less(b, a)
  {
    if a != [] && b != [] {
      LessIsStrict(a[1..], b[1..]);
      LessIsStrict(a[1..], a[1..]);
      if a[0] == b[0] && a[1..] == b[1..] { assert a == [a[0]] + a[1..] && b == [b[0]] + b[1..]; }
    } else if a != [] {
      LessIsStrict(a[1..], a[1..]);
    }
  }

  lemma {:induction false} LessIsTransitive(a: Utf16, b: Utf16, c: Utf16)
    requires Less(a, b) && Less(b, c)
    ensures Less(a, c)
  {
    if a != [] && a[0] == b[0] == c[0] { LessIsTransitive(a[1..], b[1..], c[1..]); }
  }

  lemma {:induction false} InsertSorts(key: Utf16, sorted: seq<Utf16>)
    requires Sorted(sorted) && key !in sorted
    ensures Sorted(Insert(key, sorted))
  {
    if sorted != [] {
      if Less(key, sorted[0]) {
        forall j | 0 < j < |sorted| ensures Less(key, sorted[j]) { LessIsTransitive(key, sorted[0], sorted[j]); }
      } else {
        LessIsStrict(key, sorted[0]);
        assert sorted == [sorted[0]] + sorted[1..];
        InsertSorts(key, sorted[1..]);
        var rest := Insert(key, sorted[1..]);
        forall j | 0 <= j < |rest| ensures Less(sorted[0], rest[j]) { assert rest[j] in rest; }
      }
    }
  }

  lemma {:induction false} SortSorts(keys: seq<Utf16>)
    requires NoDuplicates(keys)
    ensures Sorted(Sort(keys))
  {
    if keys != [] {
      SortSorts(keys[1..]);
      assert keys == [keys[0]] + keys[1..];
      InsertSorts(keys[0], Sort(keys[1..]));
    }
  }

  /** There is one sorted list of a set of keys. */
  lemma {:induction false} SortedIsUnique(a: seq<Utf16>, b: seq<Utf16>)
    requires Sorted(a) && Sorted(b) && forall k :: k in a <==> k in b
    ensures a == b
  {
    assert (a != [] ==> a[0] in b) && (b != [] ==> b[0] in a);
    if a != [] && b != [] {
      LessIsStrict(a[0], b[0]);
      assert a[0] == b[0];
      LessIsStrict(a[0], a[0]);
      assert a[0] !in a[1..] && b[0] !in b[1..];
      assert a == [a[0]] + a[1..] && b == [b[0]] + b[1..];
      assert forall k :: k in a[1..] <==> k in a && k != a[0];
      assert forall k :: k in b[1..] <==> k in b && k != b[0];
      SortedIsUnique(a[1..], b[1..]);
      assert a == [a[0]] + a[1..] && b == [b[0]] + b[1..];
    }
  }

  // ----- Normalising -----

  /** The keys whose value is not undefined, in insertion order. */
  function DefinedKeys(fields: seq<Field>): seq<Utf16> {
    if fields == [] then []
    else (if fields[0].value.Undefined? then [] else [fields[0].key]) + DefinedKeys(fields[1..])
  }

  /** The members of a printed object: sorted by key, added to a fresh object, listed in its own order. */
  function Listed(keys: seq<Utf16>, m: map<Utf16, Json>): (members: seq<Member>)
    requires forall k :: k in keys ==> k in m
    ensures |members| == |keys| && forall i :: 0 <= i < |keys| ==> members[i] == Member(keys[i], m[keys[i]])
  {
    seq(|keys|, i requires 0 <= i < |keys| => Member(keys[i], m[keys[i]]))
  }

  /** normalize; None is its TypeError. */
  function Normalize(v: Value): Option<Json>
    decreases v, 1
  {
    match v
    case Undefined => None
    case NonFinite => None
    case Unsupported => None
    case Null => Some(JNull)
    case Bool(b) => Some(JBool(b))
    case Str(s) => Some(JStr(s))
    case Num(n) => Some(JNum(n))
    case Arr(items) =>
      (match NormalizeItems(items)
       case None => None
       case Some(js) => Some(JArr(js)))
    case Obj(fields) =>
      (match NormalizeFields(fields)
       case None => None
       case Some(m) =>
         Some(JObj(Listed(OwnOrder(Sort(DefinedKeys(fields))), m))))
  }

  function NormalizeItems(items: seq<Value>): Option<seq<Json>>
    decreases items, 0
  {
    if items == [] then Some([])
    else
      match (Normalize(items[0]), NormalizeItems(items[1..]))
      case (Some(j), Some(js)) => Some([j] + js)
      case _ => None
  }

  /** The defined fields, normalised; a field that cannot be normalised fails them all. */
  function NormalizeFields(fields: seq<Field>): (r: Option<map<Utf16, Json>>)
    ensures r.Some? ==> forall k :: k in r.value <==> k in DefinedKeys(fields)
    decreases fields, 0
  {
    if fields == [] then Some(map[])
    else if fields[0].value.Undefined? then NormalizeFields(fields[1..])
    else
      match (Normalize(fields[0].value), NormalizeFields(fields[1..]))
      case (Some(j), Some(m)) => Some(m[fields[0].key := j])
      case _ => None
  }

  /** The value and all values inside it, but for undefined fields. */
  function Parts(v: Value): (parts: seq<Value>)
    ensures v in parts
    decreases v, 1
  {
    match v
    case Arr(items) => [v] + PartsOfItems(items)
    case Obj(fields) => [v] + PartsOfFields(fields)
    case _ => [v]
  }

  function PartsOfItems(items: seq<Value>): seq<Value>
    decreases items, 0
  {
    if items == [] then [] else Parts(items[0]) + PartsOfItems(items[1..])
  }

  function PartsOfFields(fields: seq<Field>): seq<Value>
    decreases fields, 0
  {
    if fields == [] then []
    else (if fields[0].value.Undefined? then [] else Parts(fields[0].value)) + PartsOfFields(fields[1..])
  }

  predicate Writable(v: Value) { !v.Undefined? && !v.NonFinite? && !v.Unsupported? }

  ghost predicate AllWritable(parts: seq<Value>) {
    forall p :: p in parts ==> Writable(p)
  }

  lemma AllWritableSplits(a: seq<Value>, b: seq<Value>)
    ensures AllWritable(a + b) <==> AllWritable(a) && AllWritable(b)
  {}

  /** A value is written exactly when nothing in it is undefined, non-finite or of an unsupported type. */
  lemma {:induction false} NormalizesIffWritable(v: Value)
    ensures Normalize(v).Some? <==> AllWritable(Parts(v))
    decreases v, 1
  {
    match v {
      case Arr(items) =>
        AllWritableSplits([v], PartsOfItems(items));
        ItemsWritable(items);
      case Obj(fields) =>
        AllWritableSplits([v], PartsOfFields(fields));
        FieldsWritable(fields);
      case _ =>
    }
  }

  lemma {:induction false} ItemsWritable(items: seq<Value>)
    ensures NormalizeItems(items).Some? <==> AllWritable(PartsOfItems(items))
    decreases items, 0
  {
    if items != [] {
      NormalizesIffWritable(items[0]);
      ItemsWritable(items[1..]);
      AllWritableSplits(Parts(items[0]), PartsOfItems(items[1..]));
    }
  }

  lemma {:induction false} FieldsWritable(fields: seq<Field>)
    ensures NormalizeFields(fields).Some? <==> AllWritable(PartsOfFields(fields))
    decreases fields, 0
  {
    if fields != [] {
      FieldsWritable(fields[1..]);
      if fields[0].value.Undefined? {
        EmptyConcat(PartsOfFields(fields[1..]));
      } else {
        NormalizesIffWritable(fields[0].value);
        AllWritableSplits(Parts(fields[0].value), PartsOfFields(fields[1..]));
      }
    }
  }

  // ----- Meaning -----

  function MeaningOf(v: Value): Meaning
    decreases v, 1
  {
    match v
    case Bool(b) => MBool(b)
    case Str(s) => MStr(s)
    case Num(n) => MNum(n)
    case Arr(items) => MArr(MeaningOfItems(items))
    case Obj(fields) => MObj(MeaningOfFields(fields))
    case _ => MNull
  }

  function MeaningOfItems(items: seq<Value>): seq<Meaning>
    decreases items, 0
  {
    if items == [] then [] else [MeaningOf(items[0])] + MeaningOfItems(items[1..])
  }

  function MeaningOfFields(fields: seq<Field>): (m: map<Utf16, Meaning>)
    ensures forall k :: k in m <==> k in DefinedKeys(fields)
    decreases fields, 0
  {
    if fields == [] then map[]
    else if fields[0].value.Undefined? then MeaningOfFields(fields[1..])
    else MeaningOfFields(fields[1..])[fields[0].key := MeaningOf(fields[0].value)]
  }

  /** No object has a key twice; every numeral is one. */
  predicate Valid(v: Value)
    decreases v, 1
  {
    match v
    case Num(n) => IsNumeral(n)
    case Arr(items) => forall i :: 0 <= i < |items| ==> Valid(items[i])
    case Obj(fields) =>
      && (forall i, j :: 0 <= i < j < |fields| ==> fields[i].key != fields[j].key)
      && (forall i :: 0 <= i < |fields| ==> Valid(fields[i].value))
    case _ => true
  }

  predicate NumeralUnit(u: CodeUnit) {
    IsDigit(u) || u == 0x2D || u == 0x2B || u == 0x2E || u == 0x65
  }

  /** The shape the runtime prints finite numbers in: a digit or a minus, then digits and marks. */
  predicate IsNumeral(n: Utf16) {
    && n != [] && (IsDigit(n[0]) || n[0] == 0x2D)
    && forall i :: 0 <= i < |n| ==> NumeralUnit(n[i])
  }

  lemma {:induction false} DefinedKeysDistinct(fields: seq<Field>)
    requires forall i, j :: 0 <= i < j < |fields| ==> fields[i].key != fields[j].key
    ensures NoDuplicates(DefinedKeys(fields))
    ensures forall k :: k in DefinedKeys(fields) ==> exists i :: 0 <= i < |fields| && fields[i].key == k
  {
    if fields != [] {
      DefinedKeysDistinct(fields[1..]);
      forall k | k in DefinedKeys(fields[1..]) ensures k != fields[0].key {
        var i :| 0 <= i < |fields[1..]| && fields[1..][i].key == k;
        assert fields[i + 1].key == k;
      }
      ConcatNoDuplicates([fields[0].key], DefinedKeys(fields[1..]));
      forall k | k in DefinedKeys(fields) ensures exists i :: 0 <= i < |fields| && fields[i].key == k {
        if k != fields[0].key {
          var i :| 0 <= i < |fields[1..]| && fields[1..][i].key == k;
          assert fields[i + 1].key == k;
        }
      }
    }
  }

  // ----- The meaning of a normalised value -----

  function Means(j: Json): Meaning
    decreases j, 1
  {
    match j
    case JNull => MNull
    case JBool(b) => MBool(b)
    case JStr(s) => MStr(s)
    case JNum(n) => MNum(n)
    case JArr(items) => MArr(MeansItems(items))
    case JObj(members) => MObj(MeansMembers(members))
  }

  function MeansItems(items: seq<Json>): seq<Meaning>
    decreases items, 0
  {
    if items == [] then [] else [Means(items[0])] + MeansItems(items[1..])
  }

  function MeansMembers(members: seq<Member>): map<Utf16, Meaning>
    decreases members, 0
  {
    if members == [] then map[]
    else MeansMembers(members[1..])[members[0].key := Means(members[0].value)]
  }

  /** Member keys come from one sorted list, and so do those of every value inside. */
  ghost predicate Normal(j: Json)
    decreases j, 1
  {
    match j
    case JNum(n) => IsNumeral(n)
    case JArr(items) => forall i :: 0 <= i < |items| ==> Normal(items[i])
    case JObj(members) => KeysNormal(members) && forall i :: 0 <= i < |members| ==> Normal(members[i].value)
    case _ => true
  }

  function KeysOf(members: seq<Member>): (ks: seq<Utf16>)
    ensures |ks| == |members| && forall i :: 0 <= i < |ks| ==> ks[i] == members[i].key
  {
    seq(|members|, i requires 0 <= i < |members| => members[i].key)
  }

  ghost predicate KeysNormal(members: seq<Member>) {
    exists sorted :: Sorted(sorted) && KeysOf(members) == OwnOrder(sorted)
  }

  /** Normalising keeps the meaning and yields a normal value. */
  lemma {:induction false} NormalizeKeeps(v: Value)
    requires Valid(v) && Normalize(v).Some?
    ensures Normal(Normalize(v).value) && Means(Normalize(v).value) == MeaningOf(v)
    decreases v, 1
  {
    match v {
      case Arr(items) =>
        NormalizeItemsKeep(items);
      case Obj(fields) =>
        NormalizeFieldsKeep(fields);
        DefinedKeysDistinct(fields);
        ListedKeeps(DefinedKeys(fields), NormalizeFields(fields).value, MeaningOfFields(fields));
      case _ =>
    }
  }

  lemma ListedKeeps(keys: seq<Utf16>, m: map<Utf16, Json>, meanings: map<Utf16, Meaning>)
    requires NoDuplicates(keys)
    requires (forall k :: k in m <==> k in keys) && (forall k :: k in meanings <==> k in keys)
    requires forall k :: k in m ==> Normal(m[k]) && Means(m[k]) == meanings[k]
    ensures Normal(JObj(Listed(OwnOrder(Sort(keys)), m)))
    ensures MeansMembers(Listed(OwnOrder(Sort(keys)), m)) == meanings
  {
    SortSorts(keys);
    OwnOrderDistinct(Sort(keys));
    var order := OwnOrder(Sort(keys));
    assert KeysOf(Listed(order, m)) == order;
    assert KeysNormal(Listed(order, m));
    ListedMeans(order, m, meanings);
  }

  lemma ListedMeans(order: seq<Utf16>, m: map<Utf16, Json>, meanings: map<Utf16, Meaning>)
    requires NoDuplicates(order)
    requires (forall k :: k in m <==> k in order) && (forall k :: k in meanings <==> k in order)
    requires forall k :: k in m ==> Means(m[k]) == meanings[k]
    ensures MeansMembers(Listed(order, m)) == meanings
  {
    var members := Listed(order, m);
    assert KeysOf(members) == order;
    MeansKeys(members);
    forall k | k in meanings ensures MeansMembers(members)[k] == meanings[k] {
      var i :| 0 <= i < |order| && order[i] == k;
      MeansAt(members, i);
    }
  }

  lemma {:induction false} NormalizeItemsKeep(items: seq<Value>)
    requires forall i :: 0 <= i < |items| ==> Valid(items[i])
    requires NormalizeItems(items).Some?
    ensures var js := NormalizeItems(items).value;
            (forall i :: 0 <= i < |js| ==> Normal(js[i])) && MeansItems(js) == MeaningOfItems(items)
    decreases items, 0
  {
    if items != [] {
      NormalizeKeeps(items[0]);
      NormalizeItemsKeep(items[1..]);
    }
  }

  lemma {:induction false} NormalizeFieldsKeep(fields: seq<Field>)
    requires forall i, j :: 0 <= i < j < |fields| ==> fields[i].key != fields[j].key
    requires forall i :: 0 <= i < |fields| ==> Valid(fields[i].value)
    requires NormalizeFields(fields).Some?
    ensures var m := NormalizeFields(fields).value;
            forall k :: k in m ==> Normal(m[k]) && Means(m[k]) == MeaningOfFields(fields)[k]
    decreases fields, 0
  {
    if fields != [] {
      NormalizeFieldsKeep(fields[1..]);
      if !fields[0].value.Undefined? { NormalizeKeeps(fields[0].value); }
    }
  }

  /** Two normal values with one meaning are one value. */
  lemma {:induction false} NormalIsCanonical(j: Json, k: Json)
    requires Normal(j) && Normal(k) && Means(j) == Means(k)
    ensures j == k
    decreases j, 1
  {
    match j {
      case JArr(items) => ItemsCanonical(items, k.items);
      case JObj(members) =>
        var a, b := members, k.members;
        var sa :| Sorted(sa) && KeysOf(a) == OwnOrder(sa);
        var sb :| Sorted(sb) && KeysOf(b) == OwnOrder(sb);
        MeansKeys(a);
        MeansKeys(b);
        assert forall x :: x in sa <==> x in KeysOf(a);
        assert forall x :: x in sb <==> x in KeysOf(b);
        SortedIsUnique(sa, sb);
        assert KeysOf(a) == KeysOf(b);
        OwnOrderDistinct(sa);
        forall i | 0 <= i < |a| ensures a[i] == b[i] {
          MeansAt(a, i);
          MeansAt(b, i);
          assert KeysOf(a)[i] == KeysOf(b)[i];
          NormalIsCanonical(a[i].value, b[i].value);
        }
      case _ =>
    }
  }

  lemma {:induction false} ItemsCanonical(a: seq<Json>, b: seq<Json>)
    requires forall i :: 0 <= i < |a| ==> Normal(a[i])
    requires forall i :: 0 <= i < |b| ==> Normal(b[i])
    requires MeansItems(a) == MeansItems(b)
    ensures a == b
    decreases a, 0
  {
    if a != [] {
      ConsTail(Means(a[0]), MeansItems(a[1..]));
      ConsTail(Means(b[0]), MeansItems(b[1..]));
      NormalIsCanonical(a[0], b[0]);
      ItemsCanonical(a[1..], b[1..]);
      assert a == [a[0]] + a[1..] && b == [b[0]] + b[1..];
    }
  }

  lemma {:induction false} MeansKeys(members: seq<Member>)
    ensures forall k :: k in MeansMembers(members) <==> k in KeysOf(members)
  {
    if members != [] {
      MeansKeys(members[1..]);
      assert KeysOf(members) == [members[0].key] + KeysOf(members[1..]);
    }
  }

  lemma {:induction false} MeansAt(members: seq<Member>, i: nat)
    requires i < |members| && NoDuplicates(KeysOf(members))
    ensures members[i].key in MeansMembers(members)
    ensures MeansMembers(members)[members[i].key] == Means(members[i].value)
  {
    assert KeysOf(members) == [members[0].key] + KeysOf(members[1..]);
    if i > 0 {
      assert KeysOf(members)[0] != KeysOf(members)[i];
      MeansAt(members[1..], i - 1);
    }
  }

  lemma {:induction false} NamesDistinct(keys: seq<Utf16>)
    requires NoDuplicates(keys)
    ensures NoDuplicates(Names(keys))
  {
    if keys != [] {
      NamesDistinct(keys[1..]);
      assert keys == [keys[0]] + keys[1..];
      if !IsIndex(keys[0]) { ConcatNoDuplicates([keys[0]], Names(keys[1..])); }
    }
  }

  lemma {:induction false} InsertIndexDistinct(key: Utf16, indices: seq<Utf16>)
    requires IsIndex(key) && forall i :: 0 <= i < |indices| ==> IsIndex(indices[i])
    requires NoDuplicates(indices) && key !in indices
    ensures NoDuplicates(InsertIndex(key, indices))
  {
    if indices != [] {
      assert indices == [indices[0]] + indices[1..];
      if Number(key) < Number(indices[0]) {
        ConcatNoDuplicates([key], indices);
      } else {
        InsertIndexDistinct(key, indices[1..]);
        InsertIndexKeeps(key, indices[1..]);
        ConcatNoDuplicates([indices[0]], InsertIndex(key, indices[1..]));
      }
    }
  }

  lemma {:induction false} IndicesDistinct(keys: seq<Utf16>)
    requires NoDuplicates(keys)
    ensures NoDuplicates(Indices(keys))
  {
    if keys != [] {
      IndicesDistinct(keys[1..]);
      assert keys == [keys[0]] + keys[1..];
      if IsIndex(keys[0]) { InsertIndexDistinct(keys[0], Indices(keys[1..])); }
    }
  }

  lemma OwnOrderDistinct(sorted: seq<Utf16>)
    requires Sorted(sorted)
    ensures NoDuplicates(OwnOrder(sorted))
  {
    forall i, j | 0 <= i < j < |sorted| ensures sorted[i] != sorted[j] { LessIsStrict(sorted[i], sorted[i]); }
    IndicesDistinct(sorted);
    NamesDistinct(sorted);
    ConcatNoDuplicates(Indices(sorted), Names(sorted));
  }

  // ----- Printing -----

  const QUOTE: CodeUnit := 0x22
  const BACKSLASH: CodeUnit := 0x5C
  const COMMA: CodeUnit := 0x2C
  const COLON: CodeUnit := 0x3A
  const OPEN_ARRAY: CodeUnit := 0x5B
  const CLOSE_ARRAY: CodeUnit := 0x5D
  const OPEN_OBJECT: CodeUnit := 0x7B
  const CLOSE_OBJECT: CodeUnit := 0x7D
  const NULL_WORD: Utf16 := [0x6E, 0x75, 0x6C, 0x6C]
  const TRUE_WORD: Utf16 := [0x74, 0x72, 0x75, 0x65]
  const FALSE_WORD: Utf16 := [0x66, 0x61, 0x6C, 0x73, 0x65]

  function HexDigit(d: nat): (u: CodeUnit)
    requires d < 16
  {
    if d < 10 then 0x30 + d else 0x61 + d - 10
  }

  /** Backslash, u and four hexadecimal digits. */
  function UnicodeEscape(u: CodeUnit): Utf16 {
    [BACKSLASH, 0x75, HexDigit(u / 0x1000), HexDigit(u / 0x100 % 16), HexDigit(u / 16 % 16), HexDigit(u % 16)]
  }

  /**
   One unit inside a string, as section 7 of RFC 8259 requires: the quotation mark, the backslash and
   the control characters are escaped. So is a surrogate that is not part of a pair.
   */
  function EscapeUnit(u: CodeUnit): Utf16 {
    if u == QUOTE || u == BACKSLASH then [BACKSLASH, u]
    else if u == 0x08 then [BACKSLASH, 0x62]
    else if u == 0x0C then [BACKSLASH, 0x66]
    else if u == 0x0A then [BACKSLASH, 0x6E]
    else if u == 0x0D then [BACKSLASH, 0x72]
    else if u == 0x09 then [BACKSLASH, 0x74]
    else if u < 0x20 || High(u) || Low(u) then UnicodeEscape(u)
    else [u]
  }

  predicate StartsPair(s: Utf16) {
    |s| >= 2 && High(s[0]) && Low(s[1])
  }

  /** The string body `s`, followed by `rest`. */
  function Escape(s: Utf16, rest: Utf16): Utf16
    decreases |s|
  {
    if s == [] then rest
    else if StartsPair(s) then [s[0], s[1]] + Escape(s[2..], rest)
    else EscapeUnit(s[0]) + Escape(s[1..], rest)
  }

  function Quote(s: Utf16, rest: Utf16): Utf16 {
    [QUOTE] + Escape(s, [QUOTE] + rest)
  }

  /** JSON.stringify of a normalised value, followed by `rest`. */
  function Print(j: Json, rest: Utf16): Utf16
    decreases j, 1
  {
    match j
    case JNull => NULL_WORD + rest
    case JBool(b) => (if b then TRUE_WORD else FALSE_WORD) + rest
    case JStr(s) => Quote(s, rest)
    case JNum(n) => n + rest
    case JArr(items) => [OPEN_ARRAY] + PrintItems(items, true, rest)
    case JObj(members) => [OPEN_OBJECT] + PrintMembers(members, true, rest)
  }

  /** The items from here to the closing bracket, a comma before each but the first. */
  function PrintItems(items: seq<Json>, first: bool, rest: Utf16): Utf16
    decreases items, 0
  {
    if items == [] then [CLOSE_ARRAY] + rest
    else (if first then [] else [COMMA]) + Print(items[0], PrintItems(items[1..], false, rest))
  }

  function PrintMembers(members: seq<Member>, first: bool, rest: Utf16): Utf16
    decreases members, 0
  {
    if members == [] then [CLOSE_OBJECT] + rest
    else
      (if first then [] else [COMMA]) +
      Quote(members[0].key, [COLON] + Print(members[0].value, PrintMembers(members[1..], false, rest)))
  }

  /** canonicalJson; None is the TypeError. */
  function Canonical(v: Value): Option<Utf16> {
    match Normalize(v)
    case None => None
    case Some(j) => Some(Print(j, []))
  }

  // ----- A reader of JSON text (RFC 8259) -----

  /** Insignificant whitespace (section 2). */
  predicate Blank(u: CodeUnit) { u == 0x20 || u == 0x09 || u == 0x0A || u == 0x0D }

  function Skip(text: Utf16): (r: Utf16)
    ensures |r| <= |text|
  {
    if text != [] && Blank(text[0]) then Skip(text[1..]) else text
  }

  predicate Starts(text: Utf16, u: CodeUnit) { text != [] && text[0] == u }

  function HexValue(u: CodeUnit): Option<nat> {
    if IsDigit(u) then Some(u - ZERO)
    else if 0x61 <= u < 0x67 then Some(u - 0x61 + 10)
    else if 0x41 <= u < 0x47 then Some(u - 0x41 + 10)
    else None
  }

  function Hex4(a: CodeUnit, b: CodeUnit, c: CodeUnit, d: CodeUnit): Option<CodeUnit> {
    match (HexValue(a), HexValue(b), HexValue(c), HexValue(d))
    case (Some(w), Some(x), Some(y), Some(z)) =>
      if w < 16 && x < 16 && y < 16 && z < 16 then Some(w * 0x1000 + x * 0x100 + y * 16 + z) else None
    case _ => None
  }

  /** What a backslash before this unit stands for (section 7), apart from the u of a hexadecimal escape. */
  function Unescaped(e: CodeUnit): Option<CodeUnit> {
    if e == QUOTE || e == BACKSLASH || e == 0x2F then Some(e)
    else if e == 0x62 then Some(0x08)
    else if e == 0x66 then Some(0x0C)
    else if e == 0x6E then Some(0x0A)
    else if e == 0x72 then Some(0x0D)
    else if e == 0x74 then Some(0x09)
    else None
  }

  /** The first unit of a string body, and what follows it; None at the closing mark and where the body is malformed. */
  function ReadUnit(text: Utf16): (r: Option<(CodeUnit, Utf16)>)
    ensures r.Some? ==> |r.value.1| < |text|
  {
    if text == [] || text[0] == QUOTE || text[0] < 0x20 then None
    else if text[0] != BACKSLASH then Some((text[0], text[1..]))
    else if |text| < 2 then None
    else if text[1] == 0x75 then
      if |text| < 6 then None
      else
        match Hex4(text[2], text[3], text[4], text[5])
        case None => None
        case Some(u) => Some((u, text[6..]))
    else
      match Unescaped(text[1])
      case None => None
      case Some(u) => Some((u, text[2..]))
  }

  /** A string, from after its opening mark. */
  function ReadString(text: Utf16): (r: Option<(Utf16, Utf16)>)
    ensures r.Some? ==> |r.value.1| < |text|
    decreases |text|
  {
    if Starts(text, QUOTE) then Some(([], text[1..]))
    else
      match ReadUnit(text)
      case None => None
      case Some((u, more)) =>
        match ReadString(more)
        case None => None
        case Some((s, rest)) => Some(([u] + s, rest))
  }

  /** The longest run of units that occur in printed numerals; the grammar of section 6 is not checked. */
  function ReadNumeral(text: Utf16): (r: (Utf16, Utf16))
    ensures |r.1| <= |text|
    ensures text != [] && NumeralUnit(text[0]) ==> |r.1| < |text|
  {
    if text == [] || !NumeralUnit(text[0]) then ([], text)
    else
      var (n, rest) := ReadNumeral(text[1..]);
      ([text[0]] + n, rest)
  }

  function ReadWord(text: Utf16): (r: Option<(Json, Utf16)>)
    ensures r.Some? ==> |r.value.1| < |text|
  {
    if NULL_WORD <= text then Some((JNull, text[4..]))
    else if TRUE_WORD <= text then Some((JBool(true), text[4..]))
    else if FALSE_WORD <= text then Some((JBool(false), text[5..]))
    else None
  }

  /** A value (section 3) and the text after it. */
  function ReadValue(text: Utf16): (r: Option<(Json, Utf16)>)
    ensures r.Some? ==> |r.value.1| < |text|
    decreases |text|, 0
  {
    var t := Skip(text);
    if t == [] then None
    else if t[0] == QUOTE then
      (match ReadString(t[1..])
       case None => None
       case Some((s, rest)) => Some((JStr(s), rest)))
    else if t[0] == OPEN_ARRAY then
      if Starts(Skip(t[1..]), CLOSE_ARRAY) then Some((JArr([]), Skip(t[1..])[1..]))
      else
        (match ReadItems(t[1..])
         case None => None
         case Some((items, rest)) => Some((JArr(items), rest)))
    else if t[0] == OPEN_OBJECT then
      if Starts(Skip(t[1..]), CLOSE_OBJECT) then Some((JObj([]), Skip(t[1..])[1..]))
      else
        (match ReadMembers(t[1..])
         case None => None
         case Some((members, rest)) => Some((JObj(members), rest)))
    else if IsDigit(t[0]) || t[0] == 0x2D then
      var (n, rest) := ReadNumeral(t);
      Some((JNum(n), rest))
    else ReadWord(t)
  }

  /** One or more values (section 5), to the closing bracket. */
  function ReadItems(text: Utf16): (r: Option<(seq<Json>, Utf16)>)
    ensures r.Some? ==> |r.value.1| < |text|
    decreases |text|, 1
  {
    match ReadValue(text)
    case None => None
    case Some((j, more)) =>
      var t := Skip(more);
      if Starts(t, CLOSE_ARRAY) then Some(([j], t[1..]))
      else if !Starts(t, COMMA) then None
      else
        match ReadItems(t[1..])
        case None => None
        case Some((js, rest)) => Some(([j] + js, rest))
  }

  /** A name, a colon and a value (section 4). */
  function ReadMember(text: Utf16): (r: Option<(Member, Utf16)>)
    ensures r.Some? ==> |r.value.1| < |text|
    decreases |text|, 1
  {
    var t := Skip(text);
    if !Starts(t, QUOTE) then None
    else
      match ReadString(t[1..])
      case None => None
      case Some((key, more)) =>
        if !Starts(Skip(more), COLON) then None
        else
          match ReadValue(Skip(more)[1..])
          case None => None
          case Some((j, rest)) => Some((Member(key, j), rest))
  }

  /** One or more members, to the closing brace. */
  function ReadMembers(text: Utf16): (r: Option<(seq<Member>, Utf16)>)
    ensures r.Some? ==> |r.value.1| < |text|
    decreases |text|, 2
  {
    match ReadMember(text)
    case None => None
    case Some((m, more)) =>
      var t := Skip(more);
      if Starts(t, CLOSE_OBJECT) then Some(([m], t[1..]))
      else if !Starts(t, COMMA) then None
      else
        match ReadMembers(t[1..])
        case None => None
        case Some((ms, rest)) => Some(([m] + ms, rest))
  }

  // ----- The reader reads what the printer prints -----

  lemma HexDigitReads(d: nat)
    requires d < 16
    ensures HexValue(HexDigit(d)) == Some(d)
  {}

  lemma HexPlaces(u: CodeUnit)
    ensures u / 0x1000 < 16
    ensures u / 0x1000 * 0x1000 + u / 0x100 % 16 * 0x100 + u / 16 % 16 * 16 + u % 16 == u
  {
    assert u / 16 / 16 == u / 0x100 && u / 0x100 / 16 == u / 0x1000;
  }

  lemma HexReads(u: CodeUnit)
    ensures Hex4(HexDigit(u / 0x1000), HexDigit(u / 0x100 % 16), HexDigit(u / 16 % 16), HexDigit(u % 16)) == Some(u)
  {
    HexPlaces(u);
    HexDigitReads(u / 0x1000);
    HexDigitReads(u / 0x100 % 16);
    HexDigitReads(u / 16 % 16);
    HexDigitReads(u % 16);
  }

  lemma EscapeUnitReads(u: CodeUnit, tail: Utf16)
    ensures ReadUnit(EscapeUnit(u) + tail) == Some((u, tail))
    ensures !Starts(EscapeUnit(u) + tail, QUOTE)
  {
    CutTwo(EscapeUnit(u), tail);
    if EscapeUnit(u) == UnicodeEscape(u) {
      HexReads(u);
    }
  }

  /** A string body is read back, and its closing mark is found. */
  lemma {:induction false} EscapeReads(s: Utf16, rest: Utf16)
    ensures ReadString(Escape(s, [QUOTE] + rest)) == Some((s, rest))
    decreases |s|
  {
    if s == [] {
      ConsTail(QUOTE, rest);
    } else if StartsPair(s) {
      var tail := Escape(s[2..], [QUOTE] + rest);
      EscapeReads(s[2..], rest);
      CutTwo([s[0], s[1]], tail);
      var text := [s[0], s[1]] + tail;
      assert text[1..] == [s[1]] + tail && text[1..][1..] == tail;
      assert ReadString(text[1..]) == Some(([s[1]] + s[2..], rest));
      assert s == [s[0]] + ([s[1]] + s[2..]);
    } else {
      EscapeReads(s[1..], rest);
      EscapeUnitReads(s[0], Escape(s[1..], [QUOTE] + rest));
      assert s == [s[0]] + s[1..];
    }
  }

  ghost predicate Delimited(rest: Utf16) {
    rest == [] || !NumeralUnit(rest[0])
  }

  lemma {:induction false} NumeralReads(n: Utf16, rest: Utf16)
    requires (forall i :: 0 <= i < |n| ==> NumeralUnit(n[i])) && Delimited(rest)
    ensures ReadNumeral(n + rest) == (n, rest)
  {
    if n == [] {
      EmptyConcat(rest);
    } else {
      NumeralReads(n[1..], rest);
      assert (n + rest)[1..] == n[1..] + rest && n == [n[0]] + n[1..];
    }
  }

  /** No printed value begins with whitespace, or with a bracket that closes. */
  lemma FirstPrinted(j: Json, rest: Utf16)
    requires Normal(j)
    ensures var text := Print(j, rest);
            text != [] && !Blank(text[0]) && text[0] != CLOSE_ARRAY && Skip(text) == text
  {}

  lemma MoreItems(items: seq<Json>, rest: Utf16)
    ensures PrintItems(items, false, rest) == if items == [] then [CLOSE_ARRAY] + rest else [COMMA] + PrintItems(items, true, rest)
  {
    if items != [] { EmptyConcat(Print(items[0], PrintItems(items[1..], false, rest))); }
  }

  lemma MoreMembers(members: seq<Member>, rest: Utf16)
    ensures PrintMembers(members, false, rest)
         == if members == [] then [CLOSE_OBJECT] + rest else [COMMA] + PrintMembers(members, true, rest)
  {
    if members != [] {
      EmptyConcat(Quote(members[0].key, [COLON] + Print(members[0].value, PrintMembers(members[1..], false, rest))));
    }
  }

  /** A printed value is read as that value, and the reader stops where it ends. */
  lemma {:induction false} PrintReads(j: Json, rest: Utf16)
    requires Normal(j) && Delimited(rest)
    ensures ReadValue(Print(j, rest)) == Some((j, rest))
    decreases j, 1
  {
    FirstPrinted(j, rest);
    match j {
      case JNull =>
        CutTwo(NULL_WORD, rest);
      case JBool(b) =>
        CutTwo(if b then TRUE_WORD else FALSE_WORD, rest);
      case JStr(s) =>
        ConsTail(QUOTE, Escape(s, [QUOTE] + rest));
        EscapeReads(s, rest);
      case JNum(n) =>
        NumeralReads(n, rest);
      case JArr(items) =>
        ArrayReads(items, rest);
      case JObj(members) =>
        ObjectReads(members, rest);
    }
  }

  lemma {:induction false} ArrayReads(items: seq<Json>, rest: Utf16)
    requires forall i :: 0 <= i < |items| ==> Normal(items[i])
    ensures ReadValue([OPEN_ARRAY] + PrintItems(items, true, rest)) == Some((JArr(items), rest))
    decreases items, 1
  {
    var body := PrintItems(items, true, rest);
    ConsTail(OPEN_ARRAY, body);
    if items == [] {
      ConsTail(CLOSE_ARRAY, rest);
    } else {
      ItemsRead(items, rest);
      EmptyConcat(Print(items[0], PrintItems(items[1..], false, rest)));
      FirstPrinted(items[0], PrintItems(items[1..], false, rest));
    }
  }

  lemma {:induction false} ObjectReads(members: seq<Member>, rest: Utf16)
    requires forall i :: 0 <= i < |members| ==> Normal(members[i].value)
    ensures ReadValue([OPEN_OBJECT] + PrintMembers(members, true, rest)) == Some((JObj(members), rest))
    decreases members, 1
  {
    var body := PrintMembers(members, true, rest);
    ConsTail(OPEN_OBJECT, body);
    if members == [] {
      ConsTail(CLOSE_OBJECT, rest);
    } else {
      MembersRead(members, rest);
    }
  }

  lemma LastItem(text: Utf16, j: Json, rest: Utf16)
    requires ReadValue(text) == Some((j, [CLOSE_ARRAY] + rest))
    ensures ReadItems(text) == Some(([j], rest))
  {
    ConsTail(CLOSE_ARRAY, rest);
  }

  lemma NextItem(text: Utf16, j: Json, more: Utf16)
    requires ReadValue(text) == Some((j, [COMMA] + more)) && ReadItems(more).Some?
    ensures ReadItems(text) == Some(([j] + ReadItems(more).value.0, ReadItems(more).value.1))
  {
    ConsTail(COMMA, more);
  }

  lemma LastMember(text: Utf16, m: Member, rest: Utf16)
    requires ReadMember(text) == Some((m, [CLOSE_OBJECT] + rest))
    ensures ReadMembers(text) == Some(([m], rest))
  {
    ConsTail(CLOSE_OBJECT, rest);
  }

  lemma NextMember(text: Utf16, m: Member, more: Utf16)
    requires ReadMember(text) == Some((m, [COMMA] + more)) && ReadMembers(more).Some?
    ensures ReadMembers(text) == Some(([m] + ReadMembers(more).value.0, ReadMembers(more).value.1))
  {
    ConsTail(COMMA, more);
  }

  lemma {:induction false} ItemsRead(items: seq<Json>, rest: Utf16)
    requires items != [] && forall i :: 0 <= i < |items| ==> Normal(items[i])
    ensures ReadItems(PrintItems(items, true, rest)) == Some((items, rest))
    decreases items, 0
  {
    var tail := PrintItems(items[1..], false, rest);
    MoreItems(items[1..], rest);
    PrintReads(items[0], tail);
    EmptyConcat(Print(items[0], tail));
    assert items == [items[0]] + items[1..];
    if items[1..] == [] {
      EmptyConcat([items[0]]);
      LastItem(Print(items[0], tail), items[0], rest);
    } else {
      ItemsRead(items[1..], rest);
      NextItem(Print(items[0], tail), items[0], PrintItems(items[1..], true, rest));
    }
  }

  lemma {:induction false} MemberReads(m: Member, rest: Utf16)
    requires Normal(m.value) && Delimited(rest)
    ensures ReadMember(Quote(m.key, [COLON] + Print(m.value, rest))) == Some((m, rest))
    decreases m, 0
  {
    var after := [COLON] + Print(m.value, rest);
    ConsTail(QUOTE, Escape(m.key, [QUOTE] + after));
    EscapeReads(m.key, after);
    ConsTail(COLON, Print(m.value, rest));
    PrintReads(m.value, rest);
  }

  lemma {:induction false} MembersRead(members: seq<Member>, rest: Utf16)
    requires members != [] && forall i :: 0 <= i < |members| ==> Normal(members[i].value)
    ensures ReadMembers(PrintMembers(members, true, rest)) == Some((members, rest))
    decreases members, 0
  {
    var tail := PrintMembers(members[1..], false, rest);
    MoreMembers(members[1..], rest);
    MemberReads(members[0], tail);
    EmptyConcat(Quote(members[0].key, [COLON] + Print(members[0].value, tail)));
    assert members == [members[0]] + members[1..];
    var text := Quote(members[0].key, [COLON] + Print(members[0].value, tail));
    if members[1..] == [] {
      EmptyConcat([members[0]]);
      LastMember(text, members[0], rest);
    } else {
      MembersRead(members[1..], rest);
      NextMember(text, members[0], PrintMembers(members[1..], true, rest));
    }
  }

  /** Two strings that are escaped alike before their closing quotation marks are one string. */
  lemma EscapeInjective(a: Utf16, b: Utf16, r: Utf16, s: Utf16)
    requires Escape(a, [QUOTE] + r) == Escape(b, [QUOTE] + s)
    ensures a == b && r == s
  {
    EscapeReads(a, r);
    EscapeReads(b, s);
  }

  /** A printed value ends where it ends: no two printed values are prefixes one of the other. */
  lemma PrintIsPrefixFree(j: Json, k: Json, r: Utf16, s: Utf16)
    requires Normal(j) && Normal(k) && Delimited(r) && Delimited(s)
    requires Print(j, r) == Print(k, s)
    ensures j == k && r == s
  {
    PrintReads(j, r);
    PrintReads(k, s);
  }

  /** What is written of a value is JSON text, and a reader of JSON reads in it what the value means. */
  lemma CanonicalIsRead(v: Value)
    requires Valid(v)
    ensures Canonical(v).Some? <==> AllWritable(Parts(v))
    ensures Canonical(v).Some? ==>
              var read := ReadValue(Canonical(v).value);
              read.Some? && read.value.1 == [] && Means(read.value.0) == MeaningOf(v)
  {
    NormalizesIffWritable(v);
    if Canonical(v).Some? {
      NormalizeKeeps(v);
      PrintReads(Normalize(v).value, []);
    }
  }

  // ----- Round trip -----

  /** A JSON value as a caller gives it. */
  function ValueOf(j: Json): Value
    decreases j, 1
  {
    match j
    case JNull => Null
    case JBool(b) => Bool(b)
    case JStr(s) => Str(s)
    case JNum(n) => Num(n)
    case JArr(items) => Arr(ValuesOf(items))
    case JObj(members) => Obj(FieldsOf(members))
  }

  function ValuesOf(items: seq<Json>): seq<Value>
    decreases items, 0
  {
    if items == [] then [] else [ValueOf(items[0])] + ValuesOf(items[1..])
  }

  function FieldsOf(members: seq<Member>): seq<Field>
    decreases members, 0
  {
    if members == [] then [] else [Field(members[0].key, ValueOf(members[0].value))] + FieldsOf(members[1..])
  }

  lemma {:induction false} ValueMeans(j: Json)
    ensures Normalize(ValueOf(j)).Some? && MeaningOf(ValueOf(j)) == Means(j)
    decreases j, 1
  {
    match j {
      case JArr(items) => ValuesMean(items);
      case JObj(members) => FieldsMean(members);
      case _ =>
    }
  }

  lemma {:induction false} ValuesMean(items: seq<Json>)
    ensures NormalizeItems(ValuesOf(items)).Some? && MeaningOfItems(ValuesOf(items)) == MeansItems(items)
    decreases items, 0
  {
    if items != [] {
      ValueMeans(items[0]);
      ValuesMean(items[1..]);
      ConsTail(ValueOf(items[0]), ValuesOf(items[1..]));
    }
  }

  lemma {:induction false} FieldsMean(members: seq<Member>)
    ensures NormalizeFields(FieldsOf(members)).Some? && MeaningOfFields(FieldsOf(members)) == MeansMembers(members)
    decreases members, 0
  {
    if members != [] {
      ValueMeans(members[0].value);
      FieldsMean(members[1..]);
      ConsTail(Field(members[0].key, ValueOf(members[0].value)), FieldsOf(members[1..]));
    }
  }

  /** A JSON value that is written and read again is the same value, up to the order of its keys. */
  lemma RoundTrip(j: Json)
    requires Valid(ValueOf(j))
    ensures Canonical(ValueOf(j)).Some?
    ensures var read := ReadValue(Canonical(ValueOf(j)).value);
            read.Some? && read.value.1 == [] && Means(read.value.0) == Means(j)
  {
    ValueMeans(j);
    CanonicalIsRead(ValueOf(j));
  }

  /**
   The promise of canonical JSON: two values have the same text if and only if they mean the same,
   whatever the order of their keys and whatever undefined fields they carry.
   */
  lemma CanonicalIsMeaning(v: Value, w: Value)
    requires Valid(v) && Valid(w) && Canonical(v).Some? && Canonical(w).Some?
    ensures Canonical(v) == Canonical(w) <==> MeaningOf(v) == MeaningOf(w)
  {
    var j, k := Normalize(v).value, Normalize(w).value;
    NormalizeKeeps(v);
    NormalizeKeeps(w);
    if Print(j, []) == Print(k, []) { PrintIsPrefixFree(j, k, [], []); }
    if MeaningOf(v) == MeaningOf(w) { NormalIsCanonical(j, k); }
  }
}
