/** Validation and canonical encoding of one audit payload (audit/chain.py). */
module AuditPayload {
  import opened Prelude
  import opened Ordering
  import opened Json
  import opened JsonRoundTrip
  import opened Runtime

  datatype Key = TextKey(text: string) | OtherKey

  /** A value a caller may put in a payload. */
  datatype Value =
    | PyNone
    | PyBool(flag: bool)
    | PyInt(number: int)
    | PyFloat(repr: FloatText)
    | NonFiniteFloat
    | PyText(text: string)
    | SurrogateText                                // text holding a lone surrogate
    | PyList(elements: seq<Value>)                 // list or tuple
    | PyDict(items: seq<(Key, Value)>)             // any mapping, in iteration order
    | PersonalReference(reference: Value)
    | PersonalValue
    | Unserialisable

  datatype PayloadError =
    | NotAMapping
    | PersonalData
    | NonTextKey
    | InvalidText
    | NotFinite
    | NotJson

  const REFERENCE_KEY := "reference"

  const PERSONAL_FIELD_NAMES: set<string> := {
    "aadhaar", "address", "cin", "contact_email", "contact_name", "contact", "date_of_birth",
    "director_name", "email", "email_address", "first_name", "guarantor_name", "last_name", "mobile",
    "mobile_number", "passport", "pan", "person_name", "person", "personal", "personal_data",
    "personal_value", "phone", "phone_number", "promoter_name", "signatory_name", "staff_name", "tax_id"
  }

  function HyphensToUnderscores(s: string): string
  {
    seq(|s|, i requires 0 <= i < |s| => if s[i] == '-' then '_' else s[i])
  }

  predicate IsPersonalField(rt: Runtime, key: string)
  {
    HyphensToUnderscores(rt.casefold(key)) in PERSONAL_FIELD_NAMES
  }

  /** Dictionary keys are unique, so holding the reference key alone means holding one item. */
  predicate IsReferenceObject(v: Value)
  {
    v.PyDict? && |v.items| == 1 && v.items[0].0 == TextKey(REFERENCE_KEY)
  }

  function ReferenceJson(text: string): Json
  {
    JObject(map[REFERENCE_KEY := JString(text)])
  }

  function NormaliseReference(rt: Runtime, v: Value): Result<Json, PayloadError>
  {
    match v
    case PyText(s) => if rt.Strip(s) == "" then Err(PersonalData) else Ok(ReferenceJson(rt.nfc(rt.Strip(s))))
    case SurrogateText => Err(InvalidText)
    case _ => Err(PersonalData)
  }

  function NormaliseValue(rt: Runtime, v: Value): Result<Json, PayloadError>
    decreases v, 1
  {
    match v
    case PersonalValue => Err(PersonalData)
    case PersonalReference(reference) => NormaliseReference(rt, reference)
    case PyDict(items) =>
      (match NormaliseItems(rt, items)
       case Ok(fields) => Ok(JObject(fields))
       case Err(e) => Err(e))
    case PyList(elements) =>
      (match NormaliseList(rt, elements)
       case Ok(items) => Ok(JArray(items))
       case Err(e) => Err(e))
    case PyNone => Ok(JNull)
    case PyBool(b) => Ok(JBool(b))
    case PyInt(n) => Ok(JInt(n))
    case PyText(s) => Ok(JString(rt.nfc(s)))
    case SurrogateText => Err(InvalidText)
    case PyFloat(t) => Ok(JFloat(t))
    case NonFiniteFloat => Err(NotFinite)
    case Unserialisable => Err(NotJson)
  }

  function NormaliseList(rt: Runtime, elements: seq<Value>): Result<seq<Json>, PayloadError>
    decreases elements, 0
  {
    if elements == [] then Ok([]) else
    match NormaliseValue(rt, elements[0])
    case Err(e) => Err(e)
    case Ok(first) =>
      match NormaliseList(rt, elements[1..])
      case Err(e) => Err(e)
      case Ok(rest) => Ok([first] + rest)
  }

  function NormaliseItem(rt: Runtime, item: (Key, Value)): Result<(string, Json), PayloadError>
    decreases item, 2
  {
    match item.0
    case OtherKey => Err(NonTextKey)
    case TextKey(key) =>
      var child :=
        if IsPersonalField(rt, key) then
          if IsReferenceObject(item.1) then NormaliseReference(rt, item.1.items[0].1) else Err(PersonalData)
        else NormaliseValue(rt, item.1);
      match child
      case Err(e) => Err(e)
      case Ok(j) => Ok((key, j))
  }

  /** The dictionary built item by item; a repeated key keeps its last value. */
  function NormaliseItems(rt: Runtime, items: seq<(Key, Value)>): Result<map<string, Json>, PayloadError>
    decreases items, 0
  {
    if items == [] then Ok(map[]) else
    match NormaliseItem(rt, items[0])
    case Err(e) => Err(e)
    case Ok((key, j)) =>
      match NormaliseItems(rt, items[1..])
      case Err(e) => Err(e)
      case Ok(rest) => Ok(map[key := j] + rest)
  }

  function NormalisePayload(rt: Runtime, payload: Value): (r: Result<Json, PayloadError>)
    ensures r.Ok? ==> r.value.JObject?
  {
    if !payload.PyDict? then Err(NotAMapping) else NormaliseValue(rt, payload)
  }

  /** `canonical_payload`: sorted keys, compact separators, non-ASCII kept. */
  function CanonicalPayload(rt: Runtime, payload: Value): Result<string, PayloadError>
  {
    match NormalisePayload(rt, payload)
    case Err(e) => Err(e)
    case Ok(j) => Ok(Dumps(false, j))
  }

  /** The loop that fills one dictionary, item after item. */
  method FillMapping(rt: Runtime, items: seq<(Key, Value)>) returns (r: Result<map<string, Json>, PayloadError>)
    ensures r == NormaliseItems(rt, items)
  {
    var result: map<string, Json> := map[];
    assert items[0..] == items && forall rest: map<string, Json> :: result + rest == rest;
    for i := 0 to |items|
      invariant NormaliseItems(rt, items)
             == match NormaliseItems(rt, items[i..]) case Err(e) => Err(e) case Ok(rest) => Ok(result + rest)
    {
      assert items[i..][1..] == items[i + 1..];
      match NormaliseItem(rt, items[i])
      case Err(e) => return Err(e);
      case Ok((key, j)) =>
        assert forall rest: map<string, Json> :: result + (map[key := j] + rest) == result[key := j] + rest;
        result := result[key := j];
    }
    assert items[|items|..] == [] && result + map[] == result;
    return Ok(result);
  }

  // ---------- what normalisation promises ----------

  /** A value normalisation can produce. */
  predicate Normal(rt: Runtime, j: Json)
  {
    match j
    case JString(s) => rt.nfc(s) == s
    case JArray(items) => forall x | x in items :: Normal(rt, x)
    case JObject(fields) =>
      forall k | k in fields ::
        if IsPersonalField(rt, k) then IsReferenceJson(rt, fields[k]) else Normal(rt, fields[k])
    case _ => true
  }

  predicate IsReferenceJson(rt: Runtime, j: Json)
  {
    j.JObject? && REFERENCE_KEY in j.fields && j.fields[REFERENCE_KEY].JString?
    && var text := j.fields[REFERENCE_KEY].text;
       j == ReferenceJson(text) && text != "" && rt.Trimmed(text) && rt.nfc(text) == text
  }

  /** The Python value a normalised payload is: dictionaries, lists and scalars only. */
  function FromJson(j: Json): Value
    decreases j, 1
  {
    match j
    case JNull => PyNone
    case JBool(b) => PyBool(b)
    case JInt(n) => PyInt(n)
    case JFloat(t) => PyFloat(t)
    case JString(s) => PyText(s)
    case JArray(items) => PyList(FromJsonList(items))
    case JObject(fields) => PyDict(FromJsonItems(j, SortedKeys(fields.Keys)))
  }

  function FromJsonList(items: seq<Json>): seq<Value>
    decreases items, 0
  {
    if items == [] then [] else [FromJson(items[0])] + FromJsonList(items[1..])
  }

  function FromJsonItems(obj: Json, keys: seq<string>): (items: seq<(Key, Value)>)
    requires obj.JObject? && forall k :: k in keys ==> k in obj.fields
    ensures |items| == |keys|
    decreases obj, 0, |keys|
  {
    if keys == [] then []
    else [(TextKey(keys[0]), FromJson(obj.fields[keys[0]]))] + FromJsonItems(obj, keys[1..])
  }

  lemma ReferenceNotPersonal(rt: Runtime)
    requires rt.Lawful()
    ensures !IsPersonalField(rt, REFERENCE_KEY)
  {
    assert IsLowerWord(REFERENCE_KEY);
    assert HyphensToUnderscores(REFERENCE_KEY) == REFERENCE_KEY;
    assert |REFERENCE_KEY| == 9 && REFERENCE_KEY[0] == 'r';
  }

  lemma ReferenceIsNormal(rt: Runtime, v: Value)
    requires rt.Lawful() && NormaliseReference(rt, v).Ok?
    ensures IsReferenceJson(rt, NormaliseReference(rt, v).value)
    ensures Normal(rt, NormaliseReference(rt, v).value)
  {
    ReferenceNotPersonal(rt);
  }

  /** Every payload that is accepted comes out in normal form. */
  lemma {:induction false} NormaliseIsNormal(rt: Runtime, v: Value)
    requires rt.Lawful() && NormaliseValue(rt, v).Ok?
    ensures Normal(rt, NormaliseValue(rt, v).value)
    decreases v, 1
  {
    match v
    case PersonalReference(reference) => ReferenceIsNormal(rt, reference);
    case PyDict(items) => ItemsNormal(rt, items);
    case PyList(elements) => ListNormal(rt, elements);
    case _ =>
  }

  lemma {:induction false} ListNormal(rt: Runtime, elements: seq<Value>)
    requires rt.Lawful() && NormaliseList(rt, elements).Ok?
    ensures forall x :: x in NormaliseList(rt, elements).value ==> Normal(rt, x)
    decreases elements, 0
  {
    if elements != [] {
      NormaliseIsNormal(rt, elements[0]);
      ListNormal(rt, elements[1..]);
    }
  }

  predicate NormalMember(rt: Runtime, key: string, j: Json)
  {
    if IsPersonalField(rt, key) then IsReferenceJson(rt, j) else Normal(rt, j)
  }

  lemma {:induction false} ItemsNormal(rt: Runtime, items: seq<(Key, Value)>)
    requires rt.Lawful() && NormaliseItems(rt, items).Ok?
    ensures forall k :: k in NormaliseItems(rt, items).value ==> NormalMember(rt, k, NormaliseItems(rt, items).value[k])
    decreases items, 0
  {
    if items != [] {
      ItemNormal(rt, items[0]);
      ItemsNormal(rt, items[1..]);
    }
  }

  lemma {:induction false} ItemNormal(rt: Runtime, item: (Key, Value))
    requires rt.Lawful() && NormaliseItem(rt, item).Ok?
    ensures NormalMember(rt, NormaliseItem(rt, item).value.0, NormaliseItem(rt, item).value.1)
    decreases item, 2
  {
    if IsPersonalField(rt, item.0.text) {
      ReferenceIsNormal(rt, item.1.items[0].1);
    } else {
      NormaliseIsNormal(rt, item.1);
    }
  }

  /** A normalised payload is left alone: normalising is idempotent. */
  lemma {:induction false} NormalIsFixed(rt: Runtime, j: Json)
    requires Normal(rt, j)
    ensures NormaliseValue(rt, FromJson(j)) == Ok(j)
    decreases j, 1
  {
    match j
    case JArray(items) =>
      hide NormaliseList, FromJsonList;
      ListFixed(rt, items);
    case JObject(fields) =>
      hide NormaliseItems, FromJsonItems, Restrict;
      var keys := SortedKeys(fields.Keys);
      ItemsFixed(rt, j, keys);
      RestrictAll(fields);
    case _ =>
  }

  lemma {:induction false} ListFixed(rt: Runtime, items: seq<Json>)
    requires forall x :: x in items ==> Normal(rt, x)
    ensures NormaliseList(rt, FromJsonList(items)) == Ok(items)
    decreases items, 0
  {
    if items != [] {
      hide NormaliseValue, FromJson;
      NormalIsFixed(rt, items[0]);
      ListFixed(rt, items[1..]);
      assert FromJsonList(items)[1..] == FromJsonList(items[1..]);
      assert [items[0]] + items[1..] == items;
    }
  }

  lemma {:induction false} ItemsFixed(rt: Runtime, obj: Json, keys: seq<string>)
    requires obj.JObject? && Normal(rt, obj)
    requires forall k :: k in keys ==> k in obj.fields
    ensures NormaliseItems(rt, FromJsonItems(obj, keys)) == Ok(Restrict(obj.fields, keys))
    decreases obj, 0, |keys|
  {
    if keys != [] {
      var key, value := keys[0], obj.fields[keys[0]];
      var items := FromJsonItems(obj, keys);
      assert items[1..] == FromJsonItems(obj, keys[1..]);
      if IsPersonalField(rt, key) {
        ReferenceFixed(rt, value);
      } else {
        NormalIsFixed(rt, value);
      }
      assert NormaliseItem(rt, items[0]) == Ok((key, value));
      ItemsFixed(rt, obj, keys[1..]);
      RestrictCons(obj.fields, keys);
    } else {
      assert Restrict(obj.fields, keys) == map[];
    }
  }

  lemma ReferenceFixed(rt: Runtime, j: Json)
    requires IsReferenceJson(rt, j)
    ensures IsReferenceObject(FromJson(j))
    ensures NormaliseReference(rt, FromJson(j).items[0].1) == Ok(j)
  {
    var text := j.fields[REFERENCE_KEY].text;
    var keys := SortedKeys(j.fields.Keys);
    assert j.fields.Keys == {REFERENCE_KEY};
    assert keys[0] in j.fields.Keys;
    assert keys == [REFERENCE_KEY];
    assert FromJson(j) == PyDict(FromJsonItems(j, keys));
    assert FromJsonItems(j, keys)[0] == (TextKey(REFERENCE_KEY), FromJson(j.fields[REFERENCE_KEY]));
    assert j.fields[REFERENCE_KEY] == JString(text);
    rt.StripTrimmed(text);
  }

  /** Normalising what normalisation returned changes nothing, so recorder, store and digest agree. */
  lemma NormaliseIdempotent(rt: Runtime, payload: Value)
    requires rt.Lawful() && NormalisePayload(rt, payload).Ok?
    ensures NormalisePayload(rt, FromJson(NormalisePayload(rt, payload).value)) == NormalisePayload(rt, payload)
  {
    NormaliseIsNormal(rt, payload);
    NormalIsFixed(rt, NormalisePayload(rt, payload).value);
  }

  /** The canonical text determines the normalised payload, and the other way round. */
  lemma CanonicalDetermines(rt: Runtime, a: Value, b: Value)
    requires NormalisePayload(rt, a).Ok? && NormalisePayload(rt, b).Ok?
    ensures CanonicalPayload(rt, a) == CanonicalPayload(rt, b) <==> NormalisePayload(rt, a) == NormalisePayload(rt, b)
  {
    if CanonicalPayload(rt, a) == CanonicalPayload(rt, b) {
      DumpsInjective(false, NormalisePayload(rt, a).value, NormalisePayload(rt, b).value);
    }
  }

  /** A dictionary holds each text key once. */
  predicate DistinctKeys(items: seq<(Key, Value)>)
  {
    forall i, j :: 0 <= i < j < |items| && items[i].0.TextKey? ==> items[i].0 != items[j].0
  }

  predicate HasKey(items: seq<(Key, Value)>, key: string)
  {
    exists i :: 0 <= i < |items| && items[i].0 == TextKey(key)
  }

  predicate Holds(m: map<string, Json>, key: string, j: Json) { key in m && m[key] == j }

  /** Some item contributes this member. */
  predicate Given(rt: Runtime, items: seq<(Key, Value)>, key: string, j: Json)
  {
    exists i :: 0 <= i < |items| && NormaliseItem(rt, items[i]) == Ok((key, j))
  }

  lemma ItemKeepsKey(rt: Runtime, item: (Key, Value))
    requires NormaliseItem(rt, item).Ok?
    ensures item.0 == TextKey(NormaliseItem(rt, item).value.0)
  {
    hide NormaliseValue, NormaliseReference, IsPersonalField;
  }

  lemma {:induction false} KeysPresent(rt: Runtime, items: seq<(Key, Value)>, key: string)
    requires NormaliseItems(rt, items).Ok? && key in NormaliseItems(rt, items).value
    ensures HasKey(items, key)
  {
    hide NormaliseItem;
    ItemKeepsKey(rt, items[0]);
    if items[0].0 != TextKey(key) {
      KeysPresent(rt, items[1..], key);
      var i :| 0 <= i < |items[1..]| && items[1..][i].0 == TextKey(key);
      assert items[i + 1].0 == TextKey(key);
    }
  }

  lemma GivenStep(rt: Runtime, items: seq<(Key, Value)>, key: string, j: Json)
    requires items != []
    ensures Given(rt, items, key, j) <==> NormaliseItem(rt, items[0]) == Ok((key, j)) || Given(rt, items[1..], key, j)
  {
    hide NormaliseItem;
    if Given(rt, items[1..], key, j) {
      var i :| 0 <= i < |items[1..]| && NormaliseItem(rt, items[1..][i]) == Ok((key, j));
      assert items[i + 1] == items[1..][i];
    }
    if Given(rt, items, key, j) {
      var i :| 0 <= i < |items| && NormaliseItem(rt, items[i]) == Ok((key, j));
      if i > 0 { assert items[1..][i - 1] == items[i]; }
    }
  }

  lemma FirstKeyOnce(items: seq<(Key, Value)>, key: string)
    requires items != [] && DistinctKeys(items) && items[0].0 == TextKey(key)
    ensures !HasKey(items[1..], key)
  {}

  /** An accepted dictionary holds exactly what its items contribute. */
  lemma {:induction false} ItemsMeaning(rt: Runtime, items: seq<(Key, Value)>, key: string, j: Json)
    requires DistinctKeys(items) && NormaliseItems(rt, items).Ok?
    ensures Holds(NormaliseItems(rt, items).value, key, j) <==> Given(rt, items, key, j)
  {
    if items != [] {
      assert NormaliseItems(rt, items[1..]).Ok?;
      var (k0, j0) := NormaliseItem(rt, items[0]).value;
      var rest := NormaliseItems(rt, items[1..]).value;
      assert NormaliseItems(rt, items).value == map[k0 := j0] + rest;
      hide NormaliseItem, NormaliseItems, Given, DistinctKeys, HasKey;
      ItemKeepsKey(rt, items[0]);
      FirstKeyOnce(items, k0);
      if k0 in rest { KeysPresent(rt, items[1..], k0); }
      RestDistinct(items);
      ItemsMeaning(rt, items[1..], key, j);
      GivenStep(rt, items, key, j);
    }
  }

  lemma RestDistinct(items: seq<(Key, Value)>)
    requires items != [] && DistinctKeys(items)
    ensures DistinctKeys(items[1..])
  {}

  /** A dictionary is accepted when every item is. */
  lemma {:induction false} AcceptedIffItems(rt: Runtime, items: seq<(Key, Value)>)
    ensures NormaliseItems(rt, items).Ok? <==> forall x :: x in items ==> NormaliseItem(rt, x).Ok?
  {
    if items != [] {
      AcceptedIffItems(rt, items[1..]);
      assert NormaliseItems(rt, items).Ok? <==> NormaliseItem(rt, items[0]).Ok? && NormaliseItems(rt, items[1..]).Ok?;
      hide NormaliseItem, NormaliseItems;
      ConsMembers(items);
      forall x | x in items && NormaliseItem(rt, items[0]).Ok? && NormaliseItems(rt, items[1..]).Ok? ensures NormaliseItem(rt, x).Ok? {}
      assert items[0] in items && forall x :: x in items[1..] ==> x in items;
    }
  }

  lemma SameMembers(a: seq<(Key, Value)>, b: seq<(Key, Value)>)
    requires multiset(a) == multiset(b)
    ensures forall x :: x in a <==> x in b
  {
    forall x ensures x in a <==> x in b { assert x in multiset(a) <==> x in multiset(b); }
  }

  lemma GivenPermuted(rt: Runtime, a: seq<(Key, Value)>, b: seq<(Key, Value)>, key: string, j: Json)
    requires multiset(a) == multiset(b) && Given(rt, a, key, j)
    ensures Given(rt, b, key, j)
  {
    hide NormaliseItem;
    SameMembers(a, b);
    var i :| 0 <= i < |a| && NormaliseItem(rt, a[i]) == Ok((key, j));
    assert a[i] in b;
  }

  lemma HeldPermuted(rt: Runtime, a: seq<(Key, Value)>, b: seq<(Key, Value)>, key: string)
    requires DistinctKeys(a) && DistinctKeys(b) && multiset(a) == multiset(b)
    requires NormaliseItems(rt, a).Ok? && NormaliseItems(rt, b).Ok? && key in NormaliseItems(rt, a).value
    ensures Holds(NormaliseItems(rt, b).value, key, NormaliseItems(rt, a).value[key])
  {
    hide NormaliseItem, NormaliseItems, Given, DistinctKeys;
    var j := NormaliseItems(rt, a).value[key];
    ItemsMeaning(rt, a, key, j);
    GivenPermuted(rt, a, b, key, j);
    ItemsMeaning(rt, b, key, j);
  }

  /** The order of a dictionary decides neither whether it is accepted nor its canonical text. */
  lemma KeyOrderIrrelevant(rt: Runtime, a: seq<(Key, Value)>, b: seq<(Key, Value)>)
    requires DistinctKeys(a) && DistinctKeys(b) && multiset(a) == multiset(b)
    ensures CanonicalPayload(rt, PyDict(a)).Ok? <==> CanonicalPayload(rt, PyDict(b)).Ok?
    ensures CanonicalPayload(rt, PyDict(a)).Ok? ==> CanonicalPayload(rt, PyDict(a)) == CanonicalPayload(rt, PyDict(b))
  {
    hide NormaliseItems, NormaliseItem, Dumps, DistinctKeys;
    AcceptedIffItems(rt, a);
    AcceptedIffItems(rt, b);
    SameMembers(a, b);
    if NormaliseItems(rt, a).Ok? {
      var m, n := NormaliseItems(rt, a).value, NormaliseItems(rt, b).value;
      forall key | key in m ensures key in n && n[key] == m[key] { HeldPermuted(rt, a, b, key); }
      forall key | key in n ensures key in m { HeldPermuted(rt, b, a, key); }
      assert m == n;
    }
  }
}
