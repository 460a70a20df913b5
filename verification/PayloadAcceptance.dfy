/** Which payloads the audit trail accepts, said of the value alone, and what it keeps of them (audit/chain.py). */
module PayloadAcceptance {
  import opened Prelude
  import opened Json
  import opened Runtime
  import opened AuditPayload

  // ---------- personal field names ----------

  /** The same text, hyphens read as underscores. */
  predicate SpellsName(s: string, name: string)
  {
    |s| == |name| && forall i :: 0 <= i < |s| ==> if s[i] == '-' then name[i] == '_' else s[i] == name[i]
  }

  /** A field is personal when its case-folded name spells one of the 28 names, with hyphens or underscores. */
  lemma PersonalFieldIff(rt: Runtime, key: string)
    ensures IsPersonalField(rt, key) <==> exists name :: name in PERSONAL_FIELD_NAMES && SpellsName(rt.casefold(key), name)
  {
    hide PERSONAL_FIELD_NAMES;
    var s := rt.casefold(key);
    forall name ensures SpellsName(s, name) <==> HyphensToUnderscores(s) == name {
      var h := HyphensToUnderscores(s);
      if SpellsName(s, name) { assert forall i :: 0 <= i < |s| ==> h[i] == name[i]; assert h == name; }
    }
    assert IsPersonalField(rt, key) ==> SpellsName(s, HyphensToUnderscores(s));
  }

  // ---------- acceptance ----------

  /** `v` occurs in `whole`: it is the value itself, or occurs in an element or under a key. */
  predicate Occurs(v: Value, whole: Value)
    decreases whole, 1
  {
    v == whole || (whole.PyList? && OccursInList(v, whole.elements)) || (whole.PyDict? && OccursInItems(v, whole.items))
  }

  predicate OccursInList(v: Value, elements: seq<Value>)
    decreases elements, 0
  {
    elements != [] && (Occurs(v, elements[0]) || OccursInList(v, elements[1..]))
  }

  predicate OccursInItems(v: Value, items: seq<(Key, Value)>)
    decreases items, 0
  {
    items != [] && (OccursUnder(v, items[0]) || OccursInItems(v, items[1..]))
  }

  predicate OccursUnder(v: Value, item: (Key, Value))
    decreases item, 2
  {
    Occurs(v, item.1)
  }

  /** Text that is not blank. */
  predicate IsReferenceText(rt: Runtime, v: Value) { v.PyText? && rt.Strip(v.text) != "" }

  /** A mapping whose only key is `reference`, with text that is not blank. */
  predicate IsReference(rt: Runtime, v: Value)
  {
    v.PyDict? && |v.items| == 1 && v.items[0].0 == TextKey("reference") && IsReferenceText(rt, v.items[0].1)
  }

  /** The item has a text key, and below a personal one only a reference. */
  predicate ItemAdmitted(rt: Runtime, item: (Key, Value))
  {
    item.0.TextKey? && (IsPersonalField(rt, item.0.text) ==> IsReference(rt, item.1))
  }

  /** Nothing about this one value, its parts aside, forbids it. */
  predicate Admitted(rt: Runtime, v: Value)
  {
    match v
    case PersonalValue => false
    case SurrogateText => false
    case NonFiniteFloat => false
    case Unserialisable => false
    case PersonalReference(reference) => IsReferenceText(rt, reference)
    case PyDict(items) => forall item :: item in items ==> ItemAdmitted(rt, item)
    case _ => true
  }

  ghost predicate AllAdmitted(rt: Runtime, whole: Value)
  {
    forall v :: Occurs(v, whole) ==> Admitted(rt, v)
  }

  lemma {:induction false} OccursInListIff(v: Value, elements: seq<Value>)
    ensures OccursInList(v, elements) <==> exists x :: x in elements && Occurs(v, x)
  {
    if elements != [] {
      OccursInListIff(v, elements[1..]);
      assert OccursInList(v, elements) <==> Occurs(v, elements[0]) || OccursInList(v, elements[1..]);
      hide Occurs, OccursInList;
      ConsMembers(elements);
      if Occurs(v, elements[0]) { assert elements[0] in elements; }
      if x :| x in elements[1..] && Occurs(v, x) { assert x in elements; }
    }
  }

  lemma {:induction false} OccursInItemsIff(v: Value, items: seq<(Key, Value)>)
    ensures OccursInItems(v, items) <==> exists item :: item in items && Occurs(v, item.1)
  {
    if items != [] {
      OccursInItemsIff(v, items[1..]);
      assert OccursInItems(v, items) <==> Occurs(v, items[0].1) || OccursInItems(v, items[1..]);
      hide Occurs, OccursInItems;
      ConsMembers(items);
      if Occurs(v, items[0].1) { assert items[0] in items; }
      if item :| item in items[1..] && Occurs(v, item.1) { assert item in items; }
    }
  }

  lemma ListAdmitted(rt: Runtime, elements: seq<Value>)
    ensures AllAdmitted(rt, PyList(elements)) <==> forall x :: x in elements ==> AllAdmitted(rt, x)
  {
    hide Admitted;
    assert Admitted(rt, PyList(elements)) by { PlainAdmitted(rt, elements); }
    forall v ensures OccursInList(v, elements) <==> exists x :: x in elements && Occurs(v, x) { OccursInListIff(v, elements); }
    hide OccursInList;
    forall v ensures Occurs(v, PyList(elements)) <==> v == PyList(elements) || exists x :: x in elements && Occurs(v, x) {}
    hide Occurs;
    if AllAdmitted(rt, PyList(elements)) {
      forall x, v | x in elements && Occurs(v, x) ensures Admitted(rt, v) { assert Occurs(v, PyList(elements)); }
    }
  }

  lemma PlainAdmitted(rt: Runtime, elements: seq<Value>)
    ensures Admitted(rt, PyList(elements))
  {}

  lemma DictAdmitted(rt: Runtime, items: seq<(Key, Value)>)
    ensures AllAdmitted(rt, PyDict(items)) <==>
              (forall item :: item in items ==> ItemAdmitted(rt, item)) && forall item :: item in items ==> AllAdmitted(rt, item.1)
  {
    forall v ensures OccursInItems(v, items) <==> exists item :: item in items && Occurs(v, item.1) { OccursInItemsIff(v, items); }
    hide OccursInItems, ItemAdmitted;
    assert Admitted(rt, PyDict(items)) <==> forall item :: item in items ==> ItemAdmitted(rt, item);
    forall v ensures Occurs(v, PyDict(items)) <==> v == PyDict(items) || exists item :: item in items && Occurs(v, item.1) {}
    hide Occurs, Admitted;
    if AllAdmitted(rt, PyDict(items)) {
      assert Occurs(PyDict(items), PyDict(items));
      forall item, v | item in items && Occurs(v, item.1) ensures Admitted(rt, v) { assert Occurs(v, PyDict(items)); }
    }
  }

  lemma LeafAdmitted(rt: Runtime, v: Value)
    requires !v.PyList? && !v.PyDict?
    ensures AllAdmitted(rt, v) <==> Admitted(rt, v)
  {}

  /** A reference holds nothing else that could be refused. */
  lemma ReferenceAdmitted(rt: Runtime, v: Value)
    requires rt.Lawful() && IsReference(rt, v)
    ensures AllAdmitted(rt, v)
  {
    ReferenceNotPersonal(rt);
    DictAdmitted(rt, v.items);
    LeafAdmitted(rt, v.items[0].1);
    assert forall item :: item in v.items ==> item == v.items[0];
  }

  lemma ReferenceAccepted(rt: Runtime, v: Value)
    ensures NormaliseReference(rt, v).Ok? <==> IsReferenceText(rt, v)
  {}

  /** The payload value is accepted exactly when everything that occurs in it is admitted. */
  lemma {:induction false} AcceptedIff(rt: Runtime, v: Value)
    requires rt.Lawful()
    ensures NormaliseValue(rt, v).Ok? <==> AllAdmitted(rt, v)
    decreases v, 1
  {
    match v
    case PyList(elements) =>
      ListAcceptedIff(rt, elements);
      ListAdmitted(rt, elements);
      hide NormaliseList, AllAdmitted;
    case PyDict(items) =>
      ItemsAcceptedIff(rt, items);
      DictAdmitted(rt, items);
      hide NormaliseItems, AllAdmitted;
    case PersonalReference(reference) =>
      ReferenceAccepted(rt, reference);
      LeafAdmitted(rt, v);
    case _ => LeafAdmitted(rt, v);
  }

  lemma {:induction false} ListAcceptedIff(rt: Runtime, elements: seq<Value>)
    requires rt.Lawful()
    ensures NormaliseList(rt, elements).Ok? <==> forall x :: x in elements ==> AllAdmitted(rt, x)
    decreases elements, 0
  {
    hide NormaliseValue, AllAdmitted, Runtime.Lawful;
    if elements != [] {
      AcceptedIff(rt, elements[0]);
      ListAcceptedIff(rt, elements[1..]);
      ConsMembers(elements);
    }
  }

  lemma {:induction false} ItemsAcceptedIff(rt: Runtime, items: seq<(Key, Value)>)
    requires rt.Lawful()
    ensures NormaliseItems(rt, items).Ok? <==>
              (forall item :: item in items ==> ItemAdmitted(rt, item)) && forall item :: item in items ==> AllAdmitted(rt, item.1)
    decreases items, 0
  {
    hide AllAdmitted, Runtime.Lawful, ItemAdmitted;
    if items != [] {
      ItemAcceptedIff(rt, items[0]);
      ItemsAcceptedIff(rt, items[1..]);
      assert NormaliseItems(rt, items).Ok? <==> NormaliseItem(rt, items[0]).Ok? && NormaliseItems(rt, items[1..]).Ok?;
      hide NormaliseItem, NormaliseItems;
      ConsMembers(items);
    }
  }

  lemma {:induction false} ItemAcceptedIff(rt: Runtime, item: (Key, Value))
    requires rt.Lawful()
    ensures NormaliseItem(rt, item).Ok? <==> ItemAdmitted(rt, item) && AllAdmitted(rt, item.1)
    decreases item, 2
  {
    hide AllAdmitted, Runtime.Lawful, IsPersonalField, NormaliseValue;
    if item.0.TextKey? {
      if IsPersonalField(rt, item.0.text) {
        if IsReferenceObject(item.1) { ReferenceAccepted(rt, item.1.items[0].1); }
        if IsReference(rt, item.1) { ReferenceAdmitted(rt, item.1); }
      } else {
        AcceptedIff(rt, item.1);
      }
    }
  }

  /** A payload is accepted exactly when it is a mapping in which everything is admitted. */
  lemma PayloadAcceptedIff(rt: Runtime, payload: Value)
    requires rt.Lawful()
    ensures NormalisePayload(rt, payload).Ok? <==> payload.PyDict? && AllAdmitted(rt, payload)
  {
    hide AllAdmitted, NormaliseValue;
    AcceptedIff(rt, payload);
  }

  // ---------- what is kept ----------

  /** Scalars as they are, text up to NFC, lists element by element, mappings key by key; a reference is trimmed. */
  predicate Keeps(rt: Runtime, v: Value, j: Json)
    decreases v, 1
  {
    match v
    case PyNone => j == JNull
    case PyBool(b) => j == JBool(b)
    case PyInt(n) => j == JInt(n)
    case PyFloat(t) => j == JFloat(t)
    case PyText(s) => j == JString(rt.nfc(s))
    case PyList(elements) => j.JArray? && |j.items| == |elements| && KeepsList(rt, elements, j.items)
    case PyDict(items) => j.JObject? && KeepsItems(rt, items, j.fields)
    case PersonalReference(reference) => KeepsReference(rt, reference, j)
    case _ => false
  }

  predicate KeepsList(rt: Runtime, elements: seq<Value>, items: seq<Json>)
    requires |elements| == |items|
    decreases elements, 0
  {
    elements != [] ==> Keeps(rt, elements[0], items[0]) && KeepsList(rt, elements[1..], items[1..])
  }

  predicate KeepsReference(rt: Runtime, v: Value, j: Json)
  {
    v.PyText? && j == JObject(map["reference" := JString(rt.nfc(rt.Strip(v.text)))])
  }

  /** What is under a key: a reference under a personal one, and otherwise the value. */
  predicate KeepsUnder(rt: Runtime, item: (Key, Value), j: Json)
    decreases item, 2
  {
    item.0.TextKey?
    && if IsPersonalField(rt, item.0.text) then IsReference(rt, item.1) && KeepsReference(rt, item.1.items[0].1, j)
       else Keeps(rt, item.1, j)
  }

  /** Exactly the keys of the items; when one is repeated its last item counts. */
  predicate KeepsItems(rt: Runtime, items: seq<(Key, Value)>, fields: map<string, Json>)
    decreases items, 0
  {
    if items == [] then fields == map[] else
    && items[0].0.TextKey?
    && if HasKey(items[1..], items[0].0.text) then KeepsItems(rt, items[1..], fields)
       else
         && items[0].0.text in fields && KeepsUnder(rt, items[0], fields[items[0].0.text])
         && KeepsItems(rt, items[1..], fields - {items[0].0.text})
  }

  lemma ReferenceKept(rt: Runtime, v: Value)
    requires NormaliseReference(rt, v).Ok?
    ensures KeepsReference(rt, v, NormaliseReference(rt, v).value)
  {}

  /** What is accepted is kept. */
  lemma {:induction false} AcceptedIsKept(rt: Runtime, v: Value)
    requires NormaliseValue(rt, v).Ok?
    ensures Keeps(rt, v, NormaliseValue(rt, v).value)
    decreases v, 1
  {
    match v
    case PyList(elements) => ListKept(rt, elements);
    case PyDict(items) => ItemsKept(rt, items);
    case PersonalReference(reference) => ReferenceKept(rt, reference);
    case _ =>
  }

  lemma {:induction false} ListKept(rt: Runtime, elements: seq<Value>)
    requires NormaliseList(rt, elements).Ok?
    ensures |NormaliseList(rt, elements).value| == |elements| && KeepsList(rt, elements, NormaliseList(rt, elements).value)
    decreases elements, 0
  {
    hide Keeps, NormaliseValue;
    if elements != [] {
      AcceptedIsKept(rt, elements[0]);
      ListKept(rt, elements[1..]);
      assert NormaliseList(rt, elements).value[1..] == NormaliseList(rt, elements[1..]).value;
    }
  }

  lemma {:induction false} ItemKept(rt: Runtime, item: (Key, Value))
    requires NormaliseItem(rt, item).Ok?
    ensures item.0 == TextKey(NormaliseItem(rt, item).value.0) && KeepsUnder(rt, item, NormaliseItem(rt, item).value.1)
    decreases item, 2
  {
    hide Keeps, NormaliseValue, IsPersonalField;
    if IsPersonalField(rt, item.0.text) {
      ReferenceKept(rt, item.1.items[0].1);
      ReferenceAccepted(rt, item.1.items[0].1);
    } else {
      AcceptedIsKept(rt, item.1);
    }
  }

  lemma {:induction false} ItemsKept(rt: Runtime, items: seq<(Key, Value)>)
    requires NormaliseItems(rt, items).Ok?
    ensures KeepsItems(rt, items, NormaliseItems(rt, items).value)
    decreases items, 0
  {
    if items != [] {
      var first, rest := items[0], items[1..];
      ItemKept(rt, first);
      ItemsKept(rt, rest);
      var (key, j) := NormaliseItem(rt, first).value;
      var fields := NormaliseItems(rt, rest).value;
      assert NormaliseItems(rt, items).value == map[key := j] + fields;
      KeyHeldIff(rt, rest, key);
      hide NormaliseItem, NormaliseItems, KeepsUnder, HasKey;
      if key in fields { assert map[key := j] + fields == fields; } else { assert (map[key := j] + fields) - {key} == fields; }
    }
  }

  lemma {:induction false} KeyHeldIff(rt: Runtime, items: seq<(Key, Value)>, key: string)
    requires NormaliseItems(rt, items).Ok?
    ensures key in NormaliseItems(rt, items).value <==> HasKey(items, key)
  {
    if items != [] {
      KeyHeldIff(rt, items[1..], key);
      ItemKeepsKey(rt, items[0]);
      hide NormaliseItem;
      if HasKey(items[1..], key) {
        var i :| 0 <= i < |items[1..]| && items[1..][i].0 == TextKey(key);
        assert items[i + 1].0 == TextKey(key);
      }
      if HasKey(items, key) {
        var i :| 0 <= i < |items| && items[i].0 == TextKey(key);
        assert i > 0 ==> items[1..][i - 1].0 == TextKey(key);
      }
    }
  }

  /** An accepted payload keeps its keys and, up to normalisation, its texts. */
  lemma PayloadIsKept(rt: Runtime, payload: Value)
    requires NormalisePayload(rt, payload).Ok?
    ensures Keeps(rt, payload, NormalisePayload(rt, payload).value)
  {
    AcceptedIsKept(rt, payload);
  }

  /** A plain e-mail address under `email` is refused. */
  lemma PlainEmailRefused(rt: Runtime)
    requires rt.Lawful()
    ensures NormalisePayload(rt, PyDict([(TextKey("email"), PyText("asha@example.in"))])).Err?
  {
    var payload := PyDict([(TextKey("email"), PyText("asha@example.in"))]);
    assert IsLowerWord("email") && rt.casefold("email") == "email";
    assert "email" in PERSONAL_FIELD_NAMES && SpellsName("email", "email");
    PersonalFieldIff(rt, "email");
    hide Runtime.Lawful;
    assert payload.items[0] in payload.items;
    assert !Admitted(rt, payload) && Occurs(payload, payload);
    hide Admitted, Occurs, NormalisePayload;
    assert !AllAdmitted(rt, payload);
    PayloadAcceptedIff(rt, payload);
  }
}
