/** Sample request bodies generated from an OpenAPI schema tree
    (`generateSampleData` in app/page.js). */
module SampleData {
  import opened JsValues

  /** `generateSampleData(schema)` where `schema` may be `undefined`. */
  function SampleOf(schema: Option<JsValue>): (r: JsValue)
    ensures schema.None? || !Truthy(schema.value) ==> r == EmptyObject
    ensures schema.Some? && Truthy(schema.value) && Get(schema.value, "example").Some? ==>
              r == Get(schema.value, "example").value
    ensures schema.Some? && Truthy(schema.value) && Get(schema.value, "example").None? ==>
              var t := Get(schema.value, "type");
              && (t == Some(JStr("string")) ==> r == JStr("test_string"))
              && (t == Some(JStr("number")) || t == Some(JStr("integer")) ==> r == JNum(42))
              && (t == Some(JStr("boolean")) ==> r == JBool(true))
              && (t == Some(JStr("array")) ==>
                    var items := Get(schema.value, "items");
                    && (IsSet(items) ==> r == JArr([Sample(items.value)]))
                    && (!IsSet(items) ==> r == JArr([])))
              && (t == Some(JStr("object")) ==>
                    r.JObj? && UniqueKeys(r.fields) &&
                    (!IsSet(Get(schema.value, "properties")) ==> r == EmptyObject))
              && (!IsKnownType(t) ==> r == EmptyObject)
  {
    match schema
    case None => EmptyObject
    case Some(s) => Sample(s)
  }

  predicate IsKnownType(t: Option<JsValue>) {
    t in {Some(JStr("string")), Some(JStr("number")), Some(JStr("integer")),
          Some(JStr("boolean")), Some(JStr("array")), Some(JStr("object"))}
  }

  /** The sample for a schema that is present. A falsy schema gives `{}`; a
      defined `example` wins over everything else; otherwise the `type`
      decides. Object properties are sampled in `Object.entries` order and
      assigned to a fresh object. A one-character string (the entry value of
      a string-valued `properties`) has neither `example` nor `type`, so its
      sample is `{}`; `SampleEntriesFaithful` shows this shortcut agrees with
      sampling every entry. */
  function Sample(schema: JsValue): JsValue
    decreases schema
  {
    if !Truthy(schema) then EmptyObject
    else
      var example := Get(schema, "example");
      if example.Some? then example.value
      else
        var t := Get(schema, "type");
        if t == Some(JStr("string")) then JStr("test_string")
        else if t == Some(JStr("number")) || t == Some(JStr("integer")) then JNum(42)
        else if t == Some(JStr("boolean")) then JBool(true)
        else if t == Some(JStr("array")) then
          var items := Get(schema, "items");
          if IsSet(items) then
            GetChild(schema, "items");
            JArr([Sample(items.value)])
          else JArr([])
        else if t == Some(JStr("object")) then
          var props := Get(schema, "properties");
          if IsSet(props) then
            GetChild(schema, "properties");
            JObj(FromEntries(SampleProps(props.value)))
          else EmptyObject
        else EmptyObject
  }

  /** The `(key, sample)` pairs for the entries of a truthy `properties`
      value, in `Object.entries` order. */
  function SampleProps(props: JsValue): seq<(string, JsValue)>
    decreases props
  {
    match props
    case JObj(ps) => seq(|ps|, i requires 0 <= i < |ps| => (ps[i].0, Sample(ps[i].1)))
    case JArr(xs) => seq(|xs|, i requires 0 <= i < |xs| => (NatToString(i), Sample(xs[i])))
    case JStr(cs) => seq(|cs|, i requires 0 <= i < |cs| => (NatToString(i), EmptyObject))
    case _ => []
  }

  /** Samples every entry of `Object.entries(props)` in order. */
  function SampleEach(es: seq<(string, JsValue)>): (r: seq<(string, JsValue)>)
    ensures |r| == |es|
    ensures forall i :: 0 <= i < |es| ==> r[i] == (es[i].0, Sample(es[i].1))
  {
    seq(|es|, i requires 0 <= i < |es| => (es[i].0, Sample(es[i].1)))
  }

  /** The object branch is exactly the source's loop: assign
      `obj[key] = generateSampleData(propSchema)` for every entry of
      `Object.entries(properties)`, whatever kind of value `properties` is. */
  lemma SampleEntriesFaithful(props: JsValue)
    requires Truthy(props)
    ensures SampleProps(props) == SampleEach(Entries(props))
  {
    if props.JStr? {
      var es := Entries(props);
      forall i | 0 <= i < |es|
        ensures SampleEach(es)[i] == SampleProps(props)[i]
      {
        assert Sample(es[i].1) == EmptyObject;
      }
    }
  }

  /** An object schema whose `properties` is an object with distinct keys
      yields an object with exactly those keys, in the same order, each
      mapped to the sample of its own sub-schema. */
  lemma SampleObjectBranch(schema: JsValue)
    requires Truthy(schema) && Get(schema, "example").None?
    requires Get(schema, "type") == Some(JStr("object"))
    requires IsSet(Get(schema, "properties"))
    ensures Sample(schema) == JObj(FromEntries(SampleProps(Get(schema, "properties").value)))
  {
  }

  lemma SampleObjectFields(schema: JsValue)
    requires Truthy(schema) && Get(schema, "example").None?
    requires Get(schema, "type") == Some(JStr("object"))
    requires Get(schema, "properties").Some? && Get(schema, "properties").value.JObj?
    requires UniqueKeys(Get(schema, "properties").value.fields)
    ensures Sample(schema) == JObj(SampleEach(Get(schema, "properties").value.fields))
  {
    var ps := Get(schema, "properties").value.fields;
    var sampled := SampleEach(ps);
    SampleObjectBranch(schema);
    assert SampleProps(JObj(ps)) == sampled;
    assert UniqueKeys(sampled) by {
      forall i, j | 0 <= i < j < |sampled|
        ensures sampled[i].0 != sampled[j].0
      {
        assert sampled[i].0 == ps[i].0 && sampled[j].0 == ps[j].0;
      }
    }
    FromEntriesUnique(sampled);
  }

  /** Independent reading of a schema as a validator: a value conforms when
      it equals the `example`, or has the JSON kind `type` names, with every
      array element conforming to `items` and every declared property
      present and conforming. */
  predicate Conforms(v: JsValue, schema: JsValue)
    decreases schema
  {
    if !Truthy(schema) then true
    else match Get(schema, "example")
      case Some(e) => v == e
      case None =>
        var t := Get(schema, "type");
        if t == Some(JStr("string")) then v.JStr?
        else if t == Some(JStr("number")) || t == Some(JStr("integer")) then v.JNum?
        else if t == Some(JStr("boolean")) then v.JBool?
        else if t == Some(JStr("array")) then
          var items := Get(schema, "items");
          if !v.JArr? then false
          else if !IsSet(items) then true
          else
            GetChild(schema, "items");
            forall j :: 0 <= j < |v.items| ==> Conforms(v.items[j], items.value)
        else if t == Some(JStr("object")) then
          var props := Get(schema, "properties");
          if !v.JObj? then false
          else if !(props.Some? && props.value.JObj?) then true
          else
            GetChild(schema, "properties");
            forall i :: 0 <= i < |props.value.fields| ==>
              Get(v, props.value.fields[i].0).Some? &&
              Conforms(Get(v, props.value.fields[i].0).value, props.value.fields[i].1)
        else true
  }

  lemma WellFormedChild(v: JsValue, k: string)
    requires WellFormed(v)
    requires Get(v, k).Some?
    ensures WellFormed(Get(v, k).value)
  {
    GetChild(v, k);
  }

  /** Every generated sample validates against the schema it came from. */
  lemma {:induction false} SampleConforms(schema: JsValue)
    requires WellFormed(schema)
    ensures Conforms(Sample(schema), schema)
    decreases schema
  {
    if Truthy(schema) && Get(schema, "example").None? {
      var t := Get(schema, "type");
      if t == Some(JStr("array")) {
        var items := Get(schema, "items");
        if IsSet(items) {
          GetChild(schema, "items");
          WellFormedChild(schema, "items");
          SampleConforms(items.value);
        }
      } else if t == Some(JStr("object")) {
        var props := Get(schema, "properties");
        if props.Some? && props.value.JObj? {
          var ps := props.value.fields;
          GetChild(schema, "properties");
          WellFormedChild(schema, "properties");
          SampleObjectFields(schema);
          var sampled := SampleEach(ps);
          forall i | 0 <= i < |ps|
            ensures Get(Sample(schema), ps[i].0).Some?
            ensures Conforms(Get(Sample(schema), ps[i].0).value, ps[i].1)
          {
            assert UniqueKeys(sampled) by {
              forall a, b | 0 <= a < b < |sampled|
                ensures sampled[a].0 != sampled[b].0
              {
                assert sampled[a].0 == ps[a].0 && sampled[b].0 == ps[b].0;
              }
            }
            LookupUnique(sampled, i);
            SampleConforms(ps[i].1);
          }
        }
      }
    }
  }
}
