/** The post-parse part of `validateAndFixOpenApiSpec` (app/page.js): fill
    in the version, `info` and `paths` of a parsed OpenAPI document so the
    documentation viewer can render it. */
module SpecFix {
  import opened JsValues

  const DefaultVersion: JsValue := JStr("3.0.0")

  const DefaultInfo: JsValue :=
    JObj([("title", JStr("Generated API")),
          ("version", JStr("1.0.0")),
          ("description", JStr("API generated from user description"))])

  /** `Fixed` is the returned document; `Retry` is the `null` return after
      the `onRetry` callback has been invoked. */
  datatype FixOutcome = Fixed(spec: JsValue) | Retry

  /** A truthy `openapi` or `swagger` field. */
  predicate HasVersion(spec: JsValue) {
    IsSet(Get(spec, "openapi")) || IsSet(Get(spec, "swagger"))
  }

  predicate IsCompleteSpec(spec: JsValue) {
    spec.JObj? && HasVersion(spec) && IsSet(Get(spec, "info")) && IsSet(Get(spec, "paths"))
  }

  /** `if (!obj[k]) obj[k] = fallback;` */
  function Default(fs: seq<(string, JsValue)>, k: string, fallback: JsValue): (r: seq<(string, JsValue)>)
    ensures IsSet(Lookup(fs, k)) ==> Lookup(r, k) == Lookup(fs, k)
    ensures !IsSet(Lookup(fs, k)) ==> Lookup(r, k) == Some(fallback)
    ensures forall k' :: k' != k ==> Lookup(r, k') == Lookup(fs, k')
    ensures |Keys(r)| >= |fs| && Keys(r)[..|fs|] == Keys(fs)
    ensures UniqueKeys(fs) ==> UniqueKeys(r)
  {
    if IsSet(Lookup(fs, k)) then fs
    else
      SetFieldKeys(fs, k, fallback);
      SetFieldKeepsUnique(fs, k, fallback);
      SetField(fs, k, fallback)
  }

  /** The version step: `openapi` is filled in only when neither `openapi`
      nor `swagger` is truthy. */
  function DefaultVersionField(fs: seq<(string, JsValue)>): (r: seq<(string, JsValue)>)
    ensures HasVersion(JObj(fs)) ==> r == fs
    ensures !HasVersion(JObj(fs)) ==> r == Default(fs, "openapi", DefaultVersion)
  {
    if IsSet(Lookup(fs, "openapi")) || IsSet(Lookup(fs, "swagger")) then fs
    else Default(fs, "openapi", DefaultVersion)
  }

  /** The three assignments, in source order. */
  function FixFields(fs: seq<(string, JsValue)>): (r: seq<(string, JsValue)>)
    ensures HasVersion(JObj(fs)) ==> Lookup(r, "openapi") == Lookup(fs, "openapi")
    ensures !HasVersion(JObj(fs)) ==> Lookup(r, "openapi") == Some(DefaultVersion)
    ensures Lookup(r, "swagger") == Lookup(fs, "swagger")
    ensures IsSet(Lookup(fs, "info")) ==> Lookup(r, "info") == Lookup(fs, "info")
    ensures !IsSet(Lookup(fs, "info")) ==> Lookup(r, "info") == Some(DefaultInfo)
    ensures IsSet(Lookup(fs, "paths")) ==> Lookup(r, "paths") == Lookup(fs, "paths")
    ensures !IsSet(Lookup(fs, "paths")) ==> Lookup(r, "paths") == Some(EmptyObject)
    ensures forall k :: k != "openapi" && k != "info" && k != "paths" ==> Lookup(r, k) == Lookup(fs, k)
  {
    Default(Default(DefaultVersionField(fs), "info", DefaultInfo), "paths", EmptyObject)
  }

  /** `parsed` is the parser's result, `None` when both the JSON and the
      YAML parser throw. Reading `openapi` of `null` throws, and (module code
      being strict) so does assigning a property to a string, number or
      boolean; both end in `Retry`. */
  function FixSpec(parsed: Option<JsValue>): (r: FixOutcome)
    ensures r.Fixed? <==> parsed.Some? && parsed.value.JObj?
    ensures r.Fixed? ==> IsCompleteSpec(r.spec)
    ensures r.Fixed? ==>
              var spec := parsed.value;
              && (HasVersion(spec) ==> Get(r.spec, "openapi") == Get(spec, "openapi"))
              && (!HasVersion(spec) ==> Get(r.spec, "openapi") == Some(DefaultVersion))
              && Get(r.spec, "swagger") == Get(spec, "swagger")
              && (IsSet(Get(spec, "info")) ==> Get(r.spec, "info") == Get(spec, "info"))
              && (!IsSet(Get(spec, "info")) ==> Get(r.spec, "info") == Some(DefaultInfo))
              && (IsSet(Get(spec, "paths")) ==> Get(r.spec, "paths") == Get(spec, "paths"))
              && (!IsSet(Get(spec, "paths")) ==> Get(r.spec, "paths") == Some(EmptyObject))
    ensures r.Fixed? ==>
              forall k :: k != "openapi" && k != "info" && k != "paths" ==>
                Get(r.spec, k) == Get(parsed.value, k)
  {
    match parsed
    case Some(JObj(fs)) =>
      var fixed := FixFields(fs);
      assert forall k :: Get(JObj(fixed), k) == Lookup(fixed, k) && Get(JObj(fs), k) == Lookup(fs, k);
      Fixed(JObj(fixed))
    case _ => Retry
  }

  /** A complete document passes through unchanged. */
  lemma CompleteSpecIsFixedPoint(spec: JsValue)
    requires IsCompleteSpec(spec)
    ensures FixSpec(Some(spec)) == Fixed(spec)
  {
  }

  /** Applying the fix twice is the same as applying it once. */
  lemma FixSpecIdempotent(parsed: Option<JsValue>)
    requires parsed.Some? && parsed.value.JObj?
    ensures FixSpec(Some(FixSpec(parsed).spec)) == FixSpec(parsed)
  {
    CompleteSpecIsFixedPoint(FixSpec(parsed).spec);
  }

  /** Existing keys keep their order; missing ones are appended, and a
      document without repeated keys stays without them. */
  lemma FixSpecKeepsKeyOrder(fs: seq<(string, JsValue)>)
    ensures |Keys(FixFields(fs))| >= |fs|
    ensures Keys(FixFields(fs))[..|fs|] == Keys(fs)
    ensures UniqueKeys(fs) ==> UniqueKeys(FixFields(fs))
  {
    var v1 := DefaultVersionField(fs);
    var v2 := Default(v1, "info", DefaultInfo);
    var v3 := Default(v2, "paths", EmptyObject);
    assert Keys(v1)[..|fs|] == Keys(fs);
    assert Keys(v3)[..|fs|] == Keys(v2)[..|v1|][..|fs|];
  }
}
