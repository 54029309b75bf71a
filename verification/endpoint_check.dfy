/** The decisions inside `validateEndpoint` (app/page.js): which operation of
    the generated OpenAPI document gets a test request, what that request
    looks like, and when the endpoint and its document are accepted. The
    parsers, `fetch` and `JSON.stringify` are not modelled: their results
    arrive as parameters. */
module EndpointCheck {
  import opened JsValues
  import SampleData
  import SpecFix

  /** How the test request ended: `fetch` rejected, or a response arrived
      with its `ok` flag and status code. */
  datatype FetchOutcome = FetchFailed | Responded(ok: bool, status: int)

  /** The test request: upper-cased method, absolute URL, headers and, for
      methods that carry one, the value serialised as the JSON body. */
  datatype TestRequest = TestRequest(verb: string, url: string, headers: seq<(string, string)>,
                                     body: Option<JsValue>)

  /** Why validation returned `false`. `Threw` covers every exception that
      reaches the outer `catch`: unparsable document, a property read of
      `null`, `Object.keys(null)`, and a rejected `fetch`. */
  datatype Rejection =
    | MissingIdOrSpec
    | Threw
    | NoPaths
    | NoMethods
    | NotResponding
    | MissingVersion
    | MissingInfoOrPaths
    | SpecTooShort

  datatype Plan = Planned(req: TestRequest) | NotPlanned(reason: Rejection)

  datatype Verdict = Pass(req: TestRequest) | Fail(reason: Rejection)

  /** The test request's only header. */
  const TestHeaders: seq<(string, string)> := [("Content-Type", "application/json")]

  const MinSpecLength: nat := 100

  predicate IsBodyMethod(verb: string) {
    verb == "POST" || verb == "PUT" || verb == "PATCH"
  }

  /** `parsedSpec.paths || {}`. */
  function PathsOf(spec: JsValue): JsValue {
    OrElse(Get(spec, "paths"), EmptyObject)
  }

  /** The first entry of `Object.entries(v)`, unless there is none or its key
      is the empty string (which `!firstPath` also rejects). */
  function FirstEntry(v: JsValue): (r: Option<(string, JsValue)>)
    ensures r.Some? <==> |Entries(v)| > 0 && Entries(v)[0].0 != ""
    ensures r.Some? ==> r.value == Entries(v)[0]
    ensures r.Some? ==> r.value.0 == Keys(Entries(v))[0] && (v.JObj? ==> Get(v, r.value.0) == Some(r.value.1))
  {
    KeysAt(Entries(v));
    var es := Entries(v);
    if |es| > 0 && es[0].0 != "" then Some(es[0]) else None
  }

  /** The body sent with POST, PUT and PATCH: the sample of the
      `application/json` request schema when the operation declares one,
      otherwise `{}`. */
  function RequestBodySample(methodInfo: JsValue): (r: JsValue)
    ensures
      var rb := Get(methodInfo, "requestBody");
      var declared := IsSet(rb) && IsSet(Get(rb.value, "content")) &&
                      IsSet(Get(Get(rb.value, "content").value, "application/json"));
      && (declared ==>
            r == SampleData.SampleOf(Get(Get(Get(rb.value, "content").value, "application/json").value, "schema")))
      && (!declared ==> r == EmptyObject)
  {
    var rb := Get(methodInfo, "requestBody");
    if IsSet(rb) then
      var content := Get(rb.value, "content");
      if IsSet(content) then
        var media := Get(content.value, "application/json");
        if IsSet(media) then SampleData.SampleOf(Get(media.value, "schema"))
        else EmptyObject
      else EmptyObject
    else EmptyObject
  }

  /** app/page.js lines 57-116: choose the first path and its first method and build the
      test request, with `origin` standing for `window.location.origin` and
      `parsed` for the parser's result (`None` when both parsers throw). */
  function PlanTest(data: JsValue, parsed: Option<JsValue>, origin: string): (p: Plan)
    ensures p.Planned? ==>
              && IsSet(Get(data, "id")) && IsSet(Get(data, "spec"))
              && parsed.Some? && !parsed.value.JNull?
              && FirstEntry(PathsOf(parsed.value)).Some?
              && var (path, ops) := FirstEntry(PathsOf(parsed.value)).value;
                 && FirstEntry(ops).Some?
                 && var (op, info) := FirstEntry(ops).value;
                    && p.req.verb == AsciiUpper(op)
                    && p.req.url == origin + "/api/" + JsToString(Get(data, "id").value) + path
                    && p.req.headers == TestHeaders
                    && (p.req.body.Some? <==> IsBodyMethod(p.req.verb))
                    && (p.req.body.Some? ==> p.req.body.value == RequestBodySample(info))
    ensures data.JNull? ==> p == NotPlanned(Threw)
    ensures !data.JNull? && (!IsSet(Get(data, "id")) || !IsSet(Get(data, "spec"))) ==>
              p == NotPlanned(MissingIdOrSpec)
    ensures !data.JNull? && IsSet(Get(data, "id")) && IsSet(Get(data, "spec")) &&
            (parsed.None? || parsed.value.JNull?) ==>
              p == NotPlanned(Threw)
    ensures !data.JNull? && IsSet(Get(data, "id")) && IsSet(Get(data, "spec")) &&
            parsed.Some? && !parsed.value.JNull? ==>
              var first := FirstEntry(PathsOf(parsed.value));
              && (first.None? ==> p == NotPlanned(NoPaths))
              && (first.Some? && first.value.1.JNull? ==> p == NotPlanned(Threw))
              && (first.Some? && !first.value.1.JNull? ==>
                    var m := FirstEntry(first.value.1);
                    && (m.None? ==> p == NotPlanned(NoMethods))
                    && (m.Some? ==>
                          (p.Planned? <==> !IsBodyMethod(AsciiUpper(m.value.0)) || !m.value.1.JNull?)
                          && (!p.Planned? ==> p == NotPlanned(Threw))))
  {
    if data.JNull? then NotPlanned(Threw)
    else if !IsSet(Get(data, "id")) || !IsSet(Get(data, "spec")) then NotPlanned(MissingIdOrSpec)
    else if parsed.None? || parsed.value.JNull? then NotPlanned(Threw)
    else
      var first := FirstEntry(PathsOf(parsed.value));
      if first.None? then NotPlanned(NoPaths)
      else
        var (path, ops) := first.value;
        if ops.JNull? then NotPlanned(Threw)
        else
          var op := FirstEntry(ops);
          if op.None? then NotPlanned(NoMethods)
          else
            var (name, info) := op.value;
            var verb := AsciiUpper(name);
            var url := origin + "/api/" + JsToString(Get(data, "id").value) + path;
            if !IsBodyMethod(verb) then Planned(TestRequest(verb, url, TestHeaders, None))
            else if info.JNull? then NotPlanned(Threw)
            else Planned(TestRequest(verb, url, TestHeaders, Some(RequestBodySample(info))))
  }

  /** Only the first path and its first method are looked at: two documents
      that agree on those entries get the same plan, whatever else they hold. */
  lemma PlanUsesFirstOperationOnly(data: JsValue, doc1: JsValue, doc2: JsValue, origin: string)
    requires !doc1.JNull? && !doc2.JNull?
    requires FirstEntry(PathsOf(doc1)) == FirstEntry(PathsOf(doc2))
    ensures PlanTest(data, Some(doc1), origin) == PlanTest(data, Some(doc2), origin)
  {
  }

  /** app/page.js lines 122-125: the endpoint counts as responding when the response is
      ok or is a 404. */
  predicate Responds(fetch: FetchOutcome): (r: bool)
    ensures r ==> fetch.Responded?
    ensures fetch.Responded? && fetch.ok ==> r
    ensures fetch.Responded? && fetch.status == 404 ==> r
    ensures fetch.Responded? && !fetch.ok && fetch.status != 404 ==> !r
  {
    fetch.Responded? && (fetch.ok || fetch.status == 404)
  }

  /** app/page.js lines 140-161: the document's own checks, with `specLength` the length
      of `JSON.stringify(parsedSpec)`. */
  function SpecCheck(spec: JsValue, specLength: nat): (r: Option<Rejection>)
    ensures r.None? <==> SpecFix.IsCompleteSpec(spec) && specLength >= MinSpecLength
  {
    if !SpecFix.HasVersion(spec) then Some(MissingVersion)
    else if !IsSet(Get(spec, "info")) || !IsSet(Get(spec, "paths")) then Some(MissingInfoOrPaths)
    else if specLength < MinSpecLength then Some(SpecTooShort)
    else None
  }

  /** The whole of `validateEndpoint`: plan, fetch, then check the document
      (which is parsed again from the same text, so with the same result). */
  function Validate(data: JsValue, parsed: Option<JsValue>, origin: string,
                    fetch: FetchOutcome, specLength: nat): (v: Verdict)
    ensures v.Pass? <==>
              && PlanTest(data, parsed, origin).Planned?
              && Responds(fetch)
              && SpecFix.IsCompleteSpec(parsed.value)
              && specLength >= MinSpecLength
    ensures v.Pass? ==> v.req == PlanTest(data, parsed, origin).req
  {
    match PlanTest(data, parsed, origin)
    case NotPlanned(reason) => Fail(reason)
    case Planned(req) =>
      if fetch.FetchFailed? then Fail(Threw)
      else if !fetch.ok && fetch.status != 404 then Fail(NotResponding)
      else
        match SpecCheck(parsed.value, specLength)
        case Some(reason) => Fail(reason)
        case None => Pass(req)
  }

  /** A document that passes validation is one the viewer's fix-up leaves
      unchanged: the two checks agree on what a complete document is. */
  lemma AcceptedSpecNeedsNoFix(data: JsValue, parsed: Option<JsValue>, origin: string,
                               fetch: FetchOutcome, specLength: nat)
    requires Validate(data, parsed, origin, fetch, specLength).Pass?
    ensures SpecFix.FixSpec(parsed) == SpecFix.Fixed(parsed.value)
  {
    SpecFix.CompleteSpecIsFixedPoint(parsed.value);
  }

  /** The endpoint is tried before the document is judged: once a request
      is planned, a failed or unhealthy response decides the verdict
      whatever the document holds, and a document rejection means the
      endpoint did respond. */
  lemma EndpointCheckedBeforeDocument(data: JsValue, parsed: Option<JsValue>, origin: string,
                                      fetch: FetchOutcome, specLength: nat)
    requires PlanTest(data, parsed, origin).Planned?
    ensures fetch.FetchFailed? ==> Validate(data, parsed, origin, fetch, specLength) == Fail(Threw)
    ensures fetch.Responded? && !Responds(fetch) ==>
              Validate(data, parsed, origin, fetch, specLength) == Fail(NotResponding)
    ensures var v := Validate(data, parsed, origin, fetch, specLength);
            v.Fail? && v.reason in {MissingVersion, MissingInfoOrPaths, SpecTooShort} ==> Responds(fetch)
  {
  }

  /** When the first path and its first method exist and the document is
      usable, the plan is exactly the request built from them. */
  lemma PlannedRequest(data: JsValue, doc: JsValue, origin: string,
                       path: string, ops: JsValue, op: string, info: JsValue)
    requires !data.JNull? && IsSet(Get(data, "id")) && IsSet(Get(data, "spec")) && !doc.JNull?
    requires FirstEntry(PathsOf(doc)) == Some((path, ops)) && !ops.JNull?
    requires FirstEntry(ops) == Some((op, info))
    requires IsBodyMethod(AsciiUpper(op)) ==> !info.JNull?
    ensures
      var url := origin + "/api/" + JsToString(Get(data, "id").value) + path;
      var verb := AsciiUpper(op);
      PlanTest(data, Some(doc), origin) ==
        Planned(TestRequest(verb, url, TestHeaders, if IsBodyMethod(verb) then Some(RequestBodySample(info)) else None))
  {
  }

  /** A worked case: a JSON object schema with one string property. */
  lemma ExampleObjectSample()
    ensures SampleData.Sample(JObj([("type", JStr("object")),
                                    ("properties", JObj([("name", JObj([("type", JStr("string"))]))]))]))
            == JObj([("name", JStr("test_string"))])
  {
    var nameSchema := JObj([("type", JStr("string"))]);
    var props := JObj([("name", nameSchema)]);
    var schema := JObj([("type", JStr("object")), ("properties", props)]);
    assert schema.fields[1..][1..] == [];
    assert Lookup(schema.fields[1..], "example") == None;
    assert Get(schema, "example") == None;
    assert Get(schema, "type") == Some(JStr("object"));
    assert Lookup(schema.fields[1..], "properties") == Some(props);
    assert Get(schema, "properties") == Some(props);
    assert Get(nameSchema, "example") == None;
    assert SampleData.Sample(nameSchema) == JStr("test_string");
    SampleData.SampleObjectFields(schema);
    assert SampleData.SampleEach(props.fields) == [("name", JStr("test_string"))];
  }

  /** A worked case: a document whose first operation is a `post` with a
      JSON object schema gets a POST to `origin/api/id/path` carrying a
      sample object with the declared property. */
  lemma ExamplePostPlan()
    ensures
      var schema := JObj([("type", JStr("object")),
                          ("properties", JObj([("name", JObj([("type", JStr("string"))]))]))]);
      var op := JObj([("requestBody", JObj([("content", JObj([("application/json", JObj([("schema", schema)]))]))]))]);
      var doc := JObj([("openapi", JStr("3.0.0")), ("paths", JObj([("/greet", JObj([("post", op)]))]))]);
      var data := JObj([("id", JStr("abc")), ("spec", JStr("{...}"))]);
      PlanTest(data, Some(doc), "https://host") ==
        Planned(TestRequest("POST", "https://host/api/abc/greet", TestHeaders, Some(JObj([("name", JStr("test_string"))]))))
  {
    var schema := JObj([("type", JStr("object")),
                        ("properties", JObj([("name", JObj([("type", JStr("string"))]))]))]);
    var op := JObj([("requestBody", JObj([("content", JObj([("application/json", JObj([("schema", schema)]))]))]))]);
    var doc := JObj([("openapi", JStr("3.0.0")), ("paths", JObj([("/greet", JObj([("post", op)]))]))]);
    var data := JObj([("id", JStr("abc")), ("spec", JStr("{...}"))]);
    assert Get(data, "id") == Some(JStr("abc"));
    assert Get(data, "spec") == Some(JStr("{...}"));
    assert Lookup(doc.fields[1..], "paths") == Some(JObj([("/greet", JObj([("post", op)]))]));
    assert Get(doc, "paths") == Some(JObj([("/greet", JObj([("post", op)]))]));
    var ops := JObj([("post", op)]);
    assert PathsOf(doc) == JObj([("/greet", ops)]);
    assert FirstEntry(PathsOf(doc)) == Some(("/greet", ops));
    assert FirstEntry(ops) == Some(("post", op));
    assert AsciiUpper("post") == "POST";
    assert IsBodyMethod("POST");
    assert JsToString(JStr("abc")) == "abc";
    assert "https://host" + "/api/" + "abc" + "/greet" == "https://host/api/abc/greet";
    ExampleObjectSample();
    assert RequestBodySample(op) == JObj([("name", JStr("test_string"))]);
    PlannedRequest(data, doc, "https://host", "/greet", ops, "post", op);
  }
}
