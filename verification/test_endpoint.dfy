/** The `GET` handler of app/api/test-endpoint/route.js: build a fixed
    request context, run the endpoint code against it, and turn what the
    code produced into the HTTP reply. Running the code is not modelled:
    its outcome is an input, except for the route's own fixed sample code,
    whose effect `MockCode` spells out. */
module TestEndpoint {
  import opened JsValues

  /** The `request` part of the context. `headers` and `query` are plain
      objects of strings. */
  datatype RequestSnapshot = RequestSnapshot(
    verb: string,
    url: string,
    path: seq<string>,
    headers: JsValue,
    query: JsValue,
    body: JsValue)

  /** The data part of the context; `response` is the fields of the
      object the code mutates. The logging capability and the global
      constructors carry no data and are not modelled. */
  datatype Context = Context(request: RequestSnapshot, response: seq<(string, JsValue)>)

  function StringEntries(es: seq<(string, string)>): (r: seq<(string, JsValue)>)
    ensures |r| == |es|
    ensures forall i :: 0 <= i < |es| ==> r[i] == (es[i].0, JStr(es[i].1))
  {
    seq(|es|, i requires 0 <= i < |es| => (es[i].0, JStr(es[i].1)))
  }

  /** `Object.fromEntries(pairs)` over string pairs, as the route applies it
      to the request headers and to the URL's search parameters: each name
      read back gives the value of the LAST pair with that name. */
  function StringObject(es: seq<(string, string)>): (r: JsValue)
    ensures r.JObj? && UniqueKeys(r.fields)
    ensures forall k :: Get(r, k) == LastValue(StringEntries(es), k)
  {
    var r := JObj(FromEntries(StringEntries(es)));
    assert forall k :: Get(r, k) == LastValue(StringEntries(es), k) by {
      forall k {
        FromEntriesLastWins(StringEntries(es), k);
      }
    }
    r
  }

  /** Lines 26-48 of route.js. `url` is the incoming request's URL,
      `headerPairs` what `request.headers.entries()` yields and `searchPairs`
      what the URL's `searchParams.entries()` yields. */
  function BuildContext(url: string, headerPairs: seq<(string, string)>, searchPairs: seq<(string, string)>): (c: Context)
    ensures c.request.verb == "GET" && c.request.url == url
    ensures c.request.path == ["test-endpoint"] && c.request.body == JNull
    ensures c.response == []
    ensures c.request.query.JObj? && c.request.headers.JObj?
    ensures forall k :: Get(c.request.query, k) == LastValue(StringEntries(searchPairs), k)
    ensures forall k :: Get(c.request.headers, k) == LastValue(StringEntries(headerPairs), k)
  {
    Context(
      RequestSnapshot("GET", url, ["test-endpoint"], StringObject(headerPairs), StringObject(searchPairs), JNull),
      [])
  }

  /** What evaluating the code did: it returned a value, or it threw an
      error with this message. */
  datatype EvalOutcome = Returned(result: JsValue) | Threw(message: string)

  /** The reply: the status value given to `NextResponse.json`, the value
      serialised as the JSON body, and the header table (lower-cased names,
      string values). */
  datatype Reply = Reply(status: JsValue, body: JsValue, headers: map<string, string>)

  /** The header `NextResponse.json` sets by itself. */
  const JsonHeaders: map<string, string> := map["content-type" := "application/json"]

  /** The engine's message when the code returns `null` and `result.body`
      is read. */
  const NullResultMessage: string := "Cannot read properties of null (reading 'body')"

  function ErrorReply(message: string): Reply {
    Reply(JNum(500),
          JObj([("error", JStr("Test endpoint execution failed")), ("details", JStr(message))]),
          JsonHeaders)
  }

  /** The lower-cased names of the header pairs. */
  function HeaderNames(es: seq<(string, JsValue)>): set<string> {
    if es == [] then {} else HeaderNames(es[..|es| - 1]) + {AsciiLower(es[|es| - 1].0)}
  }

  lemma {:induction false} HeaderNamesAt(es: seq<(string, JsValue)>, name: string)
    ensures name in HeaderNames(es) <==> exists i :: 0 <= i < |es| && AsciiLower(es[i].0) == name
  {
    if es != [] {
      var init := es[..|es| - 1];
      HeaderNamesAt(init, name);
      if exists i :: 0 <= i < |init| && AsciiLower(init[i].0) == name {
        var i :| 0 <= i < |init| && AsciiLower(init[i].0) == name;
        assert es[i] == init[i];
      }
      if exists i :: 0 <= i < |es| && AsciiLower(es[i].0) == name {
        var i :| 0 <= i < |es| && AsciiLower(es[i].0) == name;
        if i < |init| { assert init[i] == es[i]; }
      }
    }
  }

  /** `response.headers.set(key, value)` for every pair, in order: names are
      case-insensitive and a later value replaces an earlier one. */
  function SetHeaders(h: map<string, string>, es: seq<(string, JsValue)>): (r: map<string, string>)
    ensures r.Keys == h.Keys + HeaderNames(es)
  {
    if es == [] then h
    else SetHeaders(h, es[..|es| - 1])[AsciiLower(es[|es| - 1].0) := JsToString(es[|es| - 1].1)]
  }

  /** Reference reading of the header calls: `name` ends up with the value
      of the last pair whose lower-cased key is `name`. */
  predicate LastHeader(es: seq<(string, JsValue)>, name: string, value: string) {
    exists i :: 0 <= i < |es| && AsciiLower(es[i].0) == name && JsToString(es[i].1) == value &&
      forall j :: i < j < |es| ==> AsciiLower(es[j].0) != name
  }

  lemma {:induction false} SetHeadersLastWins(h: map<string, string>, es: seq<(string, JsValue)>, name: string)
    ensures (forall i :: 0 <= i < |es| ==> AsciiLower(es[i].0) != name) ==>
              (name in SetHeaders(h, es) <==> name in h) &&
              (name in h ==> SetHeaders(h, es)[name] == h[name])
    ensures (exists i :: 0 <= i < |es| && AsciiLower(es[i].0) == name) ==>
              name in SetHeaders(h, es) && LastHeader(es, name, SetHeaders(h, es)[name])
  {
    if es != [] {
      var init := es[..|es| - 1];
      var n := |es| - 1;
      SetHeadersLastWins(h, init, name);
      var before := SetHeaders(h, init);
      assert SetHeaders(h, es) == before[AsciiLower(es[n].0) := JsToString(es[n].1)];
      if AsciiLower(es[n].0) == name {
        assert LastHeader(es, name, JsToString(es[n].1));
      } else if exists i :: 0 <= i < |init| && AsciiLower(init[i].0) == name {
        var value := before[name];
        var i :| 0 <= i < |init| && AsciiLower(init[i].0) == name && JsToString(init[i].1) == value &&
                 forall j :: i < j < |init| ==> AsciiLower(init[j].0) != name;
        assert es[i] == init[i];
        forall j | i < j < |es|
          ensures AsciiLower(es[j].0) != name
        {
          if j < n {
            assert es[j] == init[j];
          }
        }
        assert LastHeader(es, name, value);
      } else {
        forall i | 0 <= i < |es|
          ensures AsciiLower(es[i].0) != name
        {
          if i < n {
            assert es[i] == init[i];
          }
        }
      }
    }
  }

  /** Lines 59-76 of route.js, from the point where the code has finished:
      status `result.status || 200`, body `result.body || result`, the JSON
      header and then every entry of a truthy `result.headers`; an exception
      anywhere gives the fixed 500 reply carrying its message. */
  function Translate(outcome: EvalOutcome): (r: Reply)
    ensures outcome.Threw? ==> r == ErrorReply(outcome.message)
    ensures outcome == Returned(JNull) ==> r == ErrorReply(NullResultMessage)
    ensures outcome.Returned? && !outcome.result.JNull? ==>
              var res := outcome.result;
              && (IsSet(Get(res, "status")) ==> r.status == Get(res, "status").value)
              && (!IsSet(Get(res, "status")) ==> r.status == JNum(200))
              && (IsSet(Get(res, "body")) ==> r.body == Get(res, "body").value)
              && (!IsSet(Get(res, "body")) ==> r.body == res)
              && (!IsSet(Get(res, "headers")) ==> r.headers == JsonHeaders)
  {
    match outcome
    case Threw(message) => ErrorReply(message)
    case Returned(JNull) => ErrorReply(NullResultMessage)
    case Returned(res) =>
      var headers := Get(res, "headers");
      Reply(OrElse(Get(res, "status"), JNum(200)),
            OrElse(Get(res, "body"), res),
            if IsSet(headers) then SetHeaders(JsonHeaders, Entries(headers.value)) else JsonHeaders)
  }

  /** Every entry of a truthy `result.headers` reaches the reply, the last
      one winning per case-insensitive name; other names keep the JSON
      default or are absent. */
  lemma TranslateHeaders(res: JsValue, name: string)
    requires !res.JNull? && IsSet(Get(res, "headers"))
    ensures var es := Entries(Get(res, "headers").value);
            var h := Translate(Returned(res)).headers;
            && ((exists i :: 0 <= i < |es| && AsciiLower(es[i].0) == name) ==>
                  name in h && LastHeader(es, name, h[name]))
            && ((forall i :: 0 <= i < |es| ==> AsciiLower(es[i].0) != name) ==>
                  (name in h <==> name == "content-type") &&
                  (name == "content-type" ==> h[name] == "application/json"))
  {
    SetHeadersLastWins(JsonHeaders, Entries(Get(res, "headers").value), name);
  }

  /** The route's sample endpoint code (lines 5-23), run against `ctx`:
      it assigns `status`, `headers` and `body` on the response object and
      returns it. `timestamp` stands for `new Date().toISOString()`. */
  function MockCode(ctx: Context, timestamp: string): (r: EvalOutcome)
    ensures r.Returned? && r.result.JObj?
    ensures Get(r.result, "status") == Some(JNum(200))
    ensures Get(r.result, "headers") ==
              Some(JObj([("Content-Type", JStr("application/json")),
                         ("X-Generated-By", JStr("AI Endpoint Generator"))]))
    ensures Get(r.result, "body") ==
              Some(JObj([("message", JStr("Hello from test endpoint!")),
                         ("timestamp", JStr(timestamp)),
                         ("query", ctx.request.query),
                         ("method", JStr(ctx.request.verb)),
                         ("path", JArr(seq(|ctx.request.path|, i requires 0 <= i < |ctx.request.path| =>
                                             JStr(ctx.request.path[i]))))]))
    ensures forall k :: k != "status" && k != "headers" && k != "body" ==>
              Get(r.result, k) == Lookup(ctx.response, k)
  {
    var fields := SetField(ctx.response, "status", JNum(200));
    var fields := SetField(fields, "headers",
      JObj([("Content-Type", JStr("application/json")),
            ("X-Generated-By", JStr("AI Endpoint Generator"))]));
    var fields := SetField(fields, "body",
      JObj([("message", JStr("Hello from test endpoint!")),
            ("timestamp", JStr(timestamp)),
            ("query", ctx.request.query),
            ("method", JStr(ctx.request.verb)),
            ("path", JArr(seq(|ctx.request.path|, i requires 0 <= i < |ctx.request.path| => JStr(ctx.request.path[i]))))]));
    Returned(JObj(fields))
  }

  /** The whole `GET` handler. */
  function HandleGet(url: string, headerPairs: seq<(string, string)>, searchPairs: seq<(string, string)>,
                     timestamp: string): Reply {
    Translate(MockCode(BuildContext(url, headerPairs, searchPairs), timestamp))
  }

  /** The test endpoint answers 200 with its greeting, echoing the query
      parameters, method and path, and both headers of the sample code. */
  lemma HandleGetReply(url: string, headerPairs: seq<(string, string)>, searchPairs: seq<(string, string)>,
                       timestamp: string)
    ensures HandleGet(url, headerPairs, searchPairs, timestamp) ==
              Reply(JNum(200),
                    JObj([("message", JStr("Hello from test endpoint!")),
                          ("timestamp", JStr(timestamp)),
                          ("query", StringObject(searchPairs)),
                          ("method", JStr("GET")),
                          ("path", JArr([JStr("test-endpoint")]))]),
                    map["content-type" := "application/json",
                        "x-generated-by" := "AI Endpoint Generator"])
  {
    var ctx := BuildContext(url, headerPairs, searchPairs);
    var hs := JObj([("Content-Type", JStr("application/json")),
                    ("X-Generated-By", JStr("AI Endpoint Generator"))]);
    var body := JObj([("message", JStr("Hello from test endpoint!")),
                      ("timestamp", JStr(timestamp)),
                      ("query", StringObject(searchPairs)),
                      ("method", JStr("GET")),
                      ("path", JArr([JStr("test-endpoint")]))]);
    var path := seq(|ctx.request.path|, i requires 0 <= i < |ctx.request.path| => JStr(ctx.request.path[i]));
    assert path == [JStr("test-endpoint")];
    var res := JObj([("status", JNum(200)), ("headers", hs), ("body", body)]);
    var f1 := SetField([], "status", JNum(200));
    assert f1 == [("status", JNum(200))];
    var f2 := SetField(f1, "headers", hs);
    assert f2 == [("status", JNum(200))] + SetField([], "headers", hs);
    assert f2 == [("status", JNum(200)), ("headers", hs)];
    var f3 := SetField(f2, "body", body);
    assert f3 == [f2[0]] + SetField(f2[1..], "body", body);
    assert SetField(f2[1..], "body", body) == [f2[1]] + SetField([], "body", body);
    assert f3 == res.fields;
    assert MockCode(ctx, timestamp) == Returned(res);
    assert Get(res, "status") == Some(JNum(200));
    assert Get(res, "headers") == Some(hs);
    assert Get(res, "body") == Some(body);
    var es := Entries(hs);
    assert es[..1] == [("Content-Type", JStr("application/json"))];
    assert es[..1][..0] == [];
    assert AsciiLower("Content-Type") == "content-type";
    assert AsciiLower("X-Generated-By") == "x-generated-by";
    assert SetHeaders(JsonHeaders, es[..1]) == JsonHeaders;
    assert SetHeaders(JsonHeaders, es) ==
             map["content-type" := "application/json", "x-generated-by" := "AI Endpoint Generator"];
  }
}
