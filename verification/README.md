# Endpoint generator: OpenAPI helpers and the test endpoint, in Dafny

The application takes a natural-language description of an API, has an
external workflow generate endpoint code plus an OpenAPI document, checks the
result, and shows the document. This project models the pure decisions in
that flow:

- **Sample data** (`SampleData`, from `generateSampleData` in `app/page.js`):
  a sample JSON value for an OpenAPI schema tree. A defined `example` wins;
  otherwise `type` picks a fixed sample (`'test_string'`, `42`, `true`), a
  one-element array, or an object with one sampled field per property.
  A schema that is missing, falsy or of unknown type gives `{}`.
- **Document fix-up** (`SpecFix`, the post-parse part of
  `validateAndFixOpenApiSpec`): add `openapi: '3.0.0'` when neither `openapi`
  nor `swagger` is set, then a default `info`, then an empty `paths`.
- **Endpoint validation** (`EndpointCheck`, `validateEndpoint`): choose the
  first path and its first method, build the test request (upper-cased
  method, URL `origin + '/api/' + id + path`, and a JSON body for POST, PUT
  and PATCH only), then decide. The endpoint passes when it answers ok or 404.
  The document passes when it has a version, `info` and `paths`, and its
  serialised length is at least 100.
- **Submission retries** (`Retry`, `handleSubmit` and `attemptRequest`): up
  to ten attempts. After each failure that is followed by another attempt,
  the page shows "Still thinking... (thought n/10)". After the tenth failure
  it shows a fixed apology. A success shows the document. The last "thinking"
  message stays on screen after a later success, because nothing clears it.
- **Test endpoint** (`TestEndpoint`, `GET` in `app/api/test-endpoint/route.js`):
  the fixed request context, and the translation of the evaluated code's
  outcome into a reply:
  - the status is `result.status || 200`;
  - the body is `result.body || result`;
  - the JSON content type is set, then every entry of a truthy
    `result.headers`;
  - an exception gives a fixed 500 reply with the message as `details`.

Values are a small `JsValue` datatype (`JsValues`). Objects are ordered
association lists, and a missing property reads as `None`, standing for
`undefined`. Truthiness, `Object.entries`, `Object.fromEntries`, property
assignment and `String(v)` are written out there once and used by every
module.

`app/api/[...path]/route.js` reads a `statusCode` field, answers "Internal
server error" and sends no body for a 204. That route is not part of this
model. The test-endpoint route modelled here reads `status`, answers "Test
endpoint execution failed", and has no 204 branch. Because `NextResponse.json`
always carries a body, a status of 204, 205 or 304 makes it throw, and the
route answers with its 500 reply; that runtime check is listed under
"Left out".

## Model

| member | source | states |
|---|---|---|
| SampleData.SampleOf | app/page.js:15-51 | A missing or falsy schema gives `{}`. A defined `example` is returned verbatim whatever `type`, `properties` or `items` say. Otherwise `string`, `number`/`integer` and `boolean` give `'test_string'`, `42` and `true`. An `array` gives exactly `[sample of items]` when `items` is truthy, else `[]`. An `object` gives an object with distinct keys, `{}` without `properties`. An unknown or absent `type` gives `{}`. |
| SampleData.SampleEntriesFaithful | app/page.js:39-47 | For any truthy `properties` value, the object branch assigns, in `Object.entries` order, each entry's key to the sample of that entry's value. This covers object, array and string values. |
| SampleData.SampleObjectFields | app/page.js:39-47 | When `properties` is an object with distinct keys, the sample has exactly the same keys in the same order, each mapped to the sample of its own sub-schema. |
| SampleData.SampleConforms | app/page.js:15-51 | Every sample validates against its own schema under an independent validator reading. It equals the example, or has the JSON kind `type` names; each array element conforms to `items`; each declared property is present and conforms. |
| SpecFix.FixSpec | app/page.js:248-288 | Only an object document is fixed; parse failure, `null` and primitives end in the retry path. The result always has a version, an `info` and a `paths`. `openapi` becomes `'3.0.0'` only if neither `openapi` nor `swagger` was truthy. `info` defaults to the fixed title/version/description and `paths` to `{}`. Truthy fields, `swagger` and every other key are unchanged. |
| SpecFix.CompleteSpecIsFixedPoint | app/page.js:260-277 | A document that already has a version, `info` and `paths` passes through unchanged. |
| SpecFix.FixSpecIdempotent | app/page.js:260-277 | Applying the fix twice equals applying it once. |
| SpecFix.FixSpecKeepsKeyOrder | app/page.js:260-277 | Existing keys keep their positions, added keys come after them, and distinct keys stay distinct. |
| EndpointCheck.RequestBodySample | app/page.js:104-116 | The body is the sample of `requestBody.content['application/json'].schema` when `requestBody`, its `content` and that media entry are all truthy, and `{}` otherwise. |
| EndpointCheck.PlanTest | app/page.js:56-116 | Every exit is stated. A `null` reply or an unusable parse throws. Missing `id` or `spec` is rejected first. No first path gives `NoPaths`, and a `null` method table throws. No first method gives `NoMethods`. Otherwise a test is planned exactly when the method carries no body or its operation object is not `null`. A planned request has the first method key upper-cased, the URL `origin + '/api/' + id + firstPath`, the single header `Content-Type: application/json`, and a body exactly for POST, PUT and PATCH. |
| EndpointCheck.PlannedRequest | app/page.js:71-115 | When the first path and its first method exist and nothing on the way is `null`, the plan is exactly the request built from them. |
| EndpointCheck.PlanUsesFirstOperationOnly | app/page.js:71-85 | Two documents whose first path entries agree get the same plan, whatever other paths and methods they hold. |
| EndpointCheck.FirstEntry | app/page.js:72-87 | The first `Object.keys` key (`firstPath`, `firstMethod`) together with the value the following property read `paths[firstPath]` / `pathMethods[firstMethod]` returns for it. It is none when there is no key, or when the first key is the empty string, which `!firstPath` also rejects. |
| EndpointCheck.Responds | app/page.js:122-125 | The endpoint counts as responding exactly when a response arrived and it is ok or has status 404. A rejected fetch never responds. |
| EndpointCheck.SpecCheck | app/page.js:139-161 | The document checks pass exactly when it has a version, `info` and `paths`, and its serialised length is at least 100. |
| EndpointCheck.Validate | app/page.js:54-176 | Validation passes exactly when a test was planned, the test response is ok or 404, the document is complete, and its serialised length is at least 100. A passing verdict carries the planned request. |
| EndpointCheck.AcceptedSpecNeedsNoFix | app/page.js:139-148 | A document that passes validation is left unchanged by the viewer's fix-up. |
| EndpointCheck.EndpointCheckedBeforeDocument | app/page.js:119-148 | Once a request is planned, a rejected fetch or a non-ok, non-404 response decides the verdict whatever the document holds. A document rejection implies the endpoint responded. |
| EndpointCheck.ExampleObjectSample | app/page.js:39-47 | An object schema with one string property samples to `{name: 'test_string'}`. |
| EndpointCheck.ExamplePostPlan | app/page.js:88-115 | A document whose first operation is `post` with a JSON object schema yields a POST to `origin/api/abc/greet` carrying that sample. |
| Retry.Attempt | app/page.js:190-219 | An attempt succeeds exactly when the submission reply is ok, its JSON is a non-null value without a truthy `error`, and endpoint validation passes. On success the shown data is that JSON. |
| Retry.RunFrom | app/page.js:220-237 | The chain makes at least one more attempt and at most ten in all. Every attempt before the last one failed. The shown data is the last attempt's outcome. A chain without success has made exactly ten attempts. |
| Retry.RunMessages | app/page.js:221-230 | Failure n that is followed by another attempt leaves "Still thinking... (thought n/10)", in order. After the tenth failure the last message is the apology. |
| Retry.SucceedsIffSomeAttemptSucceeds | app/page.js:186-237 | The chain succeeds exactly when one of the first ten attempts does, and it stops at the first success. |
| Retry.NoFurtherAttempts | app/page.js:223-227 | Outcomes after the attempts actually made are never consulted, so no attempt follows the tenth failure or a success. |
| Retry.IsBlank | app/page.js:180 | A query counts as blank exactly when trimming leading and trailing JavaScript whitespace leaves the empty string. |
| Retry.Submit | app/page.js:178-242 | A blank query changes nothing. Otherwise loading ends, the shown document is the chain's result, and the error on screen is the last message set, or none. |
| Retry.AllFailuresEndWithApology | app/page.js:223-227 | Ten failures leave the apology on screen and no document. |
| Retry.SuccessKeepsLastThinkingMessage | app/page.js:212-230 | A success after n failures shows that attempt's data. The error is none when n is 0, and "thought n/10" otherwise. |
| TestEndpoint.StringObject | app/api/test-endpoint/route.js:31-32 | Building an object from name/value pairs gives distinct keys, and each name reads back the value of its last pair. |
| TestEndpoint.BuildContext | app/api/test-endpoint/route.js:26-48 | The context has method `'GET'`, the request URL, path `['test-endpoint']`, body `null` and an empty response object. `query` and `headers` map each name to the value of its last pair. |
| TestEndpoint.SetHeaders | app/api/test-endpoint/route.js:64-67 | Setting the headers in order adds exactly the lower-cased names of the entries to the names already present. |
| TestEndpoint.HeaderNamesAt | app/api/test-endpoint/route.js:64-67 | A name is among the set names exactly when some entry's lower-cased key equals it. |
| TestEndpoint.SetHeadersLastWins | app/api/test-endpoint/route.js:64-67 | After setting the headers in order, a name that was set holds the value of the last entry with that case-insensitive name. Any other name keeps its previous state. |
| TestEndpoint.Translate | app/api/test-endpoint/route.js:59-76 | A thrown message gives status 500 with `{error: 'Test endpoint execution failed', details: message}`, and no result field is used. A `null` result fails the same way on the read of `body`. Otherwise the status is `result.status` when truthy, else 200. The body is `result.body` when truthy, else the whole result. Without truthy `headers` only the JSON content type is set. |
| TestEndpoint.TranslateHeaders | app/api/test-endpoint/route.js:61-68 | Every entry of a truthy `result.headers` reaches the reply, the last one winning per case-insensitive name. Names it does not set are absent, except the JSON content type. |
| TestEndpoint.MockCode | app/api/test-endpoint/route.js:5-23 | The sample code returns the response object with `status` 200, the two fixed headers, and a body of the greeting, the timestamp, the request's query, method and path. Every other field of the response object is left as it was. |
| TestEndpoint.HandleGetReply | app/api/test-endpoint/route.js:3-70 | The route's own sample code answers 200 with the greeting, the timestamp, the query object, `'GET'` and `['test-endpoint']`. It sends `content-type: application/json` and `x-generated-by: AI Endpoint Generator`. |

## Left out

- SpecFix.FixSpec: an array-valued document ends in `Retry`. JavaScript would attach the three fields to the array and return it, and the value type has no array with named properties.
- Numbers are mathematical integers: fractional numbers and `NaN` are not represented. Truthiness of a number is "non-zero", which is JavaScript's rule for every integer.
- A property read falls back to inherited properties of the object's prototype chain; the model reads own fields only. Every name read here (`type`, `example`, `paths`, `status`, ...) is absent from the prototypes.
- JavaScript lists integer-like object keys before the others; objects here keep plain insertion order.
- Upper- and lower-casing (`toUpperCase`, header-name normalisation) are modelled for ASCII letters only.
- `JSON.parse` and the YAML parser, including the `\\n` replacement before YAML parsing, are foreign code. Their result is an `Option<JsValue>` input, with `None` for the case where both throw.
- `JSON.stringify` is not modelled. The serialised document length is a parameter, and the request body is kept as the value to be serialised.
- `fetch` (submission and test request), the one-second `setTimeout` delay, `window.location.origin` (a parameter), the hidden `div` added to and removed from the document, console logging, `navigator.clipboard`, React state, JSX, the documentation viewer and its request interceptor are I/O or UI. Their outcomes are inputs, or they are omitted.
- Retry.Submit: only the page state after the chain ends is modelled. The intermediate `isLoading = true`, the resets and the per-attempt delays are not. Outcomes of later attempts are inputs, so asynchronous scheduling does not appear.
- Evaluating the endpoint code with `new Function` is arbitrary execution and becomes an `EvalOutcome` input. Only the route's fixed sample code is modelled, by `MockCode`. A result of `undefined` is not representable; it would throw on the read of `body` just as `null` does.
- TestEndpoint.Translate: the reply carries the status value handed to `NextResponse.json` and header values as `String(value)`. The runtime's own header handling is not modelled. It trims whitespace around header values, so the real reply carries the trimmed value. Its other checks throw inside the `try` and give the 500 reply: a status outside 200-599, one of 204/205/304 (always, since the reply has a body), and invalid header names or values.
- SampleData.SampleObjectFields: a property named `__proto__` is not special. In JavaScript, `obj['__proto__'] = sample` calls the prototype setter and creates no own key, so `{"type":"object","properties":{"__proto__":{"type":"string"}}}` samples to `{}`. The model gives `{"__proto__": "test_string"}`, and its "same keys" claim does not hold for that key.
- JavaScript strings are UTF-16. `Object.entries` on a string yields one entry per code unit, so a character outside the Basic Multilingual Plane gives two entries. Here a string is a sequence of characters with one entry each. This matters only for a string-valued `properties`, `paths` or `headers`.
- JsValues.JsToString: integers of magnitude 10^21 or more are printed with all their digits, where JavaScript uses exponent form. An object is printed as "[object Object]" even when it has an own `toString` key. JavaScript would call that value, and throw when it is not a function: in the URL template of `validateEndpoint` and in `headers.set` of the test route.
- The context's logging capability and global constructors (`Date`, `Math`, `JSON`, ...) carry no data and are left out.
- `app/api/[...path]/route.js` (the dynamic endpoint route with its database lookup) and `app/api/submit-query/route.js` (webhook forwarding) are not part of this model.
