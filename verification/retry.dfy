/** The submission flow of `handleSubmit` / `attemptRequest` (app/page.js):
    up to ten attempts, each one a submission followed by endpoint
    validation, with a status message after every failure. Each attempt's
    outcome is an input; the one-second delay between attempts is not
    modelled. */
module Retry {
  import opened JsValues
  import EndpointCheck

  const MaxRetries: nat := 10

  const Apology: string :=
    "Sorry, I'm having trouble processing your request right now. Please try again later."

  /** The message shown after failed attempt `n` when another will follow. */
  function ThinkingMessage(n: nat): string {
    "Still thinking... (thought " + NatToString(n) + "/" + NatToString(MaxRetries) + ")"
  }

  /** What `/api/submit-query` gave back: `fetch` rejected, or a response
      with its `ok` flag and the result of `response.json()` (`None` when
      that throws). */
  datatype SubmitReply = Unreachable | Replied(ok: bool, json: Option<JsValue>)

  /** Everything one attempt depends on: the submission reply, and for the
      validation of its data the parsed document, the page origin, the test
      request's outcome and the serialised document's length. */
  datatype AttemptInput = AttemptInput(
    reply: SubmitReply,
    parsed: Option<JsValue>,
    origin: string,
    testFetch: EndpointCheck.FetchOutcome,
    specLength: nat)

  /** One `attemptRequest` body: `Some(data)` when it reaches
      `setApiSpec(data)`, `None` when it throws into the retry branch. */
  function Attempt(a: AttemptInput): (r: Option<JsValue>)
    ensures r.Some? <==>
              && a.reply.Replied? && a.reply.ok && a.reply.json.Some?
              && !a.reply.json.value.JNull?
              && !IsSet(Get(a.reply.json.value, "error"))
              && EndpointCheck.Validate(a.reply.json.value, a.parsed, a.origin, a.testFetch, a.specLength).Pass?
    ensures r.Some? ==> r.value == a.reply.json.value
  {
    match a.reply
    case Unreachable => None
    case Replied(ok, json) =>
      if !ok || json.None? then None
      else
        var data := json.value;
        if data.JNull? || IsSet(Get(data, "error")) then None
        else if EndpointCheck.Validate(data, a.parsed, a.origin, a.testFetch, a.specLength).Pass? then Some(data)
        else None
  }

  /** The result of the attempt chain: the data shown on success, the
      number of attempts made, and the messages passed to `setError` after
      the initial reset, in order. */
  datatype Run = Run(shown: Option<JsValue>, attempts: nat, messages: seq<string>)

  /** The chain from the point where `failures` attempts have failed;
      `outcome(i)` is the outcome of attempt `i + 1`. */
  function RunFrom(failures: nat, outcome: nat -> Option<JsValue>): (r: Run)
    requires failures < MaxRetries
    ensures failures < r.attempts <= MaxRetries
    ensures forall j :: failures <= j < r.attempts - 1 ==> outcome(j).None?
    ensures r.shown == outcome(r.attempts - 1)
    ensures r.shown.None? ==> r.attempts == MaxRetries
    decreases MaxRetries - failures
  {
    match outcome(failures)
    case Some(data) => Run(Some(data), failures + 1, [])
    case None =>
      if failures + 1 >= MaxRetries then Run(None, failures + 1, [Apology])
      else
        var rest := RunFrom(failures + 1, outcome);
        Run(rest.shown, rest.attempts, [ThinkingMessage(failures + 1)] + rest.messages)
  }

  /** One more failure before the last attempt adds one "thinking"
      message in front of the rest of the chain. */
  lemma RunStep(failures: nat, outcome: nat -> Option<JsValue>)
    requires failures + 1 < MaxRetries && outcome(failures).None?
    ensures var rest := RunFrom(failures + 1, outcome);
            RunFrom(failures, outcome) ==
              Run(rest.shown, rest.attempts, [ThinkingMessage(failures + 1)] + rest.messages)
  {
  }

  /** How many messages the chain leaves, and that a chain without success
      ends with the apology. */
  lemma {:induction false} RunMessageCount(failures: nat, outcome: nat -> Option<JsValue>)
    requires failures < MaxRetries
    ensures var r := RunFrom(failures, outcome);
            && |r.messages| == r.attempts - 1 - failures + (if r.shown.None? then 1 else 0)
            && (r.shown.None? ==> r.messages[|r.messages| - 1] == Apology)
    decreases MaxRetries - failures
  {
    if outcome(failures).None? && failures + 1 < MaxRetries {
      RunMessageCount(failures + 1, outcome);
      RunStep(failures, outcome);
    }
  }

  /** The "thinking" messages, one per failure followed by another attempt. */
  lemma {:induction false} RunThinkingMessages(failures: nat, outcome: nat -> Option<JsValue>)
    requires failures < MaxRetries
    ensures var r := RunFrom(failures, outcome);
            forall j :: 0 <= j < r.attempts - 1 - failures && j < |r.messages| ==>
              r.messages[j] == ThinkingMessage(failures + j + 1)
    decreases MaxRetries - failures
  {
    if outcome(failures).None? && failures + 1 < MaxRetries {
      RunThinkingMessages(failures + 1, outcome);
      RunStep(failures, outcome);
      var rest := RunFrom(failures + 1, outcome);
      var r := RunFrom(failures, outcome);
      forall j | 0 <= j < r.attempts - 1 - failures && j < |r.messages|
        ensures r.messages[j] == ThinkingMessage(failures + j + 1)
      {
        if j > 0 {
          assert r.messages[j] == rest.messages[j - 1];
        }
      }
    }
  }

  /** The messages: "thought n/10" after each failure that is followed by
      another attempt, then the apology if the tenth attempt failed too. */
  lemma RunMessages(failures: nat, outcome: nat -> Option<JsValue>)
    requires failures < MaxRetries
    ensures var r := RunFrom(failures, outcome);
            && |r.messages| == r.attempts - 1 - failures + (if r.shown.None? then 1 else 0)
            && (forall j :: 0 <= j < r.attempts - 1 - failures ==> r.messages[j] == ThinkingMessage(failures + j + 1))
            && (r.shown.None? ==> r.messages[|r.messages| - 1] == Apology)
  {
    RunMessageCount(failures, outcome);
    RunThinkingMessages(failures, outcome);
  }

  /** The whole chain, started by `await attemptRequest()`. */
  function RunAll(outcome: nat -> Option<JsValue>): Run {
    RunFrom(0, outcome)
  }

  /** The chain succeeds exactly when one of the first ten attempts does,
      and then it stops at the first success. */
  lemma SucceedsIffSomeAttemptSucceeds(outcome: nat -> Option<JsValue>)
    ensures RunAll(outcome).shown.Some? <==> exists i :: 0 <= i < MaxRetries && outcome(i).Some?
    ensures RunAll(outcome).shown.Some? ==>
              forall j :: 0 <= j < RunAll(outcome).attempts - 1 ==> outcome(j).None?
  {
    var r := RunAll(outcome);
    if r.shown.None? {
      forall i | 0 <= i < MaxRetries
        ensures outcome(i).None?
      {
        if i < r.attempts - 1 {
        } else {
          assert i == r.attempts - 1;
        }
      }
    } else {
      assert outcome(r.attempts - 1).Some?;
    }
  }

  /** Outcomes beyond the attempts actually made are never consulted: ten
      failures end the chain. */
  lemma {:induction false} NoFurtherAttempts(failures: nat, o1: nat -> Option<JsValue>, o2: nat -> Option<JsValue>)
    requires failures < MaxRetries
    requires forall i :: failures <= i < RunFrom(failures, o1).attempts ==> o1(i) == o2(i)
    ensures RunFrom(failures, o2) == RunFrom(failures, o1)
    decreases MaxRetries - failures
  {
    if o1(failures).None? && failures + 1 < MaxRetries {
      NoFurtherAttempts(failures + 1, o1, o2);
    }
  }

  /** Whitespace as `String.prototype.trim` removes it. */
  predicate IsJsWhitespace(c: char) {
    c == '\t' || c == '\n' || c == '\U{000B}' || c == '\U{000C}' || c == '\r' || c == ' ' ||
    c == '\U{00A0}' || c == '\U{1680}' || ('\U{2000}' <= c <= '\U{200A}') ||
    c == '\U{2028}' || c == '\U{2029}' || c == '\U{202F}' || c == '\U{205F}' ||
    c == '\U{3000}' || c == '\U{FEFF}'
  }

  /** `String.prototype.trim`: drop leading, then trailing, whitespace. */
  function TrimStart(s: string): string {
    if |s| > 0 && IsJsWhitespace(s[0]) then TrimStart(s[1..]) else s
  }

  function TrimEnd(s: string): string {
    if |s| > 0 && IsJsWhitespace(s[|s| - 1]) then TrimEnd(s[..|s| - 1]) else s
  }

  function Trim(s: string): string {
    TrimEnd(TrimStart(s))
  }

  predicate AllWhitespace(s: string) {
    forall i :: 0 <= i < |s| ==> IsJsWhitespace(s[i])
  }

  lemma {:induction false} TrimStartEmpty(s: string)
    ensures TrimStart(s) == "" <==> AllWhitespace(s)
    ensures TrimStart(s) != "" ==> !IsJsWhitespace(TrimStart(s)[0])
    decreases |s|
  {
    if |s| > 0 && IsJsWhitespace(s[0]) {
      TrimStartEmpty(s[1..]);
      if AllWhitespace(s[1..]) {
        forall i | 0 <= i < |s| ensures IsJsWhitespace(s[i]) {
          if i > 0 { assert s[i] == s[1..][i - 1]; }
        }
      } else {
        var i :| 0 <= i < |s[1..]| && !IsJsWhitespace(s[1..][i]);
        assert s[i + 1] == s[1..][i];
      }
    } else if |s| > 0 {
      assert !IsJsWhitespace(s[0]);
    }
  }

  lemma {:induction false} TrimEndOfNonBlank(s: string)
    requires |s| > 0 && !IsJsWhitespace(s[0])
    ensures TrimEnd(s) != ""
    decreases |s|
  {
    if IsJsWhitespace(s[|s| - 1]) {
      assert |s| > 1;
      TrimEndOfNonBlank(s[..|s| - 1]);
    }
  }

  /** `!query.trim()`: the query is empty once trimmed, that is, it is all
      whitespace. */
  predicate IsBlank(query: string): (r: bool)
    ensures r <==> Trim(query) == ""
  {
    TrimStartEmpty(query);
    if TrimStart(query) != "" then TrimEndOfNonBlank(TrimStart(query)); AllWhitespace(query)
    else AllWhitespace(query)
  }

  /** The page state `handleSubmit` leaves behind. */
  datatype Page = Page(loading: bool, error: Option<string>, apiSpec: Option<JsValue>)

  /** The outcome of every attempt, given its inputs. */
  function Outcomes(inputs: nat -> AttemptInput): nat -> Option<JsValue> {
    (i: nat) => Attempt(inputs(i))
  }

  /** `handleSubmit`: nothing happens for a blank query; otherwise the
      error and document are reset, the chain runs, and loading ends. The
      error left on screen is the last message set, if any. */
  function Submit(query: string, before: Page, inputs: nat -> AttemptInput): (after: Page)
    ensures IsBlank(query) ==> after == before
    ensures !IsBlank(query) ==>
              var run := RunAll(Outcomes(inputs));
              && !after.loading
              && after.apiSpec == run.shown
              && (run.messages == [] ==> after.error == None)
              && (run.messages != [] ==> after.error == Some(run.messages[|run.messages| - 1]))
  {
    if IsBlank(query) then before
    else
      var run := RunAll(Outcomes(inputs));
      Page(false, if run.messages == [] then None else Some(run.messages[|run.messages| - 1]), run.shown)
  }

  /** Ten failed attempts leave the apology on screen and no document. */
  lemma AllFailuresEndWithApology(query: string, before: Page, inputs: nat -> AttemptInput)
    requires !IsBlank(query)
    requires forall i :: 0 <= i < MaxRetries ==> Attempt(inputs(i)).None?
    ensures Submit(query, before, inputs) == Page(false, Some(Apology), None)
  {
    SucceedsIffSomeAttemptSucceeds(Outcomes(inputs));
    RunMessages(0, Outcomes(inputs));
  }

  /** A success after `n` failures shows the document, and the message from
      the last failure stays on screen: nothing clears it. */
  lemma SuccessKeepsLastThinkingMessage(query: string, before: Page, inputs: nat -> AttemptInput, n: nat)
    requires !IsBlank(query)
    requires n < MaxRetries
    requires forall i :: 0 <= i < n ==> Attempt(inputs(i)).None?
    requires Attempt(inputs(n)).Some?
    ensures Submit(query, before, inputs).apiSpec == Attempt(inputs(n))
    ensures n == 0 ==> Submit(query, before, inputs).error == None
    ensures n > 0 ==> Submit(query, before, inputs).error == Some(ThinkingMessage(n))
  {
    var outcome := Outcomes(inputs);
    var r := RunAll(outcome);
    RunMessages(0, outcome);
    assert outcome(n).Some?;
    assert forall i :: 0 <= i < n ==> outcome(i).None?;
    assert r.attempts - 1 == n;
  }
}
