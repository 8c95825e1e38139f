/** `modules/llm_verifier.py`: the decision of `llm_map`, the retry loop of
    `call_llm_api`, the choice of prompt, and the `[UNCERTAIN]` flag. The HTTP
    requests are not part of this model: `reply(i)` is what attempt `i` got back, and
    the sleeps are the list of delays the loop asks for. */
module LlmVerifier {
  import opened Wrappers
  import opened Strings

  const Uncertain := "[UNCERTAIN]"

  /** `extract_flags(text)`: the tag when the text holds it, else nothing. */
  function ExtractFlags(text: string): (r: string)
    ensures r == Uncertain <==> Contains(text, Uncertain)
    ensures r == "" <==> !Contains(text, Uncertain)
  {
    if Contains(text, Uncertain) then Uncertain else ""
  }

  /** `remove_flags(text)`: every tag taken out, then strip. */
  function RemoveFlags(text: string): (r: string)
    ensures IsStripped(r)
  {
    Strip(ReplaceAll(text, Uncertain, ""))
  }

  /** A text without the tag is only stripped. */
  lemma RemoveFlagsWithoutTag(text: string)
    requires !Contains(text, Uncertain)
    ensures RemoveFlags(text) == Strip(text)
  {
    ReplaceAbsent(text, Uncertain, "");
  }

  /** One tag between two texts is taken out, and the texts are joined and stripped,
      provided no tag starts inside the text before it and the text after it holds none. */
  lemma RemoveFlagsOfTagged(a: string, b: string)
    requires forall j :: 0 <= j < |a| ==> !OccursAt(a + Uncertain + b, Uncertain, j)
    requires !Contains(b, Uncertain)
    ensures RemoveFlags(a + Uncertain + b) == Strip(a + b)
  {
    ReplaceSingle(a, Uncertain, b, "");
    assert a + "" + b == a + b;
  }

  /** The verified text and flags read from a reply's content. */
  function Verified(content: string): (string, string) {
    var t := Strip(content);
    (RemoveFlags(t), ExtractFlags(t))
  }

  /** What one attempt of `requests.post` gave: a response with its status code, the
      message content of a 200 and the body text; a 200 whose parsed body has no string
      at `choices[0].message.content`, with the message of the `KeyError`,
      `IndexError`, `TypeError` or `AttributeError` reading it raises; or a
      `RequestException`, a body `response.json()` cannot parse included. */
  datatype Reply =
    | Response(status: int, content: string, text: string)
    | Malformed(message: string)
    | RequestFailed(message: string)

  /** The outcome of the retry loop: the result or the message of the exception it
      raises, how many requests it made, and the sleeps between them. */
  datatype ApiCall = ApiCall(result: Result<(string, string), string>, calls: nat, delays: seq<int>)

  /** An attempt after which the loop sleeps and tries again, unless it was the last. */
  predicate Retryable(r: Reply) {
    r.RequestFailed? || (r.Response? && r.status == 429)
  }

  /** The sleep after a retryable attempt `i`: longer each time for rate limiting, the
      fixed delay after a failed request. */
  function Delay(r: Reply, delay: int, i: nat): int {
    if r.Response? then delay * (i + 1) else delay
  }

  function RateLimited(maxRetries: int): string {
    "Rate limit exceeded after " + IntToString(maxRetries) + " retries"
  }

  function RequestFailedAfter(maxRetries: int, message: string): string {
    "Request failed after " + IntToString(maxRetries) + " retries: " + message
  }

  function ApiError(status: int, text: string): string {
    "API error: " + IntToString(status) + " - " + text
  }

  /** The raise after the loop, with `str(last_error)`. */
  function LoopFailed(lastError: Option<string>): string {
    "LLM API call failed: " + lastError.GetOr("None")
  }

  /** One more request and one more sleep `s` in front of `x`. */
  function Retry(s: int, x: ApiCall): ApiCall {
    ApiCall(x.result, x.calls + 1, [s] + x.delays)
  }

  /** The loop of `call_llm_api` from attempt `a` on, with `lastError` the message of
      the last `RequestException`. */
  function CallFrom(reply: nat -> Reply, maxRetries: int, delay: int, a: nat,
                    lastError: Option<string>): (x: ApiCall)
    ensures a >= maxRetries ==> x.calls == 0
    ensures a < maxRetries ==> 0 < x.calls && a + x.calls <= maxRetries && |x.delays| == x.calls - 1
    decreases maxRetries - a
  {
    if a >= maxRetries then ApiCall(Err(LoopFailed(lastError)), 0, [])
    else
      var r := reply(a);
      match r
      case RequestFailed(message) =>
        if a < maxRetries - 1 then Retry(delay, CallFrom(reply, maxRetries, delay, a + 1, Some(message)))
        else ApiCall(Err(RequestFailedAfter(maxRetries, message)), 1, [])
      case Response(status, content, text) =>
        if status == 200 then ApiCall(Ok(Verified(content)), 1, [])
        else if status == 429 then
          if a < maxRetries - 1 then Retry(delay * (a + 1), CallFrom(reply, maxRetries, delay, a + 1, lastError))
          else ApiCall(Err(RateLimited(maxRetries)), 1, [])
        else ApiCall(Err(ApiError(status, text)), 1, [])
      case Malformed(message) => ApiCall(Err(message), 1, [])
  }

  /** `calls` requests and the sleeps `delays` already made in front of `x`. */
  function After(calls: nat, delays: seq<int>, x: ApiCall): ApiCall {
    ApiCall(x.result, calls + x.calls, delays + x.delays)
  }

  lemma AfterRetry(calls: nat, delays: seq<int>, s: int, x: ApiCall)
    ensures After(calls, delays, Retry(s, x)) == After(calls + 1, delays + [s], x)
  {
    assert delays + ([s] + x.delays) == (delays + [s]) + x.delays;
  }

  /** `call_llm_api(eng_chunk, hin_chunk_raw)` after its prompt is built. */
  method CallLlmApi(reply: nat -> Reply, maxRetries: int, delay: int)
    returns (result: Result<(string, string), string>, calls: nat, delays: seq<int>)
    ensures ApiCall(result, calls, delays) == CallFrom(reply, maxRetries, delay, 0, None)
  {
    var lastError: Option<string> := None;
    var attempt: nat := 0;
    delays := [];
    while attempt < maxRetries
      invariant After(attempt, delays, CallFrom(reply, maxRetries, delay, attempt, lastError))
                == CallFrom(reply, maxRetries, delay, 0, None)
      decreases maxRetries - attempt
    {
      var r := reply(attempt);
      if r.Malformed? {
        assert delays + [] == delays;
        return Err(r.message), attempt + 1, delays;
      } else if r.Response? {
        if r.status == 200 {
          assert delays + [] == delays;
          return Ok(Verified(r.content)), attempt + 1, delays;
        } else if r.status == 429 {
          if attempt < maxRetries - 1 {
            AfterRetry(attempt, delays, delay * (attempt + 1), CallFrom(reply, maxRetries, delay, attempt + 1, lastError));
            delays := delays + [delay * (attempt + 1)];
            attempt := attempt + 1;
            continue;
          } else {
            assert delays + [] == delays;
            return Err(RateLimited(maxRetries)), attempt + 1, delays;
          }
        } else {
          assert delays + [] == delays;
          return Err(ApiError(r.status, r.text)), attempt + 1, delays;
        }
      } else {
        if attempt < maxRetries - 1 {
          AfterRetry(attempt, delays, delay, CallFrom(reply, maxRetries, delay, attempt + 1, Some(r.message)));
          lastError := Some(r.message);
          delays := delays + [delay];
          attempt := attempt + 1;
        } else {
          assert delays + [] == delays;
          return Err(RequestFailedAfter(maxRetries, r.message)), attempt + 1, delays;
        }
      }
    }
    assert delays + [] == delays;
    return Err(LoopFailed(lastError)), attempt, delays;
  }

  /** The sleeps `ds` follow attempts `a`, `a + 1`, ..., each of them retryable. */
  predicate Slept(reply: nat -> Reply, delay: int, a: nat, ds: seq<int>) {
    forall k: int :: a <= k < a + |ds| ==> Retryable(reply(k)) && ds[k - a] == Delay(reply(k), delay, k)
  }

  lemma SleptCons(reply: nat -> Reply, delay: int, a: nat, ds: seq<int>)
    requires Retryable(reply(a)) && Slept(reply, delay, a + 1, ds)
    ensures Slept(reply, delay, a, [Delay(reply(a), delay, a)] + ds)
  {
    var es := [Delay(reply(a), delay, a)] + ds;
    forall k: int | a <= k < a + |es| ensures Retryable(reply(k)) && es[k - a] == Delay(reply(k), delay, k) {
      if k > a {
        assert es[k - a] == ds[k - (a + 1)];
      }
    }
  }

  /** The loop makes a request per attempt up to `maxRetries`, sleeps between two
      requests and never after the last, and sleeps only after a rate limit or a failed
      request. Without attempts it makes no request and raises with no last error. */
  lemma {:induction false} CallShape(reply: nat -> Reply, maxRetries: int, delay: int, a: nat,
                                     lastError: Option<string>)
    ensures var x := CallFrom(reply, maxRetries, delay, a, lastError);
      && (a >= maxRetries ==> x == ApiCall(Err(LoopFailed(lastError)), 0, []))
      && (a < maxRetries ==> 0 < x.calls && a + x.calls <= maxRetries && |x.delays| == x.calls - 1)
      && Slept(reply, delay, a, x.delays)
    decreases maxRetries - a
  {
    if a < maxRetries && a < maxRetries - 1 {
      var r := reply(a);
      if Retryable(r) {
        var le := if r.RequestFailed? then Some(r.message) else lastError;
        var y := CallFrom(reply, maxRetries, delay, a + 1, le);
        CallShape(reply, maxRetries, delay, a + 1, le);
        assert CallFrom(reply, maxRetries, delay, a, lastError) == Retry(Delay(r, delay, a), y);
        SleptCons(reply, delay, a, y.delays);
      }
    }
  }

  /** The last request decides the result: a 200 and only a 200 with a readable
      content gives the verified text of that content; a rate limit or a failed request
      on the last attempt, or any other status or a malformed 200 body at once, raises
      with its message. */
  lemma {:induction false} CallResult(reply: nat -> Reply, maxRetries: int, delay: int, a: nat,
                                      lastError: Option<string>)
    ensures var x := CallFrom(reply, maxRetries, delay, a, lastError);
      x.calls > 0 ==>
        var last := reply(a + x.calls - 1);
        && (x.result.Ok? <==> last.Response? && last.status == 200)
        && (x.result.Ok? ==> x.result.value == Verified(last.content))
        && (last.Response? && last.status == 429 ==> x.result == Err(RateLimited(maxRetries)))
        && (last.RequestFailed? ==> x.result == Err(RequestFailedAfter(maxRetries, last.message)))
        && (last.Response? && last.status != 200 && last.status != 429 ==> x.result == Err(ApiError(last.status, last.text)))
        && (last.Malformed? ==> x.result == Err(last.message))
    decreases maxRetries - a
  {
    if a < maxRetries - 1 {
      var r := reply(a);
      if Retryable(r) {
        var le := if r.RequestFailed? then Some(r.message) else lastError;
        var y := CallFrom(reply, maxRetries, delay, a + 1, le);
        assert y.calls > 0;
        CallResult(reply, maxRetries, delay, a + 1, le);
        assert CallFrom(reply, maxRetries, delay, a, lastError) == Retry(Delay(r, delay, a), y);
        assert a + (y.calls + 1) - 1 == (a + 1) + y.calls - 1;
      }
    }
  }

  /** `call_llm_api` as `llm_map` sees it: the verified pair or the message raised. */
  function CallResultOf(reply: nat -> Reply, maxRetries: int, delay: int): Result<(string, string), string> {
    CallFrom(reply, maxRetries, delay, 0, None).result
  }

  /** `llm_map(eng_chunk, hin_chunk_raw)`: the raw text unflagged when verification is
      off, flagged when there is no API key, the model's pair when the call returns,
      and the raw text with the error when it raises. */
  function LlmMap(raw: string, enabled: bool, apiKey: string,
                  call: Result<(string, string), string>): (r: (string, string))
    ensures !enabled ==> r == (raw, "")
    ensures enabled && |apiKey| == 0 ==> r == (raw, "[NO_API_KEY]")
    ensures enabled && |apiKey| > 0 && call.Err? ==> r.0 == raw && StartsWith(r.1, "[LLM_ERROR: ")
    ensures enabled && |apiKey| > 0 && call.Ok? ==> r == call.value
  {
    if !enabled then (raw, "")
    else if |apiKey| == 0 then (raw, "[NO_API_KEY]")
    else match call
      case Ok(pair) => pair
      case Err(message) => (raw, "[LLM_ERROR: " + message + "]")
  }

  /** When the call returns, `llm_map` gives the pair read from the 200 that ended the
      loop: a flag exactly when the model's stripped answer holds the tag, and a text
      with no whitespace at either end. */
  lemma VerifiedFlags(raw: string, apiKey: string, reply: nat -> Reply, maxRetries: int, delay: int)
    requires |apiKey| > 0 && CallResultOf(reply, maxRetries, delay).Ok?
    ensures var x := CallFrom(reply, maxRetries, delay, 0, None);
      && 0 < x.calls <= maxRetries
      && var last := reply(x.calls - 1);
      && last.Response? && last.status == 200
      && var r := LlmMap(raw, true, apiKey, x.result);
      && r == Verified(last.content)
      && (r.1 == Uncertain <==> Contains(Strip(last.content), Uncertain))
      && IsStripped(r.0)
  {
    CallShape(reply, maxRetries, delay, 0, None);
    CallResult(reply, maxRetries, delay, 0, None);
  }

  /** The two prompts of `create_verification_prompt`: translating from scratch, or
      reviewing a given Hindi text. Their wording is not part of this model. */
  datatype Prompt = Translate(english: string) | Review(english: string, hindi: string)

  /** `create_verification_prompt(eng_chunk, hin_chunk_raw)`. */
  function CreateVerificationPrompt(eng: string, raw: string): (p: Prompt)
    ensures p.Translate? <==> IsBlank(raw)
    ensures p.english == eng
    ensures p.Review? ==> p.hindi == raw
  {
    if |raw| == 0 || |Strip(raw)| == 0 then Translate(eng) else Review(eng, raw)
  }
}
