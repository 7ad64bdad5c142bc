/**
 * What the LLM layer reports and answers when it cannot or does not use the model:
 * `llm_status` (readiness without a network call), the error classification of `ping_llm`,
 * the fallback answers of `synthesize_answer`, and the outer shape of
 * `stream_synthesize_answer` around the citation-safe splitter.
 *
 * The provider is abstract: a synchronous call either answers (with possibly no content) or
 * fails with the text of its exception; a streaming call yields deltas and then either ends
 * or breaks off with an exception.
 */
module Answer {
  import opened Wrappers
  import opened Text
  import opened Records
  import opened Stream

  /** Default of `OPENAI_MODEL`. */
  const DefaultModel := "gpt-3.5-turbo-0125"

  const NoSdk := "OpenAI SDK not installed"
  const NoKey := "Missing OPENAI_API_KEY"

  /** What the layer reads from its surroundings: SDK importable, `OPENAI_API_KEY`, `OPENAI_MODEL`. */
  datatype Env = Env(hasSdk: bool, apiKey: Option<string>, model: Option<string>)

  /** SDK present and a non-empty API key. */
  predicate Ready(env: Env) {
    env.hasSdk && env.apiKey.Some? && env.apiKey.value != ""
  }

  /** `model_override or os.getenv('OPENAI_MODEL', default)` */
  function ModelName(override: Option<string>, envModel: Option<string>): (m: string)
    ensures override.Some? && override.value != "" ==> m == override.value
    ensures (override.None? || override.value == "") && envModel.None? ==> m == DefaultModel
    ensures (override.None? || override.value == "") && envModel.Some? ==> m == envModel.value
  {
    if override.Some? && override.value != "" then override.value else envModel.GetOr(DefaultModel)
  }

  /** The `{ok, reason, model}` dictionary of `llm_status` and `ping_llm`. */
  datatype Status = Status(ok: bool, reason: Option<string>, model: string)

  /** `llm_status`: readiness from configuration alone. */
  function LlmStatus(env: Env, override: Option<string>): (s: Status)
    ensures s.ok <==> Ready(env)
    ensures s.ok <==> s.reason.None?
    ensures !env.hasSdk ==> s.reason == Some(NoSdk)
    ensures env.hasSdk && !Ready(env) ==> s.reason == Some(NoKey)
    ensures s.model == ModelName(override, env.model)
  {
    var model := ModelName(override, env.model);
    if !env.hasSdk then Status(false, Some(NoSdk), model)
    else if !Ready(env) then Status(false, Some(NoKey), model)
    else Status(true, None, model)
  }

  /** `"rate limit" in low or "rate_limit" in low` for `low = msg.lower()`. */
  predicate RateLimited(msg: string) {
    var low := Lower(msg);
    Contains(low, "rate limit") || Contains(low, "rate_limit")
  }

  /**
   * `ping_llm`: the configuration checks of `llm_status`, then one tiny completion. `failure`
   * is the text of the exception that completion raised, if it raised one.
   */
  function Ping(env: Env, override: Option<string>, failure: Option<string>): (s: Status)
    ensures !Ready(env) ==> s == LlmStatus(env, override)
    ensures s.model == LlmStatus(env, override).model
    ensures s.ok ==> Ready(env)
    ensures Ready(env) && failure.None? ==> s.ok && s.reason.None?
    ensures Ready(env) && failure.Some? ==> s.reason.Some?
    ensures failure.Some? && !s.ok && Ready(env) ==>
      var m := s.reason.value; |m| <= 500 && m <= failure.value
    ensures Ready(env) && failure.Some? ==> (s.ok <==> RateLimited(Prefix(failure.value, 500)))
    ensures Ready(env) && failure.Some? && !RateLimited(Prefix(failure.value, 500)) ==>
      s.reason == Some(Prefix(failure.value, 500))
  {
    var status := LlmStatus(env, override);
    if !Ready(env) then status
    else match failure
      case None => status
      case Some(e) =>
        var msg := Prefix(e, 500);
        if RateLimited(msg) then Status(true, Some("rate_limited: " + msg), status.model)
        else Status(false, Some(msg), status.model)
  }

  /** A message with a rate-limited part, in any letter case, is rate-limited. */
  lemma RateLimitedInfix(a: string, c: string, b: string, msg: string)
    requires RateLimited(c)
    requires msg == a + c + b
    ensures RateLimited(msg)
  {
    if Contains(Lower(c), "rate limit") {
      LowerWithin(a, c, b, "rate limit");
    } else {
      LowerWithin(a, c, b, "rate_limit");
    }
  }

  /** A rate-limited part within the first 500 characters survives the cut `ping_llm` makes. */
  lemma RateLimitedWithin(a: string, c: string, b: string)
    requires RateLimited(c)
    requires |a| + |c| <= 500
    ensures RateLimited(Prefix(a + c + b, 500))
  {
    var rest := Prefix(b, 500 - |a| - |c|);
    PrefixPastInfix(a, c, b, 500);
    RateLimitedInfix(a, c, rest, Prefix(a + c + b, 500));
  }

  /**
   * An error whose first 500 characters contain "rate limit" in any letter case counts as
   * connected: ok, with the truncated message after a `rate_limited: ` tag.
   */
  lemma PingRateLimited(env: Env, override: Option<string>, a: string, c: string, b: string)
    requires Ready(env)
    requires RateLimited(c)
    requires |a| + |c| <= 500
    ensures var s := Ping(env, override, Some(a + c + b));
      s.ok && s.reason == Some("rate_limited: " + Prefix(a + c + b, 500))
  {
    var e := a + c + b;
    RateLimitedWithin(a, c, b);
    PingRateLimitedError(env, override, e);
  }

  /** A configured client whose failure text is rate-limited within its first 500 characters is ok. */
  lemma PingRateLimitedError(env: Env, override: Option<string>, e: string)
    requires Ready(env) && RateLimited(Prefix(e, 500))
    ensures Ping(env, override, Some(e)) == Status(true, Some("rate_limited: " + Prefix(e, 500)), ModelName(override, env.model))
  {
  }

  /** Any other failure reports not ok, with the failure text cut to 500 characters as reason. */
  lemma PingOtherFailure(env: Env, override: Option<string>, e: string)
    requires Ready(env) && !RateLimited(Prefix(e, 500))
    ensures Ping(env, override, Some(e)) == Status(false, Some(Prefix(e, 500)), ModelName(override, env.model))
  {
  }

  // ---------------------------------------------------------------------------
  // synthesize_answer
  // ---------------------------------------------------------------------------

  /** The outcome of a synchronous completion: its message content, or the exception's text. */
  datatype Reply = Answered(content: Option<string>) | Failed(error: string)

  /** The `{answer, used_chunks}` dictionary. */
  datatype Answer = Answer(answer: string, usedChunks: seq<Option<Meta>>)

  /** The text of every retrieved item, `""` where there is none. */
  function Texts(rs: seq<Hit>): (ts: seq<string>)
    ensures |ts| == |rs|
    ensures forall k :: 0 <= k < |rs| ==> ts[k] == TextOf(rs[k])
  {
    seq(|rs|, k requires 0 <= k < |rs| => TextOf(rs[k]))
  }

  /** The retrieved texts separated by blank lines. */
  function Joined(rs: seq<Hit>): string {
    Join("\n\n", Texts(rs))
  }

  const ContextOnly := " Showing retrieved context only.\n\n"
  const Misconfigured := "(LLM unavailable or misconfigured)"

  /**
   * The head of the answer after a failed call: the error cut to 200 characters inside
   * `(LLM error: …)`, or the misconfiguration notice when there is no error text.
   */
  function ErrorHead(error: string): (h: string)
    ensures error == "" <==> h == Misconfigured
    ensures error != "" ==>
      var m := if |error| < 200 then |error| else 200;
      && |h| == 13 + m
      && h[..12] == "(LLM error: "
      && h[12..|h| - 1] == error[..m]
      && h[|h| - 1] == ')'
  {
    var reason := Prefix(error, 200);
    if reason != "" then
      var h := "(LLM error: " + reason + ")";
      assert h[5] != Misconfigured[5];
      h
    else Misconfigured
  }

  /** The answer when no model is configured: the joined texts and the question. */
  function Summary(question: string, rs: seq<Hit>): string {
    "(LLM unavailable) Context summary:\n" + Joined(rs) + "\n\nQuestion: " + question
  }

  /**
   * `synthesize_answer` once the messages are built: `reply` is what the completion returned,
   * consulted only when a model is configured.
   */
  function Synthesize(env: Env, question: string, rs: seq<Hit>, reply: Reply): (a: Answer)
    ensures |a.usedChunks| == |rs|
    ensures forall k :: 0 <= k < |rs| ==> a.usedChunks[k] == rs[k].meta
    ensures !Ready(env) ==> a.answer == Summary(question, rs)
  {
    var used := seq(|rs|, k requires 0 <= k < |rs| => rs[k].meta);
    if !Ready(env) then Answer(Summary(question, rs), used)
    else match reply
      case Answered(content) => Answer(Strip(content.GetOr("")), used)
      case Failed(e) => Answer(ErrorHead(e) + ContextOnly + Joined(rs), used)
  }

  /**
   * A model answer reaches the caller as the reply's content (`""` when it has none) with
   * its leading and trailing whitespace, and only that, removed.
   */
  lemma AnsweredTrimmed(env: Env, question: string, rs: seq<Hit>, content: Option<string>)
    requires Ready(env)
    ensures var s, c := Synthesize(env, question, rs, Answered(content)).answer, content.GetOr("");
      var lead := |c| - |LStrip(c)|;
      && lead + |s| <= |c|
      && (forall i :: 0 <= i < |s| ==> s[i] == c[lead + i])
      && (forall i :: 0 <= i < lead ==> IsSpace(c[i]))
      && (forall i :: lead + |s| <= i < |c| ==> IsSpace(c[i]))
      && (s == [] || (!IsSpace(s[0]) && !IsSpace(s[|s| - 1])))
  {
    var c := content.GetOr("");
    StrippedParts(c, Synthesize(env, question, rs, Answered(content)).answer);
  }

  /** Any `s == c.strip()` is a whitespace-delimited run of `c` with non-whitespace ends. */
  lemma StrippedParts(c: string, s: string)
    requires s == Strip(c)
    ensures var lead := |c| - |LStrip(c)|;
      && lead + |s| <= |c|
      && (forall i :: 0 <= i < |s| ==> s[i] == c[lead + i])
      && (forall i :: 0 <= i < lead ==> IsSpace(c[i]))
      && (forall i :: lead + |s| <= i < |c| ==> IsSpace(c[i]))
      && (s == [] || (!IsSpace(s[0]) && !IsSpace(s[|s| - 1])))
  {
    StripTrims(c);
    StripEnds(c);
  }

  /**
   * After a failed call the answer names the error (or says the model is unavailable or
   * misconfigured when the error has no text) and then shows every retrieved text.
   */
  lemma FailedShowsContext(env: Env, question: string, rs: seq<Hit>, e: string)
    requires Ready(env)
    ensures var s, j := Synthesize(env, question, rs, Failed(e)).answer, Joined(rs);
      var h := ErrorHead(e);
      && |s| == |h| + |ContextOnly| + |j|
      && s[..|h|] == h
      && s[|h|..|h| + |ContextOnly|] == ContextOnly
      && s[|s| - |j|..] == j
  {
    var s, j, h := Synthesize(env, question, rs, Failed(e)).answer, Joined(rs), ErrorHead(e);
    assert s == h + ContextOnly + j;
    assert s[..|h|] == h;
    assert s[|h|..|h| + |ContextOnly|] == ContextOnly;
    assert s[|s| - |j|..] == j;
  }

  // ---------------------------------------------------------------------------
  // stream_synthesize_answer
  // ---------------------------------------------------------------------------

  /** A streaming completion: the deltas it delivered, and how it ended. */
  datatype Outcome = Completed(deltas: seq<string>) | BrokeOff(deltas: seq<string>, error: string)

  /** The single unit sent when the provider rate-limits a stream, with an optional wait hint. */
  function RateNotice(hint: Option<string>): string {
    var notice := "We are temporarily rate-limited by the LLM provider."
      + (if hint.Some? && hint.value != "" then " Please retry in " + hint.value + "." else "");
    "(LLM rate-limited) " + notice + "\n\nShowing retrieved context only."
  }

  /**
   * The units `stream_synthesize_answer` yields. Without a model it yields the summary
   * answer. A stream that completes goes through the splitter. A stream that breaks off keeps
   * what the splitter already released, drops what it held back, and adds one unit: the
   * rate-limit notice (with the `hint` the error text carries) or the answer of a fresh
   * synchronous call, whose outcome is `retry`.
   */
  function StreamAnswer(env: Env, question: string, rs: seq<Hit>, outcome: Outcome,
                        hint: Option<string>, retry: Reply): (us: seq<string>)
    ensures !Ready(env) ==> us == [Summary(question, rs)]
  {
    if !Ready(env) then [Synthesize(env, question, rs, retry).answer]
    else match outcome
      case Completed(ds) => Units(ds)
      case BrokeOff(ds, e) =>
        var last := if e != "" && RateLimited(e) then RateNotice(hint)
                    else Synthesize(env, question, rs, retry).answer;
        Drain(ds, "").out + [last]
  }

  /** A stream that completes yields exactly the model's text, in non-empty, marker-safe units. */
  lemma StreamCompleted(env: Env, question: string, rs: seq<Hit>, ds: seq<string>,
                        hint: Option<string>, retry: Reply)
    requires Ready(env)
    ensures var us := StreamAnswer(env, question, rs, Completed(ds), hint, retry);
      Concat(us) == Concat(ds) && NoEmpty(us) && AllSafe(us)
  {
    UnitsConcat(ds);
    UnitsNonEmpty(ds);
    UnitsSafe(ds);
  }

  /**
   * When a stream breaks off, what was already sent is a prefix of the model's text and is
   * never taken back; the last unit is the notice or the fallback answer.
   */
  lemma StreamBrokeOff(env: Env, question: string, rs: seq<Hit>, ds: seq<string>, e: string,
                       hint: Option<string>, retry: Reply)
    requires Ready(env)
    ensures var us := StreamAnswer(env, question, rs, BrokeOff(ds, e), hint, retry);
      && Concat(us[..|us| - 1]) <= Concat(ds)
      && NoEmpty(us[..|us| - 1])
      && us[|us| - 1] == (if e != "" && RateLimited(e) then RateNotice(hint)
                          else Synthesize(env, question, rs, retry).answer)
  {
    var d := Drain(ds, "");
    var us := StreamAnswer(env, question, rs, BrokeOff(ds, e), hint, retry);
    assert us[..|us| - 1] == d.out;
    DrainConcat(ds, "");
    DrainShape(ds, "");
    assert "" + Concat(ds) == Concat(ds);
  }

  /**
   * A broken-off stream whose error mentions a rate limit anywhere (the message is not cut
   * first, unlike in `ping_llm`) ends with the notice rather than a retry.
   */
  lemma StreamRateLimited(env: Env, question: string, rs: seq<Hit>, ds: seq<string>,
                          a: string, c: string, b: string, hint: Option<string>, retry: Reply)
    requires Ready(env)
    requires RateLimited(c)
    ensures var us := StreamAnswer(env, question, rs, BrokeOff(ds, a + c + b), hint, retry);
      us[|us| - 1] == RateNotice(hint)
  {
    RateLimitedInfix(a, c, b, a + c + b);
    assert a + c + b != "";
  }
}
