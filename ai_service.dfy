/**
 * The AI assistant (`HiringAIAssistant`): whether it is switched on, and its
 * call to the language model with retries and exponential back-off. The model
 * client is represented by the outcomes its successive calls produce; sleeping
 * is recorded as a trace of delays.
 */
module AiService {
  import opened Wrappers
  import opened Config

  /** The outcome of one `generate_content` call: the reply text, or the exception raised. */
  datatype Reply = Ok(text: string) | Fails(error: string)

  /** The outcome of call number `k`; calls past the end of the script fail. */
  function OutcomeAt(script: seq<Reply>, k: nat): Reply {
    if k < |script| then script[k] else Fails("no scripted reply")
  }

  /** A Gemini or Groq client: its settings, its availability and its call outcomes. */
  class LLMClient {
    const apiKey: string
    const model: string
    const timeout: int
    const available: bool
    const script: seq<Reply>
    /** How many calls have been made so far. */
    var calls: nat

    constructor(apiKey: string, model: string, timeout: int, available: bool, script: seq<Reply>)
      ensures this.apiKey == apiKey && this.model == model && this.timeout == timeout
      ensures this.available == available && this.script == script
      ensures calls == 0
    {
      this.apiKey := apiKey;
      this.model := model;
      this.timeout := timeout;
      this.available := available;
      this.script := script;
      calls := 0;
    }

    /** `is_available()`. */
    predicate IsAvailable() {
      available
    }

    /** `generate_content(...)`: the next scripted outcome. */
    method GenerateContent(prompt: string, maxTokens: int, temperature: real) returns (r: Reply)
      modifies this
      ensures calls == old(calls) + 1
      ensures r == OutcomeAt(script, old(calls))
    {
      r := OutcomeAt(script, calls);
      calls := calls + 1;
    }
  }

  /** How building the provider's client goes: whether it raises, and what the client does. */
  datatype ClientSetup = ClientSetup(raises: bool, available: bool, script: seq<Reply>)

  // ---------------------------------------------------------------------------
  // The retry schedule

  /** What a run of attempts produced: the response, how many calls it made, and the sleeps between them. */
  datatype RetryRun = RetryRun(response: Option<string>, calls: nat, delays: seq<real>)

  /**
   * The run from attempt `attempt` of `maxRetries`, the client's next call being
   * call number `first + attempt` and the next sleep lasting `delay`: the first
   * reply ends the run; a failure sleeps and doubles the delay unless it was the
   * last attempt.
   */
  function RetryFrom(script: seq<Reply>, first: nat, attempt: nat, maxRetries: int, delay: real): (r: RetryRun)
    ensures attempt < maxRetries ==> 1 <= r.calls
    ensures |r.delays| == if r.calls == 0 then 0 else r.calls - 1
    ensures r.response.Some? ==>
      0 < r.calls && OutcomeAt(script, first + attempt + r.calls - 1) == Ok(r.response.value)
    ensures r.response.None? ==> r.calls == if attempt < maxRetries then maxRetries - attempt else 0
    decreases maxRetries - attempt
  {
    if attempt >= maxRetries then RetryRun(None, 0, [])
    else
      match OutcomeAt(script, first + attempt)
      case Ok(t) => RetryRun(Some(t), 1, [])
      case Fails(_) =>
        var last := attempt == maxRetries - 1;
        var rest := RetryFrom(script, first, attempt + 1, maxRetries, if last then delay else delay * 2.0);
        RetryRun(rest.response, rest.calls + 1, (if last then [] else [delay]) + rest.delays)
  }

  /** `2^i` as a real. */
  function Pow2(i: nat): (p: real)
    ensures p >= 1.0
  {
    if i == 0 then 1.0 else 2.0 * Pow2(i - 1)
  }

  /** The delays `d, 2d, 4d, ...`, `n` of them. */
  function Doubling(d: real, n: nat): (s: seq<real>)
    ensures |s| == n
    decreases n
  {
    if n == 0 then [] else [d] + Doubling(d * 2.0, n - 1)
  }

  /** The `i`-th sleep lasts `2^i` times the first. */
  lemma {:induction false} DoublingAt(d: real, n: nat, i: nat)
    requires i < n
    ensures Doubling(d, n)[i] == d * Pow2(i)
    decreases i
  {
    if i > 0 {
      DoublingAt(d * 2.0, n - 1, i - 1);
      assert Doubling(d, n)[i] == Doubling(d * 2.0, n - 1)[i - 1];
    }
  }

  /** With a non-negative initial delay, the backoff never sleeps less than that delay, and each sleep doubles the one before. */
  lemma DoublingNeverShorter(d: real, n: nat, i: nat)
    requires 0.0 <= d && i < n
    ensures d <= Doubling(d, n)[i]
    ensures 0 < i ==> Doubling(d, n)[i] == 2.0 * Doubling(d, n)[i - 1]
  {
    DoublingAt(d, n, i);
    assert d * 1.0 <= d * Pow2(i);
    if 0 < i {
      DoublingAt(d, n, i - 1);
      assert Pow2(i) == 2.0 * Pow2(i - 1);
    }
  }

  /** A failed attempt is one call, then a sleep unless it was the last attempt, then the rest of the run. */
  lemma RetryAfterFailure(script: seq<Reply>, first: nat, attempt: nat, maxRetries: int, delay: real)
    requires attempt < maxRetries && OutcomeAt(script, first + attempt).Fails?
    ensures
      var rest := RetryFrom(script, first, attempt + 1, maxRetries, if attempt < maxRetries - 1 then delay * 2.0 else delay);
      var run := RetryFrom(script, first, attempt, maxRetries, delay);
      run.response == rest.response && run.calls == rest.calls + 1
      && run.delays == (if attempt < maxRetries - 1 then [delay] else []) + rest.delays
  {
  }

  /** A run makes at least one call when an attempt is left, and never more calls than attempts left. */
  lemma {:induction false} RetryCallsBound(script: seq<Reply>, first: nat, attempt: nat, maxRetries: int, delay: real)
    ensures attempt < maxRetries ==> 1 <= RetryFrom(script, first, attempt, maxRetries, delay).calls <= maxRetries - attempt
    ensures attempt >= maxRetries ==> RetryFrom(script, first, attempt, maxRetries, delay) == RetryRun(None, 0, [])
    ensures |RetryFrom(script, first, attempt, maxRetries, delay).delays| < RetryFrom(script, first, attempt, maxRetries, delay).calls
      || RetryFrom(script, first, attempt, maxRetries, delay).calls == 0
    decreases maxRetries - attempt
  {
    if attempt < maxRetries && OutcomeAt(script, first + attempt).Fails? {
      var last := attempt == maxRetries - 1;
      RetryCallsBound(script, first, attempt + 1, maxRetries, if last then delay else delay * 2.0);
    }
  }

  /**
   * When the calls from attempt `attempt` fail up to attempt `k`, which replies,
   * the run returns that reply unchanged after `k - attempt + 1` calls, having
   * slept once after each failure with doubling delays.
   */
  lemma {:induction false} RetryFirstReply(script: seq<Reply>, first: nat, attempt: nat, k: nat, maxRetries: int, delay: real)
    requires attempt <= k < maxRetries
    requires forall call :: first + attempt <= call < first + k ==> OutcomeAt(script, call).Fails?
    requires OutcomeAt(script, first + k).Ok?
    ensures RetryFrom(script, first, attempt, maxRetries, delay)
      == RetryRun(Some(OutcomeAt(script, first + k).text), k - attempt + 1, Doubling(delay, k - attempt))
    decreases k - attempt
  {
    if attempt < k {
      assert OutcomeAt(script, first + attempt).Fails?;
      RetryFirstReply(script, first, attempt + 1, k, maxRetries, delay * 2.0);
    }
  }

  /**
   * When every remaining attempt fails, the run returns None after one call per
   * attempt, sleeping between attempts but not after the last.
   */
  lemma {:induction false} RetryAllFail(script: seq<Reply>, first: nat, attempt: nat, maxRetries: int, delay: real)
    requires attempt < maxRetries
    requires forall call :: first + attempt <= call < first + maxRetries ==> OutcomeAt(script, call).Fails?
    ensures RetryFrom(script, first, attempt, maxRetries, delay)
      == RetryRun(None, maxRetries - attempt, Doubling(delay, maxRetries - attempt - 1))
    decreases maxRetries - attempt
  {
    assert OutcomeAt(script, first + attempt).Fails?;
    if attempt < maxRetries - 1 {
      RetryAllFail(script, first, attempt + 1, maxRetries, delay * 2.0);
    }
  }

  /** With the defaults (three attempts, one second first), three failures sleep 1s then 2s and give up. */
  lemma DefaultScheduleAllFail(script: seq<Reply>, first: nat)
    requires forall call :: first <= call < first + 3 ==> OutcomeAt(script, call).Fails?
    ensures RetryFrom(script, first, 0, 3, 1.0) == RetryRun(None, 3, [1.0, 2.0])
  {
    RetryAllFail(script, first, 0, 3, 1.0);
    assert Doubling(1.0, 2) == [1.0, 2.0];
  }

  // ---------------------------------------------------------------------------
  // The assistant

  const NoFeedbackMessage := "No feedback provided for analysis."

  /** An entry of recruiter feedback; its text only reaches the model through the prompt. */
  datatype Feedback = Feedback(candidateName: string, jobTitle: string, score: real, decision: string, notes: string)

  class HiringAIAssistant {
    const config: AIConfig
    var client: LLMClient?
    var enabled: bool
    /** The durations slept so far, in order. */
    ghost var sleeps: seq<real>

    /**
     * `HiringAIAssistant(config)`: with no configuration, `envConfig`, the
     * `AIConfig()` that the environment yields. A client is built only for an
     * enabled configuration, for its provider, with that provider's key and
     * model; the assistant is enabled only if that client was built without
     * raising and reports itself available.
     */
    constructor(config: AIConfig?, envConfig: AIConfig, setup: ClientSetup)
      ensures config != null ==> this.config == config
      ensures config == null ==> this.config == envConfig
      ensures sleeps == []
      ensures enabled <==> this.config.IsEnabled() && !setup.raises && setup.available
      ensures enabled ==> client != null
      ensures client != null ==>
        && fresh(client) && client.calls == 0 && client.script == setup.script
        && client.timeout == this.config.timeout
        && client.apiKey == this.config.ActiveKey() && client.model == this.config.Model()
      ensures !this.config.IsEnabled() ==> client == null
      ensures client != null <==> this.config.IsEnabled() && !setup.raises
    {
      var cfg: AIConfig;
      if config == null {
        cfg := envConfig;
      } else {
        cfg := config;
      }
      this.config := cfg;
      client := null;
      enabled := false;
      sleeps := [];
      new;
      if cfg.IsEnabled() {
        if !setup.raises {
          if cfg.provider == "gemini" {
            client := new LLMClient(cfg.apiKey, cfg.geminiModel, cfg.timeout, setup.available, setup.script);
          } else if cfg.provider == "groq" {
            client := new LLMClient(cfg.groqApiKey, cfg.groqModel, cfg.timeout, setup.available, setup.script);
          } else {
            // an enabled configuration always names one of the two providers
            assert false;
          }
          enabled := client != null && client.IsAvailable();
        }
      }
    }

    /**
     * `_call_ai_with_retry`: nothing when disabled or without a client; otherwise
     * the run `RetryFrom` describes, the client's calls and the sleeps advancing
     * by what that run made.
     */
    method CallAiWithRetry(prompt: string, maxRetries: int, initialDelay: real) returns (response: Option<string>)
      modifies this, client
      ensures client == old(client) && enabled == old(enabled)
      ensures !enabled || client == null ==>
        response == None && sleeps == old(sleeps) && (client != null ==> client.calls == old(client.calls))
      ensures enabled && client != null ==>
        var run := RetryFrom(client.script, old(client.calls), 0, maxRetries, initialDelay);
        response == run.response && client.calls == old(client.calls) + run.calls
        && sleeps == old(sleeps) + run.delays
    {
      if !enabled || client == null {
        return None;
      }
      var delay := initialDelay;
      var lastError: Option<string> := None;
      ghost var start := client.calls;
      ghost var slept := sleeps;
      var attempt := 0;
      while attempt < maxRetries
        invariant 0 <= attempt && (attempt <= maxRetries || maxRetries < 0)
        invariant client == old(client) && enabled == old(enabled) && client != null
        invariant client.calls == start + attempt
        invariant
          var whole, rest := RetryFrom(client.script, start, 0, maxRetries, initialDelay),
                             RetryFrom(client.script, start, attempt, maxRetries, delay);
          whole.response == rest.response && whole.calls == attempt + rest.calls
          && old(sleeps) + whole.delays == sleeps + rest.delays
        decreases maxRetries - attempt
      {
        var r := client.GenerateContent(prompt, config.maxTokens, config.temperature);
        match r {
          case Ok(text) =>
            return Some(text);
          case Fails(e) =>
            RetryAfterFailure(client.script, start, attempt, maxRetries, delay);
            lastError := Some(e);
            if attempt < maxRetries - 1 {
              ghost var rest := RetryFrom(client.script, start, attempt + 1, maxRetries, delay * 2.0);
              assert sleeps + ([delay] + rest.delays) == (sleeps + [delay]) + rest.delays;
              sleeps := sleeps + [delay];
              delay := delay * 2.0;
            }
        }
        attempt := attempt + 1;
      }
      return None;
    }

    /** `summarize_candidate`: nothing when disabled, else the model's answer to the summary prompt. */
    method SummarizeCandidate(prompt: string) returns (summary: Option<string>)
      modifies this, client
      ensures client == old(client) && enabled == old(enabled)
      ensures !enabled ==> summary == None && sleeps == old(sleeps) && (client != null ==> client.calls == old(client.calls))
      ensures enabled && client == null ==> summary == None && sleeps == old(sleeps)
      ensures enabled && client != null ==>
        var run := RetryFrom(client.script, old(client.calls), 0, 3, 1.0);
        summary == run.response && client.calls == old(client.calls) + run.calls && sleeps == old(sleeps) + run.delays
    {
      if !enabled {
        return None;
      }
      summary := CallAiWithRetry(prompt, 3, 1.0);
    }

    /** `explain_match`: nothing when disabled, else the model's answer to the explanation prompt. */
    method ExplainMatch(prompt: string) returns (explanation: Option<string>)
      modifies this, client
      ensures client == old(client) && enabled == old(enabled)
      ensures !enabled ==> explanation == None && sleeps == old(sleeps) && (client != null ==> client.calls == old(client.calls))
      ensures enabled && client == null ==> explanation == None && sleeps == old(sleeps)
      ensures enabled && client != null ==>
        var run := RetryFrom(client.script, old(client.calls), 0, 3, 1.0);
        explanation == run.response && client.calls == old(client.calls) + run.calls && sleeps == old(sleeps) + run.delays
    {
      if !enabled {
        return None;
      }
      explanation := CallAiWithRetry(prompt, 3, 1.0);
    }

    /**
     * `suggest_refinements`: nothing when disabled; a fixed message, without
     * calling the model, for an empty batch; else the model's answer.
     */
    method SuggestRefinements(batch: seq<Feedback>, prompt: string) returns (suggestions: Option<string>)
      modifies this, client
      ensures client == old(client) && enabled == old(enabled)
      ensures !enabled ==> suggestions == None
      ensures !enabled || batch == [] ==> sleeps == old(sleeps) && (client != null ==> client.calls == old(client.calls))
      ensures enabled && batch == [] ==> suggestions == Some(NoFeedbackMessage)
      ensures enabled && batch != [] && client == null ==> suggestions == None && sleeps == old(sleeps)
      ensures enabled && batch != [] && client != null ==>
        var run := RetryFrom(client.script, old(client.calls), 0, 3, 1.0);
        suggestions == run.response && client.calls == old(client.calls) + run.calls && sleeps == old(sleeps) + run.delays
    {
      if !enabled {
        return None;
      }
      if batch == [] {
        return Some(NoFeedbackMessage);
      }
      suggestions := CallAiWithRetry(prompt, 3, 1.0);
    }
  }
}
