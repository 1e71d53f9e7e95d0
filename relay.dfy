/**
 * The solution relay service: the `POST /suggest-solution` handler and the
 * `GET /health` handler. The service keeps no state between requests, so
 * each handler is a function from its inputs to the HTTP reply. The call
 * to the external completion API is a parameter: a function from the
 * prompt sent to the outcome the HTTP client reports.
 */
module Relay {
  import opened Wrappers
  import opened JsString

  /** The JSON object a reply carries: `{solution}`, `{error}` or `{message}`. */
  datatype Body = Solution(solution: string) | Error(error: string) | Message(message: string)

  datatype Reply = Reply(status: int, body: Body)

  /**
   * What the HTTP client reports for the outbound completion request:
   * a 2xx answer with its completion choices (the text of each), an
   * answer with another status and the `error` field of its body, or
   * no answer at all (network failure, timeout).
   */
  datatype Upstream =
    | Completed(choices: seq<string>)
    | Rejected(status: int, error: Option<string>)
    | NoResponse

  /** One request handled: the prompt sent upstream, if any, and the reply. */
  datatype Exchange = Exchange(sent: Option<string>, reply: Reply)

  const DescriptionRequired: string := "Bug description is required."
  const UpstreamFailed: string := "Error fetching solution from OpenAI."
  const ServerError: string := "Server error. Please try again later."
  const HealthMessage: string := "Server is running successfully."
  const PromptLead: string := "Provide a solution for the following bug:\n\n\""

  /** The HTTP client reports a non-2xx answer as a rejection; a 2xx answer is never one. */
  predicate IsOkStatus(status: int) {
    200 <= status <= 299
  }

  predicate WellFormed(outcome: Upstream) {
    outcome.Rejected? ==> !IsOkStatus(outcome.status)
  }

  /** A JavaScript string is truthy when it is not empty. */
  predicate Truthy(s: Option<string>) {
    s.Some? && s.value != ""
  }

  /** `!description || description.trim() === ""`. */
  predicate IsMissing(description: Option<string>) {
    description.None? || description.value == "" || Trim(description.value) == ""
  }

  /** The validation rejects exactly the missing descriptions and those made only of whitespace. */
  lemma MissingIffBlank(description: Option<string>)
    ensures IsMissing(description) <==> description.None? || AllWhitespace(description.value)
  {
  }

  /** The prompt embeds the description verbatim (untrimmed) between the fixed lead-in and a closing quote. */
  function Prompt(description: string): (p: string)
    ensures |p| == |PromptLead| + |description| + 1
    ensures p[..|PromptLead|] == PromptLead
    ensures p[|PromptLead|..|p| - 1] == description
    ensures p[|p| - 1] == '"'
  {
    PromptLead + description + "\""
  }

  /** Different descriptions are never sent as the same prompt. */
  lemma PromptInjective(a: string, b: string)
    requires Prompt(a) == Prompt(b)
    ensures a == b
  {
    var p := Prompt(a);
    assert a == p[|PromptLead|..|p| - 1];
  }

  /**
   * The reply once the outbound call has settled: the trimmed text of the
   * first choice with status 200; the upstream status with its `error`
   * field (or a fixed message when that is falsy); otherwise, including a
   * success without any choice, whose `choices[0].text` throws, a 500.
   */
  function Complete(outcome: Upstream): (r: Reply)
    ensures r.body.Solution? <==> outcome.Completed? && |outcome.choices| > 0
    ensures r.body.Solution? ==>
              r.status == 200 && r.body.solution == Trim(outcome.choices[0])
              && IsTrimmed(r.body.solution)
              && (r.body.solution == "" <==> AllWhitespace(outcome.choices[0]))
    ensures outcome.Rejected? ==>
              r.status == outcome.status
              && r.body == Error(if Truthy(outcome.error) then outcome.error.value else UpstreamFailed)
    ensures !outcome.Rejected? && !r.body.Solution? ==> r == Reply(500, Error(ServerError))
  {
    match outcome
    case Completed(choices) =>
      if |choices| == 0 then Reply(500, Error(ServerError))
      else Reply(200, Solution(Trim(choices[0])))
    case Rejected(status, error) =>
      Reply(status, Error(if Truthy(error) then error.value else UpstreamFailed))
    case NoResponse =>
      Reply(500, Error(ServerError))
  }

  /**
   * `POST /suggest-solution`: a missing, empty or whitespace-only
   * description is answered 400 without any outbound call; any other is
   * sent, untrimmed, inside the prompt, and the reply is that of Complete.
   */
  function SuggestSolution(description: Option<string>, upstream: string -> Upstream): (ex: Exchange)
    ensures ex.sent.None? <==> description.None? || AllWhitespace(description.value)
    ensures ex.sent.None? ==> ex.reply == Reply(400, Error(DescriptionRequired))
    ensures ex.sent.Some? ==>
              ex.sent.value == Prompt(description.value)
              && ex.reply == Complete(upstream(ex.sent.value))
  {
    if IsMissing(description) then
      Exchange(None, Reply(400, Error(DescriptionRequired)))
    else
      var prompt := Prompt(description.value);
      Exchange(Some(prompt), Complete(upstream(prompt)))
  }

  /**
   * A reply of the relay has a 2xx status exactly when it carries a
   * solution, so a caller can tell the two apart by status alone.
   */
  lemma OkStatusIffSolution(description: Option<string>, upstream: string -> Upstream)
    requires forall p :: WellFormed(upstream(p))
    ensures var r := SuggestSolution(description, upstream).reply;
            IsOkStatus(r.status) <==> r.body.Solution?
  {
    var ex := SuggestSolution(description, upstream);
    if ex.sent.Some? {
      assert WellFormed(upstream(ex.sent.value));
    }
  }

  /** `GET /health`: always 200 with the fixed liveness message. */
  function Health(): (r: Reply)
    ensures r.status == 200 && r.body == Message(HealthMessage)
  {
    Reply(200, Message(HealthMessage))
  }
}
