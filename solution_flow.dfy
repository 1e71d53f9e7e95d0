/**
 * The "Ask AI" round trip: the bug list sends a record's description to
 * the relay, and the relay's reply decides what the record's solution
 * becomes.
 */
module SolutionFlow {
  import opened Wrappers
  import opened JsString
  import Relay
  import opened BugList

  /**
   * What the browser makes of a relay reply: `response.ok` holds for a
   * 2xx status, and the JSON body parses to an object whose `solution`
   * field is present only in a `{solution}` reply.
   */
  function Delivered(reply: Relay.Reply): (fetched: Fetched)
    ensures fetched.Received? && fetched.body.Json?
    ensures fetched.ok <==> Relay.IsOkStatus(reply.status)
    ensures fetched.body.solution.Some? <==> reply.body.Solution?
    ensures reply.body.Solution? ==> fetched.body.solution.value == reply.body.solution
  {
    Received(Relay.IsOkStatus(reply.status),
             Json(if reply.body.Solution? then Some(reply.body.solution) else None))
  }

  /**
   * The solution a record ends with after asking the relay about its
   * description: the trimmed first completion when the description is not
   * blank and the completion API answered with at least one choice, the
   * failure text in every other case. Either way it is set, and it is
   * the failure text or has no whitespace at its ends.
   */
  lemma AskAiOutcome(description: string, upstream: string -> Relay.Upstream)
    requires forall p :: Relay.WellFormed(upstream(p))
    ensures var s := Resolution(Delivered(Relay.SuggestSolution(Some(description), upstream).reply));
            && s.Some?
            && (s.value == Unavailable || IsTrimmed(s.value))
            && (AllWhitespace(description) ==> s == Some(Unavailable))
            && (!AllWhitespace(description) ==>
                  var outcome := upstream(Relay.Prompt(description));
                  if outcome.Completed? && |outcome.choices| > 0
                  then s == Some(Trim(outcome.choices[0]))
                  else s == Some(Unavailable))
  {
    Relay.OkStatusIffSolution(Some(description), upstream);
  }
}
