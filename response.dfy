/**
 * What `handleRefactor` makes of the relay's answer (RefactorTool.jsx, the
 * `try`/`catch`). The asynchronous `fetch` and `response.json()` are given
 * as their result: a transport failure, or a status with a JSON body or a
 * body that did not parse.
 */
module Response {
  import opened Wrappers
  import opened Text
  import Extract
  import Prompt

  /** The part of the model's JSON envelope that the client reads; absent fields are None. */
  datatype Part = Part(text: Option<string>)
  datatype Content = Content(parts: Option<seq<Part>>)
  datatype Candidate = Candidate(content: Option<Content>)
  datatype Envelope = Envelope(candidates: Option<seq<Candidate>>)

  /** What `response.json()` gives: the parsed envelope, or the message of the parse error it throws. */
  datatype Body = Json(envelope: Envelope) | Unparseable(message: string)

  /** How the `fetch` of the relay resolves: rejected with an error message, or with a response. */
  datatype RelayOutcome = NetworkFailure(message: string) | Responded(status: nat, body: Body)

  /** The end of the `try` block: an output to display, or the message of the error caught. */
  datatype Resolution = Generated(output: string) | Failed(message: string)

  const StatusFailurePrefix: string := "API call failed with status: "
  const InvalidStructureMessage: string := "Invalid response structure from API."

  /** `response.ok`: a status in the range 200 to 299. */
  predicate IsOk(status: nat) {
    200 <= status <= 299
  }

  /** The guard before reading the text: non-empty candidates, a content, non-empty parts. */
  predicate HasExpectedShape(env: Envelope) {
    && env.candidates.Some? && |env.candidates.value| > 0
    && env.candidates.value[0].content.Some?
    && env.candidates.value[0].content.value.parts.Some?
    && |env.candidates.value[0].content.value.parts.value| > 0
  }

  /** `result.candidates[0].content.parts[0].text`, read once the guard holds. */
  function FirstPartText(env: Envelope): Option<string>
    requires HasExpectedShape(env)
  {
    env.candidates.value[0].content.value.parts.value[0].text
  }

  /** The TypeError thrown when the text is undefined: "explain" calls `trim` on it, the others `match`. */
  function MissingTextMessage(option: string): string {
    "Cannot read properties of undefined (reading '" + (if option == Prompt.ExplainOption then "trim" else "match") + "')"
  }

  /** The message thrown for a status that is not ok. */
  function StatusFailureMessage(status: nat): string {
    StatusFailurePrefix + DecimalString(status)
  }

  /** How the request ends, for the option captured when it was sent. */
  function Resolve(option: string, outcome: RelayOutcome): Resolution {
    match outcome
    case NetworkFailure(message) => Failed(message)
    case Responded(status, body) =>
      if !IsOk(status) then Failed(StatusFailureMessage(status))
      else match body
        case Unparseable(message) => Failed(message)
        case Json(env) =>
          if !HasExpectedShape(env) then Failed(InvalidStructureMessage)
          else match FirstPartText(env)
            case None => Failed(MissingTextMessage(option))
            case Some(rawText) => Generated(Extract.ExtractCode(option, rawText))
  }

  /**
   * A request succeeds exactly when the response is ok, its body parses, the
   * envelope has the expected shape and the first part has a text; the
   * output is then that text run through the extractor.
   */
  lemma ResolveSucceedsExactly(option: string, outcome: RelayOutcome)
    ensures Resolve(option, outcome).Generated? <==>
      && outcome.Responded? && IsOk(outcome.status) && outcome.body.Json?
      && HasExpectedShape(outcome.body.envelope) && FirstPartText(outcome.body.envelope).Some?
    ensures Resolve(option, outcome).Generated? ==>
      Resolve(option, outcome).output == Extract.ExtractCode(option, FirstPartText(outcome.body.envelope).value)
  {
  }

  /** A status that is not ok fails with a message that names the status, whatever the body. */
  lemma NonOkStatusFails(option: string, status: nat, body: Body)
    requires !IsOk(status)
    ensures var r := Resolve(option, Responded(status, body));
      && r.Failed?
      && r.message[..|StatusFailurePrefix|] == StatusFailurePrefix
      && DecimalValue(r.message[|StatusFailurePrefix|..]) == status
  {
    var m := StatusFailureMessage(status);
    assert m[|StatusFailurePrefix|..] == DecimalString(status);
    DecimalRoundTrip(status);
  }

  /** An ok response whose envelope lacks the candidates, the content or the parts fails with the fixed message. */
  lemma MissingFieldsFail(option: string, status: nat, env: Envelope)
    requires IsOk(status) && !HasExpectedShape(env)
    ensures Resolve(option, Responded(status, Json(env))) == Failed("Invalid response structure from API.")
  {
  }

  /** A transport failure is reported with its own message. */
  lemma NetworkFailureReported(option: string, message: string)
    ensures Resolve(option, NetworkFailure(message)) == Failed(message)
  {
  }

  /** An envelope with one candidate whose content has one part with the given text. */
  function SingleTextEnvelope(text: string): Envelope {
    Envelope(Some([Candidate(Some(Content(Some([Part(Some(text))]))))]))
  }

  /** The single-text envelope passes the shape check, and its first part's text is that text. */
  lemma SingleTextEnvelopeShape(text: string)
    ensures HasExpectedShape(SingleTextEnvelope(text)) && FirstPartText(SingleTextEnvelope(text)) == Some(text)
  {
  }

  /** An ok reply whose first part has a text is displayed as the extractor's output for that text. */
  lemma OkTextShown(option: string, status: nat, env: Envelope, text: string)
    requires IsOk(status) && HasExpectedShape(env) && FirstPartText(env) == Some(text)
    ensures Resolve(option, Responded(status, Json(env))) == Generated(Extract.ExtractCode(option, text))
  {
  }

  /** A refactor of `print(1)` answered with that line in a python block shows `print(1)`. */
  lemma RefactorPrintScenario(code: string, reply: string)
    requires code == "print(1)" && reply == "```python\nprint(1)\n```"
    ensures Resolve(Prompt.RefactorOption, Responded(200, Json(SingleTextEnvelope(reply)))) == Generated(code)
  {
    assert Extract.FenceFree(code) && IsTrimmed(code);
    assert reply == "```python\n" + code + "\n```";
    Extract.TemplateReplyRoundTrip(Prompt.RefactorOption, code);
    SingleTextEnvelopeShape(reply);
    OkTextShown(Prompt.RefactorOption, 200, SingleTextEnvelope(reply), reply);
  }

  /**
   * The relay answers a missing API key with status 500 and a body without
   * candidates; the status check comes first, so the message names the status.
   */
  lemma MissingApiKeyScenario(option: string)
    ensures Resolve(option, Responded(500, Json(Envelope(None)))) == Failed("API call failed with status: 500")
  {
    assert DecimalString(500) == "500";
  }
}
