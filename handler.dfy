/**
 * The `/api/generate-questions` route: build the prompt from the request body,
 * ask the model, clean and parse its reply, and answer either with the parsed
 * question set itself or with a fallback record that carries the raw reply.
 *
 * The model call is not modelled: it is the parameter `generate`, which maps
 * the prompt to what the call produced. `JSON.parse` is the parameter `parse`,
 * as in `SafeParse`.
 */
module Handler {
  import opened Wrappers
  import opened Json
  import opened JsString
  import opened SafeParse
  import opened Prompt

  const FallbackNote: string := "Không parse được JSON chuẩn, trả về raw."
  const ModelNotFoundError: string :=
    "404: Model không hợp lệ cho API v1. Dùng 'gemini-1.5-pro' hoặc 'gemini-2.5-flash'."
  const UnauthorizedError: string := "401: API key không hợp lệ hoặc chưa được phép gọi."
  const ServiceError: string := "Gemini service error"

  /** The JSON body of a response. */
  datatype ResponseBody =
    | Payload(value: Json)
    | Fallback(name: string, position: string, raw: string, note: string)
    | Error(error: string)

  datatype Response = Response(status: int, body: ResponseBody)

  /**
   * What the model call produced: the reply text (`None` when the result has no
   * response or no text, which `?? ""` turns into the empty string), or a thrown
   * error with its `status` property, if it has a numeric one.
   */
  datatype Upstream = Replied(text: Option<string>) | Failed(status: Option<int>)

  /** `payload && Array.isArray(payload?.questions)`: the check a payload must pass to be returned. */
  predicate HasQuestions(payload: Json)
    ensures HasQuestions(payload) <==>
              payload.Object? && IsArray(Lookup(payload.members, "questions"))
  {
    Truthy(payload) && IsArray(Get(payload, "questions"))
  }

  /**
   * The decision after parsing: the payload itself when it has a `questions`
   * array, and otherwise a fallback with the request's name and position, the
   * raw reply and the fixed note. Both answers have status 200; a payload that
   * gets through is always a JSON object.
   */
  function Respond(payload: Json, name: string, position: string, text: string): (r: Response)
    ensures r.status == 200 && !r.body.Error?
    ensures r.body.Payload? <==> HasQuestions(payload)
    ensures r.body.Payload? ==> r.body.value == payload && payload.Object?
    ensures r.body.Fallback? ==> r.body == Fallback(name, position, text, FallbackNote)
  {
    if !Truthy(payload) || !IsArray(Get(payload, "questions")) then
      Response(200, Fallback(name, position, text, FallbackNote))
    else
      Response(200, Payload(payload))
  }

  /**
   * The catch block: an error whose status is 404 (an unknown model) becomes a
   * 502, one whose status is 401 (a rejected key) stays 401, and anything else
   * becomes a 500. None of them is a success status.
   */
  function ErrorResponse(status: Option<int>): (r: Response)
    ensures r.body.Error? && r.status != 200 && r.status in {401, 500, 502}
    ensures r.status == 502 <==> status == Some(404)
    ensures r.status == 401 <==> status == Some(401)
    ensures r.status == 500 <==> status != Some(404) && status != Some(401)
    ensures status == Some(404) ==> r.body.error == ModelNotFoundError
    ensures status == Some(401) ==> r.body.error == UnauthorizedError
    ensures status != Some(404) && status != Some(401) ==> r.body.error == ServiceError
  {
    if status == Some(404) then Response(502, Error(ModelNotFoundError))
    else if status == Some(401) then Response(401, Error(UnauthorizedError))
    else Response(500, Error(ServiceError))
  }

  /** `req.body || {}` with its four fields defaulted to `""`. */
  function Defaults(body: Option<Candidate>): (c: Candidate)
    ensures c.name.Some? && c.position.Some? && c.experience.Some? && c.skills.Some?
    ensures body.Some? ==> c.name.value == body.value.name.GetOr("")
    ensures body.Some? ==> c.position.value == body.value.position.GetOr("")
    ensures body.Some? ==> c.experience.value == body.value.experience.GetOr("")
    ensures body.Some? ==> c.skills.value == body.value.skills.GetOr("")
    ensures body.None? ==> c == Candidate(Some(""), Some(""), Some(""), Some(""))
    ensures BuildPrompt(c) == BuildPrompt(body.GetOr(Candidate(None, None, None, None)))
  {
    var b := body.GetOr(Candidate(None, None, None, None));
    Candidate(Some(b.name.GetOr("")), Some(b.position.GetOr("")),
              Some(b.experience.GetOr("")), Some(b.skills.GetOr("")))
  }

  /** The prompt the handler sends for a request body. */
  function RequestPrompt(body: Option<Candidate>): (r: string)
    ensures Trimmed(r)
    ensures r == BuildPrompt(body.GetOr(Candidate(None, None, None, None)))
  {
    BuildPrompt(Defaults(body))
  }

  /** The text of `result?.response?.text?.() ?? ""`; a failed call has none. */
  function ReplyText(u: Upstream): (r: string)
    ensures r != "" ==> u == Replied(Some(r))
    ensures r == "" <==> u.Failed? || u.text.None? || u.text == Some("")
  {
    if u.Replied? then u.text.GetOr("") else ""
  }

  /**
   * What the handler answers once the model call is over: the error response
   * for a failed call, and otherwise the decision on the parsed reply. The
   * answer has status 200 exactly when the call succeeded. A payload answer is
   * exactly what `JSON.parse` made of the cleaned, non-empty reply; a fallback
   * answer carries the reply text unchanged.
   */
  function Answer(c: Candidate, outcome: Upstream, parse: string -> Option<Json>): (r: Response)
    requires c.name.Some? && c.position.Some?
    ensures r.status == 200 <==> outcome.Replied?
    ensures r.status != 200 ==> r == ErrorResponse(outcome.status)
    ensures outcome.Replied? ==>
              !r.body.Error? && (r.body.Payload? <==> HasQuestions(SafeParseJSON(ReplyText(outcome), parse)))
    ensures r.body.Payload? ==>
              var text := ReplyText(outcome);
              text != "" && parse(Clean(text)) == Some(r.body.value) && HasQuestions(r.body.value)
    ensures r.body.Fallback? ==>
              r.body == Fallback(c.name.value, c.position.value, ReplyText(outcome), FallbackNote)
  {
    match outcome
    case Failed(status) => ErrorResponse(status)
    case Replied(reply) =>
      var text := reply.GetOr("");
      Respond(SafeParseJSON(text, parse), c.name.value, c.position.value, text)
  }

  /**
   * The whole handler: the prompt built from the request goes to the model and
   * its outcome is answered. A fallback echoes the request's name and position,
   * defaulted to `""`, next to the raw reply.
   */
  function GenerateQuestions(body: Option<Candidate>, generate: string -> Upstream,
                             parse: string -> Option<Json>): (r: Response)
    ensures r.status == 200 <==> generate(RequestPrompt(body)).Replied?
    ensures r.body.Fallback? ==>
              && r.body.name == Defaults(body).name.value
              && r.body.position == Defaults(body).position.value
              && r.body.raw == ReplyText(generate(RequestPrompt(body)))
  {
    Answer(Defaults(body), generate(RequestPrompt(body)), parse)
  }

  // ----- What reaches the client -----

  /**
   * A reply that is empty, does not parse, or parses to `null` all end in the
   * same fallback: the client cannot tell these apart.
   */
  lemma UnusableReplyFallsBack(c: Candidate, text: string, parse: string -> Option<Json>)
    requires c.name.Some? && c.position.Some?
    requires text == "" || parse(Clean(text)).None? || parse(Clean(text)) == Some(Null)
    ensures Answer(c, Replied(Some(text)), parse) ==
              Response(200, Fallback(c.name.value, c.position.value, text, FallbackNote))
  {
  }

  /** A missing reply text is answered like an empty one: a fallback whose `raw` is `""`. */
  lemma MissingReplyFallsBack(c: Candidate, parse: string -> Option<Json>)
    requires c.name.Some? && c.position.Some?
    ensures Answer(c, Replied(None), parse) ==
              Response(200, Fallback(c.name.value, c.position.value, "", FallbackNote))
  {
    UnusableReplyFallsBack(c, "", parse);
  }

  /**
   * A top-level array is never returned, even an array of questions: only an
   * object can have a `questions` member.
   */
  lemma ArrayPayloadFallsBack(elements: seq<Json>, name: string, position: string, text: string)
    ensures Respond(Array(elements), name, position, text).body.Fallback?
  {
  }

  /**
   * A question set fenced as ```` ```json ```` ... ```` ``` ```` is returned
   * verbatim: it is exactly what `JSON.parse` makes of the document inside.
   */
  lemma FencedQuestionSetAccepted(c: Candidate, d: string, parse: string -> Option<Json>,
                                  members: seq<(string, Json)>, questions: seq<Json>)
    requires c.name.Some? && c.position.Some?
    requires Trimmed(d)
    requires parse(d) == Some(Object(members))
    requires Lookup(members, "questions") == Some(Array(questions))
    ensures Answer(c, Replied(Some("```json\n" + d + "\n```")), parse) == Response(200, Payload(Object(members)))
  {
    var text := "```json\n" + d + "\n```";
    CleanUnwrapsFencedDocument(d);
    assert text[0] == '`';
    QuestionSetAccepted(c, text, parse, members, questions);
  }

  /**
   * A reply whose cleaned text parses to an object with a `questions` array is
   * returned verbatim.
   */
  lemma QuestionSetAccepted(c: Candidate, text: string, parse: string -> Option<Json>,
                            members: seq<(string, Json)>, questions: seq<Json>)
    requires c.name.Some? && c.position.Some?
    requires text != "" && parse(Clean(text)) == Some(Object(members))
    requires Lookup(members, "questions") == Some(Array(questions))
    ensures Answer(c, Replied(Some(text)), parse) == Response(200, Payload(Object(members)))
  {
    var payload := SafeParseJSON(text, parse);
    assert payload == Object(members);
    assert HasQuestions(payload);
  }
}
