# AI Recruitment Helper: reply cleaning and the question-generation route

The service behind this model takes a candidate's name, position, experience
and skills, fills them into a fixed Vietnamese prompt, sends the prompt to a
generative model, and tries to read the model's free-text reply as a JSON
question set. This project models the logic of `server.js` that does this
work:

- `buildPrompt` (module `Prompt`): the template with its four fields, each
  defaulting to `""`, trimmed. The template text itself is kept character for
  character.
- `safeParseJSON` (module `SafeParse`): three anchored, non-global `replace`
  calls that take off a leading ```` ```json ```` (any letter case), then a
  leading ```` ``` ````, then a trailing ```` ``` ````. Then `trim`, then
  `JSON.parse`, where every thrown error becomes `null`. `String.prototype.trim`
  is modelled in module `JsString` with ECMAScript's whitespace set.
- The `/api/generate-questions` handler (module `Handler`): the request's fields
  with their defaults, the `?? ""` on the reply text, and the accept/fallback
  decision. A parsed payload is returned verbatim only when it is truthy and its
  `questions` member is an array. Otherwise the handler answers status 200 with
  `{name, position, raw, note}`. The catch block's status mapping is
  404 → 502, 401 → 401, anything else → 500.
- The JSON values `JSON.parse` produces, with JavaScript truthiness and the
  `payload?.questions` read (module `Json`).

Two outside calls become parameters. `JSON.parse` is a function
`parse: string -> Option<Json>`, where `None` means it threw. The model call is
a function `generate: string -> Upstream` from the prompt to the reply text or
to the error it threw.

`safeParseJSON` has one recovery step only, the fence stripping and `trim`;
there is no second strategy that searches the reply for an embedded object.
Its `null` does not separate a failed parse from a parsed `null`: it is
returned for an empty reply, for a reply that does not parse, and for the
reply `null` alike (`SafeParse.SafeParseJSON`), and the handler answers all
three with the same fallback (`Handler.UnusableReplyFallsBack`).

## Model

| member | source | states |
|---|---|---|
| `Json.Lookup` | server.js:79 | absent exactly when no member has the key; otherwise the value of the last member with that key, as `JSON.parse` keeps the last duplicate |
| `Json.Truthy` | server.js:100 | `!payload` holds exactly for `null`, `false`, `0` and `""`; every array and every object, even an empty one, is truthy |
| `Json.Get` | server.js:100 | `payload?.questions` is undefined on `null`, on primitives and on arrays; on an object it is exactly the `Lookup` of the key among its members, so the last duplicate wins, and a value found is one of its members |
| `Json.IsArray` | server.js:100 | `Array.isArray` is false for `undefined` and true exactly for array values, each of which is truthy |
| `JsString.IsWhitespace` | server.js:77 | space, tab, line feed and carriage return are trimmed; every character `trim` removes is a space, a control character or lies at U+00A0 or above, so no ASCII letter, digit, backtick, brace or quote is removed |
| `JsString.SkipLeading` | server.js:77 | the scan stops at the first character from its start that is not whitespace, having passed only whitespace, or at the end of the string |
| `JsString.SkipTrailing` | server.js:77 | the backward scan stops just after the last character, not before its lower bound, that is not whitespace, having passed only whitespace |
| `JsString.Trim` | server.js:77 | `trim` returns the contiguous middle slice of the input between all-whitespace ends, with no whitespace at either end |
| `JsString.TrimIsSlice` | server.js:77 | the result of `trim` is one contiguous piece of its input |
| `JsString.SuffixIsSlice` | server.js:74-75 | what a leading replacement leaves, a suffix, is a slice of its input |
| `JsString.PrefixIsSlice` | server.js:76 | what the trailing replacement leaves, a prefix, is a slice of its input |
| `JsString.SliceOfSliceIsSlice` | server.js:73-77 | a piece of a piece of a string is a piece of that string, so the chained replacements and `trim` stay a slice of the reply |
| `JsString.SkipLeadingAt` | server.js:77 | the forward scan stops at the first non-whitespace character and nowhere else |
| `JsString.SkipTrailingAt` | server.js:77 | the backward scan stops after the last non-whitespace character and nowhere else |
| `JsString.TrimAt` | server.js:77 | `trim` is determined by what it keeps: a slice with non-whitespace ends and only whitespace around it is exactly the result |
| `JsString.TrimPadded` | server.js:77 | `trim` of whitespace + m + whitespace is m whenever m has no whitespace at its ends |
| `JsString.TrimIdempotent` | server.js:77 | trimming twice is trimming once |
| `JsString.TrimKeepsPrefix` | server.js:77 | `trim` keeps a prefix whose first and last characters are not whitespace |
| `JsString.TrimBeforeWhitespace` | server.js:77 | whitespace after a string ending in a non-whitespace character is removed and nothing of the string's end is; a non-whitespace character at index k survives with it |
| `SafeParse.MatchesIgnoringCase` | server.js:74 | one letter of `/json/i` matches its lower-case and its upper-case ASCII form and nothing else; a match is always an ASCII letter |
| `SafeParse.StartsWithJsonFence` | server.js:74 | a match of `/^```json/i` begins with three backticks and is at least seven characters long; ```` ```json ```` and ```` ```JSON ```` both match |
| `SafeParse.StripJsonFence` | server.js:74 | `/^```json/i` leaves a suffix of the input that is either all of it or all but seven characters, and it is shorter exactly when the input starts with the fence and a `json` tag in any ASCII letter case |
| `SafeParse.StripOpeningFence` | server.js:75 | `/^```/i` leaves a suffix of the input that is either all of it or all but three characters, and it is shorter exactly when the input starts with three backticks |
| `SafeParse.StripClosingFence` | server.js:76 | `/```$/i` leaves a prefix of the input that is either all of it or all but three characters, and it is shorter exactly when the input ends with three backticks |
| `SafeParse.Unfence` | server.js:73-76 | the three replacements, applied in order, leave one contiguous slice of the input |
| `SafeParse.StripsAreSlices` | server.js:74-76 | each replacement removes only a prefix or a suffix, so the chain of the three ends in a slice of the input |
| `SafeParse.Clean` | server.js:73-77 | the cleaned string is a contiguous slice of the input with no whitespace at either end |
| `SafeParse.SafeParseJSON` | server.js:70-83 | `null` comes out exactly for the empty reply, for a reply whose cleaned text does not parse, and for one that parses to `null`; any other result is what `JSON.parse` made of the cleaned, non-empty reply; it never throws |
| `SafeParse.JsonTagIgnoresCase` | server.js:74 | the leading fence and its `json` tag are removed whatever the tag's letter case |
| `SafeParse.UpperCaseJsonTag` | server.js:74 | ```` ```JSON ```` is removed like ```` ```json ```` |
| `SafeParse.OpeningFenceOnlyAtStart` | server.js:74-75 | a string that does not start with three backticks passes both opening replacements unchanged |
| `SafeParse.JsonFenceStrippedOnce` | server.js:74-75 | each replacement fires once: of a doubled ```` ```json```json ```` the word `json` stays at the front |
| `SafeParse.UnfenceOtherTag` | server.js:74-76 | after a fence with a tag other than `json`, only the backticks go and the replacements leave the tag in front |
| `SafeParse.OtherTagSurvives` | server.js:73-77 | the cleaned string of a reply opening with a non-`json` tag starts with that tag |
| `SafeParse.PythonTagSurvives` | server.js:73-77 | a reply opening with ```` ```python ```` keeps `python` at the front of the cleaned string |
| `SafeParse.UnfenceTrailingWhitespace` | server.js:74-76 | a closing fence followed by whitespace is not removed by `/```$/` |
| `SafeParse.ClosingFenceBeforeWhitespaceKept` | server.js:73-77 | such a closing fence is still at the end of the cleaned string that is handed to `JSON.parse` |
| `SafeParse.CleanLeavesPlainText` | server.js:73-77 | a reply with no fence at either end and no surrounding whitespace is parsed exactly as it came |
| `SafeParse.UnfenceFencedDocument` | server.js:74-76 | ```` ```json\n ```` d ```` \n``` ```` loses both fences and keeps the two line breaks |
| `SafeParse.CleanUnwrapsFencedDocument` | server.js:73-77 | ```` ```json\n ```` d ```` \n``` ```` is cleaned back to d for any d without whitespace at its ends |
| `SafeParse.EmptyReplyIgnoresParser` | server.js:71 | the empty reply gives `null` whatever the parser would say: the parser is not consulted |
| `SafeParse.FencedDocumentParsesAsPlain` | server.js:70-83 | fencing a document as ```` ```json ```` … ```` ``` ```` does not change what `safeParseJSON` returns for it |
| `Prompt.BuildPrompt` | server.js:46-68 | the prompt has no whitespace at either end; it is the template body with the defaulted fields in place, the two line breaks around it trimmed away |
| `Prompt.TemplateTrimsToBody` | server.js:47-67 | trimming the template removes exactly its opening and closing line breaks, whatever the fields contain |
| `Prompt.PromptContainsFields` | server.js:46-67 | the prompt contains the name (right after the introduction) and the position twice each, without overlap, and the experience and the skills verbatim |
| `Prompt.NameInList` | server.js:50 | the name follows the introduction in the candidate list |
| `Prompt.NameInSample` | server.js:61 | the name stands again in the sample answer |
| `Prompt.PositionInList` | server.js:51 | the position stands in the candidate list |
| `Prompt.PositionInSample` | server.js:62 | the position stands again in the sample answer |
| `Prompt.ExperienceInList` | server.js:52 | the experience stands in the candidate list |
| `Prompt.SkillsInList` | server.js:53 | the skills stand in the candidate list |
| `Prompt.InCandidateList` | server.js:47-67 | anything that stands in the candidate list and requirements part of the template still stands at the same index in the whole text |
| `Prompt.OccursBetween` | server.js:50-62 | a field interpolated between two pieces of text stands right after the first piece |
| `Prompt.AbsentFieldsAreEmpty` | server.js:46 | an absent field gives the same prompt as the empty string |
| `Handler.Respond` | server.js:99-110 | status 200 always; the payload is returned unchanged iff it is truthy and its `questions` is an array, and such a payload is an object; otherwise the fallback carries name, position, the raw text and the fixed note |
| `Handler.HasQuestions` | server.js:100 | a payload passes the check exactly when it is an object whose (last) `questions` member is an array: truthiness adds nothing once `questions` is an array |
| `Handler.ErrorResponse` | server.js:111-120 | the catch block never answers with a success status: always an error body with status 401, 500 or 502; 404 alone maps to 502, 401 alone to 401, everything else to 500, each with its fixed message |
| `Handler.Defaults` | server.js:88-89 | a missing body or a missing field becomes `""`, a given field is kept, and defaulting in the handler before `buildPrompt` gives the same prompt as passing the request body straight to `buildPrompt` |
| `Handler.RequestPrompt` | server.js:88-89 | the prompt sent is `buildPrompt` of the request body as given (an absent body counting as `{}`), with no whitespace at either end |
| `Handler.ReplyText` | server.js:97 | the reply text is empty exactly when the call failed, gave no text, or gave the empty text; a non-empty text is exactly what the model returned |
| `Handler.Answer` | server.js:97-120 | status 200 iff the model call returned; a failed call gets the catch-block answer; a returned payload is the parse of the cleaned non-empty reply and has a `questions` array; a fallback's `raw` is the reply text (`""` when there is none); a returned reply is never answered with an error body, and it gets the payload exactly when the parsed reply passes the `questions` check |
| `Handler.GenerateQuestions` | server.js:86-121 | status 200 iff the model call on the built prompt returned; a fallback echoes the defaulted name and position and the raw reply |
| `Handler.UnusableReplyFallsBack` | server.js:97-108 | an empty reply, one that does not parse, and one that parses to `null` all get the same fallback |
| `Handler.MissingReplyFallsBack` | server.js:97-108 | a missing reply text is answered like the empty reply, with `raw` equal to `""` |
| `Handler.ArrayPayloadFallsBack` | server.js:100 | a top-level JSON array is never returned, even an array of questions |
| `Handler.FencedQuestionSetAccepted` | server.js:97-110 | a question set fenced as ```` ```json ```` … ```` ``` ```` is returned verbatim as what `JSON.parse` made of the inner document |
| `Handler.QuestionSetAccepted` | server.js:97-110 | a non-empty reply whose cleaned text parses to an object with a `questions` array is answered with status 200 and that object unchanged |

## Left out

- Express setup, middleware, static file serving and the `/` and `/health` routes (server.js:15-43): HTTP plumbing with no decision logic.
- Loading `.env`, reading `GOOGLE_API_KEY` and `process.exit` when it is missing (server.js:9, 22-27): process I/O.
- The Gemini SDK calls (server.js:91-97) are the parameter `generate`; the SDK and test-gemini.mjs are not part of this model.
- `JSON.parse` is the parameter `parse`; its grammar (RFC 8259) is not modelled, so no lemma says which texts parse.
- `console.error` logging in the catch block and `app.listen` (server.js:112, 124-127): output only.
- Request fields that are not strings (`null`, numbers, objects in the JSON body) are not modelled; a field is either a string or absent.
- An error's `status` that is not a number is modelled as absent, which gives the same 500 answer as the source.
- JavaScript strings are UTF-16 code units; the model's strings are sequences of Unicode scalar values, so lone surrogates are not represented.
- Handler.GenerateQuestions: its contract states the status and the fallback fields; what a payload answer holds is stated on `Handler.Answer`, which it applies to the model's outcome.
