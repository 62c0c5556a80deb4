# Python-Refactor: the RefactorTool component in Dafny

Python-Refactor is a single-page tool. A user pastes Python source and picks one of three actions: refactor, add comments or explain. The tool builds a prompt and sends it through a relay to a hosted language model. It then shows the text the model returns. When the action is not "explain", the tool first cuts the text down to the first fenced code block.

This project models `handleRefactor` in `app/components/RefactorTool.jsx`, together with the component state it updates. It has five modules:

- `Text` models JavaScript `String.prototype.trim` over the ECMAScript whitespace and line-terminator code points. It also models the decimal rendering of the HTTP status inside the error message.
- `Prompt` models the `switch` over `refactorOption` and its three template literals. The option is the component's string state. Every value other than `"add_comments"` and `"explain"` gets the refactor template.
- `Extract` models the regular expression ``/```(?:python\n)?([\s\S]*?)```/`` as an explicit search for the first fence, three backticks. The search skips an immediately following `python` and newline, then captures lazily up to the next fence. The module also models the fallback to the whole text when there is no match or the capture is empty, and the trimming.
- `Response` models the relay's answer as a value, standing for the asynchronous `fetch` and `response.json()`. The answer is a transport failure, or a status with a parsed envelope or a parse error. `Resolve` is what the `try`/`catch` makes of that answer: an output, or the message of the error caught.
- `Controller` models the component's state (`originalCode`, `refactoredCode`, `isLoading`, `error`, `refactorOption`) as a class. `handleRefactor` is split at its `await` into `BeginRefactor` and `CompleteRefactor`. The handler closes over the render that triggered it, so the option used to parse the reply is the one captured when the request was sent. The class invariant `Valid` has two parts:
  - While a request is in flight, the output and the error are cleared.
  - Whenever an error is shown, the output is the failure placeholder.

Three consequences of the code that are easy to miss:

- When the API key is missing, the relay answers with status 500 (`app/api/gemini/route.js:6-8`). The status check runs before the shape check, so the user sees "API call failed with status: 500", not the invalid-structure message (`Response.MissingApiKeyScenario`). The invalid-structure message appears for any body forwarded with status 200 that fails the shape check: an upstream error body, or an answer without candidates, content or parts (`Response.MissingFieldsFail`).
- The round trip depends on how the block is closed:
  - The templates ask for the code on its own lines, so a newline comes before the closing fence. Then any code without a fence comes back trimmed (`Extract.TemplateReplyRoundTrip`).
  - If the closing fence follows the body directly, a fence-free body is not enough. A body that ends in a backtick forms a fence with the first two backticks of the closing fence, and the lazy capture stops there (`Extract.TrailingBacktickCutsBody`). For this form the round trip (`Extract.FirstBlockExtracted`) needs the body, followed by two backticks, to contain no fence.
- An empty capture is not used: the code tests the captured group for truthiness, so the whole text is shown, trimmed.

## Model

| member | source | states |
|---|---|---|
| `Text.IsJsWhitespace` | app/components/RefactorTool.jsx:107-113 | the characters `trim` removes: the ECMAScript WhiteSpace and LineTerminator code points |
| `Text.TrimStart` | app/components/RefactorTool.jsx:107-113 | drops exactly the leading whitespace: what it drops is all whitespace, and what it keeps is a suffix of the input that does not start with whitespace |
| `Text.TrimEnd` | app/components/RefactorTool.jsx:107-113 | drops exactly the trailing whitespace: what it keeps is a prefix of the input that does not end with whitespace |
| `Text.Trim` | app/components/RefactorTool.jsx:107-113 | `trim` returns a string without surrounding whitespace and never a longer one |
| `Text.TrimOffset` | app/components/RefactorTool.jsx:107-113 | the trimmed text is a contiguous piece of the original |
| `Text.TrimCharacterized` | app/components/RefactorTool.jsx:107-113 | any whitespace around a trimmed core, and only that, is removed: `trim(lead + core + trail) == core` |
| `Text.TrimLeavesTrimmed` | app/components/RefactorTool.jsx:107-113 | a string without surrounding whitespace is unchanged by `trim` |
| `Text.TrimIdempotent` | app/components/RefactorTool.jsx:107-113 | trimming twice is trimming once |
| `Text.TrimIgnoresAppendedWhitespace` | app/components/RefactorTool.jsx:107-113 | whitespace appended to a text does not change what `trim` returns |
| `Text.TrimKeepsNonWhitespace` | app/components/RefactorTool.jsx:107-113 | no character other than whitespace is ever removed |
| `Text.DecimalString` | app/components/RefactorTool.jsx:89 | `${response.status}` is a non-empty string of decimal digits without a leading zero |
| `Text.DecimalRoundTrip` | app/components/RefactorTool.jsx:89 | the rendered status reads back as the status |
| `Prompt.TemplateFor` | app/components/RefactorTool.jsx:36-72 | the `switch` over the option: "add_comments" and "explain" pick their templates, every other value falls to `case 'refactor': default:` |
| `Prompt.BuildPrompt` | app/components/RefactorTool.jsx:39-70 | the chosen template literal with the source text substituted between "```python" plus a newline and a newline plus "```" |
| `Prompt.PromptEmbedsSourceVerbatim` | app/components/RefactorTool.jsx:36-72 | for every option the prompt holds the source text verbatim, immediately after a fence, `python` and a newline, and immediately before a newline and a fence |
| `Prompt.PromptSourceRoundTrip` | app/components/RefactorTool.jsx:36-72 | the source text can be read back out of the prompt for its option |
| `Prompt.PromptScaffoldFixed` | app/components/RefactorTool.jsx:36-72 | two prompts for one option differ only in the embedded source text |
| `Prompt.UnknownOptionRefactors` | app/components/RefactorTool.jsx:37-60 | every option other than "add_comments" and "explain", "refactor" included, gets the refactor prompt |
| `Prompt.PromptsDiffer` | app/components/RefactorTool.jsx:37-71 | the three options give three different prompts for the same source text |
| `Extract.BodyStart` | app/components/RefactorTool.jsx:105 | the group `(?:python\n)?`: the capture starts after the opening fence, and after `python` and a newline when they follow it |
| `Extract.FindFence` | app/components/RefactorTool.jsx:105 | finds the first fence at or after a position, or reports that there is none |
| `Extract.MatchCodeBlock` | app/components/RefactorTool.jsx:105 | a match opens at the first fence, its capture starts after the `python` tag when one follows and right after the fence otherwise, and it closes at the first fence at or after that start |
| `Extract.MatchNoneIffNoPair` | app/components/RefactorTool.jsx:105-111 | the regular expression fails exactly when no fence is followed by another |
| `Extract.MatchCodeBlockUnique` | app/components/RefactorTool.jsx:105 | the match is the only triple of positions that meets those conditions |
| `Extract.ExtractCode` | app/components/RefactorTool.jsx:104-114 | the output is always trimmed and never longer than the model's text |
| `Extract.ExplainIgnoresFences` | app/components/RefactorTool.jsx:104-113 | with "explain" the output is the model's text trimmed, fences included |
| `Extract.FirstBlockExtracted` | app/components/RefactorTool.jsx:105-107 | round trip: text before the block, a fence, an optional `python` tag, a non-empty body, a fence, then anything at all, gives the body trimmed; later blocks are ignored. This holds where neither the text before nor the body holds a fence, counting the closing fence's backticks, and where an untagged body does not itself begin with `python` and a newline |
| `Extract.ExtractFromMatch` | app/components/RefactorTool.jsx:106-107 | a non-empty capture is shown trimmed |
| `Extract.PythonBlockRoundTrip` | app/components/RefactorTool.jsx:105-107 | a reply that is a single python block around a non-empty body gives that body trimmed, where the body holds no fence, counting the closing fence's backticks |
| `Extract.TemplateReplyRoundTrip` | app/components/RefactorTool.jsx:105-107 | the reply the templates ask for (code on its own lines in a python block) is shown as that code trimmed, for any code without a fence, the empty code included |
| `Extract.TrailingBacktickCutsBody` | app/components/RefactorTool.jsx:105-107 | a body ending in a backtick loses that backtick: the lazy capture stops at the first fence |
| `Extract.OtherTagKept` | app/components/RefactorTool.jsx:105 | only the exact tag `python` plus newline is stripped: after `py` and a newline the tag stays in the output |
| `Extract.NoBlockFallsBack` | app/components/RefactorTool.jsx:105-111 | without an opening fence followed by a closing one, the output is the whole text trimmed |
| `Extract.EmptyCaptureFallsBack` | app/components/RefactorTool.jsx:106-111 | an empty capture counts as no match: the output is the whole text trimmed |
| `Extract.SixBackticksShownAsIs` | app/components/RefactorTool.jsx:106-111 | six backticks in a row are shown unchanged |
| `Extract.EmptyPythonBlockShownAsIs` | app/components/RefactorTool.jsx:106-111 | a python fence closed at once is shown unchanged |
| `Extract.FenceFreeFixedPoint` | app/components/RefactorTool.jsx:105-113 | a trimmed text without fences is its own output under every option |
| `Extract.CaptureFenceFree` | app/components/RefactorTool.jsx:105 | the captured body contains no fence |
| `Extract.ExtractIdempotent` | app/components/RefactorTool.jsx:104-114 | extracting again from any output changes nothing, for every text and option |
| `Response.StatusFailureMessage` | app/components/RefactorTool.jsx:89 | the message `API call failed with status: ${response.status}` |
| `Response.FirstPartText` | app/components/RefactorTool.jsx:99 | `result.candidates[0].content.parts[0].text`, read once the shape check has passed; absent when the part has no text |
| `Response.IsOk` | app/components/RefactorTool.jsx:88 | `response.ok`: the status lies in 200 to 299 |
| `Response.HasExpectedShape` | app/components/RefactorTool.jsx:95-97 | the guard before the text is read: non-empty candidates, a content in the first, non-empty parts in that |
| `Response.MissingTextMessage` | app/components/RefactorTool.jsx:99-113 | the TypeError message when the first part has no text: reading `match` (line 105) or, for "explain", `trim` (line 113) of undefined |
| `Response.Resolve` | app/components/RefactorTool.jsx:75-123 | the `try`/`catch`: a transport failure, a status that is not ok, an unparseable body, a failed shape check or a missing text each end in their message; otherwise the extractor's output |
| `Response.ResolveSucceedsExactly` | app/components/RefactorTool.jsx:82-118 | a request succeeds exactly when the status is ok, the body parses, the shape check passes and the first part has a text; the output is then the extractor's output for that text |
| `Response.NonOkStatusFails` | app/components/RefactorTool.jsx:88-90 | a status outside 200 to 299 fails with "API call failed with status: " followed by digits that read back as the status |
| `Response.MissingFieldsFail` | app/components/RefactorTool.jsx:95-118 | an ok answer without non-empty candidates, a content or non-empty parts fails with "Invalid response structure from API." |
| `Response.NetworkFailureReported` | app/components/RefactorTool.jsx:120-122 | a rejected relay call fails with its own message |
| `Response.OkTextShown` | app/components/RefactorTool.jsx:95-114 | an ok answer whose first part has a text shows the extractor's output for that text |
| `Response.RefactorPrintScenario` | app/components/RefactorTool.jsx:95-107 | refactoring `print(1)` with the reply "```python\nprint(1)\n```" shows `print(1)` |
| `Response.MissingApiKeyScenario` | app/api/gemini/route.js:6-8 | the relay's missing-key answer (status 500) is shown as "API call failed with status: 500" |
| `Controller.RefactorTool.constructor` | app/components/RefactorTool.jsx:18-22 | the initial state: the example code, an empty output, not loading, no error, option "refactor" |
| `Controller.RefactorTool.CanGenerate` | app/components/RefactorTool.jsx:237 | Generate is enabled exactly when not loading and the source text is non-empty |
| `Controller.RefactorTool.SetOriginalCode` | app/components/RefactorTool.jsx:149 | an edit or a loaded file replaces the source text and nothing else |
| `Controller.RefactorTool.SetRefactorOption` | app/components/RefactorTool.jsx:216-228 | selecting an option changes only the option |
| `Controller.RefactorTool.BeginRefactor` | app/components/RefactorTool.jsx:29-72 | entering generation sets loading, clears the error and the output, and builds the prompt from the current option and source text |
| `Controller.RefactorTool.CompleteRefactor` | app/components/RefactorTool.jsx:75-126 | on success the output is set and the error stays cleared; on any failure the error is the message and the output the placeholder; loading always ends; the invariant is kept |
| `Controller.RefactorTool.HandleRefactor` | app/components/RefactorTool.jsx:28-127 | the whole handler: the prompt sent, and the final state given by how the relay call resolved |
| `Controller.RefactorTool.PressGenerate` | app/components/RefactorTool.jsx:235-237 | a disabled Generate sends nothing and changes nothing; an enabled one runs the handler |
| `Controller.EmptySourceSendsNothing` | app/components/RefactorTool.jsx:237 | with an empty source text no request is sent |
| `Controller.NetworkFailureScenario` | app/components/RefactorTool.jsx:120-126 | a transport failure ends loading and shows its message and the placeholder |

## Left out

- The relay in `app/api/gemini/route.js` is not modelled beyond its missing-key answer. It reads the process environment, calls the external API and forwards the JSON unchanged.
- `fetch` and `response.json()` (RefactorTool.jsx:82-92) are represented by their outcome, the input `Response.RelayOutcome`. JSON values of other kinds are not modelled: a `candidates` or `parts` that is not an array, a `null` candidate, or a `text` that is not a string. A JSON `null` body (read at line 95) or a `null` first part (read at line 99) is not modelled either: the TypeError it raises inside the `try` would end as a failure with the engine's message, like `Response.MissingTextMessage`.
- `Response.MissingTextMessage` is V8's wording of the TypeError thrown when `parts[0].text` is undefined. Other engines word it differently.
- `Text.IsJsWhitespace` is the ECMAScript WhiteSpace and LineTerminator set, with the space separators as listed in it. JavaScript strings are UTF-16 code units; the model uses Unicode scalar values, so lone surrogates are not modelled.
- React's state batching and re-rendering are not modelled. The setters take effect in order, and an edit made while a request is in flight is a call to `SetOriginalCode` or `SetRefactorOption` between `BeginRefactor` and `CompleteRefactor`.
- The SVG icons, the syntax highlighter, the spinner and the error banner are not modelled; they only display state.
- Copying to the clipboard (line 179) and saving to `refactored.py` (lines 196-202) are browser APIs that only read `refactoredCode`.
- File loading through `FileReader` (lines 157-164) is not modelled; it ends in `setOriginalCode`, which is `SetOriginalCode`.
- `console.log` and `console.error`, and the unused `chatHistory` (lines 78-79), are not modelled.
