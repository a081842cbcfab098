# Universal-IDE core, modelled in Dafny

Universal-IDE is a browser IDE for nineteen languages. Its front end is a
React app: code editor pages, register and login forms, and guarded routes.
It talks to two Flask services.

- The **generation service** (`Backend/Genai`) formats prompt templates and
  sends them to a language model. It "runs" code by asking the model for the
  program's output. It also generates and refactors code, and pulls the first
  fenced block out of the model's reply with `extract_code`.
- The **temp-file service** (`Backend/TempFile`) stores shared snippets in
  Redis with an expiry. A bearer-token gate guards uploads and deletions.
  Anyone holding the share id can fetch a file.

The model is pure and functional:

- The language model is a parameter `Model = string -> Reply`. Every endpoint
  returns its HTTP response together with the prompts it sent, so the
  dataflow between stages is stated and checked.
- Redis is a map from key to stored file and remaining TTL.
- JWT verification is an uninterpreted predicate on the token.
- Time and fresh identifiers are inputs.

Modules:

- `Wrappers`: `Option`, `Result`.
- `Text`: character classes, substring search, and Python's `split`,
  `split(sep, 1)` and `strip()`.
- `CodeFence`: `CODE_REGEX` and `extract_code`. A reference semantics of the
  regex match (leftmost start, greedy optional tag, lazy body) is proved to
  agree with a direct scan.
- `Prompts`: templates as literal pieces and `{name}` fields, Python's
  `str.format`, the analysis table and the five named templates.
- `Genai`: the model-calling helpers, the html/css/js stage pipeline and the
  six endpoints.
- `TempFile`: the gate, upload, retrieval and deletion.
- `Editor`: the pure logic of `CodeEditor.jsx`.
- `Forms`: `Register.jsx` and `Login.jsx`. The email regex is given both as a
  pattern predicate and as a scan, and the two are proved equivalent.
- `Routes`: `EditorRoutes.jsx`, and the agreement of its language table with
  the download table and the analysis prompt table.

## Model

| member | source | states |
|---|---|---|
| `Text.Split` | Backend/TempFile/app.py:43 | `s.split(" ")`: at least one piece, no piece holds the separator, the pieces joined by it give back `s`, and there is one piece exactly when the separator is absent |
| `Text.SplitJoin` | Backend/TempFile/app.py:43 | splitting the join of separator-free pieces gives back exactly those pieces |
| `Text.SplitOnce` | Backend/TempFile/app.py:155 | `s.split("-", 1)` unpacked into two: fails exactly when there is no separator; otherwise the head has no separator and head + sep + tail is `s` |
| `Text.Strip` | Backend/Genai/app.py:50 | `str.strip()`: the result is a contiguous slice of the input, only whitespace was removed around it, and it neither starts nor ends with whitespace |
| `Text.Utf16Length` | Frontend/src/Login.jsx:57 | JavaScript's `.length`: between one and two code units per character, exactly one each when no character lies outside the Basic Multilingual Plane, exactly two each when all do |
| `Text.Utf16LengthAppend` | Frontend/src/Register.jsx:88 | the length of a concatenation is the sum of the lengths, so astral characters count two wherever they stand |
| `CodeFence.ExtractCode` | Backend/Genai/app.py:93-96 | the extracted group never contains three backticks |
| `CodeFence.ExtractCodeIsSelectedMatch` | Backend/Genai/app.py:28 | a result is group 1 of the match the regex engine selects: leftmost opening fence, tag line taken whenever possible, first closing fence after it; `None` means the regex cannot match anywhere |
| `CodeFence.ExtractCodeNoneIff` | Backend/Genai/app.py:94-96 | the result is `None` exactly when the text has no two non-overlapping fences |
| `CodeFence.UntaggedKeepsNewline` | Backend/Genai/app.py:28 | with no tag, the newline after the opening fence is kept: "```\nx```" gives "\nx" |
| `CodeFence.TaggedDropsTag` | Backend/Genai/app.py:28 | a one-word tag line is dropped: "```py\nx```" gives "x" |
| `CodeFence.FourBackticksGiveNone` | Backend/Genai/app.py:28 | "" and "````" give `None` |
| `Prompts.Format` | Backend/Genai/app.py:82 | `str.format(**params)` raises KeyError exactly when some field is not among the arguments, and names such a field |
| `Prompts.BoundIff` | Backend/Genai/app.py:82 | the fields are all bound exactly when every field name of the template is a keyword argument |
| `Prompts.FieldsAppend` | Backend/Genai/app.py:82 | the fields and the literal text of two templates written one after the other are those of the first followed by those of the second |
| `Prompts.FormatAppend` | Backend/Genai/app.py:82 | formatting two templates one after the other gives the first's text followed by the second's |
| `Prompts.FormatNoFields` | Backend/Genai/app.py:82 | a template without fields formats to its literal text, whatever the arguments |
| `Prompts.FormatOneField` | Backend/Genai/app.py:82 | with a single bound field, the result is the text before it, the argument verbatim, and the text after it |
| `Prompts.LanguagesPromptsKeys` | Backend/Genai/prompts.py:1-476 | the analysis table has exactly the nineteen keys python … julia, pairwise distinct |
| `Prompts.AnalysisPromptInsertsCode` | Backend/Genai/prompts.py:5-7 | every analysis template has the single field `{code}` on its own fenced line, so formatting inserts the snippet there verbatim, once |
| `Prompts.HtmlPromptFields` | Backend/Genai/prompts.py:493 | `html_prompt` has the single field `{prompt}` |
| `Prompts.HtmlPromptFormat` | Backend/Genai/prompts.py:478-494 | formatting `html_prompt` with a prompt succeeds and puts the prompt after the project-description text |
| `Prompts.CssPromptFields` | Backend/Genai/prompts.py:504-507 | `css_prompt` has the single field `{html_content}`, inside an html fence |
| `Prompts.CssPromptFormat` | Backend/Genai/prompts.py:496-508 | formatting `css_prompt` succeeds and places the html between the html fence lines |
| `Prompts.JsPromptFields` | Backend/Genai/prompts.py:518-526 | `js_prompt` has exactly `{html_content}` and then `{css_content}` |
| `Prompts.JsPromptFormat` | Backend/Genai/prompts.py:510-527 | formatting `js_prompt` succeeds and places html and css in their own fences, in that order |
| `Prompts.GenerateCodePromptFields` | Backend/Genai/prompts.py:529-537 | `generate_code_prompt` names `{language}`, `{problem_description}`, `{language}`, `{language}`, in that order |
| `Prompts.GenerateCodePromptFieldCounts` | Backend/Genai/prompts.py:529-537 | it names `{language}` three times and `{problem_description}` once |
| `Prompts.GenerateCodePromptFormat` | Backend/Genai/prompts.py:529-537 | formatting it with a problem and a language succeeds, with the language in all three places |
| `Prompts.RefactorCodePromptFields` | Backend/Genai/prompts.py:539-551 | `refactor_code_prompt` names `{language}`, the fenced `{code}`, and `{language}` again |
| `Prompts.RefactorCodePromptFormat` | Backend/Genai/prompts.py:539-551 | formatting it with code and language succeeds, with the code verbatim inside the fence |
| `Prompts.SourceBraces` | Backend/Genai/prompts.py:478-551 | written out as source, a template holds one `{` and one `}` per field and no stray brace that `str.format` would reject |
| `Genai.GetGeneratedCode` | Backend/Genai/app.py:43-52 | sends the formatted generation prompt once; the reply is stripped, and a raised error gives "" |
| `Genai.GetOutput` | Backend/Genai/app.py:55-66 | an unsupported language gives exactly "Error: Language not supported." with no model call; otherwise the analysis prompt with the code is sent once, and the raw reply, or the processing-error text with the message, is returned |
| `Genai.RefactorCode` | Backend/Genai/app.py:69-77 | sends the formatted refactor prompt once; the reply is stripped, and a raised error gives "" |
| `Genai.Stage` | Backend/Genai/app.py:80-90 | a stage sends its formatted template once and returns the stripped reply or "Error: " and the message; a formatting KeyError sends nothing |
| `Genai.HtmlStage` | Backend/Genai/app.py:148 | the html stage sends `html_prompt` formatted with the user's prompt |
| `Genai.CssStage` | Backend/Genai/app.py:154-157 | the css stage sends `css_prompt` with the html stage's output |
| `Genai.JsStage` | Backend/Genai/app.py:163-169 | the js stage sends `js_prompt` with the html and css outputs, in that order |
| `Genai.Pipeline` | Backend/Genai/app.py:147-172 | html runs one stage, css two, js three; each later prompt embeds the earlier stages' outputs; the result is the last stage's output |
| `Genai.GenerateCodeApi` | Backend/Genai/app.py:104-112 | a missing `problem_description` or `language` gives 400 with the KeyError text; otherwise 200 with `extract_code` of the generated code |
| `Genai.GetOutputApi` | Backend/Genai/app.py:115-123 | a missing `code` or `language` gives 400; an unsupported language gives 200 with the unsupported-language text and no model call; a supported one gives 200 with `get_output`'s text and exactly its prompt |
| `Genai.RefactorCodeApi` | Backend/Genai/app.py:126-134 | a missing `code` or `language` gives 400; otherwise 200 with `extract_code` of the refactored code |
| `Genai.HtmlCssJsGenerate` | Backend/Genai/app.py:137-185 | 400 exactly when prompt or type is missing or empty, or the type is not html, css or js, with the matching message; every other request gets 200 under the type's key with the extracted output of the stage pipeline |
| `Genai.HtmlCssJsRefactor` | Backend/Genai/app.py:188-266 | a missing type gives 400; 200 exactly when html is given for html or css, or html and css are given for js; the pipeline then runs on the supplied html |
| `Genai.RefactorReadsThreeKeys` | Backend/Genai/app.py:188-266 | two refactor requests that agree on `html`, `css` and `type` get the same response and send the same prompts |
| `Genai.RefactorIgnoresJs` | Backend/Genai/app.py:194 | the `js` value of a refactor request, set or removed, never changes the response or the prompts |
| `Genai.RefactorCssIgnoresCss` | Backend/Genai/app.py:214-229 | for the html and css types the `css` value never changes the result either |
| `Genai.RefactorIsGenerationOfHtml` | Backend/Genai/app.py:200-253 | an admitted refactor request behaves exactly like a generate request whose prompt is the supplied html |
| `TempFile.BearerToken` | Backend/TempFile/app.py:40-43 | a token exists exactly when the Authorization header starts with "Bearer " (case-sensitive); it is the text after the prefix up to the next space |
| `TempFile.Authorize` | Backend/TempFile/app.py:36-56 | 403 exactly when there is no token or it is empty; 401 exactly when a non-empty token fails verification; otherwise the handler runs with that verified token |
| `TempFile.ShareId` | Backend/TempFile/app.py:120 | the share id is the language, one '-', then the file id, each recoverable by position |
| `TempFile.FileKey` | Backend/TempFile/app.py:115 | the key an upload is stored under is the Redis key of its share id |
| `TempFile.FileUrl` | Backend/TempFile/app.py:120 | the returned link is the base URL, "/file/" and the share id |
| `TempFile.LookupKey` | Backend/TempFile/app.py:155-159 | a share id without '-' is rejected; otherwise splitting and rebuilding gives "file:" + shareId + ":data" |
| `TempFile.ShareKeyRoundTrip` | Backend/TempFile/app.py:115 | the share id of an upload leads back to the key it was stored under, whatever the language |
| `TempFile.ShareIdSplitRoundTrip` | Backend/TempFile/app.py:155 | the split gives back language and file id when the language has no '-' |
| `TempFile.ShareIdSplitWithHyphen` | Backend/TempFile/app.py:194 | with a '-' in the language the split point moves into it ("objective-c-42" gives "objective" and "c-42") |
| `TempFile.UploadFile` | Backend/TempFile/app.py:74-128 | 400 and an unchanged store when a field is missing or falsy, or the expiry is not 10, 30, 60, 1440 or 10080; otherwise 200 with the link, and the store gains exactly the file under its key with TTL minutes×60 |
| `TempFile.UploadTtlBounds` | Backend/TempFile/app.py:88-117 | a stored upload lives between 600 s and a week, in whole minutes |
| `TempFile.UploadEndpoint` | Backend/TempFile/app.py:36-66 | a rejected token returns the gate's response and leaves the store alone; an admitted token runs the upload handler, whose response and store are the result |
| `TempFile.FileStatus` | Backend/TempFile/app.py:163-172 | TTL −2 gives 404, TTL −1 or 0 gives 410, any other TTL gives 200 with the stored data, or 404 "File not found" when there is none |
| `TempFile.GetFile` | Backend/TempFile/app.py:142-172 | redirects home unless X-File-ID is present and equals the share id; no '-' gives 400; otherwise the answer is the status of the looked-up key: 404 when it is not stored, 410 when its TTL is −1 or 0, 200 with its data exactly when it is stored with a live TTL |
| `TempFile.DeleteFile` | Backend/TempFile/app.py:193-211 | no '-' gives 500; a missing key gives 404 "File not found"; 200 "File deleted successfully" exactly when the key exists, which is then removed; every other key and value stays as it was |
| `TempFile.DeleteEndpoint` | Backend/TempFile/app.py:36-56 | a rejected token returns the gate's response and deletes nothing; an admitted token runs the delete handler, whose response and store are the result |
| `TempFile.UploadThenGet` | Backend/TempFile/app.py:114-120 | after a successful upload, fetching its share id returns 200 with exactly the uploaded title, code, language and expiry |
| `TempFile.UploadLinkServesFile` | Backend/TempFile/app.py:114-125 | the link a successful upload returns is the base URL, "/file/" and a share id whose key is the stored one, and fetching that id returns the uploaded file |
| `TempFile.DeleteThenGet` | Backend/TempFile/app.py:196-203 | after a successful delete, fetching the same id gives 404 "File not found" |
| `Editor.Download` | Frontend/src/CodeEditor.jsx:324-405 | a named language gets its table entry; any other language gets application/octet-stream and txt |
| `Editor.NamedLanguagesAreTyped` | Frontend/src/CodeEditor.jsx:325-400 | no named language falls back to the generic type or the txt extension |
| `Editor.DownloadName` | Frontend/src/CodeEditor.jsx:411 | the file name is always "file." followed by the language's extension |
| `Editor.EditorMode` | Frontend/src/CodeEditor.jsx:512 | mongodb is edited in javascript mode; every other language in its own |
| `Editor.DownloadFollowsMode` | Frontend/src/CodeEditor.jsx:365-368 | a language downloads with the same type as its editor mode |
| `Editor.Capitalize` | Frontend/src/CodeEditor.jsx:46-48 | same length; first character upper-cased, the rest unchanged |
| `Editor.CapitalizeIdempotent` | Frontend/src/CodeEditor.jsx:508 | capitalizing twice is capitalizing once |
| `Editor.DocumentTitle` | Frontend/src/CodeEditor.jsx:46-48 | the title is the capitalized language followed by " Editor - Online IDE" |
| `Editor.DeviceOf` | Frontend/src/CodeEditor.jsx:69-78 | width above 1024 is pc, 769–1024 is tablet, 768 or less is mobile |
| `Editor.FontSize` | Frontend/src/CodeEditor.jsx:40-44 | pc gets 16, tablet 14, mobile 12 |
| `Editor.FontSizeOfWidth` | Frontend/src/CodeEditor.jsx:69-78 | by window width: font 16 above 1024, 14 from 769 to 1024, 12 at 768 and below; folding exactly above 768 |
| `Editor.FontSizeMonotone` | Frontend/src/CodeEditor.jsx:69-78 | a wider window never gets a smaller font |
| `Editor.StripFromShorter` | Frontend/src/CodeEditor.jsx:493 | the display pass never adds characters: the result is no longer than the input, and its characters are drawn from it |
| `Editor.StripFencesUnchangedIff` | Frontend/src/CodeEditor.jsx:493 | the output is shown unchanged exactly when no fence is followed by a `[\w\s]` character |
| `Editor.LoneFenceKept` | Frontend/src/CodeEditor.jsx:493 | a fence followed by nothing is kept |
| `Editor.RunSwallowsFirstWord` | Frontend/src/CodeEditor.jsx:493 | the greedy run eats the tag, the newline and the first word of the code: "```py\nx()" shows as "()" |
| `Editor.StripFencesNotIdempotent` | Frontend/src/CodeEditor.jsx:493 | "````a``b" shows as "```b", which would show as "": the pass is not idempotent |
| `Editor.RunCode` | Frontend/src/CodeEditor.jsx:99-112 | no request exactly when the code is empty; otherwise one run request with the language and the code |
| `Editor.RunOutput` | Frontend/src/CodeEditor.jsx:114-125 | an ok reply shows its output, or "No output returned." when it is empty; an error reply shows "Error: " and the error; a failed fetch shows "Failed!! try again."; the pane is never blank |
| `Editor.GenerateCode` | Frontend/src/CodeEditor.jsx:162-198 | logged out goes to /login; an empty prompt does nothing; otherwise one request with the prompt and the language |
| `Editor.RefactorCode` | Frontend/src/CodeEditor.jsx:216-240 | logged out goes to /login; a logged-in user with empty code or an empty language gets nothing; otherwise one request with the language and the code |
| `Editor.ReplacedCode` | Frontend/src/CodeEditor.jsx:205 | the returned code replaces the editor's when non-empty, otherwise the fallback message does |
| `Editor.HandleCopy` | Frontend/src/CodeEditor.jsx:139-149 | a press while copying or with empty code is ignored; otherwise the label ends as "Copied!" or "Error!" according to the clipboard |
| `Editor.ClearAll` | Frontend/src/CodeEditor.jsx:134-137 | code and output become empty and nothing else changes |
| `Editor.ClearedEditorIsIdle` | Frontend/src/CodeEditor.jsx:100 | after clearing, run and copy do nothing and refactor only redirects a logged-out user; clearing again changes nothing |
| `Forms.EmailOkMatchesPattern` | Frontend/src/Register.jsx:52 | the email scan accepts exactly the strings the email regex matches |
| `Forms.EmailOkSound` | Frontend/src/Register.jsx:52 | whatever the scan accepts, the regex matches |
| `Forms.EmailOkComplete` | Frontend/src/Login.jsx:35 | whatever the regex matches (the same pattern on both pages), the scan accepts |
| `Forms.EmailHasOneAt` | Frontend/src/Register.jsx:71-74 | a matching email holds exactly one '@' |
| `Forms.ValidateRegister` | Frontend/src/Register.jsx:70-94 | the email check comes first, then the username pattern, then the password length in UTF-16 code units; the form is valid exactly when all three pass |
| `Forms.LengthMessageUnreachable` | Frontend/src/Register.jsx:83-86 | the "between 5 and 30 characters" message is never produced |
| `Forms.UpdateRegister` | Frontend/src/Register.jsx:58-68 | the named field takes the new value, the other fields keep theirs, and the error is cleared |
| `Forms.SubmitRegister` | Frontend/src/Register.jsx:96-117 | nothing is sent when validation fails, and the message is shown; otherwise the form is sent |
| `Forms.ValidateLogin` | Frontend/src/Login.jsx:51-63 | the email is checked before the password length in UTF-16 code units; the form is valid exactly when both pass |
| `Forms.AstralPasswordLongEnough` | Frontend/src/Login.jsx:57 | four emoji count as eight code units, so such a password is long enough |
| `Forms.UpdateLogin` | Frontend/src/Login.jsx:39-49 | the named field takes the new value, the other keeps its own, and the error is cleared |
| `Forms.SubmitLogin` | Frontend/src/Login.jsx:65-85 | nothing is sent when validation fails; otherwise the email and password are sent |
| `Forms.RegisteredFormsLogIn` | Frontend/src/Login.jsx:51-63 | every registration the register page accepts passes the login page's checks |
| `Forms.EmailRejectedAlike` | Frontend/src/Login.jsx:52-55 | both pages reject an email outside the pattern with "Invalid email format", whatever the other fields hold |
| `Routes.IsAuthenticated` | Frontend/src/EditorRoutes.jsx:57 | authenticated exactly when a token is stored and it is non-empty |
| `Routes.ProtectedRoute` | Frontend/src/EditorRoutes.jsx:65-67 | shows the page exactly when authenticated, otherwise redirects to /login |
| `Routes.RedirectedRoute` | Frontend/src/EditorRoutes.jsx:69-71 | shows the page exactly when not authenticated, otherwise redirects to / |
| `Routes.GuardsAreComplementary` | Frontend/src/EditorRoutes.jsx:57-71 | for any stored token exactly one of the two guards shows its page; an empty token counts as signed out |
| `Routes.RouteLanguagesAreAnalysisLanguages` | Frontend/src/EditorRoutes.jsx:73-188 | the editor routes list the analysis table's languages in the same order |
| `Routes.RoutePathsNameLanguages` | Frontend/src/EditorRoutes.jsx:75-184 | every route path is "/" followed by its language |
| `Routes.RouteLanguagesDistinct` | Frontend/src/EditorRoutes.jsx:76-184 | the route table has nineteen pairwise distinct languages |
| `Routes.RoutePathsDistinct` | Frontend/src/EditorRoutes.jsx:75-183 | no two editor routes share a path |
| `Routes.RouteLanguagesArePromptKeys` | Backend/Genai/prompts.py:1-476 | a language has an editor route exactly when it has an analysis prompt |
| `Routes.DownloadTableCoversRoutes` | Frontend/src/CodeEditor.jsx:324-400 | a language has an editor route exactly when the download table names it |
| `Routes.EditorLanguagesAreSupported` | Backend/Genai/app.py:57-60 | a run from any editor page reaches the model: the unsupported-language branch is never taken |
| `Routes.EditorLanguage` | Frontend/src/EditorRoutes.jsx:217-231 | a path finds a language exactly when some editor route has that path, and the language is that route's |
| `Routes.Resolve` | Frontend/src/EditorRoutes.jsx:190-235 | register and login sit behind the signed-out guard, accounts behind the signed-in guard; / is home and /htmlcssjs the web editor; only those three guarded paths ever redirect; the share editor gets a single segment that is no editor path; not found only for a path that is not a single segment |
| `Routes.LanguagePathsOpenEditors` | Frontend/src/EditorRoutes.jsx:212-231 | each language path opens that language's editor, signed in or not, never the share editor |
| `Routes.ShareIdsOpenShareEditor` | Frontend/src/EditorRoutes.jsx:212-215 | any other non-empty single segment opens the share editor with that id |

## Left out

- The language model and its wording. Gemini is an uninterpreted function from prompt to reply or raised error. The natural-language text of the prompts stands as brace-free placeholders; the fences and replacement fields around the holes are kept exactly.
- Non-string JSON values. Request bodies are maps from field name to string, so a non-JSON or non-object body, and numbers, lists or nulls in fields, are not modelled.
- The services' catch-all 500 handlers for errors other than the ones modelled, and the Redis connection, SSL, `ping` and `close`, with their 503 and Redis-error 500 responses.
- JWT decoding and HS256 signatures. A token's validity is an uninterpreted predicate. The decoded claims stored on the request are not used by any handler.
- Header names are matched exactly. Flask matches them case-insensitively.
- Time and identifiers. The formatted expiry timestamp, the UUID file id and the service's base URL are inputs. TTL countdown over real time is the stored TTL value.
- TempFile.UploadFile: `expiryTime` is an optional integer. The `int()` coercion of strings and floats, and the error it raises on non-numeric text, are not modelled.
- CodeFence.ExtractCode: the tag line uses ASCII `[A-Za-z0-9_]` for `\w`. Python's `\w` on text also matches non-ASCII letters and digits, so a non-ASCII one-word tag is kept in the result here, where Python would drop it.
- Editor.Capitalize: upper-cases ASCII letters only. JavaScript's `toUpperCase` also maps other scripts and may lengthen a character.
- Editor.StripFences has no contract of its own. Its properties are stated by the lemmas about it in the table.
- React rendering, Monaco, SweetAlert dialogs, the clipboard, the copy-label timeout, and the scrolling of the output pane.
- `sessionStorage` and `localStorage` effects: restoring and saving code and output, and storing the token and username after login. The stored token is an input to the route guards and the login state is a field of the editor state.
- The usage-counter requests (`getRunCodeCount` and the others). They report to a back end outside this model, and their failures never reach the page state.
- The server replies after register and login (navigation, reload, server error messages), and the `loading` and show-password flags.
- Routes.Resolve: paths are matched exactly. React Router also matches them case-insensitively and ignores a trailing slash.
- The page components behind the routes (accounts, navigation links, the html/css/js editor, the share editor, not-found). Those files are not part of this model.
- Frontend/src/App.jsx and Frontend/src/components/Footer.jsx: layout only, with no logic.
