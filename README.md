# ChatNews-Exporter, modelled in Dafny

ChatNews-Exporter is a chat assistant for the news. A language model
answers what the user types. When the user asks for news, the model calls
the `news_total` tool, which searches NewsAPI's `/v2/everything` endpoint.
The articles from the last search and the assistant's last answer are kept
in two module-level variables. Two buttons export them as Markdown files,
and a third mails the last answer to addresses taken from an uploaded file
or pasted text.

This project models that core, all of it in `chatbot_NewsAPI.py`:

- `basics.dfy` (`Basics`): `Option` and `Result`.
- `text.dfy` (`Text`): the string operations the program relies on.
  That is `str.strip` with Python's whitespace set, `strip(",;")`, ASCII
  `lower`, `join`, slicing `[:n]`, and `int()` on strings. `ParseInt`
  accepts an optional sign and ASCII digits, with surrounding whitespace.
- `news_api.dfy` (`NewsApi`): how `news_total` turns tool arguments into
  query parameters. The values are JSON scalars. Defaults are applied and
  keys are renamed. `pageSize` is `min(int(page_size), 100)`, `page` is
  `int(page)`, and `None` values are dropped. It also covers the
  `TypeError` for an argument name `news_total` does not declare, the
  validation error for a call with no search filter, and the `int()`
  error for a page size or page that is not an integer.
- `recipients.dfy` (`Recipients`):
  - `EMAIL_REGEX` as a finite automaton, with Python's `$` that also
    matches before one final newline;
  - `re.split(r"[,\n;]+", ...)`;
  - `_normalize_emails`, both as a loop and as a function;
  - `_parse_emails` over an upload given as its name, its decoded text and
    the rows `csv` reads from it, and over the pasted text.
- `mailer.dfy` (`Mailer`):
  - the checks `_send_email_smtp` makes, in order: the port, the
    configuration, then the recipient list;
  - the message it builds and the status strings it returns;
  - the subject line `send_last_ai_output` takes from the last answer.
- `export.dfy` (`Export`): the documents `export_news` and
  `export_ai_response` write.
- `assistant.dfy` (`Assistant`):
  - `handle_tool_call` and `chat`, with the language model and the HTTP
    search as function parameters;
  - a `Session` class. Its fields `lastResult` and `lastAiResponse` are the
    two module-level variables. Its methods are the handlers that read and
    update them.

The model follows the code, including these behaviours a reader of the
tool schema and comments might not expect:

- The page size is only capped from above. A page size of 0 or less is
  sent as it is, and `page` is not checked at all.
- A `news_total` call with an argument name it does not declare raises a
  `TypeError` when `news_total(**arguments)` binds. The model returns
  `Err(UnexpectedArgument)`, which ends the turn like the next case.
- A `news_total` call without a search filter raises. That exception
  leaves `handle_tool_call` and `chat` and ends the turn. The exception
  is the `Err` of `HandleToolCall` and `Chat`. The stored articles keep
  the updates of the searches made before it, and the stored answer is
  left unchanged.
- A malformed `SMTP_PORT` raises from `int()` rather than being reported
  as a status. The model returns `Err(PortNotAnInteger)`.
- An answer that is only whitespace makes `splitlines()[0]` raise. The
  model returns `Err(NoSubjectLine)`.
- `SubjectShape` shows that the `"News Summary"` fallback is never used.
- A kept address may end in `"\n"`, because the regex's `$` lets it
  through. Cleaning such an address again drops that newline, so
  normalizing twice is idempotent only for lists without one.
  `TrailingNewlineKept` gives an input that shows this.

## Model

| member | source | states |
|---|---|---|
| NewsApi.UnknownArgumentsRejected | chatbot_NewsAPI.py:15-27 | the call raises the unexpected-argument error exactly when some argument name is not one of the eleven declared parameters |
| NewsApi.UnknownArgumentExample | chatbot_NewsAPI.py:297 | {"query": "x", "foo": 1} raises instead of searching |
| NewsApi.RejectsExactlyWithoutFilter | chatbot_NewsAPI.py:31-32 | parameter building fails with the no-filter error exactly when the names are all declared and none of query, title, sources, domains is truthy |
| NewsApi.IntegerConversionErrors | chatbot_NewsAPI.py:47-48 | with declared names and a filter present, building fails exactly when page_size or page is not an integer for `int()`, and a bad page_size is the error reported |
| NewsApi.ParamsShape | chatbot_NewsAPI.py:37-54 | the sent keys are the renamed API names; each optional argument is sent under its API name exactly when it is not None, with its value; pageSize is min(page_size, 100) and page is int(page) |
| NewsApi.PageSizeClamped | chatbot_NewsAPI.py:47 | the sent page size is at most 100, at least 1 when the requested one is, and equal to the request when it is at most 100 |
| NewsApi.DefaultsApplied | chatbot_NewsAPI.py:15-27 | omitted language, sort_by, page_size and page are sent as "en", "publishedAt", 5 and 1 |
| NewsApi.ElectionsQuery | chatbot_NewsAPI.py:15-54 | the call {"query": "elections"} sends exactly q, language, sortBy, pageSize and page |
| NewsApi.DropNulls | chatbot_NewsAPI.py:54 | the result keeps exactly the keys whose value is not None, with their values |
| Text.ParseIntOfIntToString | chatbot_NewsAPI.py:47-48 | `int()` reads back every integer written in decimal |
| Recipients.MatchesEmailRegexIff | chatbot_NewsAPI.py:131 | a string matches EMAIL_REGEX exactly when it, or it without one final newline, is a non-empty local part, one "@", and a domain with a "." that is neither first nor last, with no further "@" and no whitespace |
| Recipients.StrictMatchIsAddressShape | chatbot_NewsAPI.py:131 | the automaton accepts exactly the strings of that address shape |
| Recipients.StrictMatchHasNoSpace | chatbot_NewsAPI.py:131 | an accepted address holds no whitespace |
| Recipients.NoAtNoMatch | chatbot_NewsAPI.py:131 | a string without "@" never matches |
| Recipients.SplitRuns | chatbot_NewsAPI.py:163-173 | tokens free of ",", newline and ";", separated by any non-empty runs of those characters, split back into exactly the tokens when no inner token is empty, so each run is one split point |
| Recipients.SplitJoin | chatbot_NewsAPI.py:163-173 | the case of one delimiter between tokens: `sep.join(ts)` splits back into `ts` when no inner token is empty |
| Recipients.RunOfDelimitersExample | chatbot_NewsAPI.py:171 | "a,;\nb" splits into ["a", "b"] |
| Recipients.NormalizeSoundAndDistinct | chatbot_NewsAPI.py:133-139 | every kept address is non-empty after cleaning and matches the regex, and no two kept addresses are equal ignoring case |
| Recipients.NormalizeComplete | chatbot_NewsAPI.py:133-139 | every input whose cleaned form is admissible is represented, ignoring case, in the output |
| Recipients.NormalizeFirstOccurrences | chatbot_NewsAPI.py:133-139 | each kept address is the cleaned form of the first admissible input in its case class, and kept addresses appear in input order |
| Recipients.NormalizePrefix | chatbot_NewsAPI.py:133-139 | appending inputs only appends to the output |
| Recipients.NormalizeKeepsCleaned | chatbot_NewsAPI.py:133-139 | inputs that are already admissible, cleaned and case-distinct come back unchanged |
| Recipients.NormalizeIdempotent | chatbot_NewsAPI.py:133-139 | normalizing the output again changes nothing when no kept address ends in a newline |
| Recipients.TrailingNewlineKept | chatbot_NewsAPI.py:131-137 | "x@y.com\n;" is kept as "x@y.com\n" |
| Recipients.NormalizeEmails | chatbot_NewsAPI.py:133-139 | the loop with its output list and seen set computes the normalized list |
| Recipients.ParseEmails | chatbot_NewsAPI.py:141-175 | the collected candidates, file first and pasted text second, normalized |
| Recipients.ParseFile | chatbot_NewsAPI.py:144-167 | the candidates of an upload: the email column, the cell scan, or the split text for a failed read or a non-CSV name |
| Recipients.ColumnValues | chatbot_NewsAPI.py:153-155 | every data row's value in the email column, None where the row is short |
| Recipients.ScanCells | chatbot_NewsAPI.py:157-161 | every cell, in row order, whose stripped text matches the regex |
| Recipients.AppendDelimited | chatbot_NewsAPI.py:163-173 | appends the split tokens whose stripped text matches |
| Recipients.FileRecipientsFirst | chatbot_NewsAPI.py:141-175 | the recipients from the file alone are a prefix of those from file and pasted text |
| Recipients.EmailColumnOnly | chatbot_NewsAPI.py:151-155 | a CSV with an "email" header contributes only that column's values |
| Recipients.PastedExample | chatbot_NewsAPI.py:170-175 | "x@y.com;not-an-email;z@w.org" yields ["x@y.com", "z@w.org"] |
| Recipients.CaseDuplicateExample | chatbot_NewsAPI.py:170-175 | "a@b.com, A@B.com" yields ["a@b.com"] |
| Mailer.FromAddress | chatbot_NewsAPI.py:182 | the sender is present exactly when SMTP_FROM or SMTP_USER is |
| Mailer.PreChecksFirst | chatbot_NewsAPI.py:178-187 | a bad port raises; otherwise an incomplete configuration, then an empty recipient list, return their status; a message is built exactly when all three checks pass |
| Mailer.MessageContents | chatbot_NewsAPI.py:189-202 | the message carries the subject, the sender, the recipients joined by ", " and the body; the status is the recipient count exactly when the session succeeds, and the failure cause otherwise |
| Mailer.ToHeaderRoundTrip | chatbot_NewsAPI.py:193 | for case-distinct addresses that match in full and hold no ",", newline or ";", the To header parsed again as pasted text gives back the same list |
| Mailer.SubjectShape | chatbot_NewsAPI.py:210 | a subject exists exactly when the answer is not all whitespace; it is a non-empty prefix of the stripped answer, at most 120 characters and free of line breaks, and the whole stripped answer when that is one short line |
| Mailer.SendLastAiOutputChecks | chatbot_NewsAPI.py:205-211 | no answer gives the "No AI output yet" status; a blank answer raises; a built message has the answer as body and its subject line |
| Export.NewsExportExists | chatbot_NewsAPI.py:65-76 | a news export exists exactly when articles are stored, and its text starts with the heading |
| Export.SectionShape | chatbot_NewsAPI.py:77-90 | each section starts with the title line and ends with the rule; a truthy description adds its line before the rule, and any other description reads as a missing one |
| Export.SectionAt | chatbot_NewsAPI.py:76-90 | the document is the heading and then one section per article, in order, at computed offsets |
| Export.AiExportRecovers | chatbot_NewsAPI.py:103-121 | an AI export exists exactly when an answer is stored, and the answer is the text between the preamble and the final two newlines |
| Export.AiDocumentInjective | chatbot_NewsAPI.py:116-121 | different answers exported on the same date give different documents |
| Assistant.DispatchOnePerCall | chatbot_NewsAPI.py:288-309 | without an invalid search, one tool message per call, in order, with the call's id, arguments and payload |
| Assistant.LastNewsCall | chatbot_NewsAPI.py:296-298 | the position of the last news_total call, if any |
| Assistant.DispatchLastNewsWins | chatbot_NewsAPI.py:296-298 | the stored articles come from the last search call's response, or stay as they were without one |
| Assistant.FirstRejected | chatbot_NewsAPI.py:296-297 | the position of the first search call that raises |
| Assistant.DispatchStopsAtFirstError | chatbot_NewsAPI.py:292-297 | dispatch raises exactly when some search call is invalid; the first such call's error is raised, and the state is as after the calls before it |
| Assistant.RecentHistory | chatbot_NewsAPI.py:259-265 | the last min(n, 5) history entries |
| Assistant.FirstRequestShape | chatbot_NewsAPI.py:265-275 | the first request holds the system prompt, the recent history and the user's message, and offers the tools |
| Assistant.SecondRequestShape | chatbot_NewsAPI.py:277-282 | a second request is made exactly when the model asks for tools and no search raises; it extends the first with the tool-call message and one tool message per call, and offers no tools |
| Assistant.TurnAnswer | chatbot_NewsAPI.py:284-285 | a turn that ends normally stores and returns the same non-empty answer, the final content or "Done"; a turn that raises keeps the stored answer |
| Assistant.TurnKeepsArticles | chatbot_NewsAPI.py:277-298 | without a search call before the first invalid one, the stored articles do not change |
| Assistant.AnswerIsExportable | chatbot_NewsAPI.py:106-107 | after a normal turn the answer can be exported and the send handler is past its "No AI output yet" check |
| Assistant.Session.constructor | chatbot_NewsAPI.py:63 | a session starts with no articles and no answer |
| Assistant.Session.HandleToolCall | chatbot_NewsAPI.py:288-309 | the loop's tool messages or its exception, and the stored articles, are those of the dispatch function |
| Assistant.Session.Chat | chatbot_NewsAPI.py:261-285 | the answer, the requests and the new session fields are those of one chat turn |
| Assistant.Session.ExportNews | chatbot_NewsAPI.py:65-93 | the loop writes the news document of the stored articles |
| Assistant.Session.ExportAiResponse | chatbot_NewsAPI.py:103-123 | the AI export of the stored answer, from which the answer reads back |
| Assistant.Session.SendLastAiOutput | chatbot_NewsAPI.py:205-211 | recipients parsed from the upload and the pasted text, then the stored answer sent to them |

## Left out

- `lower()` is modelled on ASCII letters only. Unicode case mapping is not modelled.
- `int()` accepts ASCII digits with an optional sign and surrounding whitespace. Underscores, non-ASCII digits and floats are not modelled.
- Tool arguments arrive as a map from names to values, so the order of the JSON keys is lost. When there are several undeclared names, Python's `TypeError` message names the first one; `UnexpectedArgument` names none.
- JSON decoding of the tool arguments and JSON encoding of the tool message are left out. Arguments arrive decoded, and a tool message holds its arguments and result as values.
- The HTTP request, the API key header and the response decoding are left out. The search is a function from query parameters to a decoded response.
- The OpenAI client, the model name, the system prompt text and the tool schema are left out. The model is a function from a request to a reply.
- Exceptions raised by the model or the HTTP search are not modelled.
- A response whose `articles` key holds `null`, or whose `source` is not an object, is not modelled.
- The SMTP session is a function parameter: connecting, STARTTLS, login and sending. How `EmailMessage` validates headers is not modelled.
- Environment variables are read into a record of optional strings.
- `datetime.now()` is not modelled. The export date, and for the AI export the second reading of it, are parameters.
- `tempfile.mkstemp`, writing the file, and turning a write error into `None` are left out. An export is the file's prefix, suffix and text.
- The CSV tokenizer and UTF-8 decoding are left out. An upload supplies its name as given (`IsCsvName` lowers it), its decoded text, and the rows `csv` reads, with a flag for a read that raised.
- How Gradio hands over the upload (`getattr`/`read`) and the case where `items` is `None` are left out.
- `tool_calls` being `None` on a reply with finish reason `tool_calls` is not modelled.
- The Gradio interface, the CSS and the Jupyter display are not part of this model.
