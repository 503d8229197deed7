/** The chat assistant: tool-call dispatch (`handle_tool_call`), one chat turn
    (`chat`), and the session state both keep, which the export and send
    buttons read. The language model and the news fetch are function
    parameters. */
module Assistant {
  import opened Basics
  import opened NewsApi
  import Recipients
  import Mailer
  import Export

  /** One tool call the model asks for, its arguments already decoded. */
  datatype ToolCall = ToolCall(id: string, name: string, arguments: Args)

  /** The `result` of a tool message: the search response, or the error
      dictionary of an unknown tool. */
  datatype ToolPayload = Fetched(response: NewsResponse) | UnknownTool(error: string)

  /** The entries of the message list sent to the model. */
  datatype ChatMessage =
    | SystemPrompt
    | Turn(role: string, content: string)
    | AssistantMessage(reply: Option<string>, toolCalls: seq<ToolCall>)
    | ToolResult(toolCallId: string, args: Args, result: ToolPayload)

  /** What the model returns: `finish_reason`, `message.content` and `message.tool_calls`. */
  datatype ModelReply = ModelReply(finishReason: string, content: Option<string>, toolCalls: seq<ToolCall>)

  /** One completion request: the messages and whether the tool schema is offered. */
  datatype ModelRequest = ModelRequest(messages: seq<ChatMessage>, offersTools: bool)

  /** The model, as seen by the program. */
  type Model = ModelRequest -> ModelReply

  /** The HTTP search: query parameters in, decoded response out. */
  type Fetcher = Params -> NewsResponse

  const NewsTool := "news_total"
  const ToolCallsReason := "tool_calls"
  const MaxHistory := 5
  const EmptyAnswer := "Done"

  // ---------------------------------------------------------------------
  // handle_tool_call
  // ---------------------------------------------------------------------

  /** `{"error": f"Unknown tool {name}"}`. */
  function UnknownToolError(name: string): string {
    "Unknown tool " + name
  }

  /** Where dispatch stands after some calls: the tool messages built, the
      stored articles, and the error `news_total` raised, if it did. */
  datatype Dispatched = Dispatched(messages: seq<ChatMessage>, lastResult: seq<Article>, error: Option<FetchError>)

  /** One iteration of the loop over `message_tool.tool_calls`. */
  function DispatchStep(st: Dispatched, tc: ToolCall, fetch: Fetcher): Dispatched
    requires st.error.None?
  {
    if tc.name == NewsTool then
      match BuildParams(tc.arguments)
      case Err(e) => st.(error := Some(e))
      case Ok(p) =>
        var resp := fetch(p);
        Dispatched(st.messages + [ToolResult(tc.id, tc.arguments, Fetched(resp))], ArticlesOf(resp), None)
    else
      st.(messages := st.messages + [ToolResult(tc.id, tc.arguments, UnknownTool(UnknownToolError(tc.name)))])
  }

  /** The loop over all calls, stopping at the first exception. */
  function Dispatch(calls: seq<ToolCall>, last: seq<Article>, fetch: Fetcher): Dispatched {
    if calls == [] then Dispatched([], last, None)
    else
      var st := Dispatch(calls[..|calls| - 1], last, fetch);
      if st.error.Some? then st else DispatchStep(st, calls[|calls| - 1], fetch)
  }

  /** A call `news_total` would raise on. */
  predicate Rejected(tc: ToolCall) {
    tc.name == NewsTool && BuildParams(tc.arguments).Err?
  }

  /** The payload a call that does not raise gets. */
  function PayloadOf(tc: ToolCall, fetch: Fetcher): ToolPayload
    requires !Rejected(tc)
  {
    if tc.name == NewsTool then Fetched(fetch(BuildParams(tc.arguments).value))
    else UnknownTool(UnknownToolError(tc.name))
  }

  /** Without an exception, dispatch answers every call with one tool message,
      in call order, carrying the call's id, its arguments and its payload. */
  lemma {:induction false} DispatchOnePerCall(calls: seq<ToolCall>, last: seq<Article>, fetch: Fetcher)
    requires forall k :: 0 <= k < |calls| ==> !Rejected(calls[k])
    ensures Dispatch(calls, last, fetch).error.None?
    ensures var msgs := Dispatch(calls, last, fetch).messages;
      && |msgs| == |calls|
      && forall k :: 0 <= k < |calls| ==>
           msgs[k] == ToolResult(calls[k].id, calls[k].arguments, PayloadOf(calls[k], fetch))
  {
    if calls != [] {
      var n := |calls| - 1;
      DispatchOnePerCall(calls[..n], last, fetch);
      var prev := Dispatch(calls[..n], last, fetch);
      assert Dispatch(calls, last, fetch).messages
          == prev.messages + [ToolResult(calls[n].id, calls[n].arguments, PayloadOf(calls[n], fetch))];
    }
  }

  /** Position of the last `news_total` call among `calls`, if any. */
  function LastNewsCall(calls: seq<ToolCall>): (r: Option<nat>)
    ensures r.Some? ==> r.value < |calls| && calls[r.value].name == NewsTool
    ensures r.Some? ==> forall k :: r.value < k < |calls| ==> calls[k].name != NewsTool
    ensures r.None? ==> forall k :: 0 <= k < |calls| ==> calls[k].name != NewsTool
  {
    if calls == [] then None
    else if calls[|calls| - 1].name == NewsTool then Some(|calls| - 1)
    else LastNewsCall(calls[..|calls| - 1])
  }

  /** Without an exception, the stored articles come from the last `news_total`
      call (the `articles` of its response, or `[]`), and stay as they were
      when no call is a search. */
  lemma {:induction false} DispatchLastNewsWins(calls: seq<ToolCall>, last: seq<Article>, fetch: Fetcher)
    requires forall k :: 0 <= k < |calls| ==> !Rejected(calls[k])
    ensures var r := Dispatch(calls, last, fetch).lastResult;
      match LastNewsCall(calls)
      case None => r == last
      case Some(j) =>
        BuildParams(calls[j].arguments).Ok? && r == ArticlesOf(fetch(BuildParams(calls[j].arguments).value))
  {
    if calls != [] {
      var n := |calls| - 1;
      DispatchLastNewsWins(calls[..n], last, fetch);
      DispatchOnePerCall(calls[..n], last, fetch);
    }
  }

  /** Position of the first call `news_total` raises on, or `|calls|`. */
  function FirstRejected(calls: seq<ToolCall>): (j: nat)
    ensures j <= |calls|
    ensures j < |calls| ==> Rejected(calls[j])
    ensures forall k :: 0 <= k < j ==> !Rejected(calls[k])
  {
    if calls == [] then 0
    else if Rejected(calls[0]) then 0
    else 1 + FirstRejected(calls[1..])
  }

  /** Dispatch raises exactly when some search call is invalid; it raises that
      call's error, and what happened before it (the stored articles
      included) stays as it was after the calls before it. */
  lemma {:induction false} DispatchStopsAtFirstError(calls: seq<ToolCall>, last: seq<Article>, fetch: Fetcher)
    ensures var j, d := FirstRejected(calls), Dispatch(calls, last, fetch);
      && (d.error.Some? <==> j < |calls|)
      && (j < |calls| ==>
            && d.error == Some(BuildParams(calls[j].arguments).error)
            && d.lastResult == Dispatch(calls[..j], last, fetch).lastResult
            && d.messages == Dispatch(calls[..j], last, fetch).messages)
  {
    if calls != [] {
      var n := |calls| - 1;
      var init := calls[..n];
      DispatchStopsAtFirstError(init, last, fetch);
      var j := FirstRejected(calls);
      var j' := FirstRejected(init);
      FirstRejectedPrefix(calls);
      if j' < n {
        assert j == j';
        assert calls[..j] == init[..j];
      } else {
        assert init[..n] == init;
        DispatchOnePerCall(init, last, fetch);
        if j == n {
          assert calls[..j] == init;
        } else {
          assert j == |calls|;
        }
      }
    }
  }

  lemma {:induction false} FirstRejectedPrefix(calls: seq<ToolCall>)
    requires calls != []
    ensures var n := |calls| - 1; var j, j' := FirstRejected(calls), FirstRejected(calls[..n]);
      (j' < n ==> j == j') && (j' == n ==> j == (if Rejected(calls[n]) then n else |calls|))
  {
    var n := |calls| - 1;
    if n == 0 {
      assert calls[..n] == [];
    } else if !Rejected(calls[0]) {
      var rest := calls[1..];
      assert calls[..n][0] == calls[0];
      assert calls[..n][1..] == rest[..n - 1];
      assert rest[n - 1] == calls[n];
      FirstRejectedPrefix(rest);
    }
  }

  // ---------------------------------------------------------------------
  // chat
  // ---------------------------------------------------------------------

  /** `history[-5:]`. */
  function RecentHistory(history: seq<ChatMessage>): (r: seq<ChatMessage>)
    ensures |r| == Min(|history|, MaxHistory)
    ensures r == history[|history| - |r|..]
  {
    if |history| <= MaxHistory then history else history[|history| - MaxHistory..]
  }

  /** The first request: system prompt, recent history, the user's message, tools offered. */
  function FirstRequest(prompt: string, history: seq<ChatMessage>): ModelRequest {
    ModelRequest([SystemPrompt] + RecentHistory(history) + [Turn("user", prompt)], true)
  }

  /** `response.choices[0].message.content or 'Done'`. */
  function AnswerOf(reply: ModelReply): string {
    match reply.content
    case Some(c) => if c != [] then c else EmptyAnswer
    case None => EmptyAnswer
  }

  /** The follow-up request: the first request's messages, the model's
      tool-call message and the tool messages, with no tools offered. */
  function SecondRequest(first: ModelRequest, reply: ModelReply, toolMessages: seq<ChatMessage>): ModelRequest {
    ModelRequest(first.messages + [AssistantMessage(reply.content, reply.toolCalls)] + toolMessages, false)
  }

  /** The result of one turn: the requests made, the answer or the exception
      that ended the turn, and the two session fields afterwards. */
  datatype TurnOutcome = TurnOutcome(
    requests: seq<ModelRequest>,
    answer: Result<string, FetchError>,
    lastResult: seq<Article>,
    lastAiResponse: string)

  /** `chat(user_prompt, history)` from the given session state. */
  function ChatTurn(prompt: string, history: seq<ChatMessage>, last: seq<Article>, lastAi: string,
                    model: Model, fetch: Fetcher): TurnOutcome
  {
    var first := FirstRequest(prompt, history);
    var reply := model(first);
    if reply.finishReason == ToolCallsReason then
      var d := Dispatch(reply.toolCalls, last, fetch);
      if d.error.Some? then TurnOutcome([first], Err(d.error.value), d.lastResult, lastAi)
      else
        var second := SecondRequest(first, reply, d.messages);
        var answer := AnswerOf(model(second));
        TurnOutcome([first, second], Ok(answer), d.lastResult, answer)
    else
      var answer := AnswerOf(reply);
      TurnOutcome([first], Ok(answer), last, answer)
  }

  /** The first request holds the system prompt, the last five history entries
      and the user's message, so `2 + min(|history|, 5)` messages, and offers the tools. */
  lemma FirstRequestShape(prompt: string, history: seq<ChatMessage>, last: seq<Article>, lastAi: string,
                          model: Model, fetch: Fetcher)
    ensures var o := ChatTurn(prompt, history, last, lastAi, model, fetch);
      && 1 <= |o.requests| <= 2
      && var m := o.requests[0].messages;
      && o.requests[0].offersTools
      && |m| == 2 + Min(|history|, MaxHistory)
      && m[0] == SystemPrompt && m[|m| - 1] == Turn("user", prompt)
      && m[1..|m| - 1] == history[|history| - Min(|history|, MaxHistory)..]
  {
    var m := FirstRequest(prompt, history).messages;
    var h := RecentHistory(history);
    assert m[1..|m| - 1] == h;
  }

  /** A second request is made exactly when the model asks for tools and no
      search call raises; it repeats the first request's messages, adds the
      model's tool-call message and one tool message per call, and offers no tools. */
  lemma SecondRequestShape(prompt: string, history: seq<ChatMessage>, last: seq<Article>, lastAi: string,
                           model: Model, fetch: Fetcher)
    ensures var o := ChatTurn(prompt, history, last, lastAi, model, fetch);
      var first := FirstRequest(prompt, history);
      var reply := model(first);
      && (|o.requests| == 2 <==>
            reply.finishReason == ToolCallsReason && FirstRejected(reply.toolCalls) == |reply.toolCalls|)
      && (|o.requests| == 2 ==> ToolRound(first, reply, o.requests[1]))
  {
    var first := FirstRequest(prompt, history);
    var reply := model(first);
    DispatchStopsAtFirstError(reply.toolCalls, last, fetch);
    if reply.finishReason == ToolCallsReason && FirstRejected(reply.toolCalls) == |reply.toolCalls| {
      DispatchOnePerCall(reply.toolCalls, last, fetch);
      var d := Dispatch(reply.toolCalls, last, fetch);
      SecondRequestIsToolRound(first, reply, d.messages);
    }
  }

  /** `second` follows `first` after the model asked for `reply.toolCalls`. */
  predicate ToolRound(first: ModelRequest, reply: ModelReply, second: ModelRequest) {
    var m, n := second.messages, |first.messages|;
    && !second.offersTools
    && |m| == n + 1 + |reply.toolCalls|
    && m[..n] == first.messages
    && m[n] == AssistantMessage(reply.content, reply.toolCalls)
    && forall k :: 0 <= k < |reply.toolCalls| ==>
         m[n + 1 + k].ToolResult? && m[n + 1 + k].toolCallId == reply.toolCalls[k].id
  }

  lemma SecondRequestIsToolRound(first: ModelRequest, reply: ModelReply, toolMessages: seq<ChatMessage>)
    requires |toolMessages| == |reply.toolCalls|
    requires forall k :: 0 <= k < |toolMessages| ==>
      toolMessages[k].ToolResult? && toolMessages[k].toolCallId == reply.toolCalls[k].id
    ensures ToolRound(first, reply, SecondRequest(first, reply, toolMessages))
  {
    var m := SecondRequest(first, reply, toolMessages).messages;
    var n := |first.messages|;
    assert forall k :: 0 <= k < |toolMessages| ==> m[n + 1 + k] == toolMessages[k];
  }

  /** A turn that ends normally stores and returns the same answer, which is
      never empty: the model's content when it has some, otherwise "Done". A
      turn that raises leaves the stored answer as it was. */
  lemma TurnAnswer(prompt: string, history: seq<ChatMessage>, last: seq<Article>, lastAi: string,
                   model: Model, fetch: Fetcher)
    ensures var o := ChatTurn(prompt, history, last, lastAi, model, fetch);
      && (o.answer.Ok? ==> o.lastAiResponse == o.answer.value && o.lastAiResponse != [])
      && (o.answer.Err? ==> o.lastAiResponse == lastAi)
      && (o.answer.Ok? ==>
            var finalReply := model(o.requests[|o.requests| - 1]);
            o.answer.value == (if finalReply.content.Some? && finalReply.content.value != []
                               then finalReply.content.value else EmptyAnswer))
  {
  }

  /** The stored articles change only through search calls the model makes. */
  lemma TurnKeepsArticles(prompt: string, history: seq<ChatMessage>, last: seq<Article>, lastAi: string,
                          model: Model, fetch: Fetcher)
    ensures var o := ChatTurn(prompt, history, last, lastAi, model, fetch);
      var reply := model(FirstRequest(prompt, history));
      (reply.finishReason != ToolCallsReason
       || LastNewsCall(reply.toolCalls[..FirstRejected(reply.toolCalls)]).None?) ==>
        o.lastResult == last
  {
    var reply := model(FirstRequest(prompt, history));
    if reply.finishReason == ToolCallsReason {
      var calls := reply.toolCalls;
      var j := FirstRejected(calls);
      DispatchStopsAtFirstError(calls, last, fetch);
      assert forall k :: 0 <= k < j ==> calls[..j][k] == calls[k];
      DispatchLastNewsWins(calls[..j], last, fetch);
      if j == |calls| {
        assert calls[..j] == calls;
      }
    }
  }

  // ---------------------------------------------------------------------
  // The session
  // ---------------------------------------------------------------------

  /** The two module-level variables the handlers share. */
  class Session {
    var lastResult: seq<Article>
    var lastAiResponse: string

    constructor ()
      ensures lastResult == [] && lastAiResponse == []
    {
      lastResult := [];
      lastAiResponse := [];
    }

    /** `handle_tool_call(message_tool)`: the tool messages, or the exception
        a search call raised; `last_result` keeps every search made before it. */
    method HandleToolCall(calls: seq<ToolCall>, fetch: Fetcher) returns (r: Result<seq<ChatMessage>, FetchError>)
      modifies this`lastResult
      ensures var d := Dispatch(calls, old(lastResult), fetch);
        && lastResult == d.lastResult
        && r == (if d.error.Some? then Err(d.error.value) else Ok(d.messages))
    {
      var response: seq<ChatMessage> := [];
      ghost var start := lastResult;
      var i := 0;
      while i < |calls|
        invariant 0 <= i <= |calls|
        invariant Dispatch(calls[..i], start, fetch) == Dispatched(response, lastResult, None)
        decreases |calls| - i
      {
        var tc := calls[i];
        assert calls[..i + 1][..i] == calls[..i];
        var payload: ToolPayload;
        if tc.name == NewsTool {
          var built := BuildParams(tc.arguments);
          if built.Err? {
            assert Dispatch(calls[..i + 1], start, fetch).error == Some(built.error);
            DispatchErrorSticks(calls, i + 1, start, fetch);
            assert calls[..|calls|] == calls;
            return Err(built.error);
          }
          var result := fetch(built.value);
          lastResult := ArticlesOf(result);
          payload := Fetched(result);
        } else {
          payload := UnknownTool(UnknownToolError(tc.name));
        }
        response := response + [ToolResult(tc.id, tc.arguments, payload)];
        i := i + 1;
      }
      assert calls[..|calls|] == calls;
      r := Ok(response);
    }

    /** `chat(user_prompt, history)`: the answer (or the exception that ended
        the turn) and the requests made to the model. */
    method Chat(prompt: string, history: seq<ChatMessage>, model: Model, fetch: Fetcher)
      returns (answer: Result<string, FetchError>, requests: seq<ModelRequest>)
      modifies this
      ensures var o := ChatTurn(prompt, history, old(lastResult), old(lastAiResponse), model, fetch);
        && answer == o.answer && requests == o.requests
        && lastResult == o.lastResult && lastAiResponse == o.lastAiResponse
    {
      var messages := [SystemPrompt];
      messages := messages + RecentHistory(history);
      messages := messages + [Turn("user", prompt)];
      var first := ModelRequest(messages, true);
      requests := [first];
      var reply := model(first);
      if reply.finishReason == ToolCallsReason {
        var toolMessages := HandleToolCall(reply.toolCalls, fetch);
        if toolMessages.Err? {
          return Err(toolMessages.error), requests;
        }
        messages := messages + [AssistantMessage(reply.content, reply.toolCalls)];
        messages := messages + toolMessages.value;
        var second := ModelRequest(messages, false);
        requests := requests + [second];
        reply := model(second);
      }
      lastAiResponse := AnswerOf(reply);
      answer := Ok(lastAiResponse);
    }

    /** `export_news()`: nothing without stored articles; otherwise the file
        with the heading and one section per article, written in order. */
    method ExportNews(today: string) returns (file: Option<Export.ExportFile>)
      ensures file == Export.NewsExport(lastResult, today)
    {
      if lastResult == [] {
        return None;
      }
      var articles := lastResult;
      var text := Export.NewsHeading;
      for i := 0 to |articles|
        invariant text == Export.NewsHeading + Export.Sections(articles[..i])
      {
        Export.SectionsSnoc(articles, i);
        text := text + Export.Section(articles[i]);
      }
      assert articles[..|articles|] == articles;
      file := Some(Export.ExportFile("News_" + today, ".md", text));
    }

    /** `export_ai_response()`: nothing without a stored answer. */
    method ExportAiResponse(fileDate: string, exportedOn: string) returns (file: Option<Export.ExportFile>)
      ensures file == Export.AiExport(lastAiResponse, fileDate, exportedOn)
      ensures file.Some? ==> file.value.content[|Export.AiPreamble(exportedOn)|..|file.value.content| - 2] == lastAiResponse
    {
      if lastAiResponse == [] {
        return None;
      }
      Export.AiExportRecovers(lastAiResponse, fileDate, exportedOn);
      file := Some(Export.ExportFile("AI_Response_" + fileDate + "_", ".md",
                                     Export.AiDocument(lastAiResponse, exportedOn)));
    }

    /** `send_last_ai_output(uploaded_file, manual_emails_text)`: the recipients
        are parsed first, then the stored answer is checked and sent. */
    method SendLastAiOutput(file: Option<Recipients.Upload>, pasted: Option<string>, env: Mailer.SmtpEnv,
                            transport: Mailer.Transport)
      returns (r: Result<Mailer.Delivery, Mailer.SendError>)
      ensures r == Mailer.SendLastAiOutput(lastAiResponse, Recipients.ExtractRecipients(file, pasted), env, transport)
    {
      var emails := Recipients.ParseEmails(file, pasted);
      r := Mailer.SendLastAiOutput(lastAiResponse, emails, env, transport);
    }
  }

  /** Once dispatch has raised, later calls change nothing. */
  lemma {:induction false} DispatchErrorSticks(calls: seq<ToolCall>, i: nat, last: seq<Article>, fetch: Fetcher)
    requires i <= |calls| && Dispatch(calls[..i], last, fetch).error.Some?
    ensures Dispatch(calls, last, fetch) == Dispatch(calls[..i], last, fetch)
    decreases |calls| - i
  {
    if i < |calls| {
      assert calls[..i + 1][..i] == calls[..i];
      DispatchErrorSticks(calls, i + 1, last, fetch);
    } else {
      assert calls[..i] == calls;
    }
  }

  /** After a turn that ends normally, the answer can be exported and the send
      button gets past the "No AI output yet" check. */
  lemma AnswerIsExportable(prompt: string, history: seq<ChatMessage>, last: seq<Article>, lastAi: string,
                           model: Model, fetch: Fetcher, fileDate: string, exportedOn: string,
                           recipients: seq<string>, env: Mailer.SmtpEnv, transport: Mailer.Transport)
    ensures var o := ChatTurn(prompt, history, last, lastAi, model, fetch);
      o.answer.Ok? ==>
        && Export.AiExport(o.lastAiResponse, fileDate, exportedOn).Some?
        && Mailer.SendLastAiOutput(o.lastAiResponse, recipients, env, transport) != Ok(Mailer.Delivery(Mailer.NoAiOutput, None))
  {
    TurnAnswer(prompt, history, last, lastAi, model, fetch);
    var o := ChatTurn(prompt, history, last, lastAi, model, fetch);
    if o.answer.Ok? && Mailer.Subject(o.lastAiResponse).Ok? {
      Mailer.PreChecksFirst(Mailer.Subject(o.lastAiResponse).value, o.lastAiResponse, recipients, env, transport);
    }
  }
}
