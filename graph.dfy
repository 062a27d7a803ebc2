/**
 * Reviewing one file with a tool-calling model, and collecting the per-file
 * results of a pull request.
 *
 * The model, the tools and `json.loads` are inputs: `replies[i]` is what the
 * model answers on its `i`-th invocation, `tools` maps a tool name to what
 * invoking it does, and `decode` is what `json.loads` makes of a text.
 */
module Graph {
  import opened Wrappers
  import opened Text
  import opened Entities

  /** At most this many model invocations per file. */
  const MaxToolIterations: nat := 5

  // ---------------------------------------------------------------------------
  // Conversation
  // ---------------------------------------------------------------------------

  type ToolArgs = map<string, string>

  datatype ToolCall = ToolCall(name: string, args: ToolArgs, id: string)

  /** What invoking a tool does: it returns a text, or raises. */
  datatype ToolOutcome = Returned(text: string) | Raised(error: string)

  /** A model response: an assistant message (with the tool calls it asks
      for), or a response of any other kind. */
  datatype Reply = AiReply(content: string, toolCalls: seq<ToolCall>) | OtherReply

  datatype Message =
    | SystemMsg(content: string)
    | HumanMsg(content: string)
    | AssistantMsg(reply: Reply)
    | ToolMsg(content: string, toolCallId: string)

  predicate WantsTools(r: Reply) {
    r.AiReply? && |r.toolCalls| > 0
  }

  /** The text a tool call is answered with: the tool's result, its error
      after `Error: `, or `Unknown tool: ` and the name. */
  function ToolResult(tools: map<string, ToolArgs -> ToolOutcome>, call: ToolCall): string {
    if call.name in tools then
      match tools[call.name](call.args)
      case Returned(text) => text
      case Raised(e) => "Error: " + e
    else "Unknown tool: " + call.name
  }

  /** A call to a tool that is not in the map, or to one that raises, is
      answered with a text rather than stopping the loop. */
  lemma ToolFailuresBecomeText(tools: map<string, ToolArgs -> ToolOutcome>, call: ToolCall)
    ensures call.name !in tools ==> ToolResult(tools, call) == "Unknown tool: " + call.name
    ensures call.name in tools && tools[call.name](call.args).Raised? ==>
      ToolResult(tools, call) == "Error: " + tools[call.name](call.args).error
    ensures call.name in tools && tools[call.name](call.args).Returned? ==>
      ToolResult(tools, call) == tools[call.name](call.args).text
  {
  }

  /** One tool message per call, in call order, each carrying its call's id. */
  function ToolMessages(tools: map<string, ToolArgs -> ToolOutcome>, calls: seq<ToolCall>): (r: seq<Message>)
    ensures |r| == |calls|
    ensures forall k | 0 <= k < |calls| :: r[k] == ToolMsg(ToolResult(tools, calls[k]), calls[k].id)
  {
    if calls == [] then []
    else
      var last := calls[|calls| - 1];
      ToolMessages(tools, calls[..|calls| - 1]) + [ToolMsg(ToolResult(tools, last), last.id)]
  }

  /** What one invocation adds to the conversation: the response, then the
      answers to its tool calls. */
  function Turn(tools: map<string, ToolArgs -> ToolOutcome>, r: Reply): seq<Message> {
    [AssistantMsg(r)] + if WantsTools(r) then ToolMessages(tools, r.toolCalls) else []
  }

  /** The conversation after the model has given the responses `turns`. */
  function Transcript(systemPrompt: string, prompt: string, tools: map<string, ToolArgs -> ToolOutcome>,
                      turns: seq<Reply>): seq<Message>
  {
    if turns == [] then [SystemMsg(systemPrompt), HumanMsg(prompt)]
    else Transcript(systemPrompt, prompt, tools, turns[..|turns| - 1]) + Turn(tools, turns[|turns| - 1])
  }

  /** How many invocations remain to be made from the `j`-th on. */
  function CallsFrom(replies: seq<Reply>, j: nat): (n: nat)
    requires j < |replies|
    ensures j < n <= |replies|
    decreases |replies| - j
  {
    if !WantsTools(replies[j]) || j == |replies| - 1 then j + 1 else CallsFrom(replies, j + 1)
  }

  /** From the `j`-th invocation on, every response asks for tools up to the
      last one, which does not unless it is the last reply there is. */
  lemma {:induction false} CallsFromStopsAtFinal(replies: seq<Reply>, j: nat)
    requires j < |replies|
    ensures forall k | j <= k < CallsFrom(replies, j) - 1 :: WantsTools(replies[k])
    ensures CallsFrom(replies, j) < |replies| ==> !WantsTools(replies[CallsFrom(replies, j) - 1])
    decreases |replies| - j
  {
    if WantsTools(replies[j]) && j < |replies| - 1 {
      CallsFromStopsAtFinal(replies, j + 1);
    }
  }

  /** How many times the model is invoked: up to and including its first
      response without tool calls, and never more than the cap. */
  function CallsMade(replies: seq<Reply>): (n: nat)
    requires |replies| == MaxToolIterations
    ensures 1 <= n <= MaxToolIterations
    ensures forall k | 0 <= k < n - 1 :: WantsTools(replies[k])
    ensures n < MaxToolIterations ==> !WantsTools(replies[n - 1])
  {
    CallsFromStopsAtFinal(replies, 0);
    CallsFrom(replies, 0)
  }

  /** A model that asks for tools on every invocation is invoked exactly
      `MaxToolIterations` times, and the last of its responses is used. */
  lemma CapReachedWhenToolsNeverStop(replies: seq<Reply>)
    requires |replies| == MaxToolIterations
    requires forall k | 0 <= k < |replies| :: WantsTools(replies[k])
    ensures CallsMade(replies) == MaxToolIterations
  {
  }

  /** The model is invoked once more after each response asking for tools
      and stops at the first that does not: the count is the first final
      response's position, or the cap. */
  lemma CallsMadeIsFirstFinal(replies: seq<Reply>, n: nat)
    requires |replies| == MaxToolIterations && 1 <= n <= MaxToolIterations
    requires forall k | 0 <= k < n - 1 :: WantsTools(replies[k])
    requires n < MaxToolIterations ==> !WantsTools(replies[n - 1])
    ensures CallsMade(replies) == n
  {
  }

  /** Every response that asks for tools is followed at once by one answer
      per call, in call order, with that call's id. */
  predicate CallsAnswered(tools: map<string, ToolArgs -> ToolOutcome>, msgs: seq<Message>) {
    forall i | 0 <= i < |msgs| && msgs[i].AssistantMsg? && WantsTools(msgs[i].reply) ::
      && i + |msgs[i].reply.toolCalls| < |msgs|
      && msgs[i + 1..i + 1 + |msgs[i].reply.toolCalls|] == ToolMessages(tools, msgs[i].reply.toolCalls)
  }

  /** The conversation the loop builds answers every tool call, at every
      point, so it is always a valid input for the next invocation. */
  lemma {:induction false} TranscriptAnswersCalls(systemPrompt: string, prompt: string,
                                                  tools: map<string, ToolArgs -> ToolOutcome>, turns: seq<Reply>)
    ensures CallsAnswered(tools, Transcript(systemPrompt, prompt, tools, turns))
  {
    if turns != [] {
      var init := turns[..|turns| - 1];
      TranscriptAnswersCalls(systemPrompt, prompt, tools, init);
      TurnKeepsCallsAnswered(tools, Transcript(systemPrompt, prompt, tools, init), turns[|turns| - 1]);
    }
  }

  lemma TurnKeepsCallsAnswered(tools: map<string, ToolArgs -> ToolOutcome>, before: seq<Message>, r: Reply)
    requires CallsAnswered(tools, before)
    ensures CallsAnswered(tools, before + Turn(tools, r))
  {
    var turn := Turn(tools, r);
    var msgs := before + turn;
    forall i | 0 <= i < |msgs| && msgs[i].AssistantMsg? && WantsTools(msgs[i].reply)
      ensures i + |msgs[i].reply.toolCalls| < |msgs|
      ensures msgs[i + 1..i + 1 + |msgs[i].reply.toolCalls|] == ToolMessages(tools, msgs[i].reply.toolCalls)
    {
      if i < |before| {
        assert msgs[i] == before[i];
        OldCallStaysAnswered(tools, before, turn, i);
      } else {
        NewCallAnswered(tools, before, r, i);
      }
    }
  }

  lemma OldCallStaysAnswered(tools: map<string, ToolArgs -> ToolOutcome>, before: seq<Message>, turn: seq<Message>, i: nat)
    requires CallsAnswered(tools, before)
    requires i < |before| && before[i].AssistantMsg? && WantsTools(before[i].reply)
    ensures i + |before[i].reply.toolCalls| < |before + turn|
    ensures (before + turn)[i + 1..i + 1 + |before[i].reply.toolCalls|] == ToolMessages(tools, before[i].reply.toolCalls)
  {
    var m := |before[i].reply.toolCalls|;
    assert (before + turn)[i + 1..i + 1 + m] == before[i + 1..i + 1 + m];
  }

  lemma NewCallAnswered(tools: map<string, ToolArgs -> ToolOutcome>, before: seq<Message>, r: Reply, i: nat)
    requires |before| <= i < |before + Turn(tools, r)|
    requires (before + Turn(tools, r))[i].AssistantMsg?
    requires WantsTools((before + Turn(tools, r))[i].reply)
    ensures i == |before| && (before + Turn(tools, r))[i].reply == r
    ensures i + |r.toolCalls| < |before + Turn(tools, r)|
    ensures (before + Turn(tools, r))[i + 1..i + 1 + |r.toolCalls|] == ToolMessages(tools, r.toolCalls)
  {
    var turn := Turn(tools, r);
    assert (before + turn)[i] == turn[i - |before|];
    if i > |before| {
      assert false;
    }
    assert (before + turn)[i + 1..i + 1 + |r.toolCalls|] == turn[1..];
  }

  /** Each invocation adds the response and one message per tool call. */
  lemma {:induction false} TranscriptGrows(systemPrompt: string, prompt: string,
                                           tools: map<string, ToolArgs -> ToolOutcome>, turns: seq<Reply>)
    ensures |Transcript(systemPrompt, prompt, tools, turns)| == 2 + |turns| + ToolCallCount(turns)
  {
    if turns != [] {
      TranscriptGrows(systemPrompt, prompt, tools, turns[..|turns| - 1]);
    }
  }

  /** The tool calls the responses ask for, counted. */
  function ToolCallCount(replies: seq<Reply>): nat {
    if replies == [] then 0
    else
      var last := replies[|replies| - 1];
      ToolCallCount(replies[..|replies| - 1]) + if WantsTools(last) then |last.toolCalls| else 0
  }

  // ---------------------------------------------------------------------------
  // Reading the final response
  // ---------------------------------------------------------------------------

  /** A comment object as `json.loads` gives it: `line` is `None` when the key
      is missing or not an int, `message` when the key is missing. */
  datatype JsonComment = JsonComment(line: Option<int>, message: Option<string>)

  /** What `json.loads` makes of the span, and whether the extraction can walk
      it: a decoding error, a value whose shape makes `.get` raise (a list or
      scalar at the top, a comment that is not an object), or an object with
      its `comments` list (empty when the key is missing) and `summary`. */
  datatype Decoded =
    | DecodeError(reason: string)
    | ShapeError(reason: string)
    | Object(comments: seq<JsonComment>, summary: Option<string>)

  const DefaultSummary: string := "Reviewed"
  const ParseErrorSummary: string := "Review completed (parse error)"

  /** The text from the first `{` to the last `}`, when the last `}` comes
      after the first `{`. */
  function JsonSpan(content: string): (r: Option<string>)
    ensures r.Some? ==> |r.value| >= 2 && r.value[0] == '{' && r.value[|r.value| - 1] == '}'
    ensures r.Some? ==> exists i | 0 <= i <= |content| - |r.value| ::
      content[i..i + |r.value|] == r.value && '{' !in content[..i] && '}' !in content[i + |r.value|..]
    ensures r.None? <==> !exists i, j | 0 <= i < j < |content| :: content[i] == '{' && content[j] == '}'
  {
    var start := Find(content, '{');
    var end := RFind(content, '}') + 1;
    if start != -1 && end > start then
      assert content[start..end][end - start - 1] == content[end - 1];
      Some(content[start..end])
    else
      assert forall i, j | 0 <= i < j < |content| && content[i] == '{' && content[j] == '}' :: false by {
        forall i, j | 0 <= i < j < |content| && content[i] == '{' && content[j] == '}'
          ensures false
        {
        }
      }
      None
  }

  /** The span is found around a JSON object however much prose surrounds it,
      as long as the prose has no brace of the wrong kind. */
  lemma JsonSpanOfWrapped(before: string, body: string, after: string)
    requires |body| >= 2 && body[0] == '{' && body[|body| - 1] == '}'
    requires '{' !in before && '}' !in after
    ensures JsonSpan(before + body + after) == Some(body)
  {
    var content := before + body + after;
    var start := |before|;
    var end := |before| + |body|;
    assert content[start] == '{' && content[..start] == before;
    assert Find(content, '{') == start;
    assert content[end - 1] == '}' && content[end..] == after;
    assert RFind(content, '}') == end - 1;
    assert content[start..end] == body;
  }

  /** The comments of one file: each names the file, keeps its line, and has
      an empty message when the model gave none. */
  function FileComments(filename: string, items: seq<JsonComment>): (r: seq<Comment>)
    ensures |r| == |items|
    ensures forall k | 0 <= k < |items| ::
      r[k].path == filename && r[k].line == items[k].line && r[k].message == items[k].message.GetOr("")
  {
    if items == [] then []
    else
      var last := items[|items| - 1];
      FileComments(filename, items[..|items| - 1]) + [Comment(filename, last.line, last.message.GetOr(""))]
  }

  /** The outcome of a file review whose final response reads `content`. */
  function ReviewOutcome(filename: string, content: string, decode: string -> Decoded): FileOutcome {
    match JsonSpan(content)
    case None => Reviewed(FileReviewResult(filename, [], DefaultSummary))
    case Some(span) =>
      match decode(span)
      case DecodeError(_) => Reviewed(FileReviewResult(filename, [], ParseErrorSummary))
      case ShapeError(e) => Failed(e)
      case Object(items, summary) => Reviewed(FileReviewResult(filename, FileComments(filename, items), summary.GetOr(DefaultSummary)))
  }

  /** The text of the final response; a response that is not an assistant
      message reads as empty. */
  function FinalContent(r: Reply): string {
    if r.AiReply? then r.content else ""
  }

  /** A reviewed file's comments all carry its name; without a JSON object,
      or when it does not decode, there are none. */
  lemma ReviewOutcomeComments(filename: string, content: string, decode: string -> Decoded)
    ensures var o := ReviewOutcome(filename, content, decode);
      && (o.Reviewed? ==> o.result.filename == filename && forall c | c in o.result.comments :: c.path == filename)
      && (JsonSpan(content).None? ==> o == Reviewed(FileReviewResult(filename, [], DefaultSummary)))
      && (JsonSpan(content).Some? && decode(JsonSpan(content).value).DecodeError? ==>
            o == Reviewed(FileReviewResult(filename, [], ParseErrorSummary)))
  {
  }

  // ---------------------------------------------------------------------------
  // review_single_file
  // ---------------------------------------------------------------------------

  /** Reviews one file: invokes the model until it answers without tool calls
      or the cap is reached, answering every tool call in between, then reads
      comments and a summary out of the final response. */
  method ReviewSingleFile(filename: string, systemPrompt: string, prompt: string, replies: seq<Reply>,
                          tools: map<string, ToolArgs -> ToolOutcome>, decode: string -> Decoded)
    returns (outcome: FileOutcome, messages: seq<Message>, invocations: nat)
    requires |replies| == MaxToolIterations
    ensures invocations == CallsMade(replies)
    ensures messages == Transcript(systemPrompt, prompt, tools, replies[..invocations])
    ensures outcome == ReviewOutcome(filename, FinalContent(replies[invocations - 1]), decode)
  {
    var response;
    response, messages, invocations := ToolLoop(systemPrompt, prompt, replies, tools);
    outcome := ParseFinalResponse(filename, FinalContent(response), decode);
  }

  /** The `TypeError` `review_single_file` raises as written: it passes the
      owner, the repository and the head ref to `create_github_tools`, which
      takes the owner and the repository only. */
  const ToolFactoryTypeError: string := "create_github_tools() takes 2 positional arguments but 3 were given"

  /** `review_single_file` as written: building the tools raises before the
      model is created, so the review of every file ends in that exception,
      which `review_files_parallel` receives as the file's result. */
  function ReviewSingleFileAsWritten(filename: string): (r: FileOutcome)
    ensures r.Failed?
  {
    Failed(ToolFactoryTypeError)
  }

  /** The tool-calling loop: one model invocation per iteration, at most
      `MaxToolIterations`, stopping at the first response without tool calls. */
  method ToolLoop(systemPrompt: string, prompt: string, replies: seq<Reply>,
                  tools: map<string, ToolArgs -> ToolOutcome>)
    returns (response: Reply, messages: seq<Message>, invocations: nat)
    requires |replies| == MaxToolIterations
    ensures invocations == CallsMade(replies)
    ensures messages == Transcript(systemPrompt, prompt, tools, replies[..invocations])
    ensures response == replies[invocations - 1]
  {
    messages := [SystemMsg(systemPrompt), HumanMsg(prompt)];
    response := replies[0];
    var iteration := 0;
    while iteration < MaxToolIterations
      invariant iteration <= MaxToolIterations
      invariant iteration < MaxToolIterations ==> CallsMade(replies) == CallsFrom(replies, iteration)
      invariant iteration == MaxToolIterations ==> CallsMade(replies) == MaxToolIterations
      invariant messages == Transcript(systemPrompt, prompt, tools, replies[..iteration])
      invariant iteration > 0 ==> response == replies[iteration - 1]
    {
      response, messages := InvokeOnce(systemPrompt, prompt, replies, tools, iteration, messages);
      if !WantsTools(response) {
        invocations := iteration + 1;
        break;
      }
      iteration := iteration + 1;
    }
    if iteration == MaxToolIterations {
      invocations := MaxToolIterations;
    }
  }

  /** One iteration of the loop: invokes the model, records its response
      and, when it asks for tools, answers every call. */
  method InvokeOnce(systemPrompt: string, prompt: string, replies: seq<Reply>,
                    tools: map<string, ToolArgs -> ToolOutcome>, n: nat, messages: seq<Message>)
    returns (response: Reply, extended: seq<Message>)
    requires n < |replies| && messages == Transcript(systemPrompt, prompt, tools, replies[..n])
    ensures response == replies[n]
    ensures extended == Transcript(systemPrompt, prompt, tools, replies[..n + 1])
  {
    response := replies[n];
    extended := messages + [AssistantMsg(response)];
    if WantsTools(response) {
      var toolResults := ExecuteToolCalls(tools, response.toolCalls);
      extended := extended + toolResults;
      TranscriptStep(systemPrompt, prompt, replies, tools, n, messages, toolResults);
    } else {
      TranscriptStep(systemPrompt, prompt, replies, tools, n, messages, []);
    }
  }

  /** One iteration of the loop extends the transcript by one turn: the
      response, then the answers to its tool calls if it asked for any. */
  lemma TranscriptStep(systemPrompt: string, prompt: string, replies: seq<Reply>,
                       tools: map<string, ToolArgs -> ToolOutcome>, n: nat,
                       before: seq<Message>, toolResults: seq<Message>)
    requires n < |replies| && before == Transcript(systemPrompt, prompt, tools, replies[..n])
    requires toolResults == if WantsTools(replies[n]) then ToolMessages(tools, replies[n].toolCalls) else []
    ensures before + [AssistantMsg(replies[n])] + toolResults
      == Transcript(systemPrompt, prompt, tools, replies[..n + 1])
  {
    assert replies[..n + 1][..n] == replies[..n];
    assert replies[..n + 1][n] == replies[n];
  }

  /** Executes the tool calls of one response, in order; an unknown tool or a
      tool that raises is answered with a message and the loop goes on. */
  method ExecuteToolCalls(tools: map<string, ToolArgs -> ToolOutcome>, calls: seq<ToolCall>)
    returns (toolResults: seq<Message>)
    ensures toolResults == ToolMessages(tools, calls)
  {
    toolResults := [];
    for k := 0 to |calls|
      invariant toolResults == ToolMessages(tools, calls[..k])
    {
      var call := calls[k];
      var result: string;
      if call.name in tools {
        match tools[call.name](call.args)
        case Returned(text) => result := text;
        case Raised(e) => result := "Error: " + e;
      } else {
        result := "Unknown tool: " + call.name;
      }
      toolResults := toolResults + [ToolMsg(result, call.id)];
      assert calls[..k + 1][..k] == calls[..k];
    }
    assert calls[..|calls|] == calls;
  }

  /** Reads the comments and the summary out of the final response. */
  method ParseFinalResponse(filename: string, content: string, decode: string -> Decoded)
    returns (outcome: FileOutcome)
    ensures outcome == ReviewOutcome(filename, content, decode)
  {
    var comments: seq<Comment> := [];
    var summary := DefaultSummary;
    var span := JsonSpan(content);
    if span.Some? {
      match decode(span.value)
      case DecodeError(_) =>
        summary := ParseErrorSummary;
      case ShapeError(e) =>
        outcome := Failed(e);
        return;
      case Object(items, s) =>
        for k := 0 to |items|
          invariant comments == FileComments(filename, items[..k])
        {
          comments := comments + [Comment(filename, items[k].line, items[k].message.GetOr(""))];
          assert items[..k + 1][..k] == items[..k];
        }
        assert items[..|items|] == items;
        summary := s.GetOr(DefaultSummary);
    }
    outcome := Reviewed(FileReviewResult(filename, comments, summary));
  }

  // ---------------------------------------------------------------------------
  // generate_summary and the aggregation of review_files_parallel
  // ---------------------------------------------------------------------------

  const NoFilesSummary: string := "No files were reviewed."

  /** The overall summary: a fixed text when no file was reviewed, otherwise
      what the summarising model (`synthesize`) writes. */
  function GenerateSummary(fileSummaries: seq<string>, synthesize: seq<string> -> string): string {
    if fileSummaries == [] then NoFilesSummary else synthesize(fileSummaries)
  }

  /** With no file summaries the model is not consulted. */
  lemma EmptySummaryNeedsNoModel(synthesize: seq<string> -> string, other: seq<string> -> string)
    ensures GenerateSummary([], synthesize) == GenerateSummary([], other) == NoFilesSummary
  {
  }

  /** The line a reviewed file contributes to the overall summary's input. */
  function SummaryLine(r: FileReviewResult): string {
    "**" + r.filename + "**: " + r.summary
  }

  /** The results of the files whose review did not fail, in order. */
  function Successes(outcomes: seq<FileOutcome>): (r: seq<FileReviewResult>)
    ensures |r| <= |outcomes|
  {
    if outcomes == [] then []
    else
      var last := outcomes[|outcomes| - 1];
      Successes(outcomes[..|outcomes| - 1]) + if last.Reviewed? then [last.result] else []
  }

  /** All comments of the reviewed files, file after file. */
  function CollectedComments(outcomes: seq<FileOutcome>): seq<Comment> {
    if outcomes == [] then []
    else
      var last := outcomes[|outcomes| - 1];
      CollectedComments(outcomes[..|outcomes| - 1]) + if last.Reviewed? then last.result.comments else []
  }

  /** One summary line per reviewed file, in file order. */
  function SummaryLines(outcomes: seq<FileOutcome>): seq<string> {
    if outcomes == [] then []
    else
      var last := outcomes[|outcomes| - 1];
      SummaryLines(outcomes[..|outcomes| - 1]) + if last.Reviewed? then [SummaryLine(last.result)] else []
  }

  /** The comments of several results, concatenated. */
  function Flatten(results: seq<FileReviewResult>): seq<Comment> {
    if results == [] then [] else Flatten(results[..|results| - 1]) + results[|results| - 1].comments
  }

  /** The summary lines of several results. */
  function LinesOf(results: seq<FileReviewResult>): (r: seq<string>)
    ensures |r| == |results|
  {
    if results == [] then [] else LinesOf(results[..|results| - 1]) + [SummaryLine(results[|results| - 1])]
  }

  /** The aggregation loop of `review_files_parallel`: failed files are
      skipped, the others contribute their comments and a summary line. */
  method CollectResults(outcomes: seq<FileOutcome>) returns (allComments: seq<Comment>, fileSummaries: seq<string>)
    ensures allComments == CollectedComments(outcomes)
    ensures fileSummaries == SummaryLines(outcomes)
  {
    allComments, fileSummaries := [], [];
    for k := 0 to |outcomes|
      invariant allComments == CollectedComments(outcomes[..k])
      invariant fileSummaries == SummaryLines(outcomes[..k])
    {
      assert outcomes[..k + 1][..k] == outcomes[..k];
      match outcomes[k]
      case Failed(_) =>
      case Reviewed(result) =>
        allComments := allComments + result.comments;
        fileSummaries := fileSummaries + [SummaryLine(result)];
    }
    assert outcomes[..|outcomes|] == outcomes;
  }

  /** `review_files_parallel` once every file's review has finished: the
      comments of all reviewed files and the overall summary. */
  method ReviewFilesParallel(outcomes: seq<FileOutcome>, synthesize: seq<string> -> string)
    returns (allComments: seq<Comment>, overallSummary: string)
    ensures allComments == Flatten(Successes(outcomes))
    ensures overallSummary == GenerateSummary(LinesOf(Successes(outcomes)), synthesize)
  {
    var fileSummaries;
    allComments, fileSummaries := CollectResults(outcomes);
    AggregationBySuccesses(outcomes);
    overallSummary := GenerateSummary(fileSummaries, synthesize);
  }

  /** The aggregation is the same as first dropping the failed files and then
      taking every remaining result's comments and summary line. */
  lemma {:induction false} AggregationBySuccesses(outcomes: seq<FileOutcome>)
    ensures CollectedComments(outcomes) == Flatten(Successes(outcomes))
    ensures SummaryLines(outcomes) == LinesOf(Successes(outcomes))
  {
    if outcomes != [] {
      var init := outcomes[..|outcomes| - 1];
      var last := outcomes[|outcomes| - 1];
      AggregationBySuccesses(init);
      if last.Reviewed? {
        var s := Successes(init);
        assert Successes(outcomes) == s + [last.result];
        assert (s + [last.result])[..|s|] == s;
      } else {
        assert Successes(outcomes) == Successes(init);
      }
    }
  }

  /** Results that arrive later extend what was collected from earlier ones. */
  lemma {:induction false} CollectedCommentsAppend(a: seq<FileOutcome>, b: seq<FileOutcome>)
    ensures CollectedComments(a + b) == CollectedComments(a) + CollectedComments(b)
    ensures SummaryLines(a + b) == SummaryLines(a) + SummaryLines(b)
  {
    if b != [] {
      CollectedCommentsAppend(a, b[..|b| - 1]);
      assert (a + b)[..|a + b| - 1] == a + b[..|b| - 1];
    } else {
      assert a + b == a;
    }
  }

  /** A failed file leaves no trace in the comments or the summary lines. */
  lemma FailureIsIsolated(a: seq<FileOutcome>, error: string, b: seq<FileOutcome>)
    ensures CollectedComments(a + [Failed(error)] + b) == CollectedComments(a + b)
    ensures SummaryLines(a + [Failed(error)] + b) == SummaryLines(a + b)
  {
    CollectedCommentsAppend(a + [Failed(error)], b);
    CollectedCommentsAppend(a, [Failed(error)]);
    CollectedCommentsAppend(a, b);
    assert [Failed(error)][..0] == [];
  }

  /** When every file fails there are no comments and the fixed summary. */
  lemma AllFailed(outcomes: seq<FileOutcome>, synthesize: seq<string> -> string)
    requires forall k | 0 <= k < |outcomes| :: outcomes[k].Failed?
    ensures Successes(outcomes) == []
    ensures CollectedComments(outcomes) == []
    ensures GenerateSummary(SummaryLines(outcomes), synthesize) == NoFilesSummary
  {
    AggregationBySuccesses(outcomes);
    AllFailedNoSuccesses(outcomes);
  }

  lemma {:induction false} AllFailedNoSuccesses(outcomes: seq<FileOutcome>)
    requires forall k | 0 <= k < |outcomes| :: outcomes[k].Failed?
    ensures Successes(outcomes) == []
  {
    if outcomes != [] {
      AllFailedNoSuccesses(outcomes[..|outcomes| - 1]);
    }
  }
}
