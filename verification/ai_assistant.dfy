/** `AIAssistantHandler` (ai_assistant.py): the checks `assist_code` makes
    before starting a worker, and how the AI panel's text evolves as the
    worker's responses and errors arrive. The widgets are a plain record. */
module AiAssistant {
  import opened Common
  import opened PyStr

  /** Scenarios that run without code from the editor. */
  const CodeOptional: set<string> := {"Code Generation", "LeetCode Solver", "General Assistant"}

  const NoCodeText := "⚠️ No code to assist!"
  const NoPromptText := "💡 AI Code Assistant: Please write a prompt!"
  const ProcessingText := "⏳ AI Code Assistant is processing..."
  const ResponseHeader := "💡 AI Code Assistant:\n\n"

  /** What `assist_code` reads and writes: the current editor's text (absent
      when there is no editor), the two selectors, the output console and the
      AI panel, which holds the prompt. */
  datatype Ide = Ide(editor: Option<string>, assistant: string, language: string,
                     console: string, panel: string)

  /** The arguments `AIWorker` is started with. */
  datatype WorkerArgs = WorkerArgs(language: string, code: string, prompt: string, assistant: string)

  datatype Request = Request(ide: Ide, worker: Option<WorkerArgs>)

  /** The editor holds code worth sending. */
  predicate HasCode(ide: Ide)
  {
    ide.editor.Some? && !IsBlank(ide.editor.value)
  }

  /** `assist_code()` (lines 7-32). */
  function AssistCode(ide: Ide): (r: Request)
    // the code check comes first and, when it fails, only the console changes
    ensures ide.assistant !in CodeOptional && !HasCode(ide) ==>
      r == Request(ide.(console := NoCodeText), None)
    // the prompt check runs only once the code check has passed
    ensures (ide.assistant in CodeOptional || HasCode(ide)) && IsBlank(ide.panel) ==>
      r == Request(ide.(panel := NoPromptText), None)
    ensures r.worker.Some? <==>
      (ide.assistant in CodeOptional || HasCode(ide)) && !IsBlank(ide.panel)
    // a started worker finds the placeholder in the panel and gets the
    // lower-cased language, the code (none for code-optional scenarios) and
    // the prompt as typed
    ensures r.worker.Some? ==>
      && r.ide == ide.(panel := ProcessingText)
      && r.worker.value == WorkerArgs(Lower(ide.language),
                                      if ide.assistant in CodeOptional then "" else ide.editor.value,
                                      ide.panel, ide.assistant)
  {
    if ide.assistant !in CodeOptional && !HasCode(ide) then
      Request(ide.(console := NoCodeText), None)
    else
      var code := if ide.assistant in CodeOptional then "" else ide.editor.value;
      var prompt := ide.panel;
      if IsBlank(prompt) then Request(ide.(panel := NoPromptText), None)
      else
        Request(ide.(panel := ProcessingText),
                Some(WorkerArgs(Lower(ide.language), code, prompt, ide.assistant)))
  }

  /** `QTextEdit.append(text)` seen through `toPlainText()`: a new paragraph. */
  function Append(panel: string, text: string): (r: string)
    // what was there stays in front, the new text comes last, and a line
    // break separates the two only when there was something before
    ensures StartsWith(r, panel) && EndsWith(r, text)
    ensures |r| == |panel| + |text| + (if panel == "" then 0 else 1)
    ensures panel != "" ==> r[|panel|] == '\n'
  {
    if panel == "" then text else panel + "\n" + text
  }

  /** `update_ai_response(response)` (lines 34-39). */
  function UpdateResponse(panel: string, response: string): (r: string)
    ensures panel == ProcessingText ==> r == ResponseHeader + response
    ensures panel != ProcessingText ==> r == Append(panel, response)
    // the latest response is always visible at the end; the placeholder is
    // replaced by the header, any other text is kept in front
    ensures EndsWith(r, response)
    ensures panel == ProcessingText ==> HeaderFirst(r)
    ensures panel != ProcessingText ==> StartsWith(r, panel)
  {
    assert EndsWith(ResponseHeader + response, response) by {
      assert (ResponseHeader + response)[|ResponseHeader|..] == response;
    }
    if panel == ProcessingText then ResponseHeader + response else Append(panel, response)
  }

  /** `update_ai_error(error_message)` (lines 41-42). */
  function UpdateError(panel: string, message: string): (r: string)
    ensures r == message
  {
    message
  }

  /** The panel after a stream of responses. */
  function Stream(panel: string, responses: seq<string>): (r: string)
    ensures |responses| == 0 ==> r == panel
    // the panel always ends with the latest response
    ensures |responses| > 0 ==> EndsWith(r, responses[|responses| - 1])
    decreases |responses|
  {
    if |responses| == 0 then panel
    else
      assert |responses| > 1 ==> responses[1..][|responses| - 2] == responses[|responses| - 1];
      Stream(UpdateResponse(panel, responses[0]), responses[1..])
  }

  /** Each response after the first as its own paragraph. */
  function Paragraphs(responses: seq<string>): string
  {
    if |responses| == 0 then "" else "\n" + responses[0] + Paragraphs(responses[1..])
  }

  /** The panel starts with the response header. */
  predicate HeaderFirst(panel: string)
  {
    |ResponseHeader| <= |panel| && panel[..|ResponseHeader|] == ResponseHeader
  }

  lemma HeaderFirstNotPlaceholder(panel: string)
    requires HeaderFirst(panel)
    ensures panel != ProcessingText && panel != ""
  {
    assert panel[0] == ResponseHeader[0];
    assert ResponseHeader[0] != ProcessingText[0];
  }

  lemma HeaderFirstExtend(panel: string, more: string)
    requires HeaderFirst(panel)
    ensures HeaderFirst(panel + more)
  {
    assert (panel + more)[..|ResponseHeader|] == panel[..|ResponseHeader|];
  }

  lemma {:induction false} StreamAfterHeader(panel: string, responses: seq<string>)
    requires HeaderFirst(panel)
    ensures Stream(panel, responses) == panel + Paragraphs(responses)
    decreases |responses|
  {
    if |responses| > 0 {
      var r0, rest := responses[0], responses[1..];
      HeaderFirstNotPlaceholder(panel);
      var next := panel + ("\n" + r0);
      assert UpdateResponse(panel, r0) == next;
      HeaderFirstExtend(panel, "\n" + r0);
      StreamAfterHeader(next, rest);
      Assoc(panel, "\n" + r0, Paragraphs(rest));
      Assoc("\n", r0, Paragraphs(rest));
    }
  }

  lemma {:induction false} ParagraphsJoin(responses: seq<string>)
    requires |responses| > 0
    ensures responses[0] + Paragraphs(responses[1..]) == JoinWith("\n", responses)
    decreases |responses|
  {
    if |responses| > 1 {
      ParagraphsJoin(responses[1..]);
      assert responses[1..][0] == responses[1];
      assert responses[1..][1..] == responses[2..];
    }
  }

  lemma Assoc(a: string, b: string, c: string)
    ensures a + b + c == a + (b + c)
  {
  }

  lemma StreamFromPlaceholder(responses: seq<string>)
    requires |responses| > 0
    ensures Stream(ProcessingText, responses) == ResponseHeader + JoinWith("\n", responses)
  {
    var r0, rest := responses[0], responses[1..];
    var first := ResponseHeader + r0;
    assert Stream(ProcessingText, responses) == Stream(first, rest);
    HeaderFirstExtend(ResponseHeader, r0);
    StreamAfterHeader(first, rest);
    ParagraphsJoin(responses);
    Assoc(ResponseHeader, r0, Paragraphs(rest));
  }

  /** Once a request has started a worker, its streamed responses show as
      the header followed by the responses, one paragraph each, in arrival
      order; the placeholder is replaced exactly once. */
  lemma StreamShowsAllResponses(ide: Ide, responses: seq<string>)
    requires AssistCode(ide).worker.Some? && |responses| > 0
    ensures Stream(AssistCode(ide).ide.panel, responses) == ResponseHeader + JoinWith("\n", responses)
  {
    StreamFromPlaceholder(responses);
  }

  /** How `AIWorker.run` (worker.py) ends when the query stream raises. */
  datatype Failure = ValueFailure(detail: string) | OtherFailure(detail: string)

  function FailureText(f: Failure): string
  {
    match f
    case ValueFailure(d) => "⚠️ Error: " + d
    case OtherFailure(d) => "⚠️ An unexpected error occurred: " + d
  }

  /** The worker's two signals, as the handler receives them. */
  datatype Signal = Result(text: string) | Error(message: string)

  /** What the worker emits: one result per chunk, then at most one error. */
  function WorkerSignals(chunks: seq<string>, failure: Option<Failure>): (r: seq<Signal>)
    ensures |r| == |chunks| + (if failure.Some? then 1 else 0)
    ensures forall i :: 0 <= i < |chunks| ==> r[i] == Result(chunks[i])
    ensures failure.Some? ==> r[|r| - 1] == Error(FailureText(failure.value))
  {
    Results(chunks) + (if failure.Some? then [Error(FailureText(failure.value))] else [])
  }

  function Results(chunks: seq<string>): (r: seq<Signal>)
    ensures |r| == |chunks|
    ensures forall i :: 0 <= i < |chunks| ==> r[i] == Result(chunks[i])
  {
    if |chunks| == 0 then [] else [Result(chunks[0])] + Results(chunks[1..])
  }

  /** The panel after the handler's slots have run for each signal in turn. */
  function Deliver(panel: string, signals: seq<Signal>): (r: string)
    ensures |signals| == 0 ==> r == panel
    // the last signal decides what the panel ends with: an error replaces
    // everything, a result is appended
    ensures |signals| > 0 && signals[|signals| - 1].Error? ==> r == signals[|signals| - 1].message
    ensures |signals| > 0 && signals[|signals| - 1].Result? ==> EndsWith(r, signals[|signals| - 1].text)
    decreases |signals|
  {
    if |signals| == 0 then panel
    else
      var next := match signals[0]
                  case Result(t) => UpdateResponse(panel, t)
                  case Error(m) => UpdateError(panel, m);
      assert |signals| > 1 ==> signals[1..][|signals| - 2] == signals[|signals| - 1];
      Deliver(next, signals[1..])
  }

  lemma {:induction false} DeliverResults(panel: string, chunks: seq<string>, tail: seq<Signal>)
    ensures Deliver(panel, Results(chunks) + tail) == Deliver(Stream(panel, chunks), tail)
    decreases |chunks|
  {
    if |chunks| > 0 {
      var rs := Results(chunks);
      assert (rs + tail)[0] == Result(chunks[0]);
      assert rs == [Result(chunks[0])] + Results(chunks[1..]);
      assert (rs + tail)[1..] == Results(chunks[1..]) + tail;
      var next := UpdateResponse(panel, chunks[0]);
      assert Deliver(panel, rs + tail) == Deliver(next, Results(chunks[1..]) + tail);
      assert Stream(panel, chunks) == Stream(next, chunks[1..]);
      DeliverResults(next, chunks[1..], tail);
    } else {
      assert Results(chunks) + tail == tail;
    }
  }

  /** What the panel shows once the worker is done, starting from the
      placeholder. */
  lemma DeliverFromPlaceholder(chunks: seq<string>, failure: Option<Failure>)
    ensures failure.Some? ==>
      Deliver(ProcessingText, WorkerSignals(chunks, failure)) == FailureText(failure.value)
    ensures failure.None? && |chunks| > 0 ==>
      Deliver(ProcessingText, WorkerSignals(chunks, failure)) == ResponseHeader + JoinWith("\n", chunks)
    ensures failure.None? && |chunks| == 0 ==>
      Deliver(ProcessingText, WorkerSignals(chunks, failure)) == ProcessingText
  {
    var tail: seq<Signal> := if failure.Some? then [Error(FailureText(failure.value))] else [];
    assert WorkerSignals(chunks, failure) == Results(chunks) + tail;
    DeliverResults(ProcessingText, chunks, tail);
    if failure.None? && |chunks| > 0 {
      StreamFromPlaceholder(chunks);
    }
  }

  /** The panel at the end of one request that started a worker: the error
      text alone when the stream failed, whatever had already arrived; the
      header and every chunk when it did not; the placeholder when the
      stream was empty. */
  lemma RequestOutcome(ide: Ide, chunks: seq<string>, failure: Option<Failure>)
    requires AssistCode(ide).worker.Some?
    ensures failure.Some? ==>
      Deliver(AssistCode(ide).ide.panel, WorkerSignals(chunks, failure)) == FailureText(failure.value)
    ensures failure.None? && |chunks| > 0 ==>
      Deliver(AssistCode(ide).ide.panel, WorkerSignals(chunks, failure)) == ResponseHeader + JoinWith("\n", chunks)
    ensures failure.None? && |chunks| == 0 ==>
      Deliver(AssistCode(ide).ide.panel, WorkerSignals(chunks, failure)) == ProcessingText
  {
    var panel := AssistCode(ide).ide.panel;
    assert panel == ProcessingText;
    DeliverFromPlaceholder(chunks, failure);
  }

  /** `str()` of the `AttributeError` Python raises for a missing attribute
      on an instance. */
  function NoAttributeMessage(className: string, attribute: string): string
  {
    "'" + className + "' object has no attribute '" + attribute + "'"
  }

  /** The backend the IDE hands the worker is a `CodeBuddyConsole`
      (main.py), which defines `process_query` but no `process_query_stream`:
      the call on line 17 of worker.py raises before the first chunk. */
  const ShippedBackendFailure := OtherFailure(NoAttributeMessage("CodeBuddyConsole", "process_query_stream"))

  /** With the backend as shipped, every request that starts a worker ends
      with the attribute error alone in the panel; the response header never
      appears. */
  lemma ShippedRequestShowsOnlyError(ide: Ide)
    requires AssistCode(ide).worker.Some?
    ensures var panel := Deliver(AssistCode(ide).ide.panel, WorkerSignals([], Some(ShippedBackendFailure)));
      && panel == "⚠️ An unexpected error occurred: " + "'" + "CodeBuddyConsole" + "' object has no attribute '"
                  + "process_query_stream" + "'"
      && !HeaderFirst(panel)
  {
    RequestOutcome(ide, [], Some(ShippedBackendFailure));
    var panel := FailureText(ShippedBackendFailure);
    assert panel[0] == '⚠';
    assert ResponseHeader[0] == '💡';
  }
}
