/** The two chat endpoints: the prompt both hand to the web-search agent, the
    blocking endpoint that returns the agent's answer, and the streaming
    endpoint that frames the agent's text deltas as server-sent events.

    The agent itself (its model calls and tool loop) is a parameter: a
    function from the prompt to a final answer or to a sequence of deltas
    that either ends or fails. */
module AgentController {

  import opened Results
  import opened Errors
  import opened Strings
  import opened ChatModels

  /** Written between the message and the serialised history, with no
      separator before it. */
  const HistoryIntroduction := "The chat history is the following "

  /** The single text both endpoints send to the agent: the message, the
      introduction, then the history as the JSON serialiser renders it. */
  function BuildPrompt(request: ChatRequest, serialize: seq<ChatHistoryItem> -> string): (prompt: string)
    ensures request.message <= prompt
    ensures prompt[|request.message|..] == HistoryIntroduction + serialize(request.chatHistory)
  {
    request.message + HistoryIntroduction + serialize(request.chatHistory)
  }

  /** Of two requests whose messages have the same length, equal prompts mean
      equal messages and equal serialised histories: the prompt keeps both
      parts intact. */
  lemma PromptKeepsParts(a: ChatRequest, b: ChatRequest, serialize: seq<ChatHistoryItem> -> string)
    requires |a.message| == |b.message|
    requires BuildPrompt(a, serialize) == BuildPrompt(b, serialize)
    ensures a.message == b.message
    ensures serialize(a.chatHistory) == serialize(b.chatHistory)
  {
    var p := BuildPrompt(a, serialize);
    var n := |a.message| + |HistoryIntroduction|;
    assert p[n..] == serialize(a.chatHistory);
    assert BuildPrompt(b, serialize)[n..] == serialize(b.chatHistory);
  }

  /** The body of a successful blocking call: `{ text }`. */
  datatype ChatReply = ChatReply(text: string)

  /** The blocking endpoint. The agent's final text is returned unchanged;
      there is no error envelope, so the agent's failure is the endpoint's. */
  function Chat(request: ChatRequest, serialize: seq<ChatHistoryItem> -> string,
                agent: string -> Result<string, Error>): (r: Result<ChatReply, Error>)
    ensures var answer := agent(BuildPrompt(request, serialize));
            && (r.Ok? <==> answer.Ok?)
            && (r.Ok? ==> r.value.text == answer.value)
            && (r.Err? ==> r.error == answer.error)
  {
    var text :- agent(BuildPrompt(request, serialize));
    Ok(ChatReply(text))
  }

  /** One event of the stream: the text so far, whether the answer is
      finished, and whether it ended in failure (`error` is absent from the
      JSON of frames where it is false). */
  datatype Frame = Frame(text: string, isComplete: bool, error: bool)

  /** The only text an error frame ever carries. */
  const ApologyText := "Sorry, I encountered an error while processing your message."

  datatype StreamEnd = Finished | Failed

  /** What the agent's streaming run yields: the deltas it produced, then
      either a normal end or a failure (after all of them). */
  datatype AgentStream = AgentStream(deltas: seq<string>, end: StreamEnd)

  /** One progress frame per delta, each carrying all text received so far. */
  function ProgressFrames(deltas: seq<string>): (frames: seq<Frame>)
    ensures |frames| == |deltas|
    ensures forall i :: 0 <= i < |deltas| ==> frames[i] == Frame(Concat(deltas[..i + 1]), false, false)
  {
    if |deltas| == 0 then []
    else
      var n := |deltas| - 1;
      assert deltas[..n + 1] == deltas;
      var earlier := ProgressFrames(deltas[..n]);
      forall i | 0 <= i < n
        ensures earlier[i] == Frame(Concat(deltas[..i + 1]), false, false)
      {
        assert deltas[..n][..i + 1] == deltas[..i + 1];
      }
      earlier + [Frame(Concat(deltas), false, false)]
  }

  /** The frame that closes the stream: complete, flagged as an error
      exactly when the run failed, and on success repeating the text of the
      last progress frame (the empty text when there was none). */
  function TerminalFrame(stream: AgentStream): (frame: Frame)
    ensures frame.isComplete && (frame.error <==> stream.end == Failed)
    ensures stream.end == Finished && |stream.deltas| > 0 ==>
              frame.text == ProgressFrames(stream.deltas)[|stream.deltas| - 1].text
    ensures stream.end == Finished && |stream.deltas| == 0 ==> frame.text == ""
    ensures stream.end == Failed ==> frame.text == ApologyText
  {
    assert stream.deltas[..|stream.deltas|] == stream.deltas;
    match stream.end
    case Finished => Frame(Concat(stream.deltas), true, false)
    case Failed => Frame(ApologyText, true, true)
  }

  /** The frames the streaming endpoint sends for an agent run: progress
      frames, then exactly one terminal frame. */
  function StreamFrames(stream: AgentStream): (frames: seq<Frame>)
    ensures |frames| == |stream.deltas| + 1
    ensures forall i :: 0 <= i < |frames| ==> (frames[i].isComplete <==> i == |frames| - 1)
    ensures forall i :: 0 <= i < |frames| - 1 ==> frames[i] == Frame(Concat(stream.deltas[..i + 1]), false, false)
    ensures stream.end == Finished ==> frames[|frames| - 1] == Frame(Concat(stream.deltas), true, false)
    ensures stream.end == Failed ==> frames[|frames| - 1] == Frame(ApologyText, true, true)
  {
    ProgressFrames(stream.deltas) + [TerminalFrame(stream)]
  }

  /** Each progress frame's text is a prefix of every later frame's text,
      the completion frame included. */
  lemma ProgressTextsGrow(stream: AgentStream, i: nat, j: nat)
    requires i <= j < |stream.deltas| || (i < |stream.deltas| && j == |stream.deltas| && stream.end == Finished)
    ensures StreamFrames(stream)[i].text <= StreamFrames(stream)[j].text
  {
    ConcatPrefixGrows(stream.deltas, i + 1, if j < |stream.deltas| then j + 1 else j);
    assert stream.deltas[..|stream.deltas|] == stream.deltas;
  }

  /** The error frame reveals nothing of the run: two failing runs end with
      the same frame, whatever they produced before failing. */
  lemma ErrorFrameIsConstant(a: AgentStream, b: AgentStream)
    requires a.end == Failed && b.end == Failed
    ensures StreamFrames(a)[|a.deltas|] == StreamFrames(b)[|b.deltas|]
    ensures StreamFrames(a)[|a.deltas|].text == ApologyText
  {
  }

  lemma StreamExamples()
    ensures StreamFrames(AgentStream(["Hel", "lo"], Finished))
         == [Frame("Hel", false, false), Frame("Hello", false, false), Frame("Hello", true, false)]
    ensures StreamFrames(AgentStream(["Hel"], Failed))
         == [Frame("Hel", false, false), Frame(ApologyText, true, true)]
    ensures StreamFrames(AgentStream([], Finished)) == [Frame("", true, false)]
  {
    var s := AgentStream(["Hel", "lo"], Finished);
    assert s.deltas[..1] == ["Hel"];
    assert Concat(["Hel"]) == "Hel";
    assert Concat(["Hel", "lo"]) == "Hello";
    assert Concat(AgentStream(["Hel"], Failed).deltas[..1]) == "Hel";
  }

  /** One server-sent event carrying `payload`: when the payload has no
      newline, exactly two lines, the `data: ` line and the blank line that
      ends the event. */
  function EventText(payload: string): (event: string)
    ensures '\n' !in payload ==> event == Terminated(["data: " + payload, ""], '\n')
  {
    assert Terminated([""], '\n') == "\n";
    assert ["data: " + payload, ""][1..] == [""];
    "data: " + payload + "\n\n"
  }

  /** Everything written to the response for these frames, each rendered to
      JSON by `json`. It is empty only before the first frame, and it always
      ends with the blank line that closes an event, so a reader never sees
      half an event once a frame is written. */
  function Wire(frames: seq<Frame>, json: Frame -> string): (written: string)
    ensures written == "" <==> |frames| == 0
    ensures |frames| > 0 ==> |written| >= 2 && written[|written| - 2..] == "\n\n"
  {
    if |frames| == 0 then ""
    else Wire(frames[..|frames| - 1], json) + EventText(json(frames[|frames| - 1]))
  }

  /** What is written for the first frames stays at the head of the output:
      later events only append. */
  lemma {:induction false} WireGrows(frames: seq<Frame>, json: Frame -> string, k: nat)
    requires k <= |frames|
    ensures Wire(frames[..k], json) <= Wire(frames, json)
    decreases |frames|
  {
    if k < |frames| {
      var init := frames[..|frames| - 1];
      assert init[..k] == frames[..k];
      WireGrows(init, json, k);
    } else {
      assert frames[..k] == frames;
    }
  }

  /** The streaming endpoint as the controller runs it: an accumulator, one
      written event per delta, then the completion or the apology event. */
  method ChatStream(request: ChatRequest, serialize: seq<ChatHistoryItem> -> string,
                    agent: string -> AgentStream, json: Frame -> string)
    returns (frames: seq<Frame>, written: string)
    ensures frames == StreamFrames(agent(BuildPrompt(request, serialize)))
    ensures written == Wire(frames, json)
  {
    var prompt := BuildPrompt(request, serialize);
    var stream := agent(prompt);
    var finalString := "";
    frames := [];
    written := "";
    var i := 0;
    while i < |stream.deltas|
      invariant 0 <= i <= |stream.deltas|
      invariant finalString == Concat(stream.deltas[..i])
      invariant frames == ProgressFrames(stream.deltas[..i])
      invariant written == Wire(frames, json)
    {
      assert stream.deltas[..i + 1][..i] == stream.deltas[..i];
      finalString := finalString + stream.deltas[i];
      var frame := Frame(finalString, false, false);
      frames := frames + [frame];
      written := written + EventText(json(frame));
      i := i + 1;
    }
    assert stream.deltas[..i] == stream.deltas;
    var last := match stream.end
      case Finished => Frame(finalString, true, false)
      case Failed => Frame(ApologyText, true, true);
    frames := frames + [last];
    written := written + EventText(json(last));
  }
}
