/** The streaming endpoint and the browser client together: whatever way the
    transport cuts the server's events into chunks, the client's line buffer
    recovers exactly the JSON payloads the server wrote, in order, as long
    as no payload contains a raw newline (the JSON serialiser escapes
    newlines inside strings, so its output has none). */
module StreamProtocol {

  import opened Results
  import opened Strings
  import opened AgentController
  import opened ApiClient

  /** The lines the wire consists of: per frame, its `data: ` line and then
      the blank line that ends the event. */
  function EventLines(frames: seq<Frame>, json: Frame -> string): seq<string>
  {
    if |frames| == 0 then []
    else EventLines(frames[..|frames| - 1], json) + [DataPrefix + json(frames[|frames| - 1]), ""]
  }

  /** The JSON of every frame, in order. */
  function Rendered(frames: seq<Frame>, json: Frame -> string): seq<string>
  {
    if |frames| == 0 then [] else Rendered(frames[..|frames| - 1], json) + [json(frames[|frames| - 1])]
  }

  /** `onMessage` once per frame, in order. */
  function Messages(frames: seq<Frame>): seq<Event<Frame>>
  {
    if |frames| == 0 then [] else Messages(frames[..|frames| - 1]) + [OnMessage(frames[|frames| - 1])]
  }

  predicate NewlineFreeJson(frames: seq<Frame>, json: Frame -> string)
  {
    forall i :: 0 <= i < |frames| ==> NoNewline(json(frames[i]))
  }

  lemma {:induction false} WireIsEventLines(frames: seq<Frame>, json: Frame -> string)
    ensures Wire(frames, json) == Terminated(EventLines(frames, json), '\n')
    decreases |frames|
  {
    if |frames| > 0 {
      var f := frames[|frames| - 1];
      var event := [DataPrefix + json(f), ""];
      WireIsEventLines(frames[..|frames| - 1], json);
      TerminatedAppend(EventLines(frames[..|frames| - 1], json), event, '\n');
      assert Terminated(event, '\n') == EventText(json(f)) by {
        assert event[1..] == [""];
        assert Terminated([""], '\n') == "\n";
      }
    }
  }

  lemma {:induction false} EventLinesNewlineFree(frames: seq<Frame>, json: Frame -> string)
    requires NewlineFreeJson(frames, json)
    ensures AllNoNewline(EventLines(frames, json))
    decreases |frames|
  {
    if |frames| > 0 {
      var init := frames[..|frames| - 1];
      assert NewlineFreeJson(init, json) by {
        forall i | 0 <= i < |init|
          ensures NoNewline(json(init[i]))
        {
          assert init[i] == frames[i];
        }
      }
      EventLinesNewlineFree(init, json);
      var line := DataPrefix + json(frames[|frames| - 1]);
      assert NoNewline(line) by {
        assert NoNewline(json(frames[|frames| - 1]));
      }
      var lines := EventLines(frames, json);
      assert lines == EventLines(init, json) + [line, ""];
      forall k | 0 <= k < |lines|
        ensures NoNewline(lines[k])
      {
        if k >= |EventLines(init, json)| {
          assert lines[k] == line || lines[k] == "";
        }
      }
    }
  }

  lemma {:induction false} EventLinesPayloads(frames: seq<Frame>, json: Frame -> string)
    ensures DataPayloads(EventLines(frames, json)) == Rendered(frames, json)
    decreases |frames|
  {
    if |frames| > 0 {
      var init := frames[..|frames| - 1];
      var line := DataPrefix + json(frames[|frames| - 1]);
      EventLinesPayloads(init, json);
      DataPayloadsAppend(EventLines(init, json), [line, ""]);
      assert DataPayloads([line, ""]) == [json(frames[|frames| - 1])] by {
        assert DataPrefix <= line;
        assert line[|DataPrefix|..] == json(frames[|frames| - 1]);
        assert [line, ""][1..] == [""];
        assert DataPayloads([""]) == [];
      }
    }
  }

  /** Whatever the chunking of the server's output, the client's buffer ends
      empty, its complete lines are exactly the events' lines, and the
      payloads it dispatches are exactly the frames' JSON, in order. */
  lemma WireRoundTrip(frames: seq<Frame>, json: Frame -> string, chunks: seq<string>)
    requires NewlineFreeJson(frames, json)
    requires Concat(chunks) == Wire(frames, json)
    ensures ReadChunks(chunks).lines == EventLines(frames, json)
    ensures ReadChunks(chunks).buffer == ""
    ensures DataPayloads(ReadChunks(chunks).lines) == Rendered(frames, json)
  {
    var batch := ReadChunks(chunks);
    WireIsEventLines(frames, json);
    EventLinesNewlineFree(frames, json);
    TerminatedUnique(batch.lines, batch.buffer, EventLines(frames, json), "", '\n');
    EventLinesPayloads(frames, json);
  }

  lemma {:induction false} DispatchRendered(frames: seq<Frame>, json: Frame -> string, parse: string -> Option<Frame>)
    requires forall i :: 0 <= i < |frames| ==> parse(json(frames[i])) == Some(frames[i])
    ensures Dispatch(Rendered(frames, json), parse) == Messages(frames)
    decreases |frames|
  {
    if |frames| > 0 {
      var init := frames[..|frames| - 1];
      assert forall i :: 0 <= i < |init| ==> init[i] == frames[i];
      DispatchRendered(init, json, parse);
      DispatchAppend(Rendered(init, json), [json(frames[|frames| - 1])], parse);
      assert [json(frames[|frames| - 1])][1..] == [];
    }
  }

  /** The browser receives the server's frames: with a base URL set, a
      successful response whose body is the streaming endpoint's output,
      and a parser that reads back what the serialiser wrote, the client
      calls `onMessage` with every frame in order and then `onComplete`. */
  lemma ClientReceivesFrames(apiUrl: Option<string>, endpoint: string, options: RequestInit,
                             fetch: Request -> FetchOutcome, frames: seq<Frame>,
                             json: Frame -> string, parse: string -> Option<Frame>, status: int, chunks: seq<string>)
    requires ApiUrlDefined(apiUrl) && IsOk(status)
    requires fetch(Request(apiUrl.value + endpoint, WithDefaults(options, EventStreamHeaders)))
             == Resolved(Response(status, Some(Body(chunks, Done))))
    requires Concat(chunks) == Wire(frames, json)
    requires NewlineFreeJson(frames, json)
    requires forall i :: 0 <= i < |frames| ==> parse(json(frames[i])) == Some(frames[i])
    ensures StreamApiClient(apiUrl, endpoint, options, fetch, parse).events == Messages(frames) + [OnComplete]
  {
    WireRoundTrip(frames, json, chunks);
    DispatchRendered(frames, json, parse);
  }
}
