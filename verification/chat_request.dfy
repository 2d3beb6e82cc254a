/** The body both chat endpoints accept: the user's message and the chat
    history the browser re-sends with every call. */
module ChatModels {

  import opened Results
  import opened Errors

  /** `DateTime` as a count of ticks; `default(DateTime)` is tick 0, midnight
      on 1 January of year 1. */
  type Timestamp = int

  const DefaultTimestamp: Timestamp := 0

  /** One earlier turn of the conversation. `sender` is any text: the type
      does not restrict it to "user" or "bot". */
  datatype ChatHistoryItem = ChatHistoryItem(sender: string, text: string, timestamp: Timestamp)

  datatype ChatRequest = ChatRequest(message: string, chatHistory: seq<ChatHistoryItem>)

  /** A history item as it arrives in the JSON body: any member may be absent. */
  datatype HistoryItemJson = HistoryItemJson(sender: Option<string>, text: Option<string>, timestamp: Option<Timestamp>)

  datatype ChatRequestJson = ChatRequestJson(message: Option<string>, chatHistory: Option<seq<HistoryItemJson>>)

  /** Binds one history item. `Sender` and `Text` are `required`: their
      absence rejects the body, naming every missing member; an absent
      `Timestamp` keeps its default. */
  function BindHistoryItem(json: HistoryItemJson): (r: Result<ChatHistoryItem, Error>)
    ensures r.Ok? <==> json.sender.Some? && json.text.Some?
    ensures r.Ok? ==> r.value.sender == json.sender.value && r.value.text == json.text.value
    ensures r.Ok? ==> r.value.timestamp == (if json.timestamp.Some? then json.timestamp.value else DefaultTimestamp)
    ensures r.Err? ==> r.error.MissingRequired? && r.error.members != []
    ensures r.Err? ==> ("Sender" in r.error.members <==> json.sender.None?)
    ensures r.Err? ==> ("Text" in r.error.members <==> json.text.None?)
  {
    var missing := (if json.sender.None? then ["Sender"] else []) + (if json.text.None? then ["Text"] else []);
    if missing != [] then Err(MissingRequired(missing))
    else Ok(ChatHistoryItem(json.sender.value, json.text.value, json.timestamp.GetOr(DefaultTimestamp)))
  }

  /** Binds the history list in order; the first item that fails rejects
      the body. */
  function BindHistory(items: seq<HistoryItemJson>): (r: Result<seq<ChatHistoryItem>, Error>)
    ensures r.Ok? <==> forall i :: 0 <= i < |items| ==> BindHistoryItem(items[i]).Ok?
    ensures r.Ok? ==> |r.value| == |items|
    ensures r.Ok? ==> forall i :: 0 <= i < |items| ==> BindHistoryItem(items[i]) == Ok(r.value[i])
    ensures r.Err? ==> exists i :: 0 <= i < |items| && BindHistoryItem(items[i]) == Err(r.error)
  {
    if |items| == 0 then Ok([])
    else
      var first :- BindHistoryItem(items[0]);
      var rest :- BindHistory(items[1..]);
      assert forall i :: 1 <= i < |items| ==> items[i] == items[1..][i - 1];
      Ok([first] + rest)
  }

  /** Binds a request body. A nested item is completed, and its required
      members checked, before the enclosing object is, so an item's error is
      the one reported when both are wrong. An absent `ChatHistory` is the
      empty list. */
  function BindRequest(json: ChatRequestJson): (r: Result<ChatRequest, Error>)
    ensures r.Ok? <==> json.message.Some? && (json.chatHistory.Some? ==> BindHistory(json.chatHistory.value).Ok?)
    ensures r.Ok? ==> r.value.message == json.message.value
    ensures r.Ok? && json.chatHistory.None? ==> r.value.chatHistory == []
    ensures r.Ok? && json.chatHistory.Some? ==> Ok(r.value.chatHistory) == BindHistory(json.chatHistory.value)
    ensures json.message.None? && (json.chatHistory.Some? ==> BindHistory(json.chatHistory.value).Ok?)
            ==> r == Err(MissingRequired(["Message"]))
  {
    var history :- if json.chatHistory.Some? then BindHistory(json.chatHistory.value) else Ok([]);
    if json.message.None? then Err(MissingRequired(["Message"]))
    else Ok(ChatRequest(json.message.value, history))
  }

  /** The JSON body that carries `request` with every member present. */
  function ToJson(request: ChatRequest): ChatRequestJson
  {
    ChatRequestJson(Some(request.message),
      Some(seq(|request.chatHistory|, i requires 0 <= i < |request.chatHistory| =>
        var item := request.chatHistory[i];
        HistoryItemJson(Some(item.sender), Some(item.text), Some(item.timestamp)))))
  }

  /** Binding alone loses nothing: every request, whatever its texts and
      order, binds back to itself from its full JSON body. Whether it is then
      accepted is up to validation. */
  lemma BindRoundTrip(request: ChatRequest)
    ensures BindRequest(ToJson(request)) == Ok(request)
  {
    var items := ToJson(request).chatHistory.value;
    assert forall i :: 0 <= i < |items| ==> BindHistoryItem(items[i]) == Ok(request.chatHistory[i]);
    var bound := BindHistory(items);
    assert bound.Ok?;
    assert bound.value == request.chatHistory;
  }

  // ---- model validation ----

  /** `char.IsWhiteSpace`: the Unicode space, line and paragraph
      separators, the controls U+0009 to U+000D, and U+0085. */
  predicate IsWhiteSpace(c: char)
  {
    || '\U{0009}' <= c <= '\U{000D}' || c == ' ' || c == '\U{0085}' || c == '\U{00A0}' || c == '\U{1680}'
    || '\U{2000}' <= c <= '\U{200A}' || c == '\U{2028}' || c == '\U{2029}' || c == '\U{202F}' || c == '\U{205F}'
    || c == '\U{3000}'
  }

  /** `string.IsNullOrWhiteSpace` on a present string: empty, or white
      space only. */
  predicate IsBlank(s: string)
  {
    forall k :: 0 <= k < |s| ==> IsWhiteSpace(s[k])
  }

  /** What the implicit `[Required]` on each non-nullable string member
      demands: `Message`, and every item's `Sender` and `Text`, hold some
      text other than white space. */
  predicate IsValid(request: ChatRequest)
  {
    && !IsBlank(request.message)
    && forall i :: 0 <= i < |request.chatHistory| ==>
         !IsBlank(request.chatHistory[i].sender) && !IsBlank(request.chatHistory[i].text)
  }

  /** The validation errors of the item at `index`: `Sender`, then `Text`. */
  function ItemProblems(item: ChatHistoryItem, index: nat): (paths: seq<MemberPath>)
    ensures Item("ChatHistory", index, "Sender") in paths <==> IsBlank(item.sender)
    ensures Item("ChatHistory", index, "Text") in paths <==> IsBlank(item.text)
    ensures forall p :: p in paths ==> p.Item? && p.collection == "ChatHistory" && p.index == index
    ensures paths == [] <==> !IsBlank(item.sender) && !IsBlank(item.text)
  {
    (if IsBlank(item.sender) then [Item("ChatHistory", index, "Sender")] else [])
    + (if IsBlank(item.text) then [Item("ChatHistory", index, "Text")] else [])
  }

  /** Whether the history item at `index` has a blank `Sender` or `Text`
      is exactly whether the matching path is reported. */
  predicate ReportsItem(paths: seq<MemberPath>, item: ChatHistoryItem, index: nat)
  {
    && (Item("ChatHistory", index, "Sender") in paths <==> IsBlank(item.sender))
    && (Item("ChatHistory", index, "Text") in paths <==> IsBlank(item.text))
  }

  /** Putting an item's errors before those of later items keeps every
      item's report. */
  lemma ConsReports(items: seq<ChatHistoryItem>, offset: nat, rest: seq<MemberPath>)
    requires |items| > 0
    requires forall i :: 1 <= i < |items| ==> ReportsItem(rest, items[i], offset + i)
    requires forall p :: p in rest ==> p.Item? && offset < p.index
    ensures forall i :: 0 <= i < |items| ==> ReportsItem(ItemProblems(items[0], offset) + rest, items[i], offset + i)
  {
    var head := ItemProblems(items[0], offset);
    forall i | 0 <= i < |items|
      ensures ReportsItem(head + rest, items[i], offset + i)
    {
      if i == 0 {
        assert Item("ChatHistory", offset, "Sender") !in rest;
        assert Item("ChatHistory", offset, "Text") !in rest;
      } else {
        assert Item("ChatHistory", offset + i, "Sender") !in head;
        assert Item("ChatHistory", offset + i, "Text") !in head;
      }
    }
  }

  /** The validation errors of the history items, numbered from `offset`. */
  function HistoryProblems(items: seq<ChatHistoryItem>, offset: nat): (paths: seq<MemberPath>)
    ensures forall i :: 0 <= i < |items| ==> ReportsItem(paths, items[i], offset + i)
    ensures forall p :: p in paths ==>
              p.Item? && p.collection == "ChatHistory" && offset <= p.index < offset + |items|
    ensures paths == [] <==> forall i :: 0 <= i < |items| ==> !IsBlank(items[i].sender) && !IsBlank(items[i].text)
    decreases |items|
  {
    if |items| == 0 then []
    else
      var rest := HistoryProblems(items[1..], offset + 1);
      assert forall i :: 1 <= i < |items| ==> ReportsItem(rest, items[i], offset + i) by {
        forall i | 1 <= i < |items|
          ensures ReportsItem(rest, items[i], offset + i)
        {
          assert items[1..][i - 1] == items[i];
          assert offset + 1 + (i - 1) == offset + i;
        }
      }
      ConsReports(items, offset, rest);
      ItemProblems(items[0], offset) + rest
  }

  /** Model validation of a bound request: the request goes through
      untouched, or every blank required member is reported by its path. */
  function Validate(request: ChatRequest): (r: Result<ChatRequest, Error>)
    ensures r.Ok? <==> IsValid(request)
    ensures r.Ok? ==> r.value == request
    ensures r.Err? ==> r.error.Invalid? && r.error.paths != []
    ensures r.Err? ==> (Member("Message") in r.error.paths <==> IsBlank(request.message))
    ensures r.Err? ==> forall i :: 0 <= i < |request.chatHistory| ==>
              ReportsItem(r.error.paths, request.chatHistory[i], i)
  {
    var history := HistoryProblems(request.chatHistory, 0);
    assert forall i :: 0 <= i < |request.chatHistory| ==> ReportsItem(history, request.chatHistory[i], i) by {
      forall i | 0 <= i < |request.chatHistory|
        ensures ReportsItem(history, request.chatHistory[i], i)
      {
        assert ReportsItem(history, request.chatHistory[i], 0 + i);
      }
    }
    var paths := (if IsBlank(request.message) then [Member("Message")] else []) + history;
    if paths == [] then Ok(request) else Err(Invalid(paths))
  }

  /** What the action receives: the body is bound, then validated; a body
      that fails either step is answered with 400 before the action runs. */
  function Receive(json: ChatRequestJson): (r: Result<ChatRequest, Error>)
    ensures r.Ok? <==> BindRequest(json).Ok? && IsValid(BindRequest(json).value)
    ensures r.Ok? ==> r == BindRequest(json)
    ensures BindRequest(json).Err? ==> r == BindRequest(json)
    ensures BindRequest(json).Ok? && r.Err? ==> r.error.Invalid?
  {
    var request :- BindRequest(json);
    Validate(request)
  }

  /** A request whose required texts are not blank is received exactly as
      sent; one with a blank required text is never received at all. */
  lemma ReceiveRoundTrip(request: ChatRequest)
    ensures IsValid(request) ==> Receive(ToJson(request)) == Ok(request)
    ensures !IsValid(request) ==> Receive(ToJson(request)).Err? && Receive(ToJson(request)).error.Invalid?
  {
    BindRoundTrip(request);
  }

  /** An empty message and a white-space-only message are both rejected,
      though each binds. */
  lemma BlankMessagesRejected()
    ensures BindRequest(ChatRequestJson(Some(""), None)).Ok?
    ensures Receive(ChatRequestJson(Some(""), None)) == Err(Invalid([Member("Message")]))
    ensures Receive(ChatRequestJson(Some(" \t\n"), None)) == Err(Invalid([Member("Message")]))
    ensures Receive(ChatRequestJson(Some(" hi "), None)) == Ok(ChatRequest(" hi ", []))
  {
    var blank := " \t\n";
    assert blank[0] == ' ' && blank[1] == '\t' && blank[2] == '\n';
    assert IsBlank(blank);
    assert !IsBlank(" hi ") by { assert " hi "[1] == 'h'; }
    assert HistoryProblems([], 0) == [];
    assert [Member("Message")] + [] == [Member("Message")];
    assert BindRequest(ChatRequestJson(Some(""), None)) == Ok(ChatRequest("", []));
    assert BindRequest(ChatRequestJson(Some(blank), None)) == Ok(ChatRequest(blank, []));
  }
}
