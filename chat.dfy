/** The chat message list store of src/stores/chat.ts. Message ids, which
    the source draws from `crypto.randomUUID`, are inputs here. */
module Chat {
  import opened Wrappers

  datatype Sender = User | Ai

  datatype Mode = Default | Reason | Code

  /** A chat message; the optional members of the source are `Option`s.
      The timestamp is not modelled. */
  datatype Message = Message(
    id: string,
    sender: Sender,
    content: string,
    isStreaming: Option<bool>,
    interrupted: Option<bool>,
    tokenCount: Option<int>,
    model: Option<string>,
    mode: Option<Mode>)

  datatype ChatState = ChatState(
    messages: seq<Message>,
    isInitialState: bool,
    isLoading: bool,
    isStreaming: bool,
    isCreatingNewConversation: bool,
    currentStreamingId: Option<string>)

  const Initial := ChatState([], true, false, false, false, None)

  /** A message the user typed: only its id and text are set. */
  function UserMessage(id: string, content: string): (r: Message)
    ensures r.id == id && r.sender == User && r.content == content
    ensures r.isStreaming.None? && r.interrupted.None? && r.tokenCount.None? && r.model.None? && r.mode.None?
  {
    Message(id, User, content, None, None, None, None, None)
  }

  /** The empty, streaming answer `startAIResponse` appends. */
  function StreamingAiMessage(id: string, model: string, mode: Mode): (r: Message)
    ensures r.id == id && r.sender == Ai && r.content == "" && r.isStreaming == Some(true)
    ensures r.model == Some(model) && r.mode == Some(mode)
    ensures r.interrupted.None? && r.tokenCount.None?
  {
    Message(id, Ai, "", Some(true), None, None, Some(model), Some(mode))
  }

  /** `addUserMessage(content)`: one user message at the end. */
  function UserAdded(s: ChatState, id: string, content: string): (r: ChatState)
    ensures r.messages == s.messages + [UserMessage(id, content)] && !r.isInitialState
    ensures r == s.(messages := r.messages, isInitialState := false)
  {
    s.(messages := s.messages + [UserMessage(id, content)], isInitialState := false)
  }

  /** `startAIResponse(model, mode)`: one streaming answer at the end, and
      the store marked loading and streaming that answer. */
  function AiStarted(s: ChatState, id: string, model: string, mode: Mode): (r: ChatState)
    ensures r.messages == s.messages + [StreamingAiMessage(id, model, mode)]
    ensures r.isLoading && r.isStreaming && r.currentStreamingId == Some(id)
    ensures r.isInitialState == s.isInitialState && r.isCreatingNewConversation == s.isCreatingNewConversation
  {
    s.(messages := s.messages + [StreamingAiMessage(id, model, mode)],
       isLoading := true, isStreaming := true, currentStreamingId := Some(id))
  }

  /** The three ways the store edits one message. */
  datatype Edit = SetContent(content: string) | Finish(tokenCount: int) | Interrupt

  function ApplyEdit(m: Message, e: Edit): (r: Message)
    ensures r.id == m.id && r.sender == m.sender && r.model == m.model && r.mode == m.mode
  {
    match e
    case SetContent(content) => m.(content := content)
    case Finish(tokenCount) => m.(isStreaming := Some(false), tokenCount := Some(tokenCount))
    case Interrupt => m.(isStreaming := Some(false), interrupted := Some(true))
  }

  /** `messages.map(msg => msg.id === id ? edited : msg)`. */
  function EditMatching(msgs: seq<Message>, id: string, e: Edit): (r: seq<Message>)
    ensures |r| == |msgs|
    ensures forall i :: 0 <= i < |msgs| ==> r[i] == if msgs[i].id == id then ApplyEdit(msgs[i], e) else msgs[i]
  {
    if msgs == [] then []
    else [if msgs[0].id == id then ApplyEdit(msgs[0], e) else msgs[0]] + EditMatching(msgs[1..], id, e)
  }

  /** `updateStreamingMessage(id, content)`: only the content of the
      messages with that id changes. */
  function ContentUpdated(s: ChatState, id: string, content: string): (r: ChatState)
    ensures |r.messages| == |s.messages|
    ensures forall i :: 0 <= i < |s.messages| ==>
              r.messages[i] == if s.messages[i].id == id then s.messages[i].(content := content) else s.messages[i]
    ensures r == s.(messages := r.messages)
  {
    s.(messages := EditMatching(s.messages, id, SetContent(content)))
  }

  /** The flags both `finishStreaming` and `interruptStreaming` clear. */
  function StreamEnded(s: ChatState, msgs: seq<Message>): (r: ChatState)
    ensures !r.isLoading && !r.isStreaming && r.currentStreamingId.None?
    ensures r.messages == msgs && r.isInitialState == s.isInitialState
    ensures r.isCreatingNewConversation == s.isCreatingNewConversation
  {
    s.(messages := msgs, currentStreamingId := None, isLoading := false, isStreaming := false)
  }

  /** Streaming content into the answer being streamed, then finishing it,
      leaves the answer with that content, not streaming, with its token
      count, and the store idle. */
  lemma StreamThenFinish(s: ChatState, id: string, content: string, tokens: int, i: nat)
    requires i < |s.messages| && s.messages[i].id == id
    ensures var r := StreamEnded(ContentUpdated(s, id, content), EditMatching(ContentUpdated(s, id, content).messages, id, Finish(tokens)));
            r.messages[i] == s.messages[i].(content := content, isStreaming := Some(false), tokenCount := Some(tokens)) &&
            !r.isLoading && !r.isStreaming && r.currentStreamingId.None?
  {
  }

  /** `findIndex(msg => msg.id === id)`: the first index with that id, or -1. */
  function FindIndex(msgs: seq<Message>, id: string): (r: int)
    ensures -1 <= r < |msgs|
    ensures r == -1 <==> forall i :: 0 <= i < |msgs| ==> msgs[i].id != id
    ensures r >= 0 ==> msgs[r].id == id && forall i :: 0 <= i < r ==> msgs[i].id != id
  {
    if msgs == [] then -1
    else if msgs[0].id == id then 0
    else
      var k := FindIndex(msgs[1..], id);
      if k == -1 then -1 else k + 1
  }

  /** `regenerateAIResponse(id)`: when the message with that id has a user
      message right before it, remove it and answer that message's text;
      otherwise change nothing and answer `''`. The kind of the removed
      message itself is not checked. */
  function Regenerated(s: ChatState, id: string): (r: (ChatState, string))
    ensures var k := FindIndex(s.messages, id);
            if k > 0 && s.messages[k - 1].sender == User then
              r.0 == s.(messages := s.messages[..k] + s.messages[k + 1..]) && r.1 == s.messages[k - 1].content
            else r == (s, "")
  {
    var k := FindIndex(s.messages, id);
    if k > 0 && s.messages[k - 1].sender == User then
      (s.(messages := s.messages[..k] + s.messages[k + 1..]), s.messages[k - 1].content)
    else (s, "")
  }

  /** Asking a question and starting its answer, then regenerating that
      answer, removes exactly the answer and hands back the question. */
  lemma RegenerateLastAnswer(s: ChatState, userId: string, prompt: string, aiId: string, model: string, mode: Mode)
    requires aiId != userId && forall i :: 0 <= i < |s.messages| ==> s.messages[i].id != aiId
    ensures var asked := UserAdded(s, userId, prompt);
            var started := AiStarted(asked, aiId, model, mode);
            Regenerated(started, aiId) == (started.(messages := asked.messages), prompt)
  {
    var asked := UserAdded(s, userId, prompt);
    var started := AiStarted(asked, aiId, model, mode);
    var n := |s.messages|;
    assert started.messages[n + 1].id == aiId;
    assert forall i :: 0 <= i < n + 1 ==> started.messages[i].id != aiId by {
      forall i | 0 <= i < n + 1
        ensures started.messages[i].id != aiId
      {
        if i < n {
          assert started.messages[i] == s.messages[i];
        }
      }
    }
    assert FindIndex(started.messages, aiId) == n + 1;
    assert started.messages[..n + 1] + started.messages[n + 2..] == asked.messages;
  }

  /** A stored exchange: the prompt and the response as saved. */
  datatype Record = Record(prompt: string, response: string)

  /** What `JSON.parse` makes of a response: `Some(keys)` when it yields a
      non-null object whose property names (for the `in` operator) are
      `keys`, `None` when it throws or yields anything else. */
  type JsonOracle = string -> Option<set<string>>

  /** Code mode for a response that parses to an object with a `Files` or
      a `Conclusion` member, default mode otherwise. */
  function ResponseMode(response: string, parse: JsonOracle): Mode {
    var parsed := parse(response);
    if parsed.Some? && ("Files" in parsed.value || "Conclusion" in parsed.value) then Code else Default
  }

  /** The two messages one record becomes. */
  function Exchange(rec: Record, ids: (string, string), parse: JsonOracle): seq<Message> {
    [UserMessage(ids.0, rec.prompt), AnswerMessage(rec, ids.1, parse)]
  }

  /** The stored answer of a record, as a finished message from the model. */
  function AnswerMessage(rec: Record, id: string, parse: JsonOracle): (r: Message)
    ensures r.id == id && r.sender == Ai && r.content == rec.response && r.isStreaming.None? && r.model.None?
    ensures r.mode == Some(Code) <==>
              parse(rec.response).Some? && ("Files" in parse(rec.response).value || "Conclusion" in parse(rec.response).value)
    ensures r.mode == Some(Default) || r.mode == Some(Code)
  {
    Message(id, Ai, rec.response, None, None, None, None, Some(ResponseMode(rec.response, parse)))
  }

  /** The list `loadSessionMessages` builds: two messages per record, user
      then answer, in record order. */
  function SessionMessages(records: seq<Record>, ids: seq<(string, string)>, parse: JsonOracle): (r: seq<Message>)
    requires |ids| == |records|
    ensures |r| == 2 * |records|
  {
    if records == [] then []
    else
      var n := |records| - 1;
      SessionMessages(records[..n], ids[..n], parse) + Exchange(records[n], ids[n], parse)
  }

  /** Record `i` gives messages `2 * i` (the prompt, from the user) and
      `2 * i + 1` (the response, from the model), with the ids given for it. */
  lemma {:induction false} SessionMessagesSpec(records: seq<Record>, ids: seq<(string, string)>, parse: JsonOracle)
    requires |ids| == |records|
    ensures var r := SessionMessages(records, ids, parse);
            && (forall i :: 0 <= i < |records| ==> r[2 * i] == UserMessage(ids[i].0, records[i].prompt))
            && (forall i :: 0 <= i < |records| ==> r[2 * i + 1] == AnswerMessage(records[i], ids[i].1, parse))
  {
    if records != [] {
      var n := |records| - 1;
      var front := SessionMessages(records[..n], ids[..n], parse);
      var r := SessionMessages(records, ids, parse);
      SessionMessagesSpec(records[..n], ids[..n], parse);
      assert r == front + Exchange(records[n], ids[n], parse);
      forall i | 0 <= i < |records|
        ensures r[2 * i] == UserMessage(ids[i].0, records[i].prompt)
        ensures r[2 * i + 1] == AnswerMessage(records[i], ids[i].1, parse)
      {
        if i < n {
          assert records[..n][i] == records[i] && ids[..n][i] == ids[i];
          assert r[2 * i] == front[2 * i] && r[2 * i + 1] == front[2 * i + 1];
        }
      }
    }
  }

  /** The state after `loadSessionMessages`. */
  function SessionLoaded(s: ChatState, msgs: seq<Message>): (r: ChatState)
    ensures r.messages == msgs && (r.isInitialState <==> msgs == [])
    ensures !r.isLoading && !r.isStreaming && !r.isCreatingNewConversation && r.currentStreamingId.None?
  {
    ChatState(msgs, |msgs| == 0, false, false, false, None)
  }

  /** `clearMessages()`: the initial state. */
  function Cleared(s: ChatState): (r: ChatState)
    ensures r == Initial
  {
    s.(messages := [], isInitialState := true, isLoading := false, isStreaming := false,
       isCreatingNewConversation := false, currentStreamingId := None)
  }

  class ChatStore {
    var state: ChatState

    constructor ()
      ensures state == Initial
    {
      state := Initial;
    }

    method AddUserMessage(messageId: string, content: string) returns (id: string)
      modifies this
      ensures state == UserAdded(old(state), messageId, content) && id == messageId
    {
      state := state.(messages := state.messages + [UserMessage(messageId, content)], isInitialState := false);
      id := messageId;
    }

    method StartAIResponse(messageId: string, model: string, mode: Mode) returns (id: string)
      modifies this
      ensures state == AiStarted(old(state), messageId, model, mode) && id == messageId
    {
      state := state.(messages := state.messages + [StreamingAiMessage(messageId, model, mode)],
                      isLoading := true, isStreaming := true, currentStreamingId := Some(messageId));
      id := messageId;
    }

    method UpdateStreamingMessage(messageId: string, content: string)
      modifies this
      ensures state == ContentUpdated(old(state), messageId, content)
    {
      state := state.(messages := EditMatching(state.messages, messageId, SetContent(content)));
    }

    method FinishStreaming(messageId: string, tokenCount: int)
      modifies this
      ensures state == StreamEnded(old(state), EditMatching(old(state.messages), messageId, Finish(tokenCount)))
    {
      var msgs := EditMatching(state.messages, messageId, Finish(tokenCount));
      state := state.(messages := msgs, currentStreamingId := None, isLoading := false, isStreaming := false);
    }

    method InterruptStreaming(messageId: string)
      modifies this
      ensures state == StreamEnded(old(state), EditMatching(old(state.messages), messageId, Interrupt))
    {
      var msgs := EditMatching(state.messages, messageId, Interrupt);
      state := state.(messages := msgs, currentStreamingId := None, isLoading := false, isStreaming := false);
    }

    method RegenerateAIResponse(aiMessageId: string) returns (userPrompt: string)
      modifies this
      ensures (state, userPrompt) == Regenerated(old(state), aiMessageId)
    {
      userPrompt := "";
      var aiMessageIndex := FindIndex(state.messages, aiMessageId);
      if aiMessageIndex > 0 && state.messages[aiMessageIndex - 1].sender == User {
        userPrompt := state.messages[aiMessageIndex - 1].content;
        state := state.(messages := state.messages[..aiMessageIndex] + state.messages[aiMessageIndex + 1..]);
      }
    }

    method SetLoading(loading: bool)
      modifies this
      ensures state == old(state).(isLoading := loading)
    {
      state := state.(isLoading := loading);
    }

    method SetCreatingNewConversation(isCreating: bool)
      modifies this
      ensures state == old(state).(isCreatingNewConversation := isCreating)
    {
      state := state.(isCreatingNewConversation := isCreating);
    }

    method ClearMessages()
      modifies this
      ensures state == Cleared(old(state))
    {
      state := state.(messages := [], isInitialState := true, isLoading := false, isStreaming := false,
                      isCreatingNewConversation := false, currentStreamingId := None);
    }

    /** `loadSessionMessages(records)`: the `forEach` loop pushing two
        messages per record, then one update of the store. */
    method LoadSessionMessages(records: seq<Record>, ids: seq<(string, string)>, parse: JsonOracle)
      requires |ids| == |records|
      modifies this
      ensures state == SessionLoaded(old(state), SessionMessages(records, ids, parse))
    {
      var chatMessages: seq<Message> := [];
      var i := 0;
      while i < |records|
        invariant 0 <= i <= |records|
        invariant chatMessages == SessionMessages(records[..i], ids[..i], parse)
      {
        var msg := records[i];
        ghost var before := chatMessages;
        chatMessages := chatMessages + [UserMessage(ids[i].0, msg.prompt)];
        var mode := Default;
        var parsed := parse(msg.response);
        if parsed.Some? && ("Files" in parsed.value || "Conclusion" in parsed.value) {
          mode := Code;
        }
        chatMessages := chatMessages + [Message(ids[i].1, Ai, msg.response, None, None, None, None, Some(mode))];
        assert chatMessages == before + Exchange(records[i], ids[i], parse);
        assert SessionMessages(records[..i + 1], ids[..i + 1], parse) ==
               SessionMessages(records[..i], ids[..i], parse) + Exchange(records[i], ids[i], parse) by {
          assert records[..i + 1][..i] == records[..i] && ids[..i + 1][..i] == ids[..i];
        }
        i := i + 1;
      }
      assert records[..i] == records && ids[..i] == ids;
      state := ChatState(chatMessages, |chatMessages| == 0, false, false, false, None);
    }
  }
}
