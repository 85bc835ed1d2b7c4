/** The email tool store of src/stores/emailTool.ts. Each email tool run is
    kept under the id of the chat message that started it; progress events
    go to the active run, and events that arrive while no run is active are
    buffered and replayed when the next run starts. */
module EmailTool {
  import opened Wrappers

  /** The approval request of the source, member by member. */
  datatype Approval = Approval(operation: string, to: seq<string>, subject: string, body: string,
                               cc: seq<string>, bcc: seq<string>, reasoning: string)

  datatype ToolResult = ToolResult(success: bool, summary: Option<string>, totalIterations: Option<int>,
                                   message: Option<string>, cancelled: Option<bool>)

  /** One iteration of the tool, with the approval tied to it, if any. */
  datatype Step = Step(iteration: int, reasoning: string, isTyping: bool, isComplete: bool, approval: Option<Approval>)

  datatype ToolState = ToolState(
    messageId: string,
    isActive: bool,
    currentIteration: int,
    iterations: seq<Step>,
    needsAuth: bool,
    authMessage: Option<string>,
    needsApproval: bool,
    approvalData: Option<Approval>,
    isCompleted: bool,
    result: Option<ToolResult>,
    error: Option<string>)

  /** The five events, as the store methods receive them and as the buffer
      keeps them. */
  datatype Event =
    | NeedsAuth(needsAuth: bool, message: Option<string>)
    | Progress(iteration: int, reasoning: string)
    | NeedsApproval(needsApproval: bool, data: Option<Approval>)
    | Completed(result: ToolResult)
    | Failed(error: string)

  /** `createInitialState(messageId)`. */
  function InitialState(messageId: string): (r: ToolState)
    ensures r.messageId == messageId && r.isActive && r.currentIteration == 0 && r.iterations == []
    ensures !r.needsAuth && !r.needsApproval && !r.isCompleted
    ensures r.authMessage.None? && r.approvalData.None? && r.result.None? && r.error.None?
  {
    ToolState(messageId, true, 0, [], false, None, false, None, false, None, None)
  }

  // ---------------------------------------------------------------------
  // The reducers on one run's state
  // ---------------------------------------------------------------------

  /** `iterations.findIndex(i => i.iteration === n)`. */
  function FindStep(steps: seq<Step>, n: int): (r: int)
    ensures -1 <= r < |steps|
    ensures r == -1 <==> forall i :: 0 <= i < |steps| ==> steps[i].iteration != n
    ensures r >= 0 ==> steps[r].iteration == n && forall i :: 0 <= i < r ==> steps[i].iteration != n
  {
    if steps == [] then -1
    else if steps[0].iteration == n then 0
    else
      var k := FindStep(steps[1..], n);
      if k == -1 then -1 else k + 1
  }

  /** Every step complete and no longer typing. */
  function CompleteAll(steps: seq<Step>): (r: seq<Step>)
    ensures |r| == |steps|
    ensures forall i :: 0 <= i < |steps| ==> r[i] == steps[i].(isTyping := false, isComplete := true)
  {
    if steps == [] then [] else [steps[0].(isTyping := false, isComplete := true)] + CompleteAll(steps[1..])
  }

  /** Every step without its approval. */
  function ClearApprovals(steps: seq<Step>): (r: seq<Step>)
    ensures |r| == |steps|
    ensures forall i :: 0 <= i < |steps| ==> r[i] == steps[i].(approval := None)
  {
    if steps == [] then [] else [steps[0].(approval := None)] + ClearApprovals(steps[1..])
  }

  /** `setNeedsAuth(needsAuth, message)`; asking for authorization clears
      the error. */
  function AuthSet(st: ToolState, needsAuth: bool, message: Option<string>): (r: ToolState)
    ensures r.needsAuth == needsAuth && r.authMessage == message
    ensures r.error == if needsAuth then None else st.error
    ensures r == st.(needsAuth := needsAuth, authMessage := message, error := r.error)
  {
    st.(needsAuth := needsAuth, authMessage := message, error := if needsAuth then None else st.error)
  }

  /** `setProgress(n, reasoning)`: a known iteration gets the new reasoning
      and types again; a new one completes all earlier steps and is
      appended, typing and incomplete. Either way `n` is the current
      iteration and authorization is no longer asked for. */
  function ProgressSet(st: ToolState, n: int, reasoning: string): (r: ToolState)
    ensures r.currentIteration == n && !r.needsAuth
    ensures r == st.(currentIteration := n, iterations := r.iterations, needsAuth := false)
    ensures var k := FindStep(st.iterations, n);
            k >= 0 ==> r.iterations == st.iterations[k := st.iterations[k].(reasoning := reasoning, isTyping := true)]
    ensures FindStep(st.iterations, n) == -1 ==>
              r.iterations == CompleteAll(st.iterations) + [Step(n, reasoning, true, false, None)]
  {
    var k := FindStep(st.iterations, n);
    var steps := if k >= 0 then st.iterations[k := st.iterations[k].(reasoning := reasoning, isTyping := true)]
                 else CompleteAll(st.iterations) + [Step(n, reasoning, true, false, None)];
    st.(currentIteration := n, iterations := steps, needsAuth := false)
  }

  /** `setNeedsApproval(needsApproval, data)`: a request is tied to the last
      step, which stops typing; withdrawing it removes the approval from
      every step. */
  function ApprovalSet(st: ToolState, needsApproval: bool, data: Option<Approval>): (r: ToolState)
    ensures r.needsApproval == needsApproval && r.approvalData == data
    ensures r == st.(needsApproval := needsApproval, approvalData := data, iterations := r.iterations)
    ensures |r.iterations| == |st.iterations|
    ensures needsApproval && data.Some? && st.iterations != [] ==>
              var last := |st.iterations| - 1;
              r.iterations == st.iterations[last := st.iterations[last].(approval := data, isTyping := false)]
    ensures needsApproval && (data.None? || st.iterations == []) ==> r.iterations == st.iterations
    ensures !needsApproval ==> forall i :: 0 <= i < |r.iterations| ==> r.iterations[i] == st.iterations[i].(approval := None)
  {
    var steps := st.iterations;
    var steps1 := if needsApproval && data.Some? && |steps| > 0
                  then steps[|steps| - 1 := steps[|steps| - 1].(approval := data, isTyping := false)]
                  else steps;
    var steps2 := if !needsApproval && |steps1| > 0 then ClearApprovals(steps1) else steps1;
    st.(needsApproval := needsApproval, approvalData := data, iterations := steps2)
  }

  /** `setCompleted(result)`. */
  function CompletedSet(st: ToolState, result: ToolResult): (r: ToolState)
    ensures !r.isActive && r.isCompleted && r.result == Some(result)
    ensures !r.needsAuth && !r.needsApproval && r.approvalData.None?
    ensures r.iterations == CompleteAll(st.iterations)
    ensures r.messageId == st.messageId && r.currentIteration == st.currentIteration && r.error == st.error
    ensures r.authMessage == st.authMessage
  {
    st.(isActive := false, isCompleted := true, result := Some(result), needsAuth := false,
        needsApproval := false, approvalData := None, iterations := CompleteAll(st.iterations))
  }

  /** `setError(error)`. */
  function ErrorSet(st: ToolState, error: string): (r: ToolState)
    ensures !r.isActive && r.error == Some(error) && !r.needsAuth && !r.needsApproval
    ensures r == st.(isActive := false, error := Some(error), needsAuth := false, needsApproval := false)
  {
    st.(isActive := false, error := Some(error), needsAuth := false, needsApproval := false)
  }

  /** The reducer an event stands for. */
  function Reduce(st: ToolState, e: Event): (r: ToolState)
    ensures r.messageId == st.messageId
    ensures Terminal(e) ==> !r.isActive
    ensures e.Completed? ==> r.isCompleted && r.result == Some(e.result)
    ensures e.Failed? ==> r.error == Some(e.error)
  {
    match e
    case NeedsAuth(needsAuth, message) => AuthSet(st, needsAuth, message)
    case Progress(n, reasoning) => ProgressSet(st, n, reasoning)
    case NeedsApproval(needsApproval, data) => ApprovalSet(st, needsApproval, data)
    case Completed(result) => CompletedSet(st, result)
    case Failed(error) => ErrorSet(st, error)
  }

  /** A completed or failed run: the two events after which the store
      forgets the active id. */
  predicate Terminal(e: Event) {
    e.Completed? || e.Failed?
  }

  // ---------------------------------------------------------------------
  // The whole store
  // ---------------------------------------------------------------------

  /** The state map and the two closure variables. */
  datatype Store = Store(states: map<string, ToolState>, activeId: Option<string>, buffer: seq<Event>)

  const Empty := Store(map[], None, [])

  /** `if (!messageId)`: no id, or the empty (falsy) id, routes to the
      buffer. */
  predicate HasActive(s: Store) {
    s.activeId.Some? && s.activeId.value != ""
  }

  /** What each of the five event methods does to the store: buffer the
      event when no run is active; otherwise reduce the active run's state
      if it has one (and leave the map alone if not), and forget the active
      id after a terminal event. */
  function Dispatch(s: Store, e: Event): (r: Store)
    ensures !HasActive(s) ==> r == s.(buffer := s.buffer + [e])
    ensures HasActive(s) ==> r.buffer == s.buffer
    ensures HasActive(s) ==> r.activeId == if Terminal(e) then None else s.activeId
    ensures HasActive(s) && s.activeId.value !in s.states ==> r.states == s.states
    ensures HasActive(s) && s.activeId.value in s.states ==>
              r.states == s.states[s.activeId.value := Reduce(s.states[s.activeId.value], e)]
  {
    if !HasActive(s) then s.(buffer := s.buffer + [e])
    else
      var id := s.activeId.value;
      var states := if id in s.states then s.states[id := Reduce(s.states[id], e)] else s.states;
      Store(states, if Terminal(e) then None else s.activeId, s.buffer)
  }

  /** The events dispatched one after the other. */
  function DispatchAll(s: Store, events: seq<Event>): (r: Store)
    ensures r.states.Keys == s.states.Keys
    ensures |s.buffer| <= |r.buffer| && r.buffer[..|s.buffer|] == s.buffer
    decreases |events|
  {
    if events == [] then s
    else Dispatch(DispatchAll(s, events[..|events| - 1]), events[|events| - 1])
  }

  /** `start(id)`: install a fresh state under `id`, make it active, then
      replay the buffered events in order with an empty buffer. */
  function Started(s: Store, id: string): (r: Store)
    ensures id != "" && s.buffer == [] ==> r == Store(s.states[id := InitialState(id)], Some(id), [])
  {
    DispatchAll(Store(s.states[id := InitialState(id)], Some(id), []), s.buffer)
  }

  /** `reset(id)`: drop that run's state only, and the active id if it
      was this run's. */
  function ResetRun(s: Store, id: string): (r: Store)
    ensures r.states.Keys == s.states.Keys - {id}
    ensures forall k :: k in r.states ==> r.states[k] == s.states[k]
    ensures r.activeId == if s.activeId == Some(id) then None else s.activeId
    ensures r.buffer == s.buffer
  {
    Store(s.states - {id}, if s.activeId == Some(id) then None else s.activeId, s.buffer)
  }

  /** `getState(id)`. */
  function GetState(s: Store, id: string): (r: Option<ToolState>)
    ensures r.Some? <==> id in s.states
    ensures r.Some? ==> r.value == s.states[id]
  {
    if id in s.states then Some(s.states[id]) else None
  }

  // ---------------------------------------------------------------------
  // Properties
  // ---------------------------------------------------------------------

  /** With no active run, events only pile up in the buffer, in order. */
  lemma {:induction false} InactiveBuffers(s: Store, events: seq<Event>)
    requires !HasActive(s)
    ensures DispatchAll(s, events) == s.(buffer := s.buffer + events)
    decreases |events|
  {
    if events != [] {
      var n := |events| - 1;
      InactiveBuffers(s, events[..n]);
      assert s.buffer + events[..n] + [events[n]] == s.buffer + events;
    }
  }

  /** Dispatching a sequence in two parts is dispatching it whole. */
  lemma {:induction false} DispatchAllAppend(s: Store, a: seq<Event>, b: seq<Event>)
    ensures DispatchAll(DispatchAll(s, a), b) == DispatchAll(s, a + b)
    decreases |b|
  {
    if b == [] {
      assert a + b == a;
    } else {
      var n := |b| - 1;
      DispatchAllAppend(s, a, b[..n]);
      assert (a + b)[..|a + b| - 1] == a + b[..n];
    }
  }

  /** The buffer does what it is there for: events that arrive before
      `start` end up exactly as if they had arrived after it. */
  lemma EarlyEventsReplayed(s: Store, id: string, events: seq<Event>)
    requires !HasActive(s) && s.buffer == []
    ensures Started(DispatchAll(s, events), id) == DispatchAll(Started(s, id), events)
  {
    InactiveBuffers(s, events);
    assert s.buffer + events == events;
  }

  /** While no event ends the run, the active run keeps the focus and the
      buffer is untouched. */
  lemma {:induction false} ActiveStaysActive(s: Store, events: seq<Event>)
    requires HasActive(s)
    requires forall i :: 0 <= i < |events| ==> !Terminal(events[i])
    ensures DispatchAll(s, events).activeId == s.activeId && DispatchAll(s, events).buffer == s.buffer
    decreases |events|
  {
    if events != [] {
      ActiveStaysActive(s, events[..|events| - 1]);
    }
  }

  /** A terminal event in the middle of a replay ends the run, and the
      events after it go back into the buffer. */
  lemma ReplayStopsAtTerminal(s: Store, id: string, result: ToolResult, e: Event)
    requires id != "" && s.buffer == [Completed(result), e]
    ensures Started(s, id).activeId.None?
    ensures Started(s, id).buffer == [e]
    ensures id in Started(s, id).states && Started(s, id).states[id].isCompleted
  {
    var base := Store(s.states[id := InitialState(id)], Some(id), []);
    var b1 := Dispatch(base, Completed(result));
    assert DispatchAll(base, [Completed(result)]) == b1 by {
      assert [Completed(result)][..0] == [];
    }
    assert Started(s, id) == Dispatch(b1, e) by {
      assert s.buffer[..1] == [Completed(result)];
    }
  }

  /** Two progress events for new iterations: the first step is completed
      when the second one starts typing. */
  lemma TwoIterations(id: string, a: string, b: string)
    requires id != ""
    ensures var s := DispatchAll(Started(Empty, id), [Progress(1, a), Progress(2, b)]);
            id in s.states &&
            s.states[id].iterations == [Step(1, a, false, true, None), Step(2, b, true, false, None)] &&
            s.states[id].currentIteration == 2
  {
    var s0 := Started(Empty, id);
    assert s0 == Store(map[id := InitialState(id)], Some(id), []);
    var evs := [Progress(1, a), Progress(2, b)];
    assert evs[..1] == [Progress(1, a)] && evs[..1][..0] == [];
    var s1 := Dispatch(s0, Progress(1, a));
    assert DispatchAll(s0, evs[..1]) == s1;
    assert s1.states[id].iterations == [Step(1, a, true, false, None)];
    assert FindStep(s1.states[id].iterations, 2) == -1;
    assert CompleteAll([Step(1, a, true, false, None)]) == [Step(1, a, false, true, None)];
  }

  // ---------------------------------------------------------------------
  // The store object
  // ---------------------------------------------------------------------

  class EmailToolStore {
    var states: map<string, ToolState>
    var activeEmailToolId: Option<string>
    var eventBuffer: seq<Event>

    function Snapshot(): Store
      reads this
    {
      Store(states, activeEmailToolId, eventBuffer)
    }

    constructor ()
      ensures Snapshot() == Empty
    {
      states := map[];
      activeEmailToolId := None;
      eventBuffer := [];
    }

    method GetActiveId() returns (id: Option<string>)
      ensures id == activeEmailToolId
    {
      id := activeEmailToolId;
    }

    method SetActiveId(id: Option<string>)
      modifies this
      ensures Snapshot() == old(Snapshot()).(activeId := id)
    {
      activeEmailToolId := id;
    }

    /** `addToBuffer(event)`; the five-second expiry is `ExpireBuffer`. */
    method AddToBuffer(e: Event)
      modifies this
      ensures Snapshot() == old(Snapshot()).(buffer := old(eventBuffer) + [e])
    {
      eventBuffer := eventBuffer + [e];
    }

    /** `clearBuffer()`, which the buffer timeout also runs. */
    method ExpireBuffer()
      modifies this
      ensures Snapshot() == old(Snapshot()).(buffer := [])
    {
      eventBuffer := [];
    }

    /** Reduce the active run's state, if it has one. */
    method UpdateActive(id: string, e: Event)
      modifies this
      ensures states == if id in old(states) then old(states)[id := Reduce(old(states)[id], e)] else old(states)
      ensures activeEmailToolId == old(activeEmailToolId) && eventBuffer == old(eventBuffer)
    {
      if id !in states {
        return;
      }
      states := states[id := Reduce(states[id], e)];
    }

    method SetNeedsAuth(needsAuth: bool, message: Option<string>)
      modifies this
      ensures Snapshot() == Dispatch(old(Snapshot()), NeedsAuth(needsAuth, message))
    {
      var messageId := activeEmailToolId;
      if messageId.None? || messageId.value == "" {
        AddToBuffer(NeedsAuth(needsAuth, message));
        return;
      }
      UpdateActive(messageId.value, NeedsAuth(needsAuth, message));
    }

    method SetProgress(iteration: int, reasoning: string)
      modifies this
      ensures Snapshot() == Dispatch(old(Snapshot()), Progress(iteration, reasoning))
    {
      var messageId := activeEmailToolId;
      if messageId.None? || messageId.value == "" {
        AddToBuffer(Progress(iteration, reasoning));
        return;
      }
      UpdateActive(messageId.value, Progress(iteration, reasoning));
    }

    method SetNeedsApproval(needsApproval: bool, data: Option<Approval>)
      modifies this
      ensures Snapshot() == Dispatch(old(Snapshot()), NeedsApproval(needsApproval, data))
    {
      var messageId := activeEmailToolId;
      if messageId.None? || messageId.value == "" {
        AddToBuffer(NeedsApproval(needsApproval, data));
        return;
      }
      UpdateActive(messageId.value, NeedsApproval(needsApproval, data));
    }

    method SetCompleted(result: ToolResult)
      modifies this
      ensures Snapshot() == Dispatch(old(Snapshot()), Completed(result))
    {
      var messageId := activeEmailToolId;
      if messageId.None? || messageId.value == "" {
        AddToBuffer(Completed(result));
        return;
      }
      UpdateActive(messageId.value, Completed(result));
      activeEmailToolId := None;
    }

    method SetError(error: string)
      modifies this
      ensures Snapshot() == Dispatch(old(Snapshot()), Failed(error))
    {
      var messageId := activeEmailToolId;
      if messageId.None? || messageId.value == "" {
        AddToBuffer(Failed(error));
        return;
      }
      UpdateActive(messageId.value, Failed(error));
      activeEmailToolId := None;
    }

    /** The `switch` of `replayBuffer`. */
    method Handle(e: Event)
      modifies this
      ensures Snapshot() == Dispatch(old(Snapshot()), e)
    {
      match e
      case NeedsAuth(needsAuth, message) => SetNeedsAuth(needsAuth, message);
      case Progress(n, reasoning) => SetProgress(n, reasoning);
      case NeedsApproval(needsApproval, data) => SetNeedsApproval(needsApproval, data);
      case Completed(result) => SetCompleted(result);
      case Failed(error) => SetError(error);
    }

    /** `start(id)`, with the deferred replay run right away. */
    method Start(messageId: string)
      modifies this
      ensures Snapshot() == Started(old(Snapshot()), messageId)
    {
      activeEmailToolId := Some(messageId);
      states := states[messageId := InitialState(messageId)];
      ReplayBuffer();
    }

    /** `replayBuffer`: take the buffered events, clear the buffer, and
        hand each event to its method again. */
    method ReplayBuffer()
      modifies this
      ensures Snapshot() == DispatchAll(old(Snapshot()).(buffer := []), old(eventBuffer))
    {
      if |eventBuffer| == 0 {
        return;
      }
      var eventsToReplay := eventBuffer;
      ExpireBuffer();
      ghost var base := Snapshot();
      for i := 0 to |eventsToReplay|
        invariant Snapshot() == DispatchAll(base, eventsToReplay[..i])
      {
        Handle(eventsToReplay[i]);
        assert eventsToReplay[..i + 1][..i] == eventsToReplay[..i];
      }
      assert eventsToReplay[..|eventsToReplay|] == eventsToReplay;
    }

    method GetStateOf(messageId: string) returns (r: Option<ToolState>)
      ensures r == GetState(Snapshot(), messageId)
    {
      r := if messageId in states then Some(states[messageId]) else None;
    }

    method Reset(messageId: string)
      modifies this
      ensures Snapshot() == ResetRun(old(Snapshot()), messageId)
    {
      states := states - {messageId};
      if activeEmailToolId == Some(messageId) {
        activeEmailToolId := None;
      }
    }

    method ClearAll()
      modifies this
      ensures Snapshot() == Empty
    {
      states := map[];
      activeEmailToolId := None;
      ExpireBuffer();
    }
  }
}
