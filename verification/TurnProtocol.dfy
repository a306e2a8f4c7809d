/**
  * Turns as tasks. Each turn has a send task that first waits for the send task of the turn it
  * cancelled, which it owns, then runs the turn's body, and leaves a response for the turn's
  * completion handler. Dropping a task drops what it owns.
  */
module TurnProtocol {
  import opened Wrappers
  import TextStream
  import opened Messages
  import ToolCalls
  import TerminalRegistry
  import opened AgentThread

  /** What a turn's body does: it puts its message and prompts the agent, or it retries. */
  datatype Work = Sending(id: Option<MessageId>, content: Block, chunks: seq<Chunk>) | Retrying

  datatype Stage = Waiting | Running | Finished(response: Response)

  datatype SendTask = SendTask(waitsFor: Option<TurnId>, work: Work, stage: Stage, handled: bool)

  datatype System = System(
    thread: Thread,
    tasks: map<TurnId, SendTask>,
    /** The turns whose send task is owned by the result of an explicit cancel. */
    held: set<TurnId>,
    /** The turns whose bodies have started, in the order they did. */
    log: seq<TurnId>,
    /** For each entry of the thread, the turn whose body put it there. */
    tags: seq<Option<TurnId>>,
    /** The turns whose message was in the thread and has been cut off it since. */
    removed: set<TurnId>)

  const IDLE := System(NEW_THREAD, map[], {}, [], [], {})

  datatype Event =
    | Send(id: Option<MessageId>, message: seq<Chunk>)
    | Retry
    | CancelExplicitly
    | DropCancel(turn: TurnId)
    | StartBody(turn: TurnId)
    | EndBody(turn: TurnId, response: Response)
    | Handle(turn: TurnId)
    | Other(op: Op)

  predicate IsLive(tasks: map<TurnId, SendTask>, k: TurnId) {
    k in tasks && !tasks[k].stage.Finished?
  }

  predicate Enabled(s: System, e: Event) {
    match e
    case Send(_, _) => true
    case Retry => true
    case CancelExplicitly => true
    case DropCancel(k) => k in s.held
    case StartBody(k) =>
      && k in s.tasks && s.tasks[k].stage.Waiting?
      && (s.tasks[k].waitsFor.Some? ==> !IsLive(s.tasks, s.tasks[k].waitsFor.value))
    case EndBody(k, response) => k in s.tasks && s.tasks[k].stage.Running? && !response.Lost?
    case Handle(k) => k in s.tasks && s.tasks[k].stage.Finished? && !s.tasks[k].handled
    case Other(op) => !op.Start? && !op.Say? && !op.Finish? && !op.CancelTurn?
  }

  /** The tasks after task k has been dropped together with what it still owns. */
  function Abandon(tasks: map<TurnId, SendTask>, k: TurnId): map<TurnId, SendTask>
    decreases k
  {
    if !IsLive(tasks, k) then tasks
    else
      var task := tasks[k];
      var rest := tasks[k := task.(stage := Finished(Lost))];
      if task.stage.Waiting? && task.waitsFor.Some? && task.waitsFor.value < k then Abandon(rest, task.waitsFor.value)
      else rest
  }

  function Retag(tags: seq<Option<TurnId>>, n: nat, tag: Option<TurnId>): seq<Option<TurnId>> {
    if n <= |tags| then tags[..n] else tags + [tag]
  }

  /** The turns that have entries from position n on. */
  function CutOff(tags: seq<Option<TurnId>>, n: nat): set<TurnId> {
    set i | n <= i < |tags| && tags[i].Some? :: tags[i].value
  }

  /** The waiting messages refer to Markdowns that exist. */
  predicate WorkLive(s: System) {
    Valid(s.thread) &&
    forall k :: k in s.tasks && s.tasks[k].work.Sending? ==> BlockLive(s.thread.text, s.tasks[k].work.content)
  }

  function WithThread(s: System, t: Thread, tag: Option<TurnId>): System {
    s.(thread := t, tags := Retag(s.tags, |t.entries|, tag), removed := s.removed + CutOff(s.tags, |t.entries|))
  }

  function NewTurn(s: System, message: seq<Chunk>, work: Work): System
    requires Valid(s.thread)
  {
    var task := SendTask(s.thread.running, work, Waiting, false);
    WithThread(s.(tasks := s.tasks[s.thread.turnId + 1 := task]), StartTurn(s.thread, message), None)
  }

  function Next(s: System, e: Event): System
    requires WorkLive(s) && Enabled(s, e)
  {
    match e
    case Send(id, message) => NewTurn(s, message, Sending(id, NewCombined(s.thread.text, message).1, message))
    case Retry => NewTurn(s, [], Retrying)
    case CancelExplicitly =>
      WithThread(s, Cancel(s.thread), None)
      .(held := if s.thread.running.Some? then s.held + {s.thread.running.value} else s.held)
    case DropCancel(k) => s.(tasks := Abandon(s.tasks, k), held := s.held - {k})
    case StartBody(k) =>
      var task := s.tasks[k];
      var started := s.(tasks := s.tasks[k := task.(stage := Running)], log := s.log + [k]);
      if task.work.Retrying? then started
      else
        WithThread(started, Step(s.thread, Say(task.work.id, task.work.content, task.work.chunks)), Some(k))
    case EndBody(k, response) => s.(tasks := s.tasks[k := s.tasks[k].(stage := Finished(response))])
    case Handle(k) =>
      WithThread(s.(tasks := s.tasks[k := s.tasks[k].(handled := true)]),
                 Complete(s.thread, k, s.tasks[k].stage.response), None)
    case Other(op) => WithThread(s, Step(s.thread, op), None)
  }

  // ---- the invariant

  /** Of two live tasks, the newer waits, directly or through others, for the older. */
  ghost predicate Chained(tasks: map<TurnId, SendTask>) {
    forall j: TurnId, k: TurnId {:trigger Below(tasks, j, k)} ::
      j < k && IsLive(tasks, j) && IsLive(tasks, k) ==> Below(tasks, j, k)
  }

  predicate Below(tasks: map<TurnId, SendTask>, j: TurnId, k: TurnId)
    requires k in tasks
  {
    && tasks[k].stage.Waiting? && tasks[k].waitsFor.Some?
    && j <= tasks[k].waitsFor.value < k && IsLive(tasks, tasks[k].waitsFor.value)
  }

  predicate NoneHeld(tasks: map<TurnId, SendTask>, held: set<TurnId>) {
    forall h :: h in held ==> !IsLive(tasks, h)
  }

  predicate OwnedBy(tasks: map<TurnId, SendTask>, running: Option<TurnId>, held: set<TurnId>, j: TurnId) {
    || (running.Some? && IsLive(tasks, running.value) && j <= running.value)
    || exists h :: h in held && IsLive(tasks, h) && j <= h
  }

  /** Every live task is at or below one that the thread, or a held cancel, owns; not both own live ones. */
  ghost predicate Owned(tasks: map<TurnId, SendTask>, running: Option<TurnId>, held: set<TurnId>) {
    && (forall j: TurnId {:trigger OwnedBy(tasks, running, held, j)} ::
          IsLive(tasks, j) ==> OwnedBy(tasks, running, held, j))
    && (running.Some? ==> NoneHeld(tasks, held))
  }

  predicate Bounded(tasks: map<TurnId, SendTask>, held: set<TurnId>, newest: TurnId) {
    && (forall k :: k in tasks ==> k <= newest)
    && (forall k :: k in tasks && tasks[k].waitsFor.Some? ==> tasks[k].waitsFor.value < k)
    && (forall h :: h in held ==> h in tasks)
  }

  /** A running turn is the newest, and its task has not been dropped. */
  predicate RunningIsNewest(tasks: map<TurnId, SendTask>, running: Option<TurnId>, newest: TurnId) {
    running.Some? ==> running.value == newest && newest in tasks && tasks[newest].stage != Finished(Lost)
  }

  ghost predicate TasksInOrder(tasks: map<TurnId, SendTask>, running: Option<TurnId>, held: set<TurnId>,
                               newest: TurnId) {
    && Chained(tasks) && Owned(tasks, running, held)
    && Bounded(tasks, held, newest) && RunningIsNewest(tasks, running, newest)
  }

  predicate Increasing(log: seq<TurnId>) {
    forall i, j :: 0 <= i < j < |log| ==> log[i] < log[j]
  }

  /** Bodies start in turn order, and the one running is the last to have started. */
  predicate LogInOrder(tasks: map<TurnId, SendTask>, log: seq<TurnId>) {
    && Increasing(log)
    && (forall k :: k in tasks && tasks[k].stage.Waiting? ==> forall i :: 0 <= i < |log| ==> log[i] < k)
    && (forall k :: k in tasks && tasks[k].stage.Running? ==> log != [] && log[|log| - 1] == k)
    && (forall i :: 0 <= i < |log| ==> log[i] in tasks)
  }

  /** Sent messages stand in turn order, each with the chunks it was sent with. */
  predicate MessagesInOrder(s: System) {
    && |s.tags| == |s.thread.entries|
    && (forall i :: 0 <= i < |s.tags| && s.tags[i].Some? ==> s.tags[i].value in s.log && IsSent(s, i))
    && (forall i, j :: 0 <= i < j < |s.tags| && s.tags[i].Some? && s.tags[j].Some? ==>
                         s.tags[i].value < s.tags[j].value)
  }

  predicate IsSent(s: System, i: nat)
    requires i < |s.tags| && |s.tags| == |s.thread.entries| && s.tags[i].Some?
  {
    var k, e := s.tags[i].value, s.thread.entries[i];
    k in s.tasks && s.tasks[k].work.Sending? && e.UserMessage? && s.tasks[k].work.chunks <= e.chunks
  }

  predicate Tagged(tags: seq<Option<TurnId>>, k: TurnId) {
    Some(k) in tags
  }

  /** Every turn that has started and sends has its message in the thread, unless it was cut off. */
  predicate Accounted(tasks: map<TurnId, SendTask>, log: seq<TurnId>, tags: seq<Option<TurnId>>, removed: set<TurnId>) {
    && (forall k :: k in log && k in tasks && tasks[k].work.Sending? ==> (Tagged(tags, k) <==> k !in removed))
    && (forall k :: k in removed ==> k in log)
  }

  ghost predicate Inv(s: System) {
    && WorkLive(s) && MessagesInOrder(s) && LogInOrder(s.tasks, s.log)
    && Accounted(s.tasks, s.log, s.tags, s.removed)
    && TasksInOrder(s.tasks, s.thread.running, s.held, s.thread.turnId)
  }

  /** No message is sent and nothing retried while a held cancel has not finished. */
  predicate Disciplined(s: System, e: Event) {
    (e.Send? || e.Retry?) ==> NoneHeld(s.tasks, s.held)
  }

  // ---- what updates of the thread leave alone

  predicate KeepsMessages(before: seq<Entry>, r: seq<Entry>) {
    forall i :: 0 <= i < |before| && i < |r| && before[i].UserMessage? ==>
                  r[i].UserMessage? && before[i].chunks <= r[i].chunks
  }

  predicate Frame(t: Thread, r: Thread) {
    && |r.entries| <= |t.entries| + 1 && KeepsMessages(t.entries, r.entries)
    && |t.text.markdowns| <= |r.text.markdowns|
  }

  predicate SameTurn(t: Thread, r: Thread) {
    r.running == t.running && r.turnId == t.turnId
  }

  lemma UpsertFrame(t: Thread, id: ToolCalls.ToolCallId, f: ToolCalls.Fields, asCall: Option<ToolCalls.NewCall>,
                    status: ToolCalls.Status)
    requires Valid(t)
    ensures Frame(t, Upsert(t, id, f, asCall, status)) && SameTurn(t, Upsert(t, id, f, asCall, status))
  {
    hide IndexOf, ToolCalls.UpdateFields, ToolCalls.FromNew, Settle, Overwrite, TextStream.Flush;
  }

  lemma UpdateFrame(t: Thread, update: CallUpdate)
    requires Valid(t)
    ensures Frame(t, UpdateCall(t, update)) && SameTurn(t, UpdateCall(t, update))
  {
    hide IndexOf, ToolCalls.UpdateFields, ToolCalls.MissingCall, Settle, Overwrite, TextStream.Flush;
  }

  lemma AuthorizeFrame(t: Thread, id: ToolCalls.ToolCallId, option: OptionId, allow: bool)
    requires Valid(t)
    ensures Frame(t, Authorize(t, id, option, allow)) && SameTurn(t, Authorize(t, id, option, allow))
  {
    hide IndexOf, Settle;
  }

  lemma UserChunkFrame(t: Thread, id: Option<MessageId>, chunk: Chunk, indented: bool)
    requires Valid(t)
    ensures Frame(t, PushUserChunk(t, id, chunk, indented)) && SameTurn(t, PushUserChunk(t, id, chunk, indented))
  {
    hide TextStream.Flush, AppendChunk, NewBlock;
  }

  lemma AssistantChunkFrame(t: Thread, chunk: Chunk, thought: bool, indented: bool)
    requires Valid(t)
    ensures Frame(t, PushAssistantChunk(t, chunk, thought, indented))
    ensures SameTurn(t, PushAssistantChunk(t, chunk, thought, indented))
  {
    hide TextStream.Flush, TextStream.BufferText, AddToAssistant, StreamingTarget;
    AddFrame(t, chunk, thought, indented);
  }

  lemma AddFrame(t: Thread, chunk: Chunk, thought: bool, indented: bool)
    requires Valid(t)
    ensures Frame(t, AddToAssistant(t, chunk, thought, indented))
    ensures SameTurn(t, AddToAssistant(t, chunk, thought, indented))
  {
    hide TextStream.Flush, NewBlock, AddToParts, BlockLive;
  }

  lemma OtherFrame(t: Thread, op: Op)
    requires Valid(t) && !op.Start? && !op.Say? && !op.Finish? && !op.CancelTurn?
    ensures Applies(t, op)
    ensures Frame(t, Step(t, op)) && SameTurn(t, Step(t, op))
  {
    hide TextStream.Flush, TextStream.Tick, PushUserChunk, PushAssistantChunk, Upsert, UpdateCall, Authorize;
    hide IndexOf, FirstWithId, TerminalsIn, DropHeld, TerminalRegistry.OnEvent, TerminalRegistry.Remove;
    hide ToolCalls.FromReported;
    match op
    case UserChunk(id, chunk, indented) => UserChunkFrame(t, id, chunk, indented);
    case AssistantChunk(chunk, thought, indented) => AssistantChunkFrame(t, chunk, thought, indented);
    case UpsertCall(id, f, asCall, status) => UpsertFrame(t, id, f, asCall, ToolCalls.FromReported(status));
    case Update(update) => UpdateFrame(t, update);
    case Ask(id, f, asCall) =>
      UpsertFrame(t.(channels := t.channels + [Open]), id, f, asCall, ToolCalls.WaitingForConfirmation(|t.channels|));
    case Answer(id, option, allow) => AuthorizeFrame(t, id, option, allow);
    case _ =>
  }

  lemma StartFrame(t: Thread, message: seq<Chunk>)
    requires Valid(t)
    ensures var r := StartTurn(t, message);
            Frame(t, r) && |r.entries| == |t.entries| && r.turnId == t.turnId + 1 && r.running == Some(r.turnId)
    ensures BlockLive(StartTurn(t, message).text, NewCombined(t.text, message).1)
  {
    hide Cancel, NewCombined, KeepsMessages;
    var s := NewCombined(t.text, message).0;
    LiveGrows(t.text, s, t.entries);
    var ready := t.(text := s, plan := Uncompleted(t.plan), hadError := false);
    CancelFrame(ready);
  }

  lemma CancelFrame(t: Thread)
    requires Valid(t)
    ensures var r := Cancel(t);
            && Frame(t, r) && |r.entries| == |t.entries| && r.turnId == t.turnId && r.running == None
            && |t.text.markdowns| == |r.text.markdowns|
  {
    hide TextStream.Flush, DropHeld;
  }

  lemma CompleteFrame(t: Thread, turn: TurnId, response: Response)
    requires Valid(t)
    ensures var r := Complete(t, turn, response);
            && Frame(t, r) && r.turnId == t.turnId && |r.entries| <= |t.entries|
            && r.running == if t.running == Some(turn) && !response.Lost? then None else t.running
  {
    hide TextStream.Flush, DropHeld, LastUserMessage, CallWithOutput;
  }

  // ---- tasks

  lemma NoneBelow(tasks: map<TurnId, SendTask>, k: TurnId)
    requires Chained(tasks) && IsLive(tasks, k)
    requires tasks[k].stage.Running? || tasks[k].waitsFor.None? || !IsLive(tasks, tasks[k].waitsFor.value)
    ensures forall j: TurnId :: j < k ==> !IsLive(tasks, j)
  {
    forall j: TurnId | j < k ensures !IsLive(tasks, j) {
      assert IsLive(tasks, j) ==> Below(tasks, j, k);
    }
  }

  /** Ending a running task, or starting one that has nothing to wait for, keeps the chain. */
  lemma RestageKeepsChain(tasks: map<TurnId, SendTask>, k: TurnId, stage: Stage)
    requires Chained(tasks) && IsLive(tasks, k) && !stage.Waiting?
    requires tasks[k].stage.Running? || tasks[k].waitsFor.None? || !IsLive(tasks, tasks[k].waitsFor.value)
    ensures Chained(tasks[k := tasks[k].(stage := stage)])
  {
    NoneBelow(tasks, k);
    var r := tasks[k := tasks[k].(stage := stage)];
    hide Chained;
    forall i: TurnId, j: TurnId | i < j && IsLive(r, i) && IsLive(r, j) ensures Below(r, i, j) {
      assert IsLive(tasks, i) && IsLive(tasks, j);
      assert j != k;
      ChainedAt(tasks, i, j);
      if stage.Finished? {
        assert tasks[j].waitsFor.value != k;
      }
    }
    assert Chained(r) by { ChainedIntro(r); }
  }

  lemma ChainedAt(tasks: map<TurnId, SendTask>, i: TurnId, j: TurnId)
    requires Chained(tasks) && i < j && IsLive(tasks, i) && IsLive(tasks, j)
    ensures Below(tasks, i, j)
  {
  }

  lemma ChainedIntro(tasks: map<TurnId, SendTask>)
    requires forall i: TurnId, j: TurnId :: i < j && IsLive(tasks, i) && IsLive(tasks, j) ==> Below(tasks, i, j)
    ensures Chained(tasks)
  {
  }

  /** Owners survive when what is still live was live before, and all that is above it stays so. */
  lemma OwnedStays(tasks: map<TurnId, SendTask>, r: map<TurnId, SendTask>, running: Option<TurnId>, held: set<TurnId>,
                   left: set<TurnId>)
    requires Owned(tasks, running, held) && left <= held
    requires forall j: TurnId :: IsLive(r, j) ==> IsLive(tasks, j)
    requires forall j: TurnId, h: TurnId :: IsLive(r, j) && j <= h && IsLive(tasks, h) ==> IsLive(r, h)
    requires forall h :: h in held && h !in left ==> !IsLive(r, h)
    ensures Owned(r, running, left)
  {
    hide IsLive;
    forall j: TurnId | IsLive(r, j) ensures OwnedBy(r, running, left, j) {
      assert OwnedBy(tasks, running, held, j);
      if !(running.Some? && IsLive(tasks, running.value) && j <= running.value) {
        var h :| h in held && IsLive(tasks, h) && j <= h;
        assert IsLive(r, h);
      }
    }
    assert running.Some? ==> NoneHeld(r, left);
  }

  lemma StartKeepsTasks(tasks: map<TurnId, SendTask>, running: Option<TurnId>, held: set<TurnId>, newest: TurnId,
                        k: TurnId)
    requires TasksInOrder(tasks, running, held, newest) && IsLive(tasks, k)
    requires tasks[k].waitsFor.None? || !IsLive(tasks, tasks[k].waitsFor.value)
    ensures TasksInOrder(tasks[k := tasks[k].(stage := Running)], running, held, newest)
  {
    hide Chained, Owned;
    RestageKeepsChain(tasks, k, Running);
    OwnedStays(tasks, tasks[k := tasks[k].(stage := Running)], running, held, held);
  }

  lemma EndKeepsTasks(tasks: map<TurnId, SendTask>, running: Option<TurnId>, held: set<TurnId>, newest: TurnId,
                      k: TurnId, response: Response)
    requires TasksInOrder(tasks, running, held, newest) && k in tasks && tasks[k].stage.Running? && !response.Lost?
    ensures TasksInOrder(tasks[k := tasks[k].(stage := Finished(response))], running, held, newest)
  {
    hide Chained, Owned;
    RestageKeepsChain(tasks, k, Finished(response));
    NoneBelow(tasks, k);
    OwnedStays(tasks, tasks[k := tasks[k].(stage := Finished(response))], running, held, held);
  }

  lemma HandleKeepsTasks(tasks: map<TurnId, SendTask>, running: Option<TurnId>, held: set<TurnId>, newest: TurnId,
                         k: TurnId)
    requires TasksInOrder(tasks, running, held, newest) && k in tasks && tasks[k].stage.Finished?
    ensures var r := tasks[k := tasks[k].(handled := true)];
            TasksInOrder(r, running, held, newest) && (running == Some(k) ==> TasksInOrder(r, None, held, newest))
  {
    var r := tasks[k := tasks[k].(handled := true)];
    assert forall j: TurnId :: IsLive(r, j) == IsLive(tasks, j);
    assert Chained(r) by {
      hide Chained;
      forall i: TurnId, j: TurnId | i < j && IsLive(r, i) && IsLive(r, j) ensures Below(r, i, j) {
        ChainedAt(tasks, i, j);
      }
      ChainedIntro(r);
    }
    hide Chained;
    forall j: TurnId | IsLive(r, j) ensures OwnedBy(r, running, held, j) {
      assert OwnedBy(tasks, running, held, j);
    }
  }

  lemma NewKeepsTasks(tasks: map<TurnId, SendTask>, running: Option<TurnId>, held: set<TurnId>, newest: TurnId,
                      work: Work)
    requires TasksInOrder(tasks, running, held, newest) && NoneHeld(tasks, held)
    ensures var r := tasks[newest + 1 := SendTask(running, work, Waiting, false)];
            TasksInOrder(r, Some(newest + 1), held, newest + 1)
  {
    var n := newest + 1;
    var r := tasks[n := SendTask(running, work, Waiting, false)];
    assert n !in tasks && IsLive(r, n);
    assert forall j: TurnId :: j != n ==> IsLive(r, j) == IsLive(tasks, j);
    assert forall j: TurnId :: IsLive(tasks, j) ==> OwnedBy(tasks, running, held, j);
    assert Chained(r) by {
      hide Chained;
      forall i: TurnId, j: TurnId | i < j && IsLive(r, i) && IsLive(r, j) ensures Below(r, i, j) {
        if j != n {
          ChainedAt(tasks, i, j);
        }
      }
      ChainedIntro(r);
    }
  }

  lemma HoldKeepsTasks(tasks: map<TurnId, SendTask>, running: Option<TurnId>, held: set<TurnId>, newest: TurnId)
    requires TasksInOrder(tasks, running, held, newest)
    ensures TasksInOrder(tasks, None, if running.Some? then held + {running.value} else held, newest)
  {
    hide Chained;
    var r := if running.Some? then held + {running.value} else held;
    forall j: TurnId | IsLive(tasks, j) ensures OwnedBy(tasks, None, r, j) {
      assert OwnedBy(tasks, running, held, j);
      if running.Some? {
        assert running.value in r;
      }
    }
  }

  ghost predicate ChainedUpTo(tasks: map<TurnId, SendTask>, top: TurnId) {
    forall j: TurnId, k: TurnId {:trigger Below(tasks, j, k)} ::
      j < k <= top && IsLive(tasks, j) && IsLive(tasks, k) ==> Below(tasks, j, k)
  }

  /** Dropping a task at the head of a chain ends the whole chain below it and nothing else. */
  lemma {:induction false} AbandonEnds(tasks: map<TurnId, SendTask>, k: TurnId)
    requires ChainedUpTo(tasks, k)
    ensures var r := Abandon(tasks, k);
            && r.Keys == tasks.Keys
            && (IsLive(tasks, k) ==> forall j: TurnId :: j <= k ==> !IsLive(r, j))
            && (forall j :: j in tasks ==>
                  r[j] == tasks[j] || (j <= k && r[j] == tasks[j].(stage := Finished(Lost)) && IsLive(tasks, j)))
    decreases k
  {
    if IsLive(tasks, k) {
      var task := tasks[k];
      var rest := tasks[k := task.(stage := Finished(Lost))];
      assert forall j: TurnId :: j < k && IsLive(tasks, j) ==> Below(tasks, j, k);
      if task.stage.Waiting? && task.waitsFor.Some? && task.waitsFor.value < k {
        var p := task.waitsFor.value;
        assert ChainedUpTo(rest, p) by {
          forall i: TurnId, j: TurnId | i < j <= p && IsLive(rest, i) && IsLive(rest, j) ensures Below(rest, i, j) {
            assert Below(tasks, i, j);
          }
        }
        AbandonEnds(rest, p);
      }
      var r := Abandon(tasks, k);
      forall j: TurnId | j <= k ensures !IsLive(r, j) {
        assert j < k && IsLive(tasks, j) ==> Below(tasks, j, k);
        assert IsLive(r, j) ==> IsLive(rest, j);
      }
    }
  }

  /** What is left after the tasks up to k have ended. */
  predicate CutAt(tasks: map<TurnId, SendTask>, r: map<TurnId, SendTask>, k: TurnId) {
    && r.Keys == tasks.Keys
    && forall j :: j in tasks ==>
                     (j > k ==> r[j] == tasks[j]) && (j <= k ==> !IsLive(r, j) && r[j].waitsFor == tasks[j].waitsFor)
  }

  lemma AbandonCuts(tasks: map<TurnId, SendTask>, k: TurnId)
    requires Chained(tasks) && IsLive(tasks, k)
    ensures CutAt(tasks, Abandon(tasks, k), k)
  {
    assert ChainedUpTo(tasks, k);
    hide Abandon, Chained;
    AbandonEnds(tasks, k);
  }

  lemma CutKeepsChain(tasks: map<TurnId, SendTask>, r: map<TurnId, SendTask>, k: TurnId)
    requires Chained(tasks) && CutAt(tasks, r, k)
    ensures Chained(r)
  {
    hide Chained;
    forall i: TurnId, j: TurnId | i < j && IsLive(r, i) && IsLive(r, j) ensures Below(r, i, j) {
      ChainedAt(tasks, i, j);
    }
    ChainedIntro(r);
  }

  lemma DropKeepsTasks(tasks: map<TurnId, SendTask>, running: Option<TurnId>, held: set<TurnId>, newest: TurnId,
                       k: TurnId)
    requires TasksInOrder(tasks, running, held, newest) && k in held
    ensures TasksInOrder(Abandon(tasks, k), running, held - {k}, newest)
  {
    var r := Abandon(tasks, k);
    assert !IsLive(tasks, k) ==> r == tasks;
    assert IsLive(tasks, k) ==> running.None?;
    hide Abandon, Owned, Chained;
    if IsLive(tasks, k) {
      AbandonCuts(tasks, k);
      CutKeepsChain(tasks, r, k);
    }
    OwnedStays(tasks, r, running, held, held - {k});
  }

  // ---- the log and the messages

  lemma StartKeepsLog(tasks: map<TurnId, SendTask>, log: seq<TurnId>, k: TurnId)
    requires Chained(tasks) && LogInOrder(tasks, log) && k in tasks && tasks[k].stage.Waiting?
    requires tasks[k].waitsFor.None? || !IsLive(tasks, tasks[k].waitsFor.value)
    ensures LogInOrder(tasks[k := tasks[k].(stage := Running)], log + [k])
  {
    NoneBelow(tasks, k);
    var r := tasks[k := tasks[k].(stage := Running)];
    forall j | j in r && j != k && !r[j].stage.Finished? ensures j > k && r[j].stage.Waiting? {
      assert IsLive(tasks, j);
      ChainedAt(tasks, k, j);
    }
  }

  predicate SameWork(a: map<TurnId, SendTask>, b: map<TurnId, SendTask>) {
    forall k :: k in a ==> k in b && b[k].work == a[k].work
  }

  lemma TasksKeepMessages(s: System, tasks: map<TurnId, SendTask>, held: set<TurnId>, log: seq<TurnId>)
    requires MessagesInOrder(s) && SameWork(s.tasks, tasks) && s.log <= log
    ensures MessagesInOrder(s.(tasks := tasks, held := held, log := log))
  {
    var r := s.(tasks := tasks, held := held, log := log);
    forall i | 0 <= i < |s.tags| && s.tags[i].Some? ensures s.tags[i].value in log && IsSent(r, i) {
      assert IsSent(s, i);
    }
  }

  /** Tags and entries after an update that keeps messages. */
  lemma ThreadKeepsMessages(s: System, t: Thread)
    requires MessagesInOrder(s) && Frame(s.thread, t)
    ensures MessagesInOrder(WithThread(s, t, None))
  {
    var r := WithThread(s, t, None);
    forall i | 0 <= i < |r.tags| && r.tags[i].Some? ensures r.tags[i].value in r.log && IsSent(r, i) {
      assert i < |s.tags| && r.tags[i] == s.tags[i];
      assert IsSent(s, i);
    }
  }

  /** A new message goes after all others: its turn started last. */
  lemma SayingKeepsMessages(s: System, t: Thread, k: TurnId, e: Entry)
    requires MessagesInOrder(s) && t.entries == s.thread.entries + [e]
    requires k in s.tasks && s.tasks[k].work.Sending? && e.UserMessage? && e.chunks == s.tasks[k].work.chunks
    requires s.log != [] && s.log[|s.log| - 1] == k && Increasing(s.log)
    requires forall i :: 0 <= i < |s.tags| && s.tags[i].Some? ==> s.tags[i].value != k
    ensures MessagesInOrder(WithThread(s, t, Some(k)))
  {
    var r := WithThread(s, t, Some(k));
    forall i | 0 <= i < |r.tags| && r.tags[i].Some? ensures r.tags[i].value in r.log && IsSent(r, i) {
      if i < |s.tags| {
        assert IsSent(s, i);
      }
    }
    forall i | 0 <= i < |s.tags| && s.tags[i].Some? ensures s.tags[i].value < k {
      var j :| 0 <= j < |s.log| && s.log[j] == s.tags[i].value;
    }
  }

  lemma TasksKeepAccounted(tasks: map<TurnId, SendTask>, r: map<TurnId, SendTask>, log: seq<TurnId>,
                           tags: seq<Option<TurnId>>, removed: set<TurnId>)
    requires Accounted(tasks, log, tags, removed) && LogInOrder(tasks, log) && SameWork(tasks, r)
    ensures Accounted(r, log, tags, removed)
  {
    forall k | k in log ensures k in tasks {
      var i :| 0 <= i < |log| && log[i] == k;
    }
  }

  /** What an update cuts off counts as removed, and what it leaves still has its message. */
  lemma ThreadKeepsAccounted(s: System, t: Thread)
    requires MessagesInOrder(s) && Accounted(s.tasks, s.log, s.tags, s.removed)
    ensures var r := WithThread(s, t, None); Accounted(s.tasks, s.log, r.tags, r.removed)
  {
    var r := WithThread(s, t, None);
    var n := |t.entries|;
    forall k ensures Tagged(r.tags, k) <==> Tagged(s.tags, k) && k !in CutOff(s.tags, n) {
      if Tagged(s.tags, k) {
        var i :| 0 <= i < |s.tags| && s.tags[i] == Some(k);
        assert i < n ==> r.tags[i] == Some(k);
        assert forall j :: 0 <= j < |s.tags| && s.tags[j] == Some(k) ==> j == i;
      }
    }
  }

  lemma StartKeepsAccounted(tasks: map<TurnId, SendTask>, log: seq<TurnId>, tags: seq<Option<TurnId>>,
                            removed: set<TurnId>, k: TurnId)
    requires Accounted(tasks, log, tags, removed) && k !in log && k in tasks
    ensures Accounted(tasks, log + [k], if tasks[k].work.Sending? then tags + [Some(k)] else tags, removed)
  {
    assert Tagged(tags + [Some(k)], k) by {
      assert (tags + [Some(k)])[|tags|] == Some(k);
    }
    assert forall j :: j != k ==> (Tagged(tags + [Some(k)], j) <==> Tagged(tags, j));
  }

  lemma WorkStaysLive(s: System, t: Thread, tasks: map<TurnId, SendTask>)
    requires WorkLive(s) && Valid(t) && |s.thread.text.markdowns| <= |t.text.markdowns|
    requires forall k :: k in tasks ==> (k in s.tasks && tasks[k].work == s.tasks[k].work)
                                        || (tasks[k].work.Sending? ==> BlockLive(t.text, tasks[k].work.content))
    ensures WorkLive(s.(thread := t, tasks := tasks))
  {
  }

  // ---- each event keeps the invariant

  lemma NewTurnKeepsInv(s: System, message: seq<Chunk>, work: Work)
    requires Inv(s) && NoneHeld(s.tasks, s.held)
    requires work.Sending? ==> work.content == NewCombined(s.thread.text, message).1
    ensures Inv(NewTurn(s, message, work))
  {
    hide StartTurn, NewCombined, MessagesInOrder, Chained, Owned, KeepsMessages, NoneHeld, Accounted, CutOff;
    StartFrame(s.thread, message);
    var r := NewTurn(s, message, work);
    TasksKeepAccounted(s.tasks, r.tasks, s.log, s.tags, s.removed);
    NewKeepsTasks(s.tasks, s.thread.running, s.held, s.thread.turnId, work);
    TasksKeepMessages(s, r.tasks, r.held, s.log);
    assert s.(tasks := r.tasks, held := r.held, log := s.log) == s.(tasks := r.tasks);
    ThreadKeepsMessages(s.(tasks := r.tasks), r.thread);
    ThreadKeepsAccounted(s.(tasks := r.tasks), r.thread);
    WorkStaysLive(s, r.thread, r.tasks);
    assert LogInOrder(r.tasks, s.log) by {
      assert forall i :: 0 <= i < |s.log| ==> s.log[i] in s.tasks;
    }
  }

  lemma CancelKeepsInv(s: System)
    requires Inv(s)
    ensures Inv(Next(s, CancelExplicitly))
  {
    hide Cancel, MessagesInOrder, KeepsMessages, Chained, Owned, LogInOrder, Accounted, CutOff;
    CancelFrame(s.thread);
    ThreadKeepsAccounted(s, Cancel(s.thread));
    HoldKeepsTasks(s.tasks, s.thread.running, s.held, s.thread.turnId);
    ThreadKeepsMessages(s, Cancel(s.thread));
    WorkStaysLive(s, Cancel(s.thread), s.tasks);
    var marked := WithThread(s, Cancel(s.thread), None);
    TasksKeepMessages(marked, s.tasks, Next(s, CancelExplicitly).held, s.log);
    assert marked.(tasks := s.tasks, held := Next(s, CancelExplicitly).held, log := s.log) == Next(s, CancelExplicitly);
  }

  lemma DropKeepsInv(s: System, k: TurnId)
    requires Inv(s) && k in s.held
    ensures Inv(Next(s, DropCancel(k)))
  {
    assert ChainedUpTo(s.tasks, k);
    hide MessagesInOrder, Chained, Owned, Abandon, Accounted;
    var r := Next(s, DropCancel(k));
    DropKeepsTasks(s.tasks, s.thread.running, s.held, s.thread.turnId, k);
    AbandonEnds(s.tasks, k);
    TasksKeepAccounted(s.tasks, r.tasks, s.log, s.tags, s.removed);
    TasksKeepMessages(s, r.tasks, r.held, s.log);
    assert s.(tasks := r.tasks, held := r.held, log := s.log) == s.(tasks := r.tasks, held := r.held);
    WorkStaysLive(s, s.thread, r.tasks);
    assert r.thread == s.thread;
  }

  lemma StartKeepsInv(s: System, k: TurnId)
    requires Inv(s) && Enabled(s, StartBody(k))
    ensures Inv(Next(s, StartBody(k)))
  {
    hide TextStream.Flush, Chained, Owned, MessagesInOrder, Accounted, CutOff;
    var tasks := s.tasks[k := s.tasks[k].(stage := Running)];
    var started := s.(tasks := tasks, log := s.log + [k]);
    StartKeepsLog(s.tasks, s.log, k);
    assert Increasing(s.log + [k]) && k !in s.log;
    TasksKeepAccounted(s.tasks, tasks, s.log, s.tags, s.removed);
    StartKeepsAccounted(tasks, s.log, s.tags, s.removed, k);
    hide LogInOrder;
    StartKeepsTasks(s.tasks, s.thread.running, s.held, s.thread.turnId, k);
    TasksKeepMessages(s, tasks, s.held, s.log + [k]);
    var work := s.tasks[k].work;
    if work.Sending? {
      NotSaidYet(s, k);
      var e := UserMessage(work.id, work.content, work.chunks, false);
      var t := PushEntry(s.thread, e);
      SayingKeepsMessages(started, t, k, e);
      NothingCutOff(s, t, e);
      WorkStaysLive(s, t, tasks);
    } else {
      WorkStaysLive(s, s.thread, tasks);
    }
  }

  lemma NothingCutOff(s: System, t: Thread, e: Entry)
    requires MessagesInOrder(s) && t.entries == s.thread.entries + [e]
    ensures CutOff(s.tags, |t.entries|) == {} && s.removed + {} == s.removed
    ensures |t.entries| == |s.tags| + 1
  {
  }

  lemma NotSaidYet(s: System, k: TurnId)
    requires MessagesInOrder(s) && LogInOrder(s.tasks, s.log) && k in s.tasks && s.tasks[k].stage.Waiting?
    ensures forall i :: 0 <= i < |s.tags| && s.tags[i].Some? ==> s.tags[i].value != k
  {
    forall i | 0 <= i < |s.tags| && s.tags[i].Some? ensures s.tags[i].value != k {
      var j :| 0 <= j < |s.log| && s.log[j] == s.tags[i].value;
    }
  }

  lemma EndKeepsInv(s: System, k: TurnId, response: Response)
    requires Inv(s) && Enabled(s, EndBody(k, response))
    ensures Inv(Next(s, EndBody(k, response)))
  {
    hide MessagesInOrder, Chained, Owned, Accounted;
    var r := Next(s, EndBody(k, response));
    TasksKeepAccounted(s.tasks, r.tasks, s.log, s.tags, s.removed);
    EndKeepsTasks(s.tasks, s.thread.running, s.held, s.thread.turnId, k, response);
    TasksKeepMessages(s, r.tasks, r.held, s.log);
    WorkStaysLive(s, s.thread, r.tasks);
    assert s.(tasks := r.tasks, held := r.held, log := s.log) == r;
  }

  lemma HandleKeepsInv(s: System, k: TurnId)
    requires Inv(s) && Enabled(s, Handle(k))
    ensures Inv(Next(s, Handle(k)))
  {
    hide Complete, MessagesInOrder, Chained, Owned, KeepsMessages, Accounted, CutOff;
    var response := s.tasks[k].stage.response;
    var r := Next(s, Handle(k));
    TasksKeepAccounted(s.tasks, r.tasks, s.log, s.tags, s.removed);
    CompleteFrame(s.thread, k, response);
    HandleKeepsTasks(s.tasks, s.thread.running, s.held, s.thread.turnId, k);
    TasksKeepMessages(s, r.tasks, r.held, s.log);
    assert s.(tasks := r.tasks, held := r.held, log := s.log) == s.(tasks := r.tasks);
    ThreadKeepsMessages(s.(tasks := r.tasks), r.thread);
    ThreadKeepsAccounted(s.(tasks := r.tasks), r.thread);
    WorkStaysLive(s, r.thread, r.tasks);
  }

  lemma OtherKeepsInv(s: System, op: Op)
    requires Inv(s) && Enabled(s, Other(op))
    ensures Inv(Next(s, Other(op)))
  {
    hide Step, MessagesInOrder, KeepsMessages, Chained, Owned, LogInOrder, Accounted, CutOff;
    OtherFrame(s.thread, op);
    var r := Next(s, Other(op));
    ThreadKeepsAccounted(s, r.thread);
    ThreadKeepsMessages(s, r.thread);
    WorkStaysLive(s, r.thread, s.tasks);
  }

  lemma NextKeepsInv(s: System, e: Event)
    requires Inv(s) && Enabled(s, e) && Disciplined(s, e)
    ensures Inv(Next(s, e))
  {
    assert WorkLive(s);
    hide Inv, NewTurn, NoneHeld, NewCombined;
    match e
    case Send(id, message) => NewTurnKeepsInv(s, message, Sending(id, NewCombined(s.thread.text, message).1, message));
    case Retry => NewTurnKeepsInv(s, [], Retrying);
    case CancelExplicitly => CancelKeepsInv(s);
    case DropCancel(k) => DropKeepsInv(s, k);
    case StartBody(k) => StartKeepsInv(s, k);
    case EndBody(k, response) => EndKeepsInv(s, k, response);
    case Handle(k) => HandleKeepsInv(s, k);
    case Other(op) => OtherKeepsInv(s, op);
  }
}
