/** A thread's terminals over whole runs: only their own events, releases and rewinds touch them. */
module ThreadTerminals {
  import opened Wrappers
  import TextStream
  import Messages
  import ToolCalls
  import opened TerminalRegistry
  import opened AgentThread

  /** What an update of the thread means for its terminals. */
  function ChangesOf(t: Thread, op: Op): seq<Change>
    requires Valid(t)
  {
    match op
    case TerminalEvent(e) => [Happened(e)]
    case ReleaseTerminal(id) => [Removed({id})]
    case EndRewind(id) =>
      var ix := FirstWithId(t.entries, id);
      if ix.Some? then [Removed(TerminalsIn(t.entries[ix.value..]))] else []
    case _ => []
  }

  function AllChanges(t: Thread, ops: seq<Op>): seq<Change>
    requires Valid(t) && Runs(t, ops)
    decreases |ops|
  {
    if ops == [] then [] else ChangesOf(t, ops[0]) + AllChanges(Step(t, ops[0]), ops[1..])
  }

  lemma TurnsLeaveTerminals(t: Thread, message: seq<Messages.Chunk>, turn: TurnId, response: Response)
    requires Valid(t)
    ensures StartTurn(t, message).terminals == t.terminals
    ensures Cancel(t).terminals == t.terminals
    ensures Complete(t, turn, response).terminals == t.terminals
  {
    hide TextStream.Flush, Messages.NewCombined, DropHeld, LastUserMessage, CallWithOutput, Uncompleted;
  }

  lemma EntriesLeaveTerminals(t: Thread, op: Op)
    requires Valid(t) && Applies(t, op)
    requires op.UserChunk? || op.AssistantChunk? || op.UpsertCall? || op.Update? || op.Ask? || op.Answer?
    ensures Step(t, op).terminals == t.terminals
  {
    hide TextStream.Flush, TextStream.BufferText, Messages.AppendChunk, Messages.NewBlock, AddToParts, StreamingTarget;
    hide IndexOf, ToolCalls.UpdateFields, ToolCalls.FromNew, ToolCalls.MissingCall, Settle, Overwrite;
    hide ToolCalls.FromReported;
  }

  lemma StepChanges(t: Thread, op: Op)
    requires Valid(t) && Applies(t, op)
    ensures Step(t, op).terminals == History(t.terminals, ChangesOf(t, op))
  {
    hide TextStream.Flush, TextStream.Tick, StartTurn, Cancel, Complete, PushUserChunk, PushAssistantChunk;
    hide Upsert, AskPermission, UpdateCall, Authorize, FirstWithId, TerminalsIn, OnEvent, Remove, DropHeld;
    match op
    case Start(message) => TurnsLeaveTerminals(t, message, 0, Lost);
    case CancelTurn => TurnsLeaveTerminals(t, [], 0, Lost);
    case Finish(turn, response) => TurnsLeaveTerminals(t, [], turn, response);
    case UserChunk(_, _, _) => EntriesLeaveTerminals(t, op);
    case AssistantChunk(_, _, _) => EntriesLeaveTerminals(t, op);
    case UpsertCall(_, _, _, _) => EntriesLeaveTerminals(t, op);
    case Update(_) => EntriesLeaveTerminals(t, op);
    case Ask(_, _, _) => EntriesLeaveTerminals(t, op);
    case Answer(_, _, _) => EntriesLeaveTerminals(t, op);
    case TerminalEvent(e) => OneChange(t.terminals, Happened(e));
    case ReleaseTerminal(id) => OneChange(t.terminals, Removed({id}));
    case EndRewind(id) =>
      if FirstWithId(t.entries, id).Some? {
        OneChange(t.terminals, Removed(TerminalsIn(t.entries[FirstWithId(t.entries, id).value..])));
      }
    case _ =>
  }

  lemma OneChange(t: Terminals, c: Change)
    ensures History(t, [c]) == Apply(t, c)
  {
    assert History(t, [c]) == History(Apply(t, c), [c][1..]);
  }

  lemma {:induction false} HistorySplits(t: Terminals, a: seq<Change>, b: seq<Change>)
    ensures History(t, a + b) == History(History(t, a), b)
    decreases |a|
  {
    hide Apply;
    if a == [] {
      assert a + b == b;
    } else {
      assert (a + b)[1..] == a[1..] + b;
      HistorySplits(Apply(t, a[0]), a[1..], b);
    }
  }

  lemma {:induction false} RunChanges(t: Thread, ops: seq<Op>)
    requires Valid(t) && Runs(t, ops)
    ensures After(t, ops).terminals == History(t.terminals, AllChanges(t, ops))
    decreases |ops|
  {
    hide Step, ChangesOf, Applies;
    if ops != [] {
      StepChanges(t, ops[0]);
      RunChanges(Step(t, ops[0]), ops[1..]);
      HistorySplits(t.terminals, ChangesOf(t, ops[0]), AllChanges(Step(t, ops[0]), ops[1..]));
    }
  }

  /**
    * In every run of a new thread: no terminal is both registered and waited for, and what was
    * written to a terminal and what waits for it are together exactly the output due to its id.
    */
  lemma TerminalOutputIsConserved(ops: seq<Op>, id: ToolCalls.TerminalId)
    requires Valid(NEW_THREAD) && Runs(NEW_THREAD, ops)
    ensures var t := After(NEW_THREAD, ops);
            && Apart(t.terminals)
            && Text(t.terminals, id) == Due(AllChanges(NEW_THREAD, ops), id)
            && (id in t.terminals.registered <==> Present(AllChanges(NEW_THREAD, ops), id))
  {
    hide Runs, After, AllChanges, Apart, Text;
    RunChanges(NEW_THREAD, ops);
    OutputIsConserved(AllChanges(NEW_THREAD, ops), id);
  }
}
