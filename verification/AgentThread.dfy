/**
  * The state of an agent thread and its atomic updates, as functions from one state to the next.
  * The class in AcpThread.dfy carries these updates out in place.
  */
module AgentThread {
  import opened Wrappers
  import opened Utf8
  import opened TextStream
  import opened Messages
  import opened ToolCalls
  import opened TerminalRegistry

  type MessageId = nat
  type OptionId = nat
  type TurnId = nat

  /** One chunk of an assistant message: message text, or a thought. */
  datatype Part = Part(thought: bool, block: Block)

  datatype Entry =
    | UserMessage(id: Option<MessageId>, content: Block, chunks: seq<Chunk>, indented: bool)
    | AssistantMessage(parts: seq<Part>, indented: bool)
    | Call(call: ToolCall)

  /** The one-shot channel that a permission request is answered on. */
  datatype Channel = Open | Answered(option: OptionId) | Dropped

  datatype PlanStatus = PlanPending | PlanInProgress | PlanCompleted
  datatype PlanEntry = PlanEntry(content: Bytes, priority: nat, status: PlanStatus)

  datatype Thread = Thread(
    entries: seq<Entry>,
    plan: seq<PlanEntry>,
    text: Stream,
    channels: seq<Channel>,
    turnId: TurnId,
    running: Option<TurnId>,
    hadError: bool,
    terminals: Terminals)

  const NEW_THREAD := Thread([], [], Stream([], None), [], 0, None, false, NONE_YET)

  datatype StopReason = EndTurn | MaxTokens | Cancelled | Refusal | OtherReason

  /** What a turn's body leaves for the completion handler; a dropped body leaves nothing. */
  datatype Response = Stopped(reason: StopReason) | Errored | Lost

  datatype CallUpdate =
    | FieldsUpdate(id: ToolCallId, fields: Fields)
    | DiffUpdate(id: ToolCallId, path: Bytes, base: Bytes, text: Bytes)
    | TerminalUpdate(id: ToolCallId, terminal: TerminalId)

  // ---- well-formedness: entries only refer to Markdowns that exist

  predicate EntryLive(s: Stream, e: Entry) {
    match e
    case UserMessage(_, content, _, _) => BlockLive(s, content)
    case AssistantMessage(parts, _) => forall k :: 0 <= k < |parts| ==> BlockLive(s, parts[k].block)
    case Call(_) => true
  }

  predicate EntriesLive(s: Stream, entries: seq<Entry>) {
    forall i :: 0 <= i < |entries| ==> EntryLive(s, entries[i])
  }

  predicate Valid(t: Thread) {
    Live(t.text) && EntriesLive(t.text, t.entries)
  }

  lemma LiveGrows(s: Stream, r: Stream, entries: seq<Entry>)
    requires EntriesLive(s, entries) && |s.markdowns| <= |r.markdowns|
    ensures EntriesLive(r, entries)
  {
    forall i | 0 <= i < |entries| ensures EntryLive(r, entries[i]) {
      assert EntryLive(s, entries[i]);
    }
  }

  lemma LiveReplaced(s: Stream, entries: seq<Entry>, ix: nat, e: Entry)
    requires EntriesLive(s, entries) && ix < |entries| && EntryLive(s, e)
    ensures EntriesLive(s, entries[ix := e])
  {
  }

  // ---- messages

  function Flushed(t: Thread): (r: Thread)
    requires Valid(t)
    ensures Valid(r) && r.text.buffer.None? && |r.text.markdowns| == |t.text.markdowns| && r.entries == t.entries
  {
    LiveGrows(t.text, Flush(t.text), t.entries);
    t.(text := Flush(t.text))
  }

  function PushEntry(t: Thread, e: Entry): (r: Thread)
    requires Valid(t) && EntryLive(t.text, e)
    ensures Valid(r)
  {
    LiveGrows(t.text, Flush(t.text), t.entries + [e]);
    t.(text := Flush(t.text), entries := t.entries + [e])
  }

  function PushUserChunk(t: Thread, id: Option<MessageId>, chunk: Chunk, indented: bool): (r: Thread)
    requires Valid(t)
    ensures Valid(r)
  {
    var n := |t.entries|;
    if n > 0 && t.entries[n - 1].UserMessage? && t.entries[n - 1].indented == indented then
      var last := t.entries[n - 1];
      assert EntryLive(t.text, last);
      var (s, content) := AppendChunk(Flush(t.text), last.content, chunk);
      var e := UserMessage(if id.Some? then id else last.id, content, last.chunks + [chunk], indented);
      LiveGrows(t.text, s, t.entries);
      t.(text := s, entries := t.entries[n - 1 := e])
    else
      var (s, content) := NewBlock(t.text, chunk);
      LiveGrows(t.text, s, t.entries);
      PushEntry(t.(text := s), UserMessage(id, content, [chunk], indented))
  }

  /** The Markdown that text for the last assistant message streams into, if it has one. */
  function StreamingTarget(entries: seq<Entry>, thought: bool, indented: bool): Option<MarkdownId> {
    if entries == [] then None
    else match entries[|entries| - 1]
      case AssistantMessage(parts, existing) =>
        if existing == indented && parts != [] && parts[|parts| - 1].thought == thought
           && parts[|parts| - 1].block.Markdown?
        then Some(parts[|parts| - 1].block.id) else None
      case _ => None
  }

  function PushAssistantChunk(t: Thread, chunk: Chunk, thought: bool, indented: bool): (r: Thread)
    requires Valid(t)
    ensures Valid(r)
  {
    var target := StreamingTarget(t.entries, thought, indented);
    if chunk.Text? && target.Some? then
      assert EntryLive(t.text, t.entries[|t.entries| - 1]);
      LiveGrows(t.text, BufferText(t.text, target.value, chunk.text), t.entries);
      t.(text := BufferText(t.text, target.value, chunk.text))
    else
      AddToAssistant(t, chunk, thought, indented)
  }

  /** Adding a chunk at once: to the last part if it is of the same kind, else as a new part or entry. */
  function AddToAssistant(t: Thread, chunk: Chunk, thought: bool, indented: bool): (r: Thread)
    requires Valid(t)
    ensures Valid(r)
  {
    var n := |t.entries|;
    if n > 0 && t.entries[n - 1].AssistantMessage? && t.entries[n - 1].indented == indented then
      assert EntryLive(t.text, t.entries[n - 1]);
      var (s, parts) := AddToParts(Flush(t.text), t.entries[n - 1].parts, chunk, thought);
      LiveGrows(t.text, s, t.entries);
      LiveReplaced(s, t.entries, n - 1, AssistantMessage(parts, indented));
      t.(text := s, entries := t.entries[n - 1 := AssistantMessage(parts, indented)])
    else
      var (s, block) := NewBlock(t.text, chunk);
      LiveGrows(t.text, s, t.entries);
      PushEntry(t.(text := s), AssistantMessage([Part(thought, block)], indented))
  }

  function AddToParts(s: Stream, parts: seq<Part>, chunk: Chunk, thought: bool): (r: (Stream, seq<Part>))
    requires Live(s) && forall k :: 0 <= k < |parts| ==> BlockLive(s, parts[k].block)
    ensures Live(r.0) && r.0.buffer == s.buffer && |s.markdowns| <= |r.0.markdowns|
    ensures forall k :: 0 <= k < |r.1| ==> BlockLive(r.0, r.1[k].block)
  {
    var m := |parts|;
    if m > 0 && parts[m - 1].thought == thought then
      var (s', block) := AppendChunk(s, parts[m - 1].block, chunk);
      PartsGrow(s, s', parts);
      (s', parts[m - 1 := Part(thought, block)])
    else
      var (s', block) := NewBlock(s, chunk);
      PartsGrow(s, s', parts);
      (s', parts + [Part(thought, block)])
  }

  lemma PartsGrow(s: Stream, r: Stream, parts: seq<Part>)
    requires forall k :: 0 <= k < |parts| ==> BlockLive(s, parts[k].block)
    requires |s.markdowns| <= |r.markdowns|
    ensures forall k :: 0 <= k < |parts| ==> BlockLive(r, parts[k].block)
  {
    forall k | 0 <= k < |parts| ensures BlockLive(r, parts[k].block) {
      assert BlockLive(s, parts[k].block);
    }
  }

  // ---- permission channels: a request's sender lives in the status of one entry

  /** The entry holds the sender of channel `c`. */
  predicate Holds(e: Entry, c: ChannelId) {
    e.Call? && e.call.status == WaitingForConfirmation(c)
  }

  predicate HeldIn(entries: seq<Entry>, c: ChannelId) {
    exists i :: 0 <= i < |entries| && Holds(entries[i], c)
  }

  /** A one-shot channel settles once. */
  function Settle(channels: seq<Channel>, c: ChannelId, outcome: Channel): seq<Channel> {
    if c < |channels| && channels[c].Open? then channels[c := outcome] else channels
  }

  /** Overwriting a status drops the sender in it. */
  function Overwrite(channels: seq<Channel>, prior: Status): seq<Channel> {
    if prior.WaitingForConfirmation? then Settle(channels, prior.reply, Dropped) else channels
  }

  /** The channels after the entries `gone` have been dropped. */
  function DropHeld(channels: seq<Channel>, gone: seq<Entry>): (r: seq<Channel>)
    ensures |r| == |channels|
  {
    seq(|channels|, c requires 0 <= c < |channels| =>
      if channels[c].Open? && HeldIn(gone, c) then Dropped else channels[c])
  }

  function TruncateTo(t: Thread, n: nat): (r: Thread)
    requires Valid(t) && n <= |t.entries|
    ensures Valid(r)
  {
    t.(entries := t.entries[..n], channels := DropHeld(t.channels, t.entries[n..]))
  }

  // ---- tool calls

  /** The last entry with this tool call id. */
  function IndexOf(entries: seq<Entry>, id: ToolCallId): (r: Option<nat>)
    ensures r.Some? ==> r.value < |entries| && entries[r.value].Call? && entries[r.value].call.id == id
  {
    if entries == [] then None
    else
      var n := |entries| - 1;
      if entries[n].Call? && entries[n].call.id == id then Some(n) else IndexOf(entries[..n], id)
  }

  /** Storing the record of call `ix` back after its status may have been overwritten. */
  function SetCall(t: Thread, ix: nat, call: ToolCall): (r: Thread)
    requires Valid(t) && ix < |t.entries| && t.entries[ix].Call?
    ensures Valid(r) && r.entries == t.entries[ix := Call(call)]
  {
    var prior := t.entries[ix].call.status;
    LiveReplaced(t.text, t.entries, ix, Call(call));
    t.(entries := t.entries[ix := Call(call)],
       channels := if call.status == prior then t.channels else Overwrite(t.channels, prior))
  }

  function UpdateCall(t: Thread, update: CallUpdate): (r: Thread)
    requires Valid(t)
    ensures Valid(r)
  {
    match IndexOf(t.entries, update.id)
    case None => PushEntry(t, Call(MissingCall(update.id)))
    case Some(ix) =>
      var call := t.entries[ix].call;
      match update
      case FieldsUpdate(_, fields) => SetCall(t, ix, UpdateFields(call, fields, t.terminals.registered.Keys).0)
      case DiffUpdate(_, path, base, text) => SetCall(t, ix, call.(content := [DiffContent(path, base, text)]))
      case TerminalUpdate(_, terminal) => SetCall(t, ix, call.(content := [TerminalContent(terminal)]))
  }

  /**
    * A failed upsert drops the status it was given. `asCall` is the update read as a complete
    * call, if it is one; an update that is not cannot create an entry.
    */
  function Upsert(t: Thread, id: ToolCallId, fields: Fields, asCall: Option<NewCall>, status: Status): (r: Thread)
    requires Valid(t)
    ensures Valid(r)
  {
    var known := t.terminals.registered.Keys;
    match IndexOf(t.entries, id)
    case Some(ix) =>
      var (call, ok) := UpdateFields(t.entries[ix].call, fields, known);
      var updated := SetCall(t, ix, call);
      if ok then SetCall(updated, ix, call.(status := status))
      else updated.(channels := Overwrite(updated.channels, status))
    case None =>
      var call := if asCall.Some? then FromNew(id, asCall.value, status, known) else Err;
      if call.Ok? then PushEntry(t, Call(call.value)) else t.(channels := Overwrite(t.channels, status))
  }

  /** An update of an existing call must not fail half way, and a new call must be complete and convertible. */
  predicate UpsertSucceeds(t: Thread, id: ToolCallId, fields: Fields, asCall: Option<NewCall>, status: Status) {
    var known := t.terminals.registered.Keys;
    match IndexOf(t.entries, id)
    case Some(ix) => UpdateFields(t.entries[ix].call, fields, known).1
    case None => asCall.Some? && FromNew(id, asCall.value, status, known).Ok?
  }

  function AskPermission(t: Thread, id: ToolCallId, fields: Fields, asCall: Option<NewCall>): (r: Thread)
    requires Valid(t)
    ensures Valid(r)
  {
    Upsert(t.(channels := t.channels + [Open]), id, fields, asCall, WaitingForConfirmation(|t.channels|))
  }

  /** The answer goes to the entry's own request; the status changes even when there is none. */
  function Authorize(t: Thread, id: ToolCallId, option: OptionId, allow: bool): (r: Thread)
    requires Valid(t)
    ensures Valid(r)
  {
    match IndexOf(t.entries, id)
    case None => t
    case Some(ix) =>
      var call := t.entries[ix].call;
      LiveReplaced(t.text, t.entries, ix, Call(call.(status := if allow then InProgress else Rejected)));
      t.(entries := t.entries[ix := Call(call.(status := if allow then InProgress else Rejected))],
         channels := if call.status.WaitingForConfirmation?
                     then Settle(t.channels, call.status.reply, Answered(option)) else t.channels)
  }

  // ---- turns

  predicate Unfinished(status: Status) {
    status.Pending? || status.WaitingForConfirmation? || status.InProgress?
  }

  function Canceling(e: Entry): Entry {
    if e.Call? && Unfinished(e.call.status) then Call(e.call.(status := Canceled)) else e
  }

  function MarkPending(t: Thread): (r: Thread)
    requires Valid(t)
    ensures Valid(r)
  {
    var entries := seq(|t.entries|, i requires 0 <= i < |t.entries| => Canceling(t.entries[i]));
    assert EntriesLive(t.text, entries) by {
      assert forall i :: 0 <= i < |t.entries| ==> EntryLive(t.text, t.entries[i]);
    }
    t.(entries := entries, channels := DropHeld(t.channels, t.entries))
  }

  function Cancel(t: Thread): (r: Thread)
    requires Valid(t)
    ensures Valid(r) && |r.text.markdowns| == |t.text.markdowns|
  {
    if t.running.None? then t else MarkPending(Flushed(t.(running := None)))
  }

  function Uncompleted(plan: seq<PlanEntry>): seq<PlanEntry> {
    if plan == [] then []
    else (if plan[0].status.PlanCompleted? then [] else [plan[0]]) + Uncompleted(plan[1..])
  }

  /** Sending a message, or retrying with none: its block is made first, then the turn starts. */
  function StartTurn(t: Thread, message: seq<Chunk>): (r: Thread)
    requires Valid(t)
    ensures Valid(r)
  {
    var s := NewCombined(t.text, message).0;
    LiveGrows(t.text, s, t.entries);
    var ready := Cancel(t.(text := s, plan := Uncompleted(t.plan), hadError := false));
    ready.(turnId := ready.turnId + 1, running := Some(ready.turnId + 1))
  }

  function LastUserMessage(entries: seq<Entry>): (r: Option<nat>)
    ensures r.Some? ==> r.value < |entries| && entries[r.value].UserMessage?
  {
    if entries == [] then None
    else if entries[|entries| - 1].UserMessage? then Some(|entries| - 1)
    else LastUserMessage(entries[..|entries| - 1])
  }

  /** A completed call with output: a refusal that follows one is about the output. */
  predicate CallWithOutput(e: Entry) {
    e.Call? && e.call.status.Completed? && e.call.rawOutput.Some?
  }

  function Refuse(t: Thread): (r: Thread)
    requires Valid(t)
    ensures Valid(r)
  {
    match LastUserMessage(t.entries)
    case None => t
    case Some(ix) =>
      if exists i :: ix < i < |t.entries| && CallWithOutput(t.entries[i]) then t else TruncateTo(t, ix)
  }

  /** The completion handler of turn `turn`, which may no longer be the running one. */
  function Complete(t: Thread, turn: TurnId, response: Response): (r: Thread)
    requires Valid(t)
    ensures Valid(r)
  {
    if response.Lost? then t
    else
      var done := Flushed(if t.running == Some(turn) then t.(running := None) else t);
      match response
      case Errored => done.(hadError := true)
      case Stopped(MaxTokens) => done.(hadError := true)
      case Stopped(Cancelled) => MarkPending(done)
      case Stopped(Refusal) => Refuse(done.(hadError := true))
      case Stopped(_) => done
  }

  // ---- rewinding

  function FirstWithId(entries: seq<Entry>, id: MessageId): (r: Option<nat>)
    ensures r.Some? ==> r.value < |entries| && entries[r.value].UserMessage? && entries[r.value].id == Some(id)
  {
    if entries == [] then None
    else if entries[0].UserMessage? && entries[0].id == Some(id) then Some(0)
    else match FirstWithId(entries[1..], id)
      case None => None
      case Some(i) => Some(i + 1)
  }

  function TerminalsIn(entries: seq<Entry>): set<TerminalId> {
    set e, c | e in entries && e.Call? && c in e.call.content && c.TerminalContent? :: c.terminal
  }

  /** What happens once the agent has truncated its side to before message `id`. */
  function FinishRewind(t: Thread, id: MessageId): (r: Thread)
    requires Valid(t)
    ensures Valid(r)
  {
    match FirstWithId(t.entries, id)
    case None => t
    case Some(ix) => TruncateTo(t, ix).(terminals := Remove(t.terminals, TerminalsIn(t.entries[ix..])))
  }

  // ---- all updates together

  datatype Op =
    | Start(message: seq<Chunk>)
    /** A turn's body puts its user message, whose block was made when the turn started. */
    | Say(id: Option<MessageId>, content: Block, chunks: seq<Chunk>)
    | Finish(turn: TurnId, response: Response)
    | CancelTurn
    | UserChunk(messageId: Option<MessageId>, chunk: Chunk, indented: bool)
    | AssistantChunk(chunk: Chunk, thought: bool, indented: bool)
    | RevealTick
    | UpsertCall(callId: ToolCallId, fields: Fields, asCall: Option<NewCall>, status: ReportedStatus)
    | Update(update: CallUpdate)
    | Ask(callId: ToolCallId, fields: Fields, asCall: Option<NewCall>)
    | Answer(callId: ToolCallId, option: OptionId, allow: bool)
    | BeginRewind
    | EndRewind(target: MessageId)
    | SetPlan(plan: seq<PlanEntry>)
    | TerminalEvent(event: ProviderEvent)
    | ReleaseTerminal(terminal: TerminalId)

  predicate Applies(t: Thread, op: Op) {
    op.Say? ==> BlockLive(t.text, op.content)
  }

  function Step(t: Thread, op: Op): (r: Thread)
    requires Valid(t) && Applies(t, op)
    ensures Valid(r)
  {
    match op
    case Start(message) => StartTurn(t, message)
    case Say(id, content, chunks) => PushEntry(t, UserMessage(id, content, chunks, false))
    case Finish(turn, response) => Complete(t, turn, response)
    case CancelTurn => Cancel(t)
    case UserChunk(id, chunk, indented) => PushUserChunk(t, id, chunk, indented)
    case AssistantChunk(chunk, thought, indented) => PushAssistantChunk(t, chunk, thought, indented)
    case RevealTick =>
      LiveGrows(t.text, Tick(t.text), t.entries);
      t.(text := Tick(t.text))
    case UpsertCall(id, fields, asCall, status) => Upsert(t, id, fields, asCall, FromReported(status))
    case Update(update) => UpdateCall(t, update)
    case Ask(id, fields, asCall) => AskPermission(t, id, fields, asCall)
    case Answer(id, option, allow) => Authorize(t, id, option, allow)
    case BeginRewind => Flushed(t)
    case EndRewind(id) => FinishRewind(t, id)
    case SetPlan(plan) => t.(plan := plan)
    case TerminalEvent(e) => t.(terminals := OnEvent(t.terminals, e))
    case ReleaseTerminal(id) => t.(terminals := Remove(t.terminals, {id}))
  }

  predicate Runs(t: Thread, ops: seq<Op>)
    requires Valid(t)
    decreases |ops|
  {
    ops == [] || (Applies(t, ops[0]) && Runs(Step(t, ops[0]), ops[1..]))
  }

  function After(t: Thread, ops: seq<Op>): (r: Thread)
    requires Valid(t) && Runs(t, ops)
    ensures Valid(r)
    decreases |ops|
  {
    if ops == [] then t else After(Step(t, ops[0]), ops[1..])
  }
}
