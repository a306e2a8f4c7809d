/**
  * Smooth streaming is invisible in the end: a thread that buffers text and a thread that appends
  * it at once go through the same states, up to the text that is still pending.
  */
module ThreadStreaming {
  import opened Wrappers
  import Utf8
  import TextStream
  import opened Messages
  import ToolCalls
  import TerminalRegistry
  import opened AgentThread

  /** The same thread without smooth streaming: every chunk is added at once and no timer runs. */
  function StepAtOnce(t: Thread, op: Op): (r: Thread)
    requires Valid(t) && Applies(t, op)
    ensures Valid(r)
  {
    match op
    case AssistantChunk(chunk, thought, indented) => AddToAssistant(t, chunk, thought, indented)
    case RevealTick => t
    case _ => Step(t, op)
  }

  predicate RunsAtOnce(t: Thread, ops: seq<Op>)
    requires Valid(t)
    decreases |ops|
  {
    ops == [] || (Applies(t, ops[0]) && RunsAtOnce(StepAtOnce(t, ops[0]), ops[1..]))
  }

  function AfterAtOnce(t: Thread, ops: seq<Op>): (r: Thread)
    requires Valid(t) && RunsAtOnce(t, ops)
    ensures Valid(r)
    decreases |ops|
  {
    if ops == [] then t else AfterAtOnce(StepAtOnce(t, ops[0]), ops[1..])
  }

  // ---- one update

  lemma FlushIdle(s: TextStream.Stream)
    requires TextStream.Live(s)
    ensures TextStream.Flush(TextStream.Flush(s)) == TextStream.Flush(s)
    ensures s.buffer.None? ==> TextStream.Flush(s) == s
  {
  }

  lemma NewBlockCommutes(s: TextStream.Stream, chunk: Chunk)
    requires TextStream.Live(s)
    ensures TextStream.Flush(NewBlock(s, chunk).0) == NewBlock(TextStream.Flush(s), chunk).0
    ensures NewBlock(s, chunk).1 == NewBlock(TextStream.Flush(s), chunk).1
  {
    AppendCommutes(s, Empty, chunk);
  }

  lemma StartCommutes(t: Thread, message: seq<Chunk>)
    requires Valid(t)
    ensures Flushed(StartTurn(t, message)) == StartTurn(Flushed(t), message)
  {
    hide TextStream.Flush, NewCombined, AppendAll, DropHeld;
    FlushIdle(t.text);
    FlushIdle(NewCombined(t.text, message).0);
    CombineCommutes(t.text, message);
  }

  lemma CombineCommutes(s: TextStream.Stream, message: seq<Chunk>)
    requires TextStream.Live(s)
    ensures TextStream.Flush(NewCombined(s, message).0) == NewCombined(TextStream.Flush(s), message).0
  {
    CombiningCommutes(s, Empty, message);
  }

  lemma UserChunkCommutes(t: Thread, id: Option<MessageId>, chunk: Chunk, indented: bool)
    requires Valid(t)
    ensures Flushed(PushUserChunk(t, id, chunk, indented)) == PushUserChunk(Flushed(t), id, chunk, indented)
  {
    hide TextStream.Flush, AppendChunk;
    FlushIdle(t.text);
    NewBlockCommutes(t.text, chunk);
    FlushIdle(NewBlock(t.text, chunk).0);
    var n := |t.entries|;
    if n > 0 && t.entries[n - 1].UserMessage? && t.entries[n - 1].indented == indented {
      assert EntryLive(t.text, t.entries[n - 1]);
      var s := AppendChunk(TextStream.Flush(t.text), t.entries[n - 1].content, chunk).0;
      FlushIdle(s);
    }
  }

  lemma AddCommutes(t: Thread, chunk: Chunk, thought: bool, indented: bool)
    requires Valid(t)
    ensures Flushed(AddToAssistant(t, chunk, thought, indented)) == AddToAssistant(Flushed(t), chunk, thought, indented)
  {
    hide TextStream.Flush, AppendChunk, AddToParts, NewBlock;
    FlushIdle(t.text);
    NewBlockCommutes(t.text, chunk);
    FlushIdle(NewBlock(t.text, chunk).0);
    var n := |t.entries|;
    if n > 0 && t.entries[n - 1].AssistantMessage? && t.entries[n - 1].indented == indented {
      assert EntryLive(t.text, t.entries[n - 1]);
      assert EntryLive(Flushed(t).text, t.entries[n - 1]);
      var s := AddToParts(TextStream.Flush(t.text), t.entries[n - 1].parts, chunk, thought).0;
      FlushIdle(s);
    }
  }

  /** Buffering a chunk for its target and flushing is the same as adding it to the message at once. */
  lemma AssistantChunkCommutes(t: Thread, chunk: Chunk, thought: bool, indented: bool)
    requires Valid(t)
    ensures Flushed(PushAssistantChunk(t, chunk, thought, indented)) ==
              AddToAssistant(Flushed(t), chunk, thought, indented)
  {
    var target := StreamingTarget(t.entries, thought, indented);
    if chunk.Text? && target.Some? {
      hide TextStream.Flush, TextStream.BufferText;
      var n := |t.entries|;
      var last := t.entries[n - 1];
      assert EntryLive(t.text, last);
      TextStream.BufferingIsAppending(t.text, target.value, chunk.text);
      FlushIdle(t.text);
      var flushed := TextStream.Flush(t.text);
      assert EntryLive(flushed, last);
      var (s, parts) := AddToParts(flushed, last.parts, chunk, thought);
      assert parts == last.parts;
      assert t.entries[n - 1 := AssistantMessage(parts, indented)] == t.entries;
    } else {
      AddCommutes(t, chunk, thought, indented);
    }
  }

  lemma FinishCommutes(t: Thread, turn: TurnId, response: Response)
    requires Valid(t)
    ensures Flushed(Complete(t, turn, response)) == Complete(Flushed(t), turn, response)
    ensures Flushed(Cancel(t)) == Cancel(Flushed(t))
  {
    hide TextStream.Flush, DropHeld, Canceling, LastUserMessage, CallWithOutput;
    FlushIdle(t.text);
  }

  lemma PushCommutes(t: Thread, e: Entry)
    requires Valid(t) && EntryLive(t.text, e)
    ensures EntryLive(Flushed(t).text, e) && Flushed(PushEntry(t, e)) == PushEntry(Flushed(t), e)
  {
    FlushIdle(t.text);
  }

  lemma CallsCommute(t: Thread, id: ToolCalls.ToolCallId, f: ToolCalls.Fields, asCall: Option<ToolCalls.NewCall>,
                     status: ToolCalls.Status)
    requires Valid(t)
    ensures Flushed(Upsert(t, id, f, asCall, status)) == Upsert(Flushed(t), id, f, asCall, status)
  {
    hide TextStream.Flush, IndexOf, ToolCalls.UpdateFields, ToolCalls.FromNew, Settle, Overwrite;
    FlushIdle(t.text);
  }

  lemma UpdateCommutes(t: Thread, update: CallUpdate)
    requires Valid(t)
    ensures Flushed(UpdateCall(t, update)) == UpdateCall(Flushed(t), update)
  {
    hide TextStream.Flush, IndexOf, ToolCalls.UpdateFields, ToolCalls.MissingCall, Settle, Overwrite;
    FlushIdle(t.text);
  }

  /** The refinement, one update at a time. */
  lemma StepCommutes(t: Thread, op: Op)
    requires Valid(t) && Applies(t, op)
    ensures Applies(Flushed(t), op)
    ensures Flushed(Step(t, op)) == StepAtOnce(Flushed(t), op)
  {
    hide TextStream.Flush, TextStream.Tick, PushUserChunk, PushAssistantChunk, AddToAssistant, StartTurn, PushEntry;
    hide Complete, Cancel, Upsert, UpdateCall, Authorize, FinishRewind, ToolCalls.FromReported;
    hide TerminalRegistry.OnEvent, TerminalRegistry.Remove;
    FlushIdle(t.text);
    match op
    case Start(message) => StartCommutes(t, message);
    case Say(id, content, chunks) => PushCommutes(t, UserMessage(id, content, chunks, false));
    case Finish(turn, response) => FinishCommutes(t, turn, response);
    case CancelTurn => FinishCommutes(t, 0, Lost);
    case UserChunk(id, chunk, indented) => UserChunkCommutes(t, id, chunk, indented);
    case AssistantChunk(chunk, thought, indented) => AssistantChunkCommutes(t, chunk, thought, indented);
    case RevealTick => TextStream.TickRevealsInPlace(t.text);
    case UpsertCall(id, f, asCall, status) => CallsCommute(t, id, f, asCall, ToolCalls.FromReported(status));
    case Update(update) => UpdateCommutes(t, update);
    case Ask(id, f, asCall) =>
      var asked := t.(channels := t.channels + [Open]);
      CallsCommute(asked, id, f, asCall, ToolCalls.WaitingForConfirmation(|t.channels|));
    case Answer(id, option, allow) => AuthorizeCommutes(t, id, option, allow);
    case EndRewind(id) => RewindCommutes(t, id);
    case _ =>
  }

  lemma AuthorizeCommutes(t: Thread, id: ToolCalls.ToolCallId, option: OptionId, allow: bool)
    requires Valid(t)
    ensures Flushed(Authorize(t, id, option, allow)) == Authorize(Flushed(t), id, option, allow)
  {
    hide TextStream.Flush, IndexOf, Settle;
  }

  lemma RewindCommutes(t: Thread, id: MessageId)
    requires Valid(t)
    ensures Flushed(FinishRewind(t, id)) == FinishRewind(Flushed(t), id)
  {
    hide TextStream.Flush, FirstWithId, TerminalsIn, DropHeld, TerminalRegistry.Remove;
  }

  // ---- whole runs

  /**
    * In every run the thread, once flushed, is exactly the thread that appended everything at once:
    * ticks and flushes never lose, duplicate or reorder text, and nothing else depends on them.
    */
  lemma {:induction false} StreamingRefinesAppending(t: Thread, ops: seq<Op>)
    requires Valid(t) && Runs(t, ops)
    ensures RunsAtOnce(Flushed(t), ops)
    ensures Flushed(After(t, ops)) == AfterAtOnce(Flushed(t), ops)
    decreases |ops|
  {
    hide Step, StepAtOnce, Flushed, Applies;
    if ops != [] {
      StepCommutes(t, ops[0]);
      StreamingRefinesAppending(Step(t, ops[0]), ops[1..]);
    }
  }

  /** In particular every Markdown shows, with what is pending for it, what it would show without streaming. */
  lemma ShownAndPending(t: Thread, ops: seq<Op>, id: TextStream.MarkdownId)
    requires Valid(t) && Runs(t, ops) && t.text.buffer.None?
    requires id < |After(t, ops).text.markdowns|
    ensures Flushed(t) == t && RunsAtOnce(t, ops)
    ensures id < |AfterAtOnce(t, ops).text.markdowns|
    ensures TextStream.Shown(After(t, ops).text, id) + TextStream.PendingFor(After(t, ops).text, id)
              == AfterAtOnce(t, ops).text.markdowns[id]
  {
    hide Step, StepAtOnce, Runs, After, AfterAtOnce, RunsAtOnce;
    StreamingRefinesAppending(t, ops);
    var s := After(t, ops).text;
    assert s.markdowns[id] + [] == s.markdowns[id];
  }

  // ---- what reaches each Markdown

  /** The text of the Markdown that adding a chunk to a block makes, if it makes one. */
  function Made(block: Block, chunk: Chunk): Option<Utf8.Bytes> {
    match block
    case Empty =>
      if chunk.ResourceLink? || (chunk.Image? && chunk.decodable) then None else Some(StringContents(chunk))
    case Markdown(_) => None
    case Resource(_, link) => Some(link + [Utf8.NEWLINE] + StringContents(chunk))
    case Picture => Some(IMAGE_MD + [Utf8.NEWLINE] + StringContents(chunk))
  }

  /** What adding a chunk to a block gives to Markdown `id`, when `next` is the id of the next one made. */
  function Gives(block: Block, chunk: Chunk, next: nat, id: TextStream.MarkdownId): Utf8.Bytes {
    if block == Markdown(id) then StringContents(chunk)
    else if Made(block, chunk).Some? && id == next then Made(block, chunk).value
    else []
  }

  function BlockAfter(block: Block, chunk: Chunk, next: nat): Block {
    if Made(block, chunk).Some? then Markdown(next)
    else if block.Empty? && chunk.ResourceLink? then Resource(chunk.uri, chunk.link)
    else if block.Empty? then Picture
    else block
  }

  function GivesAll(block: Block, chunks: seq<Chunk>, next: nat, id: TextStream.MarkdownId): Utf8.Bytes
    decreases |chunks|
  {
    if chunks == [] then []
    else
      Gives(block, chunks[0], next, id) +
      GivesAll(BlockAfter(block, chunks[0], next), chunks[1..],
               next + (if Made(block, chunks[0]).Some? then 1 else 0), id)
  }

  /** The text that an update addresses to Markdown `id`, or makes it with. */
  function Added(t: Thread, op: Op, id: TextStream.MarkdownId): Utf8.Bytes {
    var next := |t.text.markdowns|;
    match op
    case Start(message) => GivesAll(Empty, message, next, id)
    case UserChunk(_, chunk, indented) => Gives(LastContent(t.entries, indented), chunk, next, id)
    case AssistantChunk(chunk, thought, indented) => Gives(LastBlock(t.entries, thought, indented), chunk, next, id)
    case _ => []
  }

  /** The content that a user chunk joins: that of a last user message of its indent. */
  function LastContent(entries: seq<Entry>, indented: bool): Block {
    if entries == [] then Empty
    else match entries[|entries| - 1]
      case UserMessage(_, content, _, existing) => if existing == indented then content else Empty
      case _ => Empty
  }

  /** The block that an assistant chunk joins: the last of a last message of its indent, if of its kind. */
  function LastBlock(entries: seq<Entry>, thought: bool, indented: bool): Block {
    if entries == [] then Empty
    else match entries[|entries| - 1]
      case AssistantMessage(parts, existing) =>
        if existing == indented && parts != [] && parts[|parts| - 1].thought == thought
        then parts[|parts| - 1].block else Empty
      case _ => Empty
  }

  function AddedIn(t: Thread, ops: seq<Op>, id: TextStream.MarkdownId): Utf8.Bytes
    requires Valid(t) && Runs(t, ops)
    decreases |ops|
  {
    if ops == [] then [] else Added(t, ops[0], id) + AddedIn(Step(t, ops[0]), ops[1..], id)
  }

  lemma AppendAdds(s: TextStream.Stream, block: Block, chunk: Chunk, id: TextStream.MarkdownId)
    requires TextStream.Live(s) && BlockLive(s, block)
    ensures var next, r := |s.markdowns|, AppendChunk(s, block, chunk);
            && TextStream.Shown(r.0, id) == TextStream.Shown(s, id) + Gives(block, chunk, next, id)
            && r.1 == BlockAfter(block, chunk, next)
            && |r.0.markdowns| == next + if Made(block, chunk).Some? then 1 else 0
  {
    var shown := TextStream.Shown(s, id);
    assert shown + [] == shown && (id >= |s.markdowns| ==> forall x: Utf8.Bytes :: shown + x == x);
  }

  lemma {:induction false} CombiningAdds(s: TextStream.Stream, block: Block, chunks: seq<Chunk>,
                                         id: TextStream.MarkdownId)
    requires TextStream.Live(s) && BlockLive(s, block)
    ensures TextStream.Shown(AppendAll(s, block, chunks).0, id) ==
              TextStream.Shown(s, id) + GivesAll(block, chunks, |s.markdowns|, id)
    decreases |chunks|
  {
    hide AppendChunk, Gives, BlockAfter, Made, TextStream.Shown;
    var shown := TextStream.Shown(s, id);
    if chunks == [] {
      assert shown + [] == shown;
    } else {
      AppendAdds(s, block, chunks[0], id);
      var step := AppendChunk(s, block, chunks[0]);
      CombiningAdds(step.0, step.1, chunks[1..], id);
      var first := Gives(block, chunks[0], |s.markdowns|, id);
      var rest := GivesAll(step.1, chunks[1..], |step.0.markdowns|, id);
      assert (shown + first) + rest == shown + (first + rest);
    }
  }

  lemma StartAdds(t: Thread, message: seq<Chunk>, id: TextStream.MarkdownId)
    requires Valid(t) && t.text.buffer.None?
    ensures TextStream.Shown(StartTurn(t, message).text, id) ==
              TextStream.Shown(t.text, id) + Added(t, Start(message), id)
  {
    hide AppendAll, DropHeld, Uncompleted, GivesAll, TextStream.Shown;
    CombiningAdds(t.text, Empty, message, id);
    FlushIdle(NewCombined(t.text, message).0);
  }

  lemma UserChunkAdds(t: Thread, mid: Option<MessageId>, chunk: Chunk, indented: bool, id: TextStream.MarkdownId)
    requires Valid(t) && t.text.buffer.None?
    ensures TextStream.Shown(PushUserChunk(t, mid, chunk, indented).text, id) ==
              TextStream.Shown(t.text, id) + Added(t, UserChunk(mid, chunk, indented), id)
  {
    hide AppendChunk, Gives, BlockAfter, Made, TextStream.Shown, TextStream.Flush;
    FlushIdle(t.text);
    AppendAdds(t.text, Empty, chunk, id);
    FlushIdle(NewBlock(t.text, chunk).0);
    var n := |t.entries|;
    if n > 0 && t.entries[n - 1].UserMessage? && t.entries[n - 1].indented == indented {
      assert EntryLive(t.text, t.entries[n - 1]);
      AppendAdds(t.text, t.entries[n - 1].content, chunk, id);
    }
  }

  lemma AssistantChunkAdds(t: Thread, chunk: Chunk, thought: bool, indented: bool, id: TextStream.MarkdownId)
    requires Valid(t) && t.text.buffer.None?
    ensures TextStream.Shown(AddToAssistant(t, chunk, thought, indented).text, id) ==
              TextStream.Shown(t.text, id) + Added(t, AssistantChunk(chunk, thought, indented), id)
  {
    hide AppendChunk, Gives, BlockAfter, Made, TextStream.Shown, TextStream.Flush;
    FlushIdle(t.text);
    AppendAdds(t.text, Empty, chunk, id);
    FlushIdle(NewBlock(t.text, chunk).0);
    var n := |t.entries|;
    if n > 0 && t.entries[n - 1].AssistantMessage? && t.entries[n - 1].indented == indented {
      var parts := t.entries[n - 1].parts;
      assert EntryLive(t.text, t.entries[n - 1]);
      if parts != [] {
        AppendAdds(t.text, parts[|parts| - 1].block, chunk, id);
      }
    }
  }

  lemma OthersAddNothing(t: Thread, op: Op)
    requires Valid(t) && Applies(t, op) && t.text.buffer.None?
    requires !op.Start? && !op.UserChunk? && !op.AssistantChunk?
    ensures StepAtOnce(t, op).text == t.text
  {
    hide DropHeld, Settle, IndexOf, ToolCalls.UpdateFields, ToolCalls.FromNew, ToolCalls.FromReported;
    hide ToolCalls.MissingCall, LastUserMessage, CallWithOutput, FirstWithId, TerminalsIn;
    hide TerminalRegistry.OnEvent, TerminalRegistry.Remove;
    FlushIdle(t.text);
  }

  lemma AtOnceAdds(t: Thread, op: Op, id: TextStream.MarkdownId)
    requires Valid(t) && Applies(t, op) && t.text.buffer.None?
    ensures TextStream.Shown(StepAtOnce(t, op).text, id) == TextStream.Shown(t.text, id) + Added(t, op, id)
  {
    hide StartTurn, PushUserChunk, AddToAssistant, Gives, GivesAll, TextStream.Shown;
    var shown := TextStream.Shown(t.text, id);
    match op
    case Start(message) => StartAdds(t, message, id);
    case UserChunk(mid, chunk, indented) => UserChunkAdds(t, mid, chunk, indented, id);
    case AssistantChunk(chunk, thought, indented) => AssistantChunkAdds(t, chunk, thought, indented, id);
    case _ =>
      OthersAddNothing(t, op);
      assert shown + [] == shown;
  }

  function WithPending(t: Thread, id: TextStream.MarkdownId): Utf8.Bytes {
    TextStream.Shown(t.text, id) + TextStream.PendingFor(t.text, id)
  }

  lemma FlushedShowsAll(t: Thread, id: TextStream.MarkdownId)
    requires Valid(t)
    ensures TextStream.Shown(Flushed(t).text, id) == WithPending(t, id)
  {
    var shown := TextStream.Shown(t.text, id);
    assert shown + [] == shown;
  }

  /**
    * In every run and for every Markdown, made before the run or in it: what it shows followed by what
    * is pending for it grows by exactly the text it is made with and the text of the chunks addressed
    * to it, in the order they arrive; nothing else ever changes it.
    */
  lemma {:induction false} TextArrivesInOrder(t: Thread, ops: seq<Op>, id: TextStream.MarkdownId)
    requires Valid(t) && Runs(t, ops)
    ensures WithPending(After(t, ops), id) == WithPending(t, id) + AddedIn(t, ops, id)
    decreases |ops|
  {
    hide Step, StepAtOnce, Flushed, Applies, WithPending;
    if ops == [] {
      assert WithPending(t, id) + [] == WithPending(t, id);
    } else {
      assert Added(t, ops[0], id) == Added(Flushed(t), ops[0], id);
      hide Added, TextStream.Shown;
      var r := Step(t, ops[0]);
      FlushedShowsAll(t, id);
      StepCommutes(t, ops[0]);
      AtOnceAdds(Flushed(t), ops[0], id);
      FlushedShowsAll(r, id);
      TextArrivesInOrder(r, ops[1..], id);
      var before, first, rest := WithPending(t, id), Added(t, ops[0], id), AddedIn(r, ops[1..], id);
      assert (before + first) + rest == before + (first + rest);
    }
  }

  /** Pending text never outlives the entry it belongs to being the last, nor a turn's response. */
  predicate Flushes(t: Thread, op: Op)
    requires Valid(t) && Applies(t, op)
  {
    || |Step(t, op).entries| > |t.entries|
    || (op.Finish? && !op.response.Lost?)
    || ((op.CancelTurn? || op.Start?) && t.running.Some?)
    || op.UserChunk?
    || op.BeginRewind?
  }

  /** Either the update flushed, or it left text and number of entries alone. */
  predicate FlushedOrKept(t: Thread, r: Thread) {
    r.text.buffer.None? || (r.text == t.text && |r.entries| == |t.entries|)
  }

  lemma CallsFlushOrKeep(t: Thread, id: ToolCalls.ToolCallId, f: ToolCalls.Fields, asCall: Option<ToolCalls.NewCall>,
                         status: ToolCalls.Status, update: CallUpdate)
    requires Valid(t)
    ensures FlushedOrKept(t, Upsert(t, id, f, asCall, status))
    ensures FlushedOrKept(t, UpdateCall(t, update))
  {
    hide TextStream.Flush, IndexOf, ToolCalls.UpdateFields, ToolCalls.FromNew, ToolCalls.MissingCall, Settle, Overwrite;
  }

  lemma TurnsFlushOrKeep(t: Thread, message: seq<Chunk>, turn: TurnId, response: Response)
    requires Valid(t)
    ensures var r := StartTurn(t, message);
            |r.entries| == |t.entries| && r.text.buffer == if t.running.Some? then None else t.text.buffer
    ensures var r := Cancel(t);
            |r.entries| == |t.entries| && r.text.buffer == if t.running.Some? then None else t.text.buffer
    ensures var r := Complete(t, turn, response);
            |r.entries| <= |t.entries| && r.text.buffer == if response.Lost? then t.text.buffer else None
  {
    hide TextStream.Flush, NewCombined, DropHeld, Canceling, LastUserMessage, CallWithOutput, Uncompleted;
  }

  lemma UserChunksFlush(t: Thread, id: Option<MessageId>, chunk: Chunk, indented: bool)
    requires Valid(t)
    ensures PushUserChunk(t, id, chunk, indented).text.buffer.None?
  {
    hide TextStream.Flush, AppendChunk;
  }

  lemma AssistantChunkBuffer(t: Thread, chunk: Chunk, thought: bool, indented: bool)
    requires Valid(t)
    ensures var r := PushAssistantChunk(t, chunk, thought, indented);
            || r.text.buffer.None?
            || (|r.entries| == |t.entries| && chunk.Text?
                && exists id: nat :: id < |t.text.markdowns|
                                     && r.text.buffer == TextStream.BufferText(t.text, id, chunk.text).buffer)
  {
    hide TextStream.Flush, TextStream.BufferText, AppendChunk, AddToParts;
    if chunk.Text? && StreamingTarget(t.entries, thought, indented).Some? {
      assert EntryLive(t.text, t.entries[|t.entries| - 1]);
      var id := StreamingTarget(t.entries, thought, indented).value;
      assert id < |t.text.markdowns|;
    }
  }

  /** The buffer after an update: emptied, or untouched, or the one that streaming and ticking leave. */
  lemma BufferAfter(t: Thread, op: Op)
    requires Valid(t) && Applies(t, op)
    ensures var r := Step(t, op).text.buffer;
            || r.None?
            || (r == t.text.buffer && !Flushes(t, op))
            || (op.RevealTick? && r == TextStream.Tick(t.text).buffer && !Flushes(t, op))
            || (op.AssistantChunk? && op.chunk.Text? && !Flushes(t, op)
                && exists id: nat ::
                     id < |t.text.markdowns| && r == TextStream.BufferText(t.text, id, op.chunk.text).buffer)
  {
    hide TextStream.Flush, TextStream.Tick, TextStream.BufferText, StartTurn, PushUserChunk, PushAssistantChunk;
    hide Upsert, UpdateCall, Complete, Cancel, DropHeld, Settle, IndexOf, FirstWithId, TerminalsIn;
    hide TerminalRegistry.OnEvent, TerminalRegistry.Remove, ToolCalls.FromReported;
    match op
    case Start(message) => TurnsFlushOrKeep(t, message, 0, Lost);
    case CancelTurn => TurnsFlushOrKeep(t, [], 0, Lost);
    case Finish(turn, response) => TurnsFlushOrKeep(t, [], turn, response);
    case UserChunk(id, chunk, indented) => UserChunksFlush(t, id, chunk, indented);
    case AssistantChunk(chunk, thought, indented) => AssistantChunkBuffer(t, chunk, thought, indented);
    case Update(update) =>
      CallsFlushOrKeep(t, 0, ToolCalls.Fields(None, None, None, None, None), None, ToolCalls.Pending, update);
    case UpsertCall(id, f, asCall, status) =>
      CallsFlushOrKeep(t, id, f, asCall, ToolCalls.FromReported(status), DiffUpdate(0, [], [], []));
    case Ask(id, f, asCall) =>
      var asked := t.(channels := t.channels + [Open]);
      CallsFlushOrKeep(asked, id, f, asCall, ToolCalls.WaitingForConfirmation(|t.channels|), DiffUpdate(0, [], [], []));
    case _ =>
  }

  lemma NoPendingTextSurvives(t: Thread, op: Op)
    requires Valid(t) && Applies(t, op) && Flushes(t, op)
    ensures Step(t, op).text.buffer.None?
  {
    hide Step, Flushes;
    BufferAfter(t, op);
  }

  // ---- how soon text is shown

  /** At any point of a run the rate fits what is pending, so thirteen ticks in a row would show it. */
  lemma {:induction false} PaceIsKept(t: Thread, ops: seq<Op>)
    requires Valid(t) && Runs(t, ops) && TextStream.Paced(t.text)
    ensures TextStream.Paced(After(t, ops).text)
    ensures After(t, ops).text.buffer.Some? ==>
              TextStream.Ticks(After(t, ops).text, 13).buffer.value.pending == []
    decreases |ops|
  {
    hide Step, Applies, TextStream.Ticks;
    if ops == [] {
      if t.text.buffer.Some? {
        TextStream.DrainsInThirteenTicks(t.text);
      }
    } else {
      StepKeepsPace(t, ops[0]);
      PaceIsKept(Step(t, ops[0]), ops[1..]);
    }
  }

  lemma StepKeepsPace(t: Thread, op: Op)
    requires Valid(t) && Applies(t, op) && TextStream.Paced(t.text)
    ensures TextStream.Paced(Step(t, op).text)
  {
    hide Step, Applies, TextStream.BufferText, TextStream.Tick;
    BufferAfter(t, op);
    TextStream.NextKeepsPace(t.text, TextStream.Ticked);
    if op.AssistantChunk? && op.chunk.Text? {
      forall id: nat | id < |t.text.markdowns|
        ensures TextStream.Paced(TextStream.BufferText(t.text, id, op.chunk.text))
      {
        TextStream.NextKeepsPace(t.text, TextStream.Streamed(id, op.chunk.text));
      }
    }
  }

  /** Text from the assistant, which alone goes through the buffer. */
  predicate Arrives(op: Op) {
    op.AssistantChunk? && op.chunk.Text?
  }

  function TicksIn(ops: seq<Op>): nat {
    if ops == [] then 0 else (if ops[0].RevealTick? then 1 else 0) + TicksIn(ops[1..])
  }

  predicate NothingPending(t: Thread) {
    t.text.buffer.None? || t.text.buffer.value.pending == []
  }

  /** Without arrivals an update empties the buffer, leaves it, or is a tick that reveals the rate or all. */
  lemma QuietStep(t: Thread, op: Op)
    requires Valid(t) && Applies(t, op) && !Arrives(op)
    ensures var r := Step(t, op);
            || NothingPending(r)
            || (t.text.buffer.Some? && r.text.buffer.value.bytesPerTick == t.text.buffer.value.bytesPerTick
                && |r.text.buffer.value.pending| + (if op.RevealTick? then t.text.buffer.value.bytesPerTick else 0)
                     <= |t.text.buffer.value.pending|)
  {
    BufferAfter(t, op);
    if op.RevealTick? && t.text.buffer.Some? {
      var b := t.text.buffer.value;
      Utf8.CeilIsBoundary(b.pending, b.bytesPerTick);
    }
    hide Step, Flushes, TextStream.BufferText, Utf8.CeilBoundary;
    TickStep(t, op);
  }

  lemma TickStep(t: Thread, op: Op)
    requires Valid(t) && Applies(t, op)
    ensures op.RevealTick? ==> Step(t, op).text == TextStream.Tick(t.text)
  {
    hide TextStream.Tick;
  }

  lemma {:induction false} QuietRun(t: Thread, ops: seq<Op>)
    requires Valid(t) && Runs(t, ops) && forall i :: 0 <= i < |ops| ==> !Arrives(ops[i])
    ensures var r := After(t, ops);
            || NothingPending(r)
            || (t.text.buffer.Some? && r.text.buffer.value.bytesPerTick == t.text.buffer.value.bytesPerTick
                && |r.text.buffer.value.pending| + TicksIn(ops) * t.text.buffer.value.bytesPerTick
                     <= |t.text.buffer.value.pending|)
    decreases |ops|
  {
    hide Step, Applies;
    if ops != [] {
      QuietStep(t, ops[0]);
      QuietRun(Step(t, ops[0]), ops[1..]);
      if t.text.buffer.Some? {
        var rate, ticks := t.text.buffer.value.bytesPerTick, TicksIn(ops[1..]);
        assert (1 + ticks) * rate == rate + ticks * rate;
      }
    }
  }

  /**
    * In every run, whatever else happens in between: once thirteen ticks have come since the last
    * arrival of assistant text, which is before position n, nothing is pending.
    */
  lemma {:induction false} TextIsShownInTime(t: Thread, ops: seq<Op>, n: nat)
    requires Valid(t) && Runs(t, ops) && TextStream.Paced(t.text) && n <= |ops|
    requires forall i :: n <= i < |ops| ==> !Arrives(ops[i])
    requires TicksIn(ops[n..]) >= 13
    ensures NothingPending(After(t, ops))
    decreases |ops|
  {
    hide Step, Applies;
    if n == 0 {
      assert ops[0..] == ops;
      QuietRun(t, ops);
      if t.text.buffer.Some? {
        var rate := t.text.buffer.value.bytesPerTick;
        assert TicksIn(ops) * rate >= 13 * rate;
      }
    } else {
      StepKeepsPace(t, ops[0]);
      assert ops[1..][n - 1..] == ops[n..];
      TextIsShownInTime(Step(t, ops[0]), ops[1..], n - 1);
    }
  }
}
