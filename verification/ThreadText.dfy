/** All text of a thread stays well-formed UTF-8 in every run, although streaming cuts it up. */
module ThreadText {
  import opened Wrappers
  import Utf8
  import TextStream
  import opened Messages
  import ToolCalls
  import TerminalRegistry
  import opened AgentThread

  /** Chunks come with well-formed text. */
  predicate ChunkText(chunk: Chunk) {
    Utf8.Valid(StringContents(chunk))
  }

  /** A resource block keeps the text it will become when more is added. */
  predicate BlockText(block: Block) {
    block.Resource? ==> Utf8.Valid(block.link)
  }

  predicate EntryText(e: Entry) {
    match e
    case UserMessage(_, content, _, _) => BlockText(content)
    case AssistantMessage(parts, _) => PartsText(parts)
    case Call(_) => true
  }

  predicate PartsText(parts: seq<Part>) {
    forall k :: 0 <= k < |parts| ==> BlockText(parts[k].block)
  }

  predicate EntriesText(entries: seq<Entry>) {
    forall i :: 0 <= i < |entries| ==> EntryText(entries[i])
  }

  /** Every Markdown shows, and the buffer holds, well-formed text; so will what is added to a block. */
  predicate TextIsValid(t: Thread) {
    TextStream.WellFormedText(t.text) && EntriesText(t.entries)
  }

  /** The text that arrives with an update is well formed. */
  predicate BringsText(op: Op) {
    match op
    case Start(message) => forall i :: 0 <= i < |message| ==> ChunkText(message[i])
    case Say(_, content, _) => BlockText(content)
    case UserChunk(_, chunk, _) => ChunkText(chunk)
    case AssistantChunk(chunk, _, _) => ChunkText(chunk)
    case _ => true
  }

  // ---- blocks

  lemma {:induction false} AsciiIsValid(s: Utf8.Bytes)
    requires forall i :: 0 <= i < |s| ==> s[i] <= 0x7F
    ensures Utf8.Valid(s)
  {
    if s != [] {
      assert Utf8.CharLen(s) == 1;
      AsciiIsValid(s[1..]);
    }
  }

  /** A line break and more text after well-formed text. */
  lemma LinesJoin(a: Utf8.Bytes, b: Utf8.Bytes)
    requires Utf8.Valid(a) && Utf8.Valid(b)
    ensures Utf8.Valid(a + [Utf8.NEWLINE] + b)
  {
    hide Utf8.Valid, Utf8.CharLen;
    AsciiIsValid([Utf8.NEWLINE]);
    Utf8.JoinValid(a, [Utf8.NEWLINE]);
    Utf8.JoinValid(a + [Utf8.NEWLINE], b);
  }

  lemma AppendKeepsText(s: TextStream.Stream, block: Block, chunk: Chunk)
    requires TextStream.Live(s) && BlockLive(s, block)
    requires TextStream.WellFormedText(s) && BlockText(block) && ChunkText(chunk)
    ensures TextStream.WellFormedText(AppendChunk(s, block, chunk).0) && BlockText(AppendChunk(s, block, chunk).1)
  {
    hide Utf8.Valid, Utf8.CharLen;
    match block
    case Empty =>
    case Markdown(id) => Utf8.JoinValid(s.markdowns[id], StringContents(chunk));
    case Resource(_, link) => LinesJoin(link, StringContents(chunk));
    case Picture =>
      AsciiIsValid(IMAGE_MD);
      LinesJoin(IMAGE_MD, StringContents(chunk));
  }

  lemma {:induction false} CombiningKeepsText(s: TextStream.Stream, block: Block, chunks: seq<Chunk>)
    requires TextStream.Live(s) && BlockLive(s, block)
    requires TextStream.WellFormedText(s) && BlockText(block) && forall i :: 0 <= i < |chunks| ==> ChunkText(chunks[i])
    ensures TextStream.WellFormedText(AppendAll(s, block, chunks).0) && BlockText(AppendAll(s, block, chunks).1)
    decreases |chunks|
  {
    hide TextStream.WellFormedText, AppendChunk, ChunkText, BlockText;
    if chunks != [] {
      AppendKeepsText(s, block, chunks[0]);
      var step := AppendChunk(s, block, chunks[0]);
      CombiningKeepsText(step.0, step.1, chunks[1..]);
    }
  }

  /** A block that was made from well-formed chunks can be put into the thread. */
  lemma CombinedIsText(s: TextStream.Stream, chunks: seq<Chunk>)
    requires TextStream.Live(s) && TextStream.WellFormedText(s)
    requires forall i :: 0 <= i < |chunks| ==> ChunkText(chunks[i])
    ensures TextStream.WellFormedText(NewCombined(s, chunks).0) && BlockText(NewCombined(s, chunks).1)
  {
    hide TextStream.WellFormedText;
    CombiningKeepsText(s, Empty, chunks);
  }

  lemma FlushKeepsText(s: TextStream.Stream)
    requires TextStream.Live(s) && TextStream.WellFormedText(s)
    ensures TextStream.WellFormedText(TextStream.Flush(s))
  {
    hide TextStream.WellFormedText, TextStream.Flush;
    TextStream.NextKeepsText(s, TextStream.Emptied);
  }

  // ---- updates

  lemma AddKeepsParts(s: TextStream.Stream, parts: seq<Part>, chunk: Chunk, thought: bool)
    requires TextStream.Live(s) && (forall k :: 0 <= k < |parts| ==> BlockLive(s, parts[k].block))
    requires TextStream.WellFormedText(s) && PartsText(parts) && ChunkText(chunk)
    ensures var r := AddToParts(s, parts, chunk, thought); TextStream.WellFormedText(r.0) && PartsText(r.1)
  {
    hide TextStream.WellFormedText, AppendChunk, ChunkText;
    AppendKeepsText(s, Empty, chunk);
    if parts != [] {
      AppendKeepsText(s, parts[|parts| - 1].block, chunk);
    }
  }

  lemma UserChunkKeepsText(t: Thread, id: Option<MessageId>, chunk: Chunk, indented: bool)
    requires Valid(t) && TextIsValid(t) && ChunkText(chunk)
    ensures TextIsValid(PushUserChunk(t, id, chunk, indented))
  {
    hide TextStream.WellFormedText, TextStream.Flush, AppendChunk, ChunkText, BlockText;
    FlushKeepsText(t.text);
    EmptyIsText();
    AppendKeepsText(t.text, Empty, chunk);
    FlushKeepsText(NewBlock(t.text, chunk).0);
    var n := |t.entries|;
    if n > 0 && t.entries[n - 1].UserMessage? && t.entries[n - 1].indented == indented {
      assert EntryLive(t.text, t.entries[n - 1]) && EntryText(t.entries[n - 1]);
      AppendKeepsText(TextStream.Flush(t.text), t.entries[n - 1].content, chunk);
    }
  }

  lemma EmptyIsText()
    ensures BlockText(Empty)
  {
  }

  lemma AssistantChunkKeepsText(t: Thread, chunk: Chunk, thought: bool, indented: bool)
    requires Valid(t) && TextIsValid(t) && ChunkText(chunk)
    ensures TextIsValid(PushAssistantChunk(t, chunk, thought, indented))
  {
    var target := StreamingTarget(t.entries, thought, indented);
    if chunk.Text? && target.Some? {
      assert EntryLive(t.text, t.entries[|t.entries| - 1]);
      hide TextStream.WellFormedText, TextStream.BufferText;
      TextStream.NextKeepsText(t.text, TextStream.Streamed(target.value, chunk.text));
    } else {
      hide StreamingTarget;
      AddKeepsText(t, chunk, thought, indented);
    }
  }

  lemma AddKeepsText(t: Thread, chunk: Chunk, thought: bool, indented: bool)
    requires Valid(t) && TextIsValid(t) && ChunkText(chunk)
    ensures TextIsValid(AddToAssistant(t, chunk, thought, indented))
  {
    hide TextStream.WellFormedText, TextStream.Flush, AppendChunk, ChunkText, BlockText, AddToParts;
    FlushKeepsText(t.text);
    EmptyIsText();
    AppendKeepsText(t.text, Empty, chunk);
    FlushKeepsText(NewBlock(t.text, chunk).0);
    var n := |t.entries|;
    if n > 0 && t.entries[n - 1].AssistantMessage? && t.entries[n - 1].indented == indented {
      assert EntryLive(t.text, t.entries[n - 1]) && EntryText(t.entries[n - 1]);
      AddKeepsParts(TextStream.Flush(t.text), t.entries[n - 1].parts, chunk, thought);
    }
  }

  /** Turns flush, cancel calls and cut entries off; none of that touches text. */
  lemma TurnsKeepText(t: Thread, message: seq<Chunk>, turn: TurnId, response: Response)
    requires Valid(t) && TextIsValid(t) && forall i :: 0 <= i < |message| ==> ChunkText(message[i])
    ensures TextIsValid(StartTurn(t, message)) && TextIsValid(Cancel(t)) && TextIsValid(Complete(t, turn, response))
  {
    hide TextStream.WellFormedText, TextStream.Flush, NewCombined, DropHeld, BlockText, ChunkText, LastUserMessage;
    hide CallWithOutput, Uncompleted, Unfinished;
    FlushKeepsText(t.text);
    CombinedIsText(t.text, message);
    FlushKeepsText(NewCombined(t.text, message).0);
  }

  lemma CallsKeepText(t: Thread, id: ToolCalls.ToolCallId, f: ToolCalls.Fields, asCall: Option<ToolCalls.NewCall>,
                      status: ToolCalls.Status, update: CallUpdate)
    requires Valid(t) && TextIsValid(t)
    ensures TextIsValid(Upsert(t, id, f, asCall, status)) && TextIsValid(UpdateCall(t, update))
  {
    hide TextStream.WellFormedText, TextStream.Flush, IndexOf, ToolCalls.UpdateFields, ToolCalls.FromNew;
    hide ToolCalls.MissingCall, Settle, Overwrite, BlockText, PartsText;
    FlushKeepsText(t.text);
  }

  lemma StepKeepsText(t: Thread, op: Op)
    requires Valid(t) && Applies(t, op) && TextIsValid(t) && BringsText(op)
    ensures TextIsValid(Step(t, op))
  {
    hide TextStream.WellFormedText, TextStream.Flush, TextStream.Tick, StartTurn, Cancel, Complete, PushUserChunk;
    hide PushAssistantChunk, Upsert, UpdateCall, IndexOf, Settle, FirstWithId, TerminalsIn, DropHeld, BlockText;
    hide PartsText, ChunkText;
    hide TerminalRegistry.OnEvent, TerminalRegistry.Remove, ToolCalls.FromReported;
    FlushKeepsText(t.text);
    var noFields := ToolCalls.Fields(None, None, None, None, None);
    var noUpdate := DiffUpdate(0, [], [], []);
    match op
    case Start(message) => TurnsKeepText(t, message, 0, Lost);
    case CancelTurn => TurnsKeepText(t, [], 0, Lost);
    case Finish(turn, response) => TurnsKeepText(t, [], turn, response);
    case UserChunk(id, chunk, indented) => UserChunkKeepsText(t, id, chunk, indented);
    case AssistantChunk(chunk, thought, indented) => AssistantChunkKeepsText(t, chunk, thought, indented);
    case RevealTick => TextStream.NextKeepsText(t.text, TextStream.Ticked);
    case UpsertCall(id, f, asCall, status) => CallsKeepText(t, id, f, asCall, ToolCalls.FromReported(status), noUpdate);
    case Update(update) => CallsKeepText(t, 0, noFields, None, ToolCalls.Pending, update);
    case Ask(id, f, asCall) =>
      var asked := t.(channels := t.channels + [Open]);
      CallsKeepText(asked, id, f, asCall, ToolCalls.WaitingForConfirmation(|t.channels|), noUpdate);
    case _ =>
  }

  /** In every run with well-formed input, all Markdowns and the pending text stay well formed. */
  lemma {:induction false} TextStaysValid(t: Thread, ops: seq<Op>)
    requires Valid(t) && Runs(t, ops) && TextIsValid(t) && forall i :: 0 <= i < |ops| ==> BringsText(ops[i])
    ensures TextIsValid(After(t, ops))
    ensures var s := After(t, ops).text;
            && (forall i :: 0 <= i < |s.markdowns| ==> Utf8.Valid(s.markdowns[i]))
            && (s.buffer.Some? ==> Utf8.Valid(s.buffer.value.pending))
    decreases |ops|
  {
    hide Step, Applies, BringsText, EntriesText, Utf8.Valid;
    if ops != [] {
      StepKeepsText(t, ops[0]);
      TextStaysValid(Step(t, ops[0]), ops[1..]);
    }
  }

  lemma NewThreadIsText()
    ensures Valid(NEW_THREAD) && TextIsValid(NEW_THREAD)
  {
  }
}
