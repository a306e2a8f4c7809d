/**
  * What chunks do to the messages of a thread, told without the updates themselves: which entry and
  * which part a chunk joins, what stays of the others, and where its text goes.
  */
module MessageEffects {
  import opened Wrappers
  import Utf8
  import TextStream
  import opened Messages
  import ToolCalls
  import TerminalRegistry
  import opened AgentThread
  import opened ThreadStreaming
  import ThreadCalls
  import ThreadRewind
  import TurnEffects

  // ---- where a chunk's text goes

  /** What a block that is not Markdown puts before the text added to it. */
  function Prefix(block: Block): Utf8.Bytes {
    match block
    case Resource(_, link) => link + [Utf8.NEWLINE]
    case Picture => IMAGE_MD + [Utf8.NEWLINE]
    case _ => []
  }

  /** Chunks that a block can hold without text. */
  predicate HeldAsIs(chunk: Chunk) {
    chunk.ResourceLink? || chunk == Image(true)
  }

  /**
    * A chunk added to block `before` makes it `after`. A Markdown stays the same one and its text
    * grows by the chunk's. Any other block becomes a Markdown of its own, with the chunk's text
    * last, except that an empty one can become a link or a picture. No other Markdown changes.
    */
  ghost predicate Receives(t: Thread, r: Thread, before: Block, after: Block, chunk: Chunk) {
    var next := |t.text.markdowns|;
    && (before.Markdown? ==> after == before)
    && (before.Empty? && HeldAsIs(chunk) ==>
          after == if chunk.ResourceLink? then Resource(chunk.uri, chunk.link) else Picture)
    && (!before.Markdown? && !(before.Empty? && HeldAsIs(chunk)) ==> after == Markdown(next))
    && (forall id ::
          WithPending(r, id) ==
          if after != Markdown(id) then WithPending(t, id)
          else (if before == after then WithPending(t, id) else Prefix(before)) + StringContents(chunk))
  }

  lemma BlockReceives(t: Thread, op: Op, before: Block, after: Block, chunk: Chunk)
    requires Valid(t) && Applies(t, op) && BlockLive(t.text, before)
    requires after == BlockAfter(before, chunk, |t.text.markdowns|)
    requires forall id :: Added(t, op, id) == Gives(before, chunk, |t.text.markdowns|, id)
    ensures Receives(t, Step(t, op), before, after, chunk)
  {
    hide Added, Step, Applies, Runs, After, AddedIn, WithPending;
    forall id
      ensures WithPending(Step(t, op), id) == WithPending(t, id) + Gives(before, chunk, |t.text.markdowns|, id)
    {
      OneAdded(t, op, id);
    }
    NothingPendingFor(t, |t.text.markdowns|);
    forall id ensures WithPending(t, id) + [] == WithPending(t, id) {
    }
    assert forall x: Utf8.Bytes :: [] + x == x;
  }

  lemma OneAdded(t: Thread, op: Op, id: TextStream.MarkdownId)
    requires Valid(t) && Applies(t, op)
    ensures WithPending(Step(t, op), id) == WithPending(t, id) + Added(t, op, id)
  {
    hide Added, Step, Applies, WithPending;
    RunOfOne(t, op, id);
    TextArrivesInOrder(t, [op], id);
  }

  lemma RunOfOne(t: Thread, op: Op, id: TextStream.MarkdownId)
    requires Valid(t) && Applies(t, op)
    ensures Runs(t, [op]) && After(t, [op]) == Step(t, op) && AddedIn(t, [op], id) == Added(t, op, id)
  {
    hide Added, Step, Applies;
    var ops, r := [op], Step(t, op);
    assert ops[0] == op && ops[1..] == [];
    assert Runs(r, []) && After(r, []) == r && AddedIn(r, [], id) == [];
    assert Runs(t, ops);
    assert After(t, ops) == After(r, ops[1..]);
    assert Added(t, op, id) + [] == Added(t, op, id);
  }

  lemma NothingPendingFor(t: Thread, id: TextStream.MarkdownId)
    requires Valid(t) && id >= |t.text.markdowns|
    ensures WithPending(t, id) == []
  {
  }

  // ---- chunks of assistant messages

  predicate JoinsAssistant(entries: seq<Entry>, indented: bool) {
    entries != [] && entries[|entries| - 1].AssistantMessage? && entries[|entries| - 1].indented == indented
  }

  predicate JoinsPart(parts: seq<Part>, thought: bool) {
    parts != [] && parts[|parts| - 1].thought == thought
  }

  /** Only the block of the last part has changed, or a part of the chunk's kind has been added. */
  predicate PartsTake(before: seq<Part>, after: seq<Part>, thought: bool) {
    if JoinsPart(before, thought) then
      |after| == |before| && after[..|before| - 1] == before[..|before| - 1] && after[|before| - 1].thought == thought
    else
      |after| == |before| + 1 && after[..|before|] == before && after[|before|].thought == thought
  }

  function JoinedBlock(parts: seq<Part>, thought: bool): Block {
    if JoinsPart(parts, thought) then parts[|parts| - 1].block else Empty
  }

  /** The parts of the message a chunk joins; none if it starts a new one. */
  function JoinedParts(entries: seq<Entry>, indented: bool): seq<Part> {
    if JoinsAssistant(entries, indented) then entries[|entries| - 1].parts else []
  }

  /** The entry a chunk joins: the last, if it is an assistant message of its indent, or else a new one. */
  function JoinedAt(entries: seq<Entry>, indented: bool): nat {
    if JoinsAssistant(entries, indented) then |entries| - 1 else |entries|
  }

  /** All earlier entries stay, and the message joined takes the chunk. */
  predicate MessageTakes(before: seq<Entry>, after: seq<Entry>, thought: bool, indented: bool) {
    var ix := JoinedAt(before, indented);
    && |after| == ix + 1 && after[..ix] == before[..ix]
    && after[ix].AssistantMessage? && after[ix].indented == indented
    && PartsTake(JoinedParts(before, indented), after[ix].parts, thought)
  }

  function LastPart(e: Entry): Block
    requires e.AssistantMessage? && e.parts != []
  {
    e.parts[|e.parts| - 1].block
  }

  /**
    * A chunk from the assistant joins the last entry if that is an assistant message of its indent,
    * and adds a message otherwise. All earlier entries stay, and so do all parts of the message but
    * the block the chunk joins. That block's Markdown receives the text, at once or by streaming.
    */
  lemma AssistantChunkEffects(t: Thread, chunk: Chunk, thought: bool, indented: bool)
    requires Valid(t)
    ensures var r := Step(t, AssistantChunk(chunk, thought, indented));
            && MessageTakes(t.entries, r.entries, thought, indented)
            && Receives(t, r, JoinedBlock(JoinedParts(t.entries, indented), thought),
                        LastPart(r.entries[JoinedAt(t.entries, indented)]), chunk)
  {
    var op := AssistantChunk(chunk, thought, indented);
    var block := LastBlock(t.entries, thought, indented);
    assert block == JoinedBlock(JoinedParts(t.entries, indented), thought);
    if t.entries != [] {
      assert EntryLive(t.text, t.entries[|t.entries| - 1]);
    }
    BlockReceives(t, op, block, BlockAfter(block, chunk, |t.text.markdowns|), chunk);
    hide Receives;
    ChunkJoins(t, chunk, thought, indented);
  }

  /** The entries alone. */
  lemma ChunkJoins(t: Thread, chunk: Chunk, thought: bool, indented: bool)
    requires Valid(t)
    ensures var r := Step(t, AssistantChunk(chunk, thought, indented)).entries;
            && MessageTakes(t.entries, r, thought, indented)
            && LastPart(r[JoinedAt(t.entries, indented)]) ==
                 BlockAfter(LastBlock(t.entries, thought, indented), chunk, |t.text.markdowns|)
  {
    if chunk.Text? && StreamingTarget(t.entries, thought, indented).Some? {
      TextJoinsMarkdown(LastBlock(t.entries, thought, indented), chunk, |t.text.markdowns|);
      hide BlockAfter, TextStream.BufferText;
    } else {
      AddingJoins(t, chunk, thought, indented);
      hide AddToAssistant, MessageTakes, BlockAfter;
    }
  }

  lemma AddingJoins(t: Thread, chunk: Chunk, thought: bool, indented: bool)
    requires Valid(t)
    ensures var r := AddToAssistant(t, chunk, thought, indented).entries;
            && MessageTakes(t.entries, r, thought, indented)
            && LastPart(r[JoinedAt(t.entries, indented)]) ==
                 BlockAfter(LastBlock(t.entries, thought, indented), chunk, |t.text.markdowns|)
  {
    if JoinsAssistant(t.entries, indented) {
      var parts := AddedParts(t, chunk, thought, indented);
      hide AddToAssistant, MessageTakes, PartsTake, BlockAfter, Valid;
      ReplacedTakes(t.entries, parts, thought, indented);
    } else {
      hide TextStream.Flush, TextStream.Shown, AppendChunk, BlockAfter, Made, Gives, MessageTakes;
      AppendAdds(t.text, Empty, chunk, 0);
      NewPartTakes(t.entries, Part(thought, NewBlock(t.text, chunk).1), indented);
    }
  }

  /** The parts of the last message after a chunk of its indent has joined it. */
  lemma AddedParts(t: Thread, chunk: Chunk, thought: bool, indented: bool) returns (parts: seq<Part>)
    requires Valid(t) && JoinsAssistant(t.entries, indented)
    ensures AddToAssistant(t, chunk, thought, indented).entries ==
              t.entries[|t.entries| - 1 := AssistantMessage(parts, indented)]
    ensures PartsTake(JoinedParts(t.entries, indented), parts, thought)
    ensures parts[|parts| - 1].block ==
              BlockAfter(LastBlock(t.entries, thought, indented), chunk, |t.text.markdowns|)
  {
    var e := t.entries[|t.entries| - 1];
    assert EntryLive(t.text, e);
    assert EntryLive(Flushed(t).text, e);
    PartsTakeChunk(TextStream.Flush(t.text), e.parts, chunk, thought);
    hide TextStream.Flush, AddToParts, PartsTake, BlockAfter, NewBlock;
    parts := AddToParts(TextStream.Flush(t.text), e.parts, chunk, thought).1;
  }

  lemma ReplacedTakes(before: seq<Entry>, parts: seq<Part>, thought: bool, indented: bool)
    requires JoinsAssistant(before, indented) && PartsTake(JoinedParts(before, indented), parts, thought)
    ensures MessageTakes(before, before[|before| - 1 := AssistantMessage(parts, indented)], thought, indented)
  {
  }

  lemma NewPartTakes(before: seq<Entry>, part: Part, indented: bool)
    requires !JoinsAssistant(before, indented)
    ensures MessageTakes(before, before + [AssistantMessage([part], indented)], part.thought, indented)
  {
  }

  lemma PartsTakeChunk(s: TextStream.Stream, parts: seq<Part>, chunk: Chunk, thought: bool)
    requires TextStream.Live(s) && forall k :: 0 <= k < |parts| ==> BlockLive(s, parts[k].block)
    ensures var after := AddToParts(s, parts, chunk, thought).1;
            && PartsTake(parts, after, thought)
            && after[|after| - 1].block == BlockAfter(JoinedBlock(parts, thought), chunk, |s.markdowns|)
  {
    hide AppendChunk, BlockAfter, Made;
    AppendAdds(s, JoinedBlock(parts, thought), chunk, 0);
  }

  lemma TextJoinsMarkdown(block: Block, chunk: Chunk, next: nat)
    ensures block.Markdown? ==> BlockAfter(block, chunk, next) == block
  {
  }

  // ---- chunks of user messages

  predicate JoinsUser(entries: seq<Entry>, indented: bool) {
    entries != [] && entries[|entries| - 1].UserMessage? && entries[|entries| - 1].indented == indented
  }

  /**
    * A chunk from the user joins the last entry if that is a user message of its indent, which takes
    * the chunk's message id if it brings one; otherwise it starts a message. All else stays.
    */
  lemma UserChunkEffects(t: Thread, id: Option<MessageId>, chunk: Chunk, indented: bool)
    requires Valid(t)
    ensures var r, n := Step(t, UserChunk(id, chunk, indented)), |t.entries|;
            if JoinsUser(t.entries, indented) then
              var last := t.entries[n - 1];
              && |r.entries| == n && r.entries[..n - 1] == t.entries[..n - 1] && r.entries[n - 1].UserMessage?
              && r.entries[n - 1].id == (if id.Some? then id else last.id)
              && r.entries[n - 1].chunks == last.chunks + [chunk] && r.entries[n - 1].indented == indented
              && Receives(t, r, last.content, r.entries[n - 1].content, chunk)
            else
              && |r.entries| == n + 1 && r.entries[..n] == t.entries && r.entries[n].UserMessage?
              && r.entries[n].id == id && r.entries[n].chunks == [chunk] && r.entries[n].indented == indented
              && Receives(t, r, Empty, r.entries[n].content, chunk)
  {
    var block := LastContent(t.entries, indented);
    if t.entries != [] {
      assert EntryLive(t.text, t.entries[|t.entries| - 1]);
      assert EntryLive(Flushed(t).text, t.entries[|t.entries| - 1]);
    }
    BlockReceives(t, UserChunk(id, chunk, indented), block, BlockAfter(block, chunk, |t.text.markdowns|), chunk);
    hide Receives, TextStream.Flush, AppendChunk, BlockAfter, Made;
    AppendAdds(TextStream.Flush(t.text), block, chunk, 0);
    AppendAdds(t.text, Empty, chunk, 0);
  }

  // ---- messages over whole runs

  /** Every other update neither makes an assistant message nor changes one, other than by cutting it off. */
  lemma OthersKeepMessages(t: Thread, op: Op, i: nat)
    requires Valid(t) && Applies(t, op) && !op.AssistantChunk?
    requires i < |Step(t, op).entries|
    requires Step(t, op).entries[i].AssistantMessage? || (i < |t.entries| && t.entries[i].AssistantMessage?)
    ensures i < |t.entries| && Step(t, op).entries[i] == t.entries[i]
  {
    hide StartTurn, Cancel, Complete, PushUserChunk, Upsert, UpdateCall, AskPermission, Authorize, FinishRewind;
    hide Receives, TurnEffects.AllShown, TurnEffects.CompletedCleared, TurnEffects.RefusedCutOff, Flushed;
    hide ThreadRewind.Shows, TerminalRegistry.OnEvent, TerminalRegistry.Remove, ToolCalls.FromReported;
    var r := Step(t, op);
    match op
    case Start(message) => TurnEffects.StartingEffects(t, message);
    case CancelTurn => TurnEffects.CancellingEffects(t);
    case Finish(turn, response) =>
      TurnEffects.CompletionEffects(t, turn, response);
      if response == Stopped(Refusal) {
        CutOffKeeps(t.entries, r.entries);
      }
    case UserChunk(id, chunk, indented) =>
      UserChunkEffects(t, id, chunk, indented);
      var n := |r.entries| - 1;
      assert i < n ==> r.entries[..n][i] == r.entries[i];
      assert i < n ==> t.entries[..n][i] == t.entries[i];
    case UpsertCall(_, _, _, _) => CallsKeepMessages(t, op, i);
    case Update(_) => CallsKeepMessages(t, op, i);
    case Ask(_, _, _) => CallsKeepMessages(t, op, i);
    case Answer(_, _, _) => CallsKeepMessages(t, op, i);
    case EndRewind(id) => ThreadRewind.RewindIsExact(t, id);
    case _ =>
  }

  lemma CutOffKeeps(before: seq<Entry>, after: seq<Entry>)
    requires TurnEffects.RefusedCutOff(before, after)
    ensures after <= before
  {
    if exists ix :: TurnEffects.RefusedAt(before, ix) {
      var ix :| TurnEffects.RefusedAt(before, ix);
    }
  }

  lemma CallsKeepMessages(t: Thread, op: Op, i: nat)
    requires Valid(t) && Applies(t, op) && (op.UpsertCall? || op.Ask? || op.Answer? || op.Update?)
    requires i < |Step(t, op).entries|
    requires Step(t, op).entries[i].AssistantMessage? || (i < |t.entries| && t.entries[i].AssistantMessage?)
    ensures i < |t.entries| && Step(t, op).entries[i] == t.entries[i]
  {
    hide Step;
    ThreadCalls.UpdatesTouchOneEntry(t, op);
    var r := Step(t, op).entries;
    if |r| == |t.entries| + 1 && i < |t.entries| {
      assert r[..|t.entries|][i] == r[i];
    }
  }

  function Kinds(parts: seq<Part>): seq<bool> {
    seq(|parts|, k requires 0 <= k < |parts| => parts[k].thought)
  }

  /** The parts of the assistant message at position i; none if there is no such message. */
  function PartsAt(entries: seq<Entry>, i: nat): seq<Part> {
    if i < |entries| && entries[i].AssistantMessage? then entries[i].parts else []
  }

  /** The part, if any, that an update adds to the message at position i, or makes it with. */
  function PartAdded(t: Thread, op: Op, i: nat): seq<bool> {
    if op.AssistantChunk? && i == JoinedAt(t.entries, op.indented)
       && !JoinsPart(JoinedParts(t.entries, op.indented), op.thought)
    then [op.thought] else []
  }

  function PartsAdded(t: Thread, ops: seq<Op>, i: nat): seq<bool>
    requires Valid(t) && Runs(t, ops)
    decreases |ops|
  {
    if ops == [] then [] else PartAdded(t, ops[0], i) + PartsAdded(Step(t, ops[0]), ops[1..], i)
  }

  /** Position i is never cut off once it is taken. */
  predicate Stays(t: Thread, ops: seq<Op>, i: nat)
    requires Valid(t) && Runs(t, ops)
    decreases |ops|
  {
    ops == [] || ((i < |t.entries| ==> i < |Step(t, ops[0]).entries|) && Stays(Step(t, ops[0]), ops[1..], i))
  }

  /** Parts are kept in order and kind; Markdowns stay, and so does every part that another follows. */
  predicate PartsKept(before: seq<Part>, after: seq<Part>) {
    && |before| <= |after|
    && (forall k :: 0 <= k < |before| ==> after[k].thought == before[k].thought)
    && (forall k :: 0 <= k < |before| && (k + 1 < |before| || before[k].block.Markdown?) ==> after[k] == before[k])
  }

  lemma StepKeepsParts(t: Thread, op: Op, i: nat)
    requires Valid(t) && Applies(t, op) && (i < |t.entries| ==> i < |Step(t, op).entries|)
    ensures var r := Step(t, op).entries;
            && PartsKept(PartsAt(t.entries, i), PartsAt(r, i))
            && Kinds(PartsAt(r, i)) == Kinds(PartsAt(t.entries, i)) + PartAdded(t, op, i)
  {
    hide Step;
    var r, parts := Step(t, op).entries, PartsAt(t.entries, i);
    if op.AssistantChunk? {
      AssistantChunkEffects(t, op.chunk, op.thought, op.indented);
      var ix := JoinedAt(t.entries, op.indented);
      hide PartsTake, Kinds, PartsKept;
      if i == ix {
        assert JoinedParts(t.entries, op.indented) == parts;
        TakingKeepsParts(parts, r[i].parts, op.thought);
      } else {
        assert i < ix ==> r[..ix][i] == t.entries[..ix][i];
        PartsStay(parts);
      }
    } else {
      hide PartsKept, Kinds;
      if i < |r| && (r[i].AssistantMessage? || (i < |t.entries| && t.entries[i].AssistantMessage?)) {
        OthersKeepMessages(t, op, i);
      }
      PartsStay(parts);
    }
  }

  lemma PartsStay(parts: seq<Part>)
    ensures PartsKept(parts, parts) && Kinds(parts) == Kinds(parts) + []
  {
  }

  lemma TakingKeepsParts(before: seq<Part>, after: seq<Part>, thought: bool)
    requires PartsTake(before, after, thought)
    requires JoinedBlock(before, thought).Markdown? ==> after[|after| - 1].block == JoinedBlock(before, thought)
    ensures PartsKept(before, after)
    ensures Kinds(after) == Kinds(before) + if JoinsPart(before, thought) then [] else [thought]
  {
    assert forall k :: 0 <= k < |before| - 1 ==> after[..|before| - 1][k] == after[k];
    assert |after| > |before| ==> forall k :: 0 <= k < |before| ==> after[..|before|][k] == after[k];
  }

  lemma KeptOn(a: seq<Part>, b: seq<Part>, c: seq<Part>)
    requires PartsKept(a, b) && PartsKept(b, c)
    ensures PartsKept(a, c)
  {
  }

  /**
    * In every run an assistant message that is not cut off, made before the run or in it, keeps all
    * its parts, and has exactly one more for each chunk that reaches it and is not of the kind of its
    * last part then. No other update adds, removes or changes a part.
    */
  lemma {:induction false} MessagesKeepTheirParts(t: Thread, ops: seq<Op>, i: nat)
    requires Valid(t) && Runs(t, ops) && Stays(t, ops, i)
    ensures var before, after := PartsAt(t.entries, i), PartsAt(After(t, ops).entries, i);
            PartsKept(before, after) && Kinds(after) == Kinds(before) + PartsAdded(t, ops, i)
    decreases |ops|
  {
    hide Step, Applies, PartAdded, PartsAt, Kinds, PartsKept;
    var before := PartsAt(t.entries, i);
    if ops == [] {
      PartsStay(before);
    } else {
      var r := Step(t, ops[0]);
      StepKeepsParts(t, ops[0], i);
      MessagesKeepTheirParts(r, ops[1..], i);
      KeptOn(before, PartsAt(r.entries, i), PartsAt(After(t, ops).entries, i));
      var a, b := PartAdded(t, ops[0], i), PartsAdded(r, ops[1..], i);
      assert (Kinds(before) + a) + b == Kinds(before) + (a + b);
    }
  }
}
