/** The agent thread as the object it is: each method is one atomic update of its fields. */
module AcpThread {
  import opened Wrappers
  import opened Utf8
  import opened TextStream
  import opened Messages
  import opened ToolCalls
  import opened TerminalRegistry
  import opened AgentThread

  class AcpThread {
    var entries: seq<Entry>
    var plan: seq<PlanEntry>
    /** The source texts of all Markdown entities that messages refer to. */
    var markdowns: seq<Bytes>
    var streamingTextBuffer: Option<Buffer>
    var channels: seq<Channel>
    var turnId: TurnId
    var runningTurn: Option<TurnId>
    var hadError: bool
    var terminals: map<TerminalId, Bytes>
    var pendingTerminalOutput: map<TerminalId, seq<Bytes>>
    var pendingTerminalExit: set<TerminalId>

    function Text(): Stream
      reads this
    {
      Stream(markdowns, streamingTextBuffer)
    }

    function Registry(): Terminals
      reads this
    {
      Terminals(terminals, pendingTerminalOutput, pendingTerminalExit)
    }

    /** The state these fields represent. */
    function Model(): Thread
      reads this
    {
      Thread(entries, plan, Text(), channels, turnId, runningTurn, hadError, Registry())
    }

    predicate Consistent()
      reads this
    {
      AgentThread.Valid(Model())
    }

    constructor ()
      ensures Consistent() && Model() == NEW_THREAD
    {
      entries, plan, markdowns, streamingTextBuffer, channels := [], [], [], None, [];
      turnId, runningTurn, hadError := 0, None, false;
      terminals, pendingTerminalOutput, pendingTerminalExit := map[], map[], {};
    }

    // ---- streaming text

    method FlushStreamingText()
      requires Consistent()
      modifies this`markdowns, this`streamingTextBuffer
      ensures Consistent() && Model() == Flushed(old(Model()))
    {
      LiveGrows(Text(), Flush(Text()), entries);
      if streamingTextBuffer.Some? {
        var b := streamingTextBuffer.value;
        streamingTextBuffer := None;
        if b.pending != [] {
          markdowns := markdowns[b.target := markdowns[b.target] + b.pending];
        }
      }
    }

    /** Adds text to the streaming buffer; if the target changed, the buffer is flushed first. */
    method BufferStreamingText(id: MarkdownId, text: Bytes)
      requires Consistent() && id < |markdowns|
      modifies this`markdowns, this`streamingTextBuffer
      ensures Consistent() && Model() == old(Model()).(text := BufferText(old(Text()), id, text))
    {
      LiveGrows(Text(), BufferText(Text(), id, text), entries);
      if streamingTextBuffer.Some? {
        var b := streamingTextBuffer.value;
        if b.target == id {
          var pending := b.pending + text;
          streamingTextBuffer := Some(Buffer(pending, Rate(|pending|), id));
          return;
        }
        FlushStreamingText();
      }
      streamingTextBuffer := Some(Buffer(text, Rate(|text|), id));
    }

    /** One firing of the reveal timer, and whether it goes on. */
    method Reveal() returns (goesOn: bool)
      requires Consistent()
      modifies this`markdowns, this`streamingTextBuffer
      ensures Consistent() && Model() == Step(old(Model()), RevealTick)
      ensures goesOn == old(streamingTextBuffer.Some?)
    {
      LiveGrows(Text(), Tick(Text()), entries);
      if streamingTextBuffer.None? {
        return false;
      }
      var b := streamingTextBuffer.value;
      if b.pending != [] {
        var cut := CeilCut(b);
        markdowns := markdowns[b.target := markdowns[b.target] + b.pending[..cut]];
        streamingTextBuffer := Some(b.(pending := b.pending[cut..]));
      }
      return true;
    }

    static method CeilCut(b: Buffer) returns (cut: nat)
      ensures cut == Cut(b)
    {
      cut := b.bytesPerTick;
      if cut >= |b.pending| {
        return |b.pending|;
      }
      while cut < |b.pending| && !IsBoundary(b.pending, cut)
        invariant b.bytesPerTick <= cut <= |b.pending|
        invariant CeilBoundary(b.pending, cut) == CeilBoundary(b.pending, b.bytesPerTick)
      {
        cut := cut + 1;
      }
    }

    // ---- messages

    method AddEntry(e: Entry)
      requires Consistent() && EntryLive(Text(), e)
      modifies this`markdowns, this`streamingTextBuffer, this`entries
      ensures Consistent() && Model() == PushEntry(old(Model()), e)
    {
      FlushStreamingText();
      entries := entries + [e];
    }

    method AppendToBlock(block: Block, chunk: Chunk) returns (r: Block)
      requires Consistent() && BlockLive(Text(), block)
      modifies this`markdowns
      ensures Consistent() && (Text(), r) == AppendChunk(old(Text()), block, chunk)
    {
      LiveGrows(Text(), AppendChunk(Text(), block, chunk).0, entries);
      match block {
        case Empty =>
          if chunk.ResourceLink? {
            return Resource(chunk.uri, chunk.link);
          } else if chunk.Image? && chunk.decodable {
            return Picture;
          }
          r := Markdown(|markdowns|);
          markdowns := markdowns + [StringContents(chunk)];
        case Markdown(id) =>
          r := block;
          markdowns := markdowns[id := markdowns[id] + StringContents(chunk)];
        case Resource(_, link) =>
          r := Markdown(|markdowns|);
          markdowns := markdowns + [link + [NEWLINE] + StringContents(chunk)];
        case Picture =>
          r := Markdown(|markdowns|);
          markdowns := markdowns + [IMAGE_MD + [NEWLINE] + StringContents(chunk)];
      }
    }

    method PushUserContentBlock(id: Option<MessageId>, chunk: Chunk, indented: bool)
      requires Consistent()
      modifies this`markdowns, this`streamingTextBuffer, this`entries
      ensures Consistent() && Model() == PushUserChunk(old(Model()), id, chunk, indented)
    {
      hide Flush, AppendChunk;
      var n := |entries|;
      if n > 0 && entries[n - 1].UserMessage? && entries[n - 1].indented == indented {
        FlushStreamingText();
        var last := entries[n - 1];
        assert EntryLive(Text(), last);
        var content := AppendToBlock(last.content, chunk);
        var e := UserMessage(if id.Some? then id else last.id, content, last.chunks + [chunk], indented);
        entries := entries[n - 1 := e];
      } else {
        var content := AppendToBlock(Empty, chunk);
        AddEntry(UserMessage(id, content, [chunk], indented));
      }
    }

    method ExtendParts(parts: seq<Part>, chunk: Chunk, thought: bool) returns (r: seq<Part>)
      requires Consistent() && forall k :: 0 <= k < |parts| ==> BlockLive(Text(), parts[k].block)
      modifies this`markdowns
      ensures Consistent() && (Text(), r) == AddToParts(old(Text()), parts, chunk, thought)
    {
      hide AppendChunk;
      var m := |parts|;
      if m > 0 && parts[m - 1].thought == thought {
        var block := AppendToBlock(parts[m - 1].block, chunk);
        r := parts[m - 1 := Part(thought, block)];
      } else {
        var block := AppendToBlock(Empty, chunk);
        r := parts + [Part(thought, block)];
      }
    }

    /** Text for a Markdown that the last message ends in is streamed; all else is added at once. */
    method PushAssistantContentBlock(chunk: Chunk, thought: bool, indented: bool)
      requires Consistent()
      modifies this`markdowns, this`streamingTextBuffer, this`entries
      ensures Consistent() && Model() == PushAssistantChunk(old(Model()), chunk, thought, indented)
    {
      hide Flush, BufferText, AddToAssistant;
      var target := StreamingTarget(entries, thought, indented);
      if chunk.Text? && target.Some? {
        assert EntryLive(Text(), entries[|entries| - 1]);
        BufferStreamingText(target.value, chunk.text);
      } else {
        AddAssistantContentBlock(chunk, thought, indented);
      }
    }

    method AddAssistantContentBlock(chunk: Chunk, thought: bool, indented: bool)
      requires Consistent()
      modifies this`markdowns, this`streamingTextBuffer, this`entries
      ensures Consistent() && Model() == AddToAssistant(old(Model()), chunk, thought, indented)
    {
      hide Flush, AppendChunk, AddToParts;
      var n := |entries|;
      if n > 0 && entries[n - 1].AssistantMessage? && entries[n - 1].indented == indented {
        FlushStreamingText();
        assert EntryLive(Text(), entries[n - 1]);
        var parts := ExtendParts(entries[n - 1].parts, chunk, thought);
        LiveReplaced(Text(), entries, n - 1, AssistantMessage(parts, indented));
        entries := entries[n - 1 := AssistantMessage(parts, indented)];
      } else {
        var block := AppendToBlock(Empty, chunk);
        AddEntry(AssistantMessage([Part(thought, block)], indented));
      }
    }

    // ---- tool calls

    method IndexForToolCall(id: ToolCallId) returns (ix: Option<nat>)
      ensures ix == IndexOf(entries, id)
    {
      var i := |entries|;
      assert entries[..i] == entries;
      while i > 0
        invariant i <= |entries| && IndexOf(entries, id) == IndexOf(entries[..i], id)
      {
        i := i - 1;
        assert entries[..i + 1][..i] == entries[..i];
        if entries[i].Call? && entries[i].call.id == id {
          return Some(i);
        }
      }
      return None;
    }

    /** Stores a call's record back; a status that it overwrites drops the sender it holds. */
    method StoreCall(ix: nat, call: ToolCall)
      requires Consistent() && ix < |entries| && entries[ix].Call?
      modifies this`entries, this`channels
      ensures Consistent() && Model() == SetCall(old(Model()), ix, call)
    {
      LiveReplaced(Text(), entries, ix, Call(call));
      if call.status != entries[ix].call.status {
        channels := Overwrite(channels, entries[ix].call.status);
      }
      entries := entries[ix := Call(call)];
    }

    method UpdateToolCall(update: CallUpdate)
      requires Consistent()
      modifies this`entries, this`channels, this`markdowns, this`streamingTextBuffer
      ensures Consistent() && Model() == UpdateCall(old(Model()), update)
    {
      hide Flush, UpdateFields, SetCall;
      var found := IndexForToolCall(update.id);
      if found.None? {
        AddEntry(Call(MissingCall(update.id)));
        return;
      }
      var ix := found.value;
      var call := entries[ix].call;
      match update {
        case FieldsUpdate(_, fields) =>
          var ok;
          call, ok := UpdateRecord(call, fields, terminals.Keys);
        case DiffUpdate(_, path, base, text) => call := call.(content := [DiffContent(path, base, text)]);
        case TerminalUpdate(_, terminal) => call := call.(content := [TerminalContent(terminal)]);
      }
      StoreCall(ix, call);
    }

    method UpsertToolCallInner(id: ToolCallId, fields: Fields, asCall: Option<NewCall>, status: Status)
      returns (ok: bool)
      requires Consistent()
      modifies this`entries, this`channels, this`markdowns, this`streamingTextBuffer
      ensures Consistent() && Model() == Upsert(old(Model()), id, fields, asCall, status)
      ensures ok <==> UpsertSucceeds(old(Model()), id, fields, asCall, status)
    {
      hide Flush, UpdateFields, SetCall, FromNew;
      var found := IndexForToolCall(id);
      if found.Some? {
        var ix := found.value;
        var call;
        call, ok := UpdateRecord(entries[ix].call, fields, terminals.Keys);
        StoreCall(ix, call);
        if ok {
          StoreCall(ix, call.(status := status));
        } else {
          channels := Overwrite(channels, status);
        }
      } else {
        var call := Err;
        if asCall.Some? {
          call := NewRecord(id, asCall.value, status, terminals.Keys);
        }
        ok := call.Ok?;
        if ok {
          AddEntry(Call(call.value));
        } else {
          channels := Overwrite(channels, status);
        }
      }
    }

    method RequestToolCallAuthorization(id: ToolCallId, fields: Fields, asCall: Option<NewCall>)
      returns (ok: bool, reply: ChannelId)
      requires Consistent()
      modifies this`entries, this`channels, this`markdowns, this`streamingTextBuffer
      ensures Consistent() && Model() == AskPermission(old(Model()), id, fields, asCall)
      ensures reply == |old(channels)|
      ensures ok <==> UpsertSucceeds(old(Model()), id, fields, asCall, WaitingForConfirmation(reply))
    {
      hide Upsert;
      reply := |channels|;
      channels := channels + [Open];
      ok := UpsertToolCallInner(id, fields, asCall, WaitingForConfirmation(reply));
    }

    method AuthorizeToolCall(id: ToolCallId, option: OptionId, allow: bool)
      requires Consistent()
      modifies this`entries, this`channels
      ensures Consistent() && Model() == Authorize(old(Model()), id, option, allow)
    {
      var found := IndexForToolCall(id);
      if found.Some? {
        var call := entries[found.value].call;
        if call.status.WaitingForConfirmation? {
          channels := Settle(channels, call.status.reply, Answered(option));
        }
        call := call.(status := if allow then InProgress else Rejected);
        LiveReplaced(Text(), entries, found.value, Call(call));
        entries := entries[found.value := Call(call)];
      }
    }

    // ---- the plan

    /** Reuses the entries there are; whatever they were, the plan is then the one requested. */
    method UpdatePlan(request: seq<PlanEntry>)
      requires Consistent()
      modifies this`plan
      ensures Consistent() && Model() == old(Model()).(plan := request)
    {
      var i := 0;
      while i < |plan| && i < |request|
        invariant i <= |plan| == |old(plan)| && i <= |request|
        invariant plan[..i] == request[..i]
      {
        plan := plan[i := plan[i].(content := request[i].content)];
        plan := plan[i := plan[i].(priority := request[i].priority)];
        plan := plan[i := plan[i].(status := request[i].status)];
        i := i + 1;
      }
      while i < |request|
        invariant i <= |request| && i <= |plan|
        invariant i < |request| ==> i == |plan|
        invariant plan[..i] == request[..i]
      {
        plan := plan + [request[i]];
        i := i + 1;
      }
      plan := plan[..|request|];
    }

    method ClearCompletedPlanEntries()
      requires Consistent()
      modifies this`plan
      ensures Consistent() && plan == Uncompleted(old(plan))
    {
      var kept, i := [], 0;
      while i < |plan|
        invariant i <= |plan| && kept + Uncompleted(plan[i..]) == Uncompleted(old(plan)) && plan == old(plan)
      {
        ghost var rest := Uncompleted(plan[i + 1..]);
        assert Uncompleted(plan[i..]) == (if plan[i].status.PlanCompleted? then [] else [plan[i]]) + rest by {
          assert plan[i..][1..] == plan[i + 1..];
        }
        hide Uncompleted;
        if !plan[i].status.PlanCompleted? {
          assert kept + ([plan[i]] + rest) == (kept + [plan[i]]) + rest;
          kept := kept + [plan[i]];
        } else {
          assert [] + rest == rest;
        }
        i := i + 1;
      }
      assert kept + [] == kept;
      plan := kept;
    }

    // ---- turns

    method MarkPendingToolsAsCanceled()
      requires Consistent()
      modifies this`entries, this`channels
      ensures Consistent() && Model() == MarkPending(old(Model()))
    {
      assert DropHeld(channels, []) == channels;
      hide DropHeld, Settle, EntryLive;
      ghost var t := Model();
      var i := 0;
      while i < |entries|
        invariant i <= |entries| == |t.entries|
        invariant forall k :: 0 <= k < i ==> entries[k] == Canceling(t.entries[k])
        invariant forall k :: i <= k < |entries| ==> entries[k] == t.entries[k]
        invariant channels == DropHeld(t.channels, t.entries[..i])
      {
        DropNext(t.channels, t.entries[..i], t.entries[i]);
        assert t.entries[..i] + [t.entries[i]] == t.entries[..i + 1];
        if entries[i].Call? && Unfinished(entries[i].call.status) {
          channels := Overwrite(channels, entries[i].call.status);
          entries := entries[i := Call(entries[i].call.(status := Canceled))];
        }
        i := i + 1;
      }
      assert t.entries[..i] == t.entries;
      assert entries == MarkPending(t).entries;
    }

    /** Removes the entries from n on, with the senders that their statuses hold. */
    method Truncate(n: nat)
      requires Consistent() && n <= |entries|
      modifies this`entries, this`channels
      ensures Consistent() && Model() == TruncateTo(old(Model()), n)
    {
      assert DropHeld(channels, []) == channels;
      hide DropHeld, Overwrite;
      ghost var before := channels;
      assert entries[n..n] == [];
      var i := n;
      while i < |entries|
        invariant n <= i <= |entries| && entries == old(entries)
        invariant channels == DropHeld(before, entries[n..i])
      {
        DropNext(before, entries[n..i], entries[i]);
        assert entries[n..i] + [entries[i]] == entries[n..i + 1];
        if entries[i].Call? {
          channels := Overwrite(channels, entries[i].call.status);
        }
        i := i + 1;
      }
      assert entries[n..i] == entries[n..];
      entries := entries[..n];
    }

    method CancelTurn()
      requires Consistent()
      modifies this`runningTurn, this`entries, this`channels, this`markdowns, this`streamingTextBuffer
      ensures Consistent() && Model() == Cancel(old(Model()))
    {
      hide Flush, MarkPending;
      if runningTurn.Some? {
        runningTurn := None;
        FlushStreamingText();
        MarkPendingToolsAsCanceled();
      }
    }

    /** Sending a message, or retrying with none, up to where the new turn's task is spawned. */
    method RunTurn(message: seq<Chunk>) returns (content: Block)
      requires Consistent()
      modifies this
      ensures Consistent() && Model() == StartTurn(old(Model()), message)
      ensures content == NewCombined(old(Text()), message).1 && BlockLive(Text(), content)
    {
      hide Flush, NewCombined, Cancel;
      LiveGrows(Text(), NewCombined(Text(), message).0, entries);
      var s;
      s, content := CombineChunks(Text(), message);
      markdowns := s.markdowns;
      ClearCompletedPlanEntries();
      hadError := false;
      CancelTurn();
      turnId := turnId + 1;
      runningTurn := Some(turnId);
    }

    method LastUserMessageIndex() returns (ix: Option<nat>)
      ensures ix == LastUserMessage(entries)
    {
      var i := |entries|;
      assert entries[..i] == entries;
      while i > 0
        invariant i <= |entries| && LastUserMessage(entries) == LastUserMessage(entries[..i])
      {
        i := i - 1;
        assert entries[..i + 1][..i] == entries[..i];
        if entries[i].UserMessage? {
          return Some(i);
        }
      }
      return None;
    }

    /** The completion handler of a turn. */
    method CompleteTurn(turn: TurnId, response: Response)
      requires Consistent()
      modifies this
      ensures Consistent() && Model() == Complete(old(Model()), turn, response)
    {
      hide Flush, MarkPending, TruncateTo, LastUserMessage, CallWithOutput;
      if response.Lost? {
        return;
      }
      if runningTurn == Some(turn) {
        runningTurn := None;
      }
      FlushStreamingText();
      match response {
        case Errored => hadError := true;
        case Stopped(MaxTokens) => hadError := true;
        case Stopped(Cancelled) => MarkPendingToolsAsCanceled();
        case Stopped(Refusal) =>
          hadError := true;
          HandleRefusal();
        case Stopped(_) =>
      }
    }

    method HandleRefusal()
      requires Consistent()
      modifies this`entries, this`channels
      ensures Consistent() && Model() == Refuse(old(Model()))
    {
      hide TruncateTo, LastUserMessage, CallWithOutput;
      var found := LastUserMessageIndex();
      if found.Some? {
        var i := found.value + 1;
        while i < |entries|
          invariant found.value < i <= |entries|
          invariant forall k :: found.value < k < i ==> !CallWithOutput(entries[k])
        {
          if CallWithOutput(entries[i]) {
            return;
          }
          i := i + 1;
        }
        Truncate(found.value);
      }
    }

    // ---- rewinding

    method UserMessageIndex(id: MessageId) returns (ix: Option<nat>)
      ensures ix == FirstWithId(entries, id)
    {
      var i := 0;
      assert entries[0..] == entries;
      while i < |entries|
        invariant i <= |entries|
        invariant FirstWithId(entries, id) ==
                  match FirstWithId(entries[i..], id) { case None => None case Some(k) => Some(i + k) }
      {
        assert entries[i..][1..] == entries[i + 1..];
        if entries[i].UserMessage? && entries[i].id == Some(id) {
          return Some(i);
        }
        i := i + 1;
      }
      return None;
    }

    method TerminalsFrom(ix: nat) returns (ids: seq<TerminalId>)
      requires ix <= |entries|
      ensures SetOf(ids) == TerminalsIn(entries[ix..])
    {
      assert TerminalsIn([]) == {} && entries[ix..ix] == [];
      hide TerminalsIn;
      ids := [];
      var i := ix;
      while i < |entries|
        invariant ix <= i <= |entries|
        invariant SetOf(ids) == TerminalsIn(entries[ix..i])
      {
        var shown := TerminalsOf(entries[i]);
        TerminalsOfNext(entries[ix..i], entries[i]);
        assert entries[ix..i] + [entries[i]] == entries[ix..i + 1];
        ids := ids + shown;
        i := i + 1;
      }
      assert entries[ix..i] == entries[ix..];
    }

    static method TerminalsOf(e: Entry) returns (ids: seq<TerminalId>)
      ensures forall x :: x in ids <==> e.Call? && TerminalContent(x) in e.call.content
    {
      ids := [];
      if e.Call? {
        var content := e.call.content;
        var i := 0;
        while i < |content|
          invariant i <= |content|
          invariant forall x :: x in ids <==> TerminalContent(x) in content[..i]
        {
          if content[i].TerminalContent? {
            ids := ids + [content[i].terminal];
          }
          i := i + 1;
        }
      }
    }

    /** The rewind once the agent has truncated: entries go, and then the terminals they show. */
    method FinishRewinding(id: MessageId)
      requires Consistent()
      modifies this`entries, this`channels, this`terminals
      ensures Consistent() && Model() == FinishRewind(old(Model()), id)
    {
      hide TruncateTo, FirstWithId, TerminalsIn, Remove;
      var found := UserMessageIndex(id);
      if found.Some? {
        var ids := TerminalsFrom(found.value);
        Truncate(found.value);
        RemoveTerminals(ids);
      }
    }

    method RemoveTerminals(ids: seq<TerminalId>)
      modifies this`terminals
      ensures Registry() == Remove(old(Registry()), SetOf(ids))
    {
      ghost var before := terminals;
      for i := 0 to |ids|
        invariant terminals == before - SetOf(ids[..i])
      {
        assert SetOf(ids[..i + 1]) == SetOf(ids[..i]) + {ids[i]};
        terminals := terminals - {ids[i]};
      }
      assert ids[..|ids|] == ids;
    }

    // ---- terminals

    method OnTerminalProviderEvent(e: ProviderEvent)
      requires Consistent()
      modifies this`terminals, this`pendingTerminalOutput, this`pendingTerminalExit
      ensures Consistent() && Model() == Step(old(Model()), TerminalEvent(e))
    {
      match e {
        case Created(id) =>
          var written := [];
          if id in pendingTerminalOutput {
            written := WriteAll([], pendingTerminalOutput[id]);
            assert written == Concat(pendingTerminalOutput[id]);
            pendingTerminalOutput := pendingTerminalOutput - {id};
          } else {
            assert pendingTerminalOutput - {id} == pendingTerminalOutput;
          }
          terminals := terminals[id := written];
          pendingTerminalExit := pendingTerminalExit - {id};
        case Output(id, data) =>
          if id in terminals {
            terminals := terminals[id := terminals[id] + data];
          } else {
            var waiting := if id in pendingTerminalOutput then pendingTerminalOutput[id] else [];
            pendingTerminalOutput := pendingTerminalOutput[id := waiting + [data]];
          }
        case TitleChanged(_) =>
        case Exit(id) =>
          if id !in terminals {
            pendingTerminalExit := pendingTerminalExit + {id};
          }
      }
    }

    method ReleaseTerminalById(id: TerminalId) returns (ok: bool)
      requires Consistent()
      modifies this`terminals
      ensures Consistent() && Model() == Step(old(Model()), ReleaseTerminal(id))
      ensures ok <==> id in old(terminals)
    {
      ok := id in terminals;
      terminals := terminals - {id};
    }
  }

  // ---- loop steps

  function SetOf(ids: seq<TerminalId>): set<TerminalId> {
    set x | x in ids
  }

  /** Dropping one more entry overwrites its status. */
  lemma DropNext(channels: seq<Channel>, gone: seq<Entry>, e: Entry)
    ensures DropHeld(channels, gone + [e]) ==
              if e.Call? then Overwrite(DropHeld(channels, gone), e.call.status) else DropHeld(channels, gone)
  {
    forall c: nat ensures HeldIn(gone + [e], c) <==> HeldIn(gone, c) || Holds(e, c) {
      if HeldIn(gone, c) {
        var i :| 0 <= i < |gone| && Holds(gone[i], c);
        assert Holds((gone + [e])[i], c);
      }
      assert (gone + [e])[|gone|] == e;
    }
  }

  lemma TerminalsOfNext(entries: seq<Entry>, e: Entry)
    ensures TerminalsIn(entries + [e]) ==
              TerminalsIn(entries) +
              if e.Call? then set c | c in e.call.content && c.TerminalContent? :: c.terminal else {}
  {
  }
}
