/** Tool calls over whole runs: their ids stay unique, and every permission request is accounted for. */
module ThreadCalls {
  import opened Wrappers
  import TextStream
  import Messages
  import opened ToolCalls
  import TerminalRegistry
  import opened AgentThread

  // ---- looking a call up

  predicate IsCall(e: Entry, id: ToolCallId) {
    e.Call? && e.call.id == id
  }

  predicate UniqueIds(entries: seq<Entry>) {
    forall i, j :: 0 <= i < j < |entries| && entries[i].Call? && entries[j].Call? ==>
                     entries[i].call.id != entries[j].call.id
  }

  lemma {:induction false} IndexOfIsLast(entries: seq<Entry>, id: ToolCallId)
    ensures IndexOf(entries, id).None? <==> forall i :: 0 <= i < |entries| ==> !IsCall(entries[i], id)
    ensures IndexOf(entries, id).Some? ==>
              forall i :: IndexOf(entries, id).value < i < |entries| ==> !IsCall(entries[i], id)
  {
    if entries != [] {
      var n := |entries| - 1;
      IndexOfIsLast(entries[..n], id);
      assert forall i :: 0 <= i < n ==> entries[..n][i] == entries[i];
    }
  }

  /** The search from the back finds the only match. */
  lemma LookupIsExact(entries: seq<Entry>, id: ToolCallId, i: nat)
    requires UniqueIds(entries) && i < |entries|
    ensures IndexOf(entries, id) == Some(i) <==> IsCall(entries[i], id)
  {
    IndexOfIsLast(entries, id);
  }

  // ---- permission channels

  predicate Waits(e: Entry) {
    e.Call? && e.call.status.WaitingForConfirmation?
  }

  /** The channel whose sender a status not yet stored in an entry carries. */
  function Carried(status: Status): set<ChannelId> {
    if status.WaitingForConfirmation? then {status.reply} else {}
  }

  /**
    * The open channels are those held by an entry, each by exactly one, and those in `loose`,
    * which no entry holds yet.
    */
  ghost predicate Ledger(entries: seq<Entry>, channels: seq<Channel>, loose: set<ChannelId>) {
    && (forall i :: 0 <= i < |entries| && Waits(entries[i]) ==>
                      var c := entries[i].call.status.reply;
                      c < |channels| && channels[c].Open? && c !in loose)
    && (forall i, j :: 0 <= i < j < |entries| && Waits(entries[i]) && Waits(entries[j]) ==>
                         entries[i].call.status.reply != entries[j].call.status.reply)
    && (forall c: nat :: c < |channels| && channels[c].Open? ==> c in loose || HeldIn(entries, c))
    && (forall c :: c in loose ==> c < |channels| && channels[c].Open?)
  }

  ghost predicate Sound(t: Thread) {
    UniqueIds(t.entries) && Ledger(t.entries, t.channels, {})
  }

  lemma PushLedger(entries: seq<Entry>, channels: seq<Channel>, loose: set<ChannelId>, e: Entry)
    requires Ledger(entries, channels, loose)
    requires e.Call? ==> Carried(e.call.status) <= loose
    ensures Ledger(entries + [e], channels, if e.Call? then loose - Carried(e.call.status) else loose)
  {
    var r := entries + [e];
    assert r[|entries|] == e;
    forall c: nat | c < |channels| && channels[c].Open? && HeldIn(entries, c) ensures HeldIn(r, c) {
      var i :| 0 <= i < |entries| && Holds(entries[i], c);
      assert Holds(r[i], c);
    }
    forall c: nat | c in loose && e.Call? && c in Carried(e.call.status) ensures HeldIn(r, c) {
      assert Holds(r[|entries|], c);
    }
  }

  /** Storing a call back, its status kept, plain, or carrying a loose channel. */
  lemma SetLedger(t: Thread, ix: nat, call: ToolCall, loose: set<ChannelId>)
    requires Valid(t) && ix < |t.entries| && t.entries[ix].Call?
    requires Ledger(t.entries, t.channels, loose)
    requires call.status != t.entries[ix].call.status ==> Carried(call.status) <= loose
    ensures var r := SetCall(t, ix, call);
            Ledger(r.entries, r.channels,
                   if call.status == t.entries[ix].call.status then loose else loose - Carried(call.status))
  {
    var r := SetCall(t, ix, call);
    ReplaceLedger(t.entries, t.channels, loose, ix, call, Channel.Dropped);
  }

  lemma ReplaceLedger(entries: seq<Entry>, channels: seq<Channel>, loose: set<ChannelId>, ix: nat, call: ToolCall,
                      fate: Channel)
    requires Ledger(entries, channels, loose) && ix < |entries| && entries[ix].Call? && !fate.Open?
    requires call.status != entries[ix].call.status ==> Carried(call.status) <= loose
    ensures var prior := entries[ix].call.status;
            Ledger(entries[ix := Call(call)],
                   if call.status == prior || !prior.WaitingForConfirmation? then channels
                   else Settle(channels, prior.reply, fate),
                   if call.status == prior then loose else loose - Carried(call.status))
  {
    hide HeldIn;
    HeldAfterReplace(entries, ix, call);
  }

  /** What is held after an entry's record is replaced: its new sender, and all others' as before. */
  lemma HeldAfterReplace(entries: seq<Entry>, ix: nat, call: ToolCall)
    requires ix < |entries|
    ensures forall c: nat :: HeldIn(entries, c) && !Holds(entries[ix], c) ==> HeldIn(entries[ix := Call(call)], c)
    ensures forall c: nat :: call.status == WaitingForConfirmation(c) ==> HeldIn(entries[ix := Call(call)], c)
  {
    var r := entries[ix := Call(call)];
    assert r[ix] == Call(call);
    forall c: nat | HeldIn(entries, c) && !Holds(entries[ix], c) ensures HeldIn(r, c) {
      var i :| 0 <= i < |entries| && Holds(entries[i], c);
      assert Holds(r[i], c);
    }
  }

  // ---- one update

  lemma FieldsKeep(call: ToolCall, f: Fields, known: set<TerminalId>)
    ensures UpdateFields(call, f, known).0.id == call.id
    ensures var status := UpdateFields(call, f, known).0.status; status == call.status || Carried(status) == {}
  {
    hide Reconcile;
  }

  lemma UniqueReplaced(entries: seq<Entry>, ix: nat, call: ToolCall)
    requires UniqueIds(entries) && ix < |entries| && IsCall(entries[ix], call.id)
    ensures UniqueIds(entries[ix := Call(call)])
  {
  }

  lemma UniquePushed(entries: seq<Entry>, e: Entry)
    requires UniqueIds(entries) && (e.Call? ==> IndexOf(entries, e.call.id).None?)
    ensures UniqueIds(entries + [e])
  {
    if e.Call? {
      IndexOfIsLast(entries, e.call.id);
    }
  }

  lemma UpsertKeepsSound(t: Thread, id: ToolCallId, f: Fields, asCall: Option<NewCall>, status: Status)
    requires Valid(t) && UniqueIds(t.entries) && Ledger(t.entries, t.channels, Carried(status))
    ensures Sound(Upsert(t, id, f, asCall, status))
  {
    hide Ledger, UniqueIds, UpdateFields, IndexOf, FromItems, Caption;
    var known := t.terminals.registered.Keys;
    match IndexOf(t.entries, id)
    case Some(ix) =>
      var prior := t.entries[ix].call;
      var (call, ok) := UpdateFields(prior, f, known);
      FieldsKeep(prior, f, known);
      UniqueReplaced(t.entries, ix, call);
      assert call.status != prior.status ==> Carried(call.status) == {};
      SetLedger(t, ix, call, Carried(status));
      var updated := SetCall(t, ix, call);
      assert Carried(status) - {} == Carried(status);
      if ok {
        StoreStatus(updated, ix, call, status);
      } else {
        OverwriteLedger(updated.entries, updated.channels, status);
      }
    case None =>
      var call := if asCall.Some? then FromNew(id, asCall.value, status, known) else Err;
      if call.Ok? {
        UniquePushed(t.entries, Call(call.value));
        PushLedger(t.entries, t.channels, Carried(status), Call(call.value));
        assert Carried(status) - Carried(status) == {};
      } else {
        OverwriteLedger(t.entries, t.channels, status);
      }
  }

  lemma StoreStatus(t: Thread, ix: nat, call: ToolCall, status: Status)
    requires Valid(t) && ix < |t.entries| && t.entries[ix] == Call(call)
    requires UniqueIds(t.entries) && Ledger(t.entries, t.channels, Carried(status))
    ensures Sound(SetCall(t, ix, call.(status := status)))
  {
    hide UniqueIds;
    UniqueReplaced(t.entries, ix, call.(status := status));
    SetLedger(t, ix, call.(status := status), Carried(status));
    assert Carried(status) - Carried(status) == {};
  }

  lemma OverwriteLedger(entries: seq<Entry>, channels: seq<Channel>, status: Status)
    requires Ledger(entries, channels, Carried(status))
    ensures Ledger(entries, Overwrite(channels, status), {})
  {
  }

  lemma UpdateKeepsSound(t: Thread, update: CallUpdate)
    requires Valid(t) && Sound(t)
    ensures Sound(UpdateCall(t, update))
  {
    hide Ledger, UniqueIds, UpdateFields, IndexOf;
    match IndexOf(t.entries, update.id)
    case None =>
      UniquePushed(t.entries, Call(MissingCall(update.id)));
      PushLedger(t.entries, t.channels, {}, Call(MissingCall(update.id)));
      assert {} - Carried(Failed) == {};
    case Some(ix) =>
      var prior := t.entries[ix].call;
      var known := t.terminals.registered.Keys;
      var call := match update
        case FieldsUpdate(_, f) => UpdateFields(prior, f, known).0
        case DiffUpdate(_, path, base, text) => prior.(content := [DiffContent(path, base, text)])
        case TerminalUpdate(_, terminal) => prior.(content := [TerminalContent(terminal)]);
      if update.FieldsUpdate? {
        FieldsKeep(prior, update.fields, known);
      }
      UniqueReplaced(t.entries, ix, call);
      SetLedger(t, ix, call, {});
      assert {} - Carried(call.status) == {};
  }

  lemma AuthorizeKeepsSound(t: Thread, id: ToolCallId, option: OptionId, allow: bool)
    requires Valid(t) && Sound(t)
    ensures Sound(Authorize(t, id, option, allow))
  {
    hide Ledger, UniqueIds, IndexOf;
    if IndexOf(t.entries, id).Some? {
      var ix := IndexOf(t.entries, id).value;
      var call := t.entries[ix].call.(status := if allow then InProgress else Rejected);
      UniqueReplaced(t.entries, ix, call);
      ReplaceLedger(t.entries, t.channels, {}, ix, call, Answered(option));
      assert {} - Carried(call.status) == {};
    }
  }

  lemma TruncateKeepsSound(t: Thread, n: nat)
    requires Valid(t) && Sound(t) && n <= |t.entries|
    ensures Sound(TruncateTo(t, n))
  {
    var entries := t.entries;
    var kept, gone := entries[..n], entries[n..];
    forall c: nat | HeldIn(entries, c) ensures HeldIn(kept, c) || HeldIn(gone, c) {
      var i :| 0 <= i < |entries| && Holds(entries[i], c);
      if i < n {
        assert Holds(kept[i], c);
      } else {
        assert Holds(gone[i - n], c);
      }
    }
    forall i, c | 0 <= i < n && Holds(kept[i], c) ensures !HeldIn(gone, c) {
      assert Holds(entries[i], c);
      assert forall j :: 0 <= j < |gone| ==> gone[j] == entries[n + j];
    }
  }

  lemma MarkKeepsSound(t: Thread)
    requires Valid(t) && Sound(t)
    ensures Sound(MarkPending(t))
  {
  }

  lemma TurnsKeepSound(t: Thread, message: seq<Messages.Chunk>, turn: TurnId, response: Response)
    requires Valid(t) && Sound(t)
    ensures Sound(Cancel(t)) && Sound(StartTurn(t, message)) && Sound(Complete(t, turn, response))
  {
    hide Ledger, UniqueIds, MarkPending, TruncateTo, TextStream.Flush, Messages.NewCombined, Uncompleted;
    CancelKeepsSound(t);
    var s := Messages.NewCombined(t.text, message).0;
    LiveGrows(t.text, s, t.entries);
    CancelKeepsSound(t.(text := s, plan := Uncompleted(t.plan), hadError := false));
    var done := Flushed(if t.running == Some(turn) then t.(running := None) else t);
    MarkKeepsSound(done);
    if LastUserMessage(t.entries).Some? {
      TruncateKeepsSound(done.(hadError := true), LastUserMessage(t.entries).value);
    }
  }

  lemma CancelKeepsSound(t: Thread)
    requires Valid(t) && Sound(t)
    ensures Sound(Cancel(t))
  {
    hide Ledger, UniqueIds, MarkPending, TextStream.Flush;
    MarkKeepsSound(Flushed(t.(running := None)));
  }

  /** Messages are added at the end, or the last entry is a message and changes. */
  predicate MessageChange(before: seq<Entry>, r: seq<Entry>) {
    var n := |before|;
    || r == before
    || (|r| == n + 1 && r == before + [r[n]] && !r[n].Call?)
    || (n > 0 && |r| == n && r == before[n - 1 := r[n - 1]] && !before[n - 1].Call? && !r[n - 1].Call?)
  }

  lemma ChunksChangeMessages(t: Thread, id: Option<MessageId>, chunk: Messages.Chunk, thought: bool, indented: bool)
    requires Valid(t)
    ensures MessageChange(t.entries, PushUserChunk(t, id, chunk, indented).entries)
    ensures MessageChange(t.entries, PushAssistantChunk(t, chunk, thought, indented).entries)
    ensures PushUserChunk(t, id, chunk, indented).channels == t.channels
    ensures PushAssistantChunk(t, chunk, thought, indented).channels == t.channels
  {
    hide TextStream.Flush, TextStream.BufferText, Messages.AppendChunk, Messages.NewBlock, AddToParts;
  }

  lemma MessageChangeKeepsSound(t: Thread, r: Thread)
    requires Sound(t) && MessageChange(t.entries, r.entries) && r.channels == t.channels
    ensures Sound(r)
  {
    hide Ledger, UniqueIds;
    var n := |t.entries|;
    if r.entries != t.entries {
      if |r.entries| == n + 1 {
        PushLedger(t.entries, t.channels, {}, r.entries[n]);
        UniquePushed(t.entries, r.entries[n]);
      } else {
        MessageReplaced(t.entries, t.channels, n - 1, r.entries[n - 1]);
      }
    }
  }

  lemma MessageReplaced(entries: seq<Entry>, channels: seq<Channel>, ix: nat, e: Entry)
    requires UniqueIds(entries) && Ledger(entries, channels, {})
    requires ix < |entries| && !e.Call? && !entries[ix].Call?
    ensures UniqueIds(entries[ix := e]) && Ledger(entries[ix := e], channels, {})
  {
    var r := entries[ix := e];
    forall c: nat | HeldIn(entries, c) ensures HeldIn(r, c) {
      var i :| 0 <= i < |entries| && Holds(entries[i], c);
      assert Holds(r[i], c);
    }
  }

  /** Every update keeps ids unique and every permission channel accounted for. */
  lemma StepKeepsSound(t: Thread, op: Op)
    requires Valid(t) && Applies(t, op) && Sound(t)
    ensures Sound(Step(t, op))
  {
    hide Ledger, UniqueIds, TextStream.Flush, TextStream.Tick, StartTurn, PushUserChunk, PushAssistantChunk;
    hide Upsert, UpdateCall, Authorize, Complete, Cancel, TruncateTo, IndexOf, FirstWithId, TerminalsIn;
    hide TerminalRegistry.OnEvent, TerminalRegistry.Remove;
    match op
    case Start(message) => TurnsKeepSound(t, message, 0, Lost);
    case CancelTurn => TurnsKeepSound(t, [], 0, Lost);
    case Finish(turn, response) => TurnsKeepSound(t, [], turn, response);
    case Say(id, content, chunks) =>
      PushLedger(t.entries, t.channels, {}, UserMessage(id, content, chunks, false));
      UniquePushed(t.entries, UserMessage(id, content, chunks, false));
    case UserChunk(id, chunk, indented) =>
      ChunksChangeMessages(t, id, chunk, false, indented);
      MessageChangeKeepsSound(t, Step(t, op));
    case AssistantChunk(chunk, thought, indented) =>
      ChunksChangeMessages(t, None, chunk, thought, indented);
      MessageChangeKeepsSound(t, Step(t, op));
    case UpsertCall(id, f, asCall, status) =>
      assert Carried(FromReported(status)) == {};
      UpsertKeepsSound(t, id, f, asCall, FromReported(status));
    case Update(update) => UpdateKeepsSound(t, update);
    case Ask(id, f, asCall) =>
      var asked := t.(channels := t.channels + [Open]);
      NewChannel(t.entries, t.channels);
      UpsertKeepsSound(asked, id, f, asCall, WaitingForConfirmation(|t.channels|));
    case Answer(id, option, allow) => AuthorizeKeepsSound(t, id, option, allow);
    case EndRewind(id) =>
      if FirstWithId(t.entries, id).Some? {
        TruncateKeepsSound(t, FirstWithId(t.entries, id).value);
      }
    case _ =>
  }

  lemma NewChannel(entries: seq<Entry>, channels: seq<Channel>)
    requires Ledger(entries, channels, {})
    ensures Ledger(entries, channels + [Open], {|channels|})
  {
    assert forall c: nat :: c < |channels| ==> (channels + [Open])[c] == channels[c];
  }

  // ---- what becomes of each channel

  /** The update that answers channel `c` with `option`: one for the entry that holds it. */
  predicate Answers(t: Thread, op: Op, c: ChannelId, option: OptionId) {
    && op.Answer? && op.option == option
    && IndexOf(t.entries, op.callId).Some? && Holds(t.entries[IndexOf(t.entries, op.callId).value], c)
  }

  /** Channels change only by settling: to dropped, or to the option that an answer for their entry gives. */
  predicate Settling(t: Thread, op: Op, channels: seq<Channel>) {
    && |t.channels| <= |channels|
    && (forall c: nat :: c < |t.channels| && !t.channels[c].Open? ==> channels[c] == t.channels[c])
    && (forall c: nat :: c < |t.channels| && channels[c] != t.channels[c] && channels[c].Answered? ==>
                           Answers(t, op, c, channels[c].option))
    && (forall c: nat :: |t.channels| <= c < |channels| ==> !channels[c].Answered?)
  }

  predicate OnlyDrops(before: seq<Channel>, r: seq<Channel>) {
    |r| == |before| && forall c :: 0 <= c < |r| ==> r[c] == before[c] || (before[c].Open? && r[c] == Channel.Dropped)
  }

  lemma OverwriteDrops(before: seq<Channel>, channels: seq<Channel>, status: Status)
    requires OnlyDrops(before, channels)
    ensures OnlyDrops(before, Overwrite(channels, status))
  {
  }

  lemma SetDrops(before: seq<Channel>, t: Thread, ix: nat, call: ToolCall)
    requires Valid(t) && ix < |t.entries| && t.entries[ix].Call? && OnlyDrops(before, t.channels)
    ensures OnlyDrops(before, SetCall(t, ix, call).channels)
  {
    OverwriteDrops(before, t.channels, t.entries[ix].call.status);
  }

  lemma UpsertDrops(t: Thread, id: ToolCallId, f: Fields, asCall: Option<NewCall>, status: Status)
    requires Valid(t)
    ensures OnlyDrops(t.channels, Upsert(t, id, f, asCall, status).channels)
  {
    assert OnlyDrops(t.channels, t.channels);
    hide UpdateFields, FromNew, IndexOf, OnlyDrops, Overwrite, SetCall;
    if IndexOf(t.entries, id).Some? {
      var ix := IndexOf(t.entries, id).value;
      var call := UpdateFields(t.entries[ix].call, f, t.terminals.registered.Keys).0;
      SetDrops(t.channels, t, ix, call);
      var updated := SetCall(t, ix, call);
      SetDrops(t.channels, updated, ix, call.(status := status));
      OverwriteDrops(t.channels, updated.channels, status);
    } else {
      OverwriteDrops(t.channels, t.channels, status);
    }
  }

  lemma UpsertSettles(t: Thread, op: Op, asked: bool, id: ToolCallId, f: Fields, asCall: Option<NewCall>,
                      status: Status)
    requires Valid(t)
    ensures var start := if asked then t.(channels := t.channels + [Open]) else t;
            Settling(t, op, Upsert(start, id, f, asCall, status).channels)
  {
    hide Upsert, Answers;
    UpsertDrops(if asked then t.(channels := t.channels + [Open]) else t, id, f, asCall, status);
  }

  lemma UpdateSettles(t: Thread, op: Op, update: CallUpdate)
    requires Valid(t)
    ensures Settling(t, op, UpdateCall(t, update).channels)
  {
    hide UpdateFields, IndexOf, Answers;
  }

  lemma HeldDrop(channels: seq<Channel>, gone: seq<Entry>)
    ensures OnlyDrops(channels, DropHeld(channels, gone))
  {
    hide HeldIn;
  }

  lemma TurnsDrop(t: Thread, message: seq<Messages.Chunk>, turn: TurnId, response: Response)
    requires Valid(t)
    ensures OnlyDrops(t.channels, Cancel(t).channels)
    ensures OnlyDrops(t.channels, StartTurn(t, message).channels)
    ensures OnlyDrops(t.channels, Complete(t, turn, response).channels)
  {
    assert OnlyDrops(t.channels, t.channels);
    hide OnlyDrops, DropHeld, TextStream.Flush, Messages.NewCombined, Uncompleted, Canceling, LastUserMessage;
    hide CallWithOutput;
    HeldDrop(t.channels, t.entries);
    if LastUserMessage(t.entries).Some? {
      HeldDrop(t.channels, t.entries[LastUserMessage(t.entries).value..]);
    }
  }

  lemma TurnsSettle(t: Thread, op: Op, message: seq<Messages.Chunk>, turn: TurnId, response: Response)
    requires Valid(t)
    ensures Settling(t, op, Cancel(t).channels)
    ensures Settling(t, op, StartTurn(t, message).channels)
    ensures Settling(t, op, Complete(t, turn, response).channels)
  {
    hide Cancel, StartTurn, Complete, Answers;
    TurnsDrop(t, message, turn, response);
  }

  lemma StepSettles(t: Thread, op: Op)
    requires Valid(t) && Applies(t, op)
    ensures Settling(t, op, Step(t, op).channels)
  {
    hide TextStream.Flush, TextStream.Tick, StartTurn, PushUserChunk, PushAssistantChunk;
    hide Upsert, UpdateCall, Complete, Cancel, IndexOf, FirstWithId, TerminalsIn, HeldIn;
    hide TerminalRegistry.OnEvent, TerminalRegistry.Remove, FromReported;
    match op
    case Start(message) => TurnsSettle(t, op, message, 0, Lost);
    case CancelTurn => TurnsSettle(t, op, [], 0, Lost);
    case Finish(turn, response) => TurnsSettle(t, op, [], turn, response);
    case UserChunk(id, chunk, indented) => ChunksChangeMessages(t, id, chunk, false, indented);
    case AssistantChunk(chunk, thought, indented) => ChunksChangeMessages(t, None, chunk, thought, indented);
    case UpsertCall(id, f, asCall, status) => UpsertSettles(t, op, false, id, f, asCall, FromReported(status));
    case Update(update) => UpdateSettles(t, op, update);
    case Ask(id, f, asCall) => UpsertSettles(t, op, true, id, f, asCall, WaitingForConfirmation(|t.channels|));
    case _ =>
  }

  /** An answer while the request waits does reach it. */
  lemma AnswerArrives(t: Thread, op: Op, c: ChannelId, option: OptionId)
    requires Valid(t) && Sound(t) && Answers(t, op, c, option)
    ensures c < |t.channels| && t.channels[c].Open? && Step(t, op).channels[c] == Answered(option)
  {
    hide IndexOf;
  }

  // ---- whole runs

  predicate AnsweredIn(t: Thread, ops: seq<Op>, c: ChannelId, option: OptionId)
    requires Valid(t) && Runs(t, ops)
    decreases |ops|
  {
    ops != [] && (Answers(t, ops[0], c, option) || AnsweredIn(Step(t, ops[0]), ops[1..], c, option))
  }

  /**
    * In every run from a sound thread, and so from a new one: ids are unique; a channel is open
    * exactly while an entry holds it, which is then the only one; a settled channel never changes
    * again; and an answered one carries the option of an answer given while its entry was waiting.
    */
  lemma {:induction false} RequestsAreAccountedFor(t: Thread, ops: seq<Op>)
    requires Valid(t) && Runs(t, ops) && Sound(t)
    ensures var r := After(t, ops);
            && Sound(r) && |t.channels| <= |r.channels|
            && (forall c: nat :: c < |r.channels| ==> (r.channels[c].Open? <==> HeldIn(r.entries, c)))
            && (forall c: nat :: c < |t.channels| && !t.channels[c].Open? ==> r.channels[c] == t.channels[c])
            && (forall c: nat :: c < |r.channels| && r.channels[c].Answered? &&
                                 (c < |t.channels| ==> t.channels[c].Open?) ==>
                                   AnsweredIn(t, ops, c, r.channels[c].option))
    decreases |ops|
  {
    hide Step, Applies, UniqueIds, Answers;
    if ops != [] {
      hide Ledger, HeldIn;
      StepKeepsSound(t, ops[0]);
      StepSettles(t, ops[0]);
      RequestsAreAccountedFor(Step(t, ops[0]), ops[1..]);
    }
  }

  lemma NewThreadIsSound()
    ensures Valid(NEW_THREAD) && Sound(NEW_THREAD)
  {
  }

  // ---- how far an update reaches

  /** An update about a tool call changes at most the one entry with its id, or adds that entry. */
  predicate TouchesOnly(before: seq<Entry>, r: seq<Entry>, id: ToolCallId) {
    match IndexOf(before, id)
    case None => r == before || (|r| == |before| + 1 && r[..|before|] == before && IsCall(r[|before|], id))
    case Some(ix) => |r| == |before| && IsCall(r[ix], id) && r == before[ix := r[ix]]
  }

  lemma UpdatesTouchOneEntry(t: Thread, op: Op)
    requires Valid(t) && Applies(t, op) && (op.UpsertCall? || op.Ask? || op.Answer? || op.Update?)
    ensures TouchesOnly(t.entries, Step(t, op).entries, if op.Update? then op.update.id else op.callId)
  {
    hide IndexOf, UpdateFields, FromItems, Settle, Overwrite, TextStream.Flush, FromReported;
    forall call: ToolCall, f: Fields ensures UpdateFields(call, f, t.terminals.registered.Keys).0.id == call.id {
      FieldsKeep(call, f, t.terminals.registered.Keys);
    }
  }
}
