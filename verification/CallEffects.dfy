/**
  * What reports, updates, permission requests and answers do to a tool call, told without the updates
  * themselves: the fields it has afterwards, and what becomes of every permission channel.
  */
module CallEffects {
  import opened Wrappers
  import Utf8
  import TextStream
  import opened Messages
  import opened ToolCalls
  import opened AgentThread
  import opened ThreadCalls

  // ---- the parts of a call

  predicate TerminalsKnown(items: seq<Item>, known: set<TerminalId>) {
    forall i :: 0 <= i < |items| && items[i].TerminalItem? ==> items[i].terminal in known
  }

  function KnownItems(items: seq<Item>): seq<Item> {
    if items == [] then [] else (if items[0].UnknownItem? then [] else [items[0]]) + KnownItems(items[1..])
  }

  /** A diff from nothing has an empty base. */
  predicate IsBase(base: Utf8.Bytes, oldText: Option<Utf8.Bytes>) {
    (oldText.Some? ==> base == oldText.value) && (oldText.None? ==> base == [])
  }

  /** Content shows an item: its diff, its terminal, its picture, its link, or else its text. */
  predicate Shows(c: ToolContent, item: Item) {
    match item
    case DiffItem(path, oldText, newText) =>
      c.DiffContent? && c.path == path && c.text == newText && IsBase(c.base, oldText)
    case TerminalItem(terminal) => c == TerminalContent(terminal)
    case UnknownItem => false
    case ContentItem(chunk) =>
      if chunk.ResourceLink? then c == LinkContent(chunk.uri)
      else if chunk == Image(true) then c == ImageContent
      else c == TextContent(StringContents(chunk))
  }

  predicate ShowAll(content: seq<ToolContent>, items: seq<Item>) {
    |content| == |items| && forall i :: 0 <= i < |items| ==> Shows(content[i], items[i])
  }

  /** The first line of a title, with an ellipsis if there are more; the whole title of a command. */
  ghost predicate Captions(caption: Utf8.Bytes, title: Utf8.Bytes, execute: bool) {
    if execute || Utf8.NEWLINE !in title then caption == title
    else exists n: nat ::
      n < |title| && title[n] == Utf8.NEWLINE && Utf8.NEWLINE !in title[..n] && caption == title[..n] + ELLIPSIS
  }

  predicate ReportsAs(report: ReportedStatus, status: Status) {
    && (status == Completed <==> report.ReportedCompleted?) && (status == Failed <==> report.ReportedFailed?)
    && (status == InProgress <==> report.ReportedInProgress?)
    && (status == Pending <==> report.ReportedPending? || report.ReportedOther?)
  }

  /** What is shown of a call's output when it has no other content. */
  function Fallback(content: seq<ToolContent>, output: Option<RawValue>): seq<ToolContent> {
    if content == [] && output.Some? && output.value.shown.Some? then [TextContent(output.value.shown.value)]
    else content
  }

  /** The call takes the fields that cannot fail, if they are given, its status apart. */
  ghost predicate TakesHead(before: ToolCall, after: ToolCall, f: Fields) {
    && after.id == before.id
    && after.execute == (if f.execute.Some? then f.execute.value else before.execute)
    && (f.title.Some? ==> Captions(after.caption, f.title.value, after.execute))
    && (f.title.None? ==> after.caption == before.caption)
  }

  /** The call takes each field that is given and keeps the others, its status apart. */
  ghost predicate TakesFields(before: ToolCall, after: ToolCall, f: Fields) {
    && TakesHead(before, after, f)
    && after.rawOutput == (if f.rawOutput.Some? then f.rawOutput else before.rawOutput)
    && (f.content.None? ==> after.content == Fallback(before.content, f.rawOutput))
    && (f.content.Some? && UnknownComeLast(f.content.value, |before.content|) ==>
          exists anew :: ShowAll(anew, KnownItems(f.content.value))
                         && SameContents(after.content, Fallback(anew, f.rawOutput)))
  }

  /** A status is taken if one is reported. */
  predicate TakesStatus(before: Status, after: Status, report: Option<ReportedStatus>) {
    (report.Some? ==> ReportsAs(report.value, after)) && (report.None? ==> after == before)
  }

  ghost predicate IsMadeFrom(call: ToolCall, id: ToolCallId, anew: NewCall) {
    && call.id == id && Captions(call.caption, anew.title, anew.execute) && call.execute == anew.execute
    && ShowAll(call.content, KnownItems(anew.content)) && call.rawOutput == anew.rawOutput
  }

  lemma CaptionCaptions(title: Utf8.Bytes, execute: bool)
    ensures Captions(Caption(title, execute), title, execute)
  {
    CaptionIsOneLine(title);
  }

  lemma {:induction false} ConversionShows(items: seq<Item>, known: set<TerminalId>)
    ensures FromItems(items, known).Ok? <==> TerminalsKnown(items, known)
    ensures FromItems(items, known).Ok? ==> ShowAll(FromItems(items, known).value, KnownItems(items))
  {
    if items != [] {
      ConversionShows(items[1..], known);
      assert forall i :: 0 < i < |items| ==> items[i] == items[1..][i - 1];
    }
  }

  lemma FieldsTaken(call: ToolCall, f: Fields, known: set<TerminalId>)
    ensures var (after, ok) := UpdateFields(call, f, known);
            && (ok <==> f.content.None? || TerminalsKnown(f.content.value, known))
            && (ok ==> TakesFields(call, after, f))
            && (!ok ==> TakesHead(call, after, f) && after.rawOutput == call.rawOutput)
            && TakesStatus(call.status, after.status, f.status)
  {
    if f.title.Some? {
      CaptionCaptions(f.title.value, UpdateFields(call, f, known).0.execute);
    }
    if f.content.Some? {
      var items := f.content.value;
      FailsIffTerminalMissing(call.content, items, known);
      ConversionShows(items, known);
      if Convertible(items, known) && UnknownComeLast(items, |call.content|) {
        UpdatedContent(call, f, known);
        var anew := FromItems(items, known).value;
        assert ShowAll(anew, KnownItems(items));
      }
    }
    hide Reconcile, Caption, Captions, ShowAll, SameContents, FromItems, KnownItems, UnknownComeLast;
  }

  lemma NewIsMade(id: ToolCallId, anew: NewCall, status: Status, known: set<TerminalId>)
    ensures FromNew(id, anew, status, known).Ok? <==> TerminalsKnown(anew.content, known)
    ensures FromNew(id, anew, status, known).Ok? ==>
              var call := FromNew(id, anew, status, known).value; IsMadeFrom(call, id, anew) && call.status == status
  {
    ConversionShows(anew.content, known);
    CaptionCaptions(anew.title, anew.execute);
    hide Caption, Captions, ShowAll, FromItems, KnownItems;
  }

  // ---- reports and requests

  predicate Exists(entries: seq<Entry>, id: ToolCallId) {
    exists ix :: 0 <= ix < |entries| && IsCall(entries[ix], id)
  }

  /** The update names only terminals that are registered, and is a complete call if none with the id exists. */
  predicate Acceptable(t: Thread, id: ToolCallId, f: Fields, asCall: Option<NewCall>) {
    var known := t.terminals.registered.Keys;
    if Exists(t.entries, id) then f.content.None? || TerminalsKnown(f.content.value, known)
    else asCall.Some? && TerminalsKnown(asCall.value.content, known)
  }

  /** The record with this id after an acceptable update, its status apart. */
  ghost predicate Stored(before: seq<Entry>, after: seq<Entry>, id: ToolCallId, f: Fields, asCall: Option<NewCall>,
                         status: Status) {
    if Exists(before, id) then
      exists ix ::
        && 0 <= ix < |before| == |after| && IsCall(before[ix], id) && IsCall(after[ix], id)
        && after == before[ix := after[ix]] && TakesFields(before[ix].call, after[ix].call, f)
        && after[ix].call.status == status
    else
      && |after| == |before| + 1 && after[..|before|] == before && asCall.Some?
      && after[|before|].Call? && IsMadeFrom(after[|before|].call, id, asCall.value)
      && after[|before|].call.status == status
  }

  /** What an update that fails half way leaves: it adds no entry and takes no output. */
  ghost predicate HalfStored(before: seq<Entry>, after: seq<Entry>, id: ToolCallId, f: Fields) {
    if Exists(before, id) then
      exists ix ::
        && 0 <= ix < |before| == |after| && IsCall(before[ix], id) && IsCall(after[ix], id)
        && after == before[ix := after[ix]]
        && TakesHead(before[ix].call, after[ix].call, f) && after[ix].call.rawOutput == before[ix].call.rawOutput
        && TakesStatus(before[ix].call.status, after[ix].call.status, f.status)
    else after == before
  }

  lemma ExistsIff(entries: seq<Entry>, id: ToolCallId)
    ensures Exists(entries, id) <==> IndexOf(entries, id).Some?
    ensures IndexOf(entries, id).Some? ==> IsCall(entries[IndexOf(entries, id).value], id)
  {
    IndexOfIsLast(entries, id);
  }

  lemma AcceptableIff(t: Thread, id: ToolCallId, f: Fields, asCall: Option<NewCall>, status: Status)
    ensures UpsertSucceeds(t, id, f, asCall, status) <==> Acceptable(t, id, f, asCall)
  {
    var known := t.terminals.registered.Keys;
    ExistsIff(t.entries, id);
    if IndexOf(t.entries, id).Some? {
      FieldsTaken(t.entries[IndexOf(t.entries, id).value].call, f, known);
    } else if asCall.Some? {
      NewIsMade(id, asCall.value, status, known);
    }
    hide UpdateFields, FromNew, IndexOf, Exists, TerminalsKnown, TakesFields, TakesHead, IsMadeFrom;
  }

  lemma UpsertStores(t: Thread, id: ToolCallId, f: Fields, asCall: Option<NewCall>, status: Status)
    requires Valid(t)
    ensures var r := Upsert(t, id, f, asCall, status).entries;
            if Acceptable(t, id, f, asCall) then Stored(t.entries, r, id, f, asCall, status)
            else HalfStored(t.entries, r, id, f)
  {
    var known := t.terminals.registered.Keys;
    var r := Upsert(t, id, f, asCall, status).entries;
    ExistsIff(t.entries, id);
    match IndexOf(t.entries, id)
    case Some(ix) =>
      var prior := t.entries[ix].call;
      FieldsTaken(prior, f, known);
      var (call, ok) := UpdateFields(prior, f, known);
      hide UpdateFields, IndexOf, Exists, TerminalsKnown, TakesHead;
      TakesKeepsId(prior, call, f);
      assert r == t.entries[ix := Call(if ok then call.(status := status) else call)];
      if ok {
        StatusAside(prior, call, f, status);
      }
      assert IsCall(t.entries[ix], id) && IsCall(r[ix], id);
    case None =>
      if asCall.Some? {
        NewIsMade(id, asCall.value, status, known);
      }
      hide FromNew, IndexOf, Exists, TerminalsKnown, IsMadeFrom;
  }

  lemma TakesKeepsId(before: ToolCall, after: ToolCall, f: Fields)
    ensures TakesHead(before, after, f) ==> after.id == before.id
    ensures TakesFields(before, after, f) ==> after.id == before.id
  {
  }

  lemma StatusAside(before: ToolCall, after: ToolCall, f: Fields, status: Status)
    requires TakesFields(before, after, f)
    ensures TakesFields(before, after.(status := status), f)
  {
    hide Captions, ShowAll, SameContents, KnownItems, UnknownComeLast;
  }

  /** A report is stored under its id, with its status, unless it cannot be accepted. */
  lemma ReportEffects(t: Thread, id: ToolCallId, f: Fields, asCall: Option<NewCall>, report: ReportedStatus)
    requires Valid(t)
    ensures var r := Step(t, UpsertCall(id, f, asCall, report)).entries;
            if Acceptable(t, id, f, asCall)
            then exists status :: ReportsAs(report, status) && Stored(t.entries, r, id, f, asCall, status)
            else HalfStored(t.entries, r, id, f)
  {
    var status := FromReported(report);
    UpsertStores(t, id, f, asCall, status);
    assert ReportsAs(report, status);
    hide ReportsAs, FromReported, Upsert, Stored, HalfStored, Acceptable, Valid;
    assert Step(t, UpsertCall(id, f, asCall, report)) == Upsert(t, id, f, asCall, status);
  }

  predicate HeldById(entries: seq<Entry>, id: ToolCallId, c: ChannelId) {
    exists ix :: 0 <= ix < |entries| && IsCall(entries[ix], id) && Holds(entries[ix], c)
  }

  /**
    * A permission request opens one channel. If it is accepted, the call with its id waits on that
    * channel, which is open, and a request the call had before is dropped. Otherwise the channel is
    * dropped. Nothing becomes of any other request.
    */
  lemma RequestEffects(t: Thread, id: ToolCallId, f: Fields, asCall: Option<NewCall>)
    requires Valid(t) && Sound(t)
    ensures var r, c := Step(t, Ask(id, f, asCall)), |t.channels|;
            && |r.channels| == c + 1
            && (forall k: nat :: k < c && r.channels[k] != t.channels[k] ==>
                                   HeldById(t.entries, id, k) && r.channels[k] == Channel.Dropped)
            && if Acceptable(t, id, f, asCall) then
                 && r.channels[c] == Open && Stored(t.entries, r.entries, id, f, asCall, WaitingForConfirmation(c))
                 && (forall k: nat :: k < c && HeldById(t.entries, id, k) ==> r.channels[k] == Channel.Dropped)
               else
                 r.channels[c] == Channel.Dropped && HalfStored(t.entries, r.entries, id, f)
  {
    var asked := t.(channels := t.channels + [Open]);
    UpsertStores(asked, id, f, asCall, WaitingForConfirmation(|t.channels|));
    AcceptableIff(t, id, f, asCall, WaitingForConfirmation(|t.channels|));
    RequestSettles(t, id, f, asCall);
    hide Upsert, Stored, HalfStored, Acceptable, HeldById, Sound;
  }

  /** The channels alone. */
  lemma RequestSettles(t: Thread, id: ToolCallId, f: Fields, asCall: Option<NewCall>)
    requires Valid(t) && Sound(t)
    ensures var c, status := |t.channels|, WaitingForConfirmation(|t.channels|);
            var r := AskPermission(t, id, f, asCall);
            && |r.channels| == c + 1
            && (forall k: nat :: k < c && r.channels[k] != t.channels[k] ==>
                                   HeldById(t.entries, id, k) && r.channels[k] == Channel.Dropped)
            && (UpsertSucceeds(t, id, f, asCall, status) ==>
                  && r.channels[c] == Open
                  && forall k: nat :: k < c && HeldById(t.entries, id, k) ==> r.channels[k] == Channel.Dropped)
            && (!UpsertSucceeds(t, id, f, asCall, status) ==> r.channels[c] == Channel.Dropped)
  {
    HeldByItsEntry(t, id);
    var c, status := |t.channels|, WaitingForConfirmation(|t.channels|);
    var asked := t.(channels := t.channels + [Open]);
    hide IndexOf, HeldById, Sound, FromNew, TextStream.Flush, UpdateFields;
    if IndexOf(t.entries, id).Some? {
      var ix := IndexOf(t.entries, id).value;
      FieldsKeep(t.entries[ix].call, f, t.terminals.registered.Keys);
      var (call, ok) := UpdateFields(t.entries[ix].call, f, t.terminals.registered.Keys);
      var updated := SetCall(asked, ix, call);
      DroppedIfHeld(asked.channels, t.entries[ix], call.status, c);
      DroppedIfHeld(updated.channels, updated.entries[ix], status, c);
    }
  }

  /** What overwriting the status of entry e by another does to the first c channels. */
  lemma DroppedIfHeld(channels: seq<Channel>, e: Entry, status: Status, c: nat)
    requires c < |channels| && channels[c].Open? && e.Call?
    requires Waits(e) ==> e.call.status.reply < c && channels[e.call.status.reply].Open?
    ensures var r := if status == e.call.status then channels else Overwrite(channels, e.call.status);
            && |r| == |channels| && r[c].Open?
            && forall k: nat :: k < c ==>
                 r[k] == if Holds(e, k) && status != e.call.status then Channel.Dropped else channels[k]
  {
  }

  lemma HeldByItsEntry(t: Thread, id: ToolCallId)
    requires Sound(t)
    ensures IndexOf(t.entries, id).None? ==> forall k :: !HeldById(t.entries, id, k)
    ensures IndexOf(t.entries, id).Some? ==>
              var e := t.entries[IndexOf(t.entries, id).value];
              && (forall k :: HeldById(t.entries, id, k) <==> Holds(e, k))
              && (Waits(e) ==> e.call.status.reply < |t.channels| && t.channels[e.call.status.reply].Open?)
  {
    IndexOfIsLast(t.entries, id);
    ExistsIff(t.entries, id);
  }

  /**
    * An answer goes to the call with its id, which is then in progress or rejected. A request that the
    * call was waiting on gets the option; no other request and no other call changes.
    */
  lemma AnswerEffects(t: Thread, id: ToolCallId, option: OptionId, allow: bool, ix: nat)
    requires Valid(t) && Sound(t) && ix < |t.entries| && IsCall(t.entries[ix], id)
    ensures var r, call := Step(t, Answer(id, option, allow)), t.entries[ix].call;
            && r.entries == t.entries[ix := Call(call.(status := if allow then InProgress else Rejected))]
            && |r.channels| == |t.channels|
            && (forall k: nat :: k < |t.channels| ==>
                  r.channels[k] == if Holds(t.entries[ix], k) then Answered(option) else t.channels[k])
  {
    LookupIsExact(t.entries, id, ix);
    HeldByItsEntry(t, id);
    hide IndexOf, HeldById;
  }

  /** A request that is accepted is answered by the next answer for its call. */
  lemma RequestIsAnswered(t: Thread, id: ToolCallId, f: Fields, asCall: Option<NewCall>, option: OptionId, allow: bool)
    requires Valid(t) && Sound(t) && Acceptable(t, id, f, asCall)
    ensures var r := Step(Step(t, Ask(id, f, asCall)), Answer(id, option, allow));
            |r.channels| == |t.channels| + 1 && r.channels[|t.channels|] == Answered(option)
  {
    hide Step, Sound, Acceptable;
    RequestEffects(t, id, f, asCall);
    var asked := Step(t, Ask(id, f, asCall));
    StepKeepsSound(t, Ask(id, f, asCall));
    var ix := StoredAt(t.entries, asked.entries, id, f, asCall, WaitingForConfirmation(|t.channels|));
    AnswerEffects(asked, id, option, allow, ix);
  }

  lemma StoredAt(before: seq<Entry>, after: seq<Entry>, id: ToolCallId, f: Fields, asCall: Option<NewCall>,
                 status: Status) returns (ix: nat)
    requires Stored(before, after, id, f, asCall, status)
    ensures ix < |after| && IsCall(after[ix], id) && after[ix].call.status == status
  {
    hide TakesFields, IsMadeFrom;
    if Exists(before, id) {
      ix :| ix < |before| == |after| && IsCall(after[ix], id) && after[ix].call.status == status;
    } else {
      ix := |before|;
      assert IsMadeFrom(after[ix].call, id, asCall.value);
      MadeUnderId(after[ix].call, id, asCall.value);
    }
  }

  lemma MadeUnderId(call: ToolCall, id: ToolCallId, anew: NewCall)
    requires IsMadeFrom(call, id, anew)
    ensures call.id == id
  {
  }

  // ---- updates

  /**
    * An update changes the call with its id alone: it sets fields, or replaces the content by one diff
    * or one terminal. Without such a call it leaves a failed one that says so.
    */
  lemma UpdateEffects(t: Thread, update: CallUpdate)
    requires Valid(t) && UniqueIds(t.entries)
    ensures var r := Step(t, Update(update)).entries;
            && (!Exists(t.entries, update.id) ==>
                  && |r| == |t.entries| + 1 && r[..|t.entries|] == t.entries && IsCall(r[|t.entries|], update.id)
                  && r[|t.entries|].call.status == Failed && r[|t.entries|].call.caption == NOT_FOUND
                  && r[|t.entries|].call.content == [TextContent(NOT_FOUND)])
            && forall ix :: 0 <= ix < |t.entries| && IsCall(t.entries[ix], update.id) ==>
                 && |r| == |t.entries| && IsCall(r[ix], update.id) && r == t.entries[ix := r[ix]]
                 && Updated(t.entries[ix].call, r[ix].call, update, t.terminals.registered.Keys)
  {
    ExistsIff(t.entries, update.id);
    forall ix | 0 <= ix < |t.entries| && IsCall(t.entries[ix], update.id)
      ensures IndexOf(t.entries, update.id) == Some(ix)
      ensures update.FieldsUpdate? ==>
                var call := t.entries[ix].call;
                var known := t.terminals.registered.Keys;
                Updated(call, UpdateFields(call, update.fields, known).0, update, known)
    {
      LookupIsExact(t.entries, update.id, ix);
      if update.FieldsUpdate? {
        FieldsTaken(t.entries[ix].call, update.fields, t.terminals.registered.Keys);
      }
    }
    hide IndexOf, Exists, UpdateFields, TakesFields, TakesHead, TextStream.Flush;
    forall call, f, known ensures UpdateFields(call, f, known).0.id == call.id {
      FieldsKeep(call, f, known);
    }
  }

  ghost predicate Updated(before: ToolCall, after: ToolCall, update: CallUpdate, known: set<TerminalId>) {
    match update
    case FieldsUpdate(_, f) =>
      && TakesStatus(before.status, after.status, f.status) && TakesHead(before, after, f)
      && (f.content.None? || TerminalsKnown(f.content.value, known) ==> TakesFields(before, after, f))
    case DiffUpdate(_, path, base, text) =>
      after.content == [DiffContent(path, base, text)] && after.(content := before.content) == before
    case TerminalUpdate(_, terminal) =>
      after.content == [TerminalContent(terminal)] && after.(content := before.content) == before
  }
}
