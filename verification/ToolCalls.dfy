/** A tool call's record: how protocol items become its content, and how updates change it in place. */
module ToolCalls {
  import opened Wrappers
  import opened Utf8
  import opened Messages

  type ToolCallId = nat
  type TerminalId = nat
  /** The position, in order of creation, of a permission request's reply channel. */
  type ChannelId = nat

  /** A content item as the protocol sends it. */
  datatype Item =
    | ContentItem(chunk: Chunk)
    | DiffItem(path: Bytes, oldText: Option<Bytes>, newText: Bytes)
    | TerminalItem(terminal: TerminalId)
    | UnknownItem

  /** Content as the thread keeps it. Nothing else refers to a block's Markdown, so its text stands for it. */
  datatype ToolContent =
    | TextContent(text: Bytes)
    | LinkContent(uri: Bytes)
    | ImageContent
    | DiffContent(path: Bytes, base: Bytes, text: Bytes)
    | TerminalContent(terminal: TerminalId)

  datatype ReportedStatus =
    | ReportedPending | ReportedInProgress | ReportedCompleted | ReportedFailed | ReportedOther

  datatype Status =
    | Pending
    | WaitingForConfirmation(reply: ChannelId)
    | InProgress
    | Completed
    | Failed
    | Rejected
    | Canceled

  /** A JSON value; `shown` is its rendering, absent for null. */
  datatype RawValue = RawValue(shown: Option<Bytes>)

  datatype ToolCall = ToolCall(
    id: ToolCallId,
    caption: Bytes,
    execute: bool,
    content: seq<ToolContent>,
    status: Status,
    rawOutput: Option<RawValue>)

  datatype Fields = Fields(
    execute: Option<bool>,
    status: Option<ReportedStatus>,
    title: Option<Bytes>,
    content: Option<seq<Item>>,
    rawOutput: Option<RawValue>)

  /** A complete tool call as the protocol sends it. */
  datatype NewCall = NewCall(title: Bytes, execute: bool, content: seq<Item>, rawOutput: Option<RawValue>)

  const ELLIPSIS: Bytes := [0xE2, 0x80, 0xA6]

  function FromReported(status: ReportedStatus): Status {
    match status
    case ReportedPending => Pending
    case ReportedInProgress => InProgress
    case ReportedCompleted => Completed
    case ReportedFailed => Failed
    case ReportedOther => Pending
  }

  function FirstNewline(s: Bytes): (n: Option<nat>)
    ensures n.Some? ==> n.value < |s|
  {
    if s == [] then None
    else if s[0] == NEWLINE then Some(0)
    else match FirstNewline(s[1..])
      case None => None
      case Some(n) => Some(n + 1)
  }

  /** Only commands show a title of several lines in full. */
  function Caption(title: Bytes, execute: bool): Bytes {
    if execute then title
    else match FirstNewline(title)
      case Some(n) => title[..n] + ELLIPSIS
      case None => title
  }

  function Converted(chunk: Chunk): ToolContent {
    match chunk
    case ResourceLink(uri, _) => LinkContent(uri)
    case Image(true) => ImageContent
    case _ => TextContent(StringContents(chunk))
  }

  lemma {:induction false} FirstNewlineIsFirst(s: Bytes)
    ensures FirstNewline(s).None? <==> NEWLINE !in s
    ensures FirstNewline(s).Some? ==>
              s[FirstNewline(s).value] == NEWLINE && NEWLINE !in s[..FirstNewline(s).value]
  {
    if s != [] && s[0] != NEWLINE {
      FirstNewlineIsFirst(s[1..]);
      assert s == [s[0]] + s[1..];
      if FirstNewline(s).Some? {
        var n := FirstNewline(s[1..]).value;
        assert s[..n + 1] == [s[0]] + s[1..][..n];
      }
    }
  }

  /** Except for commands a title is shown as one line, marked if there is more of it. */
  lemma CaptionIsOneLine(title: Bytes)
    ensures NEWLINE !in Caption(title, false)
    ensures NEWLINE !in title ==> Caption(title, false) == title
    ensures NEWLINE in title ==>
              exists n: nat :: n < |title| && title[n] == NEWLINE && NEWLINE !in title[..n]
                               && Caption(title, false) == title[..n] + ELLIPSIS
    ensures Caption(title, true) == title
  {
    FirstNewlineIsFirst(title);
  }

  /** An item of unknown kind becomes nothing; a terminal must be registered. */
  function FromItem(item: Item, known: set<TerminalId>): Outcome<Option<ToolContent>> {
    match item
    case ContentItem(chunk) => Ok(Some(Converted(chunk)))
    case DiffItem(path, oldText, newText) =>
      Ok(Some(DiffContent(path, if oldText.Some? then oldText.value else [], newText)))
    case TerminalItem(id) => if id in known then Ok(Some(TerminalContent(id))) else Err
    case UnknownItem => Ok(None)
  }

  function FromItems(items: seq<Item>, known: set<TerminalId>): Outcome<seq<ToolContent>> {
    if items == [] then Ok([])
    else
      var first :- FromItem(items[0], known);
      var rest :- FromItems(items[1..], known);
      Ok((if first.Some? then [first.value] else []) + rest)
  }

  predicate NeedsUpdate(prior: ToolContent, item: Item) {
    !(prior.DiffContent? && item.DiffItem?
      && prior.base == (if item.oldText.Some? then item.oldText.value else [])
      && prior.text == item.newText)
  }

  /** A content list in the middle of an update: `dropped` counts the items that became nothing. */
  datatype Progress = Progress(content: seq<ToolContent>, dropped: nat, ok: bool)

  /** Item `i` updates the prior content at its position, or is pushed once `n` prior ones are used up. */
  function UpdateItem(p: Progress, n: nat, i: nat, item: Item, known: set<TerminalId>): Progress {
    if !p.ok then p
    else match FromItem(item, known)
      case Err => p.(ok := false)
      case Ok(None) => p.(dropped := p.dropped + 1)
      case Ok(Some(c)) =>
        if i < n && i < |p.content| then
          if NeedsUpdate(p.content[i], item) then p.(content := p.content[i := c]) else p
        else p.(content := p.content + [c])
  }

  function UpdateItems(p: Progress, n: nat, items: seq<Item>, count: nat, known: set<TerminalId>): Progress
    requires count <= |items|
  {
    if count == 0 then p
    else UpdateItem(UpdateItems(p, n, items, count - 1, known), n, count - 1, items[count - 1], known)
  }

  function Truncate<T>(s: seq<T>, len: int): seq<T> {
    if 0 <= len <= |s| then s[..len] else s
  }

  /** The content after an update with new items; on an error the items so far stay applied. */
  function Reconcile(prior: seq<ToolContent>, items: seq<Item>, known: set<TerminalId>): (seq<ToolContent>, bool) {
    var p := UpdateItems(Progress(prior, 0, true), |prior|, items, |items|, known);
    if p.ok then (Truncate(p.content, |items| - p.dropped), true) else (p.content, false)
  }

  /** The record after an update, and whether the update succeeded. */
  function UpdateFields(call: ToolCall, f: Fields, known: set<TerminalId>): (ToolCall, bool) {
    var execute := if f.execute.Some? then f.execute.value else call.execute;
    var status := if f.status.Some? then FromReported(f.status.value) else call.status;
    var caption := if f.title.Some? then Caption(f.title.value, execute) else call.caption;
    var (content, ok) :=
      if f.content.Some? then Reconcile(call.content, f.content.value, known) else (call.content, true);
    var c := call.(execute := execute, status := status, caption := caption, content := content);
    if ok && f.rawOutput.Some? then
      (c.(content := WithOutput(content, f.rawOutput.value), rawOutput := f.rawOutput), true)
    else (c, ok)
  }

  /** Output is shown as content when there is no other content. */
  function WithOutput(content: seq<ToolContent>, output: RawValue): seq<ToolContent> {
    if content == [] && output.shown.Some? then [TextContent(output.shown.value)] else content
  }

  function FromNew(id: ToolCallId, call: NewCall, status: Status, known: set<TerminalId>): Outcome<ToolCall> {
    var content :- FromItems(call.content, known);
    Ok(ToolCall(id, Caption(call.title, call.execute), call.execute, content, status, call.rawOutput))
  }

  const NOT_FOUND: Bytes :=
    [0x54, 0x6F, 0x6F, 0x6C, 0x20, 0x63, 0x61, 0x6C, 0x6C, 0x20, 0x6E, 0x6F, 0x74, 0x20, 0x66, 0x6F, 0x75, 0x6E, 0x64]

  /** What an update for an unknown id leaves in the thread. */
  function MissingCall(id: ToolCallId): ToolCall {
    ToolCall(id, NOT_FOUND, false, [TextContent(NOT_FOUND)], Failed, None)
  }

  // ---- the loops

  function Prepended(done: seq<ToolContent>, rest: Outcome<seq<ToolContent>>): Outcome<seq<ToolContent>> {
    if rest.Ok? then Ok(done + rest.value) else Err
  }

  lemma PrependedToNothing(rest: Outcome<seq<ToolContent>>)
    ensures Prepended([], rest) == rest
  {
    assert rest.Ok? ==> [] + rest.value == rest.value;
  }

  method ConvertItems(items: seq<Item>, known: set<TerminalId>) returns (r: Outcome<seq<ToolContent>>)
    ensures r == FromItems(items, known)
  {
    hide FromItem;
    var content := [];
    assert items[0..] == items;
    PrependedToNothing(FromItems(items, known));
    for i := 0 to |items|
      invariant FromItems(items, known) == Prepended(content, FromItems(items[i..], known))
    {
      assert items[i..][1..] == items[i + 1..];
      ghost var rest := FromItems(items[i + 1..], known);
      match FromItem(items[i], known) {
        case Err => return Err;
        case Ok(None) => PrependedToNothing(rest);
        case Ok(Some(c)) =>
          assert rest.Ok? ==> content + ([c] + rest.value) == (content + [c]) + rest.value;
          content := content + [c];
      }
    }
    assert items[|items|..] == [] && content + [] == content;
    return Ok(content);
  }

  method ReconcileContent(prior: seq<ToolContent>, items: seq<Item>, known: set<TerminalId>)
    returns (content: seq<ToolContent>, ok: bool)
    ensures (content, ok) == Reconcile(prior, items, known)
  {
    content := prior;
    var newLen: int := |items|;
    ghost var start := Progress(prior, 0, true);
    assert UpdateItems(start, |prior|, items, 0, known) == start;
    hide FromItem, NeedsUpdate, UpdateItems;
    ReconcileLength(prior, items, |items|, known);
    // Reuse existing content where there is some.
    var i := 0;
    while i < |prior| && i < |items|
      invariant i <= |prior| && i <= |items| && |content| == |prior|
      invariant newLen <= |items|
      invariant UpdateItems(start, |prior|, items, i, known) == Progress(content, |items| - newLen, true)
    {
      OneMore(start, |prior|, items, i, known);
      match FromItem(items[i], known) {
        case Err => return content, false;
        case Ok(None) => newLen := newLen - 1;
        case Ok(Some(c)) =>
          if NeedsUpdate(content[i], items[i]) {
            content := content[i := c];
          }
      }
      i := i + 1;
    }
    while i < |items|
      invariant i <= |items| && newLen <= |items| && (i < |items| ==> |prior| <= i)
      invariant UpdateItems(start, |prior|, items, i, known) == Progress(content, |items| - newLen, true)
    {
      OneMore(start, |prior|, items, i, known);
      match FromItem(items[i], known) {
        case Err => return content, false;
        case Ok(None) => newLen := newLen - 1;
        case Ok(Some(c)) => content := content + [c];
      }
      i := i + 1;
    }
    content, ok := content[..newLen], true;
  }

  /** The record as an update leaves it: what was assigned before an error stays assigned. */
  method UpdateRecord(call: ToolCall, f: Fields, known: set<TerminalId>) returns (r: ToolCall, ok: bool)
    ensures (r, ok) == UpdateFields(call, f, known)
  {
    hide Reconcile, Caption;
    r, ok := call, true;
    if f.execute.Some? {
      r := r.(execute := f.execute.value);
    }
    if f.status.Some? {
      r := r.(status := FromReported(f.status.value));
    }
    if f.title.Some? {
      r := r.(caption := Caption(f.title.value, r.execute));
    }
    if f.content.Some? {
      var content;
      content, ok := ReconcileContent(r.content, f.content.value, known);
      r := r.(content := content);
      if !ok {
        return;
      }
    }
    if f.rawOutput.Some? {
      if |r.content| == 0 && f.rawOutput.value.shown.Some? {
        r := r.(content := [TextContent(f.rawOutput.value.shown.value)]);
      }
      r := r.(rawOutput := f.rawOutput);
    }
  }

  method NewRecord(id: ToolCallId, call: NewCall, status: Status, known: set<TerminalId>) returns (r: Outcome<ToolCall>)
    ensures r == FromNew(id, call, status, known)
  {
    hide FromItems, Caption;
    var content := ConvertItems(call.content, known);
    if content.Err? {
      return Err;
    }
    r := Ok(ToolCall(id, Caption(call.title, call.execute), call.execute, content.value, status, call.rawOutput));
  }

  lemma OneMore(p: Progress, n: nat, items: seq<Item>, i: nat, known: set<TerminalId>)
    requires i < |items|
    ensures UpdateItems(p, n, items, i + 1, known) ==
              UpdateItem(UpdateItems(p, n, items, i, known), n, i, items[i], known)
    ensures !UpdateItems(p, n, items, i + 1, known).ok ==>
              UpdateItems(p, n, items, |items|, known) == UpdateItems(p, n, items, i + 1, known)
  {
    StopsAtError(p, n, items, i + 1, |items|, known);
  }

  lemma {:induction false} StopsAtError(p: Progress, n: nat, items: seq<Item>, count: nat, more: nat,
                                        known: set<TerminalId>)
    requires count <= more <= |items|
    ensures !UpdateItems(p, n, items, count, known).ok ==>
              UpdateItems(p, n, items, more, known) == UpdateItems(p, n, items, count, known)
    decreases more
  {
    if count < more {
      StopsAtError(p, n, items, count, more - 1, known);
    }
  }

  /** There is always something to truncate to. */
  lemma {:induction false} ReconcileLength(prior: seq<ToolContent>, items: seq<Item>, count: nat,
                                           known: set<TerminalId>)
    requires count <= |items|
    ensures var p := UpdateItems(Progress(prior, 0, true), |prior|, items, count, known);
            && p.dropped <= count && |prior| <= |p.content|
            && (p.ok ==> count - p.dropped <= |p.content|)
            && (p.ok && count <= |prior| ==> |p.content| == |prior|)
    decreases count
  {
    if count > 0 {
      ReconcileLength(prior, items, count - 1, known);
    }
  }

  // ---- an update in place against replacing the content

  /** Equal, where diffs count as equal when they compare the same two texts. */
  predicate SameContent(a: ToolContent, b: ToolContent) {
    a == b || (a.DiffContent? && b.DiffContent? && a.base == b.base && a.text == b.text)
  }

  predicate SameContents(a: seq<ToolContent>, b: seq<ToolContent>) {
    |a| == |b| && forall i :: 0 <= i < |a| ==> SameContent(a[i], b[i])
  }

  predicate Convertible(items: seq<Item>, known: set<TerminalId>) {
    forall i :: 0 <= i < |items| ==> FromItem(items[i], known).Ok?
  }

  /** No item of unknown kind that takes up a prior position has a known one after it. */
  predicate UnknownComeLast(items: seq<Item>, n: nat) {
    forall i, j :: 0 <= i < j < |items| && i < n && items[i].UnknownItem? ==> items[j].UnknownItem?
  }

  /** Fresh(items, count): the conversion of the first `count` items. */
  function Fresh(items: seq<Item>, count: nat, known: set<TerminalId>): seq<ToolContent>
    requires count <= |items| && Convertible(items, known)
  {
    if count == 0 then []
    else
      var c := FromItem(items[count - 1], known).value;
      Fresh(items, count - 1, known) + if c.Some? then [c.value] else []
  }

  lemma {:induction false} FreshIsConversion(items: seq<Item>, known: set<TerminalId>)
    requires Convertible(items, known)
    ensures FromItems(items, known) == Ok(Fresh(items, |items|, known))
  {
    hide FromItem;
    if items != [] {
      FreshIsConversion(items[1..], known);
      FreshFromFirst(items, |items|, known);
    }
  }

  lemma {:induction false} FreshFromFirst(items: seq<Item>, count: nat, known: set<TerminalId>)
    requires 0 < count <= |items| && Convertible(items, known)
    ensures Convertible(items[1..], known)
    ensures var c := FromItem(items[0], known).value;
            Fresh(items, count, known) ==
            (if c.Some? then [c.value] else []) + Fresh(items[1..], count - 1, known)
    decreases count
  {
    hide FromItem;
    if count > 1 {
      FreshFromFirst(items, count - 1, known);
    }
  }

  lemma {:induction false} UpdateLengths(prior: seq<ToolContent>, items: seq<Item>, count: nat, known: set<TerminalId>)
    requires count <= |items| && Convertible(items, known)
    ensures var p := UpdateItems(Progress(prior, 0, true), |prior|, items, count, known);
            var anew := Fresh(items, count, known);
            && p.ok && |anew| == count - p.dropped && |anew| <= |p.content| && |prior| <= |p.content|
            && (count <= |prior| ==> |p.content| == |prior|)
            && ((forall j :: 0 <= j < count && j < |prior| ==> !items[j].UnknownItem?) ==>
                  |p.content| == if count <= |prior| then |prior| else |anew|)
            && ((forall j :: 0 <= j < count && j < |prior| ==> !items[j].UnknownItem?) && count <= |prior| ==>
                  p.dropped == 0)
    decreases count
  {
    if count > 0 {
      UpdateLengths(prior, items, count - 1, known);
    }
  }

  /** While no unknown item interferes, the used part of the list is a fresh conversion. */
  lemma {:induction false} InStep(prior: seq<ToolContent>, items: seq<Item>, count: nat, known: set<TerminalId>)
    requires count <= |items| && Convertible(items, known) && UnknownComeLast(items, |prior|)
    ensures var p := UpdateItems(Progress(prior, 0, true), |prior|, items, count, known);
            var anew := Fresh(items, count, known);
            |anew| <= |p.content| && SameContents(p.content[..|anew|], anew)
    decreases count
  {
    hide FromItem, UpdateItem, NeedsUpdate;
    if count > 0 {
      var i := count - 1;
      InStep(prior, items, i, known);
      UpdateLengths(prior, items, i, known);
      UpdateLengths(prior, items, count, known);
      var p := UpdateItems(Progress(prior, 0, true), |prior|, items, i, known);
      var anew := Fresh(items, i, known);
      UpdateMatches(p, |prior|, i, items[i], known);
      if !items[i].UnknownItem? {
        assert forall j :: 0 <= j < i && j < |prior| ==> !items[j].UnknownItem?;
      }
    }
  }

  lemma UpdateMatches(p: Progress, n: nat, i: nat, item: Item, known: set<TerminalId>)
    requires p.ok && FromItem(item, known).Ok? && n <= |p.content|
    ensures FromItem(item, known).value.None? <==> item.UnknownItem?
    ensures item.UnknownItem? ==> UpdateItem(p, n, i, item, known).content == p.content
    ensures !item.UnknownItem? ==>
            var q := UpdateItem(p, n, i, item, known);
            var at := if i < n then i else |p.content|;
            && at < |q.content| && q.content[..at] == p.content[..at] && q.dropped == p.dropped
            && SameContent(q.content[at], FromItem(item, known).value.value)
  {
  }

  /** An unknown item leaves what was at its position. */
  lemma {:induction false} UnknownKeeps(prior: seq<ToolContent>, items: seq<Item>, count: nat, i: nat,
                                        known: set<TerminalId>)
    requires count <= |items| && i < |prior| && i < |items| && items[i].UnknownItem?
    ensures var p := UpdateItems(Progress(prior, 0, true), |prior|, items, count, known);
            |prior| <= |p.content| && p.content[i] == prior[i]
    decreases count
  {
    hide NeedsUpdate;
    if count > 0 {
      UnknownKeeps(prior, items, count - 1, i, known);
    }
  }

  lemma {:induction false} FreshGrows(items: seq<Item>, i: nat, count: nat, known: set<TerminalId>)
    requires i <= count <= |items| && Convertible(items, known)
    ensures |Fresh(items, i, known)| <= |Fresh(items, count, known)| <= |Fresh(items, i, known)| + count - i
    ensures (forall k :: i <= k < count ==> !items[k].UnknownItem?) ==>
              |Fresh(items, count, known)| == |Fresh(items, i, known)| + count - i
    decreases count
  {
    if i < count {
      FreshGrows(items, i, count - 1, known);
    }
  }

  /** The update succeeds and leaves what converting the new items afresh would give. */
  predicate Replaces(prior: seq<ToolContent>, items: seq<Item>, known: set<TerminalId>) {
    var (content, ok) := Reconcile(prior, items, known);
    ok && FromItems(items, known).Ok? && SameContents(content, FromItems(items, known).value)
  }

  /**
    * Updating content in place is the same as replacing it, whatever it was before, exactly when no
    * item of unknown kind within the prior length has a known one after it. Diffs compare by their texts.
    */
  lemma ReconcileReplacesIff(items: seq<Item>, n: nat, known: set<TerminalId>)
    requires Convertible(items, known)
    ensures (forall prior: seq<ToolContent> | |prior| == n :: Replaces(prior, items, known))
              <==> UnknownComeLast(items, n)
  {
    hide Reconcile, UpdateItems, FromItem, SameContents;
    FreshIsConversion(items, known);
    if UnknownComeLast(items, n) {
      forall prior: seq<ToolContent> | |prior| == n
        ensures Replaces(prior, items, known)
      {
        InStep(prior, items, |items|, known);
        ReconcileEnds(prior, items, known);
      }
    } else {
      var i := FirstGap(items, n);
      var other := Misplaced(items, n, i, known);
    }
  }

  lemma ReconcileEnds(prior: seq<ToolContent>, items: seq<Item>, known: set<TerminalId>)
    requires Convertible(items, known)
    ensures var p := UpdateItems(Progress(prior, 0, true), |prior|, items, |items|, known);
            var anew := Fresh(items, |items|, known);
            |anew| <= |p.content| && Reconcile(prior, items, known) == (p.content[..|anew|], true)
  {
    UpdateLengths(prior, items, |items|, known);
  }

  /** The first unknown item within the first n that has a known one after it. */
  lemma FirstGap(items: seq<Item>, n: nat) returns (i: nat)
    requires !UnknownComeLast(items, n)
    ensures i < n && i < |items| && items[i].UnknownItem?
    ensures forall k :: 0 <= k < i ==> !items[k].UnknownItem?
    ensures exists j :: i < j < |items| && !items[j].UnknownItem?
  {
    var a, j :| 0 <= a < j < |items| && a < n && items[a].UnknownItem? && !items[j].UnknownItem?;
    i := 0;
    while !items[i].UnknownItem?
      invariant i <= a
      invariant forall k :: 0 <= k < i ==> !items[k].UnknownItem?
      decreases a - i
    {
      i := i + 1;
    }
    assert i < j;
  }

  /** Content of length n that the update gets wrong. */
  lemma Misplaced(items: seq<Item>, n: nat, i: nat, known: set<TerminalId>) returns (prior: seq<ToolContent>)
    requires Convertible(items, known) && i < n && i < |items| && items[i].UnknownItem?
    requires forall k :: 0 <= k < i ==> !items[k].UnknownItem?
    requires exists j :: i < j < |items| && !items[j].UnknownItem?
    ensures |prior| == n && !Replaces(prior, items, known)
  {
    hide Reconcile, UpdateItems, Fresh, FromItems, FromItem;
    var j :| i < j < |items| && !items[j].UnknownItem?;
    var anew := Fresh(items, |items|, known);
    FreshIsConversion(items, known);
    FreshGrows(items, 0, i, known);
    FreshGrows(items, i, j, known);
    FreshGrows(items, j, j + 1, known);
    FreshGrows(items, j + 1, |items|, known);
    var wrong := if anew[i].ImageContent? then TextContent([]) else ImageContent;
    prior := seq(n, _ => wrong);
    UnknownKeeps(prior, items, |items|, i, known);
    ReconcileEnds(prior, items, known);
    assert !SameContent(wrong, anew[i]);
  }

  /** An update fails exactly when it names a terminal that is not registered, like a new call would. */
  lemma {:induction false} FailsIffTerminalMissing(prior: seq<ToolContent>, items: seq<Item>, known: set<TerminalId>)
    ensures Reconcile(prior, items, known).1 <==> Convertible(items, known)
    ensures FromItems(items, known).Ok? <==> Convertible(items, known)
    ensures Convertible(items, known) <==>
              forall i :: 0 <= i < |items| && items[i].TerminalItem? ==> items[i].terminal in known
  {
    OkIffConvertible(prior, items, |items|, known);
    ConvertsIff(items, known);
  }

  lemma {:induction false} OkIffConvertible(prior: seq<ToolContent>, items: seq<Item>, count: nat,
                                            known: set<TerminalId>)
    requires count <= |items|
    ensures UpdateItems(Progress(prior, 0, true), |prior|, items, count, known).ok <==>
              forall i :: 0 <= i < count ==> FromItem(items[i], known).Ok?
    decreases count
  {
    if count > 0 {
      OkIffConvertible(prior, items, count - 1, known);
    }
  }

  lemma {:induction false} ConvertsIff(items: seq<Item>, known: set<TerminalId>)
    ensures FromItems(items, known).Ok? <==> Convertible(items, known)
  {
    hide FromItem;
    if items != [] {
      ConvertsIff(items[1..], known);
      if Convertible(items[1..], known) && FromItem(items[0], known).Ok? {
        assert forall i :: 0 < i < |items| ==> items[i] == items[1..][i - 1];
      }
    }
  }

  /** The content of a call after an update that replaces it, given what it now shows as output. */
  lemma UpdatedContent(call: ToolCall, f: Fields, known: set<TerminalId>)
    requires f.content.Some? && Convertible(f.content.value, known)
    requires UnknownComeLast(f.content.value, |call.content|)
    ensures UpdateFields(call, f, known).1
    ensures var anew := FromItems(f.content.value, known);
            anew.Ok? && SameContents(UpdateFields(call, f, known).0.content,
                                     if f.rawOutput.Some? then WithOutput(anew.value, f.rawOutput.value)
                                     else anew.value)
  {
    hide Reconcile, FromItems, FromItem, Caption, FromReported;
    ReconcileReplacesIff(f.content.value, |call.content|, known);
    assert Replaces(call.content, f.content.value, known);
  }

  /** An unknown item ahead of a known one: the known one is lost and outdated content stays. */
  lemma UnknownItemMisplaces(x: ToolContent, a: Bytes, known: set<TerminalId>)
    ensures Reconcile([x], [UnknownItem, ContentItem(Text(a))], known) == ([x], true)
    ensures FromItems([UnknownItem, ContentItem(Text(a))], known) == Ok([TextContent(a)])
  {
    var items := [UnknownItem, ContentItem(Text(a))];
    var start := Progress([x], 0, true);
    assert UpdateItems(start, 1, items, 0, known) == start;
    assert UpdateItems(start, 1, items, 1, known) == Progress([x], 1, true);
    assert UpdateItems(start, 1, items, 2, known) == Progress([x, TextContent(a)], 1, true);
    FreshIsConversion(items, known);
    assert Fresh(items, 0, known) == [] && Fresh(items, 1, known) == [] + [];
    assert Fresh(items, 2, known) == [] + [TextContent(a)] == [TextContent(a)];
  }
}
