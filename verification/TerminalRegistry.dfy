/** A thread's terminals: events can arrive before the terminal they are about, and then wait for it. */
module TerminalRegistry {
  import opened Utf8
  import opened ToolCalls

  datatype Terminals = Terminals(
    /** What has been written to each registered terminal. */
    registered: map<TerminalId, Bytes>,
    pendingOutput: map<TerminalId, seq<Bytes>>,
    pendingExit: set<TerminalId>)

  const NONE_YET := Terminals(map[], map[], {})

  datatype ProviderEvent =
    | Created(id: TerminalId)
    | Output(id: TerminalId, data: Bytes)
    | TitleChanged(id: TerminalId)
    | Exit(id: TerminalId)

  function Concat(chunks: seq<Bytes>): Bytes {
    if chunks == [] then [] else chunks[0] + Concat(chunks[1..])
  }

  function Waiting(t: Terminals, id: TerminalId): seq<Bytes> {
    if id in t.pendingOutput then t.pendingOutput[id] else []
  }

  /** A new terminal is registered and takes what is waiting for it. */
  function Register(t: Terminals, id: TerminalId): Terminals {
    Terminals(t.registered[id := Concat(Waiting(t, id))], t.pendingOutput - {id}, t.pendingExit - {id})
  }

  function OnEvent(t: Terminals, e: ProviderEvent): Terminals {
    match e
    case Created(id) => Register(t, id)
    case Output(id, data) =>
      if id in t.registered then t.(registered := t.registered[id := t.registered[id] + data])
      else t.(pendingOutput := t.pendingOutput[id := Waiting(t, id) + [data]])
    case TitleChanged(_) => t
    case Exit(id) => if id in t.registered then t else t.(pendingExit := t.pendingExit + {id})
  }

  /** Terminals are released one at a time, or removed with the entries that show them. */
  function Remove(t: Terminals, ids: set<TerminalId>): Terminals {
    t.(registered := t.registered - ids)
  }

  /** The loop that writes waiting chunks to a terminal just created. */
  method WriteAll(written: Bytes, chunks: seq<Bytes>) returns (r: Bytes)
    ensures r == written + Concat(chunks)
  {
    r := written;
    for i := 0 to |chunks|
      invariant r + Concat(chunks[i..]) == written + Concat(chunks)
    {
      assert chunks[i..][1..] == chunks[i + 1..];
      assert r + (chunks[i] + Concat(chunks[i + 1..])) == (r + chunks[i]) + Concat(chunks[i + 1..]);
      r := r + chunks[i];
    }
    assert r + [] == r;
  }

  // ---- conservation

  /** No terminal is both registered and waited for. */
  predicate Apart(t: Terminals) {
    forall id :: id in t.registered ==> id !in t.pendingOutput && id !in t.pendingExit
  }

  /** What has been written to the terminal followed by what waits for it. */
  function Text(t: Terminals, id: TerminalId): Bytes {
    (if id in t.registered then t.registered[id] else []) + Concat(Waiting(t, id))
  }

  datatype Change = Happened(event: ProviderEvent) | Removed(ids: set<TerminalId>)

  function Apply(t: Terminals, c: Change): Terminals {
    match c
    case Happened(e) => OnEvent(t, e)
    case Removed(ids) => Remove(t, ids)
  }

  function History(t: Terminals, changes: seq<Change>): Terminals
    decreases |changes|
  {
    if changes == [] then t else History(Apply(t, changes[0]), changes[1..])
  }

  /** Whether `id` is registered after the changes: the last creation came after the last removal. */
  predicate Present(changes: seq<Change>, id: TerminalId) {
    changes != [] &&
    var last := changes[|changes| - 1];
    if last == Happened(Created(id)) then true
    else if last.Removed? && id in last.ids then false
    else Present(changes[..|changes| - 1], id)
  }

  /** The output due to `id`: all of it in order, since its terminal was last replaced or removed, if ever. */
  function Due(changes: seq<Change>, id: TerminalId): Bytes {
    if changes == [] then []
    else
      var init, last := changes[..|changes| - 1], changes[|changes| - 1];
      if last == Happened(Created(id)) || (last.Removed? && id in last.ids) then
        if Present(init, id) then [] else Due(init, id)
      else if last.Happened? && last.event.Output? && last.event.id == id then Due(init, id) + last.event.data
      else Due(init, id)
  }

  lemma {:induction false} ConcatPush(chunks: seq<Bytes>, data: Bytes)
    ensures Concat(chunks + [data]) == Concat(chunks) + data
  {
    if chunks == [] {
      assert chunks + [data] == [data] && Concat([data]) == data + [] == data;
    } else {
      ConcatPush(chunks[1..], data);
      assert (chunks + [data])[1..] == chunks[1..] + [data];
      assert (chunks[0] + Concat(chunks[1..])) + data == chunks[0] + (Concat(chunks[1..]) + data);
    }
  }

  lemma ApplyKeepsApart(t: Terminals, c: Change)
    requires Apart(t)
    ensures Apart(Apply(t, c))
  {
  }

  /** What one change does to one terminal's text. */
  lemma ApplyText(t: Terminals, c: Change, id: TerminalId)
    requires Apart(t)
    ensures var r := Apply(t, c);
            && (id in r.registered <==>
                  c == Happened(Created(id)) || (id in t.registered && !(c.Removed? && id in c.ids)))
            && Text(r, id) ==
               if c == Happened(Created(id)) || (c.Removed? && id in c.ids) then
                 (if id in t.registered then [] else Text(t, id))
               else if c.Happened? && c.event.Output? && c.event.id == id then Text(t, id) + c.event.data
               else Text(t, id)
  {
    var waiting := Concat(Waiting(t, id));
    assert waiting + [] == waiting && [] + waiting == waiting;
    if c.Happened? && c.event.Output? && c.event.id == id {
      if id in t.registered {
        assert Waiting(t, id) == [] && Text(t, id) == t.registered[id] + [] == t.registered[id];
      } else {
        ConcatPush(Waiting(t, id), c.event.data);
        assert [] + Concat(Waiting(t, id) + [c.event.data]) == ([] + waiting) + c.event.data;
      }
    }
  }

  lemma {:induction false} HistoryExtends(t: Terminals, changes: seq<Change>, c: Change)
    ensures History(t, changes + [c]) == Apply(History(t, changes), c)
    decreases |changes|
  {
    if changes == [] {
      assert changes + [c] == [c] && [c][1..] == [];
      assert History(t, [c]) == History(Apply(t, c), []);
    } else {
      HistoryExtends(Apply(t, changes[0]), changes[1..], c);
      assert (changes + [c])[1..] == changes[1..] + [c];
    }
  }

  /**
    * Output is never lost or reordered, wherever the terminal's creation falls in it: what was
    * written to a terminal and what waits for it are together exactly the output due to its id.
    */
  lemma {:induction false} OutputIsConserved(changes: seq<Change>, id: TerminalId)
    ensures var t := History(NONE_YET, changes);
            Apart(t) && Text(t, id) == Due(changes, id) && (id in t.registered <==> Present(changes, id))
    decreases |changes|
  {
    if changes == [] {
    } else {
      hide Apply, Text, Apart;
      var init, last := changes[..|changes| - 1], changes[|changes| - 1];
      OutputIsConserved(init, id);
      assert changes == init + [last];
      HistoryExtends(NONE_YET, init, last);
      ApplyKeepsApart(History(NONE_YET, init), last);
      ApplyText(History(NONE_YET, init), last, id);
    }
  }

  /** An exit of `id` came when it was not registered, and no creation has come since. */
  ghost predicate ExitWaits(changes: seq<Change>, id: TerminalId) {
    exists k :: && 0 <= k < |changes| && changes[k] == Happened(Exit(id)) && !Present(changes[..k], id)
                && forall j :: k < j < |changes| ==> changes[j] != Happened(Created(id))
  }

  /** An exit that comes before its terminal waits for it, exactly until the terminal is created. */
  lemma {:induction false} ExitsAreKept(changes: seq<Change>, id: TerminalId)
    ensures id in History(NONE_YET, changes).pendingExit <==> ExitWaits(changes, id)
    decreases |changes|
  {
    if changes != [] {
      var n := |changes| - 1;
      var init, last := changes[..n], changes[n];
      ExitsAreKept(init, id);
      OutputIsConserved(init, id);
      assert changes == init + [last];
      HistoryExtends(NONE_YET, init, last);
      var before := History(NONE_YET, init);
      assert id in Apply(before, last).pendingExit <==>
             last != Happened(Created(id))
             && (id in before.pendingExit || (last == Happened(Exit(id)) && !Present(init, id)));
      hide History, Present, Apply;
      ExitWaitsStep(init, last, id);
    }
  }

  lemma ExitWaitsStep(init: seq<Change>, last: Change, id: TerminalId)
    ensures ExitWaits(init + [last], id) <==>
              last != Happened(Created(id))
              && (ExitWaits(init, id) || (last == Happened(Exit(id)) && !Present(init, id)))
  {
    hide Present;
    var changes, n := init + [last], |init|;
    assert changes[..n] == init;
    assert forall k :: 0 <= k < n ==> changes[k] == init[k] && changes[..k] == init[..k];
    if last == Happened(Exit(id)) && !Present(init, id) {
      assert changes[n] == last;
    }
    if last != Happened(Created(id)) && ExitWaits(init, id) {
      var k :| && 0 <= k < n && init[k] == Happened(Exit(id)) && !Present(init[..k], id)
               && forall j :: k < j < n ==> init[j] != Happened(Created(id));
      assert changes[k] == Happened(Exit(id)) && !Present(changes[..k], id);
    }
  }

  function AllOutput(changes: seq<Change>, id: TerminalId): Bytes {
    if changes == [] then []
    else
      var init, last := changes[..|changes| - 1], changes[|changes| - 1];
      AllOutput(init, id) +
      if last.Happened? && last.event.Output? && last.event.id == id then last.event.data else []
  }

  /** Until a terminal created at most once is removed, all output for its id is accounted for. */
  lemma OneCreationKeepsAll(changes: seq<Change>, id: TerminalId)
    requires forall i, j :: 0 <= i < j < |changes| ==>
                              !(changes[i] == Happened(Created(id)) && changes[j] == Happened(Created(id)))
    requires forall i :: 0 <= i < |changes| && changes[i].Removed? ==> id !in changes[i].ids
    ensures Text(History(NONE_YET, changes), id) == AllOutput(changes, id)
    ensures id in History(NONE_YET, changes).registered ==>
              History(NONE_YET, changes).registered[id] == AllOutput(changes, id)
  {
    hide Text, History;
    OutputIsConserved(changes, id);
    NothingReset(changes, id);
    RegisteredShowsAll(History(NONE_YET, changes), id);
  }

  lemma RegisteredShowsAll(t: Terminals, id: TerminalId)
    requires Apart(t)
    ensures id in t.registered ==> t.registered[id] == Text(t, id)
  {
    assert id in t.registered ==> t.registered[id] + [] == t.registered[id];
  }

  lemma {:induction false} NothingReset(changes: seq<Change>, id: TerminalId)
    requires forall i, j :: 0 <= i < j < |changes| ==>
                              !(changes[i] == Happened(Created(id)) && changes[j] == Happened(Created(id)))
    requires forall i :: 0 <= i < |changes| && changes[i].Removed? ==> id !in changes[i].ids
    ensures Due(changes, id) == AllOutput(changes, id)
    ensures Present(changes, id) <==> Happened(Created(id)) in changes
    decreases |changes|
  {
    if changes != [] {
      var init, last := changes[..|changes| - 1], changes[|changes| - 1];
      NothingReset(init, id);
      assert AllOutput(init, id) + [] == AllOutput(init, id);
    }
  }
}
