/** Rewinding a thread: what is removed, and that rewinding twice is rewinding to the earlier message. */
module ThreadRewind {
  import opened Wrappers
  import opened ToolCalls
  import opened TerminalRegistry
  import opened AgentThread

  predicate HasId(e: Entry, id: MessageId) {
    e.UserMessage? && e.id == Some(id)
  }

  lemma {:induction false} FirstIsFirst(entries: seq<Entry>, id: MessageId)
    ensures FirstWithId(entries, id).None? <==> forall i :: 0 <= i < |entries| ==> !HasId(entries[i], id)
    ensures FirstWithId(entries, id).Some? ==>
              forall i :: 0 <= i < FirstWithId(entries, id).value ==> !HasId(entries[i], id)
  {
    if entries != [] {
      FirstIsFirst(entries[1..], id);
      assert forall i :: 0 < i < |entries| ==> entries[i] == entries[1..][i - 1];
    }
  }

  predicate Shows(entries: seq<Entry>, terminal: TerminalId) {
    exists i :: 0 <= i < |entries| && entries[i].Call? && TerminalContent(terminal) in entries[i].call.content
  }

  lemma TerminalsShown(entries: seq<Entry>, terminal: TerminalId)
    ensures terminal in TerminalsIn(entries) <==> Shows(entries, terminal)
  {
    if terminal in TerminalsIn(entries) {
      var e, c :| e in entries && e.Call? && c in e.call.content && c.TerminalContent? && c.terminal == terminal;
      var i :| 0 <= i < |entries| && entries[i] == e;
      assert c == TerminalContent(terminal);
    }
    if Shows(entries, terminal) {
      var i :| 0 <= i < |entries| && entries[i].Call? && TerminalContent(terminal) in entries[i].call.content;
      assert entries[i] in entries;
    }
  }

  /**
    * Rewinding leaves exactly the entries before the first message with the id, and exactly the
    * terminals that no removed entry shows, each with its output. Other state stays as it was.
    */
  lemma RewindIsExact(t: Thread, id: MessageId)
    requires Valid(t)
    ensures var r := FinishRewind(t, id);
            && r.entries <= t.entries
            && (forall i :: 0 <= i < |r.entries| ==> !HasId(r.entries[i], id))
            && (|r.entries| < |t.entries| ==> HasId(t.entries[|r.entries|], id))
            && (forall x :: x in r.terminals.registered <==>
                              x in t.terminals.registered && !Shows(t.entries[|r.entries|..], x))
            && (forall x :: x in r.terminals.registered ==> r.terminals.registered[x] == t.terminals.registered[x])
            && r.terminals.pendingOutput == t.terminals.pendingOutput
            && r.text == t.text && r.running == t.running && r.turnId == t.turnId && r.plan == t.plan
  {
    assert forall x :: !Shows([], x);
    hide TerminalsIn, DropHeld, Shows;
    FirstIsFirst(t.entries, id);
    var r := FinishRewind(t, id);
    forall x ensures x in TerminalsIn(t.entries[|r.entries|..]) <==> Shows(t.entries[|r.entries|..], x) {
      TerminalsShown(t.entries[|r.entries|..], x);
    }
    if FirstWithId(t.entries, id).None? {
      assert t.entries[|t.entries|..] == [];
    }
  }

  lemma DropTwice(channels: seq<Channel>, a: seq<Entry>, b: seq<Entry>)
    ensures DropHeld(DropHeld(channels, b), a) == DropHeld(channels, a + b)
  {
    hide Holds;
    forall c: nat ensures HeldIn(a + b, c) <==> HeldIn(a, c) || HeldIn(b, c) {
      HeldInSplit(a, b, c);
    }
  }

  lemma HeldInSplit(a: seq<Entry>, b: seq<Entry>, c: ChannelId)
    ensures HeldIn(a + b, c) <==> HeldIn(a, c) || HeldIn(b, c)
  {
    if HeldIn(a, c) {
      var i :| 0 <= i < |a| && Holds(a[i], c);
      assert Holds((a + b)[i], c);
    }
    if HeldIn(b, c) {
      var i :| 0 <= i < |b| && Holds(b[i], c);
      assert Holds((a + b)[|a| + i], c);
    }
  }

  lemma TerminalsOfBoth(a: seq<Entry>, b: seq<Entry>)
    ensures TerminalsIn(a + b) == TerminalsIn(a) + TerminalsIn(b)
  {
  }

  lemma TruncateTwice(t: Thread, i: nat, j: nat)
    requires Valid(t) && i <= j <= |t.entries|
    ensures TruncateTo(TruncateTo(t, j), i) == TruncateTo(t, i)
    ensures TerminalsIn(t.entries[i..j]) + TerminalsIn(t.entries[j..]) == TerminalsIn(t.entries[i..])
  {
    hide DropHeld, TerminalsIn;
    assert t.entries[..j][..i] == t.entries[..i];
    assert t.entries[..j][i..] == t.entries[i..j];
    assert t.entries[i..] == t.entries[i..j] + t.entries[j..];
    DropTwice(t.channels, t.entries[i..j], t.entries[j..]);
    TerminalsOfBoth(t.entries[i..j], t.entries[j..]);
  }

  lemma FirstInPrefix(entries: seq<Entry>, id: MessageId, j: nat)
    requires j <= |entries|
    ensures var i := FirstWithId(entries, id);
            FirstWithId(entries[..j], id) == if i.Some? && i.value < j then i else None
  {
    FirstIsFirst(entries, id);
    FirstIsFirst(entries[..j], id);
    var p := FirstWithId(entries[..j], id);
    assert forall k :: 0 <= k < j ==> entries[..j][k] == entries[k];
    if p.Some? {
      assert HasId(entries[p.value], id);
    }
    var i := FirstWithId(entries, id);
    if i.Some? && i.value < j {
      assert HasId(entries[..j][i.value], id);
    }
  }

  /** Rewinding to one message and then to another is rewinding to whichever of them comes first. */
  lemma RewindsCompose(t: Thread, a: MessageId, b: MessageId)
    requires Valid(t)
    ensures var i, j := FirstWithId(t.entries, a), FirstWithId(t.entries, b);
            FinishRewind(FinishRewind(t, b), a) ==
            if j.Some? && (i.None? || j.value <= i.value) then FinishRewind(t, b) else FinishRewind(t, a)
  {
    hide FirstWithId, DropHeld, TerminalsIn;
    var i, j := FirstWithId(t.entries, a), FirstWithId(t.entries, b);
    if j.Some? {
      FirstInPrefix(t.entries, a, j.value);
      if i.Some? && i.value < j.value {
        TruncateTwice(t, i.value, j.value);
        var removed := t.entries[i.value..j.value];
        assert t.entries[..j.value][i.value..] == removed;
        var all, a', b' := t.terminals.registered, TerminalsIn(removed), TerminalsIn(t.entries[j.value..]);
        assert all - b' - a' == all - (a' + b');
      }
    }
  }
}
