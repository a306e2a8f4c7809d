/** What starting, cancelling and completing a turn do to a thread, told without the updates themselves. */
module TurnEffects {
  import opened Wrappers
  import TextStream
  import opened Messages
  import ToolCalls
  import opened AgentThread
  import ThreadStreaming

  // ---- parts of the descriptions

  /** A call that the user is still waiting for. */
  predicate IsUnfinished(e: Entry) {
    e.Call? && (e.call.status.Pending? || e.call.status.WaitingForConfirmation? || e.call.status.InProgress?)
  }

  /** Exactly the unfinished calls have become cancelled, and are otherwise as they were. */
  predicate UnfinishedCancelled(before: seq<Entry>, after: seq<Entry>) {
    && |after| == |before|
    && forall i :: 0 <= i < |before| ==>
         after[i] == if IsUnfinished(before[i]) then Call(before[i].call.(status := ToolCalls.Canceled)) else before[i]
  }

  /** Output that the agent may have refused instead of the user's message. */
  predicate HasOutput(e: Entry) {
    e.Call? && e.call.status == ToolCalls.Completed && e.call.rawOutput.Some?
  }

  /** The last user message is entry `ix`, and no completed call with output follows it. */
  predicate RefusedAt(entries: seq<Entry>, ix: int) {
    && 0 <= ix < |entries| && entries[ix].UserMessage?
    && forall j :: ix < j < |entries| ==> !entries[j].UserMessage? && !HasOutput(entries[j])
  }

  /** `after` is `before` cut off at the message refused, if there is one. */
  ghost predicate RefusedCutOff(before: seq<Entry>, after: seq<Entry>) {
    && (forall ix :: RefusedAt(before, ix) ==> after == before[..ix])
    && ((forall ix :: !RefusedAt(before, ix)) ==> after == before)
  }

  /** All that was pending is shown, and nothing else has changed in any Markdown. */
  ghost predicate AllShown(t: Thread, r: Thread) {
    && r.text.buffer.None? && |r.text.markdowns| == |t.text.markdowns|
    && forall id :: TextStream.Shown(r.text, id) == ThreadStreaming.WithPending(t, id)
  }

  /** The positions that `at` lists, in increasing order, are those of the entries not completed. */
  ghost predicate PicksUncompleted(plan: seq<PlanEntry>, at: seq<nat>) {
    && (forall i, j :: 0 <= i < j < |at| ==> at[i] < at[j])
    && (forall k: nat :: k < |plan| ==> (k in at <==> plan[k].status != PlanCompleted))
  }

  predicate AreAt(plan: seq<PlanEntry>, at: seq<nat>, after: seq<PlanEntry>) {
    |after| == |at| && forall i :: 0 <= i < |at| ==> at[i] < |plan| && after[i] == plan[at[i]]
  }

  ghost predicate CompletedCleared(plan: seq<PlanEntry>, after: seq<PlanEntry>) {
    exists at: seq<nat> :: PicksUncompleted(plan, at) && AreAt(plan, at, after)
  }

  // ---- the steps

  /** Only entries, and with them permission channels, have changed. */
  predicate ElseSame(t: Thread, r: Thread) {
    r.(entries := t.entries, channels := t.channels) == t
  }

  lemma FlushShowsAll(t: Thread)
    requires Valid(t)
    ensures AllShown(t, Flushed(t))
  {
    forall id ensures TextStream.Shown(Flushed(t).text, id) == ThreadStreaming.WithPending(t, id) {
      ThreadStreaming.FlushedShowsAll(t, id);
    }
  }

  lemma ShownByText(t: Thread, a: Thread, b: Thread)
    requires AllShown(t, a)
    ensures a.text == b.text ==> AllShown(t, b)
  {
  }

  lemma MarkingCancels(t: Thread)
    requires Valid(t)
    ensures UnfinishedCancelled(t.entries, MarkPending(t).entries) && ElseSame(t, MarkPending(t))
  {
    hide DropHeld;
  }

  lemma RefusingCutsOff(t: Thread)
    requires Valid(t)
    ensures RefusedCutOff(t.entries, Refuse(t).entries) && ElseSame(t, Refuse(t))
  {
    hide DropHeld, LastUserMessage;
    LastUserMessageIsLast(t.entries);
    var last := LastUserMessage(t.entries);
    if last.Some? {
      forall ix | RefusedAt(t.entries, ix) ensures ix == last.value {
      }
      if forall j :: last.value < j < |t.entries| ==> !CallWithOutput(t.entries[j]) {
        assert RefusedAt(t.entries, last.value);
      }
    }
  }

  lemma {:induction false} LastUserMessageIsLast(entries: seq<Entry>)
    ensures LastUserMessage(entries).None? ==> forall i :: 0 <= i < |entries| ==> !entries[i].UserMessage?
    ensures LastUserMessage(entries).Some? ==>
              forall i :: LastUserMessage(entries).value < i < |entries| ==> !entries[i].UserMessage?
  {
    if entries != [] {
      LastUserMessageIsLast(entries[..|entries| - 1]);
      assert forall i :: 0 <= i < |entries| - 1 ==> entries[..|entries| - 1][i] == entries[i];
    }
  }

  function Shifted(at: seq<nat>): seq<nat> {
    seq(|at|, i requires 0 <= i < |at| => at[i] + 1)
  }

  lemma ShiftedMembers(at: seq<nat>, k: nat)
    ensures k in Shifted(at) <==> k > 0 && k - 1 in at
  {
    if k > 0 && k - 1 in at {
      var i :| 0 <= i < |at| && at[i] == k - 1;
      assert Shifted(at)[i] == k;
    }
  }

  lemma PicksOneMore(plan: seq<PlanEntry>, rest: seq<nat>)
    requires plan != [] && PicksUncompleted(plan[1..], rest)
    ensures plan[0].status == PlanCompleted ==> PicksUncompleted(plan, Shifted(rest))
    ensures plan[0].status != PlanCompleted ==> PicksUncompleted(plan, [0] + Shifted(rest))
  {
    forall k: nat ensures k in Shifted(rest) <==> k > 0 && k - 1 in rest {
      ShiftedMembers(rest, k);
    }
    assert forall k: nat :: 0 < k < |plan| ==> plan[k] == plan[1..][k - 1];
  }

  lemma AreAtOneMore(plan: seq<PlanEntry>, rest: seq<nat>, after: seq<PlanEntry>)
    requires plan != [] && AreAt(plan[1..], rest, after)
    ensures AreAt(plan, Shifted(rest), after) && AreAt(plan, [0] + Shifted(rest), [plan[0]] + after)
  {
    forall i | 0 <= i < |rest| ensures Shifted(rest)[i] < |plan| && after[i] == plan[Shifted(rest)[i]] {
      assert plan[1..][rest[i]] == plan[rest[i] + 1];
    }
  }

  lemma {:induction false} ClearingPicks(plan: seq<PlanEntry>)
    ensures CompletedCleared(plan, Uncompleted(plan))
  {
    if plan == [] {
      NothingPicked();
    } else {
      var after := Uncompleted(plan[1..]);
      assert Uncompleted(plan) == if plan[0].status == PlanCompleted then after else [plan[0]] + after;
      ClearingPicks(plan[1..]);
      hide PicksUncompleted, AreAt, Uncompleted;
      var rest: seq<nat> :| PicksUncompleted(plan[1..], rest) && AreAt(plan[1..], rest, after);
      PicksOneMore(plan, rest);
      AreAtOneMore(plan, rest, after);
    }
  }

  lemma NothingPicked()
    ensures PicksUncompleted([], []) && AreAt([], [], [])
  {
  }

  // ---- the updates

  /**
    * The completion of any turn, running or late. A refusal cuts the thread off before the last user
    * message, unless output follows that; a cancellation cancels the unfinished calls; no other
    * response touches an entry. Errors, a full context and refusals are flagged. Pending text is shown.
    */
  lemma CompletionEffects(t: Thread, turn: TurnId, response: Response)
    requires Valid(t)
    ensures var r := Step(t, Finish(turn, response));
            && (response == Lost ==> r == t)
            && (response == Stopped(Refusal) ==> RefusedCutOff(t.entries, r.entries))
            && (response == Stopped(Cancelled) ==> UnfinishedCancelled(t.entries, r.entries))
            && (response != Stopped(Refusal) && response != Stopped(Cancelled) ==> r.entries == t.entries)
            && (r.hadError <==> t.hadError || response in {Errored, Stopped(MaxTokens), Stopped(Refusal)})
            && (response != Lost ==> AllShown(t, r))
            && r.running == (if t.running == Some(turn) && response != Lost then None else t.running)
            && r.turnId == t.turnId && r.plan == t.plan && r.terminals == t.terminals
  {
    CompletionEntries(t, turn, response);
    CompletionShows(t, turn, response);
    hide Complete, RefusedCutOff, UnfinishedCancelled, AllShown;
  }

  /** What a completion does to the entries and the flag. */
  lemma CompletionEntries(t: Thread, turn: TurnId, response: Response)
    requires Valid(t)
    ensures var r := Complete(t, turn, response);
            && (response == Lost ==> r == t)
            && (response == Stopped(Refusal) ==> RefusedCutOff(t.entries, r.entries))
            && (response == Stopped(Cancelled) ==> UnfinishedCancelled(t.entries, r.entries))
            && (response != Stopped(Refusal) && response != Stopped(Cancelled) ==> r.entries == t.entries)
            && (r.hadError <==> t.hadError || response in {Errored, Stopped(MaxTokens), Stopped(Refusal)})
  {
    var done := Flushed(if t.running == Some(turn) then t.(running := None) else t);
    MarkingCancels(done);
    RefusingCutsOff(done.(hadError := true));
    hide TextStream.Flush, RefusedCutOff, UnfinishedCancelled, MarkPending, Refuse;
  }

  /** And to all else. */
  lemma CompletionShows(t: Thread, turn: TurnId, response: Response)
    requires Valid(t)
    ensures var r := Complete(t, turn, response);
            && (response != Lost ==> AllShown(t, r))
            && r.running == (if t.running == Some(turn) && response != Lost then None else t.running)
            && r.turnId == t.turnId && r.plan == t.plan && r.terminals == t.terminals
  {
    var done := Flushed(if t.running == Some(turn) then t.(running := None) else t);
    FlushShowsAll(t);
    assert done.text == Flushed(t).text;
    MarkingCancels(done);
    RefusingCutsOff(done.(hadError := true));
    ShownByText(t, Flushed(t), Complete(t, turn, response));
    hide TextStream.Flush, RefusedCutOff, UnfinishedCancelled, MarkPending, Refuse, AllShown;
  }

  /** Cancelling ends the running turn, shows what is pending and cancels the unfinished calls. */
  lemma CancellingEffects(t: Thread)
    requires Valid(t)
    ensures var r := Step(t, CancelTurn);
            && (t.running.None? ==> r == t)
            && (t.running.Some? ==> UnfinishedCancelled(t.entries, r.entries) && AllShown(t, r))
            && r.running.None? && r.turnId == t.turnId && r.plan == t.plan
            && r.hadError == t.hadError && r.terminals == t.terminals
  {
    FlushShowsAll(t);
    MarkingCancels(Flushed(t.(running := None)));
    hide TextStream.Flush, UnfinishedCancelled, TextStream.Shown, ThreadStreaming.WithPending, MarkPending;
  }

  /**
    * A new turn runs under the next number, with the error flag and the completed plan entries
    * cleared. The turn that ran, if one did, is cancelled; otherwise no entry changes.
    */
  lemma StartingEffects(t: Thread, message: seq<Chunk>)
    requires Valid(t)
    ensures var r := Step(t, Start(message));
            && r.turnId == t.turnId + 1 && r.running == Some(t.turnId + 1) && !r.hadError
            && CompletedCleared(t.plan, r.plan) && r.terminals == t.terminals
            && (t.running.None? ==> r.entries == t.entries && r.channels == t.channels)
            && (t.running.Some? ==> UnfinishedCancelled(t.entries, r.entries) && r.text.buffer.None?)
  {
    var s := NewCombined(t.text, message).0;
    LiveGrows(t.text, s, t.entries);
    ClearingPicks(t.plan);
    CancellingEffects(t.(text := s, plan := Uncompleted(t.plan), hadError := false));
    hide Cancel, NewCombined, CompletedCleared, UnfinishedCancelled, Uncompleted, AllShown;
  }
}
