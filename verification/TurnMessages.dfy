/** What becomes of one turn in a run: its task, the message it was sent with, and the response it gives. */
module TurnMessages {
  import opened Wrappers
  import TextStream
  import Utf8
  import opened Messages
  import opened AgentThread
  import opened ThreadStreaming
  import MessageEffects
  import TurnProtocol
  import opened TurnRuns

  type SendTask = TurnProtocol.SendTask

  // ---- the stages of a task

  /** A task keeps its work and what it waits for, and the stage only moves as an event about it says. */
  predicate Moves(before: SendTask, after: SendTask, e: Event, k: TurnId) {
    && after.work == before.work && after.waitsFor == before.waitsFor
    && (after.handled <==> before.handled || e == TurnProtocol.Handle(k))
    && match e
       case StartBody(j) => after.stage == if j == k then TurnProtocol.Running else before.stage
       case EndBody(j, response) => after.stage == if j == k then TurnProtocol.Finished(response) else before.stage
       case DropCancel(_) =>
         after.stage == before.stage || (!before.stage.Finished? && after.stage == TurnProtocol.Finished(Lost))
       case _ => after.stage == before.stage
  }

  lemma {:induction false} AbandonMoves(tasks: map<TurnId, SendTask>, k: TurnId)
    ensures TurnProtocol.Abandon(tasks, k).Keys == tasks.Keys
    ensures forall j :: j in tasks ==>
              var after := TurnProtocol.Abandon(tasks, k)[j];
              after == tasks[j]
              || (!tasks[j].stage.Finished? && after == tasks[j].(stage := TurnProtocol.Finished(Lost)))
    decreases k
  {
    if TurnProtocol.IsLive(tasks, k) {
      var task := tasks[k];
      var rest := tasks[k := task.(stage := TurnProtocol.Finished(Lost))];
      if task.stage.Waiting? && task.waitsFor.Some? && task.waitsFor.value < k {
        AbandonMoves(rest, task.waitsFor.value);
      }
    }
  }

  lemma TaskMoves(s: System, e: Event, k: TurnId)
    requires TurnProtocol.WorkLive(s) && TurnProtocol.Enabled(s, e) && k in s.tasks && k <= s.thread.turnId
    ensures k in TurnProtocol.Next(s, e).tasks && Moves(s.tasks[k], TurnProtocol.Next(s, e).tasks[k], e, k)
  {
    hide Step, StartTurn, Cancel, Complete, NewCombined, TurnProtocol.Abandon;
    if e.DropCancel? {
      AbandonMoves(s.tasks, e.turn);
    }
  }

  /** Once a turn has ended its response is settled, and its work is so from the start. */
  lemma {:induction false} TaskStays(s: System, events: seq<Event>, k: TurnId)
    requires Possible(s, events) && k in s.tasks && k <= s.thread.turnId
    ensures var q := Reached(s, events);
            && k in q.tasks && k <= q.thread.turnId && q.tasks[k].work == s.tasks[k].work
            && (s.tasks[k].stage.Finished? ==> q.tasks[k].stage == s.tasks[k].stage)
    decreases |events|
  {
    hide TurnProtocol.Next, TurnProtocol.WorkLive, TurnProtocol.Enabled;
    if events != [] {
      FinishedCannotMove(s, events[0], k);
      RunningChanges(s, events[0]);
      TaskStays(TurnProtocol.Next(s, events[0]), events[1..], k);
    }
  }

  lemma FinishedCannotMove(s: System, e: Event, k: TurnId)
    requires TurnProtocol.WorkLive(s) && TurnProtocol.Enabled(s, e) && k in s.tasks && k <= s.thread.turnId
    ensures var r := TurnProtocol.Next(s, e);
            && k in r.tasks && r.tasks[k].work == s.tasks[k].work
            && (s.tasks[k].stage.Finished? ==> r.tasks[k].stage == s.tasks[k].stage)
  {
    TaskMoves(s, e, k);
    hide TurnProtocol.Next, TurnProtocol.WorkLive;
  }

  // ---- messages

  /** The texts of a message's chunks, one after the other. */
  function Texts(message: seq<Chunk>): Utf8.Bytes {
    if message == [] then []
    else (if message[0].Text? then message[0].text else []) + Texts(message[1..])
  }

  lemma {:induction false} GivesTexts(s: TextStream.Stream, id: TextStream.MarkdownId, message: seq<Chunk>, next: nat)
    requires forall i :: 0 <= i < |message| ==> message[i].Text?
    requires TextStream.Live(s) && id < |s.markdowns|
    ensures GivesAll(Markdown(id), message, next, id) == Texts(message)
    ensures AppendAll(s, Markdown(id), message).1 == Markdown(id)
    decreases |message|
  {
    if message != [] {
      GivesTexts(AppendChunk(s, Markdown(id), message[0]).0, id, message[1..], next);
    }
  }

  lemma TextMessage(s: TextStream.Stream, message: seq<Chunk>)
    requires TextStream.Live(s) && message != [] && forall i :: 0 <= i < |message| ==> message[i].Text?
    ensures var next := |s.markdowns|;
            NewCombined(s, message).1 == Markdown(next) && GivesAll(Empty, message, next, next) == Texts(message)
  {
    var next := |s.markdowns|;
    GivesTexts(AppendChunk(s, Empty, message[0]).0, next, message[1..], next + 1);
  }

  /** A message of texts becomes one Markdown that shows all of them, whatever is being streamed. */
  lemma SentTextIsShown(t: Thread, message: seq<Chunk>)
    requires Valid(t) && message != [] && forall i :: 0 <= i < |message| ==> message[i].Text?
    ensures var next := |t.text.markdowns|;
            && NewCombined(t.text, message).1 == Markdown(next)
            && WithPending(Step(t, Start(message)), next) == Texts(message)
  {
    TextMessage(t.text, message);
    StartGives(t, message, |t.text.markdowns|);
    hide StartTurn, GivesAll, WithPending;
  }

  lemma StartGives(t: Thread, message: seq<Chunk>, next: nat)
    requires Valid(t) && next == |t.text.markdowns|
    ensures WithPending(StartTurn(t, message), next) == Added(t, Start(message), next)
  {
    assert WithPending(t, next) == [];
    assert Step(t, Start(message)) == StartTurn(t, message);
    hide StartTurn, Step, Added, WithPending;
    MessageEffects.OneAdded(t, Start(message), next);
    assert [] + Added(t, Start(message), next) == Added(t, Start(message), next);
  }

  /**
    * Whatever happens between a send and the start of its body, the body puts exactly the message that
    * was sent as the last entry, under the id it was sent with.
    */
  lemma SentMessageArrives(s: System, id: Option<MessageId>, message: seq<Chunk>, events: seq<Event>)
    requires TurnProtocol.WorkLive(s)
    requires Possible(TurnProtocol.Next(s, TurnProtocol.Send(id, message)), events)
    ensures var n, block := s.thread.turnId + 1, NewCombined(s.thread.text, message).1;
            var q := Reached(TurnProtocol.Next(s, TurnProtocol.Send(id, message)), events);
            TurnProtocol.WorkLive(q) && TurnProtocol.Enabled(q, TurnProtocol.StartBody(n)) ==>
              TurnProtocol.Next(q, TurnProtocol.StartBody(n)).thread.entries ==
                q.thread.entries + [UserMessage(id, block, message, false)]
  {
    var send, n := TurnProtocol.Send(id, message), s.thread.turnId + 1;
    NewTurnTasks(s, send);
    SendingWork(s, id, message);
    hide TurnProtocol.Next, TurnProtocol.WorkLive;
    var r := TurnProtocol.Next(s, send);
    TaskStays(r, events, n);
    var q := Reached(r, events);
    if TurnProtocol.WorkLive(q) && TurnProtocol.Enabled(q, TurnProtocol.StartBody(n)) {
      StartingSays(q, n);
    }
  }

  lemma SendingWork(s: System, id: Option<MessageId>, message: seq<Chunk>)
    requires TurnProtocol.WorkLive(s)
    ensures var r, n := TurnProtocol.Next(s, TurnProtocol.Send(id, message)), s.thread.turnId + 1;
            n in r.tasks && r.tasks[n].work == TurnProtocol.Sending(id, NewCombined(s.thread.text, message).1, message)
  {
    hide StartTurn, NewCombined;
  }

  lemma StartingSays(s: System, k: TurnId)
    requires TurnProtocol.WorkLive(s) && TurnProtocol.Enabled(s, TurnProtocol.StartBody(k))
    requires s.tasks[k].work.Sending?
    ensures var work := s.tasks[k].work;
            TurnProtocol.Next(s, TurnProtocol.StartBody(k)).thread.entries ==
              s.thread.entries + [UserMessage(work.id, work.content, work.chunks, false)]
  {
    hide TextStream.Flush;
  }

  // ---- responses

  /** Whatever happens between a response and its handling, it is handled as it was given. */
  lemma ResponseIsHandled(s: System, k: TurnId, response: Response, events: seq<Event>)
    requires TurnProtocol.WorkLive(s) && k <= s.thread.turnId
    requires TurnProtocol.Enabled(s, TurnProtocol.EndBody(k, response))
    requires Possible(TurnProtocol.Next(s, TurnProtocol.EndBody(k, response)), events)
    ensures var q := Reached(TurnProtocol.Next(s, TurnProtocol.EndBody(k, response)), events);
            TurnProtocol.WorkLive(q) && TurnProtocol.Enabled(q, TurnProtocol.Handle(k)) ==>
              TurnProtocol.Next(q, TurnProtocol.Handle(k)).thread == Step(q.thread, Finish(k, response))
  {
    var end := TurnProtocol.EndBody(k, response);
    TaskMoves(s, end, k);
    RunningChanges(s, end);
    hide TurnProtocol.Next, TurnProtocol.WorkLive, Step;
    var r := TurnProtocol.Next(s, end);
    TaskStays(r, events, k);
    var q := Reached(r, events);
    if TurnProtocol.WorkLive(q) && TurnProtocol.Enabled(q, TurnProtocol.Handle(k)) {
      HandlingFinishes(q, k);
    }
  }

  lemma HandlingFinishes(s: System, k: TurnId)
    requires TurnProtocol.WorkLive(s) && TurnProtocol.Enabled(s, TurnProtocol.Handle(k))
    ensures TurnProtocol.Next(s, TurnProtocol.Handle(k)).thread == Step(s.thread, Finish(k, s.tasks[k].stage.response))
  {
    hide Complete;
  }
}
