/** The turn protocol over whole runs. */
module TurnRuns {
  import opened Wrappers
  import TextStream
  import opened Messages
  import ToolCalls
  import opened AgentThread
  import ThreadCalls
  import TurnEffects
  import TurnProtocol

  type System = TurnProtocol.System
  type Event = TurnProtocol.Event

  // ---- runs in which nothing is sent while an explicit cancel is still held

  ghost predicate Allowed(s: System, events: seq<Event>)
    decreases |events|
  {
    events == [] ||
    (TurnProtocol.WorkLive(s) && TurnProtocol.Enabled(s, events[0]) && TurnProtocol.Disciplined(s, events[0])
     && Allowed(TurnProtocol.Next(s, events[0]), events[1..]))
  }

  ghost function AfterEvents(s: System, events: seq<Event>): System
    requires Allowed(s, events)
    decreases |events|
  {
    if events == [] then s else AfterEvents(TurnProtocol.Next(s, events[0]), events[1..])
  }

  lemma IdleIsOrdered()
    ensures TurnProtocol.Inv(TurnProtocol.IDLE)
  {
    assert TurnProtocol.Chained(map[]);
  }

  lemma {:induction false} RunKeepsInv(s: System, events: seq<Event>)
    requires TurnProtocol.Inv(s) && Allowed(s, events)
    ensures TurnProtocol.Inv(AfterEvents(s, events))
    decreases |events|
  {
    hide TurnProtocol.Inv, TurnProtocol.Next, TurnProtocol.Enabled, TurnProtocol.Disciplined, TurnProtocol.WorkLive;
    if events != [] {
      TurnProtocol.NextKeepsInv(s, events[0]);
      RunKeepsInv(TurnProtocol.Next(s, events[0]), events[1..]);
    }
  }

  /**
    * Turns are exclusive and ordered. In every run: at most one body runs at a time, and all older
    * turns have ended by then; bodies start in turn order; the messages they put stand in the thread in
    * that order, each with the chunks it was sent with, and none is missing that was not cut off since;
    * the turn the thread shows as running is the newest one; and when it shows none and no cancel is
    * pending, every turn has ended.
    */
  lemma TurnsAreExclusiveAndOrdered(events: seq<Event>)
    requires Allowed(TurnProtocol.IDLE, events)
    ensures var s := AfterEvents(TurnProtocol.IDLE, events);
            && (forall j, k :: j in s.tasks && k in s.tasks ==>
                                 s.tasks[j].stage.Running? && s.tasks[k].stage.Running? ==> j == k)
            && (forall j, k :: j in s.tasks && k in s.tasks && s.tasks[k].stage.Running? && j < k ==>
                                 s.tasks[j].stage.Finished?)
            && TurnProtocol.Increasing(s.log)
            && TurnProtocol.MessagesInOrder(s)
            && TurnProtocol.Accounted(s.tasks, s.log, s.tags, s.removed)
            && (s.thread.running.Some? ==> s.thread.running.value == s.thread.turnId)
            && (s.thread.running.None? && TurnProtocol.NoneHeld(s.tasks, s.held) ==>
                  forall k :: k in s.tasks ==> s.tasks[k].stage.Finished?)
  {
    hide TurnProtocol.Next, TurnProtocol.MessagesInOrder, TurnProtocol.Accounted, TurnProtocol.WorkLive;
    IdleIsOrdered();
    RunKeepsInv(TurnProtocol.IDLE, events);
    var s := AfterEvents(TurnProtocol.IDLE, events);
    hide AfterEvents;
    forall k | k in s.tasks && s.tasks[k].stage.Running?
      ensures forall j :: j in s.tasks && j < k ==> !TurnProtocol.IsLive(s.tasks, j)
    {
      assert TurnProtocol.IsLive(s.tasks, k);
      TurnProtocol.NoneBelow(s.tasks, k);
    }
    hide TurnProtocol.Chained;
    if s.thread.running.None? && TurnProtocol.NoneHeld(s.tasks, s.held) {
      forall k | k in s.tasks ensures s.tasks[k].stage.Finished? {
        assert TurnProtocol.IsLive(s.tasks, k) ==> TurnProtocol.OwnedBy(s.tasks, None, s.held, k);
      }
    }
  }

  /** Completing an older turn never clears the running one. */
  lemma OlderCompletionKeepsRunning(t: Thread, turn: TurnId, response: Response)
    requires Valid(t) && t.running.Some? && turn != t.running.value
    ensures Complete(t, turn, response).running == t.running
  {
  }

  /** The oldest turn that has not ended can always move: no turn waits for itself or for a later one. */
  lemma OldestCanMove(s: System, k: TurnId)
    requires TurnProtocol.Inv(s) && TurnProtocol.IsLive(s.tasks, k)
    requires forall j: TurnId :: j < k ==> !TurnProtocol.IsLive(s.tasks, j)
    ensures TurnProtocol.Enabled(s, TurnProtocol.StartBody(k))
            || TurnProtocol.Enabled(s, TurnProtocol.EndBody(k, Stopped(EndTurn)))
  {
    hide TurnProtocol.Chained, TurnProtocol.Owned, TurnProtocol.MessagesInOrder, TurnProtocol.WorkLive;
  }

  /** The turns whose tasks have not ended. */
  function Unended(tasks: map<TurnId, TurnProtocol.SendTask>): set<TurnId> {
    set k | k in tasks && !tasks[k].stage.Finished?
  }

  /**
    * Turns never block one another for good: from every state of such a run, starting and ending
    * bodies, at most two events for each unfinished turn, brings all turns to their end.
    */
  lemma {:induction false} AllCanFinish(s: System) returns (events: seq<Event>)
    requires TurnProtocol.Inv(s)
    ensures Allowed(s, events) && |events| <= 2 * |Unended(s.tasks)|
    ensures forall e :: e in events ==> e.StartBody? || e.EndBody?
    ensures Unended(AfterEvents(s, events).tasks) == {}
    decreases |Unended(s.tasks)|
  {
    hide TurnProtocol.Next, TurnProtocol.Inv, TurnProtocol.WorkLive, TurnProtocol.Enabled;
    if Unended(s.tasks) == {} {
      events := [];
    } else {
      var h :| h in Unended(s.tasks);
      var k := OldestLive(s.tasks, h);
      var first, r := FinishOldest(s, k);
      assert r.tasks.Keys == s.tasks.Keys;
      assert Unended(r.tasks) == Unended(s.tasks) - {k};
      var rest := AllCanFinish(r);
      AllowedJoined(s, first, rest);
      events := first + rest;
    }
  }

  lemma FinishOldest(s: System, k: TurnId) returns (events: seq<Event>, r: System)
    requires TurnProtocol.Inv(s) && TurnProtocol.IsLive(s.tasks, k)
    requires forall j: TurnId :: j < k ==> !TurnProtocol.IsLive(s.tasks, j)
    ensures Allowed(s, events) && r == AfterEvents(s, events) && TurnProtocol.Inv(r) && 1 <= |events| <= 2
    ensures forall e :: e in events ==> e.StartBody? || e.EndBody?
    ensures r.tasks.Keys == s.tasks.Keys && r.tasks[k].stage.Finished?
    ensures forall j :: j in s.tasks && j != k ==> r.tasks[j] == s.tasks[j]
  {
    OldestCanMove(s, k);
    assert TurnProtocol.WorkLive(s);
    hide TurnProtocol.Next, TurnProtocol.Inv, TurnProtocol.WorkLive, Allowed, AfterEvents;
    var start := TurnProtocol.StartBody(k);
    if s.tasks[k].stage.Running? {
      events, r := FinishRunning(s, k);
    } else {
      StartedRuns(s, k);
      TurnProtocol.NextKeepsInv(s, start);
      var m := TurnProtocol.Next(s, start);
      var last;
      last, r := FinishRunning(m, k);
      AllowedPush(s, start, last);
      events := [start] + last;
    }
  }

  lemma FinishRunning(s: System, k: TurnId) returns (events: seq<Event>, r: System)
    requires TurnProtocol.Inv(s) && k in s.tasks && s.tasks[k].stage.Running?
    ensures events == [TurnProtocol.EndBody(k, Stopped(EndTurn))] && Allowed(s, events) && r == AfterEvents(s, events)
    ensures TurnProtocol.Inv(r)
    ensures r.tasks == s.tasks[k := s.tasks[k].(stage := TurnProtocol.Finished(Stopped(EndTurn)))]
  {
    assert TurnProtocol.WorkLive(s);
    hide TurnProtocol.Next, TurnProtocol.Inv, TurnProtocol.WorkLive;
    var end := TurnProtocol.EndBody(k, Stopped(EndTurn));
    EndedBody(s, k, Stopped(EndTurn));
    TurnProtocol.NextKeepsInv(s, end);
    r := TurnProtocol.Next(s, end);
    events := [end];
  }

  lemma {:induction false} AllowedJoined(s: System, a: seq<Event>, b: seq<Event>)
    requires Allowed(s, a) && Allowed(AfterEvents(s, a), b)
    ensures Allowed(s, a + b) && AfterEvents(s, a + b) == AfterEvents(AfterEvents(s, a), b)
    decreases |a|
  {
    hide TurnProtocol.Next, TurnProtocol.WorkLive, TurnProtocol.Enabled, TurnProtocol.Disciplined;
    if a == [] {
      assert a + b == b;
    } else {
      AllowedJoined(TurnProtocol.Next(s, a[0]), a[1..], b);
      assert (a + b)[1..] == a[1..] + b;
    }
  }

  /** A turn cancelled before its body starts still runs its body: starting it stays possible. */
  lemma CancelledTurnStillStarts(s: System, k: TurnId, e: Event)
    requires TurnProtocol.Inv(s) && TurnProtocol.Enabled(s, TurnProtocol.StartBody(k))
    requires e.Send? || e.Retry? || e.CancelExplicitly?
    ensures TurnProtocol.Enabled(TurnProtocol.Next(s, e), TurnProtocol.StartBody(k))
  {
    hide TurnProtocol.Chained, TurnProtocol.Owned, TurnProtocol.MessagesInOrder;
    hide StartTurn, Cancel, NewCombined;
    var n := s.thread.turnId + 1;
    assert n !in s.tasks;
    if s.tasks[k].waitsFor.Some? {
      assert s.tasks[k].waitsFor.value < k;
    }
  }

  // ---- exactly when sending keeps turns apart

  predicate RunsBody(s: System, k: TurnId) {
    k in s.tasks && s.tasks[k].stage.Running?
  }

  ghost predicate Overlapping(s: System) {
    exists j: TurnId, k: TurnId :: j != k && RunsBody(s, j) && RunsBody(s, k)
  }

  /** Some continuation, in which nothing more is sent while a held cancel is unfinished, runs two bodies at once. */
  ghost predicate CanOverlap(s: System) {
    exists events: seq<Event> :: Allowed(s, events) && Overlapping(AfterEvents(s, events))
  }

  /**
    * After sending or retrying two bodies can come to run at once exactly when a held cancel is still
    * unfinished, whether or not the body of its turn has started. The order of turns is kept otherwise.
    */
  lemma SendingKeepsOrderIff(s: System, e: Event)
    requires TurnProtocol.Inv(s) && (e.Send? || e.Retry?)
    ensures TurnProtocol.WorkLive(s)
    ensures CanOverlap(TurnProtocol.Next(s, e)) <==> !TurnProtocol.NoneHeld(s.tasks, s.held)
    ensures TurnProtocol.Inv(TurnProtocol.Next(s, e)) <==> TurnProtocol.NoneHeld(s.tasks, s.held)
  {
    assert TurnProtocol.WorkLive(s);
    hide TurnProtocol.Inv, TurnProtocol.WorkLive, TurnProtocol.Next, TurnProtocol.IsLive, Overlapping;
    var r := TurnProtocol.Next(s, e);
    if TurnProtocol.NoneHeld(s.tasks, s.held) {
      TurnProtocol.NextKeepsInv(s, e);
      OrderedNeverOverlaps(r);
    } else {
      var h :| h in s.held && TurnProtocol.IsLive(s.tasks, h);
      var events, j := HeldBodyIsOverlapped(s, e, h);
      assert CanOverlap(r);
      if TurnProtocol.Inv(r) {
        OrderedNeverOverlaps(r);
        assert false;
      }
    }
  }

  lemma OneBody(s: System)
    requires TurnProtocol.Inv(s)
    ensures !Overlapping(s)
  {
    hide TurnProtocol.MessagesInOrder, TurnProtocol.WorkLive, TurnProtocol.Owned, TurnProtocol.Accounted;
    forall j: TurnId, k: TurnId | j < k && RunsBody(s, j) && RunsBody(s, k) ensures false {
      TurnProtocol.ChainedAt(s.tasks, j, k);
    }
  }

  lemma OrderedNeverOverlaps(s: System)
    requires TurnProtocol.Inv(s)
    ensures !CanOverlap(s)
  {
    hide TurnProtocol.Inv, Overlapping, Allowed, AfterEvents;
    forall events: seq<Event> | Allowed(s, events) ensures !Overlapping(AfterEvents(s, events)) {
      RunKeepsInv(s, events);
      OneBody(AfterEvents(s, events));
    }
  }

  lemma NewTurnTasks(s: System, e: Event)
    requires TurnProtocol.WorkLive(s) && (e.Send? || e.Retry?)
    ensures var r, n := TurnProtocol.Next(s, e), s.thread.turnId + 1;
            && r.thread.turnId == n && r.thread.running == Some(n) && r.held == s.held
            && (forall k :: k in s.tasks && k != n ==> k in r.tasks && r.tasks[k] == s.tasks[k])
            && (forall k :: k in r.tasks ==> k == n || k in s.tasks)
            && n in r.tasks && r.tasks[n].stage.Waiting? && r.tasks[n].waitsFor == s.thread.running
            && !r.tasks[n].handled && (e.Retry? ==> r.tasks[n].work.Retrying?)
  {
    assert Valid(s.thread);
    hide StartTurn, NewCombined, TurnProtocol.WorkLive;
    TurnProtocol.StartFrame(s.thread, if e.Send? then e.message else []);
  }

  lemma HeldIsOlder(s: System, h: TurnId)
    requires TurnProtocol.Inv(s) && h in s.held && TurnProtocol.IsLive(s.tasks, h)
    ensures TurnProtocol.WorkLive(s) && s.thread.running.None? && h <= s.thread.turnId
  {
    hide TurnProtocol.Chained, TurnProtocol.WorkLive, TurnProtocol.MessagesInOrder;
  }

  /** Otherwise the new turn does not wait at all: it can start while the held one is unfinished. */
  lemma SentAlongsideHeld(s: System, e: Event, h: TurnId)
    requires TurnProtocol.Inv(s) && (e.Send? || e.Retry?)
    requires h in s.held && TurnProtocol.IsLive(s.tasks, h)
    ensures var r, n := TurnProtocol.Next(s, e), s.thread.turnId + 1;
            && h < n && TurnProtocol.IsLive(r.tasks, h)
            && n in r.tasks && r.tasks[n].stage.Waiting? && r.tasks[n].waitsFor.None?
            && !TurnProtocol.Chained(r.tasks)
  {
    HeldIsOlder(s, h);
    hide TurnProtocol.Inv, TurnProtocol.Chained, TurnProtocol.Next, TurnProtocol.WorkLive;
    NewTurnTasks(s, e);
    var r, n := TurnProtocol.Next(s, e), s.thread.turnId + 1;
    assert h in s.tasks && r.tasks[h] == s.tasks[h];
    NotChained(r.tasks, h, n);
  }

  /** A newer task that waits for nothing breaks the chain. */
  lemma NotChained(tasks: map<TurnId, TurnProtocol.SendTask>, h: TurnId, n: TurnId)
    requires h < n && TurnProtocol.IsLive(tasks, h) && TurnProtocol.IsLive(tasks, n) && tasks[n].waitsFor.None?
    ensures !TurnProtocol.Chained(tasks)
  {
    if TurnProtocol.Chained(tasks) {
      TurnProtocol.ChainedAt(tasks, h, n);
      assert false;
    }
  }

  /** The oldest live turn at or below h. */
  lemma OldestLive(tasks: map<TurnId, TurnProtocol.SendTask>, h: TurnId) returns (k: TurnId)
    requires TurnProtocol.IsLive(tasks, h)
    ensures k <= h && TurnProtocol.IsLive(tasks, k)
    ensures forall j: TurnId :: j < k ==> !TurnProtocol.IsLive(tasks, j)
  {
    hide TurnProtocol.IsLive;
    if j: TurnId :| j < h && TurnProtocol.IsLive(tasks, j) {
      k := OldestLive(tasks, j);
    } else {
      k := h;
    }
  }

  /**
    * A live held turn is overlapped: the oldest live turn, which is its own or one it waits for, runs
    * or can start, and the new turn can start beside it. No more than two starts are needed.
    */
  lemma HeldBodyIsOverlapped(s: System, e: Event, h: TurnId) returns (events: seq<Event>, j: TurnId)
    requires TurnProtocol.Inv(s) && (e.Send? || e.Retry?)
    requires h in s.held && TurnProtocol.IsLive(s.tasks, h)
    ensures var r, n := TurnProtocol.Next(s, e), s.thread.turnId + 1;
            && Allowed(r, events) && (forall x :: x in events ==> x.StartBody?) && |events| <= 2
            && var q := AfterEvents(r, events);
               j <= h < n && RunsBody(q, j) && RunsBody(q, n) && Overlapping(q)
    ensures s.tasks[h].stage.Running? ==> j == h && events == [TurnProtocol.StartBody(s.thread.turnId + 1)]
  {
    j := OldestBelow(s, h);
    hide TurnProtocol.Next, TurnProtocol.Inv, TurnProtocol.WorkLive, TurnProtocol.Chained, Allowed, AfterEvents;
    HeldIsOlder(s, h);
    SentAlongsideHeld(s, e, h);
    NewTurnTasks(s, e);
    NextStaysLive(s, e);
    var r, n := TurnProtocol.Next(s, e), s.thread.turnId + 1;
    assert j in s.tasks && r.tasks[j] == s.tasks[j];
    events := StartBoth(r, j, n);
  }

  /** The oldest live turn up to h runs or can start; it is h itself if that runs. */
  lemma OldestBelow(s: System, h: TurnId) returns (j: TurnId)
    requires TurnProtocol.Inv(s) && TurnProtocol.IsLive(s.tasks, h)
    ensures j <= h && j in s.tasks && (s.tasks[h].stage.Running? ==> j == h)
    ensures RunsBody(s, j) || TurnProtocol.Enabled(s, TurnProtocol.StartBody(j))
  {
    j := OldestLive(s.tasks, h);
    OldestCanMove(s, j);
    hide TurnProtocol.WorkLive, TurnProtocol.Owned, TurnProtocol.MessagesInOrder;
    if s.tasks[h].stage.Running? {
      TurnProtocol.NoneBelow(s.tasks, h);
    }
  }

  /** Starting n, and before it j unless it runs already. */
  lemma StartBoth(s: System, j: TurnId, n: TurnId) returns (events: seq<Event>)
    requires TurnProtocol.WorkLive(s) && j != n
    requires RunsBody(s, j) || TurnProtocol.Enabled(s, TurnProtocol.StartBody(j))
    requires n in s.tasks && s.tasks[n].stage.Waiting? && s.tasks[n].waitsFor.None?
    ensures events == (if RunsBody(s, j) then [] else [TurnProtocol.StartBody(j)]) + [TurnProtocol.StartBody(n)]
    ensures Allowed(s, events)
    ensures var q := AfterEvents(s, events); RunsBody(q, j) && RunsBody(q, n) && Overlapping(q)
  {
    hide TurnProtocol.Next, TurnProtocol.WorkLive;
    var first, last := TurnProtocol.StartBody(j), TurnProtocol.StartBody(n);
    if RunsBody(s, j) {
      StartLast(s, j, n);
      events := [last];
    } else {
      StartedRuns(s, j);
      NextStaysLive(s, first);
      StartLast(TurnProtocol.Next(s, first), j, n);
      AllowedPush(s, first, [last]);
      events := [first] + [last];
    }
  }

  lemma StartLast(s: System, j: TurnId, n: TurnId)
    requires TurnProtocol.WorkLive(s) && j != n && RunsBody(s, j)
    requires n in s.tasks && s.tasks[n].stage.Waiting? && s.tasks[n].waitsFor.None?
    ensures Allowed(s, [TurnProtocol.StartBody(n)])
    ensures var q := AfterEvents(s, [TurnProtocol.StartBody(n)]); RunsBody(q, j) && RunsBody(q, n) && Overlapping(q)
  {
    var last := TurnProtocol.StartBody(n);
    hide TurnProtocol.Next, TurnProtocol.WorkLive;
    var q := TurnProtocol.Next(s, last);
    assert Allowed(q, []) && AfterEvents(q, []) == q;
    AllowedPush(s, last, []);
    assert [last] + [] == [last];
    StartedRuns(s, n);
  }

  lemma StartedRuns(s: System, k: TurnId)
    requires TurnProtocol.WorkLive(s) && TurnProtocol.Enabled(s, TurnProtocol.StartBody(k))
    ensures var r := TurnProtocol.Next(s, TurnProtocol.StartBody(k));
            r.tasks == s.tasks[k := s.tasks[k].(stage := TurnProtocol.Running)] && r.held == s.held
            && r.thread.running == s.thread.running && r.thread.turnId == s.thread.turnId
  {
    hide TextStream.Flush;
  }

  /** Such a state is reached by cancelling a running turn and keeping the cancel task. */
  lemma HeldBodyIsReachable()
    ensures var events := [TurnProtocol.Retry, TurnProtocol.StartBody(1), TurnProtocol.CancelExplicitly];
            && Allowed(TurnProtocol.IDLE, events)
            && var s := AfterEvents(TurnProtocol.IDLE, events);
               TurnProtocol.Inv(s) && 1 in s.held && 1 in s.tasks && s.tasks[1].stage.Running?
  {
    hide TurnProtocol.Next, TurnProtocol.Inv, TurnProtocol.WorkLive, TurnProtocol.Enabled;
    var s0, start, cancel := TurnProtocol.IDLE, TurnProtocol.StartBody(1), TurnProtocol.CancelExplicitly;
    IdleIsOrdered();
    var s2 := RetryAndStart();
    CancelHolds(s2);
    NextStaysLive(s2, cancel);
    var s3 := TurnProtocol.Next(s2, cancel);
    assert Allowed(s3, []) && AfterEvents(s3, []) == s3;
    hide Allowed, AfterEvents;
    AllowedPush(s2, cancel, []);
    assert [cancel] + [] == [cancel] && [start] + [cancel] == [start, cancel];
    AllowedPush(TurnProtocol.Next(s0, TurnProtocol.Retry), start, [cancel]);
    AllowedPush(s0, TurnProtocol.Retry, [start, cancel]);
    var events := [TurnProtocol.Retry, start, cancel];
    assert events == [TurnProtocol.Retry] + [start, cancel];
    RunKeepsInv(s0, events);
  }

  lemma RetryAndStart() returns (s2: System)
    ensures var s0, start := TurnProtocol.IDLE, TurnProtocol.StartBody(1);
            && TurnProtocol.WorkLive(s0) && TurnProtocol.Enabled(s0, TurnProtocol.Retry)
            && TurnProtocol.Disciplined(s0, TurnProtocol.Retry)
            && var s1 := TurnProtocol.Next(s0, TurnProtocol.Retry);
               && TurnProtocol.WorkLive(s1) && TurnProtocol.Enabled(s1, start) && TurnProtocol.Disciplined(s1, start)
               && s2 == TurnProtocol.Next(s1, start)
    ensures TurnProtocol.WorkLive(s2) && s2.thread.running == Some(1)
    ensures 1 in s2.tasks && s2.tasks[1].stage.Running?
  {
    hide TurnProtocol.Next;
    var s0 := TurnProtocol.IDLE;
    assert TurnProtocol.WorkLive(s0);
    hide TurnProtocol.WorkLive;
    NewTurnTasks(s0, TurnProtocol.Retry);
    NextStaysLive(s0, TurnProtocol.Retry);
    var s1 := TurnProtocol.Next(s0, TurnProtocol.Retry);
    StartedRuns(s1, 1);
    NextStaysLive(s1, TurnProtocol.StartBody(1));
    s2 := TurnProtocol.Next(s1, TurnProtocol.StartBody(1));
  }

  lemma CancelHolds(s: System)
    requires TurnProtocol.WorkLive(s) && s.thread.running.Some?
    ensures TurnProtocol.Enabled(s, TurnProtocol.CancelExplicitly)
    ensures TurnProtocol.Disciplined(s, TurnProtocol.CancelExplicitly)
    ensures var r := TurnProtocol.Next(s, TurnProtocol.CancelExplicitly);
            r.tasks == s.tasks && r.held == s.held + {s.thread.running.value}
  {
    hide Cancel;
  }

  lemma AllowedPush(s: System, e: Event, rest: seq<Event>)
    requires TurnProtocol.WorkLive(s) && TurnProtocol.Enabled(s, e) && TurnProtocol.Disciplined(s, e)
    requires Allowed(TurnProtocol.Next(s, e), rest)
    ensures Allowed(s, [e] + rest) && AfterEvents(s, [e] + rest) == AfterEvents(TurnProtocol.Next(s, e), rest)
  {
    assert ([e] + rest)[1..] == rest;
  }

  // ---- what cuts messages off

  lemma UpdatesKeepLength(t: Thread, op: Op)
    requires Valid(t) && Applies(t, op) && !op.EndRewind? && !(op.Finish? && op.response == Stopped(Refusal))
    ensures |t.entries| <= |Step(t, op).entries|
  {
    hide TextStream.Flush, TextStream.Tick, TextStream.BufferText, NewCombined, AppendChunk, NewBlock, AddToParts;
    hide DropHeld;
    hide IndexOf, ToolCalls.UpdateFields, ToolCalls.FromNew, ToolCalls.MissingCall, ToolCalls.FromReported, Settle;
    hide Overwrite;
    hide StreamingTarget, Uncompleted, Canceling;
  }

  /** Only a rewind and a refusal cut messages off. */
  lemma OnlyTruncationRemoves(s: System, e: Event)
    requires TurnProtocol.Inv(s) && TurnProtocol.Enabled(s, e)
    requires !(e.Other? && e.op.EndRewind?) && !(e.Handle? && s.tasks[e.turn].stage.response == Stopped(Refusal))
    ensures TurnProtocol.Next(s, e).removed == s.removed
  {
    assert |s.tags| == |s.thread.entries|;
    hide TurnProtocol.Inv, Step, StartTurn, Cancel, Complete, NewCombined, PushEntry;
    NextRunsOps(s, e);
    var ops := OpsOf(s, e);
    if ops != [] {
      UpdatesKeepLength(s.thread, ops[0]);
      assert ops[1..] == [];
    }
  }

  // ---- what a late completion does

  /**
    * The completion of a turn that is no longer running leaves the entries alone, except that a
    * late cancellation still cancels unfinished calls, and a late refusal still truncates.
    */
  lemma LateCompletionActsIff(t: Thread, turn: TurnId, response: Response)
    requires Valid(t) && t.running != Some(turn)
    ensures var r := Complete(t, turn, response);
            && r.running == t.running && r.turnId == t.turnId && r.plan == t.plan && r.terminals == t.terminals
            && (r.entries != t.entries <==>
                  || (response == Stopped(Cancelled)
                      && exists i :: 0 <= i < |t.entries| && t.entries[i].Call? && Unfinished(t.entries[i].call.status))
                  || (response == Stopped(Refusal)
                      && exists i ::
                           && 0 <= i < |t.entries| && t.entries[i].UserMessage?
                           && (forall j :: i < j < |t.entries| ==>
                                             !t.entries[j].UserMessage? && !CallWithOutput(t.entries[j]))))
  {
    hide MarkPending, Refuse, TextStream.Flush, Unfinished, CallWithOutput;
    var done := Flushed(t);
    MarkingChanges(done);
    RefusingChanges(done.(hadError := true));
  }

  /**
    * Such a completion is reached: a turn's refusal is handled only after the next turn has put its
    * message, and cuts that message off instead of its own.
    */
  lemma LateRefusalCutsNewerMessage(first: seq<Chunk>, second: seq<Chunk>)
    ensures var events := [TurnProtocol.Send(None, first), TurnProtocol.StartBody(1),
                           TurnProtocol.EndBody(1, Stopped(Refusal)),
                           TurnProtocol.Send(None, second), TurnProtocol.StartBody(2)];
            && Allowed(TurnProtocol.IDLE, events)
            && var s := AfterEvents(TurnProtocol.IDLE, events);
               && s.tags == [Some(1), Some(2)] && s.thread.running == Some(2)
               && TurnProtocol.WorkLive(s) && TurnProtocol.Enabled(s, TurnProtocol.Handle(1))
               && var r := TurnProtocol.Next(s, TurnProtocol.Handle(1));
                  r.tags == [Some(1)] && r.removed == {2} && r.thread.entries == s.thread.entries[..1]
                  && r.thread.running == Some(2)
  {
    hide TurnProtocol.Next, TurnProtocol.WorkLive, Allowed, AfterEvents;
    var s0, end := TurnProtocol.IDLE, TurnProtocol.EndBody(1, Stopped(Refusal));
    IdleIsLive();
    var s1 := SendAndStart(s0, first, 1);
    EndedBody(s1, 1, Stopped(Refusal));
    var s2 := TurnProtocol.Next(s1, end);
    var s3 := SendAndStart(s2, second, 2);
    var a := [TurnProtocol.Send(None, first), TurnProtocol.StartBody(1)];
    var b := [TurnProtocol.Send(None, second), TurnProtocol.StartBody(2)];
    AllowedJoined(s1, [end], b);
    AllowedJoined(s0, a, [end] + b);
    assert a + ([end] + b) == [a[0], a[1], end, b[0], b[1]];
    RefusalHandled(s3, 1);
  }

  lemma IdleIsLive()
    ensures TurnProtocol.WorkLive(TurnProtocol.IDLE)
  {
  }

  lemma AllowedNone(s: System)
    ensures Allowed(s, []) && AfterEvents(s, []) == s
  {
  }

  /** Sending with every earlier turn ended, and starting the body at once. */
  lemma SendAndStart(s: System, message: seq<Chunk>, n: TurnId) returns (r: System)
    requires TurnProtocol.WorkLive(s) && n == s.thread.turnId + 1 && s.held == {}
    requires s.thread.running.Some? ==> !TurnProtocol.IsLive(s.tasks, s.thread.running.value)
    requires s.thread.running.Some? ==> s.thread.running.value < n
    requires |s.tags| == |s.thread.entries|
    ensures var events := [TurnProtocol.Send(None, message), TurnProtocol.StartBody(n)];
            Allowed(s, events) && r == AfterEvents(s, events)
    ensures TurnProtocol.WorkLive(r) && r.held == {} && r.thread.running == Some(n) && r.thread.turnId == n
    ensures n in r.tasks && r.tasks[n].stage.Running? && !r.tasks[n].handled
    ensures forall k :: k in s.tasks && k != n ==> k in r.tasks && r.tasks[k] == s.tasks[k]
    ensures r.tags == s.tags + [Some(n)] && r.removed == s.removed
    ensures |r.tags| == |r.thread.entries| && r.thread.entries[|s.tags|].UserMessage?
  {
    var send, start := TurnProtocol.Send(None, message), TurnProtocol.StartBody(n);
    NewTurnTasks(s, send);
    NextStaysLive(s, send);
    SendKeepsTags(s, message);
    hide TurnProtocol.Next, TurnProtocol.WorkLive;
    var m := TurnProtocol.Next(s, send);
    StartedRuns(m, n);
    StartTags(m, n);
    NextStaysLive(m, start);
    r := TurnProtocol.Next(m, start);
    AllowedNone(r);
    hide Allowed, AfterEvents;
    AllowedPush(m, start, []);
    AllowedPush(s, send, [start]);
    assert [start] + [] == [start] && [send] + [start] == [send, start];
  }

  lemma SendKeepsTags(s: System, message: seq<Chunk>)
    requires TurnProtocol.WorkLive(s) && |s.tags| == |s.thread.entries|
    ensures var r := TurnProtocol.Next(s, TurnProtocol.Send(None, message));
            && r.tags == s.tags && r.removed == s.removed && |r.thread.entries| == |s.tags|
            && s.thread.turnId + 1 in r.tasks && r.tasks[s.thread.turnId + 1].work.Sending?
  {
    hide StartTurn, NewCombined;
    TurnProtocol.StartFrame(s.thread, message);
  }

  lemma StartTags(s: System, k: TurnId)
    requires TurnProtocol.WorkLive(s) && TurnProtocol.Enabled(s, TurnProtocol.StartBody(k))
    requires |s.tags| == |s.thread.entries| && s.tasks[k].work.Sending?
    ensures var r := TurnProtocol.Next(s, TurnProtocol.StartBody(k));
            && r.tags == s.tags + [Some(k)] && r.removed == s.removed
            && |r.thread.entries| == |r.tags| && r.thread.entries[|s.tags|].UserMessage?
  {
    hide TextStream.Flush;
  }

  lemma EndedBody(s: System, k: TurnId, response: Response)
    requires TurnProtocol.WorkLive(s) && TurnProtocol.Enabled(s, TurnProtocol.EndBody(k, response))
    ensures var end := TurnProtocol.EndBody(k, response);
            && Allowed(s, [end]) && AfterEvents(s, [end]) == TurnProtocol.Next(s, end)
            && TurnProtocol.WorkLive(TurnProtocol.Next(s, end))
            && TurnProtocol.Next(s, end) ==
               s.(tasks := s.tasks[k := s.tasks[k].(stage := TurnProtocol.Finished(response))])
  {
    var end := TurnProtocol.EndBody(k, response);
    NextStaysLive(s, end);
    AllowedNone(TurnProtocol.Next(s, end));
    AllowedPush(s, end, []);
    assert [end] + [] == [end];
  }

  /** A refusal of any turn, when the last entry is a user message. */
  lemma RefusalHandled(s: System, k: TurnId)
    requires TurnProtocol.WorkLive(s) && TurnProtocol.Enabled(s, TurnProtocol.Handle(k))
    requires s.tasks[k].stage == TurnProtocol.Finished(Stopped(Refusal)) && s.thread.running != Some(k)
    requires |s.tags| == |s.thread.entries| == 2 && s.thread.entries[1].UserMessage?
    requires s.tags == [Some(1), Some(2)] && s.removed == {}
    ensures var r := TurnProtocol.Next(s, TurnProtocol.Handle(k));
            && r.tags == [Some(1)] && r.removed == {2} && r.thread.entries == s.thread.entries[..1]
            && r.thread.running == s.thread.running
  {
    hide TextStream.Flush, DropHeld, CallWithOutput;
    assert LastUserMessage(s.thread.entries) == Some(1);
    assert TurnProtocol.CutOff(s.tags, 1) == {2} by {
      assert s.tags[1] == Some(2);
    }
  }

  lemma MarkingChanges(t: Thread)
    requires Valid(t)
    ensures var r := MarkPending(t);
            r.running == t.running && r.turnId == t.turnId && r.plan == t.plan && r.terminals == t.terminals
    ensures MarkPending(t).entries != t.entries <==>
              exists i :: 0 <= i < |t.entries| && t.entries[i].Call? && Unfinished(t.entries[i].call.status)
  {
    hide DropHeld;
    var r := MarkPending(t);
    if forall i :: 0 <= i < |t.entries| ==> !(t.entries[i].Call? && Unfinished(t.entries[i].call.status)) {
      assert r.entries == t.entries;
    } else {
      var i :| 0 <= i < |t.entries| && t.entries[i].Call? && Unfinished(t.entries[i].call.status);
      assert r.entries[i] != t.entries[i];
    }
  }

  lemma RefusingChanges(t: Thread)
    requires Valid(t)
    ensures var r := Refuse(t);
            r.running == t.running && r.turnId == t.turnId && r.plan == t.plan && r.terminals == t.terminals
    ensures Refuse(t).entries != t.entries <==>
              exists i ::
                && 0 <= i < |t.entries| && t.entries[i].UserMessage?
                && (forall j :: i < j < |t.entries| ==> !t.entries[j].UserMessage? && !CallWithOutput(t.entries[j]))
  {
    hide DropHeld, CallWithOutput, LastUserMessage;
    TurnEffects.LastUserMessageIsLast(t.entries);
  }

  // ---- every system run is a run of thread updates

  function OpsOf(s: System, e: Event): (ops: seq<Op>)
    requires TurnProtocol.WorkLive(s) && TurnProtocol.Enabled(s, e)
  {
    match e
    case Send(_, message) => [Start(message)]
    case Retry => [Start([])]
    case CancelExplicitly => [CancelTurn]
    case DropCancel(_) => []
    case StartBody(k) =>
      var work := s.tasks[k].work;
      if work.Sending? then [Say(work.id, work.content, work.chunks)] else []
    case EndBody(_, _) => []
    case Handle(k) => [Finish(k, s.tasks[k].stage.response)]
    case Other(op) => [op]
  }

  ghost predicate Possible(s: System, events: seq<Event>)
    decreases |events|
  {
    events == [] ||
    (TurnProtocol.WorkLive(s) && TurnProtocol.Enabled(s, events[0])
     && Possible(TurnProtocol.Next(s, events[0]), events[1..]))
  }

  ghost function Reached(s: System, events: seq<Event>): System
    requires Possible(s, events)
    decreases |events|
  {
    if events == [] then s else Reached(TurnProtocol.Next(s, events[0]), events[1..])
  }

  lemma NextRunsOps(s: System, e: Event)
    requires TurnProtocol.WorkLive(s) && TurnProtocol.Enabled(s, e)
    ensures Runs(s.thread, OpsOf(s, e))
    ensures TurnProtocol.Next(s, e).thread == After(s.thread, OpsOf(s, e))
  {
    hide StartTurn, Cancel, Complete, NewCombined, PushEntry, PushUserChunk, PushAssistantChunk, Upsert, UpdateCall;
    hide Authorize, AskPermission, FinishRewind, TurnProtocol.Abandon;
    var ops := OpsOf(s, e);
    if ops != [] {
      assert Applies(s.thread, ops[0]);
      assert ops[1..] == [];
      assert After(s.thread, ops) == After(Step(s.thread, ops[0]), []);
    }
  }

  /** Permission requests and tool call ids stay accounted for in every run, however turns overlap. */
  lemma {:induction false} SystemStaysSound(s: System, events: seq<Event>)
    requires Possible(s, events) && ThreadCalls.Sound(s.thread)
    ensures ThreadCalls.Sound(Reached(s, events).thread)
    decreases |events|
  {
    hide TurnProtocol.Next, TurnProtocol.Enabled, ThreadCalls.Sound, OpsOf, Runs, After;
    if events != [] {
      assert Valid(s.thread);
      hide TurnProtocol.WorkLive;
      NextRunsOps(s, events[0]);
      ThreadCalls.RequestsAreAccountedFor(s.thread, OpsOf(s, events[0]));
      SystemStaysSound(TurnProtocol.Next(s, events[0]), events[1..]);
    }
  }

  predicate RunsNewest(t: Thread) {
    t.running.Some? ==> t.running.value == t.turnId
  }

  /** The running turn's own completion, with a response. */
  predicate EndsRunning(s: System, e: Event)
    requires TurnProtocol.Enabled(s, e)
  {
    e.Handle? && s.thread.running == Some(e.turn) && !s.tasks[e.turn].stage.response.Lost?
  }

  /** Only a new turn makes a turn run, and only a cancel or the turn's own completion ends that. */
  lemma RunningChanges(s: System, e: Event)
    requires TurnProtocol.WorkLive(s) && TurnProtocol.Enabled(s, e)
    ensures TurnProtocol.Next(s, e).thread.turnId == s.thread.turnId + if e.Send? || e.Retry? then 1 else 0
    ensures TurnProtocol.Next(s, e).thread.running ==
            if e.Send? || e.Retry? then Some(s.thread.turnId + 1)
            else if e.CancelExplicitly? || EndsRunning(s, e) then None
            else s.thread.running
  {
    hide Step, StartTurn, Cancel, Complete, NewCombined, TurnProtocol.Abandon, TurnProtocol.Frame;
    match e
    case Send(_, message) => TurnProtocol.StartFrame(s.thread, message);
    case Retry => TurnProtocol.StartFrame(s.thread, []);
    case CancelExplicitly => TurnProtocol.CancelFrame(s.thread);
    case DropCancel(_) =>
    case Handle(k) => TurnProtocol.CompleteFrame(s.thread, k, s.tasks[k].stage.response);
    case Other(op) => TurnProtocol.OtherFrame(s.thread, op);
    case StartBody(k) => StartedRuns(s, k);
    case EndBody(_, _) =>
  }

  /** In every run, however turns overlap, the running turn is the newest. */
  lemma {:induction false} RunningIsAlwaysNewest(s: System, events: seq<Event>)
    requires Possible(s, events) && RunsNewest(s.thread)
    ensures RunsNewest(Reached(s, events).thread) && s.thread.turnId <= Reached(s, events).thread.turnId
    decreases |events|
  {
    hide TurnProtocol.Next, TurnProtocol.Enabled, TurnProtocol.WorkLive;
    if events != [] {
      RunningChanges(s, events[0]);
      RunningIsAlwaysNewest(TurnProtocol.Next(s, events[0]), events[1..]);
    }
  }

  /** Nothing stops a run: the next state is always one in which updates can be carried out. */
  lemma NextStaysLive(s: System, e: Event)
    requires TurnProtocol.WorkLive(s) && TurnProtocol.Enabled(s, e)
    ensures TurnProtocol.WorkLive(TurnProtocol.Next(s, e))
  {
    hide Step, StartTurn, Cancel, Complete, NewCombined, TurnProtocol.Abandon, TurnProtocol.KeepsMessages;
    match e
    case Send(_, message) => TurnProtocol.StartFrame(s.thread, message);
    case Retry => TurnProtocol.StartFrame(s.thread, []);
    case CancelExplicitly => TurnProtocol.CancelFrame(s.thread);
    case DropCancel(k) => AbandonKeepsWork(s.tasks, k);
    case Handle(k) => TurnProtocol.CompleteFrame(s.thread, k, s.tasks[k].stage.response);
    case Other(op) => TurnProtocol.OtherFrame(s.thread, op);
    case StartBody(k) => SayingGrows(s, k);
    case EndBody(_, _) =>
  }

  lemma SayingGrows(s: System, k: TurnId)
    requires TurnProtocol.WorkLive(s) && TurnProtocol.Enabled(s, TurnProtocol.StartBody(k))
    ensures var t := TurnProtocol.Next(s, TurnProtocol.StartBody(k)).thread;
            Valid(t) && |s.thread.text.markdowns| <= |t.text.markdowns|
  {
    hide TextStream.Flush;
  }

  lemma {:induction false} AbandonKeepsWork(tasks: map<TurnId, TurnProtocol.SendTask>, k: TurnId)
    ensures TurnProtocol.Abandon(tasks, k).Keys == tasks.Keys
    ensures TurnProtocol.SameWork(tasks, TurnProtocol.Abandon(tasks, k))
    decreases k
  {
    if TurnProtocol.IsLive(tasks, k) {
      var task := tasks[k];
      var rest := tasks[k := task.(stage := TurnProtocol.Finished(Lost))];
      if task.stage.Waiting? && task.waitsFor.Some? && task.waitsFor.value < k {
        AbandonKeepsWork(rest, task.waitsFor.value);
      }
    }
  }
}
