/** The log of protocol messages seen on a watched connection, and how responses get their names. */
module MessageLog {
  import opened Wrappers

  type RequestId = nat

  datatype Direction = Incoming | Outgoing {
    function Opposite(): Direction {
      if Incoming? then Outgoing else Incoming
    }
  }

  datatype Content =
    | Request(id: RequestId, name: string)
    | Response(id: RequestId)
    | Notification(name: string)

  datatype StreamMessage = StreamMessage(direction: Direction, content: Content)

  datatype MessageType = RequestMessage | ResponseMessage | NotificationMessage

  datatype Logged = Logged(name: string, messageType: MessageType, requestId: Option<RequestId>, direction: Direction)

  const UNRECOGNIZED := "[unrecognized response]"

  /** Whether m concerns request `id` made in direction `side`: the request itself or its answer. */
  predicate Concerns(m: StreamMessage, side: Direction, id: RequestId) {
    || (m.content.Request? && m.content.id == id && m.direction == side)
    || (m.content.Response? && m.content.id == id && m.direction == side.Opposite())
  }

  /** Scanning back: the method of request `id` if the latest message about it is a request. */
  function Unanswered(history: seq<StreamMessage>, side: Direction, id: RequestId): Option<string> {
    if history == [] then None
    else
      var last := history[|history| - 1];
      if Concerns(last, side, id) then (if last.content.Request? then Some(last.content.name) else None)
      else Unanswered(history[..|history| - 1], side, id)
  }

  /** How m reads in the log, given everything that came before it. */
  function Entry(before: seq<StreamMessage>, m: StreamMessage): Logged {
    match m.content
    case Request(id, name) => Logged(name, RequestMessage, Some(id), m.direction)
    case Notification(name) => Logged(name, NotificationMessage, None, m.direction)
    case Response(id) =>
      var name := match Unanswered(before, m.direction.Opposite(), id)
        case Some(n) => n
        case None => UNRECOGNIZED;
      Logged(name, ResponseMessage, Some(id), m.direction)
  }

  /** The scan finds a request exactly when one is the last message about that id on that side. */
  lemma {:induction false} UnansweredIsLatest(history: seq<StreamMessage>, side: Direction, id: RequestId)
    ensures Unanswered(history, side, id).Some? <==>
              exists k :: 0 <= k < |history| && LatestAbout(history, side, id, k) && history[k].content.Request?
    ensures forall k :: 0 <= k < |history| && LatestAbout(history, side, id, k) && history[k].content.Request? ==>
              Unanswered(history, side, id) == Some(history[k].content.name)
  {
    if history != [] {
      var n := |history| - 1;
      var init := history[..n];
      UnansweredIsLatest(init, side, id);
      if Concerns(history[n], side, id) {
        assert LatestAbout(history, side, id, n);
      } else {
        forall k | 0 <= k < n ensures LatestAbout(history, side, id, k) <==> LatestAbout(init, side, id, k) {
        }
      }
    }
  }

  ghost predicate LatestAbout(history: seq<StreamMessage>, side: Direction, id: RequestId, k: int)
    requires 0 <= k < |history|
  {
    Concerns(history[k], side, id) && forall j :: k < j < |history| ==> !Concerns(history[j], side, id)
  }

  /** A request `id` in the direction other than d, or a response to `id` in direction d. */
  predicate About(m: StreamMessage, id: RequestId, d: Direction) {
    || (m.content.Request? && m.content.id == id && m.direction != d)
    || (m.content.Response? && m.content.id == id && m.direction == d)
  }

  ghost predicate LastAbout(history: seq<StreamMessage>, id: RequestId, d: Direction, k: int) {
    0 <= k < |history| && About(history[k], id, d) && forall j :: k < j < |history| ==> !About(history[j], id, d)
  }

  /** A response in direction d is named after the request it answers, if that is still unanswered. */
  ghost predicate IsNamed(name: string, history: seq<StreamMessage>, id: RequestId, d: Direction) {
    && (forall k :: LastAbout(history, id, d, k) ==>
                      name == if history[k].content.Request? then history[k].content.name else UNRECOGNIZED)
    && ((forall k :: !LastAbout(history, id, d, k)) ==> name == UNRECOGNIZED)
  }

  /** What the line for message m says, given the messages before it. */
  ghost predicate ReadsAs(line: Logged, before: seq<StreamMessage>, m: StreamMessage) {
    && line.direction == m.direction
    && match m.content
       case Request(id, name) =>
         line.name == name && line.messageType.RequestMessage? && line.requestId == Some(id)
       case Notification(name) =>
         line.name == name && line.messageType.NotificationMessage? && line.requestId.None?
       case Response(id) =>
         line.messageType.ResponseMessage? && line.requestId == Some(id) && IsNamed(line.name, before, id, m.direction)
  }

  lemma EntryReads(before: seq<StreamMessage>, m: StreamMessage)
    ensures ReadsAs(Entry(before, m), before, m)
  {
    if m.content.Response? {
      var id, side := m.content.id, m.direction.Opposite();
      UnansweredIsLatest(before, side, id);
      hide Unanswered;
      forall k | 0 <= k < |before| ensures LatestAbout(before, side, id, k) <==> LastAbout(before, id, m.direction, k) {
      }
    }
  }

  ghost predicate Agree(history: seq<StreamMessage>, methods: map<RequestId, string>, side: Direction) {
    forall id :: Unanswered(history, side, id) == if id in methods then Some(methods[id]) else None
  }

  lemma ScanStep(before: seq<StreamMessage>, m: StreamMessage, side: Direction, id: RequestId)
    ensures Unanswered(before + [m], side, id) ==
              if Concerns(m, side, id) then (if m.content.Request? then Some(m.content.name) else None)
              else Unanswered(before, side, id)
  {
    assert (before + [m])[..|before|] == before;
  }

  /** How a map must change to agree with a history one message longer. */
  lemma NamesAgree(before: seq<StreamMessage>, m: StreamMessage, methods: map<RequestId, string>, side: Direction)
    requires Agree(before, methods, side)
    ensures Agree(before + [m], Noted(methods, m, side), side)
  {
    forall id ensures Unanswered(before + [m], side, id) ==
        if id in Noted(methods, m, side) then Some(Noted(methods, m, side)[id]) else None
    {
      ScanStep(before, m, side, id);
    }
  }

  function Noted(methods: map<RequestId, string>, m: StreamMessage, side: Direction): map<RequestId, string> {
    match m.content
    case Request(id, name) => if m.direction == side then methods[id := name] else methods
    case Response(id) => if m.direction == side.Opposite() then methods - {id} else methods
    case Notification(_) => methods
  }

  /** The list shows the messages from position `cleared` on. */
  ghost predicate Lists(messages: seq<Logged>, history: seq<StreamMessage>, cleared: nat) {
    && cleared <= |history| && |messages| == |history| - cleared
    && forall i :: 0 <= i < |messages| ==> messages[i] == Entry(history[..cleared + i], history[cleared + i])
  }

  lemma OneMoreListed(messages: seq<Logged>, history: seq<StreamMessage>, cleared: nat, m: StreamMessage)
    requires Lists(messages, history, cleared)
    ensures Lists(messages + [Entry(history, m)], history + [m], cleared)
  {
    hide Entry;
    var longer, listed := history + [m], messages + [Entry(history, m)];
    assert longer[..|history|] == history;
    forall i | 0 <= i < |listed| ensures listed[i] == Entry(longer[..cleared + i], longer[cleared + i]) {
      if i < |messages| {
        assert longer[..cleared + i] == history[..cleared + i];
      }
    }
  }

  class WatchedConnection {
    var messages: seq<Logged>
    var incomingRequestMethods: map<RequestId, string>
    var outgoingRequestMethods: map<RequestId, string>
    /** Every message ever received, and how many of them the user has cleared from view. */
    ghost var history: seq<StreamMessage>
    ghost var cleared: nat

    /** The maps agree with a scan of the whole history; the list shows all messages not cleared. */
    ghost predicate Valid()
      reads this
    {
      && Agree(history, incomingRequestMethods, Incoming)
      && Agree(history, outgoingRequestMethods, Outgoing)
      && Lists(messages, history, cleared)
    }

    constructor ()
      ensures Valid() && history == [] && messages == []
    {
      messages, incomingRequestMethods, outgoingRequestMethods := [], map[], map[];
      history, cleared := [], 0;
    }

    method PushStreamMessage(m: StreamMessage)
      requires Valid()
      modifies this
      ensures Valid()
      ensures history == old(history) + [m] && cleared == old(cleared)
      ensures messages == old(messages) + [Entry(old(history), m)]
      ensures ReadsAs(messages[|old(messages)|], old(history), m)
    {
      var logged: Logged;
      match m.content {
        case Request(id, name) =>
          if m.direction.Incoming? {
            incomingRequestMethods := incomingRequestMethods[id := name];
          } else {
            outgoingRequestMethods := outgoingRequestMethods[id := name];
          }
          logged := Logged(name, RequestMessage, Some(id), m.direction);
        case Response(id) =>
          // An incoming response answers an outgoing request, and the other way round.
          var methods := if m.direction.Incoming? then outgoingRequestMethods else incomingRequestMethods;
          var name := if id in methods then methods[id] else UNRECOGNIZED;
          if m.direction.Incoming? {
            outgoingRequestMethods := outgoingRequestMethods - {id};
          } else {
            incomingRequestMethods := incomingRequestMethods - {id};
          }
          logged := Logged(name, ResponseMessage, Some(id), m.direction);
        case Notification(name) =>
          logged := Logged(name, NotificationMessage, None, m.direction);
      }
      NamesAgree(history, m, old(incomingRequestMethods), Incoming);
      NamesAgree(history, m, old(outgoingRequestMethods), Outgoing);
      EntryReads(history, m);
      hide Unanswered, Concerns, ReadsAs;
      assert logged == Entry(history, m);
      assert incomingRequestMethods == Noted(old(incomingRequestMethods), m, Incoming);
      assert outgoingRequestMethods == Noted(old(outgoingRequestMethods), m, Outgoing);
      OneMoreListed(messages, history, cleared, m);
      hide Entry, Agree, Noted, Lists;
      messages := messages + [logged];
      history := history + [m];
    }

    method ClearMessages()
      requires Valid()
      modifies this`messages, this`cleared
      ensures Valid()
      ensures messages == [] && cleared == |history|
    {
      messages := [];
      cleared := |history|;
    }
  }

  /** Every line on view reads as its message does, given all messages before it, cleared or not. */
  lemma LinesRead(w: WatchedConnection)
    requires w.Valid()
    ensures forall i :: 0 <= i < |w.messages| ==>
              ReadsAs(w.messages[i], w.history[..w.cleared + i], w.history[w.cleared + i])
  {
    hide ReadsAs;
    forall i | 0 <= i < |w.messages|
      ensures ReadsAs(w.messages[i], w.history[..w.cleared + i], w.history[w.cleared + i])
    {
      EntryReads(w.history[..w.cleared + i], w.history[w.cleared + i]);
    }
  }
}
