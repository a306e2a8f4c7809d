/** Upgrading a thread saved in format 0.1.0, where tool results travelled in user messages of their own. */
module LegacyThread {
  datatype Role = User | Assistant | System

  /** The parts of a message that an upgrade moves; all else a message carries is its `body`. */
  datatype Message = Message(id: nat, role: Role, body: string, toolUses: seq<string>, toolResults: seq<string>)

  datatype Thread = Thread(version: string, summary: string, messages: seq<Message>)

  const VERSION := "0.2.0"

  predicate Carries(m: Message) {
    m.role.User? && m.toolResults != []
  }

  function Take(out: seq<Message>, m: Message): seq<Message> {
    if Carries(m) && out != []
    then out[|out| - 1 := out[|out| - 1].(toolResults := m.toolResults)]
    else out + [m]
  }

  function Upgraded(ms: seq<Message>): seq<Message> {
    if ms == [] then [] else Take(Upgraded(ms[..|ms| - 1]), ms[|ms| - 1])
  }

  /** All tool results of a thread, in order. */
  function Results(ms: seq<Message>): seq<string> {
    if ms == [] then [] else Results(ms[..|ms| - 1]) + ms[|ms| - 1].toolResults
  }

  /** The messages that stay messages: all but later carriers of results. */
  function Kept(ms: seq<Message>): seq<Message> {
    if ms == [] then []
    else
      var n := |ms| - 1;
      if n > 0 && Carries(ms[n]) then Kept(ms[..n]) else Kept(ms[..n]) + [ms[n]]
  }

  function Bare(ms: seq<Message>): seq<Message> {
    seq(|ms|, i requires 0 <= i < |ms| => ms[i].(toolResults := []))
  }

  /** The check a caller can make before upgrading: nothing sits where results will be put. */
  predicate RoomForResults(ms: seq<Message>) {
    forall i: nat :: i < |ms| ==> RoomAt(ms, i)
  }

  predicate RoomAt(ms: seq<Message>, i: nat)
    requires i < |ms|
  {
    i > 0 && Carries(ms[i]) ==> ms[i - 1].toolResults == []
  }

  lemma RoomUpTo(ms: seq<Message>)
    requires ms != []
    ensures RoomForResults(ms) <==> RoomForResults(ms[..|ms| - 1]) && RoomAt(ms, |ms| - 1)
  {
    var init := ms[..|ms| - 1];
    assert forall i: nat :: i < |init| ==> RoomAt(init, i) == RoomAt(ms, i);
  }

  lemma {:induction false} LastResults(ms: seq<Message>)
    requires ms != []
    ensures Upgraded(ms) != [] && Upgraded(ms)[|Upgraded(ms)| - 1].toolResults == ms[|ms| - 1].toolResults
  {
    if |ms| > 1 {
      LastResults(ms[..|ms| - 1]);
    }
  }

  lemma ResultsOfReplaced(out: seq<Message>, results: seq<string>)
    requires out != []
    ensures var n := |out| - 1;
            && Results(out) == Results(out[..n]) + out[n].toolResults
            && Results(out[n := out[n].(toolResults := results)]) == Results(out[..n]) + results
  {
    var n := |out| - 1;
    assert out[n := out[n].(toolResults := results)][..n] == out[..n];
  }

  lemma ResultsOfPushed(out: seq<Message>, m: Message)
    ensures Results(out + [m]) == Results(out) + m.toolResults
  {
    assert (out + [m])[..|out|] == out;
  }

  /** Replacing the last results `last` by x, against appending x, where u and r agree exactly if `room`. */
  lemma ReplacedSurvives(u: seq<string>, ul: seq<string>, last: seq<string>, r: seq<string>, x: seq<string>, room: bool)
    requires u == ul + last && |u| <= |r| && (u == r <==> room) && (|u| == |r| ==> room)
    ensures |ul + x| <= |r + x| && (ul + x == r + x <==> room && last == [])
    ensures |ul + x| == |r + x| ==> room && last == []
  {
    if ul + x == r + x {
      assert ul == (ul + x)[..|ul|] == (r + x)[..|r|] == r;
    }
    if last == [] {
      assert ul + last == ul;
    }
  }

  lemma PushedSurvives(u: seq<string>, r: seq<string>, x: seq<string>)
    ensures u + x == r + x <==> u == r
  {
    if u + x == r + x {
      assert u == (u + x)[..|u|] == (r + x)[..|r|] == r;
    }
  }

  lemma UpgradedNext(ms: seq<Message>)
    requires ms != []
    ensures Upgraded(ms) == Take(Upgraded(ms[..|ms| - 1]), ms[|ms| - 1])
    ensures Results(ms) == Results(ms[..|ms| - 1]) + ms[|ms| - 1].toolResults
  {
  }

  /** Tool results survive, all of them and in order, exactly when there is room for each. */
  lemma {:induction false} ResultsSurviveIffRoom(ms: seq<Message>)
    ensures Results(Upgraded(ms)) == Results(ms) <==> RoomForResults(ms)
    ensures |Results(Upgraded(ms))| <= |Results(ms)|
    ensures |Results(Upgraded(ms))| == |Results(ms)| ==> RoomForResults(ms)
  {
    if ms != [] {
      var n := |ms| - 1;
      var out, m := Upgraded(ms[..n]), ms[n];
      ResultsSurviveIffRoom(ms[..n]);
      RoomUpTo(ms);
      UpgradedNext(ms);
      if n > 0 { LastResults(ms[..n]); }
      var room := RoomForResults(ms[..n]);
      if n == 0 { assert out == []; }
      hide Upgraded, Results, RoomForResults;
      if Carries(m) && out != [] {
        var k := |out| - 1;
        ResultsOfReplaced(out, m.toolResults);
        ReplacedSurvives(Results(out), Results(out[..k]), out[k].toolResults, Results(ms[..n]), m.toolResults, room);
      } else {
        ResultsOfPushed(out, m);
        PushedSurvives(Results(out), Results(ms[..n]), m.toolResults);
      }
    }
  }

  /** Apart from results, the upgraded thread is the kept messages, unchanged and in order. */
  lemma {:induction false} OthersStayInOrder(ms: seq<Message>)
    ensures |Upgraded(ms)| == |Kept(ms)|
    ensures Bare(Upgraded(ms)) == Bare(Kept(ms))
  {
    if ms != [] {
      var n := |ms| - 1;
      OthersStayInOrder(ms[..n]);
      if n > 0 { LastResults(ms[..n]); }
      var out, kept := Upgraded(ms[..n]), Kept(ms[..n]);
      assert forall i :: 0 <= i < |out| ==>
                           out[i].(toolResults := []) == Bare(out)[i] == Bare(kept)[i] == kept[i].(toolResults := []);
    }
  }

  /** Where there is room, each set of results ends up on the message right before its carrier. */
  lemma {:induction false} ResultsAttach(ms: seq<Message>, i: nat)
    requires RoomForResults(ms) && 0 < i < |ms| && Carries(ms[i])
    ensures var k := |Kept(ms[..i])| - 1;
            && 0 <= k < |Upgraded(ms)|
            && Upgraded(ms)[k] == ms[i - 1].(toolResults := ms[i].toolResults)
  {
    var n := |ms| - 1;
    var init := ms[..n];
    RoomUpTo(ms);
    LastResults(init);
    OthersStayInOrder(init);
    assert RoomAt(ms, i);
    if i == n {
      PlainIsPushed(init);
    } else {
      ResultsAttach(init, i);
      assert init[..i] == ms[..i] && init[i] == ms[i];
      if Carries(ms[n]) {
        // ms[n - 1] has no results, so it is not the carrier and it is not where results went
        assert init[n - 1] == ms[n - 1];
        PlainIsPushed(init);
        KeptGrows(init[..n - 1], i);
        assert init[..n - 1][..i] == init[..i];
      }
    }
  }

  lemma PlainIsPushed(ms: seq<Message>)
    requires ms != [] && !Carries(ms[|ms| - 1])
    ensures Upgraded(ms) == Upgraded(ms[..|ms| - 1]) + [ms[|ms| - 1]]
    ensures Kept(ms) == Kept(ms[..|ms| - 1]) + [ms[|ms| - 1]]
  {
  }

  lemma {:induction false} KeptGrows(ms: seq<Message>, i: nat)
    requires i <= |ms|
    ensures |Kept(ms[..i])| <= |Kept(ms)|
  {
    if i == |ms| {
      assert ms[..i] == ms;
    } else {
      KeptGrows(ms[..|ms| - 1], i);
      assert ms[..|ms| - 1][..i] == ms[..i];
    }
  }

  /** No message after the first still carries results for another. */
  predicate Settled(ms: seq<Message>) {
    forall i :: 0 < i < |ms| ==> !Carries(ms[i])
  }

  lemma {:induction false} FixedIffSettled(ms: seq<Message>)
    ensures Upgraded(ms) == ms <==> Settled(ms)
    ensures |Upgraded(ms)| <= |ms|
  {
    if ms != [] {
      var n := |ms| - 1;
      var init := ms[..n];
      FixedIffSettled(init);
      if n > 0 { LastResults(init); }
      assert ms == init + [ms[n]];
      assert forall i :: 0 < i < n ==> init[i] == ms[i];
      if Upgraded(ms) == ms {
        assert Upgraded(ms)[..n] == init;
        assert Upgraded(init) == init;
      }
    }
  }

  /** A result-less user message after the first must not be followed by a carrier. */
  predicate NoUserBeforeCarrier(ms: seq<Message>) {
    forall i: nat :: i < |ms| ==> PlainBefore(ms, i)
  }

  predicate PlainBefore(ms: seq<Message>, i: nat)
    requires i < |ms|
  {
    i > 1 && Carries(ms[i]) ==> !(ms[i - 1].role.User? && ms[i - 1].toolResults == [])
  }

  lemma {:induction false} SettlesIff(ms: seq<Message>)
    ensures Settled(Upgraded(ms)) <==> NoUserBeforeCarrier(ms)
  {
    if ms != [] {
      var n := |ms| - 1;
      var init := ms[..n];
      SettlesIff(init);
      assert NoUserBeforeCarrier(ms) <==> NoUserBeforeCarrier(init) && PlainBefore(ms, n) by {
        assert forall i: nat :: i < |init| ==> PlainBefore(init, i) == PlainBefore(ms, i);
      }
      if n > 0 {
        LastResults(init);
        assert init[n - 1] == ms[n - 1];
        if n > 1 { LastResults(init[..n - 1]); }
        SettledUpTo(Upgraded(init), ms[n]);
        UpgradedNext(ms);
        hide Take, Settled, Kept;
        if !Carries(init[n - 1]) {
          PlainIsPushed(init);
        }
      }
    }
  }

  lemma SettledUpTo(out: seq<Message>, m: Message)
    requires out != []
    ensures var last := out[|out| - 1];
            && (!Carries(m) ==> (Settled(Take(out, m)) <==> Settled(out)))
            && (Carries(m) && Carries(last) ==> (Settled(Take(out, m)) <==> Settled(out)))
            && (Carries(m) && !last.role.User? ==> (Settled(Take(out, m)) <==> Settled(out)))
            && (Carries(m) && |out| == 1 ==> Settled(Take(out, m)) && Settled(out))
            && (Carries(m) && |out| > 1 && last.role.User? ==> !Settled(Take(out, m)))
  {
    var after := Take(out, m);
    assert forall i :: 0 <= i < |out| - 1 ==> after[i] == out[i];
    assert after[|out| - 1].role == out[|out| - 1].role;
  }

  /** Upgrading twice is upgrading once, exactly when no plain user message precedes a carrier. */
  lemma SecondUpgradeChangesNothingIff(ms: seq<Message>)
    ensures Upgraded(Upgraded(ms)) == Upgraded(ms) <==> NoUserBeforeCarrier(ms)
  {
    SettlesIff(ms);
    FixedIffSettled(Upgraded(ms));
  }

  /** An answer that carries a result and is followed by a carrier of another loses its own. */
  lemma ResultIsLost(body: string)
    ensures var answer := Message(0, Assistant, body, [], ["first"]);
            var carrier := Message(1, User, "", [], ["second"]);
            && Results([answer, carrier]) == ["first", "second"]
            && Results(Upgraded([answer, carrier])) == ["second"]
  {
    var answer, carrier := Message(0, Assistant, body, [], ["first"]), Message(1, User, "", [], ["second"]);
    var ms := [answer, carrier];
    assert ms[..1] == [answer] && ms[..1][..0] == [];
    assert Upgraded(ms[..1]) == [] + [answer] == [answer];
    assert Upgraded(ms) == [answer.(toolResults := carrier.toolResults)];
    assert Results(ms[..1]) == [] + answer.toolResults == ["first"];
    assert Results([answer.(toolResults := carrier.toolResults)]) == [] + carrier.toolResults;
  }

  /** A carrier after a question puts its results on the question, and a second upgrade moves them on. */
  lemma SecondUpgradeMovesOn(body: string)
    ensures var answer := Message(0, Assistant, body, [], []);
            var question, carrier := Message(1, User, "", [], []), Message(2, User, "", [], ["result"]);
            var once := Upgraded([answer, question, carrier]);
            && once == [answer, question.(toolResults := ["result"])]
            && Upgraded(once) == [answer.(toolResults := ["result"])]
  {
    var answer := Message(0, Assistant, body, [], []);
    var question, carrier := Message(1, User, "", [], []), Message(2, User, "", [], ["result"]);
    var ms, moved := [answer, question, carrier], question.(toolResults := ["result"]);
    assert ms[..2] == [answer, question] && ms[..2][..1] == [answer] && ms[..2][..1][..0] == [];
    assert Upgraded([answer]) == [] + [answer] by {
      assert [answer][..0] == [];
    }
    assert Upgraded([answer, question]) == [answer, question];
    assert Upgraded(ms) == [answer, moved];
    assert [answer, moved][..1] == [answer];
    assert Upgraded([answer, moved]) == Take([answer], moved);
  }

  method Upgrade(saved: Thread) returns (thread: Thread)
    ensures thread == Thread(VERSION, saved.summary, Upgraded(saved.messages))
  {
    var messages: seq<Message> := [];
    for ix := 0 to |saved.messages|
      invariant messages == Upgraded(saved.messages[..ix])
    {
      var message := saved.messages[ix];
      assert saved.messages[..ix + 1][..ix] == saved.messages[..ix];
      if message.role == User && message.toolResults != [] && messages != [] {
        var last := messages[|messages| - 1];
        messages := messages[|messages| - 1 := last.(toolResults := message.toolResults)];
      } else {
        messages := messages + [message];
      }
    }
    assert saved.messages[..|saved.messages|] == saved.messages;
    thread := saved.(version := VERSION, messages := messages);
  }
}
