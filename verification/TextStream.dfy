/**
  * Smooth streaming: text for a Markdown waits in a buffer and a timer reveals it bit by bit.
  * Markdown entities are identified by their position in a list of source texts.
  */
module TextStream {
  import opened Wrappers
  import opened Utf8

  type MarkdownId = nat

  datatype Buffer = Buffer(pending: Bytes, bytesPerTick: nat, target: MarkdownId)

  datatype Stream = Stream(markdowns: seq<Bytes>, buffer: Option<Buffer>)

  const TASK_UPDATE_MS: nat := 16
  const REVEAL_TARGET: nat := 200

  /** The bytes revealed per tick for len pending bytes: len / 200 * 16, rounded up. */
  function Rate(len: nat): nat {
    (len * TASK_UPDATE_MS + REVEAL_TARGET - 1) / REVEAL_TARGET
  }

  /** Every handle refers to an existing entity. */
  predicate Live(s: Stream) {
    s.buffer.Some? ==> s.buffer.value.target < |s.markdowns|
  }

  /** A new Markdown entity; its id is |s.markdowns|. */
  function Create(s: Stream, text: Bytes): Stream {
    s.(markdowns := s.markdowns + [text])
  }

  function Append(s: Stream, id: MarkdownId, text: Bytes): Stream
    requires id < |s.markdowns|
  {
    s.(markdowns := s.markdowns[id := s.markdowns[id] + text])
  }

  function Flush(s: Stream): (r: Stream)
    requires Live(s)
    ensures Live(r) && r.buffer.None? && |r.markdowns| == |s.markdowns|
  {
    match s.buffer
    case None => s
    case Some(b) =>
      var taken := s.(buffer := None);
      if b.pending == [] then taken else Append(taken, b.target, b.pending)
  }

  /** Text goes to the end of the buffer, which moves to `id` first if it streams elsewhere. */
  function BufferText(s: Stream, id: MarkdownId, text: Bytes): (r: Stream)
    requires Live(s) && id < |s.markdowns|
    ensures Live(r) && |r.markdowns| == |s.markdowns|
  {
    if s.buffer.Some? && s.buffer.value.target == id then
      var pending := s.buffer.value.pending + text;
      s.(buffer := Some(Buffer(pending, Rate(|pending|), id)))
    else
      Flush(s).(buffer := Some(Buffer(text, Rate(|text|), id)))
  }

  /** How much of the pending text one tick moves: the rate, raised to a character boundary. */
  function Cut(b: Buffer): (cut: nat)
    ensures cut <= |b.pending|
  {
    var boundary := CeilBoundary(b.pending, b.bytesPerTick);
    if boundary <= |b.pending| then boundary else |b.pending|
  }

  function Tick(s: Stream): (r: Stream)
    requires Live(s)
    ensures Live(r) && |r.markdowns| == |s.markdowns| && r.buffer.Some? == s.buffer.Some?
  {
    if s.buffer.None? || s.buffer.value.pending == [] then s
    else
      var b := s.buffer.value;
      Append(s, b.target, b.pending[..Cut(b)]).(buffer := Some(b.(pending := b.pending[Cut(b)..])))
  }

  // ---- one step at a time: buffering delays appending and does nothing else

  lemma TickRevealsInPlace(s: Stream)
    requires Live(s)
    ensures Flush(Tick(s)) == Flush(s)
  {
    if s.buffer.Some? && s.buffer.value.pending != [] {
      var b := s.buffer.value;
      assert b.pending == b.pending[..Cut(b)] + b.pending[Cut(b)..];
      var shown := s.markdowns[b.target];
      assert shown + b.pending == (shown + b.pending[..Cut(b)]) + b.pending[Cut(b)..];
      assert b.pending[Cut(b)..] == [] ==> shown + b.pending == shown + b.pending[..Cut(b)];
      assert Flush(Tick(s)).markdowns == Flush(s).markdowns;
    }
  }

  lemma BufferingIsAppending(s: Stream, id: MarkdownId, text: Bytes)
    requires Live(s) && id < |s.markdowns|
    ensures Flush(BufferText(s, id, text)) == Append(Flush(s), id, text)
  {
    var shown := s.markdowns[id];
    assert Flush(s).markdowns[id] + [] == Flush(s).markdowns[id];
    if s.buffer.Some? && s.buffer.value.target == id {
      var pending := s.buffer.value.pending;
      assert shown + (pending + text) == (shown + pending) + text;
      assert pending == [] ==> shown + pending == shown;
      assert pending + text == [] ==> shown + text == shown;
    }
    assert Flush(BufferText(s, id, text)).markdowns == Append(Flush(s), id, text).markdowns;
  }

  lemma CreatingCommutes(s: Stream, text: Bytes)
    requires Live(s)
    ensures Live(Create(s, text)) && Flush(Create(s, text)) == Create(Flush(s), text)
  {
    assert Flush(Create(s, text)).markdowns == Create(Flush(s), text).markdowns;
  }

  // ---- what reaches each Markdown over a whole run

  datatype Event =
    | Made(text: Bytes)
    /** Text that streams: it goes through the buffer. */
    | Streamed(id: MarkdownId, text: Bytes)
    /** Text appended at once, which always flushes the buffer first. */
    | Appended(id: MarkdownId, text: Bytes)
    | Ticked
    | Emptied

  predicate Applies(s: Stream, e: Event) {
    (e.Streamed? || e.Appended?) ==> e.id < |s.markdowns|
  }

  function Next(s: Stream, e: Event): (r: Stream)
    requires Live(s) && Applies(s, e)
    ensures Live(r) && |r.markdowns| == |s.markdowns| + (if e.Made? then 1 else 0)
  {
    match e
    case Made(text) => Create(s, text)
    case Streamed(id, text) => BufferText(s, id, text)
    case Appended(id, text) => Append(Flush(s), id, text)
    case Ticked => Tick(s)
    case Emptied => Flush(s)
  }

  predicate Runs(s: Stream, events: seq<Event>)
    requires Live(s)
    decreases |events|
  {
    events == [] || (Applies(s, events[0]) && Runs(Next(s, events[0]), events[1..]))
  }

  function After(s: Stream, events: seq<Event>): (r: Stream)
    requires Live(s) && Runs(s, events)
    ensures Live(r)
    decreases |events|
  {
    if events == [] then s else After(Next(s, events[0]), events[1..])
  }

  /** What one event contributes to Markdown `id`, when `count` Markdowns exist before it. */
  function Contribution(e: Event, count: nat, id: MarkdownId): Bytes {
    if e.Made? && count == id then e.text
    else if (e.Streamed? || e.Appended?) && e.id == id then e.text
    else []
  }

  /** Everything addressed to `id`, in arrival order. */
  function Received(events: seq<Event>, count: nat, id: MarkdownId): Bytes {
    if events == [] then []
    else
      Contribution(events[0], count, id) +
      Received(events[1..], count + (if events[0].Made? then 1 else 0), id)
  }

  function Shown(s: Stream, id: MarkdownId): Bytes {
    if id < |s.markdowns| then s.markdowns[id] else []
  }

  function PendingFor(s: Stream, id: MarkdownId): Bytes {
    if s.buffer.Some? && s.buffer.value.target == id then s.buffer.value.pending else []
  }

  lemma StepContributes(s: Stream, e: Event, id: MarkdownId)
    requires Live(s) && Applies(s, e)
    ensures var r := Next(s, e);
            Shown(r, id) + PendingFor(r, id) == Shown(s, id) + PendingFor(s, id) + Contribution(e, |s.markdowns|, id)
  {
    var shown, pending := Shown(s, id), PendingFor(s, id);
    assert shown + [] == shown && shown + pending + [] == shown + pending;
    match e
    case Made(text) =>
    case Streamed(i, text) => assert shown + pending + text == shown + (pending + text);
    case Appended(i, text) => assert (shown + pending) + text + [] == shown + pending + text;
    case Emptied =>
    case Ticked =>
      if s.buffer.Some? && s.buffer.value.pending != [] && s.buffer.value.target == id {
        var cut := Cut(s.buffer.value);
        assert shown + pending == (shown + pending[..cut]) + pending[cut..];
      }
  }

  /**
    * No text is lost, duplicated or reordered: at any time, what a Markdown shows followed by what
    * is still pending for it is everything addressed to it so far, in arrival order.
    */
  lemma {:induction false} StreamConserves(s: Stream, events: seq<Event>, id: MarkdownId)
    requires Live(s) && Runs(s, events)
    ensures var r := After(s, events);
            Shown(r, id) + PendingFor(r, id) ==
            Shown(s, id) + PendingFor(s, id) + Received(events, |s.markdowns|, id)
    decreases |events|
  {
    hide Next, Shown, PendingFor, Contribution, Applies, Live;
    var before := Shown(s, id) + PendingFor(s, id);
    if events == [] {
      assert before + [] == before;
    } else {
      var next := Next(s, events[0]);
      StepContributes(s, events[0], id);
      StreamConserves(next, events[1..], id);
      var first := Contribution(events[0], |s.markdowns|, id);
      var rest := Received(events[1..], |next.markdowns|, id);
      assert (before + first) + rest == before + (first + rest);
    }
  }

  // ---- how fast, and where, text is cut

  /** Between arrivals the rate still matches what was pending at the last arrival. */
  predicate Paced(s: Stream) {
    s.buffer.Some? ==> 25 * s.buffer.value.bytesPerTick >= 2 * |s.buffer.value.pending|
  }

  predicate WellFormedText(s: Stream) {
    && (forall i :: 0 <= i < |s.markdowns| ==> Valid(s.markdowns[i]))
    && (s.buffer.Some? ==> Valid(s.buffer.value.pending))
  }

  predicate CarriesText(e: Event) {
    (e.Made? || e.Streamed? || e.Appended?) ==> Valid(e.text)
  }

  /** 16 / 200 of the length, rounded up. */
  lemma RateIsExact(len: nat)
    ensures 25 * Rate(len) >= 2 * len && (len > 0 ==> Rate(len) >= 1) && 25 * Rate(len) < 2 * len + 25
  {
  }

  lemma NextKeepsPace(s: Stream, e: Event)
    requires Live(s) && Applies(s, e) && Paced(s)
    ensures Paced(Next(s, e))
  {
    if e.Streamed? {
      RateIsExact(|Next(s, e).buffer.value.pending|);
    }
  }

  /** Every cut falls between characters, so shown and pending text stay well formed. */
  lemma NextKeepsText(s: Stream, e: Event)
    requires Live(s) && Applies(s, e) && WellFormedText(s) && CarriesText(e)
    ensures WellFormedText(Next(s, e))
  {
    hide Valid, CeilBoundary, IsBoundary, Rate;
    var r := Next(s, e);
    if s.buffer.Some? {
      var b := s.buffer.value;
      CeilIsBoundary(b.pending, b.bytesPerTick);
      CutAtBoundary(b.pending, Cut(b));
      JoinValid(s.markdowns[b.target], b.pending);
      JoinValid(s.markdowns[b.target], b.pending[..Cut(b)]);
      if e.Streamed? {
        JoinValid(b.pending, e.text);
      }
    }
    if e.Appended? {
      JoinValid(Flush(s).markdowns[e.id], e.text);
    }
  }

  /** A tick reveals at least the rate, or everything, and at most three bytes more. */
  lemma CutIsClose(b: Buffer)
    requires Valid(b.pending)
    ensures Cut(b) >= b.bytesPerTick || Cut(b) == |b.pending|
    ensures Cut(b) <= b.bytesPerTick + 3 && IsBoundary(b.pending, Cut(b))
  {
    CeilIsBoundary(b.pending, b.bytesPerTick);
    if b.bytesPerTick <= |b.pending| {
      BoundaryIsNear(b.pending, b.bytesPerTick);
    }
  }

  function Ticks(s: Stream, n: nat): (r: Stream)
    requires Live(s)
    ensures Live(r) && r.buffer.Some? == s.buffer.Some?
    decreases n
  {
    if n == 0 then s else Ticks(Tick(s), n - 1)
  }

  lemma {:induction false} TicksReveal(s: Stream, n: nat)
    requires Live(s) && s.buffer.Some?
    ensures var left := |Ticks(s, n).buffer.value.pending|;
            left == 0 || left + n * s.buffer.value.bytesPerTick <= |s.buffer.value.pending|
    decreases n
  {
    if n > 0 {
      var b := s.buffer.value;
      CeilIsBoundary(b.pending, b.bytesPerTick);
      TicksReveal(Tick(s), n - 1);
      assert n * b.bytesPerTick == b.bytesPerTick + (n - 1) * b.bytesPerTick;
      if b.pending == [] {
        assert Tick(s) == s;
      }
    }
  }

  /** Thirteen ticks without a new arrival show everything that was pending. */
  lemma DrainsInThirteenTicks(s: Stream)
    requires Live(s) && Paced(s) && s.buffer.Some?
    ensures Ticks(s, 13).buffer.value.pending == []
    ensures Flush(Ticks(s, 13)) == Flush(s)
  {
    TicksReveal(s, 13);
    TicksKeepMeaning(s, 13);
  }

  lemma {:induction false} TicksKeepMeaning(s: Stream, n: nat)
    requires Live(s)
    ensures Flush(Ticks(s, n)) == Flush(s)
    decreases n
  {
    if n > 0 {
      TickRevealsInPlace(s);
      TicksKeepMeaning(Tick(s), n - 1);
    }
  }

  /** Thirteen is the least such number: 25 bytes that have just arrived are revealed two at a time. */
  lemma TwelveTicksCanFallShort()
    ensures exists text: Bytes :: |text| == 25 && Valid(text) && !ShownByTicks(text, 12)
  {
    var s := BufferText(Stream([[]], None), 0, Letters(25));
    assert Rate(25) == 2;
    TwoPerTick(s, 12);
    LettersAreValid(25);
    assert !ShownByTicks(Letters(25), 12);
  }

  /** Whether n ticks show all of a text that arrives for an empty Markdown while nothing is pending. */
  predicate ShownByTicks(text: Bytes, n: nat) {
    var s := BufferText(Stream([[]], None), 0, text);
    Ticks(s, n).buffer.value.pending == []
  }

  lemma {:induction false} LettersAreValid(n: nat)
    ensures Valid(Letters(n))
  {
    if n > 0 {
      LettersAreValid(n - 1);
      assert Letters(n)[1..] == Letters(n - 1);
    }
  }

  function Letters(n: nat): (s: Bytes)
    ensures |s| == n
  {
    seq(n, _ => 0x61)
  }

  lemma {:induction false} TwoPerTick(s: Stream, n: nat)
    requires Live(s) && s.buffer.Some? && s.buffer.value.bytesPerTick == 2
    requires 2 * n <= |s.buffer.value.pending| && s.buffer.value.pending == Letters(|s.buffer.value.pending|)
    ensures |Ticks(s, n).buffer.value.pending| == |s.buffer.value.pending| - 2 * n
    decreases n
  {
    if n > 0 {
      var b := s.buffer.value;
      assert |b.pending| > 2 ==> b.pending[2] == 0x61;
      assert Cut(b) == 2;
      assert b.pending[2..] == Letters(|b.pending| - 2);
      TwoPerTick(Tick(s), n - 1);
    }
  }
}
