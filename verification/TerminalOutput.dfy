/** The output of a terminal as a tool call reports it, cut to the limit its creator asked for. */
module TerminalOutput {
  import opened Wrappers
  import opened Utf8

  /** What is kept of a finished command's output. */
  datatype Finished = Finished(content: Bytes, originalLen: nat)

  /** The position where output over the limit is cut. */
  function CutPosition(content: Bytes, limit: nat): (cut: nat)
    ensures cut <= limit
  {
    var b := FloorBoundary(content, limit);
    match LastNewline(content, b)
    case Some(n) => n
    case None => b
  }

  /** Rust's `rfind('\n')` over the first `end` bytes. */
  function LastNewline(s: Bytes, end: nat): (n: Option<nat>)
    ensures n.Some? ==> n.value < end
  {
    if end == 0 || end > |s| then None
    else if s[end - 1] == NEWLINE then Some(end - 1)
    else LastNewline(s, end - 1)
  }

  function Truncated(content: Bytes, limit: Option<nat>): Bytes {
    if limit.Some? && |content| > limit.value then content[..CutPosition(content, limit.value)] else content
  }

  lemma LastNewlineIsLast(s: Bytes, end: nat)
    requires end <= |s|
    ensures LastNewline(s, end).None? ==> NEWLINE !in s[..end]
    ensures LastNewline(s, end).Some? ==>
              && LastNewline(s, end).value < end
              && s[LastNewline(s, end).value] == NEWLINE
              && NEWLINE !in s[LastNewline(s, end).value + 1..end]
  {
  }

  /**
    * What truncation promises, without reference to how the cut is searched for: output within the
    * limit stays whole, and of more a well-formed prefix within the limit is left. It ends just before
    * the last line break below the last boundary within the limit, or at that boundary, which lies at
    * most three bytes below the limit.
    */
  lemma TruncationIsCleanPrefix(content: Bytes, limit: Option<nat>)
    requires Valid(content)
    ensures limit.None? || |content| <= limit.value ==> Truncated(content, limit) == content
    ensures limit.Some? && |content| > limit.value ==>
            var out, most := Truncated(content, limit), limit.value;
            && Valid(out) && out <= content && |out| <= most
            && exists b: nat ::
                 && most - 3 <= b <= most && IsBoundary(content, b)
                 && (forall k :: b < k <= most ==> !IsBoundary(content, k))
                 && |out| <= b
                 && (|out| < b ==> content[|out|] == NEWLINE && NEWLINE !in content[|out| + 1..b])
                 && (|out| == b ==> NEWLINE !in content[..b])
  {
    if limit.Some? && |content| > limit.value {
      var b := FloorBoundary(content, limit.value);
      FloorIsBoundary(content, limit.value);
      BoundaryIsNear(content, limit.value);
      LastNewlineIsLast(content, b);
      CutAtBoundary(content, CutPosition(content, limit.value));
    }
  }

  class Terminal {
    /** What the terminal emulator currently shows. */
    var screen: Bytes
    const outputByteLimit: Option<nat>
    /** Recorded once, when the command ends. */
    var output: Option<Finished>
    /** What the screen showed when the command ended. */
    ghost var lastScreen: Bytes

    constructor (limit: Option<nat>)
      ensures screen == [] && output.None? && outputByteLimit == limit
    {
      screen := [];
      outputByteLimit := limit;
      output := None;
      lastScreen := [];
    }

    /** What was recorded at the end is the last screen, cut to the limit, and its full length. */
    ghost predicate Consistent()
      reads this
    {
      output.Some? ==> output.value == Finished(Truncated(lastScreen, outputByteLimit), |lastScreen|)
    }

    method TruncatedOutput() returns (content: Bytes, originalContentLen: nat)
      ensures content == Truncated(screen, outputByteLimit) && originalContentLen == |screen|
    {
      content := screen;
      originalContentLen := |content|;
      if outputByteLimit.Some? && |content| > outputByteLimit.value {
        var limit := outputByteLimit.value;
        var endIx: nat := limit;
        while !IsBoundary(content, endIx)
          invariant endIx <= limit && content == screen
          invariant FloorBoundary(content, endIx) == FloorBoundary(content, limit)
          decreases endIx
        {
          endIx := endIx - 1;
        }
        // Only whole lines are kept, if there is a line break to cut at.
        LastNewlineIsLast(content, endIx);
        match LastNewline(content, endIx) {
          case Some(n) => endIx := n;
          case None =>
        }
        content := content[..endIx];
      }
    }

    /** The command ended: its output is recorded and later screen changes no longer matter. */
    method Finish()
      modifies this`output, this`lastScreen
      ensures output == Some(Finished(Truncated(screen, outputByteLimit), |screen|))
      ensures lastScreen == screen && Consistent()
    {
      var content, originalLen := TruncatedOutput();
      output := Some(Finished(content, originalLen));
      lastScreen := screen;
    }

    /**
      * The flag is true exactly when bytes of the terminal's content were dropped: of what it shows
      * now while the command runs, and of what it showed last once the command has ended.
      */
    method CurrentOutput() returns (content: Bytes, truncated: bool)
      requires Consistent()
      ensures var shown := if output.Some? then lastScreen else screen;
              content == Truncated(shown, outputByteLimit) && (truncated <==> content != shown)
    {
      if output.Some? {
        content := output.value.content;
        truncated := output.value.originalLen > |content|;
        TruncatedLength(lastScreen, outputByteLimit);
      } else {
        var originalLen;
        content, originalLen := TruncatedOutput();
        truncated := |content| < originalLen;
        TruncatedLength(screen, outputByteLimit);
      }
    }
  }

  lemma TruncatedLength(content: Bytes, limit: Option<nat>)
    ensures Truncated(content, limit) <= content
    ensures |Truncated(content, limit)| == |content| <==> Truncated(content, limit) == content
  {
  }
}
