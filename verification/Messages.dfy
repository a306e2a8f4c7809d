/** Content blocks: what a chunk of a message turns into, and how further chunks are added to it. */
module Messages {
  import opened Wrappers
  import opened Utf8
  import opened TextStream

  datatype Chunk =
    | Text(text: Bytes)
    /** `link` is how the mention parser renders the address. */
    | ResourceLink(uri: Bytes, link: Bytes)
    | TextResource(link: Bytes)
    | Image(decodable: bool)
    | Unsupported

  datatype Block =
    | Empty
    | Markdown(id: MarkdownId)
    | Resource(uri: Bytes, link: Bytes)
    | Picture

  const IMAGE_MD: Bytes := [0x60, 0x49, 0x6D, 0x61, 0x67, 0x65, 0x60]

  function StringContents(chunk: Chunk): Bytes {
    match chunk
    case Text(text) => text
    case ResourceLink(_, link) => link
    case TextResource(link) => link
    case Image(_) => IMAGE_MD
    case Unsupported => []
  }

  predicate BlockLive(s: Stream, block: Block) {
    block.Markdown? ==> block.id < |s.markdowns|
  }

  function CreateMarkdown(s: Stream, text: Bytes): (Stream, Block) {
    (Create(s, text), Markdown(|s.markdowns|))
  }

  function AppendChunk(s: Stream, block: Block, chunk: Chunk): (r: (Stream, Block))
    requires Live(s) && BlockLive(s, block)
    ensures Live(r.0) && BlockLive(r.0, r.1) && |s.markdowns| <= |r.0.markdowns|
    ensures r.0.buffer == s.buffer
  {
    match block
    case Empty =>
      if chunk.ResourceLink? then (s, Resource(chunk.uri, chunk.link))
      else if chunk.Image? && chunk.decodable then (s, Picture)
      else CreateMarkdown(s, StringContents(chunk))
    case Markdown(id) => (Append(s, id, StringContents(chunk)), block)
    case Resource(_, link) => CreateMarkdown(s, link + [NEWLINE] + StringContents(chunk))
    case Picture => CreateMarkdown(s, IMAGE_MD + [NEWLINE] + StringContents(chunk))
  }

  function NewBlock(s: Stream, chunk: Chunk): (r: (Stream, Block))
    requires Live(s)
    ensures Live(r.0) && BlockLive(r.0, r.1) && |s.markdowns| <= |r.0.markdowns|
    ensures r.0.buffer == s.buffer
  {
    AppendChunk(s, Empty, chunk)
  }

  function AppendAll(s: Stream, block: Block, chunks: seq<Chunk>): (r: (Stream, Block))
    requires Live(s) && BlockLive(s, block)
    ensures Live(r.0) && BlockLive(r.0, r.1) && |s.markdowns| <= |r.0.markdowns|
    ensures r.0.buffer == s.buffer
    decreases |chunks|
  {
    if chunks == [] then (s, block)
    else var (s', block') := AppendChunk(s, block, chunks[0]); AppendAll(s', block', chunks[1..])
  }

  function NewCombined(s: Stream, chunks: seq<Chunk>): (r: (Stream, Block))
    requires Live(s)
    ensures Live(r.0) && BlockLive(r.0, r.1) && |s.markdowns| <= |r.0.markdowns|
    ensures r.0.buffer == s.buffer
  {
    AppendAll(s, Empty, chunks)
  }

  method CombineChunks(s: Stream, chunks: seq<Chunk>) returns (r: Stream, block: Block)
    requires Live(s)
    ensures (r, block) == NewCombined(s, chunks)
  {
    r, block := s, Empty;
    for i := 0 to |chunks|
      invariant Live(r) && BlockLive(r, block)
      invariant AppendAll(r, block, chunks[i..]) == AppendAll(s, Empty, chunks)
    {
      assert chunks[i..][1..] == chunks[i + 1..];
      var step := AppendChunk(r, block, chunks[i]);
      r, block := step.0, step.1;
    }
  }

  // ---- blocks that are not streamed into

  /** No text is pending for this block. */
  predicate Settled(s: Stream, block: Block) {
    block.Markdown? ==> s.buffer.None? || s.buffer.value.target != block.id
  }

  /** Flushing before or after adding a chunk to a settled block makes no difference. */
  lemma AppendCommutes(s: Stream, block: Block, chunk: Chunk)
    requires Live(s) && BlockLive(s, block) && Settled(s, block)
    ensures Flush(AppendChunk(s, block, chunk).0) == AppendChunk(Flush(s), block, chunk).0
    ensures AppendChunk(s, block, chunk).1 == AppendChunk(Flush(s), block, chunk).1
    ensures Settled(AppendChunk(s, block, chunk).0, AppendChunk(s, block, chunk).1)
  {
    var text := StringContents(chunk);
    match block
    case Empty => CreatingCommutes(s, text);
    case Resource(_, link) => CreatingCommutes(s, link + [NEWLINE] + text);
    case Picture => CreatingCommutes(s, IMAGE_MD + [NEWLINE] + text);
    case Markdown(id) =>
      assert Flush(Append(s, id, text)).markdowns == Append(Flush(s), id, text).markdowns;
  }

  lemma {:induction false} CombiningCommutes(s: Stream, block: Block, chunks: seq<Chunk>)
    requires Live(s) && BlockLive(s, block) && Settled(s, block)
    ensures Flush(AppendAll(s, block, chunks).0) == AppendAll(Flush(s), block, chunks).0
    ensures AppendAll(s, block, chunks).1 == AppendAll(Flush(s), block, chunks).1
    decreases |chunks|
  {
    if chunks != [] {
      AppendCommutes(s, block, chunks[0]);
      var step := AppendChunk(s, block, chunks[0]);
      CombiningCommutes(step.0, step.1, chunks[1..]);
    }
  }
}
