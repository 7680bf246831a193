/** `build_rag_prompt`: numbered document blocks wrapped in the instruction template. */
module RagPromptBuilder {
  import opened Wrappers
  import opened Text
  import opened HybridRetrieval

  /** The instruction text that precedes `CONTEXT:`. */
  const Instructions: string :=
    "You are a helpful AI assistant specializing in power grid and energy systems.\n\n" +
    "Use ONLY the information provided in the context below to answer the question. \n" +
    "If the context doesn't contain relevant information, say \"I don't have enough information in the provided documents to answer this question.\"\n\n" +
    "IMPORTANT INSTRUCTIONS:\n" +
    "1. Be precise and technical.\n" +
    "2. Cite which document you're referencing (e.g., \"According to Document 1...\").\n" +
    "3. **LANGUAGE:** Answer in the SAME language as the user's question. If the question is in Korean, you MUST answer in Korean.\n\n"

  /** `chunk.get('page_or_section')` is truthy: present and not the empty string. */
  predicate HasSection(c: ChunkRow) {
    c.pageOrSection.Some? && c.pageOrSection.value != ""
  }

  /** The separator line of block i (0-based), carrying its 1-based number. */
  function DocumentHeader(i: nat): string {
    "\n--- Document " + NatToString(i + 1) + " ---\n"
  }

  function SourceLine(c: ChunkRow): string {
    "Source: " + c.documentName + "\n"
  }

  /** The opening lines of block i: its number and its source. */
  function Head(i: nat, c: ChunkRow): string {
    DocumentHeader(i) + SourceLine(c)
  }

  function SectionLine(c: ChunkRow): string
    requires c.pageOrSection.Some?
  {
    "Section: " + c.pageOrSection.value + "\n"
  }

  /** The closing lines of a block: the chunk's text. */
  function Tail(c: ChunkRow): string {
    "Content:\n" + c.chunkText + "\n"
  }

  /** The section line when the section is truthy, nothing otherwise. */
  function Section(c: ChunkRow): string {
    if HasSection(c) then SectionLine(c) else ""
  }

  /** What one loop iteration appends for chunk i. */
  function Block(i: nat, c: ChunkRow): (r: string)
    ensures r != []
  {
    Head(i, c) + Section(c) + Tail(c)
  }

  /**
   * Block i opens with its number and source and closes with the content; a section
   * line sits in between exactly when the section is truthy.
   */
  lemma BlockShape(i: nat, c: ChunkRow)
    ensures Head(i, c) <= Block(i, c)
    ensures var r := Block(i, c); |r| >= |Head(i, c)| + |Tail(c)| && r[|r| - |Tail(c)|..] == Tail(c)
    ensures HasSection(c) <==> |Block(i, c)| > |Head(i, c)| + |Tail(c)|
    ensures HasSection(c) ==> Block(i, c)[|Head(i, c)|..|Block(i, c)| - |Tail(c)|] == SectionLine(c)
  {
    var r := Block(i, c);
    assert r[..|Head(i, c)|] == Head(i, c);
    assert r[|Head(i, c)|..|r| - |Tail(c)|] == Section(c);
  }

  /** The `context` the loop builds: the blocks of all chunks, in order. */
  function ContextOf(chunks: seq<ChunkRow>): string {
    Concat(Numbered(chunks, Block))
  }

  /** The f-string around the context: the query sits between `QUESTION:\n` and the final `\n\nANSWER:`. */
  function Prompt(query: string, context: string): (r: string)
    ensures var before := Instructions + "CONTEXT:\n" + context + "\n\nQUESTION:\n";
      before <= r && r[|before|..] == query + "\n\nANSWER:"
  {
    var before := Instructions + "CONTEXT:\n" + context + "\n\nQUESTION:\n";
    var r := before + query + "\n\nANSWER:";
    assert r[..|before|] == before;
    r
  }
  /** The prompt determines its question: for one context, different questions give different prompts. */
  lemma PromptDeterminesQuestion(q1: string, q2: string, context: string)
    requires Prompt(q1, context) == Prompt(q2, context)
    ensures q1 == q2
  {
    TwoSlotsInjective(Instructions + "CONTEXT:\n", context, context, "\n\nQUESTION:\n", q1, q2, "\n\nANSWER:");
  }

  /** The prompt determines its context: for one question, different contexts give different prompts. */
  lemma PromptDeterminesContext(query: string, c1: string, c2: string)
    requires Prompt(query, c1) == Prompt(query, c2)
    ensures c1 == c2
  {
    TwoSlotsInjective(Instructions + "CONTEXT:\n", c1, c2, "\n\nQUESTION:\n", query, query, "\n\nANSWER:");
  }


  /** One iteration of the loop of `build_rag_prompt`: the `+=` steps that add chunk i's block. */
  method AppendBlock(context: string, i: nat, chunk: ChunkRow) returns (extended: string)
    ensures extended == context + Block(i, chunk)
  {
    extended := context + DocumentHeader(i);
    extended := extended + SourceLine(chunk);
    assert extended == context + Head(i, chunk);
    if chunk.pageOrSection.Some? && chunk.pageOrSection.value != "" {
      extended := extended + SectionLine(chunk);
    }
    assert extended == context + (Head(i, chunk) + Section(chunk));
    extended := extended + Tail(chunk);
  }

  /** `build_rag_prompt`: append each chunk's block to the context, then fill in the template. */
  method BuildRagPrompt(query: string, retrievedChunks: seq<ChunkRow>) returns (prompt: string)
    ensures prompt == Prompt(query, ContextOf(retrievedChunks))
  {
    var context := "";
    for i := 0 to |retrievedChunks|
      invariant context == Concat(Numbered(retrievedChunks, Block)[..i])
    {
      ConcatPrefix(Numbered(retrievedChunks, Block), i);
      context := AppendBlock(context, i, retrievedChunks[i]);
    }
    assert Numbered(retrievedChunks, Block)[..|retrievedChunks|] == Numbered(retrievedChunks, Block);
    prompt := Instructions + "CONTEXT:\n" + context + "\n\nQUESTION:\n" + query + "\n\nANSWER:";
  }

  /** With no chunks, the context is empty, so `CONTEXT:` is followed directly by two blank lines and the question. */
  lemma NoChunksPrompt(query: string)
    ensures Prompt(query, ContextOf([])) == Instructions + "CONTEXT:\n\n\nQUESTION:\n" + query + "\n\nANSWER:"
  {
    assert ContextOf([]) == "";
  }
}
