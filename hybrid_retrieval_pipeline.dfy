/**
 * `build_prompt` and the result shaping of `HybridRetrievalPipeline.run`: numbered
 * chunk blocks in a fixed template, or a fixed message when nothing was retrieved.
 */
module HybridPipeline {
  import opened Text
  import opened HybridRetrieval

  /** The instruction text between the opening newline and `CONTEXT:`. */
  const Instructions: string :=
    "You are an AI assistant for PowerSync.\n\nUse ONLY the context below to answer the question.\n\n"

  const NoDocumentsMessage: string := "No relevant documents found."

  /** The opening line of block i (0-based), carrying its 1-based number. */
  function Header(i: nat): string {
    "\n--- Chunk " + NatToString(i + 1) + " ---\n"
  }

  /** The document line of a block. */
  function DocumentLine(c: ChunkRow): string {
    "Document: " + c.documentName + "\n"
  }

  /** The closing lines of a block: the chunk's text. */
  function TextLines(c: ChunkRow): string {
    "Text:\n" + c.chunkText + "\n"
  }

  /** What one loop iteration appends for chunk i. */
  function Block(i: nat, c: ChunkRow): (r: string)
    ensures r != []
  {
    Header(i) + DocumentLine(c) + TextLines(c)
  }

  /** Block i opens with its number and document name and closes with the chunk text. */
  lemma BlockShape(i: nat, c: ChunkRow)
    ensures Header(i) + DocumentLine(c) <= Block(i, c)
    ensures var r := Block(i, c); |r| >= |TextLines(c)| && r[|r| - |TextLines(c)|..] == TextLines(c)
  {
    var head := Header(i) + DocumentLine(c);
    assert Block(i, c)[..|head|] == head;
  }

  /** The `context` the loop builds: the blocks of all chunks, in order. */
  function ContextOf(chunks: seq<ChunkRow>): string {
    Concat(Numbered(chunks, Block))
  }

  /** The f-string: it opens with a newline, and the query sits between `QUESTION:\n` and the final `\n\nANSWER:\n`. */
  function Prompt(query: string, context: string): (r: string)
    ensures r != [] && r[0] == '\n'
    ensures var before := "\n" + Instructions + "CONTEXT:\n" + context + "\n\nQUESTION:\n";
      before <= r && r[|before|..] == query + "\n\nANSWER:\n"
  {
    var before := "\n" + Instructions + "CONTEXT:\n" + context + "\n\nQUESTION:\n";
    var r := before + query + "\n\nANSWER:\n";
    assert r[..|before|] == before;
    assert r[0] == before[0];
    r
  }
  /** The prompt determines its question: for one context, different questions give different prompts. */
  lemma PromptDeterminesQuestion(q1: string, q2: string, context: string)
    requires Prompt(q1, context) == Prompt(q2, context)
    ensures q1 == q2
  {
    TwoSlotsInjective("\n" + Instructions + "CONTEXT:\n", context, context, "\n\nQUESTION:\n", q1, q2, "\n\nANSWER:\n");
  }

  /** The prompt determines its context: for one question, different contexts give different prompts. */
  lemma PromptDeterminesContext(query: string, c1: string, c2: string)
    requires Prompt(query, c1) == Prompt(query, c2)
    ensures c1 == c2
  {
    TwoSlotsInjective("\n" + Instructions + "CONTEXT:\n", c1, c2, "\n\nQUESTION:\n", query, query, "\n\nANSWER:\n");
  }


  /** One iteration of the loop of `build_prompt`: the `+=` steps that add chunk i's block. */
  method AppendBlock(context: string, i: nat, chunk: ChunkRow) returns (extended: string)
    ensures extended == context + Block(i, chunk)
  {
    extended := context + Header(i);
    extended := extended + DocumentLine(chunk);
    assert extended == context + (Header(i) + DocumentLine(chunk));
    extended := extended + TextLines(chunk);
  }

  /** `build_prompt`: append each chunk's block to the context, then fill in the template. */
  method BuildPrompt(query: string, retrievedChunks: seq<ChunkRow>) returns (prompt: string)
    ensures prompt == Prompt(query, ContextOf(retrievedChunks))
  {
    var context := "";
    for i := 0 to |retrievedChunks|
      invariant context == Concat(Numbered(retrievedChunks, Block)[..i])
    {
      ConcatPrefix(Numbered(retrievedChunks, Block), i);
      context := AppendBlock(context, i, retrievedChunks[i]);
    }
    assert Numbered(retrievedChunks, Block)[..|retrievedChunks|] == Numbered(retrievedChunks, Block);
    prompt := "\n" + Instructions + "CONTEXT:\n" + context + "\n\nQUESTION:\n" + query + "\n\nANSWER:\n";
  }

  /** With no chunks the context is empty: `CONTEXT:` is followed directly by two blank lines and the question. */
  lemma NoChunksPrompt(query: string)
    ensures Prompt(query, ContextOf([])) == "\n" + Instructions + "CONTEXT:\n\n\nQUESTION:\n" + query + "\n\nANSWER:\n"
  {
    assert ContextOf([]) == "";
  }

  /** What `run` returns: the plain message, or the retrieved chunks with their prompt. */
  datatype RunResult =
    | NoDocuments(message: string)
    | Prepared(retrievedChunks: seq<ChunkRow>, prompt: string)

  /**
   * The part of `run` after the hybrid search, which is given as `retrievedChunks`:
   * an empty result gives the fixed message, anything else is returned unchanged
   * together with the prompt for the original query.
   */
  method Run(query: string, retrievedChunks: seq<ChunkRow>) returns (r: RunResult)
    ensures r.NoDocuments? <==> retrievedChunks == []
    ensures r.NoDocuments? ==> r.message == NoDocumentsMessage
    ensures r.Prepared? ==> r.retrievedChunks == retrievedChunks && r.prompt == Prompt(query, ContextOf(retrievedChunks))
  {
    if retrievedChunks == [] {
      return NoDocuments(NoDocumentsMessage);
    }
    var prompt := BuildPrompt(query, retrievedChunks);
    return Prepared(retrievedChunks, prompt);
  }
}
