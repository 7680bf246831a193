/**
 * `RAGService`: the `top_k` default, `_build_context`, `_build_prompt` and the `sources`
 * list of `query`. Embedding, FAISS search, the metadata lookup and the LLM call are
 * parameters.
 */
module RagServing {
  import opened Wrappers
  import opened Seqs
  import opened Text

  /** `settings.default_top_k`. */
  const DefaultTopK: int := 5

  /** A row of `get_chunk_metadata`. */
  datatype ChunkMetadata = ChunkMetadata(chunkId: int, documentName: string, chunkText: string)

  datatype SourceChunk = SourceChunk(chunkId: string, document: string)

  datatype QueryResponse = QueryResponse(answer: string, sources: seq<SourceChunk>)

  /** `top_k` falls back to the configured default when it is not given. */
  function EffectiveTopK(topK: Option<int>): (k: int)
    ensures topK.None? ==> k == DefaultTopK
    ensures topK.Some? ==> k == topK.value
  {
    match topK
    case None => DefaultTopK
    case Some(k) => k
  }

  /** The heading of part i (0-based): `[Document <i+1>] <document_name>` and a newline. */
  function PartHeading(i: nat, c: ChunkMetadata): string {
    "[Document " + NatToString(i + 1) + "] " + c.documentName + "\n"
  }

  /** Part i of `context_parts`. */
  function Part(i: nat, c: ChunkMetadata): (r: string)
    ensures r != []
  {
    PartHeading(i, c) + c.chunkText
  }

  /** Part i is its numbered heading followed by the chunk text. */
  lemma PartShape(i: nat, c: ChunkMetadata)
    ensures PartHeading(i, c) <= Part(i, c)
    ensures |Part(i, c)| == |PartHeading(i, c)| + |c.chunkText| && Part(i, c)[|PartHeading(i, c)|..] == c.chunkText
  {
    assert Part(i, c)[..|PartHeading(i, c)|] == PartHeading(i, c);
  }

  /** The context `_build_context` returns: the parts joined by blank lines. */
  function ContextOf(rows: seq<ChunkMetadata>): (r: string)
    ensures r == [] <==> rows == []
  {
    var parts := Numbered(rows, Part);
    JoinEmptyIff(parts, "\n\n");
    Join(parts, "\n\n")
  }

  /**
   * The context starts with the first part and ends with the last, with exactly one
   * blank-line separator between neighbours and none at either end.
   */
  lemma ContextShape(rows: seq<ChunkMetadata>)
    requires rows != []
    ensures Part(0, rows[0]) <= ContextOf(rows)
    ensures var c, last := ContextOf(rows), Part(|rows| - 1, rows[|rows| - 1]);
      |c| >= |last| && c[|c| - |last|..] == last
    ensures |ContextOf(rows)| == TotalLength(Numbered(rows, Part)) + 2 * (|rows| - 1)
    ensures var parts := Numbered(rows, Part);
      forall i :: 0 < i < |rows| ==>
        ContextOf(rows) == Join(parts[..i], "\n\n") + "\n\n" + Join(parts[i..], "\n\n")
  {
    var parts := Numbered(rows, Part);
    JoinShape(parts, "\n\n");
    forall i | 0 < i < |rows|
      ensures ContextOf(rows) == Join(parts[..i], "\n\n") + "\n\n" + Join(parts[i..], "\n\n")
    {
      JoinSplit(parts, "\n\n", i);
    }
  }

  /** `_build_context`: collect the numbered parts in a list, then join them. */
  method BuildContext(chunkMetadata: seq<ChunkMetadata>) returns (context: string)
    ensures context == ContextOf(chunkMetadata)
  {
    var contextParts: seq<string> := [];
    for i := 0 to |chunkMetadata|
      invariant |contextParts| == i
      invariant forall j :: 0 <= j < i ==> contextParts[j] == Part(j, chunkMetadata[j])
    {
      var chunk := chunkMetadata[i];
      contextParts := contextParts + ["[Document " + NatToString(i + 1) + "] " + chunk.documentName + "\n" + chunk.chunkText];
    }
    assert contextParts == Numbered(chunkMetadata, Part);
    context := Join(contextParts, "\n\n");
  }

  /** The instruction sentence that opens the prompt. */
  const Instructions: string := "You are a helpful assistant. Use the provided context to answer the question.\n\n"

  /** `_build_prompt`: the context after `Context:`, the question after `Question: `, ending in `Answer:`. */
  function BuildPrompt(question: string, context: string): (r: string)
    ensures var before := Instructions + "Context:\n" + context + "\n\nQuestion: ";
      before <= r && r[|before|..] == question + "\n\nAnswer:"
  {
    var before := Instructions + "Context:\n" + context + "\n\nQuestion: ";
    var r := before + question + "\n\nAnswer:";
    assert r[..|before|] == before;
    r
  }
  /** The prompt determines its question: for one context, different questions give different prompts. */
  lemma BuildPromptDeterminesQuestion(q1: string, q2: string, context: string)
    requires BuildPrompt(q1, context) == BuildPrompt(q2, context)
    ensures q1 == q2
  {
    TwoSlotsInjective(Instructions + "Context:\n", context, context, "\n\nQuestion: ", q1, q2, "\n\nAnswer:");
  }

  /** The prompt determines its context: for one question, different contexts give different prompts. */
  lemma BuildPromptDeterminesContext(question: string, c1: string, c2: string)
    requires BuildPrompt(question, c1) == BuildPrompt(question, c2)
    ensures c1 == c2
  {
    TwoSlotsInjective(Instructions + "Context:\n", c1, c2, "\n\nQuestion: ", question, question, "\n\nAnswer:");
  }


  /** The `sources` list: one entry per metadata row, in order, with the chunk id printed. */
  function Sources(rows: seq<ChunkMetadata>): (r: seq<SourceChunk>)
    ensures |r| == |rows|
    ensures forall i :: 0 <= i < |rows| ==> r[i].document == rows[i].documentName
    ensures forall i :: 0 <= i < |rows| ==> r[i].chunkId == IntToString(rows[i].chunkId)
  {
    seq(|rows|, i requires 0 <= i < |rows| => SourceChunk(IntToString(rows[i].chunkId), rows[i].documentName))
  }

  /** Printing the ids keeps them apart: the sources repeat an id exactly when the rows do. */
  lemma SourcesDistinctIds(rows: seq<ChunkMetadata>)
    ensures (forall i, j :: 0 <= i < j < |rows| ==> Sources(rows)[i].chunkId != Sources(rows)[j].chunkId)
        <==> (forall i, j :: 0 <= i < j < |rows| ==> rows[i].chunkId != rows[j].chunkId)
  {
    var s := Sources(rows);
    forall i, j | 0 <= i < j < |rows| && s[i].chunkId == s[j].chunkId
      ensures rows[i].chunkId == rows[j].chunkId
    {
      IntToStringInjective(rows[i].chunkId, rows[j].chunkId);
    }
  }

  /**
   * `query`: resolve `top_k`, search, fetch the metadata, build the context and the
   * prompt, ask the model, and list the sources. `search` stands for embedding the
   * question and searching the index, `fetch` for the metadata lookup and `generate`
   * for the LLM.
   */
  method Query(question: string, topK: Option<int>, search: int -> seq<int>,
               fetch: seq<int> -> seq<ChunkMetadata>, generate: string -> string)
    returns (response: QueryResponse)
    ensures var rows := fetch(search(EffectiveTopK(topK)));
      response.answer == generate(BuildPrompt(question, ContextOf(rows))) &&
      response.sources == Sources(rows)
  {
    var k := if topK.None? then DefaultTopK else topK.value;
    var chunkIds := search(k);
    var chunkMetadata := fetch(chunkIds);
    var context := BuildContext(chunkMetadata);
    var prompt := BuildPrompt(question, context);
    var answer := generate(prompt);
    var sources := seq(|chunkMetadata|, i requires 0 <= i < |chunkMetadata| =>
      SourceChunk(IntToString(chunkMetadata[i].chunkId), chunkMetadata[i].documentName));
    response := QueryResponse(answer, sources);
  }
}
