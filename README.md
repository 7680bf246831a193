# Hybrid retrieval RAG assistant: a Dafny model

The system is a retrieval-augmented question-answering assistant for power-grid documents. Its pipeline has these stages:

- **Chunking.** Documents are cut into overlapping text windows. Each kept chunk is named after its document and its window index.
- **Indexing.** Chunk embeddings are added to a FAISS flat index. A vector's id is its position in the index.
- **Hybrid search.** A query is answered by combining two rankings of at most `min(20, ntotal)` candidates each: FAISS nearest neighbours and BM25 over a tokenized corpus loaded from the metadata store.
- **Fusion.** The two rankings are fused with Reciprocal Rank Fusion. Each list contributes `1/(rrf_k + rank)` to an id's score. The ids are sorted by score with Python's stable sort and cut to `top_k`. The metadata rows are then put back into fusion order.
- **Query expansion.** Queries can be widened with a fixed bilingual keyword table.
- **Prompting.** Retrieved chunks are laid out as numbered blocks inside a prompt template. There are three templates: the RAG prompt builder, the hybrid pipeline and the RAG service.
- **Evaluation.** Retrieval quality is scored with precision@k, recall@k, F1@k, average precision and reciprocal rank. These are aggregated into a hit rate, mean metrics and MRR over deduplicated document lists.

The model has one Dafny module per source file:

| module | file | models |
|---|---|---|
| `HybridRetrieval` | hybrid_retriever.dfy | `HybridRetriever`, a class with the loaded corpus, `chunk_map` and `vector_ids` as fields |
| `QueryExpansion` | query_processor.dfy | `QueryProcessor.KEYWORD_MAP` and `expand_query` |
| `PerformanceMetrics` | performance_metrics.dfy | the per-list metrics |
| `RetrievalEvaluation` | retrieval_metrics.dfy | `calculate_hit_rate` and `calculate_mrr` |
| `TextChunking` | text_chunker.dfy | `chunk_text` and `chunk_documents` |
| `VectorIndexing` | vector_indexer.dfy | `VectorIndexer`, a class whose index is the growing sequence of its vectors |
| `RagPromptBuilder` | prompt_builder.dfy | `build_rag_prompt` |
| `HybridPipeline` | hybrid_retrieval_pipeline.dfy | `build_prompt` and `HybridRetrievalPipeline.run` |
| `RagServing` | rag_service.dfy | `RAGService.query`, `_build_context` and `_build_prompt` |

Shared definitions live in common.dfy (modules `Wrappers`, `Seqs` and `Text`) and py_dict.dfy (module `PyDict`):

- Python's insertion-ordered `dict` is a key list beside a map.
- `str.lower`, `str.split`, `str.strip` and Python slicing are written out.
- Loops in the source are methods with loop invariants, proved equal to a specification function. The properties are lemmas about those functions.

## Model

| member | source | states |
|---|---|---|
| PyDict.PutKeys | retrieval/hybrid_retriever.py:57-60 | a new key is appended to the insertion order; an existing key keeps its place |
| PyDict.PutValid | retrieval/hybrid_retriever.py:57-60 | assignment keeps every key listed exactly once |
| HybridRetrieval.ChunkMapOf | retrieval/hybrid_retriever.py:47-60 | `chunk_map` built from the fetched rows is a well-formed dict |
| HybridRetrieval.TokenizedCorpus | retrieval/hybrid_retriever.py:48-56 | the corpus has exactly one token list per fetched row |
| HybridRetrieval.TokenizedCorpusAt | retrieval/hybrid_retriever.py:54-56 | corpus entry i is the lower-cased whitespace split of row i's text |
| HybridRetrieval.LoadStep | retrieval/hybrid_retriever.py:50-60 | one iteration appends the row's tokens and sets `chunk_map[vector_id]` to the row's text and document |
| HybridRetrieval.ChunkMapKeys | retrieval/hybrid_retriever.py:57-64 | `vector_ids` lists each row's vector id at its first occurrence, in row order |
| HybridRetrieval.ChunkMapOfDistinct | retrieval/hybrid_retriever.py:57-64 | with distinct ids, `vector_ids` is the rows' ids in order and each entry holds its own row's text and document |
| HybridRetrieval.ChunkMapNoLonger | retrieval/hybrid_retriever.py:57-64 | `chunk_map` never has more keys than there are rows |
| HybridRetrieval.CorpusAlignment | retrieval/hybrid_retriever.py:50-64 | `vector_ids` is never longer than the corpus, and is equally long iff the rows' ids are distinct; then corpus position i holds the tokens of the chunk whose id is `vector_ids[i]` |
| HybridRetrieval.ReadRows | retrieval/hybrid_retriever.py:47-60 | the loading loop yields exactly the specified `chunk_map` and corpus |
| HybridRetrieval.VectorRanksOf | retrieval/hybrid_retriever.py:104-107 | the FAISS rank map is a well-formed dict |
| HybridRetrieval.VectorRanksKeys | retrieval/hybrid_retriever.py:104-107 | the ranked ids are exactly the FAISS slots other than -1, and there are no more of them than slots |
| HybridRetrieval.VectorRanksDomain | retrieval/hybrid_retriever.py:104-107 | the mapped ids are exactly the non -1 slots |
| HybridRetrieval.VectorRanksSlot | retrieval/hybrid_retriever.py:104-107 | an id's rank r is a 1-based slot that holds that id |
| HybridRetrieval.VectorRanksDistinct | retrieval/hybrid_retriever.py:104-107 | with distinct slots, the id in slot i has rank i + 1: -1 slots are skipped but later slots are not renumbered |
| HybridRetrieval.BuildVectorRanks | retrieval/hybrid_retriever.py:104-107 | the loop builds the specified FAISS rank map |
| HybridRetrieval.Bm25RanksOf | retrieval/hybrid_retriever.py:117-120 | a successful BM25 rank map is a well-formed dict |
| HybridRetrieval.Bm25RanksSucceed | retrieval/hybrid_retriever.py:117-120 | building the BM25 rank map succeeds iff every top position indexes into `vector_ids` |
| HybridRetrieval.Bm25RanksKeys | retrieval/hybrid_retriever.py:117-120 | the BM25-ranked ids are the positions' vector ids in first-occurrence order |
| HybridRetrieval.Bm25RanksSlot | retrieval/hybrid_retriever.py:117-120 | every BM25 rank r points at a top position whose vector id is the ranked id |
| HybridRetrieval.Bm25RankSlot | retrieval/hybrid_retriever.py:117-120 | the same, for one given id |
| HybridRetrieval.Bm25RanksStep | retrieval/hybrid_retriever.py:118-120 | one iteration sets the rank of the last position's vector id to the number of positions seen |
| HybridRetrieval.Bm25RanksCount | retrieval/hybrid_retriever.py:117-120 | with distinct positions and ids, every position yields its own entry, in position order |
| HybridRetrieval.Bm25RanksDistinct | retrieval/hybrid_retriever.py:117-120 | then the id at position i has rank i + 1, with no score threshold |
| HybridRetrieval.BuildBm25Ranks | retrieval/hybrid_retriever.py:117-120 | the loop builds the specified BM25 rank map, or fails as it does |
| HybridRetrieval.BadPositionFails | retrieval/hybrid_retriever.py:119 | a position beyond `vector_ids` makes the map fail with IndexError |
| HybridRetrieval.FailureIsIndexError | retrieval/hybrid_retriever.py:119 | the only failure is IndexError |
| HybridRetrieval.Reciprocal | retrieval/hybrid_retriever.py:80-87 | each contribution `1/(rrf_k + rank)` lies in (0, 1] |
| HybridRetrieval.RrfScores | retrieval/hybrid_retriever.py:76-87 | `rrf_scores` after both loops is a well-formed dict |
| HybridRetrieval.Unranked | retrieval/hybrid_retriever.py:83-87 | the BM25 ids that are new to `rrf_scores`: exactly those absent from the vector map |
| HybridRetrieval.VectorPassKeys | retrieval/hybrid_retriever.py:79-80 | after the vector loop, the scored ids are the vector map's ids in its order |
| HybridRetrieval.VectorPassValues | retrieval/hybrid_retriever.py:79-80 | after the vector loop, each id scores `1/(rrf_k + vector rank)` |
| HybridRetrieval.Bm25PassDomain | retrieval/hybrid_retriever.py:83-87 | the scored ids are the vector ids plus the BM25 ids visited so far |
| HybridRetrieval.Bm25PassValues | retrieval/hybrid_retriever.py:83-87 | each score is the vector contribution plus the BM25 contribution if visited; absence from a map adds nothing |
| HybridRetrieval.Bm25PassValueStep | retrieval/hybrid_retriever.py:84-87 | one BM25 iteration preserves that score formula |
| HybridRetrieval.Bm25PassKeys | retrieval/hybrid_retriever.py:83-87 | insertion order is the vector ids, then the BM25-only ids in BM25 order |
| HybridRetrieval.Bm25PassKeysStep | retrieval/hybrid_retriever.py:84-87 | one BM25 iteration preserves that insertion order |
| HybridRetrieval.RrfScoresSpec | retrieval/hybrid_retriever.py:76-87 | `rrf_scores` lists the fusion order, covers exactly the union of both maps, and gives each id the sum of its two contributions |
| HybridRetrieval.InsertByScore | retrieval/hybrid_retriever.py:90 | inserting one id adds exactly that id to the multiset |
| HybridRetrieval.SortByScore | retrieval/hybrid_retriever.py:90 | sorting is a permutation of its input |
| HybridRetrieval.InsertSorted | retrieval/hybrid_retriever.py:90 | insertion keeps a list in non-increasing score order |
| HybridRetrieval.SortSorted | retrieval/hybrid_retriever.py:90 | the sorted ids are in non-increasing score order |
| HybridRetrieval.InsertFrontKeepsTies | retrieval/hybrid_retriever.py:90 | an id placed in front of lower scores lands after every id of its own score |
| HybridRetrieval.InsertLaterKeepsTies | retrieval/hybrid_retriever.py:90 | the same, when insertion passes the first id |
| HybridRetrieval.InsertKeepsTies | retrieval/hybrid_retriever.py:90 | an inserted id follows every id that has an equal score |
| HybridRetrieval.SortIsStable | retrieval/hybrid_retriever.py:90 | for every score value, the ids with that score keep their input order |
| HybridRetrieval.WithScoreTake | retrieval/hybrid_retriever.py:93 | cutting to `top_k` keeps a prefix of each group of equal scores |
| HybridRetrieval.SortedFusionMembers | retrieval/hybrid_retriever.py:76-90 | the sorted ids are distinct, and are exactly the union of both rank maps |
| HybridRetrieval.SortedFusionOrder | retrieval/hybrid_retriever.py:90 | the sorted ids are in non-increasing fused score |
| HybridRetrieval.FuseMembers | retrieval/hybrid_retriever.py:76-93 | fusion output has no duplicates, contains only ids ranked by some method, and has length min(top_k, size of the union) |
| HybridRetrieval.FuseOrdered | retrieval/hybrid_retriever.py:90-93 | fusion output is in non-increasing fused score |
| HybridRetrieval.FuseSelectsTop | retrieval/hybrid_retriever.py:90-93 | every returned id scores at least as high as any ranked id that was cut |
| HybridRetrieval.FuseKeepsTies | retrieval/hybrid_retriever.py:79-93 | ids with equal scores come out in insertion order: vector ids in FAISS order, then BM25-only ids |
| HybridRetrieval.ExampleScores | retrieval/hybrid_retriever.py:76-87 | vector {A:1,B:2} and BM25 {B:1,C:2} with rrf_k 60 score A 1/61, B 1/62+1/61, C 1/62 |
| HybridRetrieval.SortThree | retrieval/hybrid_retriever.py:90 | three ids with scores B > A > C sort as B, A, C |
| HybridRetrieval.ExampleOrder | retrieval/hybrid_retriever.py:76-90 | the example inserts A, B, C, and B outscores A, which outscores C |
| HybridRetrieval.FuseWorkedExample | retrieval/hybrid_retriever.py:68-93 | the example fuses to B, A, C |
| HybridRetrieval.RowsById | retrieval/hybrid_retriever.py:132 | `results_dict` holds exactly the fetched ids, each mapped to a fetched row with that id |
| HybridRetrieval.RowsByIdLast | retrieval/hybrid_retriever.py:132 | the row kept for an id is the last fetched row with that id |
| HybridRetrieval.Reorder | retrieval/hybrid_retriever.py:133 | there is at most one result per fused id |
| HybridRetrieval.Fetched | retrieval/hybrid_retriever.py:133 | there are at most as many ids with a row as fused ids |
| HybridRetrieval.ReorderSpec | retrieval/hybrid_retriever.py:132-133 | result k is the row kept for the k-th fused id that has a row |
| HybridRetrieval.FetchedSpec | retrieval/hybrid_retriever.py:133 | the ids with rows are the fused ids with a fetched row; ids without one are dropped without reordering, and no id repeats |
| HybridRetrieval.FetchedMembers | retrieval/hybrid_retriever.py:133 | an id is kept iff it was fused and some row has it |
| HybridRetrieval.FetchedDistinct | retrieval/hybrid_retriever.py:133 | distinct fused ids give distinct kept ids |
| HybridRetrieval.SearchFailsIff | retrieval/hybrid_retriever.py:117-120 | search fails iff a top BM25 position lies beyond `vector_ids`, and then with IndexError |
| HybridRetrieval.SearchResultSpec | retrieval/hybrid_retriever.py:123-135 | a successful search returns at most `top_k` fetched rows, one per fused id that has a row, in fusion order, with no id repeated |
| HybridRetrieval.AlignedSearchSucceeds | retrieval/hybrid_retriever.py:114-120 | when `vector_ids` is as long as the corpus, search cannot fail |
| HybridRetrieval.NothingRankedNoRows | retrieval/hybrid_retriever.py:123-126 | when neither method ranks anything, search returns [] |
| HybridRetrieval.HybridRetriever.constructor | retrieval/hybrid_retriever.py:15-33 | the retriever keeps `top_k` and `rrf_k` and loads the BM25 corpus |
| HybridRetrieval.HybridRetriever.LoadBm25Index | retrieval/hybrid_retriever.py:35-64 | loading sets `chunk_map`, the corpus and `vector_ids` (the map's key order) as specified |
| HybridRetrieval.HybridRetriever.ReciprocalRankFusion | retrieval/hybrid_retriever.py:68-93 | both scoring loops, the stable sort and the cut give the specified fusion: distinct ids, all ranked by some method |
| HybridRetrieval.HybridRetriever.Search | retrieval/hybrid_retriever.py:95-135 | search equals the specified outcome over `min(20, ntotal)` candidates per method, cannot fail when the corpus is aligned, and returns at most `top_k` rows |
| QueryExpansion.ExpansionTerms | generation/query_processor.py:72 | the candidates are the first min(3, n) words of the expansion, in order |
| QueryExpansion.NewTermsIff | generation/query_processor.py:73-76 | the words added from one entry are exactly its words not already in the query |
| QueryExpansion.EntryTermsIff | generation/query_processor.py:70-76 | an entry contributes t iff its keyword matches, t is among its first three words, and t is not in the query |
| QueryExpansion.CandidatesOfIff | generation/query_processor.py:68-76 | a term is collected iff some table entry offers it |
| QueryExpansion.CandidatesIff | generation/query_processor.py:64-76 | the same, over the whole keyword table |
| QueryExpansion.CandidatesOfStep | generation/query_processor.py:68-76 | visiting one more entry adds exactly that entry's terms |
| QueryExpansion.NewTermsStep | generation/query_processor.py:73-76 | visiting one more word adds it iff it is not in the query |
| QueryExpansion.ExpandWith | generation/query_processor.py:79-83 | the original query is always a prefix of the result, and the result equals it iff no term is chosen |
| QueryExpansion.UnchangedIff | generation/query_processor.py:78-83 | the query comes back unchanged iff no term qualifies |
| QueryExpansion.AddEntryTerms | generation/query_processor.py:70-76 | the inner loop adds exactly the entry's qualifying terms |
| QueryExpansion.CollectTerms | generation/query_processor.py:64-76 | the table walk yields exactly the candidate set |
| QueryExpansion.FirstTerms | generation/query_processor.py:80 | `list(set)[:5]` gives min(5, size) distinct members of the set |
| QueryExpansion.ExpandQuery | generation/query_processor.py:60-83 | the result is the original, then a space and min(5, number of candidates) distinct candidates joined by spaces, or the original when there are none |
| QueryExpansion.NoMatchByChar | generation/query_processor.py:70 | a keyword holding a character that the query lacks in both cases does not match |
| PerformanceMetrics.RelevantInTopK | evaluation/performance_metrics.py:15-16 | the relevant count is at most the number of relevant documents and at most the length of `retrieved[:k]` |
| PerformanceMetrics.PrecisionAtK | evaluation/performance_metrics.py:13-17 | precision@k lies in [0, 1] and is 0 when k ≤ 0 |
| PerformanceMetrics.PrecisionShortList | evaluation/performance_metrics.py:13-17 | with fewer than k documents the denominator stays k, so precision ≤ len/k < 1 |
| PerformanceMetrics.RecallAtK | evaluation/performance_metrics.py:20-24 | recall@k lies in [0, 1] and is 0 when nothing is relevant |
| PerformanceMetrics.RecallFullIff | evaluation/performance_metrics.py:20-24 | recall is 1 iff every relevant document is in the top k |
| PerformanceMetrics.F1Ordered | evaluation/performance_metrics.py:27-35 | for p ≤ r with p + r ≠ 0, p ≤ F1 ≤ r |
| PerformanceMetrics.F1Between | evaluation/performance_metrics.py:27-35 | F1 lies between min(p, r) and max(p, r) |
| PerformanceMetrics.F1AtK | evaluation/performance_metrics.py:27-35 | F1@k lies in [0, 1], is 0 when p + r = 0, and otherwise lies between precision and recall |
| PerformanceMetrics.F1 | evaluation/performance_metrics.py:31-34 | the harmonic combination is 0 when either precision or recall is 0, and equals their common value when they agree |
| PerformanceMetrics.Hits | evaluation/performance_metrics.py:54-56 | there are no more hits than documents |
| PerformanceMetrics.AveragePrecision | evaluation/performance_metrics.py:38-68 | the loop computes the specified average precision, including the early 0 returns |
| PerformanceMetrics.PrecisionSumBounds | evaluation/performance_metrics.py:54-59 | the sum of precisions at hits lies between 0 and the number of hits |
| PerformanceMetrics.HitsDistinct | evaluation/performance_metrics.py:54-56 | without repeats, hits count the relevant documents retrieved |
| PerformanceMetrics.AveragePrecisionBounds | evaluation/performance_metrics.py:38-68 | without repeats, average precision lies in [0, 1] |
| PerformanceMetrics.AveragePrecisionRepeat | evaluation/performance_metrics.py:54-68 | with repeats, the bound fails: ["a","a"] against {"a"} gives 2 |
| PerformanceMetrics.AveragePrecisionZeroIff | evaluation/performance_metrics.py:47-68 | average precision is 0 iff no relevant document is retrieved |
| PerformanceMetrics.PositiveSum | evaluation/performance_metrics.py:54-59 | a single hit makes the sum of precisions positive |
| PerformanceMetrics.FirstRelevant | evaluation/performance_metrics.py:99-101 | returns the first position holding a relevant document, or the length if there is none |
| PerformanceMetrics.ReciprocalRankOf | evaluation/performance_metrics.py:97-102 | RR lies in [0, 1]; it is 0 iff nothing relevant is retrieved, and 1 iff the first document is relevant |
| PerformanceMetrics.ReciprocalRank | evaluation/performance_metrics.py:97-102 | the early-return loop computes RR |
| PerformanceMetrics.CalculateAllMetrics | evaluation/performance_metrics.py:105-117 | each field is its metric on the same inputs; precision, recall and F1 lie in [0, 1] |
| PerformanceMetrics.WorkedExampleOne | evaluation/performance_metrics.py:127-129 | test 1 gives precision 0.6, recall 1, F1 0.75 and RR 1 |
| PerformanceMetrics.WorkedExampleOneAveragePrecision | evaluation/performance_metrics.py:127-129 | test 1 gives average precision 1 |
| PerformanceMetrics.WorkedExampleTwo | evaluation/performance_metrics.py:137-139 | test 2 gives precision 0.4, recall 2/3, F1 0.5 and RR 1/2 |
| PerformanceMetrics.WorkedExampleTwoAveragePrecision | evaluation/performance_metrics.py:137-139 | test 2 gives average precision 1/3 |
| Seqs.FirstOccurrencesSpec | evaluation/retrieval_metrics.py:44-50 | deduplication has no repeats, has the same documents as the raw list, and is no longer than it |
| Seqs.FirstOccurrencesIdentityIff | evaluation/retrieval_metrics.py:44-50 | deduplication changes nothing iff there were no repeats |
| Seqs.FirstOccurrencesOrdered | evaluation/retrieval_metrics.py:44-50 | deduplicated documents keep the order of their first ranks |
| RetrievalEvaluation.FirstOccurrencesStep | evaluation/retrieval_metrics.py:47-50 | one more raw document is appended iff it was not seen yet |
| RetrievalEvaluation.DedupDocuments | evaluation/retrieval_metrics.py:44-50 | the loop keeps first occurrences: no repeats, same documents, never longer |
| RetrievalEvaluation.HitIff | evaluation/retrieval_metrics.py:54 | a query is a hit iff some retrieved chunk comes from a relevant document; deduplication does not change that |
| RetrievalEvaluation.HitCount | evaluation/retrieval_metrics.py:56-57 | the hits never exceed the queries |
| RetrievalEvaluation.HitCountStep | evaluation/retrieval_metrics.py:56-57 | one more query adds a hit iff it is one |
| RetrievalEvaluation.ColumnPrefixStep | evaluation/retrieval_metrics.py:67-71 | one more query appends its metric |
| RetrievalEvaluation.EvaluateQuery | evaluation/retrieval_metrics.py:44-64 | the loop body's hit flag and metrics are those of the deduplicated documents |
| RetrievalEvaluation.MeanBounds | evaluation/retrieval_metrics.py:88-92 | the mean of values in [lo, hi] lies in [lo, hi] |
| RetrievalEvaluation.QueryMetricsBounds | evaluation/retrieval_metrics.py:60-64 | every per-query metric lies in [0, 1]; average precision does because of deduplication |
| RetrievalEvaluation.ColumnMeanBounds | evaluation/retrieval_metrics.py:88-92 | `avg_precision`, `avg_recall`, `avg_f1` and `map` lie in [0, 1] |
| RetrievalEvaluation.CalculateHitRate | evaluation/retrieval_metrics.py:17-94 | no queries raises ZeroDivisionError; otherwise hit_rate is 100·hits/total in [0, 100], hits ≤ total, and the averages are the means of the per-query metrics |
| RetrievalEvaluation.FirstRelevantAt | evaluation/retrieval_metrics.py:115-124 | a relevant document right after an irrelevant prefix has rank = prefix length + 1 |
| RetrievalEvaluation.FirstRelevantRank | evaluation/retrieval_metrics.py:110-124 | the skipping loop finds the 1-based rank of the first relevant document among the deduplicated ones, or 0 |
| RetrievalEvaluation.QueryReciprocalRank | evaluation/retrieval_metrics.py:126-129 | a query's recorded value is `reciprocal_rank` of its deduplicated documents, in [0, 1] |
| RetrievalEvaluation.ReciprocalRanks | evaluation/retrieval_metrics.py:100-129 | `reciprocal_ranks` has one value per query, in order |
| RetrievalEvaluation.CalculateMrr | evaluation/retrieval_metrics.py:96-132 | no queries raises ZeroDivisionError; otherwise MRR is 100 × the mean reciprocal rank, in [0, 100] |
| Text.Lower | generation/query_processor.py:65 | lower-casing keeps the length and maps each character on its own |
| Text.Split | generation/query_processor.py:72 | split words are non-empty and contain no whitespace; SplitEmpty, SplitLeadingSpace, SplitWord and SplitAtSpace fix the words of every string |
| Text.SplitEmpty | generation/query_processor.py:72 | the empty string has no words |
| Text.SplitLeadingSpace | retrieval/hybrid_retriever.py:110 | a leading whitespace character adds no word: the words of `c + v` are the words of `v` |
| Text.SplitWord | retrieval/hybrid_retriever.py:54 | a non-empty string with no whitespace splits into exactly itself |
| Text.SplitAtSpace | retrieval/hybrid_retriever.py:110 | any whitespace character, the separators U+001C–U+001F included, ends the word before it: the words of `u + c + v` are `u` followed by the words of `v` |
| Text.StripRemovesSeparators | indexing/text_chunker.py:22 | stripping removes the information separators at both ends, as `"\x1ca\x1f".strip() == "a"` |
| Text.Strip | indexing/text_chunker.py:22 | a stripped string is no longer than the input and neither starts nor ends with whitespace |
| Text.StripSpec | indexing/text_chunker.py:22 | the result is the slice of the input that starts after its leading whitespace, and only whitespace follows it: strip removes the whitespace at the two ends and nothing else |
| Text.StripIdempotent | indexing/text_chunker.py:37 | stripping an already stripped chunk changes nothing |
| Text.JoinShape | service/rag_service.py:64 | a join starts with the first part, ends with the last, and is as long as the parts plus one separator per gap |
| Text.JoinSplit | service/rag_service.py:64 | cutting the parts at any gap cuts the join there: the join of the first i parts, one separator, then the join of the rest |
| Text.JoinEmptyIff | service/rag_service.py:64 | joining non-empty parts gives "" only when there are no parts |
| Text.NumberedInOrder | generation/prompt_builder.py:7-14 | block i follows directly after the blocks before it in the concatenated context |
| Text.NumberedEmptyIff | retrieval/hybrid_retrieval_pipeline.py:10-15 | a context of non-empty blocks is empty iff there are no chunks |
| Text.NatToStringInjective | indexing/text_chunker.py:43 | distinct numbers print differently |
| Text.IntToStringInjective | service/rag_service.py:49 | distinct integers print differently |
| TextChunking.WindowCount | indexing/text_chunker.py:19-23 | the window count is the ceiling of length / step, and is 0 iff the text is empty |
| TextChunking.WindowCountUnique | indexing/text_chunker.py:19-23 | any count with the ceiling's two bounds is that ceiling |
| TextChunking.WindowsStep | indexing/text_chunker.py:19-23 | one more iteration appends the next stripped window |
| TextChunking.ChunkText | indexing/text_chunker.py:7-28 | when overlap < chunk_size or the text is empty, the loop terminates and returns exactly the specified chunks; empty text gives [] |
| TextChunking.ChunkShape | indexing/text_chunker.py:20-22 | no chunk is longer than chunk_size, and stripping a chunk again changes nothing |
| TextChunking.WindowOverlap | indexing/text_chunker.py:20-23 | a window ending inside the text shares its last `overlap` characters with the start of the next one |
| TextChunking.ChunksCoverText | indexing/text_chunker.py:19-23 | with 0 ≤ overlap < chunk_size no character is skipped: each lies in the window of some returned chunk |
| TextChunking.ChunkIdInjective | indexing/text_chunker.py:43 | within one document, different window indices give different chunk ids |
| TextChunking.KeptIndices | indexing/text_chunker.py:36-39 | the surviving window indices increase and are exactly those whose stripped chunk is long enough |
| TextChunking.KeptRecordsSpec | indexing/text_chunker.py:34-46 | record k is the k-th kept chunk, named after its window index before filtering, with its document's id and source |
| TextChunking.KeptRecordsDistinctIds | indexing/text_chunker.py:36-43 | chunk ids within one document are distinct, and every kept text is at least min_chunk_length long |
| TextChunking.AllChunksFromDocuments | indexing/text_chunker.py:41-46 | every record copies the id and source of some input document |
| TextChunking.AllChunks | indexing/text_chunker.py:31-48 | every record of `chunk_documents` has at least `min_chunk_length` characters |
| TextChunking.KeepChunks | indexing/text_chunker.py:36-46 | the inner loop keeps the specified records |
| TextChunking.ChunkDocuments | indexing/text_chunker.py:31-48 | the records are each document's kept chunks, documents in order |
| VectorIndexing.VectorIndexer.constructor | indexing/vector_indexer.py:11-16 | a new indexer holds an empty index |
| VectorIndexing.VectorIndexer.AddVectors | indexing/vector_indexer.py:18-30 | for vectors of dimension 1024, ntotal grows by exactly m and the ids n0 … n0+m−1 are returned |
| VectorIndexing.RangeAppend | indexing/vector_indexer.py:25-30 | adjacent id ranges join into one range |
| VectorIndexing.BatchIds | indexing/vector_indexer.py:25-30 | batch i of a fresh index receives the ids from the total size of the batches before it up to that total plus its own size |
| VectorIndexing.BatchIdsContiguous | indexing/vector_indexer.py:25-30 | successive batches into a fresh index get one contiguous, repeat-free range from 0 |
| VectorIndexing.IndexBatches | indexing/vector_indexer.py:10-30 | `add_vectors` called once per batch on a fresh indexer returns for each call its slot of BatchIds, numbers all vectors 0, 1, 2, … without gaps, and leaves all batches in the index in order |
| VectorIndexing.AddNextBatch | indexing/vector_indexer.py:18-30 | one more call appends the next batch and records its block of ids |
| RagPromptBuilder.Block | generation/prompt_builder.py:10-14 | every block is non-empty |
| RagPromptBuilder.BlockShape | generation/prompt_builder.py:10-14 | block i opens with "--- Document i+1 ---" and the source line, and ends with the content; a section line sits between iff `page_or_section` is truthy |
| RagPromptBuilder.PromptDeterminesQuestion | generation/prompt_builder.py:17-33 | for one context, different queries give different prompts: the query can be read back from the template |
| RagPromptBuilder.PromptDeterminesContext | generation/prompt_builder.py:17-33 | for one query, different contexts give different prompts |
| RagPromptBuilder.AppendBlock | generation/prompt_builder.py:10-14 | one iteration appends exactly block i |
| RagPromptBuilder.BuildRagPrompt | generation/prompt_builder.py:3-35 | the prompt is the template around the in-order concatenation of the blocks |
| RagPromptBuilder.NoChunksPrompt | generation/prompt_builder.py:7-33 | with no chunks the prompt holds "CONTEXT:\n\n\nQUESTION:\n<query>\n\nANSWER:" |
| HybridPipeline.Block | retrieval/hybrid_retrieval_pipeline.py:13-15 | every block is non-empty |
| HybridPipeline.BlockShape | retrieval/hybrid_retrieval_pipeline.py:13-15 | block i opens with "--- Chunk i+1 ---" and the document line, and ends with the chunk text |
| HybridPipeline.PromptDeterminesQuestion | retrieval/hybrid_retrieval_pipeline.py:17-29 | for one context, different queries give different prompts |
| HybridPipeline.PromptDeterminesContext | retrieval/hybrid_retrieval_pipeline.py:17-29 | for one query, different contexts give different prompts |
| HybridPipeline.AppendBlock | retrieval/hybrid_retrieval_pipeline.py:13-15 | one iteration appends exactly block i |
| HybridPipeline.BuildPrompt | retrieval/hybrid_retrieval_pipeline.py:6-30 | the prompt is the template around the in-order concatenation of the blocks |
| HybridPipeline.NoChunksPrompt | retrieval/hybrid_retrieval_pipeline.py:10-29 | with no chunks, nothing sits between "CONTEXT:\n" and "\n\nQUESTION:" |
| HybridPipeline.Run | retrieval/hybrid_retrieval_pipeline.py:45-64 | no chunks gives the fixed message; otherwise the chunks come back unchanged with the prompt for the unexpanded query |
| RagServing.Part | service/rag_service.py:60-63 | every part is non-empty |
| RagServing.PartShape | service/rag_service.py:62 | part i is "[Document i+1] <document_name>\n" followed by the chunk text |
| RagServing.ContextOf | service/rag_service.py:57-64 | the context is "" iff there are no rows |
| RagServing.ContextShape | service/rag_service.py:64 | the context starts with the first part and ends with the last; at every gap between parts it is the join of the parts before, one blank-line separator, then the join of the parts after |
| RagServing.BuildContext | service/rag_service.py:57-64 | the loop and join build the specified context |
| RagServing.BuildPromptDeterminesQuestion | service/rag_service.py:66-76 | for one context, different questions give different prompts |
| RagServing.BuildPromptDeterminesContext | service/rag_service.py:66-76 | for one question, different contexts give different prompts |
| RagServing.SourcesDistinctIds | service/rag_service.py:47-53 | the sources repeat a chunk id iff the rows do |
| RagServing.Query | service/rag_service.py:16-55 | the answer is the model's reply to the prompt built from the rows fetched for the effective `top_k`, and the sources are those rows' sources |

## Left out

- FAISS search, BM25Okapi scoring and `np.argsort` are third-party code. Their outputs are inputs: FAISS's `indices[0]` and the BM25 positions in descending-score order. The tie order of `argsort` is any permutation.
- The metadata store (`fetch_by_vector_ids`, `get_chunk_metadata`, the `SELECT` of `_load_bm25_index`), embedding, FAISS search in the service and the LLM call are function parameters or given rows. MySQL, SQLite, HTTP and the model servers are not part of this model.
- Floating point: RRF scores and the metrics are exact reals, so float rounding and float ties may differ from the source.
- `ndcg_at_k` and the `avg_ndcg` field are not modelled; they rely on `np.log2` in floating point.
- `str.lower`, `str.split` and `str.strip` are modelled on ASCII: case folding of A–Z, and as whitespace the ASCII characters Python counts (space, tab, line feed, carriage return, vertical tab, form feed and the separators U+001C–U+001F). Unicode case mapping and non-ASCII whitespace (such as U+0085, U+00A0 or U+3000) are not modelled.
- `list(expanded_terms)[:5]` depends on set iteration order. The model allows any min(5, n) distinct candidates.
- QueryExpansion.ExpandQuery: the worked example `expand_query("transformer")` is not proved. It would mean evaluating the 39-entry keyword table literally; NoMatchByChar states the general reason other keywords do not match.
- HybridRetrieval.HybridRetriever: `rrf_k` is a natural number. A negative `rrf_k`, which could divide by zero, is not modelled.
- `save_index`, `load_index` and `get_index` of `VectorIndexer` are file I/O and are not modelled. The `float32` cast in `add_vectors` is not modelled, and vectors are sequences of reals.
- The `details` list and the per-query `results` of `calculate_hit_rate` are not modelled. Neither are the `print` calls, `run_evaluation` and the script code at the end of the chunker file.
- `chunk.get('page_or_section')` is modelled as an optional string. It counts as truthy when present and non-empty.
- TextChunking.ChunkText requires overlap < chunk_size unless the text is empty. With overlap ≥ chunk_size on a non-empty text the source loop never advances and does not terminate; on an empty text it returns [] for any overlap, and so does the model.
- PerformanceMetrics.AveragePrecisionBounds requires distinct retrieved documents. The source's doc-comment claims the range [0, 1] for every input, but repeats break it: AveragePrecisionRepeat shows ["a","a"] against {"a"} giving 2. The evaluator always passes deduplicated lists, so its averages stay in [0, 1].
- HybridRetrieval.HybridRetriever.Search takes `top_k` as any integer, with Python slicing for negative values. The FAISS result is assumed to have exactly `min(20, ntotal)` slots.
- The HybridRetrievalPipeline's embedding and retriever call are not modelled: `run` receives the retrieved chunks.
- VectorIndexing.VectorIndexer.AddVectors requires 1024-dimensional vectors given as an (n, 1024) array. The errors that NumPy or FAISS raise on other shapes (ragged input, another dimension) are not modelled.
- Default arguments are explicit parameters: `top_k=5` and `rrf_k=60` of `HybridRetriever`, `min_chunk_length=100` of `chunk_documents`, `top_k=10` of the evaluator, and `k=5` of the per-list metrics. `chunk_text`'s defaults 500 and 100 are the window that `chunk_documents` uses.
