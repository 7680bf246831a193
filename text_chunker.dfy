/**
 * The sliding-window chunker: `chunk_text` cuts a text into overlapping windows,
 * `chunk_documents` keeps the long enough ones and names them after their document.
 */
module TextChunking {
  import opened Seqs
  import opened Text

  const DefaultChunkSize: int := 500
  const DefaultOverlap: int := 100

  /** The loop advances `start` by this much; it terminates only when it is positive. */
  function Step(chunkSize: int, overlap: int): int {
    chunkSize - overlap
  }

  /** The number of windows over a text of length len: the ceiling of len / step. */
  function WindowCount(len: nat, step: int): (c: nat)
    requires step > 0
    ensures c * step >= len
    ensures c > 0 ==> (c - 1) * step < len
    ensures len == 0 <==> c == 0
  {
    var c := (len + step - 1) / step;
    var r := (len + step - 1) % step;
    assert c * step + r == len + step - 1;
    c
  }

  /** A count with both properties above is that ceiling. */
  lemma WindowCountUnique(len: nat, step: int, c: nat)
    requires step > 0
    requires c * step >= len && (c > 0 ==> (c - 1) * step < len)
    ensures c == WindowCount(len, step)
  {
    var w := WindowCount(len, step);
    if c < w {
      MulMonotone(c, w - 1, step);
    } else if w < c {
      MulMonotone(w, c - 1, step);
    }
  }

  lemma MulSucc(i: int, m: int)
    ensures (i + 1) * m == i * m + m
  {
  }

  lemma MulMonotone(a: nat, b: nat, m: int)
    requires a <= b && m > 0
    ensures a * m <= b * m
  {
    assert b * m == a * m + (b - a) * m;
  }

  /** Window j before stripping: Python's `text[j*step : j*step + chunk_size]`. */
  function Window(text: string, j: int, chunkSize: int, overlap: int): string {
    var start := j * Step(chunkSize, overlap);
    Slice(text, start, start + chunkSize)
  }

  /**
   * What `chunk_text` returns: one stripped window per start position 0, step, 2*step, ...
   * below the length. An empty text gives no windows whatever the overlap; on any other
   * text the loop ends only when the step is positive.
   */
  function ChunksOf(text: string, chunkSize: int, overlap: int): (r: seq<string>)
    requires overlap < chunkSize || text == []
    ensures text == [] ==> r == []
    ensures text != [] ==> |r| == WindowCount(|text|, Step(chunkSize, overlap))
    ensures forall j :: 0 <= j < |r| ==> r[j] == Strip(Window(text, j, chunkSize, overlap))
  {
    if text == [] then []
    else Windows(text, chunkSize, overlap, WindowCount(|text|, Step(chunkSize, overlap)))
  }

  /** The first n stripped windows. */
  function Windows(text: string, chunkSize: int, overlap: int, n: nat): (r: seq<string>)
    ensures |r| == n
    ensures forall j :: 0 <= j < n ==> r[j] == Strip(Window(text, j, chunkSize, overlap))
  {
    seq(n, j => Strip(Window(text, j, chunkSize, overlap)))
  }

  /** One window more. */
  lemma WindowsStep(text: string, chunkSize: int, overlap: int, n: nat)
    ensures Windows(text, chunkSize, overlap, n + 1) == Windows(text, chunkSize, overlap, n) + [Strip(Window(text, n, chunkSize, overlap))]
  {
  }

  /** `chunk_text`: advance a window over the text until its start passes the end. */
  method ChunkText(text: string, chunkSize: int, overlap: int) returns (chunks: seq<string>)
    requires overlap < chunkSize || text == []
    ensures chunks == ChunksOf(text, chunkSize, overlap)
    ensures text == [] ==> chunks == []
  {
    ghost var step := Step(chunkSize, overlap);
    chunks := [];
    var start := 0;
    var textLength := |text|;
    while start < textLength
      invariant text == [] ==> chunks == []
      invariant start == |chunks| * step
      invariant |chunks| > 0 ==> (|chunks| - 1) * step < textLength
      invariant chunks == Windows(text, chunkSize, overlap, |chunks|)
      decreases textLength - start
    {
      ghost var i := |chunks|;
      var end := start + chunkSize;
      var chunk := Slice(text, start, end);
      assert chunk == Window(text, i, chunkSize, overlap);
      WindowsStep(text, chunkSize, overlap, i);
      chunks := chunks + [Strip(chunk)];
      start := end - overlap;
      MulSucc(i, step);
      if start < 0 {
        start := 0;
      }
    }
    if text != [] {
      WindowCountUnique(textLength, step, |chunks|);
    }
  }

  /** Python slicing never yields more than b - a elements. */
  lemma SliceLength<T>(s: seq<T>, a: int, b: int)
    requires 0 <= a <= b
    ensures |Slice(s, a, b)| <= b - a
  {
  }

  /** No chunk is longer than chunk_size, and every chunk is free of surrounding whitespace. */
  lemma ChunkShape(text: string, chunkSize: int, overlap: int, j: nat)
    requires 0 <= chunkSize && overlap < chunkSize
    requires j < |ChunksOf(text, chunkSize, overlap)|
    ensures |ChunksOf(text, chunkSize, overlap)[j]| <= chunkSize
    ensures Strip(ChunksOf(text, chunkSize, overlap)[j]) == ChunksOf(text, chunkSize, overlap)[j]
  {
    var start := j * Step(chunkSize, overlap);
    MulMonotone(0, j, Step(chunkSize, overlap));
    SliceLength(text, start, start + chunkSize);
    StripIdempotent(Window(text, j, chunkSize, overlap));
  }

  /** A window that ends inside the text shares its last `overlap` characters with the start of the next one. */
  lemma WindowOverlap(text: string, chunkSize: int, overlap: int, j: nat)
    requires 0 <= overlap < chunkSize
    requires j * Step(chunkSize, overlap) + chunkSize <= |text|
    ensures |Window(text, j, chunkSize, overlap)| == chunkSize
    ensures |Window(text, j + 1, chunkSize, overlap)| >= overlap
    ensures Window(text, j, chunkSize, overlap)[Step(chunkSize, overlap)..] ==
            Window(text, j + 1, chunkSize, overlap)[..overlap]
  {
    var step := Step(chunkSize, overlap);
    var a := j * step;
    MulMonotone(0, j, step);
    assert (j + 1) * step == a + step;
    var window := Window(text, j, chunkSize, overlap);
    var next := Window(text, j + 1, chunkSize, overlap);
    assert window == text[a..a + chunkSize];
    SliceClamp(text, a + step, a + step + chunkSize);
    assert next == text[a + step..Min(a + step + chunkSize, |text|)];
    assert window[step..] == text[a + step..a + chunkSize];
    assert next[..overlap] == text[a + step..a + chunkSize];
  }

  /** Character p of the text sits in window j, at its offset from the window's start. */
  predicate InWindow(text: string, chunkSize: int, overlap: int, j: nat, p: nat)
    requires p < |text|
  {
    var start := j * Step(chunkSize, overlap);
    var w := Window(text, j, chunkSize, overlap);
    start <= p && p - start < |w| && w[p - start] == text[p]
  }

  /** Euclidean division puts p in the block of width m that starts at (p / m) * m. */
  lemma DivBlock(p: nat, m: int)
    requires m > 0
    ensures (p / m) * m <= p < (p / m) * m + m
  {
  }

  /**
   * With a non-negative overlap nothing is skipped: every character of the text lies in
   * the window of some chunk.
   */
  lemma ChunksCoverText(text: string, chunkSize: int, overlap: int, p: nat)
    requires 0 <= overlap < chunkSize
    requires p < |text|
    ensures exists j :: 0 <= j < |ChunksOf(text, chunkSize, overlap)| && InWindow(text, chunkSize, overlap, j, p)
  {
    var step := Step(chunkSize, overlap);
    var j := p / step;
    var start := j * step;
    DivBlock(p, step);
    var c := WindowCount(|text|, step);
    if c <= j {
      MulMonotone(c, j, step);
    }
    MulMonotone(0, j, step);
    SliceClamp(text, start, start + chunkSize);
    assert InWindow(text, chunkSize, overlap, j, p);
  }

  /** A slice that starts inside the sequence runs to its end bound or to the end of the sequence. */
  lemma SliceClamp<T>(s: seq<T>, a: int, b: int)
    requires 0 <= a <= |s| && a <= b
    ensures Slice(s, a, b) == s[a..Min(b, |s|)]
  {
  }

  /** One document as `load_documents` yields it. */
  datatype Document = Document(docId: string, text: string, source: string)

  /** One record of `all_chunks`. */
  datatype ChunkRecord = ChunkRecord(docId: string, chunkId: string, text: string, source: string)

  /** `f"{doc_id}_{i}"`. */
  function ChunkId(docId: string, i: nat): string {
    docId + "_" + NatToString(i)
  }

  /** Within one document, different window indices give different chunk ids. */
  lemma ChunkIdInjective(docId: string, i: nat, k: nat)
    requires ChunkId(docId, i) == ChunkId(docId, k)
    ensures i == k
  {
    var p := docId + "_";
    assert NatToString(i) == ChunkId(docId, i)[|p|..];
    assert NatToString(k) == ChunkId(docId, k)[|p|..];
    NatToStringInjective(i, k);
  }

  function Record(doc: Document, i: nat, chunk: string): ChunkRecord {
    ChunkRecord(doc.docId, ChunkId(doc.docId, i), chunk, doc.source)
  }

  predicate Kept(chunk: string, minChunkLength: int) {
    |Strip(chunk)| >= minChunkLength
  }

  /** The records of one document's chunks that survive the length filter, in window order. */
  function KeptRecords(doc: Document, chunks: seq<string>, minChunkLength: int): seq<ChunkRecord> {
    if chunks == [] then []
    else
      var i := |chunks| - 1;
      KeptRecords(doc, chunks[..i], minChunkLength) +
        (if Kept(chunks[i], minChunkLength) then [Record(doc, i, Strip(chunks[i]))] else [])
  }

  /** The window indices that survive the filter, increasing. */
  function KeptIndices(chunks: seq<string>, minChunkLength: int): (r: seq<nat>)
    ensures forall k :: 0 <= k < |r| ==> r[k] < |chunks|
    ensures forall k, l :: 0 <= k < l < |r| ==> r[k] < r[l]
    ensures forall i :: 0 <= i < |chunks| ==> (i in r <==> Kept(chunks[i], minChunkLength))
  {
    if chunks == [] then []
    else
      var i := |chunks| - 1;
      KeptIndices(chunks[..i], minChunkLength) + (if Kept(chunks[i], minChunkLength) then [i] else [])
  }

  /**
   * The kept records are exactly the long enough chunks, in window order, each named
   * after its window index before filtering and carrying its document's id and source.
   */
  lemma {:induction false} KeptRecordsSpec(doc: Document, chunks: seq<string>, minChunkLength: int)
    ensures |KeptRecords(doc, chunks, minChunkLength)| == |KeptIndices(chunks, minChunkLength)|
    ensures forall k :: 0 <= k < |KeptIndices(chunks, minChunkLength)| ==>
      var i := KeptIndices(chunks, minChunkLength)[k];
      KeptRecords(doc, chunks, minChunkLength)[k] == Record(doc, i, Strip(chunks[i]))
  {
    if chunks != [] {
      var i := |chunks| - 1;
      KeptRecordsSpec(doc, chunks[..i], minChunkLength);
    }
  }

  /** Chunk ids are distinct within one document, and every record is long enough. */
  lemma KeptRecordsDistinctIds(doc: Document, chunks: seq<string>, minChunkLength: int)
    ensures forall k, l :: 0 <= k < l < |KeptRecords(doc, chunks, minChunkLength)| ==>
      KeptRecords(doc, chunks, minChunkLength)[k].chunkId != KeptRecords(doc, chunks, minChunkLength)[l].chunkId
    ensures forall k :: 0 <= k < |KeptRecords(doc, chunks, minChunkLength)| ==>
      |KeptRecords(doc, chunks, minChunkLength)[k].text| >= minChunkLength
  {
    var recs := KeptRecords(doc, chunks, minChunkLength);
    var idx := KeptIndices(chunks, minChunkLength);
    KeptRecordsSpec(doc, chunks, minChunkLength);
    forall k, l | 0 <= k < l < |recs|
      ensures recs[k].chunkId != recs[l].chunkId
    {
      if recs[k].chunkId == recs[l].chunkId {
        ChunkIdInjective(doc.docId, idx[k], idx[l]);
      }
    }
    forall k | 0 <= k < |recs|
      ensures |recs[k].text| >= minChunkLength
    {
      assert idx[k] in idx;
    }
  }

  /** What `chunk_documents` returns: each document's kept records, documents in order. Every record is long enough. */
  function AllChunks(docs: seq<Document>, minChunkLength: int): (r: seq<ChunkRecord>)
    ensures forall k :: 0 <= k < |r| ==> |r[k].text| >= minChunkLength
  {
    if docs == [] then []
    else
      var d := docs[|docs| - 1];
      var recs := KeptRecords(d, ChunksOf(d.text, DefaultChunkSize, DefaultOverlap), minChunkLength);
      KeptRecordsDistinctIds(d, ChunksOf(d.text, DefaultChunkSize, DefaultOverlap), minChunkLength);
      AllChunks(docs[..|docs| - 1], minChunkLength) + recs
  }

  /** Every record comes from some input document, whose id and source it copies. */
  lemma {:induction false} AllChunksFromDocuments(docs: seq<Document>, minChunkLength: int)
    ensures forall r :: r in AllChunks(docs, minChunkLength) ==>
      exists d :: d in docs && r.docId == d.docId && r.source == d.source
  {
    if docs != [] {
      var p := docs[..|docs| - 1];
      var d := docs[|docs| - 1];
      AllChunksFromDocuments(p, minChunkLength);
      var recs := KeptRecords(d, ChunksOf(d.text, DefaultChunkSize, DefaultOverlap), minChunkLength);
      KeptRecordsSpec(d, ChunksOf(d.text, DefaultChunkSize, DefaultOverlap), minChunkLength);
      forall r | r in AllChunks(docs, minChunkLength)
        ensures exists e :: e in docs && r.docId == e.docId && r.source == e.source
      {
        if r in AllChunks(p, minChunkLength) {
          var e :| e in p && r.docId == e.docId && r.source == e.source;
          assert e in docs;
        } else {
          assert r in recs;
          assert d in docs;
        }
      }
    }
  }

  /** The inner loop of `chunk_documents`: keep one document's long enough chunks as records. */
  method KeepChunks(doc: Document, chunks: seq<string>, minChunkLength: int) returns (records: seq<ChunkRecord>)
    ensures records == KeptRecords(doc, chunks, minChunkLength)
  {
    records := [];
    for i := 0 to |chunks|
      invariant records == KeptRecords(doc, chunks[..i], minChunkLength)
    {
      assert chunks[..i + 1][..i] == chunks[..i];
      var chunk := Strip(chunks[i]);
      if |chunk| < minChunkLength {
        continue;
      }
      records := records + [ChunkRecord(doc.docId, ChunkId(doc.docId, i), chunk, doc.source)];
    }
    assert chunks[..|chunks|] == chunks;
  }

  /** `chunk_documents`: chunk every document with the default window, keep long enough chunks. */
  method ChunkDocuments(docs: seq<Document>, minChunkLength: int) returns (allChunks: seq<ChunkRecord>)
    ensures allChunks == AllChunks(docs, minChunkLength)
  {
    allChunks := [];
    for n := 0 to |docs|
      invariant allChunks == AllChunks(docs[..n], minChunkLength)
    {
      assert docs[..n + 1][..n] == docs[..n];
      var doc := docs[n];
      var chunks := ChunkText(doc.text, DefaultChunkSize, DefaultOverlap);
      var records := KeepChunks(doc, chunks, minChunkLength);
      allChunks := allChunks + records;
    }
    assert docs[..|docs|] == docs;
  }
}
