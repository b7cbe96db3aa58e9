/**
 * The indexing passes: for each file in order and each chunk index in increasing order,
 * embed the chunk and add a record to the vector store. A failure at one chunk is caught
 * and the pass goes on with the next chunk.
 */
module Indexing {
  import opened Wrappers
  import opened Chunker
  import opened Services
  import opened Files
  import opened Text

  /** What happened to one chunk: stored with this embedding, or `infer` or `addVector` threw. */
  datatype ChunkOutcome = Inserted(embedding: Embedding) | EmbedFailed(cause: string) | AddFailed(cause: string)

  /** The chunks of a file, as every pass computes them. */
  function ChunksOf(file: File): seq<string> {
    ChunkText(file.content, DefaultChunkSize)
  }

  /** The record the pass builds for chunk `i` of `file`. */
  function RecordFor(file: File, chunks: seq<string>, i: nat, e: Embedding): VectorRecord
    requires i < |chunks|
  {
    VectorRecord(e, chunks[i], Metadata(file.name, file.id, i))
  }

  /**
   * The records a pass over `file` appends once its first `|outcomes|` chunks have been tried:
   * one per inserted chunk, in chunk order.
   */
  function RecordsOf(file: File, chunks: seq<string>, outcomes: seq<ChunkOutcome>): (r: seq<VectorRecord>)
    requires |outcomes| <= |chunks|
    ensures |r| <= |outcomes|
    decreases |outcomes|
  {
    if outcomes == [] then []
    else
      var i := |outcomes| - 1;
      var before := RecordsOf(file, chunks, outcomes[..i]);
      match outcomes[i]
      case Inserted(e) => before + [RecordFor(file, chunks, i, e)]
      case _ => before
  }

  /** The record holds chunk `m.chunkIndex` of this file, inserted with the record's embedding. */
  predicate Describes(record: VectorRecord, file: File, chunks: seq<string>, outcomes: seq<ChunkOutcome>) {
    var m := record.metadata;
    && m.fileName == file.name && m.fileId == file.id && m.chunkIndex < |outcomes| && m.chunkIndex < |chunks|
    && record.document == chunks[m.chunkIndex]
    && outcomes[m.chunkIndex] == Inserted(record.embedding)
  }

  /**
   * Every appended record carries the file's name and id and the index of the chunk it holds,
   * and that chunk was inserted with the record's embedding.
   */
  lemma {:induction false} RecordsOfMetadata(file: File, chunks: seq<string>, outcomes: seq<ChunkOutcome>)
    requires |outcomes| <= |chunks|
    ensures forall record :: record in RecordsOf(file, chunks, outcomes) ==> Describes(record, file, chunks, outcomes)
    decreases |outcomes|
  {
    if outcomes != [] {
      var i := |outcomes| - 1;
      var prefix := outcomes[..i];
      RecordsOfMetadata(file, chunks, prefix);
      var before := RecordsOf(file, chunks, prefix);
      forall record | record in before ensures Describes(record, file, chunks, outcomes) {
        assert Describes(record, file, chunks, prefix);
        assert prefix[record.metadata.chunkIndex] == outcomes[record.metadata.chunkIndex];
      }
      match outcomes[i]
      case Inserted(e) =>
        assert RecordsOf(file, chunks, outcomes) == before + [RecordFor(file, chunks, i, e)];
      case _ =>
        assert RecordsOf(file, chunks, outcomes) == before;
    }
  }

  /** Chunk indices strictly increase along the records. */
  predicate InChunkOrder(r: seq<VectorRecord>) {
    forall j, k :: 0 <= j < k < |r| ==> r[j].metadata.chunkIndex < r[k].metadata.chunkIndex
  }

  /** Records appear in strictly increasing chunk order. */
  lemma {:induction false} RecordsOfOrdered(file: File, chunks: seq<string>, outcomes: seq<ChunkOutcome>)
    requires |outcomes| <= |chunks|
    ensures InChunkOrder(RecordsOf(file, chunks, outcomes))
    decreases |outcomes|
  {
    if outcomes != [] {
      var i := |outcomes| - 1;
      var prefix := outcomes[..i];
      RecordsOfOrdered(file, chunks, prefix);
      RecordsOfMetadata(file, chunks, prefix);
      var before := RecordsOf(file, chunks, prefix);
      match outcomes[i]
      case Inserted(e) =>
        var r := before + [RecordFor(file, chunks, i, e)];
        assert RecordsOf(file, chunks, outcomes) == r;
        forall j, k | 0 <= j < k < |r| ensures r[j].metadata.chunkIndex < r[k].metadata.chunkIndex {
          assert r[j] == before[j] && r[j] in before;
          assert Describes(before[j], file, chunks, prefix);
          if k < |before| {
            assert r[k] == before[k];
            assert before[j].metadata.chunkIndex < before[k].metadata.chunkIndex;
          }
        }
      case _ =>
        assert RecordsOf(file, chunks, outcomes) == before;
    }
  }

  /** Some record holds chunk `i`. */
  predicate HasChunk(r: seq<VectorRecord>, i: nat) {
    exists j :: 0 <= j < |r| && r[j].metadata.chunkIndex == i
  }

  /** Every inserted chunk has a record. */
  predicate Covers(r: seq<VectorRecord>, outcomes: seq<ChunkOutcome>) {
    forall i :: 0 <= i < |outcomes| && outcomes[i].Inserted? ==> HasChunk(r, i)
  }

  /** Every chunk that was inserted has its record: a failure at one index does not cost a later one. */
  lemma {:induction false} RecordsOfComplete(file: File, chunks: seq<string>, outcomes: seq<ChunkOutcome>)
    requires |outcomes| <= |chunks|
    ensures Covers(RecordsOf(file, chunks, outcomes), outcomes)
    decreases |outcomes|
  {
    if outcomes != [] {
      var n := |outcomes| - 1;
      RecordsOfComplete(file, chunks, outcomes[..n]);
      var before := RecordsOf(file, chunks, outcomes[..n]);
      var r := RecordsOf(file, chunks, outcomes);
      assert r == before || r == before + [RecordFor(file, chunks, n, outcomes[n].embedding)];
      assert forall j :: 0 <= j < |before| ==> r[j] == before[j];
      forall i | 0 <= i < |outcomes| && outcomes[i].Inserted?
        ensures HasChunk(r, i)
      {
        if i < n {
          assert outcomes[..n][i] == outcomes[i];
          assert HasChunk(before, i);
          var j :| 0 <= j < |before| && before[j].metadata.chunkIndex == i;
          assert r[j] == before[j];
        } else {
          assert r == before + [RecordFor(file, chunks, n, outcomes[n].embedding)];
          assert r[|r| - 1].metadata.chunkIndex == i;
        }
      }
    }
  }

  /** One pass over one file: `for (let i = 0; i < chunks.length; i++) { try { ... } catch { } }`. */
  method IndexFile(file: File, embedder: EmbeddingModel, store: VectorStore) returns (outcomes: seq<ChunkOutcome>)
    modifies embedder, store
    ensures |outcomes| == |ChunksOf(file)|
    ensures embedder.requests == old(embedder.requests) + ChunksOf(file)
    ensures store.records == old(store.records) + RecordsOf(file, ChunksOf(file), outcomes)
  {
    var chunks := Chunk(file.content, DefaultChunkSize);
    outcomes := [];
    for i := 0 to |chunks|
      invariant |outcomes| == i
      invariant embedder.requests == old(embedder.requests) + chunks[..i]
      invariant store.records == old(store.records) + RecordsOf(file, chunks, outcomes)
    {
      var outcome := IndexChunk(file, chunks, i, embedder, store);
      ChunkStep(file, chunks, outcomes, outcome, old(embedder.requests), embedder.requests, old(store.records), store.records);
      outcomes := outcomes + [outcome];
    }
    assert chunks[..|chunks|] == chunks;
  }

  /** The body of the pass for chunk `i`: embed it, then store its record, and catch either failure. */
  method IndexChunk(file: File, chunks: seq<string>, i: nat, embedder: EmbeddingModel, store: VectorStore)
    returns (outcome: ChunkOutcome)
    requires i < |chunks|
    modifies embedder, store
    ensures embedder.requests == old(embedder.requests) + [chunks[i]]
    ensures store.records == old(store.records) + Appended(file, chunks, i, outcome)
  {
    var embedding := embedder.Infer(chunks[i]);
    match embedding {
      case Ok(e) =>
        var failure := store.AddVector(VectorRecord(e, chunks[i], Metadata(file.name, file.id, i)));
        outcome := if failure.None? then Inserted(e) else AddFailed(failure.value);
      case Err(cause) =>
        outcome := EmbedFailed(cause);
    }
  }

  /** The records appended for chunk `i`: its record when it was inserted, none otherwise. */
  function Appended(file: File, chunks: seq<string>, i: nat, outcome: ChunkOutcome): seq<VectorRecord>
    requires i < |chunks|
  {
    if outcome.Inserted? then [RecordFor(file, chunks, i, outcome.embedding)] else []
  }

  /** One turn of the pass over one file: the logs after chunk `i` extend those of chunks `0..i`. */
  lemma ChunkStep(file: File, chunks: seq<string>, outcomes: seq<ChunkOutcome>, outcome: ChunkOutcome,
                  requests0: seq<string>, requests: seq<string>, records0: seq<VectorRecord>, records: seq<VectorRecord>)
    requires |outcomes| < |chunks|
    requires requests == requests0 + chunks[..|outcomes|] + [chunks[|outcomes|]]
    requires records == records0 + RecordsOf(file, chunks, outcomes) + Appended(file, chunks, |outcomes|, outcome)
    ensures requests == requests0 + chunks[..|outcomes| + 1]
    ensures records == records0 + RecordsOf(file, chunks, outcomes + [outcome])
  {
    var i := |outcomes|;
    Snoc(chunks, i);
    Associative(requests0, chunks[..i], [chunks[i]]);
    assert (outcomes + [outcome])[..i] == outcomes;
    Associative(records0, RecordsOf(file, chunks, outcomes), Appended(file, chunks, i, outcome));
  }

  /** Per-file outcomes that fit the files: one list per file, no longer than its chunks. */
  predicate Fits(files: seq<File>, outcomes: seq<seq<ChunkOutcome>>) {
    |outcomes| == |files| && forall k :: 0 <= k < |files| ==> |outcomes[k]| <= |ChunksOf(files[k])|
  }

  /** The records a pass over `files` appends: each file's records, files in list order. */
  function AllRecords(files: seq<File>, outcomes: seq<seq<ChunkOutcome>>): (r: seq<VectorRecord>)
    requires Fits(files, outcomes)
    ensures |r| <= TotalOutcomes(outcomes)
    decreases |files|
  {
    if files == [] then []
    else
      var n := |files| - 1;
      AllRecords(files[..n], outcomes[..n]) + RecordsOf(files[n], ChunksOf(files[n]), outcomes[n])
  }

  /** The number of chunks tried. */
  function TotalOutcomes(outcomes: seq<seq<ChunkOutcome>>): nat
  {
    if outcomes == [] then 0 else TotalOutcomes(outcomes[..|outcomes| - 1]) + |outcomes[|outcomes| - 1]|
  }

  /** Every record comes from one of the files. */
  predicate FromFiles(r: seq<VectorRecord>, files: seq<File>) {
    forall j :: 0 <= j < |r| ==> exists k :: 0 <= k < |files| && FromFile(r[j], files[k])
  }

  /** Every record a pass over several files appends comes from one of them. */
  lemma {:induction false} AllRecordsFromFiles(files: seq<File>, outcomes: seq<seq<ChunkOutcome>>)
    requires Fits(files, outcomes)
    ensures FromFiles(AllRecords(files, outcomes), files)
    decreases |files|
  {
    if files != [] {
      var n := |files| - 1;
      AllRecordsFromFiles(files[..n], outcomes[..n]);
      RecordsOfMetadata(files[n], ChunksOf(files[n]), outcomes[n]);
      var before := AllRecords(files[..n], outcomes[..n]);
      var last := RecordsOf(files[n], ChunksOf(files[n]), outcomes[n]);
      var r := before + last;
      assert AllRecords(files, outcomes) == r;
      assert Fits(files[..n], outcomes[..n]);
      assert |outcomes[n]| <= |ChunksOf(files[n])|;
      forall j | 0 <= j < |r| ensures exists k :: 0 <= k < |files| && FromFile(r[j], files[k]) {
        if j < |before| {
          assert FromFiles(before, files[..n]);
          var k :| 0 <= k < n && FromFile(before[j], files[..n][k]);
          assert files[..n][k] == files[k];
          assert r[j] == before[j];
        } else {
          assert r[j] == last[j - |before|] && r[j] in last;
          assert Describes(r[j], files[n], ChunksOf(files[n]), outcomes[n]);
          assert FromFile(r[j], files[n]);
        }
      }
    }
  }

  /** A record holds one of the file's chunks under the file's name and id and that chunk's index. */
  predicate FromFile(record: VectorRecord, file: File) {
    var m := record.metadata;
    m.fileName == file.name && m.fileId == file.id
    && m.chunkIndex < |ChunksOf(file)| && record.document == ChunksOf(file)[m.chunkIndex]
  }

  /** Every chunk of every file, files in list order: the texts a pass asks to embed. */
  function AllChunks(files: seq<File>): seq<string>
    decreases |files|
  {
    if files == [] then [] else AllChunks(files[..|files| - 1]) + ChunksOf(files[|files| - 1])
  }

  /** Every chunk of every file was tried: what a finished pass leaves behind. */
  predicate Exhausted(files: seq<File>, outcomes: seq<seq<ChunkOutcome>>) {
    |outcomes| == |files| && forall k :: 0 <= k < |files| ==> |outcomes[k]| == |ChunksOf(files[k])|
  }

  /** A pass over one more file appends that file's chunks and records. */
  lemma AppendFile(files: seq<File>, file: File, outcomes: seq<seq<ChunkOutcome>>, last: seq<ChunkOutcome>)
    requires Fits(files, outcomes) && |last| <= |ChunksOf(file)|
    ensures Fits(files + [file], outcomes + [last])
    ensures AllRecords(files + [file], outcomes + [last])
         == AllRecords(files, outcomes) + RecordsOf(file, ChunksOf(file), last)
  {
    assert (files + [file])[..|files|] == files;
    assert (outcomes + [last])[..|outcomes|] == outcomes;
  }

  /** One turn of the pass over `files`: the texts embedded after file `k` extend those of files `0..k`. */
  lemma RequestsStep(files: seq<File>, k: nat, requests0: seq<string>, requests: seq<string>)
    requires k < |files|
    requires requests == requests0 + AllChunks(files[..k]) + ChunksOf(files[k])
    ensures requests == requests0 + AllChunks(files[..k + 1])
  {
    var file, done := files[k], files[..k];
    Snoc(files, k);
    assert AllChunks(done + [file]) == AllChunks(done) + ChunksOf(file) by {
      assert (done + [file])[..|done|] == done;
    }
    Associative(requests0, AllChunks(done), ChunksOf(file));
  }

  /** One turn of the pass over `files`: the records stored after file `k` extend those of files `0..k`. */
  lemma RecordsStep(files: seq<File>, k: nat, outcomes: seq<seq<ChunkOutcome>>, last: seq<ChunkOutcome>,
                    records0: seq<VectorRecord>, records: seq<VectorRecord>)
    requires k < |files| && Exhausted(files[..k], outcomes) && |last| == |ChunksOf(files[k])|
    requires Fits(files[..k], outcomes)
    requires records == records0 + AllRecords(files[..k], outcomes) + RecordsOf(files[k], ChunksOf(files[k]), last)
    ensures Exhausted(files[..k + 1], outcomes + [last])
    ensures Fits(files[..k + 1], outcomes + [last])
    ensures records == records0 + AllRecords(files[..k + 1], outcomes + [last])
  {
    var file, done := files[k], files[..k];
    Snoc(files, k);
    PassExhausted(done, file, outcomes, last);
    AppendFile(done, file, outcomes, last);
    Associative(records0, AllRecords(done, outcomes), RecordsOf(file, ChunksOf(file), last));
  }

  /** Trying every chunk of one more file keeps the pass exhausted. */
  lemma PassExhausted(files: seq<File>, file: File, outcomes: seq<seq<ChunkOutcome>>, last: seq<ChunkOutcome>)
    requires Exhausted(files, outcomes) && |last| == |ChunksOf(file)|
    ensures Exhausted(files + [file], outcomes + [last])
  {
  }

  /** The first `k + 1` elements are the first `k` and then element `k`. */
  lemma Snoc<T>(s: seq<T>, k: nat)
    requires k < |s|
    ensures s[..k + 1] == s[..k] + [s[k]]
  {
  }

  /** A pass over several files: `for (const file of files) { ...IndexFile... }`. */
  method IndexFiles(files: seq<File>, embedder: EmbeddingModel, store: VectorStore)
    returns (outcomes: seq<seq<ChunkOutcome>>)
    modifies embedder, store
    ensures Exhausted(files, outcomes) && Fits(files, outcomes)
    ensures embedder.requests == old(embedder.requests) + AllChunks(files)
    ensures store.records == old(store.records) + AllRecords(files, outcomes)
  {
    outcomes := [];
    for k := 0 to |files|
      invariant Exhausted(files[..k], outcomes)
      invariant embedder.requests == old(embedder.requests) + AllChunks(files[..k])
      invariant Fits(files[..k], outcomes)
      invariant store.records == old(store.records) + AllRecords(files[..k], outcomes)
    {
      var last := IndexFile(files[k], embedder, store);
      RequestsStep(files, k, old(embedder.requests), embedder.requests);
      RecordsStep(files, k, outcomes, last, old(store.records), store.records);
      outcomes := outcomes + [last];
    }
    assert files[..|files|] == files;
  }
}
