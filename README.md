# A verified model of the ailoy RAG sample's application core

The application is a single-page chat client. It keeps a list of text files, splits each
file into paragraph chunks, embeds every chunk with a local embedding model and stores
the vectors in a FAISS store. It then answers chat messages with a local language model that
is given a knowledge handle over that store. All of this logic lives in `src/app/App.tsx`.
The model covers:

- `chunkText`: the loop as a method (`Chunker.Chunk`), proved equal to a recursive
  specification (`Chunker.ChunkText`), with lemmas about the chunks (non-empty, trimmed,
  bounded, oversized paragraphs kept whole, round trip). The specification is built on
  `Chunker.Packed`, the packing recursion of App.tsx:64-75 (flush test `Chunker.Flushes`,
  buffer growth `Chunker.Extend`); its meaning is stated by the `Packed…` lemmas in the
  table below, each about every input.
- The JavaScript string operations it relies on (`Text`): `trim` over the ECMAScript
  whitespace set, `split('\n\n')` (`Text.Split`), joining with a blank line (`Text.Join`),
  `includes` (`Text.Contains`) and `endsWith` (`Text.EndsWith`). The last two are
  predicates written as JavaScript defines them and are used by the upload filter.
- The three indexing passes (`Indexing`): for each file in order and each chunk in order,
  `infer` then `addVector`. Either call may fail, and the failure is caught per chunk. The
  proofs use a ghost log of the texts passed to `infer` (`Services.EmbeddingModel.requests`)
  and the store's append-only record list (`Services.VectorStore.records`).
- The application state (`App.AppState`): model loading, the re-indexing of stored files or
  the seeding of the sample document, the knowledge and agent rebuild after a pass, upload
  (filter, append, auto-select), delete, and one chat turn (request building, the
  retrieval configuration, the streamed fold where the last text fragment wins, and the
  fallback message on any error). React state becomes fields. The stored list
  (`localStorage['llm-files']`) becomes the field `persisted`, which every save overwrites.
- Files, uploads and the selection (`Files`), and the sample document (`Sample`). The
  upload filter of App.tsx:266 is the predicate `Files.IsTextFile`; `Files.Admit` states it
  together with the read, and `Files.ImageRejected` applies it.
- The stream fold of App.tsx:407-412 is the function `Chat.LatestText`, replaying the
  assignments of `responseText`; `Chat.LatestTextIsLast`, `Chat.LatestTextOverwrites` and
  `Chat.LatestTextSkips` state what it means, and `Chat.FoldStream` is the loop proved
  equal to it.

Foreign calls (`LangModel.newLocal`, `EmbeddingModel.newLocal`, `VectorStore.newFaiss`,
`infer`, `addVector`) are methods whose bodies choose success or failure freely. Every
contract about a caller therefore holds whichever way the foreign code behaves.
`agent.run` is a function parameter `respond` of the chat turn. Its value, a `Chat.Stream`,
lists the responses yielded and whether the stream then throws.

## Model

| member | source | states |
|---|---|---|
| Text.TrimStart | src/app/App.tsx:66 | drops exactly the leading whitespace: the result is a suffix, everything before it is whitespace, and it does not start with whitespace |
| Text.TrimEnd | src/app/App.tsx:66 | drops exactly the trailing whitespace: the result is a prefix, everything after it is whitespace, and it does not end with whitespace |
| Text.Trim | src/app/App.tsx:66 | `trim()` is no longer than its input and is empty or starts and ends with non-whitespace |
| Text.TrimSlice | src/app/App.tsx:66 | `trim()` is a contiguous slice of the input with only whitespace before and after it |
| Text.TrimClean | src/app/App.tsx:74 | a string that is empty or has no outer whitespace is its own trim |
| Text.TrimIdempotent | src/app/App.tsx:74 | trimming twice is trimming once |
| Text.Split | src/app/App.tsx:60 | `split('\n\n')` always yields at least one piece; with `JoinSplit`, `SplitNoBlank` and `SplitAfter` the pieces are the text between the left-to-right occurrences of a blank line |
| Text.JoinSplit | src/app/App.tsx:60 | joining the pieces of `split('\n\n')` with a blank line gives back the text |
| Text.SplitNoBlank | src/app/App.tsx:60 | a text without a blank line splits into the single piece which is the text itself |
| Text.SplitAfter | src/app/App.tsx:60 | a first piece without a blank line and not ending in a line feed splits off whole before the rest |
| Text.JoinCons | src/app/App.tsx:69 | joining puts one blank line between a piece and the joined rest |
| Chunker.Extend | src/app/App.tsx:69 | an empty buffer becomes the paragraph; a non-empty one gets a blank line and then the paragraph, growing by the paragraph's length plus 2 |
| Chunker.KeepNonEmpty | src/app/App.tsx:77 | keeps exactly the non-empty chunks, no more of them than there were, and changes nothing when none is empty |
| Chunker.KeepNonEmptyAppend | src/app/App.tsx:77 | the filter works piece by piece: the kept chunks keep their order and their duplicates |
| Chunker.KeepNonEmptyOne | src/app/App.tsx:77 | a single chunk is kept exactly when it is non-empty |
| Chunker.ChunkText | src/app/App.tsx:59-78 | every returned chunk is non-empty |
| Chunker.Chunk | src/app/App.tsx:59-78 | the loop over the paragraphs, which reassigns the buffer and pushes trimmed chunks, returns exactly the specification's chunks |
| Chunker.PackedTrimmed | src/app/App.tsx:64-75 | every flushed chunk is its own trim |
| Chunker.ChunksTrimmed | src/app/App.tsx:66-77 | every chunk equals its trim and has no leading or trailing whitespace |
| Chunker.PackedBound | src/app/App.tsx:64-71 | a flushed chunk is at most `size + 2` long, or is the trim of one paragraph |
| Chunker.ChunkLengthBound | src/app/App.tsx:64-71 | a chunk longer than `size + 2` is a single paragraph, trimmed; so a chunk of two or more paragraphs is at most `size + 2` long |
| Chunker.PackedKeepsOversized | src/app/App.tsx:64-75 | an oversized buffer or paragraph is flushed whole, trimmed |
| Chunker.OversizedParagraphKept | src/app/App.tsx:64-77 | a paragraph longer than `size` whose trim is non-empty comes out as a chunk of its own, never split |
| Chunker.PackedNonEmpty | src/app/App.tsx:64-75 | packing clean paragraphs into a clean buffer flushes at least one chunk and no empty one |
| Chunker.PackedJoin | src/app/App.tsx:64-75 | packing clean paragraphs loses and adds nothing: the chunks join back into the buffer followed by the paragraphs |
| Chunker.ChunkRoundTrip | src/app/App.tsx:59-78 | when every paragraph is non-empty and its own trim, joining the chunks with a blank line gives back the text |
| Chunker.TwoParagraphsFit | src/app/App.tsx:64-71 | two clean single-line paragraphs that fit in `size` together make one chunk, the whole text |
| Chunker.TwoParagraphsSplit | src/app/App.tsx:64-71 | two clean single-line paragraphs too long to share a chunk make two chunks, one each |
| Chunker.HelloWorldExample | src/app/App.tsx:59-78 | `"Hello world\n\nSecond paragraph"` with size 500 is exactly that one chunk |
| Chunker.FourHundredExample | src/app/App.tsx:59-78 | two 400-character paragraphs with size 500 give two one-paragraph chunks |
| Files.Admit | src/app/App.tsx:264-284 | an upload becomes a file iff its type contains "text" or its name ends in ".txt" or ".md", and its text could be read; the file keeps the upload's id, name, text and size |
| Files.AcceptedFiles | src/app/App.tsx:286 | the filtered batch is no longer than the batch |
| Files.AcceptedFilesMembers | src/app/App.tsx:264-286 | a file is accepted iff some upload of the batch is admitted as it |
| Files.AcceptedFilesAppend | src/app/App.tsx:286 | filtering keeps the batch's order: the accepted files of a concatenation are the concatenation of the accepted files |
| Files.RejectedDoesNotBlock | src/app/App.tsx:264-286 | a rejected or unreadable upload drops out and every other upload is still taken, in order |
| Files.RejectedAlone | src/app/App.tsx:266-283 | a batch of one rejected or unreadable upload adds nothing |
| Files.ImageRejected | src/app/App.tsx:266 | "image.png" of type "image/png" is not a text file |
| Files.AppendFiles | src/app/App.tsx:326 | `[...prev, ...newFiles]` is `prev` followed by `newFiles` |
| Files.RemoveById | src/app/App.tsx:341 | no longer than the list; a file remains iff it was listed and its id differs from the deleted one |
| Files.RemoveByIdAppend | src/app/App.tsx:341 | deleting works piece by piece, so the remaining entries keep their order |
| Files.RemoveByIdAbsent | src/app/App.tsx:51 | deleting an id that no entry has changes nothing |
| Files.RemoveByIdIdempotent | src/app/App.tsx:339-345 | deleting the same id twice, as the handler and the storage helper do, is deleting it once |
| Files.SelectionAfterDelete | src/app/App.tsx:349-351 | the selection is cleared iff it was the deleted id, and otherwise kept |
| Files.SelectionAfterUpload | src/app/App.tsx:333-335 | when nothing is selected (null or the empty string) and files were added, the first new file is selected; otherwise the selection is kept |
| Services.EmbeddingModel.Infer | src/app/App.tsx:106 | every call, failed or not, is logged with the text it was asked to embed |
| Services.VectorStore.AddVector | src/app/App.tsx:108-116 | the store grows by exactly the record on success and is unchanged on failure |
| Services.LoadLangModel | src/app/App.tsx:224 | on success, a fresh model of the requested name |
| Services.LoadEmbeddingModel | src/app/App.tsx:227-231 | on success, a fresh model of the requested name that has embedded nothing yet |
| Services.NewFaiss | src/app/App.tsx:234 | on success, a fresh empty store of the requested dimension |
| Services.Knowledge.NewVectorStore | src/app/App.tsx:124 | the knowledge handle binds the given store and embedding model |
| Services.Agent.constructor | src/app/App.tsx:130 | the agent binds the given model and knowledge |
| Indexing.RecordsOf | src/app/App.tsx:104-120 | the records of one pass over a file number at most the chunks tried |
| Indexing.RecordsOfMetadata | src/app/App.tsx:108-116 | every record carries the file's name and id and the index of the chunk it holds, and that chunk was inserted with the record's embedding |
| Indexing.RecordsOfOrdered | src/app/App.tsx:104 | records appear in strictly increasing chunk order |
| Indexing.RecordsOfComplete | src/app/App.tsx:104-119 | every inserted chunk has its record: a failure at one index does not cost a later one |
| Indexing.IndexFile | src/app/App.tsx:103-120 | the pass asks to embed every chunk of the file, in order, whatever fails; the store grows by exactly the records of the inserted chunks |
| Indexing.IndexChunk | src/app/App.tsx:105-119 | one chunk: one embedding request, and the store grows by the chunk's record exactly when both calls succeed |
| Indexing.AllRecords | src/app/App.tsx:102-121 | the records of a pass over several files number at most the chunks tried |
| Indexing.AllRecordsFromFiles | src/app/App.tsx:102-121 | every record of a pass over several files holds a chunk of one of them under that file's name, id and chunk index |
| Indexing.IndexFiles | src/app/App.tsx:102-121 | every chunk of every file is tried, files in list order; the embedding log grows by all the chunks and the store grows by each file's records in list order |
| Chat.RequestFor | src/app/App.tsx:385-399 | the request is the history mapped to role and contents, followed by the new user message |
| Chat.RequestUnique | src/app/App.tsx:385-399 | the history and the new message determine the request |
| Chat.RequestEndsWithUser | src/app/App.tsx:396-399 | the new user message is last and the earlier entries keep the history's roles, contents and order |
| Chat.BuildRequest | src/app/App.tsx:385-399 | the `forEach`/`push` loop builds exactly that request |
| Chat.ConfigFor | src/app/App.tsx:403-405 | a configuration is supplied iff there is knowledge, and it asks for the Qwen3 polyfill |
| Chat.FirstText | src/app/App.tsx:409-410 | a response's text is taken iff its contents exist and the first has type text |
| Chat.LatestTextIsLast | src/app/App.tsx:407-412 | the folded reply is the text of the last response that carries text, and "" when none does |
| Chat.LatestTextOverwrites | src/app/App.tsx:410 | a later text fragment replaces the reply; fragments are never concatenated |
| Chat.LatestTextSkips | src/app/App.tsx:409 | a response without leading text leaves the reply as it was |
| Chat.Delivered | src/app/App.tsx:407-412 | the stream delivers a reply iff it ends without throwing and every response has a message |
| Chat.ReplyText | src/app/App.tsx:407-433 | the assistant's content is the fallback apology when the stream throws or a response lacks its message, and otherwise the folded reply |
| Chat.FoldStream | src/app/App.tsx:407-412 | the `for await` loop computes exactly the delivered reply, stopping where a property access would throw |
| Chat.LastFragmentExample | src/app/App.tsx:408-412 | the fragments "Hel" then "Hello" give "Hello", not "HelHello" |
| App.AppState.Mount | src/app/App.tsx:81-90 | the first render: empty list, no selection, no messages, status not-loaded, no models, store, knowledge or agent |
| App.Launch | src/app/App.tsx:81-90 | the mounted application starts from the first render's state and seeds `Sample.SampleFile`, the document of App.tsx:138-169 |
| App.AppState.InitModels | src/app/App.tsx:217-253 | on success, fresh models of the fixed names, an empty 1024-dimension store and an agent without knowledge, with status loaded; on any failure nothing is installed and the status is not-loaded |
| App.AppState.IndexAndRebind | src/app/App.tsx:102-132 | a pass over the batch, then a fresh knowledge handle over the app's store and embedding model; a new agent bound to it only when an agent existed, the old one kept when loading the language model throws |
| App.AppState.Rehydrate | src/app/App.tsx:93-214 | once the models are ready, a non-empty stored list becomes the file list and is indexed again, and an empty one is replaced by the sample, which is saved, selected and indexed; the knowledge and agent are rebuilt after either |
| App.AppState.AddFiles | src/app/App.tsx:288-336 | the accepted files are indexed before they are appended; the list then becomes the old list followed by them, is saved, and the selection follows the upload rule; a rejected rebuild appends nothing |
| App.AppState.AppendAndSelect | src/app/App.tsx:325-335 | the list becomes the old list followed by the new files, is saved, and the selection follows the upload rule |
| App.AppState.HandleFileUpload | src/app/App.tsx:255-337 | nothing happens when the models are not ready or no upload is accepted; otherwise the accepted files are indexed and added |
| App.AppState.HandleFileDelete | src/app/App.tsx:339-352 | the list and its saved copy lose exactly the entries with the id, the selection is cleared iff it was the id, and the store, knowledge and agent are untouched |
| App.AppState.HandleSendMessage | src/app/App.tsx:362-443 | refused without an agent; otherwise the user message and then the assistant's reply, or the apology, are appended, and the status ends loaded and not loading |
| App.RunTurn | src/app/App.tsx:383-433 | the request built from the history and the new message, run with the configuration and folded, gives the assistant's content |

## Left out

- React rendering, hooks, toasts and console logging are UI. Each handler is a method on `App.AppState`, and effect scheduling and `useCallback` dependencies are not modelled.
- Saving and loading through `localStorage` with JSON (src/app/App.tsx:30-46) is browser I/O. The saved list is the field `persisted`, and a failed save is not modelled.
- Ids and timestamps built from `Date.now` and `Math.random` are nondeterministic. Upload ids and message ids are inputs, and timestamps are dropped.
- The concurrent reads of `Promise.all` (src/app/App.tsx:264-286) are modelled as a sequential filter over per-file read results, which ends in the same list.
- Lengths count Unicode scalar values (Dafny `char`), not UTF-16 code units as JavaScript's `.length` does. A text with a character outside the Basic Multilingual Plane can be chunked differently.
- Embedding vectors, the FAISS index and the language model are foreign code. An embedding is an opaque handle, and the store's 1024 dimension is only a recorded number.
- The sample document's text is the constant `Sample.SampleFile`. `App.AppState` takes the document to seed as a constructor argument, which keeps the large literal out of the handlers' proofs. `App.Launch` mounts the state with `Sample.SampleFile`.
- App.AppState.InitModels: requires that no model is loaded yet, because the effect runs once on mount.
- handleFileSelect, handleFileView and handleClearConversation only set one state field. They are not modelled.
- `formatFileSize` (src/app/components/FileViewerDialog.tsx) uses floating point and is view code. It is left out, along with the other components.
- Deleting a file does not remove its vectors, and re-indexing stored files on start does not clear the store first. Both are modelled as the code behaves: the store is append-only and may hold duplicates.
- Within one handler the React state updates are applied in program order. In particular, `handleFileDelete`'s updater is applied before `deleteFileFromStorage` reads the saved list. Applying it afterwards ends in the same saved list, by `Files.RemoveByIdIdempotent` and because the updater overwrites it.
- Stale closures (a handler seeing state from an earlier render) are not modelled. Each handler reads the current fields.
- Each handler runs to completion with no other handler in between. In the application every handler is async and yields at each `await` (App.tsx:106-108, 129, 298-299, 320, 408), and the upload control stays enabled. So a second upload, or an upload during the start-up re-index, can overlap another pass. Then the records of the two passes interleave in the store, `setFiles(prev => [...prev, ...newFiles])` appends the batches in completion order, and the knowledge and agent of whichever handler finishes last win. The contracts of `App.AppState.IndexAndRebind`, `Rehydrate`, `AddFiles` and `HandleFileUpload` (store grows by exactly this pass's records, list becomes the old list followed by this batch) hold for a handler that runs alone.
