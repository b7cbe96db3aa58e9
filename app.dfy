/**
 * The application's state and its handlers: loading the models, re-indexing the stored
 * files (or seeding the sample document) once the models are ready, uploading,
 * deleting and one chat turn. React state becomes the fields of `AppState`;
 * `localStorage['llm-files']` becomes the field `persisted`, which every write overwrites.
 */
module App {
  import opened Wrappers
  import opened Services
  import opened Files
  import opened Indexing
  import opened Chat
  import Sample

  datatype LLMStatus = Loaded | NotLoaded | Processing

  class AppState {
    var files: seq<File>
    var selected: Option<string>
    var messages: seq<Message>
    var persisted: seq<File>
    var status: LLMStatus
    var loading: bool
    var embedder: EmbeddingModel?
    var store: VectorStore?
    var knowledge: Knowledge?
    var agent: Agent?
    /** The document seeded on first run: `Sample.SampleFile` in the application. */
    const sample: File

    /**
     * The embedding model and the store are loaded together, an agent exists only once
     * they are, and every knowledge handle in use reads the app's one store through its
     * one embedding model.
     */
    predicate Valid()
      reads this
    {
      (embedder == null <==> store == null)
      && (agent != null ==> store != null)
      && (knowledge != null ==> knowledge.store == store && knowledge.embedder == embedder)
      && (agent != null && agent.knowledge != null ==>
            agent.knowledge.store == store && agent.knowledge.embedder == embedder)
    }

    /** `embeddingModel && vectorStore`: the guard of indexing and uploading. */
    predicate Ready()
      reads this
    {
      embedder != null && store != null
    }

    /**
     * The first render: empty state, with `stored` the list found in local storage and
     * `sample` the document to seed when that list is empty.
     */
    constructor Mount(stored: seq<File>, sample: File)
      ensures Valid() && !Ready() && this.sample == sample
      ensures files == [] && selected == None && messages == [] && persisted == stored
      ensures status == NotLoaded && !loading
      ensures knowledge == null && agent == null
    {
      files := [];
      selected := None;
      messages := [];
      persisted := stored;
      status := NotLoaded;
      loading := false;
      embedder := null;
      store := null;
      knowledge := null;
      agent := null;
      this.sample := sample;
    }

    /**
     * `initModels`: loads the language model, the embedding model and the store, in that
     * order; only when all three succeed are they installed, with an agent without
     * knowledge. The effect runs once, before anything is loaded.
     */
    method InitModels()
      requires Valid() && !Ready()
      modifies this
      ensures Valid()
      ensures status == Loaded || status == NotLoaded
      ensures status == Loaded ==>
        Ready() && fresh(embedder) && fresh(store) && fresh(agent)
        && embedder.name == EmbeddingModelName && embedder.requests == []
        && store.dimension == EmbeddingDimension && store.records == []
        && agent.model.name == LangModelName && agent.knowledge == null
      ensures status == NotLoaded ==> embedder == null && store == null && agent == null
      ensures files == old(files) && selected == old(selected) && messages == old(messages)
      ensures persisted == old(persisted) && loading == old(loading) && knowledge == old(knowledge)
    {
      status := Processing;
      var lm := LoadLangModel(LangModelName);
      if lm.Err? {
        status := NotLoaded;
        return;
      }
      var em := LoadEmbeddingModel(EmbeddingModelName);
      if em.Err? {
        status := NotLoaded;
        return;
      }
      var vs := NewFaiss(EmbeddingDimension);
      if vs.Err? {
        status := NotLoaded;
        return;
      }
      embedder := em.value;
      store := vs.value;
      agent := new Agent(lm.value, null);
      status := Loaded;
    }

    /**
     * One indexing pass and what follows it (App.tsx:102-132, 177-204, 292-323): every
     * chunk of every file of `batch` is embedded and stored, then a new knowledge handle
     * is built over the store and, when an agent exists, a new agent bound to it.
     * Loading the language model may throw, which rejects the handler with the
     * knowledge already replaced and the old agent kept.
     */
    method IndexAndRebind(batch: seq<File>) returns (result: Settled, outcomes: seq<seq<ChunkOutcome>>)
      requires Valid() && Ready()
      modifies this, embedder, store
      ensures Valid()
      ensures embedder == old(embedder) && store == old(store)
      ensures Exhausted(batch, outcomes) && Fits(batch, outcomes)
      ensures embedder.requests == old(embedder.requests) + AllChunks(batch)
      ensures store.records == old(store.records) + AllRecords(batch, outcomes)
      ensures fresh(knowledge) && knowledge.store == store && knowledge.embedder == embedder
      ensures old(agent) == null ==> result == Resolved && agent == null
      ensures old(agent) != null && result == Resolved ==>
        fresh(agent) && agent.knowledge == knowledge && agent.model.name == LangModelName
      ensures result.Rejected? ==> old(agent) != null && agent == old(agent)
      ensures files == old(files) && selected == old(selected) && messages == old(messages)
      ensures persisted == old(persisted) && status == old(status) && loading == old(loading)
    {
      outcomes := IndexFiles(batch, embedder, store);
      knowledge := new Knowledge.NewVectorStore(store, embedder);
      result := Resolved;
      if agent != null {
        var lm := LoadLangModel(LangModelName);
        if lm.Err? {
          result := Rejected(lm.error);
          return;
        }
        agent := new Agent(lm.value, knowledge);
      }
    }

    /**
     * `initializeSampleFiles`, run once the embedding model and the store are set: a
     * non-empty stored list becomes the file list and every file is indexed again; an
     * empty one is replaced by the sample document, which is saved, selected and indexed.
     * Either way the knowledge and the agent are rebuilt afterwards.
     */
    method Rehydrate() returns (result: Settled, outcomes: seq<seq<ChunkOutcome>>)
      requires Valid()
      modifies this, embedder, store
      ensures Valid()
      ensures embedder == old(embedder) && store == old(store)
      ensures messages == old(messages) && status == old(status) && loading == old(loading)
      ensures !old(Ready()) ==>
        result == Resolved && outcomes == [] && files == old(files) && persisted == old(persisted)
        && selected == old(selected) && knowledge == old(knowledge) && agent == old(agent)
      ensures old(Ready()) ==>
        var indexed := if old(persisted) != [] then old(persisted) else [sample];
        files == indexed && persisted == old(persisted) + (if old(persisted) == [] then indexed else [])
        && selected == (if old(persisted) == [] then Some(sample.id) else old(selected))
        && Exhausted(indexed, outcomes) && Fits(indexed, outcomes)
        && embedder.requests == old(embedder.requests) + AllChunks(indexed)
        && store.records == old(store.records) + AllRecords(indexed, outcomes)
        && fresh(knowledge) && knowledge.store == store && knowledge.embedder == embedder
        && (old(agent) == null ==> result == Resolved && agent == null)
        && (old(agent) != null && result == Resolved ==> fresh(agent) && agent.knowledge == knowledge)
        && (result.Rejected? ==> old(agent) != null && agent == old(agent))
    {
      outcomes := [];
      result := Resolved;
      if !Ready() {
        return;
      }
      var stored := persisted;
      var indexed: seq<File>;
      if |stored| > 0 {
        files := stored;
        indexed := stored;
      } else {
        indexed := [sample];
        files := indexed;
        persisted := indexed;
        selected := Some(sample.id);
      }
      result, outcomes := IndexAndRebind(indexed);
    }

    /**
     * The part of `handleFileUpload` after the filter, for a non-empty list of accepted
     * files: index them, rebuild the knowledge and the agent, and only then append them
     * to the list, save it and, when nothing is selected, select the first of them.
     */
    method AddFiles(added: seq<File>) returns (result: Settled, outcomes: seq<seq<ChunkOutcome>>)
      requires Valid() && Ready() && added != []
      modifies this, embedder, store
      ensures Valid()
      ensures embedder == old(embedder) && store == old(store)
      ensures messages == old(messages) && status == old(status) && loading == old(loading)
      ensures Exhausted(added, outcomes) && Fits(added, outcomes)
      ensures embedder.requests == old(embedder.requests) + AllChunks(added)
      ensures store.records == old(store.records) + AllRecords(added, outcomes)
      ensures fresh(knowledge) && knowledge.store == store && knowledge.embedder == embedder
      ensures result == Resolved ==>
        files == AppendFiles(old(files), added) && persisted == files
        && selected == SelectionAfterUpload(old(selected), added)
        && (old(agent) == null ==> agent == null)
        && (old(agent) != null ==> fresh(agent) && agent.knowledge == knowledge)
      ensures result.Rejected? ==>
        old(agent) != null && agent == old(agent)
        && files == old(files) && persisted == old(persisted) && selected == old(selected)
    {
      result, outcomes := IndexAndRebind(added);
      if result.Rejected? {
        return;
      }
      AppendAndSelect(added);
    }

    /**
     * `setFiles(prev => [...prev, ...newFiles])` with the result saved, then the first
     * new file selected when nothing is.
     */
    method AppendAndSelect(added: seq<File>)
      requires Valid()
      modifies this
      ensures Valid()
      ensures files == AppendFiles(old(files), added) && persisted == files
      ensures selected == SelectionAfterUpload(old(selected), added)
      ensures embedder == old(embedder) && store == old(store)
      ensures knowledge == old(knowledge) && agent == old(agent)
      ensures messages == old(messages) && status == old(status) && loading == old(loading)
    {
      files := AppendFiles(files, added);
      persisted := files;
      selected := SelectionAfterUpload(selected, added);
    }

    /**
     * `handleFileUpload`: refused until the models are ready; otherwise the batch is
     * filtered and, when any file is accepted, handed to `AddFiles`.
     */
    method HandleFileUpload(batch: seq<Upload>) returns (result: Settled, outcomes: seq<seq<ChunkOutcome>>)
      requires Valid()
      modifies this, embedder, store
      ensures Valid()
      ensures embedder == old(embedder) && store == old(store)
      ensures messages == old(messages) && status == old(status) && loading == old(loading)
      ensures !old(Ready()) || AcceptedFiles(batch) == [] ==>
        result == Resolved && outcomes == [] && files == old(files) && persisted == old(persisted)
        && selected == old(selected) && knowledge == old(knowledge) && agent == old(agent)
      ensures old(Ready()) && AcceptedFiles(batch) == [] ==>
        embedder.requests == old(embedder.requests) && store.records == old(store.records)
      ensures old(Ready()) && AcceptedFiles(batch) != [] ==>
        var added := AcceptedFiles(batch);
        Exhausted(added, outcomes) && Fits(added, outcomes)
        && embedder.requests == old(embedder.requests) + AllChunks(added)
        && store.records == old(store.records) + AllRecords(added, outcomes)
        && fresh(knowledge) && knowledge.store == store && knowledge.embedder == embedder
        && (result == Resolved ==>
              files == AppendFiles(old(files), added) && persisted == files
              && selected == SelectionAfterUpload(old(selected), added)
              && (old(agent) == null ==> agent == null)
              && (old(agent) != null ==> fresh(agent) && agent.knowledge == knowledge))
        && (result.Rejected? ==>
              old(agent) != null && agent == old(agent)
              && files == old(files) && persisted == old(persisted) && selected == old(selected))
    {
      outcomes := [];
      result := Resolved;
      if !Ready() {
        return;
      }
      var added := AcceptedFiles(batch);
      if |added| == 0 {
        return;
      }
      result, outcomes := AddFiles(added);
    }

    /**
     * `handleFileDelete`: the list without the entries carrying `id`, saved; then the
     * stored list filtered once more; the selection cleared if it was `id`. The store,
     * the knowledge and the agent are left as they are.
     */
    method HandleFileDelete(id: string)
      requires Valid()
      modifies this
      ensures Valid()
      ensures files == RemoveById(old(files), id) && persisted == files
      ensures selected == SelectionAfterDelete(old(selected), id)
      ensures embedder == old(embedder) && store == old(store)
      ensures knowledge == old(knowledge) && agent == old(agent)
      ensures messages == old(messages) && status == old(status) && loading == old(loading)
    {
      files := RemoveById(files, id);
      persisted := files;
      RemoveByIdIdempotent(old(files), id);
      persisted := RemoveById(persisted, id);
      if selected == Some(id) {
        selected := None;
      }
    }

    /**
     * `handleSendMessage`: refused without an agent; otherwise the user message is
     * appended, the request (the earlier history, then the new message) is run with the
     * retrieval configuration when there is knowledge, and the folded reply, or the
     * fixed apology when anything throws, is appended as the assistant's message.
     * `respond` stands for `agent.run`.
     */
    method HandleSendMessage(content: string, userId: string, replyId: string,
                             respond: (Agent, seq<AgentMessage>, Option<InferenceConfig>) -> Stream)
      requires Valid()
      modifies this
      ensures Valid()
      ensures old(agent) == null ==> messages == old(messages) && status == old(status) && loading == old(loading)
      ensures old(agent) != null ==>
        var stream := respond(old(agent), RequestFor(old(messages), content), ConfigFor(old(knowledge) != null));
        messages == old(messages) + [Message(userId, User, content), Message(replyId, Assistant, ReplyText(stream))]
        && status == Loaded && !loading
      ensures files == old(files) && selected == old(selected) && persisted == old(persisted)
      ensures embedder == old(embedder) && store == old(store)
      ensures knowledge == old(knowledge) && agent == old(agent)
    {
      if agent == null {
        return;
      }
      var history := messages;
      messages := messages + [Message(userId, User, content)];
      loading := true;
      status := Processing;
      var text := RunTurn(agent, history, content, knowledge != null, respond);
      messages := messages + [Message(replyId, Assistant, text)];
      loading := false;
      status := Loaded;
    }
  }

  /**
   * The `try`/`catch` of `handleSendMessage`: the request is built from the history and
   * the new message, run with the configuration, and the stream folded; the result is
   * the last text fragment, or the apology when the run or the fold throws.
   */
  method RunTurn(agent: Agent, history: seq<Message>, content: string, hasKnowledge: bool,
                 respond: (Agent, seq<AgentMessage>, Option<InferenceConfig>) -> Stream)
    returns (text: string)
    ensures text == ReplyText(respond(agent, RequestFor(history, content), ConfigFor(hasKnowledge)))
  {
    var request := BuildRequest(history, content);
    RequestUnique(request, history, content);
    var stream := respond(agent, request, ConfigFor(hasKnowledge));
    var reply := FoldStream(stream);
    text := if reply.Some? then reply.value else Fallback;
  }

  /** The application as it is mounted: the state's first render, seeding the sample document of `Sample`. */
  method Launch(stored: seq<File>) returns (app: AppState)
    ensures fresh(app) && app.Valid() && !app.Ready() && app.sample == Sample.SampleFile
    ensures app.files == [] && app.selected == None && app.messages == [] && app.persisted == stored
    ensures app.status == NotLoaded && !app.loading && app.knowledge == null && app.agent == null
  {
    app := new AppState.Mount(stored, Sample.SampleFile);
  }
}
