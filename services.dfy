/**
 * The foreign capabilities the application drives: the embedding model, the vector
 * store, the language model, the knowledge handle and the agent. Their internals are
 * not modelled; each call that may fail chooses success or failure freely, so a
 * caller's contract holds whichever way the capability behaves.
 */
module Services {
  import opened Wrappers

  const LangModelName: string := "Qwen/Qwen3-0.6B"
  const EmbeddingModelName: string := "BAAI/bge-m3"
  const EmbeddingDimension: nat := 1024

  /** An embedding vector, kept as an opaque handle: its numbers are not modelled. */
  datatype Embedding = Embedding(handle: nat)

  /** `{fileName, fileId, chunkIndex}`: where a stored chunk came from. */
  datatype Metadata = Metadata(fileName: string, fileId: string, chunkIndex: nat)

  /** The argument of `addVector`. */
  datatype VectorRecord = VectorRecord(embedding: Embedding, document: string, metadata: Metadata)

  class EmbeddingModel {
    const name: string
    /** The texts passed to `infer`, in the order of the calls. */
    ghost var requests: seq<string>

    constructor (name: string)
      ensures this.name == name && requests == []
    {
      this.name := name;
      requests := [];
    }

    /** `infer(text)`: an embedding of the text, or an error. */
    method Infer(text: string) returns (r: Result<Embedding, string>)
      modifies this
      ensures requests == old(requests) + [text]
    {
      requests := requests + [text];
      var succeeded: bool :| true;
      if succeeded {
        var handle: nat :| true;
        r := Ok(Embedding(handle));
      } else {
        r := Err("embedding failed");
      }
    }
  }

  /** The vector store: an append-only sequence of records. */
  class VectorStore {
    const dimension: nat
    var records: seq<VectorRecord>

    constructor (dimension: nat)
      ensures this.dimension == dimension && records == []
    {
      this.dimension := dimension;
      records := [];
    }

    /** `addVector(record)`: stores the record, or fails and stores nothing. */
    method AddVector(record: VectorRecord) returns (failure: Option<string>)
      modifies this
      ensures records == old(records) + (if failure.None? then [record] else [])
    {
      var succeeded: bool :| true;
      if succeeded {
        records := records + [record];
        failure := None;
      } else {
        failure := Some("addVector failed");
      }
    }
  }

  class LangModel {
    const name: string

    constructor (name: string)
      ensures this.name == name
    {
      this.name := name;
    }
  }

  /** `Knowledge.newVectorStore(store, embedder)`: an immutable binding of a store and an embedding model. */
  class Knowledge {
    const store: VectorStore
    const embedder: EmbeddingModel

    constructor NewVectorStore(store: VectorStore, embedder: EmbeddingModel)
      ensures this.store == store && this.embedder == embedder
    {
      this.store := store;
      this.embedder := embedder;
    }
  }

  /** `new Agent(model, undefined, knowledge)`: an immutable binding of a language model and optional knowledge. */
  class Agent {
    const model: LangModel
    const knowledge: Knowledge?

    constructor (model: LangModel, knowledge: Knowledge?)
      ensures this.model == model && this.knowledge == knowledge
    {
      this.model := model;
      this.knowledge := knowledge;
    }
  }

  /** `LangModel.newLocal(name)`: loads a model, or throws. */
  method LoadLangModel(name: string) returns (r: Result<LangModel, string>)
    ensures r.Ok? ==> fresh(r.value) && r.value.name == name
  {
    var succeeded: bool :| true;
    if succeeded {
      var model := new LangModel(name);
      r := Ok(model);
    } else {
      r := Err("language model failed to load");
    }
  }

  /** `EmbeddingModel.newLocal(name)`: loads a model, or throws. */
  method LoadEmbeddingModel(name: string) returns (r: Result<EmbeddingModel, string>)
    ensures r.Ok? ==> fresh(r.value) && r.value.name == name && r.value.requests == []
  {
    var succeeded: bool :| true;
    if succeeded {
      var model := new EmbeddingModel(name);
      r := Ok(model);
    } else {
      r := Err("embedding model failed to load");
    }
  }

  /** `VectorStore.newFaiss(dimension)`: an empty store, or throws. */
  method NewFaiss(dimension: nat) returns (r: Result<VectorStore, string>)
    ensures r.Ok? ==> fresh(r.value) && r.value.dimension == dimension && r.value.records == []
  {
    var succeeded: bool :| true;
    if succeeded {
      var store := new VectorStore(dimension);
      r := Ok(store);
    } else {
      r := Err("vector store failed to open");
    }
  }
}
