/** The DHT message: one record with optional fields for every message type. Decoding is taken to be
    the inverse of encoding, so messages are handled as values. */
module Messages {
  import opened Ids
  import opened Routing
  import opened Chunks
  import opened Files

  datatype MsgType =
    | Ping | Pong | FindNode | Nodes
    | StoreChunk | StoreChunkResult | GetChunk | ChunkData
    | StoreFileProvider | GetFileProviders | FileProviders
    | GetFileMeta | FileMetaReply
    | Unknown(name: string)

  /** Empty strings and lists stand for omitted fields, as in the JSON form. */
  datatype Message = Message(
    typ: MsgType,
    from: Id,
    nodeAddr: string := "",
    requestId: string := "",
    error: string := "",
    target: Option<Id> := None,
    nodes: seq<Contact> := [],
    chunkId: string := "",
    chunkData: Bytes := [],
    fileRoot: string := "",
    providers: seq<Contact> := [],
    fileMeta: Option<FileMeta> := None)

  /** isResponseType: the replies that carry a request identifier. */
  predicate IsResponseType(t: MsgType) {
    t == StoreChunkResult || t == ChunkData || t == FileProviders || t == FileMetaReply
  }

  /** The requests whose sender waits for an answer. */
  predicate IsCorrelatedRequest(t: MsgType) {
    t == StoreChunk || t == GetChunk || t == GetFileProviders || t == GetFileMeta
  }

  /** The answer type of each correlated request. */
  function AnswerType(t: MsgType): (a: MsgType)
    requires IsCorrelatedRequest(t)
    ensures IsResponseType(a)
  {
    match t
    case StoreChunk => StoreChunkResult
    case GetChunk => ChunkData
    case GetFileProviders => FileProviders
    case _ => FileMetaReply
  }

  /** The replies that are correlated are exactly the answers to correlated requests. */
  lemma ResponsesAreAnswers(t: MsgType)
    ensures IsResponseType(t) <==> exists q :: IsCorrelatedRequest(q) && AnswerType(q) == t
  {
    if IsResponseType(t) {
      var q := if t == StoreChunkResult then StoreChunk else if t == ChunkData then GetChunk
               else if t == FileProviders then GetFileProviders else GetFileMeta;
      assert AnswerType(q) == t;
    }
  }
}
