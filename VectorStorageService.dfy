/** Storage of chunks in the vector store and the relational chunk table, and the
    mapping of similarity-search results back to retrieved chunks
    (VectorStorageService). The vector store's embedding and nearest-neighbour search
    are not visible here: the search is a function parameter. */
module VectorStorage {
  import opened Wrappers
  import opened JavaText
  import opened Model
  import opened TextChunker

  /** A Spring AI Document as handed to and returned by the vector store. The random
      record identifier is not modelled. */
  datatype VectorDocument = VectorDocument(content: string, metadata: Metadata)

  /** SearchRequest: query, top-k, similarity threshold and optional filter expression. */
  datatype SearchRequest = SearchRequest(
    query: string,
    topK: int,
    similarityThreshold: real,
    filterExpression: Option<string>)

  /** VectorStorageService.RetrievedChunk. Every field but the text and the document id is
      a nullable reference in the source. */
  datatype RetrievedChunk = RetrievedChunk(
    text: string,
    documentId: Uuid,
    documentName: Option<string>,
    pageNumber: Option<int>,
    chunkIndex: Option<int>,
    similarityScore: Option<real>)

  /** The exception, if any, that one of the two external writes of storeChunks throws. */
  datatype StoreFailure = NoFailure | VectorStoreFailure(vectorError: Exception) | RepositoryFailure(repositoryError: Exception)

  // ---------------------------------------------------------------------------
  // storeChunks
  // ---------------------------------------------------------------------------

  /** Lines 46-50: a copy of the chunk's metadata with the document id (as text), the
      document name, the chunk index and the page number put over it. */
  function StoredMetadata(documentId: Uuid, documentName: string, chunk: TextChunk): Metadata
  {
    chunk.metadata
      ["documentId" := MStr(UuidToString(documentId))]
      ["documentName" := MStr(documentName)]
      ["chunkIndex" := MInt(chunk.chunkIndex)]
      ["pageNumber" := PageValue(chunk.pageNumber)]
  }

  /** The four keys are set to the document's and the chunk's values, and every other
      key of the chunk's metadata is carried over unchanged. */
  lemma StoredMetadataOverrides(documentId: Uuid, documentName: string, chunk: TextChunk)
    ensures StoredMetadata(documentId, documentName, chunk).Keys
         == chunk.metadata.Keys + {"documentId", "documentName", "chunkIndex", "pageNumber"}
    ensures StoredMetadata(documentId, documentName, chunk)["documentId"] == MStr(UuidToString(documentId))
    ensures StoredMetadata(documentId, documentName, chunk)["documentName"] == MStr(documentName)
    ensures StoredMetadata(documentId, documentName, chunk)["chunkIndex"] == MInt(chunk.chunkIndex)
    ensures StoredMetadata(documentId, documentName, chunk)["pageNumber"] == PageValue(chunk.pageNumber)
    ensures forall key :: key in chunk.metadata && key !in {"documentId", "documentName", "chunkIndex", "pageNumber"} ==>
              StoredMetadata(documentId, documentName, chunk)[key] == chunk.metadata[key]
  {
  }

  /** Lines 44-57: one vector-store document per chunk, in order. */
  function VectorDocuments(documentId: Uuid, documentName: string, chunks: seq<TextChunk>): (r: seq<VectorDocument>)
    ensures |r| == |chunks|
    ensures forall i :: 0 <= i < |chunks| ==>
              r[i] == VectorDocument(chunks[i].text, StoredMetadata(documentId, documentName, chunks[i]))
  {
    seq(|chunks|, i requires 0 <= i < |chunks| =>
      VectorDocument(chunks[i].text, StoredMetadata(documentId, documentName, chunks[i])))
  }

  /** Lines 63-71: one chunk row per chunk, in order, with the chunk's own metadata. */
  function ChunkRows(documentId: Uuid, chunks: seq<TextChunk>): (r: seq<DocumentChunkRow>)
    ensures |r| == |chunks|
    ensures forall i :: 0 <= i < |chunks| ==>
              r[i] == DocumentChunkRow(documentId, chunks[i].text, chunks[i].chunkIndex, chunks[i].pageNumber, chunks[i].metadata)
  {
    seq(|chunks|, i requires 0 <= i < |chunks| =>
      DocumentChunkRow(documentId, chunks[i].text, chunks[i].chunkIndex, chunks[i].pageNumber, chunks[i].metadata))
  }

  // ---------------------------------------------------------------------------
  // searchSimilarChunks
  // ---------------------------------------------------------------------------

  /** Lines 85-93: the request carries top-k and the threshold unchanged, and a filter on
      the document id only when one is given. */
  function BuildSearchRequest(query: string, topK: int, similarityThreshold: real, documentId: Option<Uuid>): (r: SearchRequest)
    ensures r.query == query && r.topK == topK && r.similarityThreshold == similarityThreshold
    ensures r.filterExpression.Some? <==> documentId.Some?
    ensures documentId.Some? ==> r.filterExpression.value == "documentId == '" + UuidToString(documentId.value) + "'"
  {
    var filter := match documentId
      case Some(id) => Some("documentId == '" + UuidToString(id) + "'")
      case None => None;
    SearchRequest(query, topK, similarityThreshold, filter)
  }

  /** A (String) cast of a metadata entry: absent and null give null, a non-string
      value is a ClassCastException. */
  function CastString(m: Metadata, key: string): (r: Result<Option<string>, Exception>)
    ensures r == Success(None) <==> key !in m || m[key].MNull?
    ensures r.Failure? <==> key in m && (m[key].MInt? || m[key].MReal?)
    ensures r.Failure? ==> r.error == ClassCast
    ensures r.Success? && r.value.Some? ==> m[key] == MStr(r.value.value)
  {
    if key !in m then Success(None)
    else match m[key]
      case MNull => Success(None)
      case MStr(s) => Success(Some(s))
      case _ => Failure(ClassCast)
  }

  /** An (Integer) cast of a metadata entry. */
  function CastInteger(m: Metadata, key: string): (r: Result<Option<int>, Exception>)
    ensures r == Success(None) <==> key !in m || m[key].MNull?
    ensures r.Failure? <==> key in m && (m[key].MStr? || m[key].MReal?)
    ensures r.Failure? ==> r.error == ClassCast
    ensures r.Success? && r.value.Some? ==> m[key] == MInt(r.value.value)
  {
    if key !in m then Success(None)
    else match m[key]
      case MNull => Success(None)
      case MInt(i) => Success(Some(i))
      case _ => Failure(ClassCast)
  }

  /** (Double) metadata.getOrDefault("distance", 0.0): the default only when the key is
      absent; a key mapped to null gives null. */
  function DistanceOf(m: Metadata): (r: Result<Option<real>, Exception>)
    ensures "distance" !in m ==> r == Success(Some(0.0))
    ensures r == Success(None) <==> "distance" in m && m["distance"].MNull?
    ensures r.Failure? <==> "distance" in m && (m["distance"].MInt? || m["distance"].MStr?)
    ensures r.Failure? ==> r.error == ClassCast
    ensures "distance" in m && r.Success? && r.value.Some? ==> m["distance"] == MReal(r.value.value)
  {
    if "distance" !in m then Success(Some(0.0))
    else match m["distance"]
      case MNull => Success(None)
      case MReal(r) => Success(Some(r))
      case _ => Failure(ClassCast)
  }

  /** Lines 101-110: one search result read back, field by field in builder order; the
      first field that cannot be read decides the exception. UUID.fromString(null) is a
      NullPointerException. */
  function ToRetrievedChunk(doc: VectorDocument): Result<RetrievedChunk, Exception>
  {
    var m := doc.metadata;
    match CastString(m, "documentId")
    case Failure(e) => Failure(e)
    case Success(None) => Failure(NullPointer)
    case Success(Some(idText)) =>
      match UuidFromString(idText)
      case Failure(e) => Failure(e)
      case Success(id) =>
        match CastString(m, "documentName")
        case Failure(e) => Failure(e)
        case Success(name) =>
          match CastInteger(m, "pageNumber")
          case Failure(e) => Failure(e)
          case Success(page) =>
            match CastInteger(m, "chunkIndex")
            case Failure(e) => Failure(e)
            case Success(index) =>
              match DistanceOf(m)
              case Failure(e) => Failure(e)
              case Success(score) => Success(RetrievedChunk(doc.content, id, name, page, index, score))
  }

  /** The document id decides first: absent or null is a NullPointerException, a value
      that is not a string is a ClassCastException, and text that is not an identifier is
      an IllegalArgumentException naming that text. */
  lemma ToRetrievedChunkIdErrors(doc: VectorDocument)
    ensures "documentId" !in doc.metadata || doc.metadata["documentId"].MNull? ==>
              ToRetrievedChunk(doc) == Failure(NullPointer)
    ensures "documentId" in doc.metadata && (doc.metadata["documentId"].MInt? || doc.metadata["documentId"].MReal?) ==>
              ToRetrievedChunk(doc) == Failure(ClassCast)
    ensures "documentId" in doc.metadata && doc.metadata["documentId"].MStr?
              && UuidFromString(doc.metadata["documentId"].s).Failure? ==>
              ToRetrievedChunk(doc) == Failure(IllegalArgument("Invalid UUID string: " + doc.metadata["documentId"].s))
  {
  }

  /** The stream map over the results: the first result that cannot be read throws. */
  function ToRetrievedChunks(docs: seq<VectorDocument>): Result<seq<RetrievedChunk>, Exception>
  {
    if |docs| == 0 then Success([])
    else match ToRetrievedChunk(docs[0])
      case Failure(e) => Failure(e)
      case Success(c) =>
        match ToRetrievedChunks(docs[1..])
        case Failure(e) => Failure(e)
        case Success(cs) => Success([c] + cs)
  }

  /** The results map one to one and in order: the mapping succeeds exactly when every
      result can be read, then result i is read from document i; otherwise the exception
      is that of the first unreadable document. */
  lemma {:induction false} ToRetrievedChunksOneToOne(docs: seq<VectorDocument>)
    ensures ToRetrievedChunks(docs).Success? <==> forall i :: 0 <= i < |docs| ==> ToRetrievedChunk(docs[i]).Success?
    ensures ToRetrievedChunks(docs).Success? ==>
              |ToRetrievedChunks(docs).value| == |docs| &&
              forall i :: 0 <= i < |docs| ==> ToRetrievedChunks(docs).value[i] == ToRetrievedChunk(docs[i]).value
    ensures ToRetrievedChunks(docs).Failure? ==>
              exists i :: 0 <= i < |docs| && ToRetrievedChunk(docs[i]).Failure?
                && ToRetrievedChunks(docs).error == ToRetrievedChunk(docs[i]).error
                && forall j :: 0 <= j < i ==> ToRetrievedChunk(docs[j]).Success?
  {
    if |docs| > 0 {
      var rest := docs[1..];
      ToRetrievedChunksOneToOne(rest);
      assert forall i :: 1 <= i < |docs| ==> docs[i] == rest[i - 1];
      if ToRetrievedChunk(docs[0]).Success? && ToRetrievedChunks(rest).Failure? {
        var i :| 0 <= i < |rest| && ToRetrievedChunk(rest[i]).Failure?
                 && ToRetrievedChunks(rest).error == ToRetrievedChunk(rest[i]).error
                 && forall j :: 0 <= j < i ==> ToRetrievedChunk(rest[j]).Success?;
        assert docs[i + 1] == rest[i];
      }
    }
  }

  /** What storeChunks wrote reads back as the chunk it came from: its text, the
      document's id and name, the chunk's page and index, and the distance the store
      attached (0.0 when it attached none). */
  lemma StoredDocumentReadsBack(documentId: Uuid, documentName: string, chunk: TextChunk, distance: Option<real>)
    requires "distance" !in chunk.metadata
    ensures var stored := StoredMetadata(documentId, documentName, chunk);
      var returned := if distance.Some? then stored["distance" := MReal(distance.value)] else stored;
      ToRetrievedChunk(VectorDocument(chunk.text, returned))
        == Success(RetrievedChunk(chunk.text, documentId, Some(documentName), chunk.pageNumber,
                                  Some(chunk.chunkIndex), Some(distance.GetOr(0.0))))
  {
    UuidRoundTrip(documentId);
  }

  // ---------------------------------------------------------------------------
  // The service: the two stores it writes to
  // ---------------------------------------------------------------------------

  class VectorStorageService {
    /** rag.retrieval.top-k (default 5) and rag.retrieval.similarity-threshold (default 0.7). */
    const topK: int
    const similarityThreshold: real

    /** The contents of the vector store and of the document_chunks table. */
    var vectorStore: seq<VectorDocument>
    var chunkRepository: seq<DocumentChunkRow>

    constructor(topK: int, similarityThreshold: real)
      ensures this.topK == topK && this.similarityThreshold == similarityThreshold
      ensures vectorStore == [] && chunkRepository == []
    {
      this.topK := topK;
      this.similarityThreshold := similarityThreshold;
      vectorStore := [];
      chunkRepository := [];
    }

    /** VectorStorageService.storeChunks. The vector store is written first, then the
        relational table; a failure of either write is passed through, and a failure of
        the second leaves the first in place. */
    method StoreChunks(documentId: Uuid, documentName: string, chunks: seq<TextChunk>, failure: StoreFailure)
      returns (r: Result<(), Exception>)
      modifies this
      ensures failure.NoFailure? <==> r.Success?
      ensures failure.VectorStoreFailure? ==> r == Failure(failure.vectorError)
      ensures failure.RepositoryFailure? ==> r == Failure(failure.repositoryError)
      ensures vectorStore == old(vectorStore)
                + (if failure.VectorStoreFailure? then [] else VectorDocuments(documentId, documentName, chunks))
      ensures chunkRepository == old(chunkRepository)
                + (if failure.NoFailure? then ChunkRows(documentId, chunks) else [])
    {
      var documents := VectorDocuments(documentId, documentName, chunks);
      if failure.VectorStoreFailure? {
        return Failure(failure.vectorError);
      }
      vectorStore := vectorStore + documents;
      var rows := ChunkRows(documentId, chunks);
      if failure.RepositoryFailure? {
        return Failure(failure.repositoryError);
      }
      chunkRepository := chunkRepository + rows;
      r := Success(());
    }

    /** VectorStorageService.searchSimilarChunks. The store's similarity search is
        passed the request; its results are mapped without further filtering or
        truncation, and the company name is not used. */
    function SearchSimilarChunks(
      query: string,
      documentId: Option<Uuid>,
      companyName: Option<string>,
      similaritySearch: (SearchRequest, seq<VectorDocument>) -> Result<seq<VectorDocument>, Exception>)
      : (r: Result<seq<RetrievedChunk>, Exception>)
      reads this
      ensures var found := similaritySearch(BuildSearchRequest(query, topK, similarityThreshold, documentId), vectorStore);
        && (found.Failure? ==> r == Failure(found.error))
        && (found.Success? ==>
              && (r.Success? <==> forall i :: 0 <= i < |found.value| ==> ToRetrievedChunk(found.value[i]).Success?)
              && (r.Success? ==>
                    && |r.value| == |found.value|
                    && forall i :: 0 <= i < |found.value| ==> r.value[i] == ToRetrievedChunk(found.value[i]).value))
    {
      match similaritySearch(BuildSearchRequest(query, topK, similarityThreshold, documentId), vectorStore)
      case Failure(e) => Failure(e)
      case Success(docs) =>
        ToRetrievedChunksOneToOne(docs);
        ToRetrievedChunks(docs)
    }
  }
}
