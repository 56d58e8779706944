/** Upload validation and the document-processing pipeline (PdfProcessingService): a
    document record is created PENDING, then processing moves it to PROCESSING and on
    to COMPLETED with its chunk count, or to FAILED when any step throws. */
module PdfProcessing {
  import opened Wrappers
  import opened JavaText
  import opened Model
  import opened PdfTextExtractor
  import opened TextChunker
  import opened VectorStorage

  /** The uploaded multipart file: its name, declared content type (may be null), size,
      and what reading it as a PDF gives, namely the raw text of each page or the
      exception PDF loading throws. */
  datatype UploadedFile = UploadedFile(
    originalFilename: string,
    contentType: Option<string>,
    size: int,
    pdf: Result<seq<string>, Exception>)

  /** Lines 40-46: the exception upload validation throws, if any. getContentType() is
      dereferenced, so a missing content type is a NullPointerException. */
  function UploadError(file: UploadedFile): (r: Option<Exception>)
    ensures r.None? <==> file.size != 0 && file.contentType == Some("application/pdf")
    ensures file.size == 0 ==> r == Some(IllegalArgument("File is empty"))
    ensures file.size != 0 && file.contentType.None? ==> r == Some(NullPointer)
    ensures file.size != 0 && file.contentType.Some? && file.contentType.value != "application/pdf" ==>
              r == Some(IllegalArgument("File must be PDF"))
  {
    if file.size == 0 then Some(IllegalArgument("File is empty"))
    else if file.contentType.None? then Some(NullPointer)
    else if file.contentType.value != "application/pdf" then Some(IllegalArgument("File must be PDF"))
    else None
  }

  /** Lines 49-61: the record saved for a valid upload. */
  function NewDocument(id: Uuid, file: UploadedFile, companyName: Option<string>): DocumentRecord
    requires file.contentType.Some?
  {
    DocumentRecord(
      id,
      file.originalFilename,
      companyName,
      Pending,
      0,
      map["originalFilename" := MStr(file.originalFilename),
          "fileSize" := MInt(file.size),
          "contentType" := MStr(file.contentType.value)])
  }

  /** updateDocumentStatus on the table: a missing id changes nothing. */
  function WithStatus(documents: map<Uuid, DocumentRecord>, id: Uuid, status: ProcessingStatus): map<Uuid, DocumentRecord>
  {
    if id in documents then documents[id := documents[id].(status := status)] else documents
  }

  /** updateDocumentCompletion on the table: COMPLETED and the chunk count, or nothing
      for a missing id. */
  function WithCompletion(documents: map<Uuid, DocumentRecord>, id: Uuid, chunkCount: int): map<Uuid, DocumentRecord>
  {
    if id in documents then documents[id := documents[id].(status := Completed, totalChunks := chunkCount)] else documents
  }

  /** Both updates are silent for a missing id and otherwise touch only that record's
      status, plus its chunk count for completion. */
  lemma UpdatesTouchOnlyTheirRecord(documents: map<Uuid, DocumentRecord>, id: Uuid, status: ProcessingStatus, chunkCount: int)
    ensures id !in documents ==> WithStatus(documents, id, status) == documents && WithCompletion(documents, id, chunkCount) == documents
    ensures WithStatus(documents, id, status).Keys == documents.Keys
    ensures WithCompletion(documents, id, chunkCount).Keys == documents.Keys
    ensures forall other :: other in documents && other != id ==>
              WithStatus(documents, id, status)[other] == documents[other] &&
              WithCompletion(documents, id, chunkCount)[other] == documents[other]
    ensures id in documents ==>
              WithStatus(documents, id, status)[id] == documents[id].(status := status) &&
              WithCompletion(documents, id, chunkCount)[id] == documents[id].(status := Completed, totalChunks := chunkCount)
  {
  }

  /** Lines 85-102: extraction, chunking and the document lookup. The result is the
      document's file name and its chunks, or the exception the first failing step
      throws. */
  function Prepare(cfg: ChunkerConfig, documents: map<Uuid, DocumentRecord>, id: Uuid, file: UploadedFile)
    : Result<(string, seq<TextChunk>), Exception>
  {
    match file.pdf
    case Failure(e) => Failure(e)
    case Success(raw) =>
      var pages := ExtractedPages(raw);
      if |pages| == 0 then Failure(Runtime("No text could be extracted from PDF", None))
      else
        var chunks := Chunks(cfg, pages);
        if |chunks| == 0 then Failure(Runtime("No chunks created from PDF text", None))
        else if id !in documents then Failure(Runtime("Document not found", None))
        else Success((documents[id].filename, chunks))
  }

  /** The document table after processDocumentAsync has run to its end. */
  function AfterProcessing(cfg: ChunkerConfig, documents: map<Uuid, DocumentRecord>, id: Uuid, file: UploadedFile, failure: StoreFailure)
    : map<Uuid, DocumentRecord>
  {
    var processing := WithStatus(documents, id, Processing);
    match Prepare(cfg, processing, id, file)
    case Failure(_) => WithStatus(processing, id, Failed)
    case Success((_, chunks)) =>
      if failure.NoFailure? then WithCompletion(processing, id, |chunks|) else WithStatus(processing, id, Failed)
  }

  /** Line 115: the exception processing catches, if any: the first failing step of
      Prepare, or the failing store write. */
  function CaughtException(prepared: Result<(string, seq<TextChunk>), Exception>, failure: StoreFailure): (r: Option<Exception>)
    ensures r.None? <==> prepared.Success? && failure.NoFailure?
    ensures prepared.Failure? ==> r == Some(prepared.error)
  {
    if prepared.Failure? then Some(prepared.error)
    else match failure
      case NoFailure => None
      case VectorStoreFailure(e) => Some(e)
      case RepositoryFailure(e) => Some(e)
  }

  /** Lines 105-108: the vector documents storeChunks adds for the prepared chunks;
      nothing when an earlier step failed or the vector store write fails. */
  function VectorsStored(id: Uuid, prepared: Result<(string, seq<TextChunk>), Exception>, failure: StoreFailure): seq<VectorDocument>
  {
    if prepared.Failure? || failure.VectorStoreFailure? then [] else VectorDocuments(id, prepared.value.0, prepared.value.1)
  }

  /** Lines 105-108: the chunk rows storeChunks adds; nothing unless both writes go through. */
  function RowsStored(id: Uuid, prepared: Result<(string, seq<TextChunk>), Exception>, failure: StoreFailure): seq<DocumentChunkRow>
  {
    if prepared.Success? && failure.NoFailure? then ChunkRows(id, prepared.value.1) else []
  }

  /** Lines 83, 111 and 117: the status saves processing makes, in order: PROCESSING,
      then COMPLETED or FAILED. Both updates save only a record that exists. */
  function StatusWrites(documents: map<Uuid, DocumentRecord>, id: Uuid, caught: Option<Exception>): seq<(Uuid, ProcessingStatus)>
  {
    if id in documents then [(id, Processing), (id, if caught.None? then Completed else Failed)] else []
  }

  /** The table after processing is the PROCESSING table with the completion written
      when nothing was caught, and FAILED written otherwise. */
  lemma AfterProcessingByOutcome(cfg: ChunkerConfig, documents: map<Uuid, DocumentRecord>, id: Uuid, file: UploadedFile, failure: StoreFailure)
    ensures var processing := WithStatus(documents, id, Processing);
      var prepared := Prepare(cfg, processing, id, file);
      AfterProcessing(cfg, documents, id, file, failure)
        == if CaughtException(prepared, failure).None? then WithCompletion(processing, id, |prepared.value.1|)
           else WithStatus(processing, id, Failed)
  {
  }

  /** Processing ends COMPLETED, with the number of chunks that were stored, exactly
      when every step succeeded, and FAILED otherwise, keeping the chunk count of 0 the
      upload gave it; no other record changes, and a missing record stays missing. */
  lemma ProcessingOutcome(cfg: ChunkerConfig, documents: map<Uuid, DocumentRecord>, id: Uuid, file: UploadedFile, failure: StoreFailure)
    ensures AfterProcessing(cfg, documents, id, file, failure).Keys == documents.Keys
    ensures forall other :: other in documents && other != id ==>
              AfterProcessing(cfg, documents, id, file, failure)[other] == documents[other]
    ensures id in documents ==>
              var after := AfterProcessing(cfg, documents, id, file, failure)[id];
              var prepared := Prepare(cfg, WithStatus(documents, id, Processing), id, file);
              && (after.status == Completed || after.status == Failed)
              && (after.status == Completed <==> prepared.Success? && failure.NoFailure?)
              && (after.status == Completed ==> after.totalChunks == |prepared.value.1| > 0)
              && (after.status == Failed ==> after.totalChunks == documents[id].totalChunks)
              && after == documents[id].(status := after.status, totalChunks := after.totalChunks)
  {
  }

  /** With the document present, processing fails exactly when the PDF cannot be read,
      no page has text, no chunk is made, or a store write fails; and the chunk count
      on success is that of chunking the extracted pages. */
  lemma {:induction false} ProcessingSucceedsWhen(cfg: ChunkerConfig, documents: map<Uuid, DocumentRecord>, id: Uuid, file: UploadedFile, failure: StoreFailure)
    requires id in documents
    ensures AfterProcessing(cfg, documents, id, file, failure)[id].status == Completed
        <==> file.pdf.Success? && |ExtractedPages(file.pdf.value)| > 0
             && |Chunks(cfg, ExtractedPages(file.pdf.value))| > 0 && failure.NoFailure?
    ensures AfterProcessing(cfg, documents, id, file, failure)[id].status == Completed ==>
              AfterProcessing(cfg, documents, id, file, failure)[id].totalChunks == |Chunks(cfg, ExtractedPages(file.pdf.value))|
  {
    ProcessingOutcome(cfg, documents, id, file, failure);
  }

  class PdfProcessingService {
    /** The documents table, by id. */
    var documents: map<Uuid, DocumentRecord>
    /** The next id the database hands out; ids below it have been used. */
    var nextId: nat
    /** Every status save the two update methods made, in order. */
    ghost var statusWrites: seq<(Uuid, ProcessingStatus)>
    const chunker: ChunkerConfig
    const storage: VectorStorageService

    /** Every stored record sits under its own id, and that id was handed out. */
    predicate Valid()
      reads this
    {
      forall id :: id in documents ==> id.value < nextId && documents[id].id == id
    }

    constructor(chunker: ChunkerConfig, storage: VectorStorageService)
      ensures Valid()
      ensures documents == map[] && statusWrites == [] && this.chunker == chunker && this.storage == storage
    {
      documents := map[];
      statusWrites := [];
      nextId := 0;
      this.chunker := chunker;
      this.storage := storage;
    }

    /** PdfProcessingService.updateDocumentStatus: any status from any status; a missing
        id is ignored. */
    method UpdateDocumentStatus(id: Uuid, status: ProcessingStatus)
      requires Valid()
      modifies this
      ensures Valid()
      ensures documents == WithStatus(old(documents), id, status)
      ensures statusWrites == old(statusWrites) + (if id in old(documents) then [(id, status)] else [])
      ensures nextId == old(nextId)
    {
      if id in documents {
        documents := documents[id := documents[id].(status := status)];
        statusWrites := statusWrites + [(id, status)];
      }
    }

    /** PdfProcessingService.updateDocumentCompletion. */
    method UpdateDocumentCompletion(id: Uuid, chunkCount: int)
      requires Valid()
      modifies this
      ensures Valid()
      ensures documents == WithCompletion(old(documents), id, chunkCount)
      ensures statusWrites == old(statusWrites) + (if id in old(documents) then [(id, Completed)] else [])
      ensures nextId == old(nextId)
    {
      if id in documents {
        documents := documents[id := documents[id].(status := Completed, totalChunks := chunkCount)];
        statusWrites := statusWrites + [(id, Completed)];
      }
    }

    /** The body of processDocumentAsync, run to its end: PROCESSING, extraction,
        chunking, lookup, storage, then COMPLETED; any exception sets FAILED and is
        rethrown wrapped, with the caught exception as its cause. */
    method ProcessDocument(id: Uuid, file: UploadedFile, failure: StoreFailure) returns (r: Result<(), Exception>)
      requires Valid()
      modifies this, storage
      ensures Valid() && nextId == old(nextId)
      ensures documents == AfterProcessing(chunker, old(documents), id, file, failure)
      ensures var prepared := Prepare(chunker, WithStatus(old(documents), id, Processing), id, file);
        var caught := CaughtException(prepared, failure);
        && (r.Success? <==> caught.None?)
        && (caught.Some? ==> r == Failure(Runtime("Failed to process document", caught)))
        && statusWrites == old(statusWrites) + StatusWrites(old(documents), id, caught)
        && storage.vectorStore == old(storage.vectorStore) + VectorsStored(id, prepared, failure)
        && storage.chunkRepository == old(storage.chunkRepository) + RowsStored(id, prepared, failure)
    {
      UpdateDocumentStatus(id, Processing);
      var prepared := PrepareDocument(id, file);
      AfterProcessingByOutcome(chunker, old(documents), id, file, failure);
      var caught: Option<Exception> := None;
      if prepared.Failure? {
        caught := Some(prepared.error);
      } else {
        var stored := storage.StoreChunks(id, prepared.value.0, prepared.value.1, failure);
        if stored.Failure? {
          caught := Some(stored.error);
        } else {
          UpdateDocumentCompletion(id, |prepared.value.1|);
        }
      }
      if caught.Some? {
        UpdateDocumentStatus(id, Failed);
        r := Failure(Runtime("Failed to process document", caught));
      } else {
        r := Success(());
      }
    }

    /** Lines 85-102 as they run: extract, chunk, look the document up; the first
        failing step gives its exception. */
    method PrepareDocument(id: Uuid, file: UploadedFile) returns (r: Result<(string, seq<TextChunk>), Exception>)
      ensures r == Prepare(chunker, documents, id, file)
    {
      match file.pdf {
        case Failure(e) =>
          r := Failure(e);
        case Success(raw) =>
          var pages := ExtractText(raw);
          if |pages| == 0 {
            return Failure(Runtime("No text could be extracted from PDF", None));
          }
          var chunks := ChunkText(chunker, pages);
          if |chunks| == 0 {
            r := Failure(Runtime("No chunks created from PDF text", None));
          } else if id !in documents {
            r := Failure(Runtime("Document not found", None));
          } else {
            r := Success((documents[id].filename, chunks));
          }
      }
    }

    /** PdfProcessingService.uploadDocument followed by the processing it starts. An
        invalid upload throws before anything is saved; a valid one saves a PENDING record
        with no chunks under a fresh id and returns that record as saved. The processing
        runs on another thread and its exception never reaches the caller; here it runs
        to its end before the method returns. */
    method UploadDocument(file: UploadedFile, companyName: Option<string>, failure: StoreFailure)
      returns (r: Result<DocumentRecord, Exception>)
      requires Valid()
      modifies this, storage
      ensures Valid()
      ensures UploadError(file).Some? ==>
                && r == Failure(UploadError(file).value)
                && documents == old(documents) && nextId == old(nextId) && statusWrites == old(statusWrites)
                && storage.vectorStore == old(storage.vectorStore)
                && storage.chunkRepository == old(storage.chunkRepository)
      ensures UploadError(file).None? ==>
                && r.Success?
                && r.value == NewDocument(Uuid(old(nextId)), file, companyName)
                && r.value.id !in old(documents)
                && documents == AfterProcessing(chunker, old(documents)[r.value.id := r.value], r.value.id, file, failure)
                && var prepared := Prepare(chunker, WithStatus(old(documents)[r.value.id := r.value], r.value.id, Processing), r.value.id, file);
                   && statusWrites == old(statusWrites)
                        + [(r.value.id, Processing),
                           (r.value.id, if CaughtException(prepared, failure).None? then Completed else Failed)]
                   && storage.vectorStore == old(storage.vectorStore) + VectorsStored(r.value.id, prepared, failure)
                   && storage.chunkRepository == old(storage.chunkRepository) + RowsStored(r.value.id, prepared, failure)
    {
      var error := UploadError(file);
      if error.Some? {
        return Failure(error.value);
      }
      var document := NewDocument(Uuid(nextId), file, companyName);
      documents := documents[document.id := document];
      nextId := nextId + 1;
      var _ := ProcessDocument(document.id, file, failure);
      r := Success(document);
    }
  }
}
