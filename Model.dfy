/** Entities shared by the services: identifiers, metadata values, exceptions and the
    two persisted records (documents and document chunks). */
module Model {
  import opened Wrappers
  import opened JavaText

  /** A value stored in a free-form metadata map (java.lang.Object in the source). */
  datatype MetaValue = MNull | MInt(i: int) | MStr(s: string) | MReal(r: real)

  type Metadata = map<string, MetaValue>

  /** The exceptions the core throws or lets through. A RuntimeException the code
      raises itself may carry the exception it wraps as its cause. Those raised by the
      JVM itself (null dereference, failed cast) are not given their message text. */
  datatype Exception =
    | IllegalArgument(message: string)
    | NullPointer
    | ClassCast
    | Runtime(message: string, cause: Option<Exception>)

  /** Throwable.getMessage(), as string concatenation renders it. The JVM-raised
      exceptions render as "null", the text of an absent message. */
  function MessageText(e: Exception): string
  {
    match e
    case IllegalArgument(m) => m
    case Runtime(m, _) => m
    case NullPointer => "null"
    case ClassCast => "null"
  }

  /** An opaque document identifier, rendered as text by UuidToString. */
  datatype Uuid = Uuid(value: nat)

  function UuidToString(u: Uuid): string
  {
    NatToString(u.value)
  }

  /** UUID.fromString: a malformed string is an IllegalArgumentException. */
  function UuidFromString(s: string): (r: Result<Uuid, Exception>)
    ensures r.Failure? ==> r.error == IllegalArgument("Invalid UUID string: " + s)
  {
    match ParseNat(s)
    case Some(n) => Success(Uuid(n))
    case None => Failure(IllegalArgument("Invalid UUID string: " + s))
  }

  /** An identifier written as text reads back as itself. */
  lemma UuidRoundTrip(u: Uuid)
    ensures UuidFromString(UuidToString(u)) == Success(u)
  {
    ParseNatToString(u.value);
  }

  /** Document.ProcessingStatus. */
  datatype ProcessingStatus = Pending | Processing | Completed | Failed

  /** The persisted Document entity (timestamps are not modelled). */
  datatype DocumentRecord = DocumentRecord(
    id: Uuid,
    filename: string,
    companyName: Option<string>,
    status: ProcessingStatus,
    totalChunks: int,
    metadata: Metadata)

  /** The persisted DocumentChunk entity. */
  datatype DocumentChunkRow = DocumentChunkRow(
    documentId: Uuid,
    chunkText: string,
    chunkIndex: int,
    pageNumber: Option<int>,
    metadata: Metadata)
}
