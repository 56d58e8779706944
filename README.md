# Earnings-call RAG: ingestion and answer assembly in Dafny

This project models the core of a retrieval-augmented question-answering service for
earnings-call transcripts. It covers the service's two pipelines, ingestion and answering.

- **Ingestion.** A PDF upload is validated and recorded as a PENDING document
  (`PdfProcessingService`). Processing first moves the document to PROCESSING. Its pages
  are then cleaned and the blank ones dropped (`PdfTextExtractor`). The page text is cut
  into sentence-aware, overlapping chunks (`TextChunker`). The chunks are written to the
  vector store and to the chunk table (`VectorStorageService.storeChunks`). The document
  then moves to COMPLETED with its chunk count, or to FAILED when any step throws.
- **Answering.** Similarity-search results are read back into retrieved chunks
  (`VectorStorageService.searchSimilarChunks`). `RagService` renders them into a context,
  trims the language model's answer or substitutes a fallback, builds one citation per
  chunk, and takes the mean similarity as the confidence.

Modules, one per source file plus shared ones:

- `Wrappers` holds `Option` and `Result`.
- `JavaText` holds the Java string operations the core relies on. These are `String.trim`
  (it strips every character up to U+0020), `indexOf`, `Collectors.joining`, and the
  decimal text of an identifier.
- `Model` holds the shared entities: metadata values, exceptions, document identifiers,
  the `ProcessingStatus` enum, the document record and the chunk row.
- `PdfTextExtractor` holds `cleanText` as a pipeline of functions, and `extractText`'s page
  loop as a method proved equal to the function `ExtractedPages`.
- `TextChunker` holds `splitIntoSentences` and `getOverlapText` as functions. `chunkText`
  is two methods with loops, proved equal to the step functions `AddSentence`,
  `AddSentences`, `AddPages` and `Finish`. The invariants are proved about those
  functions.
- `VectorStorage` holds the metadata construction and result mapping as functions. The
  service is a class whose fields are the vector store and the chunk table.
- `PdfProcessing` holds the processing service as a class whose field is the document
  table, a map from id to record. `AfterProcessing` is the table that results from one
  processing run. A ghost field records every status save in order, so the PROCESSING
  save that the final table overwrites is still visible.
- `Rag` holds `answerQuestion` as a function. Retrieval and generation are passed in as
  function parameters.

Behaviour of the code worth knowing, which the model keeps as written:

- **Empty answer.** An empty answer from the language model stays empty after the trim.
  Only a null answer becomes "Unable to generate answer".
- **No transition guard.** Any status can be written from any status.
  `updateDocumentCompletion` on a missing id is silent, like `updateDocumentStatus`.
- **Similarity is a distance.** The similarity score is read from the "distance" metadata
  key. It defaults to 0.0 only when the key is absent; a key holding null gives null, and
  then averaging fails.
- **Chunk count.** A FAILED document keeps the chunk count of 0 it was created with.
- **Vector write not undone.** If the chunk-table write fails, the vector-store write stays
  in the model.
- **Upload waits for processing.** Processing runs to its end before the upload returns.
  In the source it runs on another thread, and its exception never reaches the uploader.

## Model

| member | source | states |
|---|---|---|
| `TextChunker.ChunkText` | src/main/java/com/earningscall/rag/util/TextChunker.java:24-94 | chunkText's page loop and final flush return exactly `Chunks(cfg, pages)`: the state after feeding every page's sentences, with the last buffer emitted when it is not blank |
| `TextChunker.AddPageSentences` | src/main/java/com/earningscall/rag/util/TextChunker.java:37-71 | the sentence loop over the mutable buffer, length counter, chunk index and page number ends in exactly the state `AddSentences` describes |
| `TextChunker.ChunksWellFormed` | src/main/java/com/earningscall/rag/util/TextChunker.java:28-29 | no pages give no chunks; chunk k has index k, non-empty text equal to its own trim, the first page's number, and metadata `pageNumber`/`chunkIndex` equal to those fields |
| `TextChunker.AddPagesConsistent` | src/main/java/com/earningscall/rag/util/TextChunker.java:68-70 | after any pages, the length counter equals the buffer length and the next index equals the number of chunks; the recorded page number is the first page's, never reset |
| `TextChunker.AddSentencesConsistent` | src/main/java/com/earningscall/rag/util/TextChunker.java:37-71 | the sentence loop keeps `currentLength == currentChunk.length()` and sequential, well-formed chunks; it records the page number only while none is recorded |
| `TextChunker.AddSentenceConsistent` | src/main/java/com/earningscall/rag/util/TextChunker.java:38-70 | one sentence step keeps the state consistent, and the page number once set never changes |
| `TextChunker.FlushConsistent` | src/main/java/com/earningscall/rag/util/TextChunker.java:42-62 | a flush keeps the state consistent (counter equals buffer length, next index equals chunk count, every chunk well formed at its index) and keeps the recorded page number |
| `TextChunker.AddSentenceEmitsOnOverflow` | src/main/java/com/earningscall/rag/util/TextChunker.java:41-57 | a step emits a chunk exactly when the sentence would overflow a non-blank buffer; that chunk is the trimmed old buffer under the next index, and otherwise chunks and index are unchanged |
| `TextChunker.AddSentenceKeepsSentenceWhole` | src/main/java/com/earningscall/rag/util/TextChunker.java:59-66 | every sentence is appended whole plus one space: without overflow after the old buffer, on overflow after `OverlapText` of the old buffer, with the counter restarting at that overlap's length |
| `TextChunker.FittingSentences` | src/main/java/com/earningscall/rag/util/TextChunker.java:37-71 | sentences that fit leave the space-joined sentences plus a trailing space in the buffer and no chunk |
| `TextChunker.SinglePageThatFits` | src/main/java/com/earningscall/rag/util/TextChunker.java:75-90 | a single page whose sentences joined by single spaces fit gives exactly one chunk (that text trimmed, index 0, its page) or none when blank |
| `TextChunker.SplitIntoSentences` | src/main/java/com/earningscall/rag/util/TextChunker.java:96-100 | `split("(?<=[.!?])\\s+")` yields at least one piece |
| `TextChunker.SplitLosesOnlyBreaks` | src/main/java/com/earningscall/rag/util/TextChunker.java:96-100 | the text is its sentences interleaved with non-empty whitespace runs: splitting drops only the matched runs |
| `TextChunker.SentencesEndWithTerminator` | src/main/java/com/earningscall/rag/util/TextChunker.java:98 | every piece but the last is non-empty and ends in '.', '!' or '?' |
| `TextChunker.SentencesNonEmpty` | src/main/java/com/earningscall/rag/util/TextChunker.java:98-99 | "" gives [""], and otherwise no piece is empty (trailing empty pieces are dropped) |
| `TextChunker.SentencesHaveNoBreak` | src/main/java/com/earningscall/rag/util/TextChunker.java:98 | no piece contains a terminator followed by whitespace: the text is cut at every match |
| `TextChunker.FirstBreakFrom` | src/main/java/com/earningscall/rag/util/TextChunker.java:98 | the next match of the split pattern is the first position with a terminator before it and \s at it |
| `TextChunker.SpaceRunEnd` | src/main/java/com/earningscall/rag/util/TextChunker.java:98 | the greedy `\s+` run ends at the first non-\s character |
| `TextChunker.OverlapText` | src/main/java/com/earningscall/rag/util/TextChunker.java:102-116 | the result is a suffix of the buffer, the whole buffer when at most `overlapSize` long, and otherwise at most `overlapSize` long |
| `TextChunker.OverlapTextWordBoundary` | src/main/java/com/earningscall/rag/util/TextChunker.java:107-113 | of a longer buffer, the window of its last n characters is kept, cut just after its first space exactly when that space is at 0 < f < n/2 |
| `TextChunker.CutAtFirstSpace` | src/main/java/com/earningscall/rag/util/TextChunker.java:109-115 | the word-boundary cut returns a suffix of the window |
| `TextChunker.CutAtFirstSpaceWhere` | src/main/java/com/earningscall/rag/util/TextChunker.java:109-113 | a shorter result starts right after the window's first space, which lies in 0 < f < \|w\|/2; an uncut window has no such space |
| `PdfTextExtractor.ExtractText` | src/main/java/com/earningscall/rag/util/PdfTextExtractor.java:19-46 | the page loop returns exactly `ExtractedPages(raw)` |
| `PdfTextExtractor.ExtractedPagesAreCleanedPages` | src/main/java/com/earningscall/rag/util/PdfTextExtractor.java:32-38 | every kept page carries exactly the cleaned text of its own 1-based page number, and that text is non-empty |
| `PdfTextExtractor.ExtractedPagesAscending` | src/main/java/com/earningscall/rag/util/PdfTextExtractor.java:28-39 | kept pages come out in strictly ascending page number |
| `PdfTextExtractor.ExtractedPagesComplete` | src/main/java/com/earningscall/rag/util/PdfTextExtractor.java:37-38 | every page whose cleaned text is not blank is kept |
| `PdfTextExtractor.CollapseWhitespace` | src/main/java/com/earningscall/rag/util/PdfTextExtractor.java:50 | `replaceAll("\\s+", " ")` never lengthens the text |
| `PdfTextExtractor.CollapseWhitespaceShape` | src/main/java/com/earningscall/rag/util/PdfTextExtractor.java:50 | afterwards no \t, \n, \x0B, \f or \r remains and no two spaces are adjacent; the result starts with a space exactly when the input starts with \s |
| `PdfTextExtractor.SkipSpaces` | src/main/java/com/earningscall/rag/util/PdfTextExtractor.java:50 | the leading \s run is removed, leaving a suffix that does not start with \s |
| `PdfTextExtractor.RemoveControlChars` | src/main/java/com/earningscall/rag/util/PdfTextExtractor.java:53 | deleting the control class never lengthens the text |
| `PdfTextExtractor.RemoveControlCharsKeeps` | src/main/java/com/earningscall/rag/util/PdfTextExtractor.java:53 | a character survives exactly when it occurs in the input outside \x00-\x08, \x0B, \x0C, \x0E-\x1F |
| `PdfTextExtractor.ReplaceCr` | src/main/java/com/earningscall/rag/util/PdfTextExtractor.java:56 | `replace("\r", "\n")` keeps the length |
| `PdfTextExtractor.ReplaceCrMaps` | src/main/java/com/earningscall/rag/util/PdfTextExtractor.java:56 | each \r becomes \n and every other character stays in place |
| `PdfTextExtractor.NormalizeRemovesCr` | src/main/java/com/earningscall/rag/util/PdfTextExtractor.java:56 | no carriage return survives the line-break normalisation |
| `PdfTextExtractor.NormalizeWithoutCr` | src/main/java/com/earningscall/rag/util/PdfTextExtractor.java:56 | without a carriage return the normalisation changes nothing |
| `PdfTextExtractor.ReplaceCrLfWithoutCr` | src/main/java/com/earningscall/rag/util/PdfTextExtractor.java:56 | without a carriage return `replace("\r\n", "\n")` changes nothing |
| `PdfTextExtractor.CollapsedAndStrippedChars` | src/main/java/com/earningscall/rag/util/PdfTextExtractor.java:50-53 | after lines 50 and 53 every character is at least U+0020 |
| `PdfTextExtractor.LineBreakStepIsNoOp` | src/main/java/com/earningscall/rag/util/PdfTextExtractor.java:50-56 | the line-break normalisation is a no-op because line 50 already removed every \r and \n |
| `PdfTextExtractor.TrimPrintable` | src/main/java/com/earningscall/rag/util/PdfTextExtractor.java:58 | trimming printable text keeps it printable and leaves no space at either end |
| `PdfTextExtractor.CleanTextCharacters` | src/main/java/com/earningscall/rag/util/PdfTextExtractor.java:48-59 | every character of cleanText's result is at least U+0020, and the result has no leading or trailing space |
| `PdfTextExtractor.CollapseFixesSingleSpaced` | src/main/java/com/earningscall/rag/util/PdfTextExtractor.java:50 | text without layout characters or adjacent spaces is left unchanged by line 50 |
| `PdfTextExtractor.RemoveControlFixesCleanChars` | src/main/java/com/earningscall/rag/util/PdfTextExtractor.java:53 | text without control characters is left unchanged by line 53 |
| `PdfTextExtractor.CleanTextFixesCleanForm` | src/main/java/com/earningscall/rag/util/PdfTextExtractor.java:48-59 | text already in clean form (printable, single-spaced, trimmed) is a fixed point of cleanText |
| `PdfTextExtractor.CollapseKeepsSingleSpaces` | src/main/java/com/earningscall/rag/util/PdfTextExtractor.java:50 | "a \x01 b" passes line 50 unchanged |
| `PdfTextExtractor.RemoveControlLeavesDoubleSpace` | src/main/java/com/earningscall/rag/util/PdfTextExtractor.java:53 | line 53 turns "a \x01 b" into "a  b", with two adjacent spaces |
| `PdfTextExtractor.CollapseMergesDoubleSpace` | src/main/java/com/earningscall/rag/util/PdfTextExtractor.java:50 | line 50 turns "a  b" into "a b" |
| `PdfTextExtractor.RemoveControlKeepsPlain` | src/main/java/com/earningscall/rag/util/PdfTextExtractor.java:53 | "a b" passes line 53 unchanged |
| `PdfTextExtractor.CleanTextNotIdempotent` | src/main/java/com/earningscall/rag/util/PdfTextExtractor.java:50-53 | cleanText("a \x01 b") is "a  b" but cleanText("a  b") is "a b": cleaning twice differs from cleaning once |
| `JavaText.Trim` | src/main/java/com/earningscall/rag/util/PdfTextExtractor.java:58 | `String.trim` returns a slice no longer than the input, neither end of which is a character up to U+0020 |
| `JavaText.TrimIsSlice` | src/main/java/com/earningscall/rag/util/TextChunker.java:42 | the trim is the input with only characters up to U+0020 removed from the two ends |
| `JavaText.TrimFixpoint` | src/main/java/com/earningscall/rag/util/TextChunker.java:42 | a string equals its trim exactly when neither end is trimmable |
| `JavaText.TrimIdempotent` | src/main/java/com/earningscall/rag/util/TextChunker.java:42 | trimming twice is trimming once |
| `JavaText.TrimEmptyIffBlank` | src/main/java/com/earningscall/rag/util/TextChunker.java:44 | the trim is empty exactly when every character is up to U+0020 |
| `JavaText.TrimDropsTrailingSpace` | src/main/java/com/earningscall/rag/util/TextChunker.java:65-76 | a trailing appended space disappears under trim |
| `JavaText.IndexOf` | src/main/java/com/earningscall/rag/util/TextChunker.java:109 | `indexOf` answers -1 or a position inside the string |
| `JavaText.IndexOfFirst` | src/main/java/com/earningscall/rag/util/TextChunker.java:109 | -1 exactly when the character is absent, and otherwise its first occurrence |
| `JavaText.JoinLength` | src/main/java/com/earningscall/rag/service/RagService.java:116 | `joining(sep)` of n parts has their total length plus n-1 separators |
| `JavaText.JoinStartsWithFirst` | src/main/java/com/earningscall/rag/service/RagService.java:116 | the joined text starts with the first part |
| `JavaText.ParseNatToString` | src/main/java/com/earningscall/rag/service/VectorStorageService.java:47 | an identifier written as text parses back to itself |
| `Model.UuidFromString` | src/main/java/com/earningscall/rag/service/VectorStorageService.java:105 | malformed identifier text is an IllegalArgumentException naming it |
| `Model.UuidRoundTrip` | src/main/java/com/earningscall/rag/service/VectorStorageService.java:47 | `UUID.fromString(id.toString())` gives back id |
| `VectorStorage.VectorStorageService.constructor` | src/main/java/com/earningscall/rag/service/VectorStorageService.java:27-34 | the service starts with the configured top-k and threshold and both stores empty |
| `VectorStorage.VectorStorageService.StoreChunks` | src/main/java/com/earningscall/rag/service/VectorStorageService.java:40-76 | the vector store gains one document per chunk before the chunk table gains one row per chunk; a failure of either write is passed through and stops what follows |
| `VectorStorage.VectorDocuments` | src/main/java/com/earningscall/rag/service/VectorStorageService.java:44-57 | exactly one vector document per chunk, in order, with the chunk text as content and the augmented metadata |
| `VectorStorage.StoredMetadataOverrides` | src/main/java/com/earningscall/rag/service/VectorStorageService.java:46-50 | the stored metadata is the chunk's metadata with documentId (as text), documentName, chunkIndex and pageNumber set over it and every other key unchanged |
| `VectorStorage.ChunkRows` | src/main/java/com/earningscall/rag/service/VectorStorageService.java:63-71 | exactly one chunk row per chunk, in order, with the document id, text, index, page and the chunk's own metadata |
| `VectorStorage.BuildSearchRequest` | src/main/java/com/earningscall/rag/service/VectorStorageService.java:85-93 | top-k and the threshold are passed through; the filter `documentId == '<id>'` is present exactly when a document id is given |
| `VectorStorage.VectorStorageService.SearchSimilarChunks` | src/main/java/com/earningscall/rag/service/VectorStorageService.java:81-113 | a search failure is passed through; otherwise results map one to one and in order, and the mapping succeeds exactly when every result can be read |
| `VectorStorage.ToRetrievedChunksOneToOne` | src/main/java/com/earningscall/rag/service/VectorStorageService.java:100-112 | the stream map succeeds exactly when every result reads, then result i comes from document i; otherwise the first unreadable result's exception is thrown |
| `VectorStorage.ToRetrievedChunkIdErrors` | src/main/java/com/earningscall/rag/service/VectorStorageService.java:105 | a missing or null documentId is a NullPointerException, a non-string one a ClassCastException, and bad identifier text an IllegalArgumentException |
| `VectorStorage.StoredDocumentReadsBack` | src/main/java/com/earningscall/rag/service/VectorStorageService.java:44-57 | what storeChunks writes reads back as its chunk's text, id, name, page and index, with the distance the store attached or 0.0 |
| `PdfProcessing.UploadError` | src/main/java/com/earningscall/rag/service/PdfProcessingService.java:40-46 | validation passes exactly for a non-empty file declared application/pdf; an empty file, a null content type and any other type each raise their own exception |
| `PdfProcessing.PdfProcessingService.UploadDocument` | src/main/java/com/earningscall/rag/service/PdfProcessingService.java:36-71 | an invalid upload changes nothing; a valid one saves a PENDING record with 0 chunks and the three metadata keys under a fresh id and returns it; processing that record then saves PROCESSING and COMPLETED or FAILED, and the stores grow by `VectorsStored`/`RowsStored` of its `Prepare` result |
| `PdfProcessing.PdfProcessingService.constructor` | src/main/java/com/earningscall/rag/service/PdfProcessingService.java:27-30 | the service starts with an empty document table |
| `PdfProcessing.PdfProcessingService.ProcessDocument` | src/main/java/com/earningscall/rag/service/PdfProcessingService.java:77-121 | the table becomes `AfterProcessing(...)`; a present record is saved PROCESSING and then COMPLETED exactly when nothing was caught, else FAILED; a caught exception is rethrown as "Failed to process document" with it as cause; the stores grow only by what the writes that ran added |
| `PdfProcessing.ProcessingOutcome` | src/main/java/com/earningscall/rag/service/PdfProcessingService.java:83-119 | processing ends COMPLETED with the stored chunk count exactly when every step succeeds, else FAILED with chunk count unchanged; no other record changes, a missing one stays missing |
| `PdfProcessing.ProcessingSucceedsWhen` | src/main/java/com/earningscall/rag/service/PdfProcessingService.java:86-111 | a present document completes exactly when the PDF reads, some page has text, some chunk is made and both writes succeed; its count is the number of chunks |
| `PdfProcessing.PdfProcessingService.UpdateDocumentStatus` | src/main/java/com/earningscall/rag/service/PdfProcessingService.java:124-130 | the table becomes `WithStatus(old, id, status)`: any status from any status, silently nothing for a missing id; one save is logged exactly when the record exists |
| `PdfProcessing.PdfProcessingService.UpdateDocumentCompletion` | src/main/java/com/earningscall/rag/service/PdfProcessingService.java:133-140 | the table becomes `WithCompletion(old, id, count)`; one COMPLETED save is logged exactly when the record exists |
| `PdfProcessing.UpdatesTouchOnlyTheirRecord` | src/main/java/com/earningscall/rag/service/PdfProcessingService.java:124-140 | both updates are no-ops for a missing id and otherwise change only that record's status, plus its chunk count for completion |
| `Rag.AnswerQuestion` | src/main/java/com/earningscall/rag/service/RagService.java:43-104 | a failed retrieval, or a failed generation after a non-empty retrieval, makes the question fail with that exception wrapped; every failure is one RuntimeException whose message starts "Failed to process question: " |
| `Rag.EmptyRetrievalShortCircuits` | src/main/java/com/earningscall/rag/service/RagService.java:55-63 | empty retrieval gives the fixed answer, confidence 0.0 and no sources, whatever generation would return |
| `Rag.AnsweredQuestion` | src/main/java/com/earningscall/rag/service/RagService.java:66-98 | a retrieved and answered question has the finished answer, one citation per chunk in order, and as confidence the mean of the chunks' scores, which lies between any bounds of those scores |
| `Rag.NullScoreFails` | src/main/java/com/earningscall/rag/service/RagService.java:84-87 | a null similarity score fails the question, after generation, with the prefix, the NullPointerException's message text and that exception as cause |
| `Rag.Wrap` | src/main/java/com/earningscall/rag/service/RagService.java:100-103 | the wrapped exception is a RuntimeException with the fixed prefix and the original exception as cause |
| `Rag.FinishAnswer` | src/main/java/com/earningscall/rag/service/RagService.java:136 | a null response becomes "Unable to generate answer"; any other is trimmed, an empty one staying empty |
| `Rag.RenderChunks` | src/main/java/com/earningscall/rag/service/RagService.java:110-115 | one rendering `"[Document: %s, Page: %d]\n%s\n"` per chunk, in order |
| `Rag.BuildContextAppends` | src/main/java/com/earningscall/rag/service/RagService.java:109-117 | the context keeps retrieval order: one more chunk appends a separator and its rendering |
| `Rag.BuildContextShape` | src/main/java/com/earningscall/rag/service/RagService.java:109-117 | the context starts with the first chunk, and n chunks are joined by exactly n-1 separators |
| `Rag.TruncateText` | src/main/java/com/earningscall/rag/service/RagService.java:142-147 | text up to maxLength is kept; longer text becomes maxLength characters plus "...", of length maxLength+3 |
| `Rag.TruncateTextKeepsPrefix` | src/main/java/com/earningscall/rag/service/RagService.java:142-147 | the result starts with the first min(length, maxLength) characters |
| `Rag.TruncateTextIdempotent` | src/main/java/com/earningscall/rag/service/RagService.java:142-147 | truncating twice with the same length is truncating once |
| `Rag.Citations` | src/main/java/com/earningscall/rag/service/RagService.java:74-81 | one citation per chunk, in order: name, page and score copied, text truncated to 200, no company |
| `Rag.Scores` | src/main/java/com/earningscall/rag/service/RagService.java:84-85 | the scores are read exactly when none is null, one per chunk in order |
| `Rag.SumBounds` | src/main/java/com/earningscall/rag/service/RagService.java:84-86 | the sum of n scores within [lo, hi] lies within [n·lo, n·hi] |
| `Rag.MeanBetweenBounds` | src/main/java/com/earningscall/rag/service/RagService.java:84-87 | the mean lies between the lowest and the highest score |
| `PdfTextExtractor.CleanText` | src/main/java/com/earningscall/rag/util/PdfTextExtractor.java:48-59 | cleanText as the composition of its four steps; `CleanTextCharacters` proves the result printable and trimmed, `CleanTextFixesCleanForm` that clean text is kept, `CleanTextNotIdempotent` that cleaning twice can differ |
| `PdfTextExtractor.ReplaceCrLf` | src/main/java/com/earningscall/rag/util/PdfTextExtractor.java:56 | `replace("\r\n", "\n")`; `ReplaceCrLfWithoutCr` proves it changes nothing once no \r is left |
| `PdfTextExtractor.NormalizeLineBreaks` | src/main/java/com/earningscall/rag/util/PdfTextExtractor.java:56 | both replacements of line 56; `NormalizeRemovesCr` proves no \r survives, `NormalizeWithoutCr` that text without \r is unchanged |
| `PdfTextExtractor.ExtractedPages` | src/main/java/com/earningscall/rag/util/PdfTextExtractor.java:28-39 | the pages the loop keeps; `ExtractedPagesAreCleanedPages`, `ExtractedPagesAscending` and `ExtractedPagesComplete` prove they are exactly the non-blank cleaned pages, in page order |
| `TextChunker.MakeChunk` | src/main/java/com/earningscall/rag/util/TextChunker.java:44-54 | the chunk built from a trimmed buffer; `ChunksWellFormed` proves every emitted chunk has its index, page and the two metadata keys |
| `TextChunker.Flush` | src/main/java/com/earningscall/rag/util/TextChunker.java:42-62 | the overflow flush; `AddSentenceEmitsOnOverflow` proves it emits the trimmed buffer exactly when that is not blank, `AddSentenceKeepsSentenceWhole` that it reseeds the buffer and counter with `OverlapText` of the old buffer, and `FlushConsistent` that it keeps the state consistent |
| `TextChunker.AddSentence` | src/main/java/com/earningscall/rag/util/TextChunker.java:38-70 | one inner-loop step; `AddSentenceEmitsOnOverflow` states exactly when it emits and what, `AddSentenceKeepsSentenceWhole` the new buffer in both cases, `AddSentenceConsistent` what it keeps and `AddSentenceWithinBound` the length bound it keeps |
| `TextChunker.AddSentences` | src/main/java/com/earningscall/rag/util/TextChunker.java:37-71 | the inner loop; `AddSentencesConsistent` and `FittingSentences` state its invariant and its result when nothing overflows |
| `TextChunker.AddPages` | src/main/java/com/earningscall/rag/util/TextChunker.java:31-72 | the page loop; `AddPagesConsistent` proves its invariant and the first page number it records |
| `TextChunker.Finish` | src/main/java/com/earningscall/rag/util/TextChunker.java:75-90 | the final flush; `ChunksWellFormed` and `SinglePageThatFits` state what it emits |
| `TextChunker.Chunks` | src/main/java/com/earningscall/rag/util/TextChunker.java:24-94 | chunkText as a function; `ChunksWellFormed` proves its chunks sequential and well formed, `ChunkLengthBound` bounds their length, and `ChunkText` is proved to return it |
| `VectorStorage.StoredMetadata` | src/main/java/com/earningscall/rag/service/VectorStorageService.java:46-50 | the metadata written for a chunk; `StoredMetadataOverrides` proves which keys it sets and that every other key is carried over |
| `VectorStorage.CastString` | src/main/java/com/earningscall/rag/service/VectorStorageService.java:105-106 | a (String) cast of a metadata entry is null exactly when the key is absent or null, fails with a ClassCastException exactly on a number, and otherwise gives the stored text |
| `VectorStorage.CastInteger` | src/main/java/com/earningscall/rag/service/VectorStorageService.java:107-108 | an (Integer) cast is null exactly when the key is absent or null, fails with a ClassCastException exactly on text or a real, and otherwise gives the stored integer |
| `VectorStorage.DistanceOf` | src/main/java/com/earningscall/rag/service/VectorStorageService.java:109 | `getOrDefault("distance", 0.0)` gives 0.0 only for an absent key, null for a null entry, a ClassCastException for a non-real, and otherwise the stored distance |
| `VectorStorage.ToRetrievedChunk` | src/main/java/com/earningscall/rag/service/VectorStorageService.java:101-110 | one result read back; `ToRetrievedChunkIdErrors` states its id errors and `StoredDocumentReadsBack` what a stored document reads back as |
| `VectorStorage.ToRetrievedChunks` | src/main/java/com/earningscall/rag/service/VectorStorageService.java:100-112 | the stream map; `ToRetrievedChunksOneToOne` proves it one to one, in order, failing on the first unreadable result |
| `Rag.FormatString` | src/main/java/com/earningscall/rag/service/RagService.java:111-113 | `%s` of a possibly null string; specified with `RenderChunk` through `RenderChunks` |
| `Rag.FormatInteger` | src/main/java/com/earningscall/rag/service/RagService.java:111-114 | `%d` of a possibly null integer; specified with `RenderChunk` through `RenderChunks` |
| `Rag.RenderChunk` | src/main/java/com/earningscall/rag/service/RagService.java:111-115 | one chunk rendered; `RenderChunks` proves one rendering per chunk, in order |
| `Rag.BuildContext` | src/main/java/com/earningscall/rag/service/RagService.java:109-117 | the joined renderings; `BuildContextAppends` and `BuildContextShape` prove its order and its n-1 separators |
| `Rag.Citation` | src/main/java/com/earningscall/rag/service/RagService.java:75-80 | one citation; `Citations` and `AnsweredQuestion` prove one per chunk with name, page and score copied and text cut to 200 |
| `Rag.Sum` | src/main/java/com/earningscall/rag/service/RagService.java:84-86 | the sum of the scores; `SumBounds` bounds it |
| `Rag.Mean` | src/main/java/com/earningscall/rag/service/RagService.java:84-87 | `average()` of a non-empty stream; `MeanBetweenBounds` proves it between the bounds of the scores and `AnsweredQuestion` that it is the confidence |
| `PdfProcessing.NewDocument` | src/main/java/com/earningscall/rag/service/PdfProcessingService.java:49-61 | the record a valid upload saves; `UploadDocument` states it is returned, PENDING with 0 chunks, under a fresh id |
| `PdfProcessing.WithStatus` | src/main/java/com/earningscall/rag/service/PdfProcessingService.java:124-130 | updateDocumentStatus on the table; `UpdatesTouchOnlyTheirRecord` proves it changes only that record's status, and nothing for a missing id |
| `PdfProcessing.WithCompletion` | src/main/java/com/earningscall/rag/service/PdfProcessingService.java:133-140 | updateDocumentCompletion on the table; `UpdatesTouchOnlyTheirRecord` proves it changes only that record's status and count |
| `PdfProcessing.Prepare` | src/main/java/com/earningscall/rag/service/PdfProcessingService.java:85-102 | extraction, chunking and lookup; `ProcessingSucceedsWhen` proves when it succeeds, and `PrepareDocument` is proved to compute it |
| `PdfProcessing.PdfProcessingService.PrepareDocument` | src/main/java/com/earningscall/rag/service/PdfProcessingService.java:85-102 | the extraction, chunking and lookup steps as they run return exactly `Prepare(...)`: the file name and chunks, or the first failing step's exception |
| `PdfProcessing.AfterProcessing` | src/main/java/com/earningscall/rag/service/PdfProcessingService.java:77-121 | the table after processing; `ProcessingOutcome` and `ProcessingSucceedsWhen` prove it COMPLETED with the chunk count exactly when every step succeeds, else FAILED |
| `PdfProcessing.AfterProcessingByOutcome` | src/main/java/com/earningscall/rag/service/PdfProcessingService.java:83-117 | the final table is the PROCESSING table with the completion written when nothing was caught, FAILED otherwise |
| `PdfProcessing.CaughtException` | src/main/java/com/earningscall/rag/service/PdfProcessingService.java:115 | nothing is caught exactly when preparation and both writes succeed; a failed preparation is caught with its own exception |
| `PdfProcessing.VectorsStored` | src/main/java/com/earningscall/rag/service/PdfProcessingService.java:105-108 | the vector documents storage adds; used by `ProcessDocument` and `UploadDocument`, with `StoreChunks` stating the write |
| `PdfProcessing.RowsStored` | src/main/java/com/earningscall/rag/service/PdfProcessingService.java:105-108 | the chunk rows storage adds; used by `ProcessDocument` and `UploadDocument`, with `StoreChunks` stating the write |
| `PdfProcessing.StatusWrites` | src/main/java/com/earningscall/rag/service/PdfProcessingService.java:83-117 | the status saves of one processing run, PROCESSING then the final status; `ProcessDocument` states the log grows by exactly these |
| `JavaText.Join` | src/main/java/com/earningscall/rag/service/RagService.java:116 | `Collectors.joining`; `JoinLength` and `JoinStartsWithFirst` prove its length and its first part |
| `JavaText.NatToString` | src/main/java/com/earningscall/rag/service/VectorStorageService.java:47 | the decimal text of an identifier is non-empty and all digits; `ParseNatToString` proves it parses back |
| `JavaText.IntToString` | src/main/java/com/earningscall/rag/service/RagService.java:111-114 | `%d`: a leading "-" exactly for a negative number, followed by the decimal digits of its magnitude |
| `TextChunker.ChunkLengthBound` | src/main/java/com/earningscall/rag/util/TextChunker.java:37-90 | when no sentence exceeds m characters, no chunk is longer than max(chunkSize, overlapSize + m): a chunk is cut before the sentence that would overflow it, and an overlap is followed by one sentence |
| `TextChunker.AddSentenceWithinBound` | src/main/java/com/earningscall/rag/util/TextChunker.java:38-70 | one step keeps the buffer within that bound plus one, ending in a space, and emits only chunks within the bound |
| `TextChunker.TrimShortensTrailingSpace` | src/main/java/com/earningscall/rag/util/TextChunker.java:65-76 | a buffer that ends in the appended space loses at least that space under trim |

## Left out

- Reading the PDF with PDFBox is not modelled. An upload carries the raw text of each page, or the exception loading throws.
- The language model, the prompt template and the vector store's embedding and similarity search are function parameters. So the top-k bound and the threshold on results are not modelled.
- `@Async` dispatch, `@Transactional` boundaries and concurrent ingestions are not modelled. Processing runs in order to its end, inside the upload call.
- No rollback is modelled. A failed chunk-table write leaves the vector write in place, and a thrown upload keeps nothing.
- Timestamps, `processingTimeMs` and logging are clock reads or output only.
- The random record id that each vector document gets is not modelled.
- Identifiers are natural numbers written in decimal. The textual UUID format is not modelled.
- Strings are sequences of Dafny `char`, which are Unicode scalar values, while Java strings count UTF-16 code units. For text outside the Basic Multilingual Plane the model's lengths are therefore shorter than Java's: the chunk-size test (TextChunker.java:41), the overlap window (TextChunker.java:103-108) and the 200-character citation cut (RagService.java:146, which in Java can split a surrogate pair) fall at different places for such text.
- Scores are `real`s, not IEEE doubles. The mean is exact, with no rounding.
- Controllers, `EmbeddingService`, `getDocument`, `getAllDocuments` and `getDocumentsByCompany` are outside this model.
- `EmbeddingService` is a thin wrapper over a model that is not visible here.
- A null original filename is not modelled, because the `filename` column is non-null.
- A negative configured overlap size is not modelled: `overlapSize` is a `nat`.
- Rag.TruncateText: `maxLength` is a `nat`. The only caller passes 200.
- Upload's `IOException` from reading the multipart file is covered by the PDF read result.
- Model.MessageText: a NullPointerException or ClassCastException raised by the JVM renders as "null". On Java 17 both carry a descriptive message (a helpful NullPointerException message, the class names of a failed cast), which the model does not reproduce.
- Rag.NullScoreFails: the failure text after "Failed to process question: " is "null" here, while Java 17 puts the NullPointerException's descriptive message there; the prefix, the failure itself and its cause are as in the source.
- PdfProcessing.PdfProcessingService.ProcessDocument: a failure of the status saves themselves (a database error inside updateDocumentStatus) is not modelled. Only the PDF read, the two empty checks, the lookup and the two store writes can fail.
