/** Answer assembly around retrieval and generation (RagService): retrieved chunks are
    rendered into a context, the model's answer is trimmed or replaced by a fallback,
    each chunk becomes a citation, and the confidence is the mean similarity. Retrieval
    and the language model are function parameters. */
module Rag {
  import opened Wrappers
  import opened JavaText
  import opened Model
  import opened VectorStorage

  /** QuestionRequest: the question and the optional document and company filters. */
  datatype QuestionRequest = QuestionRequest(question: string, documentId: Option<Uuid>, companyName: Option<string>)

  /** QuestionResponse.SourceCitation. */
  datatype SourceCitation = SourceCitation(
    documentName: Option<string>,
    companyName: Option<string>,
    pageNumber: Option<int>,
    relevantText: string,
    similarityScore: Option<real>)

  /** QuestionResponse without the processing time. */
  datatype QuestionResponse = QuestionResponse(answer: string, confidenceScore: real, sources: seq<SourceCitation>)

  const NoInformationAnswer := "I couldn't find any relevant information in the uploaded documents to answer this question."
  const NoAnswerFallback := "Unable to generate answer"
  const FailurePrefix := "Failed to process question: "
  const ContextSeparator := "\n---\n"
  const CitationLength := 200

  // ---------------------------------------------------------------------------
  // buildContext
  // ---------------------------------------------------------------------------

  /** The %s conversion: null is written "null". */
  function FormatString(s: Option<string>): string
  {
    match s
    case Some(v) => v
    case None => "null"
  }

  /** The %d conversion of an Integer: null is written "null". */
  function FormatInteger(i: Option<int>): string
  {
    match i
    case Some(v) => IntToString(v)
    case None => "null"
  }

  /** String.format("[Document: %s, Page: %d]\n%s\n", name, page, text). */
  function RenderChunk(c: RetrievedChunk): string
  {
    "[Document: " + FormatString(c.documentName) + ", Page: " + FormatInteger(c.pageNumber) + "]\n" + c.text + "\n"
  }

  function RenderChunks(chunks: seq<RetrievedChunk>): (r: seq<string>)
    ensures |r| == |chunks| && forall i :: 0 <= i < |chunks| ==> r[i] == RenderChunk(chunks[i])
  {
    seq(|chunks|, i requires 0 <= i < |chunks| => RenderChunk(chunks[i]))
  }

  /** RagService.buildContext: the rendered chunks joined by "\n---\n". */
  function BuildContext(chunks: seq<RetrievedChunk>): string
  {
    Join(RenderChunks(chunks), ContextSeparator)
  }

  /** The context keeps retrieval order: one more chunk adds a separator and that chunk's
      rendering at the end. */
  lemma BuildContextAppends(chunks: seq<RetrievedChunk>, c: RetrievedChunk)
    requires |chunks| > 0
    ensures BuildContext(chunks + [c]) == BuildContext(chunks) + ContextSeparator + RenderChunk(c)
  {
    var rendered := RenderChunks(chunks + [c]);
    assert rendered[..|rendered| - 1] == RenderChunks(chunks);
  }

  /** The context opens with the first chunk, and n chunks are separated by exactly
      n - 1 separators. */
  lemma BuildContextShape(chunks: seq<RetrievedChunk>)
    requires |chunks| > 0
    ensures StartsWith(BuildContext(chunks), RenderChunk(chunks[0]))
    ensures |BuildContext(chunks)| == TotalLength(RenderChunks(chunks)) + (|chunks| - 1) * |ContextSeparator|
  {
    JoinStartsWithFirst(RenderChunks(chunks), ContextSeparator);
    JoinLength(RenderChunks(chunks), ContextSeparator);
  }

  // ---------------------------------------------------------------------------
  // truncateText and the citations
  // ---------------------------------------------------------------------------

  /** RagService.truncateText: text no longer than maxLength is kept; longer text is cut
      to its first maxLength characters and "..." is appended. */
  function TruncateText(text: string, maxLength: nat): (r: string)
    ensures |text| <= maxLength ==> r == text
    ensures |text| > maxLength ==> |r| == maxLength + 3 && r[maxLength..] == "..."
  {
    if |text| <= maxLength then text else text[..maxLength] + "..."
  }

  /** The result always opens with the first min(length, maxLength) characters. */
  lemma TruncateTextKeepsPrefix(text: string, maxLength: nat)
    ensures var k := if |text| < maxLength then |text| else maxLength;
      k <= |TruncateText(text, maxLength)| && TruncateText(text, maxLength)[..k] == text[..k]
  {
    if |text| > maxLength {
      assert (text[..maxLength] + "...")[..maxLength] == text[..maxLength];
    }
  }

  /** Truncating twice with the same length is truncating once. */
  lemma TruncateTextIdempotent(text: string, maxLength: nat)
    ensures TruncateText(TruncateText(text, maxLength), maxLength) == TruncateText(text, maxLength)
  {
    if |text| > maxLength {
      var r := text[..maxLength] + "...";
      assert r[..maxLength] == text[..maxLength];
    }
  }

  /** Lines 75-80: name, page and score copied, the text truncated to 200 characters,
      no company name. */
  function Citation(c: RetrievedChunk): SourceCitation
  {
    SourceCitation(c.documentName, None, c.pageNumber, TruncateText(c.text, CitationLength), c.similarityScore)
  }

  function Citations(chunks: seq<RetrievedChunk>): (r: seq<SourceCitation>)
    ensures |r| == |chunks| && forall i :: 0 <= i < |chunks| ==> r[i] == Citation(chunks[i])
  {
    seq(|chunks|, i requires 0 <= i < |chunks| => Citation(chunks[i]))
  }

  // ---------------------------------------------------------------------------
  // The confidence score
  // ---------------------------------------------------------------------------

  /** The similarity scores, or None when one is null (unboxing it throws). */
  function Scores(chunks: seq<RetrievedChunk>): (r: Option<seq<real>>)
    ensures r.Some? <==> forall i :: 0 <= i < |chunks| ==> chunks[i].similarityScore.Some?
    ensures r.Some? ==> |r.value| == |chunks| && forall i :: 0 <= i < |chunks| ==> r.value[i] == chunks[i].similarityScore.value
  {
    if |chunks| == 0 then Some([])
    else
      var n := |chunks|;
      match Scores(chunks[..n - 1])
      case None => None
      case Some(init) =>
        match chunks[n - 1].similarityScore
        case None => None
        case Some(s) => Some(init + [s])
  }

  function Sum(xs: seq<real>): real
  {
    if |xs| == 0 then 0.0 else Sum(xs[..|xs| - 1]) + xs[|xs| - 1]
  }

  /** DoubleStream.average() of a non-empty stream, over the reals. */
  function Mean(xs: seq<real>): real
    requires |xs| > 0
  {
    Sum(xs) / (|xs| as real)
  }

  lemma {:induction false} SumBounds(xs: seq<real>, lo: real, hi: real)
    requires forall i :: 0 <= i < |xs| ==> lo <= xs[i] <= hi
    ensures (|xs| as real) * lo <= Sum(xs) <= (|xs| as real) * hi
  {
    if |xs| > 0 {
      SumBounds(xs[..|xs| - 1], lo, hi);
    }
  }

  lemma QuotientAtLeast(a: real, n: real, lo: real)
    requires n > 0.0 && n * lo <= a
    ensures lo <= a / n
  {
    var q := a / n;
    assert q * n == a;
    if q < lo {
      assert q * n < lo * n;
    }
  }

  lemma QuotientAtMost(a: real, n: real, hi: real)
    requires n > 0.0 && a <= n * hi
    ensures a / n <= hi
  {
    var q := a / n;
    assert q * n == a;
    if q > hi {
      assert q * n > hi * n;
    }
  }

  /** The mean lies between the smallest and the largest score. */
  lemma MeanBetweenBounds(xs: seq<real>, lo: real, hi: real)
    requires |xs| > 0
    requires forall i :: 0 <= i < |xs| ==> lo <= xs[i] <= hi
    ensures lo <= Mean(xs) <= hi
  {
    SumBounds(xs, lo, hi);
    QuotientAtLeast(Sum(xs), |xs| as real, lo);
    QuotientAtMost(Sum(xs), |xs| as real, hi);
  }

  // ---------------------------------------------------------------------------
  // generateAnswer and answerQuestion
  // ---------------------------------------------------------------------------

  /** Line 136: a null response falls back to a fixed text; any other response is
      trimmed, so an empty one stays empty. */
  function FinishAnswer(response: Option<string>): (r: string)
    ensures response.None? ==> r == NoAnswerFallback
    ensures response.Some? ==> r == Trim(response.value)
    ensures response.Some? ==> r == "" || (!IsTrimmable(r[0]) && !IsTrimmable(r[|r| - 1]))
  {
    match response
    case None => NoAnswerFallback
    case Some(s) => Trim(s)
  }

  /** Lines 100-103: every exception leaves as one RuntimeException whose message is the
      prefix followed by the original message. */
  function Wrap(e: Exception): (r: Exception)
    ensures r.Runtime? && StartsWith(r.message, FailurePrefix) && r.cause == Some(e)
  {
    Runtime(FailurePrefix + MessageText(e), Some(e))
  }

  /** RagService.answerQuestion. retrieve stands for searchSimilarChunks and generate for
      the language-model call on the question and the context (null as None). */
  function AnswerQuestion(
    request: QuestionRequest,
    retrieve: (string, Option<Uuid>, Option<string>) -> Result<seq<RetrievedChunk>, Exception>,
    generate: (string, string) -> Result<Option<string>, Exception>)
    : (r: Result<QuestionResponse, Exception>)
    ensures r.Failure? ==> r.error.Runtime? && StartsWith(r.error.message, FailurePrefix)
    ensures var found := retrieve(request.question, request.documentId, request.companyName);
      found.Failure? ==> r == Failure(Wrap(found.error))
    ensures var found := retrieve(request.question, request.documentId, request.companyName);
      found.Success? && |found.value| > 0 && generate(request.question, BuildContext(found.value)).Failure? ==>
        r == Failure(Wrap(generate(request.question, BuildContext(found.value)).error))
  {
    match retrieve(request.question, request.documentId, request.companyName)
    case Failure(e) => Failure(Wrap(e))
    case Success(chunks) =>
      if |chunks| == 0 then Success(QuestionResponse(NoInformationAnswer, 0.0, []))
      else
        match generate(request.question, BuildContext(chunks))
        case Failure(e) => Failure(Wrap(e))
        case Success(response) =>
          var answer := FinishAnswer(response);
          var sources := Citations(chunks);
          match Scores(chunks)
          case None => Failure(Wrap(NullPointer))
          case Some(scores) => Success(QuestionResponse(answer, Mean(scores), sources))
  }

  /** Nothing retrieved: the fixed answer, confidence 0.0 and no sources, whatever the
      language model would have said. */
  lemma EmptyRetrievalShortCircuits(
    request: QuestionRequest,
    retrieve: (string, Option<Uuid>, Option<string>) -> Result<seq<RetrievedChunk>, Exception>,
    generate: (string, string) -> Result<Option<string>, Exception>)
    requires retrieve(request.question, request.documentId, request.companyName) == Success([])
    ensures AnswerQuestion(request, retrieve, generate) == Success(QuestionResponse(NoInformationAnswer, 0.0, []))
  {
  }

  /** Something retrieved and answered: the answer is the trimmed response or the
      fallback, the language model saw the context of exactly those chunks, there is one
      citation per chunk in retrieval order, and the confidence is the mean of the chunks'
      scores, which lies between any lower and upper bound of those scores. */
  lemma AnsweredQuestion(
    request: QuestionRequest,
    retrieve: (string, Option<Uuid>, Option<string>) -> Result<seq<RetrievedChunk>, Exception>,
    generate: (string, string) -> Result<Option<string>, Exception>,
    lo: real, hi: real)
    requires var found := retrieve(request.question, request.documentId, request.companyName);
      && found.Success? && |found.value| > 0
      && generate(request.question, BuildContext(found.value)).Success?
      && forall i :: 0 <= i < |found.value| ==>
           found.value[i].similarityScore.Some? && lo <= found.value[i].similarityScore.value <= hi
    ensures var chunks := retrieve(request.question, request.documentId, request.companyName).value;
      var response := generate(request.question, BuildContext(chunks)).value;
      && AnswerQuestion(request, retrieve, generate).Success?
      && AnswerQuestion(request, retrieve, generate).value.answer == FinishAnswer(response)
      && |AnswerQuestion(request, retrieve, generate).value.sources| == |chunks|
      && (forall i :: 0 <= i < |chunks| ==>
            AnswerQuestion(request, retrieve, generate).value.sources[i] == Citation(chunks[i]))
      && AnswerQuestion(request, retrieve, generate).value.confidenceScore == Mean(Scores(chunks).value)
      && lo <= AnswerQuestion(request, retrieve, generate).value.confidenceScore <= hi
  {
    var chunks := retrieve(request.question, request.documentId, request.companyName).value;
    var scores := Scores(chunks).value;
    MeanBetweenBounds(scores, lo, hi);
  }

  /** A null similarity score fails the whole question, after the language model has
      been asked, with the message of a NullPointerException. */
  lemma NullScoreFails(
    request: QuestionRequest,
    retrieve: (string, Option<Uuid>, Option<string>) -> Result<seq<RetrievedChunk>, Exception>,
    generate: (string, string) -> Result<Option<string>, Exception>,
    k: nat)
    requires var found := retrieve(request.question, request.documentId, request.companyName);
      && found.Success? && k < |found.value| && found.value[k].similarityScore.None?
      && generate(request.question, BuildContext(found.value)).Success?
    ensures AnswerQuestion(request, retrieve, generate) == Failure(Runtime(FailurePrefix + "null", Some(NullPointer)))
  {
  }
}
