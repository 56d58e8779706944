/** Sentence-aware overlapping chunking of page text (TextChunker). Sentences are
    streamed across pages into a buffer; when the next sentence would overflow the chunk
    size the trimmed buffer becomes a chunk and the next buffer starts with a tail of
    the old one. */
module TextChunker {
  import opened Wrappers
  import opened JavaText
  import opened Model
  import opened PdfTextExtractor

  // ---------------------------------------------------------------------------
  // splitIntoSentences: String.split("(?<=[.!?])\\s+")
  // ---------------------------------------------------------------------------

  predicate IsTerminator(c: char) {
    c == '.' || c == '!' || c == '?'
  }

  /** The pattern matches at k: a terminator right before k and a \s character at k. */
  predicate BreakAt(s: string, k: int) {
    0 < k < |s| && IsTerminator(s[k - 1]) && IsRegexSpace(s[k])
  }

  /** The first match position at or after i, if any. */
  function FirstBreakFrom(s: string, i: nat): (r: Option<nat>)
    requires i <= |s|
    ensures r.Some? ==> i <= r.value < |s| && BreakAt(s, r.value)
    ensures r.None? ==> forall k :: i <= k < |s| ==> !BreakAt(s, k)
    ensures r.Some? ==> forall k :: i <= k < r.value ==> !BreakAt(s, k)
    decreases |s| - i
  {
    if i == |s| then None
    else if BreakAt(s, i) then Some(i)
    else FirstBreakFrom(s, i + 1)
  }

  /** The end of the greedy \s+ run that starts at k. */
  function SpaceRunEnd(s: string, k: nat): (e: nat)
    requires k <= |s|
    ensures k <= e <= |s|
    ensures e < |s| ==> !IsRegexSpace(s[e])
    ensures forall j :: k <= j < e ==> IsRegexSpace(s[j])
    decreases |s| - k
  {
    if k < |s| && IsRegexSpace(s[k]) then SpaceRunEnd(s, k + 1) else k
  }

  /** TextChunker.splitIntoSentences. The text is cut at each whitespace run that
      follows '.', '!' or '?'; the run itself is dropped, a trailing empty piece is
      removed, and text without a match is returned whole (so "" gives [""]). */
  function SplitIntoSentences(s: string): (r: seq<string>)
    ensures |r| >= 1
    decreases |s|
  {
    match FirstBreakFrom(s, 0)
    case None => [s]
    case Some(k) =>
      var e := SpaceRunEnd(s, k);
      if e == |s| then [s[..k]] else [s[..k]] + SplitIntoSentences(s[e..])
  }

  /** Pieces put back together with the given separators: piece, gap, piece, ...,
      with an optional gap after the last piece. */
  function Weave(pieces: seq<string>, gaps: seq<string>): string
    requires |gaps| == |pieces| || |gaps| + 1 == |pieces|
  {
    if |pieces| == 0 then ""
    else if |gaps| == 0 then pieces[0]
    else pieces[0] + gaps[0] + Weave(pieces[1..], gaps[1..])
  }

  predicate AllRegexSpace(g: string) {
    forall j :: 0 <= j < |g| ==> IsRegexSpace(g[j])
  }

  /** The text is its sentences with the matched whitespace runs put back between
      them (and after the last one when the text ends in a match): splitting loses
      nothing but those runs. */
  lemma {:induction false} SplitLosesOnlyBreaks(s: string) returns (gaps: seq<string>)
    ensures |gaps| == |SplitIntoSentences(s)| || |gaps| + 1 == |SplitIntoSentences(s)|
    ensures s == Weave(SplitIntoSentences(s), gaps)
    ensures forall i :: 0 <= i < |gaps| ==> gaps[i] != "" && AllRegexSpace(gaps[i])
    decreases |s|
  {
    var found := FirstBreakFrom(s, 0);
    if found.None? {
      gaps := [];
      assert SplitIntoSentences(s) == [s];
    } else {
      var k := found.value;
      var e := SpaceRunEnd(s, k);
      var g := BreakGap(s, k);
      if e == |s| {
        gaps := [g];
        assert SplitIntoSentences(s) == [s[..k]];
        SliceThree(s, k, e);
        assert s[e..] == [];
      } else {
        var tail := s[e..];
        var rest := SplitLosesOnlyBreaks(tail);
        gaps := GapsCons(g, rest);
        assert SplitIntoSentences(s) == [s[..k]] + SplitIntoSentences(tail);
        WeaveCons(s[..k], g, SplitIntoSentences(tail), rest);
        SliceThree(s, k, e);
      }
    }
  }

  /** The whitespace run matched at a break is a non-empty run of \s characters. */
  lemma BreakGap(s: string, k: nat) returns (g: string)
    requires BreakAt(s, k)
    ensures g == s[k..SpaceRunEnd(s, k)]
    ensures g != "" && AllRegexSpace(g)
  {
    g := s[k..SpaceRunEnd(s, k)];
  }

  lemma GapsCons(g: string, rest: seq<string>) returns (gaps: seq<string>)
    requires g != "" && AllRegexSpace(g)
    requires forall i :: 0 <= i < |rest| ==> rest[i] != "" && AllRegexSpace(rest[i])
    ensures gaps == [g] + rest
    ensures forall i :: 0 <= i < |gaps| ==> gaps[i] != "" && AllRegexSpace(gaps[i])
  {
    gaps := [g] + rest;
    assert forall i :: 1 <= i < |gaps| ==> gaps[i] == rest[i - 1];
  }

  lemma SliceThree(s: string, k: nat, e: nat)
    requires k <= e <= |s|
    ensures s == s[..k] + s[k..e] + s[e..]
  {
    assert s[..k] + s[k..e] == s[..e];
  }

  lemma WeaveCons(p: string, g: string, pieces: seq<string>, gaps: seq<string>)
    requires |gaps| == |pieces| || |gaps| + 1 == |pieces|
    ensures Weave([p] + pieces, [g] + gaps) == p + g + Weave(pieces, gaps)
  {
    assert ([p] + pieces)[1..] == pieces;
    assert ([g] + gaps)[1..] == gaps;
  }

  /** Every sentence except the last ends in '.', '!' or '?'. */
  lemma {:induction false} SentencesEndWithTerminator(s: string)
    ensures forall i :: 0 <= i < |SplitIntoSentences(s)| - 1 ==>
              SplitIntoSentences(s)[i] != "" &&
              IsTerminator(SplitIntoSentences(s)[i][|SplitIntoSentences(s)[i]| - 1])
    decreases |s|
  {
    match FirstBreakFrom(s, 0)
    case None =>
    case Some(k) =>
      var e := SpaceRunEnd(s, k);
      if e < |s| {
        SentencesEndWithTerminator(s[e..]);
        var r := SplitIntoSentences(s);
        assert r == [s[..k]] + SplitIntoSentences(s[e..]);
        forall i | 0 <= i < |r| - 1
          ensures r[i] != "" && IsTerminator(r[i][|r[i]| - 1])
        {
          if i > 0 {
            assert r[i] == SplitIntoSentences(s[e..])[i - 1];
          }
        }
      }
  }

  /** Only the empty text gives an empty sentence, and then it is the only one. */
  lemma {:induction false} SentencesNonEmpty(s: string)
    ensures s == "" ==> SplitIntoSentences(s) == [""]
    ensures s != "" ==> forall i :: 0 <= i < |SplitIntoSentences(s)| ==> SplitIntoSentences(s)[i] != ""
    decreases |s|
  {
    match FirstBreakFrom(s, 0)
    case None =>
    case Some(k) =>
      var e := SpaceRunEnd(s, k);
      if e < |s| {
        SentencesNonEmpty(s[e..]);
        var r := SplitIntoSentences(s);
        assert r == [s[..k]] + SplitIntoSentences(s[e..]);
        forall i | 0 <= i < |r|
          ensures r[i] != ""
        {
          if i > 0 {
            assert r[i] == SplitIntoSentences(s[e..])[i - 1];
          }
        }
      }
  }

  /** No sentence contains a place where the pattern matches: every terminator that is
      followed by whitespace ended a sentence. */
  lemma {:induction false} SentencesHaveNoBreak(s: string)
    ensures forall i, k :: 0 <= i < |SplitIntoSentences(s)| ==> !BreakAt(SplitIntoSentences(s)[i], k)
    decreases |s|
  {
    match FirstBreakFrom(s, 0)
    case None =>
    case Some(k0) =>
      var e := SpaceRunEnd(s, k0);
      var r := SplitIntoSentences(s);
      var head := s[..k0];
      assert forall k :: !BreakAt(head, k) by {
        forall k | BreakAt(head, k)
          ensures false
        {
          assert BreakAt(s, k);
        }
      }
      if e < |s| {
        SentencesHaveNoBreak(s[e..]);
        assert r == [head] + SplitIntoSentences(s[e..]);
        forall i, k | 0 <= i < |r|
          ensures !BreakAt(r[i], k)
        {
          if i > 0 {
            assert r[i] == SplitIntoSentences(s[e..])[i - 1];
          }
        }
      }
  }

  // ---------------------------------------------------------------------------
  // getOverlapText
  // ---------------------------------------------------------------------------

  /** The word-boundary adjustment of getOverlapText: the window w is cut just after its
      first space when that space lies at some 0 < f < |w| / 2. */
  function CutAtFirstSpace(w: string): (r: string)
    ensures IsSuffix(r, w)
  {
    var f := IndexOf(w, ' ');
    if f > 0 && f < |w| / 2 then w[f + 1..] else w
  }

  /** The first space of w is at f. */
  predicate FirstSpaceAt(w: string, f: int) {
    0 <= f < |w| && w[f] == ' ' && forall j :: 0 <= j < f ==> w[j] != ' '
  }

  lemma CutAtFirstSpaceWhere(w: string)
    ensures |CutAtFirstSpace(w)| < |w| ==>
              var f := |w| - |CutAtFirstSpace(w)| - 1;
              0 < f < |w| / 2 && FirstSpaceAt(w, f)
    ensures |CutAtFirstSpace(w)| == |w| ==>
              w == [] || w[0] == ' ' || forall j :: 0 < j < |w| / 2 ==> w[j] != ' '
  {
    IndexOfFirst(w, ' ');
  }

  /** TextChunker.getOverlapText: the whole buffer when it is at most n characters long;
      otherwise a suffix of its last n characters. */
  function OverlapText(text: string, n: nat): (r: string)
    ensures IsSuffix(r, text)
    ensures |text| <= n ==> r == text
    ensures |text| > n ==> |r| <= n
  {
    if |text| <= n then text else CutAtFirstSpace(text[|text| - n..])
  }

  /** Of a buffer longer than n, the window w of its last n characters is kept, cut
      just after its first space exactly when that space lies at some 0 < f < n / 2. */
  lemma OverlapTextWordBoundary(text: string, n: nat, w: string)
    requires |text| > n && w == text[|text| - n..]
    ensures IsSuffix(OverlapText(text, n), w)
    ensures |OverlapText(text, n)| < n ==>
              0 < n - |OverlapText(text, n)| - 1 < n / 2 && FirstSpaceAt(w, n - |OverlapText(text, n)| - 1)
    ensures |OverlapText(text, n)| == n ==>
              n == 0 || w[0] == ' ' || forall j :: 0 < j < n / 2 ==> w[j] != ' '
  {
    CutAtFirstSpaceWhere(w);
  }

  // ---------------------------------------------------------------------------
  // chunkText
  // ---------------------------------------------------------------------------

  /** TextChunker.TextChunk. pageNumber is a nullable Integer in the source. */
  datatype TextChunk = TextChunk(text: string, chunkIndex: int, pageNumber: Option<int>, metadata: Metadata)

  /** The two configured sizes (rag.chunk.size, rag.chunk.overlap). */
  datatype ChunkerConfig = ChunkerConfig(chunkSize: int, overlapSize: nat)

  /** The source's defaults: 800 and 150. */
  const DefaultConfig := ChunkerConfig(800, 150)

  /** The local state of chunkText between two sentences: the chunks so far, the
      StringBuilder, the length counter, the next chunk index and the page number
      (null until the first sentence is appended). */
  datatype ChunkerState = ChunkerState(
    chunks: seq<TextChunk>,
    buffer: string,
    length: int,
    index: int,
    page: Option<int>)

  const Initial := ChunkerState([], "", 0, 0, None)

  /** A nullable Integer stored in a metadata map. */
  function PageValue(page: Option<int>): MetaValue
  {
    match page
    case Some(p) => MInt(p)
    case None => MNull
  }

  /** The chunk built from a trimmed buffer, with its metadata map. */
  function MakeChunk(text: string, index: int, page: Option<int>): TextChunk
  {
    TextChunk(text, index, page, map["pageNumber" := PageValue(page), "chunkIndex" := MInt(index)])
  }

  /** Lines 41-63: the trimmed buffer becomes a chunk unless it is blank, and the next
      buffer is the overlap of the untrimmed one. */
  function Flush(cfg: ChunkerConfig, st: ChunkerState): ChunkerState
  {
    var chunkText := Trim(st.buffer);
    var emitted := if chunkText != "" then st.chunks + [MakeChunk(chunkText, st.index, st.page)] else st.chunks;
    var index := if chunkText != "" then st.index + 1 else st.index;
    var overlap := OverlapText(st.buffer, cfg.overlapSize);
    ChunkerState(emitted, overlap, |overlap|, index, st.page)
  }

  /** Whether the next sentence makes chunkText flush first. */
  predicate Overflows(cfg: ChunkerConfig, st: ChunkerState, sentence: string) {
    st.length + |sentence| > cfg.chunkSize && st.length > 0
  }

  /** One iteration of the inner loop: flush on overflow, then append the whole sentence
      and a space, and record the page number if none is recorded yet. */
  function AddSentence(cfg: ChunkerConfig, st: ChunkerState, pageNumber: int, sentence: string): ChunkerState
  {
    var st1 := if Overflows(cfg, st, sentence) then Flush(cfg, st) else st;
    ChunkerState(
      st1.chunks,
      st1.buffer + (sentence + " "),
      st1.length + |sentence| + 1,
      st1.index,
      if st1.page.None? then Some(pageNumber) else st1.page)
  }

  /** The inner loop over the sentences of one page. */
  function AddSentences(cfg: ChunkerConfig, st: ChunkerState, pageNumber: int, sentences: seq<string>): ChunkerState
  {
    if |sentences| == 0 then st
    else
      var n := |sentences|;
      AddSentence(cfg, AddSentences(cfg, st, pageNumber, sentences[..n - 1]), pageNumber, sentences[n - 1])
  }

  /** The outer loop over the pages. */
  function AddPages(cfg: ChunkerConfig, st: ChunkerState, pages: seq<PageContent>): ChunkerState
  {
    if |pages| == 0 then st
    else
      var n := |pages|;
      var p := pages[n - 1];
      AddSentences(cfg, AddPages(cfg, st, pages[..n - 1]), p.pageNumber, SplitIntoSentences(p.text))
  }

  /** Lines 75-90: the last buffer becomes a chunk if it holds anything but blanks. */
  function Finish(st: ChunkerState): seq<TextChunk>
  {
    if st.length > 0 && Trim(st.buffer) != "" then st.chunks + [MakeChunk(Trim(st.buffer), st.index, st.page)]
    else st.chunks
  }

  /** What chunkText returns for the given pages. */
  function Chunks(cfg: ChunkerConfig, pages: seq<PageContent>): seq<TextChunk>
  {
    Finish(AddPages(cfg, Initial, pages))
  }

  lemma AddSentencesStep(cfg: ChunkerConfig, st: ChunkerState, pageNumber: int, sentences: seq<string>, i: nat)
    requires i < |sentences|
    ensures AddSentences(cfg, st, pageNumber, sentences[..i + 1])
         == AddSentence(cfg, AddSentences(cfg, st, pageNumber, sentences[..i]), pageNumber, sentences[i])
  {
    assert sentences[..i + 1][..i] == sentences[..i];
  }

  lemma AddPagesStep(cfg: ChunkerConfig, st: ChunkerState, pages: seq<PageContent>, i: nat)
    requires i < |pages|
    ensures AddPages(cfg, st, pages[..i + 1])
         == AddSentences(cfg, AddPages(cfg, st, pages[..i]), pages[i].pageNumber, SplitIntoSentences(pages[i].text))
  {
    assert pages[..i + 1][..i] == pages[..i];
  }

  /** Chunk k as chunkText emits it while the page number is page: the index is its
      position, the text is trimmed and not empty, and the metadata repeats the index
      and the page number. */
  predicate IsChunkAt(c: TextChunk, k: int, page: Option<int>) {
    && c.chunkIndex == k
    && c.pageNumber == page
    && c.text != ""
    && Trim(c.text) == c.text
    && c.metadata == map["pageNumber" := PageValue(page), "chunkIndex" := MInt(k)]
  }

  /** What holds between any two sentences of chunkText: the length counter is the
      buffer's length, the next index is the number of chunks, nothing is buffered or
      emitted before the page number is recorded, and every chunk is well formed. */
  predicate Consistent(st: ChunkerState) {
    && st.length == |st.buffer|
    && st.index == |st.chunks|
    && (st.page.None? ==> st.chunks == [] && st.buffer == "")
    && forall k :: 0 <= k < |st.chunks| ==> IsChunkAt(st.chunks[k], k, st.page)
  }

  /** A flush keeps the state consistent and keeps the recorded page number. */
  lemma FlushConsistent(cfg: ChunkerConfig, st: ChunkerState)
    requires Consistent(st) && st.page.Some?
    ensures Consistent(Flush(cfg, st))
    ensures Flush(cfg, st).page == st.page
  {
    TrimIdempotent(st.buffer);
  }

  /** A step keeps the state consistent; the page number, once recorded, never changes. */
  lemma AddSentenceConsistent(cfg: ChunkerConfig, st: ChunkerState, pageNumber: int, sentence: string)
    requires Consistent(st)
    ensures Consistent(AddSentence(cfg, st, pageNumber, sentence))
    ensures AddSentence(cfg, st, pageNumber, sentence).page == if st.page.Some? then st.page else Some(pageNumber)
  {
    if Overflows(cfg, st, sentence) {
      FlushConsistent(cfg, st);
    }
  }

  lemma {:induction false} AddSentencesConsistent(cfg: ChunkerConfig, st: ChunkerState, pageNumber: int, sentences: seq<string>)
    requires Consistent(st)
    ensures Consistent(AddSentences(cfg, st, pageNumber, sentences))
    ensures AddSentences(cfg, st, pageNumber, sentences).page
         == if st.page.Some? || |sentences| == 0 then st.page else Some(pageNumber)
  {
    if |sentences| > 0 {
      var n := |sentences|;
      AddSentencesConsistent(cfg, st, pageNumber, sentences[..n - 1]);
      AddSentenceConsistent(cfg, AddSentences(cfg, st, pageNumber, sentences[..n - 1]), pageNumber, sentences[n - 1]);
    }
  }

  /** After the pages, the state is consistent and the recorded page number is the first
      page's (every page contributes at least one sentence). */
  lemma {:induction false} AddPagesConsistent(cfg: ChunkerConfig, pages: seq<PageContent>)
    ensures Consistent(AddPages(cfg, Initial, pages))
    ensures AddPages(cfg, Initial, pages).page == if |pages| == 0 then None else Some(pages[0].pageNumber)
  {
    if |pages| > 0 {
      var n := |pages|;
      var init := pages[..n - 1];
      AddPagesConsistent(cfg, init);
      var p := pages[n - 1];
      AddSentencesConsistent(cfg, AddPages(cfg, Initial, init), p.pageNumber, SplitIntoSentences(p.text));
      if n > 1 {
        assert init[0] == pages[0];
      }
    }
  }

  /** Every chunk chunkText returns is numbered by its position, is non-empty and equal
      to its own trim, carries the first page's number (the number is recorded once and
      never reset), and has metadata repeating its index and page number. */
  lemma ChunksWellFormed(cfg: ChunkerConfig, pages: seq<PageContent>)
    ensures pages == [] ==> Chunks(cfg, pages) == []
    ensures forall k :: 0 <= k < |Chunks(cfg, pages)| ==>
              |pages| > 0 && IsChunkAt(Chunks(cfg, pages)[k], k, Some(pages[0].pageNumber))
  {
    var st := AddPages(cfg, Initial, pages);
    AddPagesConsistent(cfg, pages);
    TrimIdempotent(st.buffer);
  }

  /** A step never splits a sentence: the sentence and one space end the new buffer,
      which is a suffix of the old buffer followed by them. Without an overflow it is
      exactly the old buffer followed by them; on an overflow it is the overlap of the
      old buffer followed by them, and the counter restarts at that length. */
  lemma AddSentenceKeepsSentenceWhole(cfg: ChunkerConfig, st: ChunkerState, pageNumber: int, sentence: string)
    ensures IsSuffix(sentence + " ", AddSentence(cfg, st, pageNumber, sentence).buffer)
    ensures IsSuffix(AddSentence(cfg, st, pageNumber, sentence).buffer, st.buffer + (sentence + " "))
    ensures !Overflows(cfg, st, sentence) ==> AddSentence(cfg, st, pageNumber, sentence).buffer == st.buffer + (sentence + " ")
    ensures Overflows(cfg, st, sentence) ==>
              && AddSentence(cfg, st, pageNumber, sentence).buffer == OverlapText(st.buffer, cfg.overlapSize) + (sentence + " ")
              && AddSentence(cfg, st, pageNumber, sentence).length == |OverlapText(st.buffer, cfg.overlapSize)| + |sentence| + 1
  {
    var next := AddSentence(cfg, st, pageNumber, sentence);
    if Overflows(cfg, st, sentence) {
      var kept := OverlapText(st.buffer, cfg.overlapSize);
      assert next.buffer == kept + (sentence + " ");
      SuffixAppend(kept, st.buffer, sentence + " ");
    } else {
      assert next.buffer == st.buffer + (sentence + " ");
      SuffixAppend(st.buffer, st.buffer, sentence + " ");
    }
  }

  /** A step emits a chunk exactly when the sentence would overflow the buffer and the
      buffer is not blank; that chunk is the trimmed old buffer, without the sentence,
      under the next index. Otherwise the chunks and the index stay as they were. */
  lemma AddSentenceEmitsOnOverflow(cfg: ChunkerConfig, st: ChunkerState, pageNumber: int, sentence: string)
    ensures Overflows(cfg, st, sentence) && Trim(st.buffer) != "" ==>
              && AddSentence(cfg, st, pageNumber, sentence).chunks == st.chunks + [MakeChunk(Trim(st.buffer), st.index, st.page)]
              && AddSentence(cfg, st, pageNumber, sentence).index == st.index + 1
    ensures !(Overflows(cfg, st, sentence) && Trim(st.buffer) != "") ==>
              && AddSentence(cfg, st, pageNumber, sentence).chunks == st.chunks
              && AddSentence(cfg, st, pageNumber, sentence).index == st.index
  {
  }

  /** The state after the first i sentences of a page that fits, starting empty: the
      sentences joined by single spaces, plus the trailing space, and no chunk yet. */
  lemma {:induction false} FittingSentences(cfg: ChunkerConfig, pageNumber: int, sentences: seq<string>, i: nat)
    requires 0 < i <= |sentences|
    requires |Join(sentences[..i], " ")| <= cfg.chunkSize
    ensures AddSentences(cfg, Initial, pageNumber, sentences[..i])
         == ChunkerState([], Join(sentences[..i], " ") + " ", |Join(sentences[..i], " ")| + 1, 0, Some(pageNumber))
  {
    var ss := sentences[..i];
    assert ss[..i - 1] == sentences[..i - 1];
    if i > 1 {
      assert |Join(sentences[..i - 1], " ")| <= cfg.chunkSize by {
        assert Join(ss, " ") == Join(sentences[..i - 1], " ") + " " + sentences[i - 1];
      }
      FittingSentences(cfg, pageNumber, sentences, i - 1);
      assert Join(ss, " ") == Join(sentences[..i - 1], " ") + " " + sentences[i - 1];
    }
  }

  /** A single page whose sentences, joined by single spaces, fit in the chunk size
      gives exactly one chunk holding that joined text trimmed, or none when it is
      blank. */
  lemma SinglePageThatFits(cfg: ChunkerConfig, page: PageContent)
    requires |Join(SplitIntoSentences(page.text), " ")| <= cfg.chunkSize
    ensures var joined := Trim(Join(SplitIntoSentences(page.text), " "));
      Chunks(cfg, [page]) == if joined != "" then [MakeChunk(joined, 0, Some(page.pageNumber))] else []
  {
    var ss := SplitIntoSentences(page.text);
    assert [page][..0] == [];
    assert AddPages(cfg, Initial, [page]) == AddSentences(cfg, Initial, page.pageNumber, ss);
    assert ss[..|ss|] == ss;
    FittingSentences(cfg, page.pageNumber, ss, |ss|);
    TrimDropsTrailingSpace(Join(ss, " "));
  }

  // ---------------------------------------------------------------------------
  // How long a chunk can be
  // ---------------------------------------------------------------------------

  /** Every sentence is at most m characters long. */
  predicate SentencesAtMost(sentences: seq<string>, m: nat) {
    forall j :: 0 <= j < |sentences| ==> |sentences[j]| <= m
  }

  /** Every sentence of every page is at most m characters long. */
  predicate PagesSentencesAtMost(pages: seq<PageContent>, m: nat) {
    forall i :: 0 <= i < |pages| ==> SentencesAtMost(SplitIntoSentences(pages[i].text), m)
  }

  /** The longest chunk chunkText can emit when no sentence exceeds m characters: the
      chunk size, or an overlap followed by one sentence when that is longer. */
  function ChunkBound(cfg: ChunkerConfig, m: nat): int
  {
    if cfg.chunkSize >= cfg.overlapSize + m then cfg.chunkSize else cfg.overlapSize + m
  }

  /** Between two sentences: the buffer is at most one longer than the bound and, unless
      empty, ends with the space appended after a sentence; every chunk is within the
      bound. */
  predicate WithinBound(st: ChunkerState, bound: int) {
    && |st.buffer| <= bound + 1
    && (st.buffer == "" || st.buffer[|st.buffer| - 1] == ' ')
    && forall k :: 0 <= k < |st.chunks| ==> |st.chunks[k].text| <= bound
  }

  /** The trailing space is trimmed away, so the trim is shorter than the text. */
  lemma TrimShortensTrailingSpace(s: string)
    requires s != "" && s[|s| - 1] == ' '
    ensures |Trim(s)| < |s|
  {
    var a := TrimIsSlice(s);
  }

  lemma AddSentenceWithinBound(cfg: ChunkerConfig, st: ChunkerState, pageNumber: int, sentence: string, m: nat)
    requires Consistent(st) && WithinBound(st, ChunkBound(cfg, m)) && |sentence| <= m
    ensures WithinBound(AddSentence(cfg, st, pageNumber, sentence), ChunkBound(cfg, m))
  {
    var bound := ChunkBound(cfg, m);
    var next := AddSentence(cfg, st, pageNumber, sentence);
    if Overflows(cfg, st, sentence) {
      TrimShortensTrailingSpace(st.buffer);
      var overlap := OverlapText(st.buffer, cfg.overlapSize);
      assert |overlap| <= cfg.overlapSize;
      assert next.buffer == overlap + (sentence + " ");
      assert forall k :: 0 <= k < |next.chunks| ==> |next.chunks[k].text| <= bound by {
        forall k | 0 <= k < |next.chunks|
          ensures |next.chunks[k].text| <= bound
        {
          if k < |st.chunks| {
            assert next.chunks[k] == st.chunks[k];
          }
        }
      }
    } else {
      assert next.chunks == st.chunks;
      assert next.buffer == st.buffer + (sentence + " ");
    }
  }

  lemma {:induction false} AddSentencesWithinBound(cfg: ChunkerConfig, st: ChunkerState, pageNumber: int, sentences: seq<string>, m: nat)
    requires Consistent(st) && WithinBound(st, ChunkBound(cfg, m)) && SentencesAtMost(sentences, m)
    ensures Consistent(AddSentences(cfg, st, pageNumber, sentences))
    ensures WithinBound(AddSentences(cfg, st, pageNumber, sentences), ChunkBound(cfg, m))
  {
    if |sentences| > 0 {
      var n := |sentences|;
      var init := sentences[..n - 1];
      assert SentencesAtMost(init, m) by {
        forall j | 0 <= j < |init| ensures |init[j]| <= m {
          assert init[j] == sentences[j];
        }
      }
      AddSentencesWithinBound(cfg, st, pageNumber, init, m);
      var before := AddSentences(cfg, st, pageNumber, init);
      AddSentenceConsistent(cfg, before, pageNumber, sentences[n - 1]);
      AddSentenceWithinBound(cfg, before, pageNumber, sentences[n - 1], m);
    }
  }

  lemma {:induction false} AddPagesWithinBound(cfg: ChunkerConfig, pages: seq<PageContent>, m: nat)
    requires PagesSentencesAtMost(pages, m)
    ensures Consistent(AddPages(cfg, Initial, pages))
    ensures WithinBound(AddPages(cfg, Initial, pages), ChunkBound(cfg, m))
  {
    if |pages| > 0 {
      var n := |pages|;
      var init := pages[..n - 1];
      assert PagesSentencesAtMost(init, m) by {
        forall i | 0 <= i < |init| ensures SentencesAtMost(SplitIntoSentences(init[i].text), m) {
          assert init[i] == pages[i];
        }
      }
      AddPagesWithinBound(cfg, init, m);
      var p := pages[n - 1];
      assert SentencesAtMost(SplitIntoSentences(p.text), m);
      AddSentencesWithinBound(cfg, AddPages(cfg, Initial, init), p.pageNumber, SplitIntoSentences(p.text), m);
    }
  }

  /** No chunk is longer than the chunk size or, when that is longer, the overlap size
      plus the longest sentence: a chunk is cut before the sentence that would overflow
      it, so it holds at most the chunk size, unless it starts with an overlap, which is
      followed by at least one sentence. */
  lemma ChunkLengthBound(cfg: ChunkerConfig, pages: seq<PageContent>, m: nat)
    requires PagesSentencesAtMost(pages, m)
    ensures forall k :: 0 <= k < |Chunks(cfg, pages)| ==>
              |Chunks(cfg, pages)[k].text| <= ChunkBound(cfg, m)
  {
    var st := AddPages(cfg, Initial, pages);
    AddPagesWithinBound(cfg, pages, m);
    if st.length > 0 && Trim(st.buffer) != "" {
      TrimShortensTrailingSpace(st.buffer);
      var last := MakeChunk(Trim(st.buffer), st.index, st.page);
      assert Chunks(cfg, pages) == st.chunks + [last];
      forall k | 0 <= k < |Chunks(cfg, pages)|
        ensures |Chunks(cfg, pages)[k].text| <= ChunkBound(cfg, m)
      {
        if k < |st.chunks| {
          assert Chunks(cfg, pages)[k] == st.chunks[k];
        }
      }
    }
  }

  /** The sentence loop of chunkText over one page, on the loop's variables: the chunks
      emitted so far, the StringBuilder, the length counter, the next chunk index and the
      recorded page number. */
  method AddPageSentences(cfg: ChunkerConfig, st: ChunkerState, pageNumber: int, sentences: seq<string>)
    returns (next: ChunkerState)
    ensures next == AddSentences(cfg, st, pageNumber, sentences)
  {
    var chunks := st.chunks;
    var currentChunk := st.buffer;
    var currentLength := st.length;
    var chunkIndex := st.index;
    var currentPageNumber := st.page;
    var i := 0;
    while i < |sentences|
      invariant 0 <= i <= |sentences|
      invariant ChunkerState(chunks, currentChunk, currentLength, chunkIndex, currentPageNumber)
             == AddSentences(cfg, st, pageNumber, sentences[..i])
    {
      var sentence := sentences[i];
      var sentenceLength := |sentence|;
      AddSentencesStep(cfg, st, pageNumber, sentences, i);
      ghost var current := ChunkerState(chunks, currentChunk, currentLength, chunkIndex, currentPageNumber);
      if currentLength + sentenceLength > cfg.chunkSize && currentLength > 0 {
        var chunkText := Trim(currentChunk);
        if chunkText != "" {
          chunks := chunks + [MakeChunk(chunkText, chunkIndex, currentPageNumber)];
          chunkIndex := chunkIndex + 1;
        }
        var overlapText := OverlapText(currentChunk, cfg.overlapSize);
        currentChunk := overlapText;
        currentLength := |overlapText|;
        assert ChunkerState(chunks, currentChunk, currentLength, chunkIndex, currentPageNumber) == Flush(cfg, current);
      }
      currentChunk := currentChunk + (sentence + " ");
      currentLength := currentLength + sentenceLength + 1;
      if currentPageNumber.None? {
        currentPageNumber := Some(pageNumber);
      }
      i := i + 1;
    }
    assert sentences[..|sentences|] == sentences;
    next := ChunkerState(chunks, currentChunk, currentLength, chunkIndex, currentPageNumber);
  }

  /** TextChunker.chunkText: the page loop, then the last buffer as a final chunk. */
  method ChunkText(cfg: ChunkerConfig, pages: seq<PageContent>) returns (chunks: seq<TextChunk>)
    ensures chunks == Chunks(cfg, pages)
  {
    var st := Initial;
    var p := 0;
    while p < |pages|
      invariant 0 <= p <= |pages|
      invariant st == AddPages(cfg, Initial, pages[..p])
    {
      var page := pages[p];
      var sentences := SplitIntoSentences(page.text);
      AddPagesStep(cfg, Initial, pages, p);
      st := AddPageSentences(cfg, st, page.pageNumber, sentences);
      p := p + 1;
    }
    chunks := st.chunks;
    if st.length > 0 {
      var chunkText := Trim(st.buffer);
      if chunkText != "" {
        chunks := chunks + [MakeChunk(chunkText, st.index, st.page)];
      }
    }
    assert pages[..|pages|] == pages;
  }
}
