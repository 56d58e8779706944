/** Page-by-page text extraction: the raw text of each PDF page (what PDFBox's text
    stripper returns for it) is cleaned, and only pages left with text are kept. */
module PdfTextExtractor {
  import opened JavaText

  /** One page of extracted text; pages are numbered from 1. */
  datatype PageContent = PageContent(pageNumber: int, text: string)

  /** The layout characters of \s: everything in the class except the space itself. */
  predicate IsLayoutChar(c: char) {
    IsRegexSpace(c) && c != ' '
  }

  /** A character of the class [\x00-\x08\x0B\x0C\x0E-\x1F]. */
  predicate IsStrippedControl(c: char) {
    c <= '\U{8}' || c == '\U{B}' || c == '\U{C}' || ('\U{E}' <= c <= '\U{1F}')
  }

  /** The leading run of \s characters removed. */
  function SkipSpaces(s: string): (r: string)
    ensures IsSuffix(r, s)
    ensures r == [] || !IsRegexSpace(r[0])
  {
    if |s| > 0 && IsRegexSpace(s[0]) then SkipSpaces(s[1..]) else s
  }

  /** replaceAll("\\s+", " "): every maximal run of \s characters becomes one space. */
  function CollapseWhitespace(s: string): (r: string)
    ensures |r| <= |s|
    decreases |s|
  {
    if |s| == 0 then ""
    else if IsRegexSpace(s[0]) then " " + CollapseWhitespace(SkipSpaces(s[1..]))
    else [s[0]] + CollapseWhitespace(s[1..])
  }

  /** After collapsing, no layout character is left and no two spaces are adjacent;
      the result starts with a space exactly when the input starts with \s. */
  lemma {:induction false} CollapseWhitespaceShape(s: string)
    ensures var r := CollapseWhitespace(s);
      && (|s| > 0 ==> |r| > 0 && (r[0] == ' ' <==> IsRegexSpace(s[0])))
      && (forall i :: 0 <= i < |r| ==> !IsLayoutChar(r[i]))
      && (forall i :: 0 <= i < |r| - 1 ==> !(r[i] == ' ' && r[i + 1] == ' '))
    decreases |s|
  {
    if |s| > 0 {
      if IsRegexSpace(s[0]) {
        var t := SkipSpaces(s[1..]);
        CollapseWhitespaceShape(t);
        var r := CollapseWhitespace(s);
        assert r == " " + CollapseWhitespace(t);
        assert forall i :: 1 <= i < |r| ==> r[i] == CollapseWhitespace(t)[i - 1];
      } else {
        CollapseWhitespaceShape(s[1..]);
        var r := CollapseWhitespace(s);
        assert forall i :: 1 <= i < |r| ==> r[i] == CollapseWhitespace(s[1..])[i - 1];
      }
    }
  }

  /** replaceAll("[\\x00-\\x08\\x0B\\x0C\\x0E-\\x1F]", ""): those characters deleted,
      every other character kept in order. */
  function RemoveControlChars(s: string): (r: string)
    ensures |r| <= |s|
  {
    if |s| == 0 then ""
    else if IsStrippedControl(s[0]) then RemoveControlChars(s[1..])
    else [s[0]] + RemoveControlChars(s[1..])
  }

  /** Exactly the characters outside the control class survive the deletion. */
  lemma {:induction false} RemoveControlCharsKeeps(s: string)
    ensures forall c :: c in RemoveControlChars(s) <==> c in s && !IsStrippedControl(c)
  {
    if |s| > 0 {
      RemoveControlCharsKeeps(s[1..]);
      assert forall c :: c in s <==> c == s[0] || c in s[1..];
    }
  }

  /** replace("\r\n", "\n"). */
  function ReplaceCrLf(s: string): string
  {
    if |s| == 0 then ""
    else if |s| >= 2 && s[0] == '\r' && s[1] == '\n' then "\n" + ReplaceCrLf(s[2..])
    else [s[0]] + ReplaceCrLf(s[1..])
  }

  /** replace("\r", "\n"). */
  function ReplaceCr(s: string): (r: string)
    ensures |r| == |s|
  {
    if |s| == 0 then ""
    else [if s[0] == '\r' then '\n' else s[0]] + ReplaceCr(s[1..])
  }

  /** Each carriage return becomes a line feed; every other character stays in place. */
  lemma {:induction false} ReplaceCrMaps(s: string)
    ensures forall i :: 0 <= i < |s| ==>
              ReplaceCr(s)[i] == if s[i] == '\r' then '\n' else s[i]
  {
    if |s| > 0 {
      ReplaceCrMaps(s[1..]);
      assert forall i :: 1 <= i < |s| ==> ReplaceCr(s)[i] == ReplaceCr(s[1..])[i - 1];
    }
  }

  /** The line-break normalisation step. */
  function NormalizeLineBreaks(s: string): string
  {
    ReplaceCr(ReplaceCrLf(s))
  }

  /** No carriage return survives the normalisation. */
  lemma NormalizeRemovesCr(s: string)
    ensures '\r' !in NormalizeLineBreaks(s)
  {
    var t := ReplaceCrLf(s);
    ReplaceCrMaps(t);
    assert forall i :: 0 <= i < |t| ==> NormalizeLineBreaks(s)[i] != '\r';
  }

  /** PdfTextExtractor.cleanText: collapse whitespace, delete control characters,
      normalise line breaks, trim. */
  function CleanText(s: string): string
  {
    Trim(NormalizeLineBreaks(RemoveControlChars(CollapseWhitespace(s))))
  }

  /** Without a carriage return, line-break normalisation changes nothing. */
  lemma {:induction false} NormalizeWithoutCr(s: string)
    requires '\r' !in s
    ensures NormalizeLineBreaks(s) == s
  {
    ReplaceCrLfWithoutCr(s);
    ReplaceCrMaps(s);
  }

  lemma {:induction false} ReplaceCrLfWithoutCr(s: string)
    requires '\r' !in s
    ensures ReplaceCrLf(s) == s
  {
    if |s| > 0 {
      assert s[0] in s;
      assert forall c :: c in s[1..] ==> c in s;
      ReplaceCrLfWithoutCr(s[1..]);
    }
  }

  /** The text the earlier steps hand to the line-break normalisation. */
  function CollapsedAndStripped(s: string): string
  {
    RemoveControlChars(CollapseWhitespace(s))
  }

  /** After the first two steps no character below U+0020 is left. */
  lemma CollapsedAndStrippedChars(s: string)
    ensures forall c :: c in CollapsedAndStripped(s) ==> ' ' <= c
  {
    var w := CollapseWhitespace(s);
    CollapseWhitespaceShape(s);
    RemoveControlCharsKeeps(w);
    forall c | c in CollapsedAndStripped(s)
      ensures ' ' <= c
    {
      assert c in w && !IsStrippedControl(c);
      var i :| 0 <= i < |w| && w[i] == c;
      assert !IsLayoutChar(w[i]);
    }
  }

  /** Line-break normalisation is dead code: collapsing whitespace already removed
      every \r and \n. */
  lemma LineBreakStepIsNoOp(s: string)
    ensures NormalizeLineBreaks(CollapsedAndStripped(s)) == CollapsedAndStripped(s)
  {
    CollapsedAndStrippedChars(s);
    NormalizeWithoutCr(CollapsedAndStripped(s));
  }

  /** Trimming text without characters below U+0020 keeps it so, and removes the spaces
      at both ends. */
  lemma TrimPrintable(m: string)
    requires forall c :: c in m ==> ' ' <= c
    ensures forall i :: 0 <= i < |Trim(m)| ==> ' ' <= Trim(m)[i]
    ensures Trim(m) == [] || (Trim(m)[0] != ' ' && Trim(m)[|Trim(m)| - 1] != ' ')
  {
    var a := TrimIsSlice(m);
    forall i | 0 <= i < |Trim(m)|
      ensures ' ' <= Trim(m)[i]
    {
      assert Trim(m)[i] == m[a + i];
      assert m[a + i] in m;
    }
  }

  /** Every character of cleaned text is at or above U+0020, so no \t, \n, \x0B, \f, \r
      and no control character survives, and the text neither starts nor ends with a
      space. */
  lemma CleanTextCharacters(s: string)
    ensures forall i :: 0 <= i < |CleanText(s)| ==> ' ' <= CleanText(s)[i]
    ensures CleanText(s) == [] || (CleanText(s)[0] != ' ' && CleanText(s)[|CleanText(s)| - 1] != ' ')
  {
    var m := CollapsedAndStripped(s);
    LineBreakStepIsNoOp(s);
    CollapsedAndStrippedChars(s);
    assert CleanText(s) == Trim(m);
    TrimPrintable(m);
  }

  /** Text already in the shape cleaning produces. */
  predicate IsCleanForm(s: string) {
    && (forall i :: 0 <= i < |s| ==> ' ' <= s[i])
    && (forall i :: 0 <= i < |s| - 1 ==> !(s[i] == ' ' && s[i + 1] == ' '))
    && (s == [] || (s[0] != ' ' && s[|s| - 1] != ' '))
  }

  /** Text with no layout character and no two adjacent spaces is already collapsed. */
  lemma {:induction false} CollapseFixesSingleSpaced(s: string)
    requires forall i :: 0 <= i < |s| ==> !IsLayoutChar(s[i])
    requires forall i :: 0 <= i < |s| - 1 ==> !(s[i] == ' ' && s[i + 1] == ' ')
    ensures CollapseWhitespace(s) == s
  {
    if |s| > 0 {
      CollapseFixesSingleSpaced(s[1..]);
      if IsRegexSpace(s[0]) {
        assert s[0] == ' ';
        assert |s| == 1 || s[1] != ' ';
        assert SkipSpaces(s[1..]) == s[1..];
      }
    }
  }

  lemma {:induction false} RemoveControlFixesCleanChars(s: string)
    requires forall i :: 0 <= i < |s| ==> ' ' <= s[i]
    ensures RemoveControlChars(s) == s
  {
    if |s| > 0 {
      RemoveControlFixesCleanChars(s[1..]);
    }
  }

  /** Cleaning leaves text that is already clean unchanged. */
  lemma CleanTextFixesCleanForm(s: string)
    requires IsCleanForm(s)
    ensures CleanText(s) == s
  {
    CollapseFixesSingleSpaced(s);
    RemoveControlFixesCleanChars(s);
    assert CollapsedAndStripped(s) == s;
    LineBreakStepIsNoOp(s);
    TrimFixpoint(s);
  }

  lemma CollapseKeepsSingleSpaces()
    ensures CollapseWhitespace("a \U{1} b") == "a \U{1} b"
  {
    var s := "a \U{1} b";
    assert forall i :: 0 <= i < |s| - 1 ==> !(s[i] == ' ' && s[i + 1] == ' ');
    CollapseFixesSingleSpaced(s);
  }

  lemma RemoveControlLeavesDoubleSpace()
    ensures RemoveControlChars("a \U{1} b") == "a  b"
  {
    assert RemoveControlChars("b") == "b";
    assert RemoveControlChars(" b") == " b";
    assert RemoveControlChars("\U{1} b") == " b";
    assert RemoveControlChars(" \U{1} b") == "  b";
  }

  lemma CollapseMergesDoubleSpace()
    ensures CollapseWhitespace("a  b") == "a b"
  {
    var s := "a  b";
    assert s[1..] == "  b";
    assert "  b"[1..] == " b";
    assert " b"[1..] == "b";
    assert "b"[1..] == "";
    assert SkipSpaces("b") == "b";
    assert SkipSpaces(" b") == "b";
    assert CollapseWhitespace("") == "";
    assert CollapseWhitespace("b") == "b";
    assert CollapseWhitespace("  b") == " b";
  }

  lemma RemoveControlKeepsPlain()
    ensures RemoveControlChars("a b") == "a b"
  {
    assert RemoveControlChars("b") == "b";
    assert RemoveControlChars(" b") == " b";
  }

  /** Cleaning is not idempotent: whitespace is collapsed before control characters
      are deleted, so a control character between two spaces leaves them adjacent. */
  lemma CleanTextNotIdempotent()
    ensures CleanText("a \U{1} b") == "a  b"
    ensures CleanText("a  b") == "a b"
  {
    CollapseKeepsSingleSpaces();
    RemoveControlLeavesDoubleSpace();
    assert CollapsedAndStripped("a \U{1} b") == "a  b";
    LineBreakStepIsNoOp("a \U{1} b");
    TrimFixpoint("a  b");
    CollapseMergesDoubleSpace();
    RemoveControlKeepsPlain();
    assert CollapsedAndStripped("a  b") == "a b";
    LineBreakStepIsNoOp("a  b");
    TrimFixpoint("a b");
  }

  /** Whether extractText keeps a page: its cleaned text is not blank. */
  predicate KeepsPage(raw: string) {
    Trim(CleanText(raw)) != ""
  }

  /** The pages extractText keeps from the raw page texts, in page order. */
  function ExtractedPages(raw: seq<string>): seq<PageContent>
  {
    if |raw| == 0 then []
    else
      var n := |raw|;
      ExtractedPages(raw[..n - 1])
        + (if KeepsPage(raw[n - 1]) then [PageContent(n, CleanText(raw[n - 1]))] else [])
  }

  /** One more raw page adds that page, numbered from 1, when it is kept. */
  lemma ExtractedPagesStep(raw: seq<string>, n: nat)
    requires n < |raw|
    ensures ExtractedPages(raw[..n + 1]) == ExtractedPages(raw[..n])
              + (if KeepsPage(raw[n]) then [PageContent(n + 1, CleanText(raw[n]))] else [])
  {
    assert raw[..n + 1][..n] == raw[..n];
  }

  /** p is a kept page of raw: numbered within 1..|raw|, carrying the non-empty
      cleaned text of that page. */
  predicate IsPageOf(raw: seq<string>, p: PageContent) {
    1 <= p.pageNumber <= |raw| && p.text == CleanText(raw[p.pageNumber - 1]) && p.text != ""
  }

  /** Every kept page carries the cleaned, non-empty text of its own page number. */
  lemma {:induction false} ExtractedPagesAreCleanedPages(raw: seq<string>)
    ensures forall k :: 0 <= k < |ExtractedPages(raw)| ==> IsPageOf(raw, ExtractedPages(raw)[k])
  {
    if |raw| > 0 {
      var n := |raw|;
      var init := ExtractedPages(raw[..n - 1]);
      ExtractedPagesAreCleanedPages(raw[..n - 1]);
      var r := ExtractedPages(raw);
      forall k | 0 <= k < |r|
        ensures IsPageOf(raw, r[k])
      {
        if k < |init| {
          assert IsPageOf(raw[..n - 1], init[k]);
          assert raw[..n - 1][init[k].pageNumber - 1] == raw[init[k].pageNumber - 1];
        } else {
          assert r[k] == PageContent(n, CleanText(raw[n - 1]));
          TrimEmptyIffBlank(CleanText(raw[n - 1]));
        }
      }
    }
  }

  /** Kept pages come out in strictly ascending page order. */
  lemma {:induction false} ExtractedPagesAscending(raw: seq<string>)
    ensures forall k, l :: 0 <= k < l < |ExtractedPages(raw)| ==>
              ExtractedPages(raw)[k].pageNumber < ExtractedPages(raw)[l].pageNumber
  {
    if |raw| > 0 {
      var n := |raw|;
      var init := ExtractedPages(raw[..n - 1]);
      ExtractedPagesAscending(raw[..n - 1]);
      ExtractedPagesAreCleanedPages(raw[..n - 1]);
      var r := ExtractedPages(raw);
      forall k, l | 0 <= k < l < |r|
        ensures r[k].pageNumber < r[l].pageNumber
      {
        assert IsPageOf(raw[..n - 1], init[k]);
      }
    }
  }

  /** Every page whose cleaned text is not blank is kept. */
  lemma {:induction false} ExtractedPagesComplete(raw: seq<string>, i: nat) returns (k: nat)
    requires i < |raw| && KeepsPage(raw[i])
    ensures k < |ExtractedPages(raw)| && ExtractedPages(raw)[k].pageNumber == i + 1
  {
    var n := |raw|;
    var init := ExtractedPages(raw[..n - 1]);
    if i == n - 1 {
      k := |init|;
    } else {
      assert raw[..n - 1][i] == raw[i];
      k := ExtractedPagesComplete(raw[..n - 1], i);
    }
  }

  /** PdfTextExtractor.extractText over the raw text of each page. */
  method ExtractText(raw: seq<string>) returns (pages: seq<PageContent>)
    ensures pages == ExtractedPages(raw)
  {
    pages := [];
    var pageNum := 1;
    while pageNum <= |raw|
      invariant 1 <= pageNum <= |raw| + 1
      invariant pages == ExtractedPages(raw[..pageNum - 1])
    {
      var pageText := CleanText(raw[pageNum - 1]);
      ExtractedPagesStep(raw, pageNum - 1);
      if Trim(pageText) != "" {
        pages := pages + [PageContent(pageNum, pageText)];
      }
      pageNum := pageNum + 1;
    }
    assert raw[..|raw|] == raw;
  }
}
