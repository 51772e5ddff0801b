/** The last step of the `/analyze` handler: the commentary, when there is any, is appended to
    the advisory message and to the company summary shown on the result page. */
module Analyze {
  import opened PyStr
  import opened RagParse

  /** The heading placed between the company summary and the commentary's summary. */
  const MemoTitle: string := "[PDF 기반 전략 메모]"
  const MemoHeading: string := "\n\n" + MemoTitle + "\n"

  /** The two texts of the result page that the commentary extends. */
  datatype Page = Page(msg: string, summary: string)

  /** Lines 311-317: each non-empty half of the commentary is appended to the stripped text
      it extends, and the whole is stripped; an empty half leaves its text as it was. */
  function MergeCommentary(page: Page, rag: Commentary): (r: Page)
    ensures rag.msg == "" ==> r.msg == page.msg
    ensures rag.summary == "" ==> r.summary == page.summary
    ensures rag.msg != "" ==> r.msg == Strip(r.msg)
    ensures rag.summary != "" ==> r.summary == Strip(r.summary)
    ensures rag.msg != "" && Strip(page.msg) == "" ==> r.msg == Strip(rag.msg)
    ensures rag.msg != "" && Strip(page.msg) != "" && !AllSpace(rag.msg) ==>
              r.msg == Strip(page.msg) + " " + StripRight(rag.msg)
    ensures rag.msg != "" && Strip(page.msg) != "" && AllSpace(rag.msg) ==> r.msg == Strip(page.msg)
    ensures rag.summary != "" && Strip(page.summary) != "" && !AllSpace(rag.summary) ==>
              r.summary == Strip(page.summary) + MemoHeading + StripRight(rag.summary)
    ensures rag.summary != "" && Strip(page.summary) != "" && AllSpace(rag.summary) ==>
              r.summary == Strip(page.summary) + "\n\n" + MemoTitle
    ensures rag.summary != "" && Strip(page.summary) == "" && !AllSpace(rag.summary) ==>
              r.summary == MemoTitle + "\n" + StripRight(rag.summary)
    ensures rag.summary != "" && Strip(page.summary) == "" && AllSpace(rag.summary) ==>
              r.summary == MemoTitle
  {
    Page(MergeMessage(page.msg, rag.msg), MergeSummary(page.summary, rag.summary))
  }

  /** Lines 311-313: `(base.strip() + " " + m).strip()` when `m` is non-empty. A non-blank
      advisory is kept whole, then one blank and the commentary without its trailing
      whitespace; a blank advisory leaves the stripped commentary alone. */
  function MergeMessage(base: string, m: string): (r: string)
    ensures m == "" ==> r == base
    ensures m != "" ==> r == Strip(r)
    ensures m != "" && Strip(base) == "" ==> r == Strip(m)
    ensures m != "" && Strip(base) != "" && !AllSpace(m) ==> r == Strip(base) + " " + StripRight(m)
    ensures m != "" && Strip(base) != "" && AllSpace(m) ==> r == Strip(base)
  {
    if m == "" then base
    else
      var x := Strip(base);
      StripIdempotent(x + " " + m);
      if x == "" then
        MessageIntoBlank(m);
        Strip(x + " " + m)
      else if AllSpace(m) then
        AllSpaceConcat(" ", m);
        AppendBlank(x, " ", m);
        Strip(x + " " + m)
      else
        AppendNonBlank(x, " ", m);
        Strip(x + " " + m)
  }

  /** Lines 315-317: `(base.strip() + heading + s).strip()` when `s` is non-empty. A
      non-blank summary is kept whole, then the memo heading and the commentary without its
      trailing whitespace; a blank summary loses the heading's leading line breaks. */
  function MergeSummary(base: string, s: string): (r: string)
    ensures s == "" ==> r == base
    ensures s != "" ==> r == Strip(r)
    ensures s != "" && Strip(base) != "" && !AllSpace(s) ==> r == Strip(base) + MemoHeading + StripRight(s)
    ensures s != "" && Strip(base) != "" && AllSpace(s) ==> r == Strip(base) + "\n\n" + MemoTitle
    ensures s != "" && Strip(base) == "" && !AllSpace(s) ==> r == MemoTitle + "\n" + StripRight(s)
    ensures s != "" && Strip(base) == "" && AllSpace(s) ==> r == MemoTitle
  {
    if s == "" then base
    else
      var x := Strip(base);
      StripIdempotent(x + MemoHeading + s);
      if x == "" then
        SummaryIntoBlank(s);
        Strip(x + MemoHeading + s)
      else if AllSpace(s) then
        BlankSummaryAfterText(x, s);
        Strip(x + MemoHeading + s)
      else
        AppendNonBlank(x, MemoHeading, s);
        Strip(x + MemoHeading + s)
  }

  /** Appending text that is not all whitespace to a text that starts with non-whitespace:
      `strip()` keeps everything up to the appended text's trailing whitespace. */
  lemma AppendNonBlank(x: string, glue: string, y: string)
    requires x != [] && !IsSpace(x[0]) && !AllSpace(y)
    ensures Strip(x + glue + y) == x + glue + StripRight(y)
  {
    var s := x + glue + y;
    assert s[0] == x[0];
    StripOfHead(s);
    StripRightAppend(x + glue, y);
  }

  /** Appending whitespace to a trimmed text is undone by `strip()`. */
  lemma AppendBlank(x: string, glue: string, y: string)
    requires x != [] && !IsSpace(x[0]) && !IsSpace(x[|x| - 1]) && AllSpace(glue + y)
    ensures Strip(x + glue + y) == x
  {
    var s := x + glue + y;
    assert s == x + (glue + y);
    assert s[0] == x[0];
    StripOfHead(s);
    StripRightSpaceTail(x, glue + y);
  }

  lemma MessageIntoBlank(m: string)
    ensures Strip("" + " " + m) == Strip(m)
  {
    assert "" + " " + m == [' '] + m;
    StripAfterSpace(' ', m);
  }

  lemma TitleTrimmed()
    ensures MemoTitle != [] && !IsSpace(MemoTitle[0]) && !IsSpace(MemoTitle[|MemoTitle| - 1])
  {
  }

  /** Below a blank summary, the memo heading starts at its title. */
  lemma SummaryIntoBlank(s: string)
    ensures !AllSpace(s) ==> Strip("" + MemoHeading + s) == MemoTitle + "\n" + StripRight(s)
    ensures AllSpace(s) ==> Strip("" + MemoHeading + s) == MemoTitle
  {
    HeadingBreaksDropped(s);
    TitleTrimmed();
    if AllSpace(s) {
      AllSpaceConcat("\n", s);
      AppendBlank(MemoTitle, "\n", s);
    } else {
      AppendNonBlank(MemoTitle, "\n", s);
    }
  }

  lemma HeadingBreaksDropped(s: string)
    ensures Strip("" + MemoHeading + s) == Strip(MemoTitle + "\n" + s)
  {
    var t := MemoTitle + "\n" + s;
    assert "" + MemoHeading + s == ['\n'] + (['\n'] + t);
    StripAfterSpace('\n', ['\n'] + t);
    StripAfterSpace('\n', t);
  }

  /** A commentary summary made of whitespace leaves the text and the title only. */
  lemma BlankSummaryAfterText(base: string, s: string)
    requires base != "" && Strip(base) == base && AllSpace(s)
    ensures Strip(base + MemoHeading + s) == base + "\n\n" + MemoTitle
  {
    var x := base + "\n\n" + MemoTitle;
    assert base + MemoHeading + s == x + "\n" + s;
    TitleTrimmed();
    assert x[0] == base[0] && x[|x| - 1] == MemoTitle[|MemoTitle| - 1];
    AllSpaceConcat("\n", s);
    AppendBlank(x, "\n", s);
  }

  /** With a trimmed advisory message and a trimmed commentary message, the page shows the
      advisory, one blank, then the commentary; likewise the summary gets the heading and the
      commentary's summary after it. Nothing of either text is lost. */
  lemma MergeAppends(page: Page, rag: Commentary)
    requires page.msg != "" && Strip(page.msg) == page.msg
    requires page.summary != "" && Strip(page.summary) == page.summary
    requires rag.msg != "" && Strip(rag.msg) == rag.msg
    requires rag.summary != "" && Strip(rag.summary) == rag.summary
    ensures MergeCommentary(page, rag) == Page(page.msg + " " + rag.msg,
                                               page.summary + MemoHeading + rag.summary)
  {
    assert !IsSpace(rag.msg[0]) && !IsSpace(rag.summary[0]);
  }
}
