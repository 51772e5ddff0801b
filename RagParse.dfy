/** `_parse_rag_blocks`: reads the commentary service's reply, which is asked to come as two
    labelled lines `RAG_MSG: …` and `RAG_SUMMARY: …`, and falls back to "first line / the rest"
    when a tag is missing. */
module RagParse {
  import opened PyStr

  const MsgLabel: string := "RAG_MSG:"
  const SummaryLabel: string := "RAG_SUMMARY:"

  /** Character budgets of the fallback: the short message and the summary. */
  const MsgBudget: nat := 240
  const SummaryBudget: nat := 700

  /** The pair `(rag_msg, rag_summary)`. */
  datatype Commentary = Commentary(msg: string, summary: string)

  /** A line carries `tag` when its stripped form starts with it. */
  predicate Tagged(line: string, tag: string) {
    StartsWith(Strip(line), tag)
  }

  /** `s.replace(tag, "", 1).strip()` for a stripped line `s` that starts with `tag`:
      the first occurrence of the tag is the prefix itself. The value is itself stripped and
      shorter than the line. */
  function LabelValue(line: string, tag: string): (v: string)
    requires Tagged(line, tag)
    ensures Strip(v) == v
    ensures |v| <= |Strip(line)| - |tag|
  {
    StripIdempotent(Strip(line)[|tag|..]);
    Strip(Strip(line)[|tag|..])
  }

  /** The value of the last line carrying `tag`, or "" when no line does. */
  function LastTagged(lines: seq<string>, tag: string): string
  {
    if lines == [] then ""
    else if Tagged(lines[|lines| - 1], tag) then LabelValue(lines[|lines| - 1], tag)
    else LastTagged(lines[..|lines| - 1], tag)
  }

  /** A non-empty text made only of whitespace: `text.strip().splitlines()[0]` raises on it. */
  predicate WhitespaceOnly(text: string) {
    text != "" && Strip(text) == ""
  }

  function Min(a: nat, b: nat): nat {
    if a < b then a else b
  }

  /** `text.strip().splitlines()[0]`: the first line of the stripped text. */
  function FirstLine(text: string): string
    requires text != "" && !WhitespaceOnly(text)
  {
    SplitLines(Strip(text))[0]
  }

  /** `"\n".join(text.strip().splitlines()[1:]).strip()`: the stripped remaining lines. */
  function RestLines(text: string): string
    requires text != "" && !WhitespaceOnly(text)
  {
    Strip(JoinLines(SplitLines(Strip(text))[1..]))
  }

  /** `text.strip().splitlines()[0][:240]`: the first 240 characters of the first line, or
      the whole line when it is shorter. */
  function FirstLineFallback(text: string): (m: string)
    requires text != "" && !WhitespaceOnly(text)
    ensures StartsWith(FirstLine(text), m)
    ensures |m| == Min(|FirstLine(text)|, MsgBudget)
  {
    Take(FirstLine(text), MsgBudget)
  }

  /** `rest[:700] if rest else ""`: the first 700 characters of the remaining lines, or all
      of them when they are shorter (nothing when there are none). */
  function RestFallback(text: string): (s: string)
    requires text != "" && !WhitespaceOnly(text)
    ensures StartsWith(RestLines(text), s)
    ensures |s| == Min(|RestLines(text)|, SummaryBudget)
  {
    var rest := RestLines(text);
    if rest != "" then Take(rest, SummaryBudget) else ""
  }

  /** What `_parse_rag_blocks(text)` returns. */
  function ParsedBlocks(text: string): (r: Commentary)
    requires !WhitespaceOnly(text)
    ensures text == "" ==> r == Commentary("", "")
    ensures LastTagged(SplitLines(text), MsgLabel) != "" ==> r.msg == LastTagged(SplitLines(text), MsgLabel)
    ensures LastTagged(SplitLines(text), SummaryLabel) != "" ==> r.summary == LastTagged(SplitLines(text), SummaryLabel)
    ensures LastTagged(SplitLines(text), MsgLabel) == "" && text != "" ==>
              StartsWith(FirstLine(text), r.msg) && |r.msg| == Min(|FirstLine(text)|, MsgBudget)
    ensures LastTagged(SplitLines(text), SummaryLabel) == "" && text != "" ==>
              StartsWith(RestLines(text), r.summary) && |r.summary| == Min(|RestLines(text)|, SummaryBudget)
  {
    var lines := SplitLines(text);
    var m := LastTagged(lines, MsgLabel);
    var s := LastTagged(lines, SummaryLabel);
    Commentary(
      if m == "" && text != "" then FirstLineFallback(text) else m,
      if s == "" && text != "" then RestFallback(text) else s)
  }

  /** No line starts with both labels, so the source's `elif` never hides a summary line. */
  lemma LabelsExclusive(s: string)
    ensures !(StartsWith(s, MsgLabel) && StartsWith(s, SummaryLabel))
  {
    if StartsWith(s, MsgLabel) {
      assert s[4] == MsgLabel[4];
    }
  }

  /** `_parse_rag_blocks(text)`: one pass over the lines keeping the latest labelled values,
      then the fallback for whichever value is still empty. */
  method ParseRagBlocks(text: string) returns (msg: string, summary: string)
    requires !WhitespaceOnly(text)
    ensures Commentary(msg, summary) == ParsedBlocks(text)
  {
    msg, summary := "", "";
    var lines := SplitLines(text);
    var i := 0;
    while i < |lines|
      invariant 0 <= i <= |lines|
      invariant msg == LastTagged(lines[..i], MsgLabel)
      invariant summary == LastTagged(lines[..i], SummaryLabel)
    {
      ParseStep(lines, i, msg, summary);
      var s := Strip(lines[i]);
      if StartsWith(s, MsgLabel) {
        msg := Strip(s[|MsgLabel|..]);
      } else if StartsWith(s, SummaryLabel) {
        summary := Strip(s[|SummaryLabel|..]);
      }
      i := i + 1;
    }
    assert lines[..i] == lines;

    if msg == "" && text != "" {
      msg := FirstLineFallback(text);
    }
    if summary == "" && text != "" {
      summary := RestFallback(text);
    }
  }

  /** One pass of the loop over the lines: the `if`/`elif` on the stripped line `s` turns the
      values kept for the first `i` lines into those for the first `i + 1`. */
  lemma ParseStep(lines: seq<string>, i: nat, msg: string, summary: string)
    requires i < |lines|
    requires msg == LastTagged(lines[..i], MsgLabel)
    requires summary == LastTagged(lines[..i], SummaryLabel)
    ensures var s := Strip(lines[i]);
            (if StartsWith(s, MsgLabel) then Strip(s[|MsgLabel|..]) else msg)
            == LastTagged(lines[..i + 1], MsgLabel)
    ensures var s := Strip(lines[i]);
            (if !StartsWith(s, MsgLabel) && StartsWith(s, SummaryLabel) then Strip(s[|SummaryLabel|..]) else summary)
            == LastTagged(lines[..i + 1], SummaryLabel)
  {
    LastTaggedStep(lines, i, MsgLabel);
    LastTaggedStep(lines, i, SummaryLabel);
    LabelsExclusive(Strip(lines[i]));
  }

  /** One more line: it overrides the value of its tag and leaves the other tag alone. */
  lemma LastTaggedSnoc(lines: seq<string>, line: string, tag: string)
    ensures LastTagged(lines + [line], tag)
            == if Tagged(line, tag) then LabelValue(line, tag) else LastTagged(lines, tag)
  {
    var l := lines + [line];
    assert l[|l| - 1] == line && l[..|l| - 1] == lines;
    assert LastTagged(l, tag)
           == if Tagged(l[|l| - 1], tag) then LabelValue(l[|l| - 1], tag) else LastTagged(l[..|l| - 1], tag);
  }

  /** `LastTaggedSnoc` for the first `i + 1` of a list of lines. */
  lemma LastTaggedStep(lines: seq<string>, i: nat, tag: string)
    requires i < |lines|
    ensures LastTagged(lines[..i + 1], tag)
            == if Tagged(lines[i], tag) then LabelValue(lines[i], tag) else LastTagged(lines[..i], tag)
  {
    assert lines[..i + 1] == lines[..i] + [lines[i]];
    LastTaggedSnoc(lines[..i], lines[i], tag);
  }

  /** The last line carrying a tag decides its value; earlier ones are overwritten. */
  lemma {:induction false} LastTaggedIsLastMatch(lines: seq<string>, tag: string, j: nat)
    requires j < |lines| && Tagged(lines[j], tag)
    requires forall k :: j < k < |lines| ==> !Tagged(lines[k], tag)
    ensures LastTagged(lines, tag) == LabelValue(lines[j], tag)
  {
    if j < |lines| - 1 {
      var init := lines[..|lines| - 1];
      assert forall k :: j < k < |init| ==> init[k] == lines[k];
      LastTaggedIsLastMatch(init, tag, j);
    }
  }

  /** The value kept for a tag is always stripped. */
  lemma {:induction false} LastTaggedStripped(lines: seq<string>, tag: string)
    ensures Strip(LastTagged(lines, tag)) == LastTagged(lines, tag)
  {
    if lines != [] && !Tagged(lines[|lines| - 1], tag) {
      LastTaggedStripped(lines[..|lines| - 1], tag);
    }
  }

  /** Without a line carrying the tag, its value is "". */
  lemma {:induction false} LastTaggedNoMatch(lines: seq<string>, tag: string)
    requires forall k :: 0 <= k < |lines| ==> !Tagged(lines[k], tag)
    ensures LastTagged(lines, tag) == ""
  {
    if lines != [] {
      var init := lines[..|lines| - 1];
      assert forall k :: 0 <= k < |init| ==> init[k] == lines[k];
      LastTaggedNoMatch(init, tag);
    }
  }

  /** A value fit for a labelled line: non-empty, single-line, already stripped. */
  predicate Clean(s: string) {
    s != "" && NoLineBreak(s) && Strip(s) == s
  }

  /** The line `"{tag} {v}"` the service is asked to write. */
  function Line(tag: string, v: string): string {
    tag + " " + v
  }

  /** The reply the service is asked to produce: the message line, then the summary line. */
  function Reply(m: string, s: string): string {
    Line(MsgLabel, m) + "\n" + Line(SummaryLabel, s)
  }

  /** The label and its separating blank contain no line break and start with a letter. */
  lemma LabelPrefixPlain(tag: string)
    requires tag == MsgLabel || tag == SummaryLabel
    ensures NoLineBreak(tag + " ") && !IsSpace((tag + " ")[0])
  {
  }

  lemma LabelledLine(tag: string, v: string)
    requires tag == MsgLabel || tag == SummaryLabel
    requires Clean(v)
    ensures NoLineBreak(Line(tag, v))
    ensures Strip(Line(tag, v)) == Line(tag, v)
    ensures Tagged(Line(tag, v), tag)
    ensures LabelValue(Line(tag, v), tag) == v
  {
    var p := tag + " ";
    var line := p + v;
    LabelPrefixPlain(tag);
    NoLineBreakConcat(p, v);
    assert line[0] == p[0];
    assert line[|line| - 1] == v[|v| - 1];
    StripOfTrimmed(line);
    LineHalves(tag, v);
    StripAfterSpace(' ', v);
  }

  /** `"{tag} {v}"` cut after the tag: the tag, then the blank and the value. */
  lemma LineHalves(tag: string, v: string)
    ensures Line(tag, v)[..|tag|] == tag
    ensures Line(tag, v)[|tag|..] == [' '] + v
  {
    assert Line(tag, v) == tag + ([' '] + v);
  }

  /** Two lines joined by "\n" split back into those two lines. */
  lemma TwoLines(a: string, b: string)
    requires NoLineBreak(a) && b != "" && NoLineBreak(b)
    ensures SplitLines(a + "\n" + b) == [a, b]
  {
    SplitLinesCons(a, "\n", b);
    SplitLinesOne(b);
  }

  /** The last value of each tag in two lines carrying one tag each. */
  lemma TwoTaggedLines(a: string, b: string)
    requires Tagged(a, MsgLabel) && Tagged(b, SummaryLabel)
    ensures LastTagged([a, b], MsgLabel) == LabelValue(a, MsgLabel)
    ensures LastTagged([a, b], SummaryLabel) == LabelValue(b, SummaryLabel)
  {
    LabelsExclusive(Strip(a));
    LabelsExclusive(Strip(b));
    LastTaggedSnoc([], a, MsgLabel);
    LastTaggedSnoc([a], b, MsgLabel);
    LastTaggedSnoc([], a, SummaryLabel);
    LastTaggedSnoc([a], b, SummaryLabel);
  }

  /** A reply in the requested format is read back exactly: the two labelled values. */
  lemma LabelledRoundTrip(m: string, s: string)
    requires Clean(m) && Clean(s)
    ensures !WhitespaceOnly(Reply(m, s)) && ParsedBlocks(Reply(m, s)) == Commentary(m, s)
  {
    var a, b := Line(MsgLabel, m), Line(SummaryLabel, s);
    LabelledLine(MsgLabel, m);
    LabelledLine(SummaryLabel, s);
    TwoLines(a, b);
    TwoTaggedLines(a, b);
    var text := Reply(m, s);
    assert text[0] == a[0];
    assert !IsSpace(text[0]);
  }

  /** Without labels, the first line of the stripped reply is the message (cut to 240
      characters) and the remaining lines, joined and stripped, the summary (cut to 700),
      whichever terminator ends the first line. */
  lemma UnlabelledFallback(first: string, t: string, rest: string)
    requires NoLineBreak(first) && EndsLine(t, rest)
    requires var text := first + t + rest; text != "" && Strip(text) == text
    requires forall k :: 0 <= k < |SplitLines(first + t + rest)| ==>
               !Tagged(SplitLines(first + t + rest)[k], MsgLabel) &&
               !Tagged(SplitLines(first + t + rest)[k], SummaryLabel)
    ensures var r := ParsedBlocks(first + t + rest);
            r.msg == Take(first, MsgBudget) &&
            r.summary == Take(Strip(JoinLines(SplitLines(rest))), SummaryBudget)
  {
    var text := first + t + rest;
    SplitLinesCons(first, t, rest);
    LastTaggedNoMatch(SplitLines(text), MsgLabel);
    LastTaggedNoMatch(SplitLines(text), SummaryLabel);
    assert SplitLines(text)[1..] == SplitLines(rest);
  }

  /** A one-line reply without labels: the message is the line cut to 240 characters and
      the summary is empty. */
  lemma UnlabelledOneLine(text: string)
    requires text != "" && Strip(text) == text && NoLineBreak(text)
    requires !Tagged(text, MsgLabel) && !Tagged(text, SummaryLabel)
    ensures ParsedBlocks(text) == Commentary(Take(text, MsgBudget), "")
  {
    SplitLinesOne(text);
    LastTaggedNoMatch(SplitLines(text), MsgLabel);
    LastTaggedNoMatch(SplitLines(text), SummaryLabel);
    assert FirstLine(text) == text;
    assert SplitLines(text)[1..] == [];
    assert RestLines(text) == "" by {
      assert JoinLines([]) == "";
      assert AllSpace("");
    }
  }
}
