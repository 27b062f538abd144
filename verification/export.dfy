/** The shareable record of a generated clarity output (`lastExportData`)
    and its plain-text layout (`buildPlainTextSummary`): seventeen lines
    joined by line feeds, with "—" standing for an empty value list and the
    creation time shown as locale text supplied from outside. */
module Export {
  import opened Text
  import opened Markup
  import opened Guidance

  /** The fields the export keeps; the three guidance texts are stored with
      their tags removed. */
  datatype ExportData = ExportData(
    createdAt: string,
    decision: string,
    a: string,
    b: string,
    riskA: string,
    riskB: string,
    values: seq<string>,
    claritySummary: string,
    nextStep: string,
    tinyAction: string)

  /** The export record built on submit from the trimmed answers and the guidance. */
  function MakeExportData(createdAt: string, decision: string, a: string, b: string,
                          riskA: string, riskB: string, values: seq<string>, g: Guidance): (d: ExportData)
    ensures NoTag(d.claritySummary) && NoTag(d.nextStep) && NoTag(d.tinyAction)
  {
    ExportData(createdAt, decision, a, b, riskA, riskB, values,
      StripTags(g.summary), StripTags(g.nextStep), StripTags(g.tinyAction))
  }

  const TITLE: string := "ClearMind — Decision Summary"
  const TITLE_RULE: string := "---------------------------"
  const OUTPUT_TITLE: string := "Clarity Output"
  const OUTPUT_RULE: string := "-------------"
  const NO_VALUES_MARK: string := "—"

  /** `data.values?.length ? data.values.join(", ") : "—"`. */
  function ValuesLine(values: seq<string>): string {
    if |values| > 0 then Join(values, ", ") else NO_VALUES_MARK
  }

  /** The seventeen lines of the summary; `createdText` is the creation time
      as the browser's locale prints it. */
  function SummaryLines(d: ExportData, createdText: string): (lines: seq<string>)
    ensures |lines| == 17
  {
    [ TITLE,
      TITLE_RULE,
      "Decision: " + d.decision,
      "Option A: " + d.a,
      "Option B: " + d.b,
      "Values: " + ValuesLine(d.values),
      "",
      "Risk (A): " + d.riskA,
      "Risk (B): " + d.riskB,
      "",
      OUTPUT_TITLE,
      OUTPUT_RULE,
      "Clarity summary: " + d.claritySummary,
      "Next best step: " + d.nextStep,
      "5-minute action: " + d.tinyAction,
      "",
      "Created: " + createdText ]
  }

  /** `buildPlainTextSummary`. */
  function BuildPlainTextSummary(d: ExportData, createdText: string): string {
    Join(SummaryLines(d, createdText), "\n")
  }

  /** The text appended by "copy with question". */
  const QUESTION: string :=
    "Question for you: Which option fits " + "my values best, and what’s the " + "smallest next step?"

  /** The text the "copy with question" button puts on the clipboard: the
      summary, two line feeds and the question. */
  function SummaryWithQuestion(d: ExportData, createdText: string): string {
    BuildPlainTextSummary(d, createdText) + ['\n'] + (['\n'] + QUESTION)
  }

  // ---------------------------------------------------------------------
  // The layout

  /** No answer, value, guidance text or date text holds a line feed. */
  predicate SingleLineFields(d: ExportData, createdText: string) {
    && '\n' !in d.decision && '\n' !in d.a && '\n' !in d.b
    && '\n' !in d.riskA && '\n' !in d.riskB
    && (forall k :: 0 <= k < |d.values| ==> '\n' !in d.values[k])
    && '\n' !in d.claritySummary && '\n' !in d.nextStep && '\n' !in d.tinyAction
    && '\n' !in createdText
  }

  // No fixed text of the layout holds a line feed, one text per lemma.
  lemma NoBreakTitle() ensures '\n' !in TITLE {}
  lemma NoBreakTitleRule() ensures '\n' !in TITLE_RULE {}
  lemma NoBreakOutputTitle() ensures '\n' !in OUTPUT_TITLE {}
  lemma NoBreakOutputRule() ensures '\n' !in OUTPUT_RULE {}
  lemma NoBreakNoValues() ensures '\n' !in NO_VALUES_MARK {}
  lemma NoBreakQuestion() ensures '\n' !in QUESTION {}

  lemma ValuesLineSingle(values: seq<string>)
    requires forall k :: 0 <= k < |values| ==> '\n' !in values[k]
    ensures '\n' !in ValuesLine(values)
  {
    if |values| > 0 {
      JoinExcludes(values, ", ", '\n');
    } else {
      NoBreakNoValues();
    }
  }

  lemma LinesSingle(d: ExportData, createdText: string)
    requires SingleLineFields(d, createdText)
    ensures forall k :: 0 <= k < 17 ==> '\n' !in SummaryLines(d, createdText)[k]
  {
    NoBreakTitle();
    NoBreakTitleRule();
    NoBreakOutputTitle();
    NoBreakOutputRule();
    ValuesLineSingle(d.values);
  }

  /** Splitting the summary at line feeds gives back its seventeen lines,
      as long as no field holds a line feed of its own. */
  lemma SummarySplitsIntoLines(d: ExportData, createdText: string)
    requires SingleLineFields(d, createdText)
    ensures Split(BuildPlainTextSummary(d, createdText), '\n') == SummaryLines(d, createdText)
  {
    LinesSingle(d, createdText);
    SplitJoin(SummaryLines(d, createdText), '\n');
  }

  /** The copied text with the question splits into the summary's own
      pieces, an empty line and the question, whatever the fields hold; when
      no field holds a line feed, those pieces are the seventeen lines. */
  lemma QuestionFollowsSummary(d: ExportData, createdText: string)
    ensures Split(SummaryWithQuestion(d, createdText), '\n')
         == Split(BuildPlainTextSummary(d, createdText), '\n') + ["", QUESTION]
    ensures SingleLineFields(d, createdText) ==>
      Split(SummaryWithQuestion(d, createdText), '\n') == SummaryLines(d, createdText) + ["", QUESTION]
  {
    SplitConcat(BuildPlainTextSummary(d, createdText), '\n', ['\n'] + QUESTION);
    NoBreakQuestion();
    SplitAfter([], '\n', QUESTION);
    assert [] + ['\n'] + QUESTION == ['\n'] + QUESTION;
    SplitNone(QUESTION, '\n');
    if SingleLineFields(d, createdText) {
      SummarySplitsIntoLines(d, createdText);
    }
  }

  /** Every line of the layout is found in the summary. */
  lemma SummaryShowsLines(d: ExportData, createdText: string, k: int)
    requires 0 <= k < 17
    ensures Contains(BuildPlainTextSummary(d, createdText), SummaryLines(d, createdText)[k])
  {
    JoinContainsPart(SummaryLines(d, createdText), "\n", k);
  }

  /** The values line shows "—" for no values and holds every value otherwise. */
  lemma ValuesLineShows(values: seq<string>)
    ensures |values| == 0 ==> ValuesLine(values) == NO_VALUES_MARK
    ensures forall k :: 0 <= k < |values| ==> Contains(ValuesLine(values), values[k])
  {
    forall k | 0 <= k < |values|
      ensures Contains(ValuesLine(values), values[k])
    {
      JoinContainsPart(values, ", ", k);
    }
  }
}
