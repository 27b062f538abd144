/** `generateNextStep`: the three guidance texts shown for a lean. A lean
    toward one option embeds that option's escaped label in bold in all
    three texts; an undecided lean gives fixed advice. The chosen values,
    joined by ", ", appear in the summary. */
module Guidance {
  import opened Text
  import opened Markup
  import opened Lean

  datatype Guidance = Guidance(summary: string, nextStep: string, tinyAction: string)

  /** The placeholder used when no value is selected. */
  const NO_VALUES_TEXT: string := "your priorities"

  /** `valuesArr.length ? valuesArr.join(", ") : "your priorities"`. */
  function ValuesText(values: seq<string>): string {
    if |values| > 0 then Join(values, ", ") else NO_VALUES_TEXT
  }

  /** A label in bold: `<b>…</b>`. */
  function Bold(s: string): string {
    "<b>" + s + "</b>"
  }

  // The fixed fragments of the three templates (long ones are written as
  // concatenations of shorter literals).

  const SUMMARY_OPEN: string := "Your values ("
  const SUMMARY_MID: string := ") point slightly toward "
  const SUMMARY_CLOSE: string := "."
  const NEXT_STEP_OPEN: string := "Commit to "
  const NEXT_STEP_CLOSE: string := " for 7 days and evaluate results."
  const TINY_ACTION_OPEN: string := "Do the first 5-minute action that moves "
  const TINY_ACTION_CLOSE_A: string :=
    " forward (send 1 message, write 5 bullets, " + "or take the smallest setup step)."
  const TINY_ACTION_CLOSE_B: string :=
    " forward (schedule, outline, " + "or take the smallest setup step)."
  const UNDECIDED_OPEN: string :=
    "You’re not fully decided yet — " + "that’s okay. Use your values ("
  const UNDECIDED_CLOSE: string := ") to choose."
  const UNDECIDED_NEXT_STEP: string :=
    "Run a 24-hour test: pick one option " + "and take one real step. "
    + "If relief increases, you’re likely aligned."
  const UNDECIDED_TINY_ACTION: string :=
    "Write 3 reasons you’d choose A " + "and 3 reasons you’d choose B. "
    + "Circle the one that matches " + "what matters most."

  function SummaryFor(option: string, valuesText: string): string {
    SUMMARY_OPEN + valuesText + SUMMARY_MID + Bold(EscapeHtml(option)) + SUMMARY_CLOSE
  }

  function NextStepFor(option: string): string {
    NEXT_STEP_OPEN + Bold(EscapeHtml(option)) + NEXT_STEP_CLOSE
  }

  function TinyActionA(option: string): string {
    TINY_ACTION_OPEN + Bold(EscapeHtml(option)) + TINY_ACTION_CLOSE_A
  }

  function TinyActionB(option: string): string {
    TINY_ACTION_OPEN + Bold(EscapeHtml(option)) + TINY_ACTION_CLOSE_B
  }

  function UndecidedSummary(valuesText: string): string {
    UNDECIDED_OPEN + valuesText + UNDECIDED_CLOSE
  }

  /** `generateNextStep`. */
  function GenerateNextStep(lean: Lean, optionA: string, optionB: string, values: seq<string>): Guidance {
    var valuesText := ValuesText(values);
    match lean
    case A => Guidance(SummaryFor(optionA, valuesText), NextStepFor(optionA), TinyActionA(optionA))
    case B => Guidance(SummaryFor(optionB, valuesText), NextStepFor(optionB), TinyActionB(optionB))
    case Undecided => Guidance(UndecidedSummary(valuesText), UNDECIDED_NEXT_STEP, UNDECIDED_TINY_ACTION)
  }

  // ---------------------------------------------------------------------
  // The values text

  /** With values selected, each of them appears in the values text; with
      none, the placeholder is used. */
  lemma ValuesTextShows(values: seq<string>)
    ensures |values| == 0 ==> ValuesText(values) == NO_VALUES_TEXT
    ensures forall k :: 0 <= k < |values| ==> Contains(ValuesText(values), values[k])
  {
    forall k | 0 <= k < |values|
      ensures Contains(ValuesText(values), values[k])
    {
      JoinContainsPart(values, ", ", k);
    }
  }

  /** A character in no value and not in ", " or the placeholder is not in the values text. */
  lemma ValuesTextExcludes(values: seq<string>, c: char)
    requires forall k :: 0 <= k < |values| ==> c !in values[k]
    requires c !in ", " && c !in NO_VALUES_TEXT
    ensures c !in ValuesText(values)
  {
    if |values| > 0 {
      JoinExcludes(values, ", ", c);
    }
  }

  // ---------------------------------------------------------------------
  // Which label each lean shows

  /** For a lean toward A all three texts hold A's escaped label in bold,
      the summary holds the values text, and nothing depends on B's label. */
  lemma LeanAShowsOptionA(optionA: string, optionB: string, otherB: string, values: seq<string>)
    ensures var g := GenerateNextStep(A, optionA, optionB, values);
      && Contains(g.summary, Bold(EscapeHtml(optionA)))
      && Contains(g.nextStep, Bold(EscapeHtml(optionA)))
      && Contains(g.tinyAction, Bold(EscapeHtml(optionA)))
      && Contains(g.summary, ValuesText(values))
      && g == GenerateNextStep(A, optionA, otherB, values)
  {
    var o := Bold(EscapeHtml(optionA));
    SummaryShows(optionA, ValuesText(values));
    ContainsMiddle(NEXT_STEP_OPEN, o, NEXT_STEP_CLOSE);
    ContainsMiddle(TINY_ACTION_OPEN, o, TINY_ACTION_CLOSE_A);
  }

  /** For a lean toward B all three texts hold B's escaped label in bold,
      the summary holds the values text, and nothing depends on A's label. */
  lemma LeanBShowsOptionB(optionA: string, optionB: string, otherA: string, values: seq<string>)
    ensures var g := GenerateNextStep(B, optionA, optionB, values);
      && Contains(g.summary, Bold(EscapeHtml(optionB)))
      && Contains(g.nextStep, Bold(EscapeHtml(optionB)))
      && Contains(g.tinyAction, Bold(EscapeHtml(optionB)))
      && Contains(g.summary, ValuesText(values))
      && g == GenerateNextStep(B, otherA, optionB, values)
  {
    var o := Bold(EscapeHtml(optionB));
    SummaryShows(optionB, ValuesText(values));
    ContainsMiddle(NEXT_STEP_OPEN, o, NEXT_STEP_CLOSE);
    ContainsMiddle(TINY_ACTION_OPEN, o, TINY_ACTION_CLOSE_B);
  }

  /** A leaning summary holds both the bold label and the values text. */
  lemma SummaryShows(option: string, valuesText: string)
    ensures Contains(SummaryFor(option, valuesText), Bold(EscapeHtml(option)))
    ensures Contains(SummaryFor(option, valuesText), valuesText)
  {
    var o := Bold(EscapeHtml(option));
    ContainsMiddle(SUMMARY_OPEN + valuesText + SUMMARY_MID, o, SUMMARY_CLOSE);
    ContainsMiddle(SUMMARY_OPEN, valuesText, SUMMARY_MID + o + SUMMARY_CLOSE);
    assert SummaryFor(option, valuesText)
        == SUMMARY_OPEN + valuesText + (SUMMARY_MID + o + SUMMARY_CLOSE);
  }

  /** An undecided lean gives the same advice whatever the two labels are,
      and its summary holds the values text. */
  lemma UndecidedIgnoresLabels(optionA: string, optionB: string, otherA: string, otherB: string, values: seq<string>)
    ensures var g := GenerateNextStep(Undecided, optionA, optionB, values);
      && g == GenerateNextStep(Undecided, otherA, otherB, values)
      && Contains(g.summary, ValuesText(values))
  {
    ContainsMiddle(UNDECIDED_OPEN, ValuesText(values), UNDECIDED_CLOSE);
  }

  /** Undecided advice names neither option: none of its texts holds a bold
      label, because none of them holds a tag (given a values text without
      one, as the chips guarantee). */
  lemma UndecidedShowsNoLabel(optionA: string, optionB: string, values: seq<string>)
    requires '<' !in ValuesText(values)
    ensures var g := GenerateNextStep(Undecided, optionA, optionB, values);
      forall option :: option in [optionA, optionB] ==>
        && !Contains(g.summary, Bold(EscapeHtml(option)))
        && !Contains(g.nextStep, Bold(EscapeHtml(option)))
        && !Contains(g.tinyAction, Bold(EscapeHtml(option)))
  {
    var g := GenerateNextStep(Undecided, optionA, optionB, values);
    NoTagOpenUndecided();
    assert '<' !in g.summary;
    forall option | option in [optionA, optionB]
      ensures && !Contains(g.summary, Bold(EscapeHtml(option)))
              && !Contains(g.nextStep, Bold(EscapeHtml(option)))
              && !Contains(g.tinyAction, Bold(EscapeHtml(option)))
    {
      var b := Bold(EscapeHtml(option));
      assert b[0] == '<';
      AbsentChar(g.summary, b, '<');
      AbsentChar(g.nextStep, b, '<');
      AbsentChar(g.tinyAction, b, '<');
    }
  }

  lemma TinyActionClosesDiffer()
    ensures TINY_ACTION_CLOSE_A[10] == 's' && TINY_ACTION_CLOSE_A[11] == 'e'
    ensures TINY_ACTION_CLOSE_B[10] == 's' && TINY_ACTION_CLOSE_B[11] == 'c'
  {
  }

  /** The two leaning cases are mirror images in their summary and next
      step; only the suggested tiny action differs. */
  lemma LeanSymmetry(optionA: string, optionB: string, values: seq<string>)
    ensures GenerateNextStep(B, optionA, optionB, values).summary
         == GenerateNextStep(A, optionB, optionA, values).summary
    ensures GenerateNextStep(B, optionA, optionB, values).nextStep
         == GenerateNextStep(A, optionB, optionA, values).nextStep
    ensures GenerateNextStep(B, optionA, optionB, values).tinyAction
         != GenerateNextStep(A, optionB, optionA, values).tinyAction
  {
    var p := TINY_ACTION_OPEN + Bold(EscapeHtml(optionA));
    TinyActionClosesDiffer();
    assert TinyActionB(optionA)[|p| + 11] == TINY_ACTION_CLOSE_B[11];
    assert TinyActionA(optionA)[|p| + 11] == TINY_ACTION_CLOSE_A[11];
  }

  // ---------------------------------------------------------------------
  // The texts with their tags stripped

  /** A bold span at the front of a text is replaced by its own text. */
  lemma StripBoldThen(s: string, y: string)
    requires '<' !in s && '<' !in y
    ensures StripTags(Bold(s) + y) == s + y
  {
    var close := "<" + "/b" + ">" + y;
    assert Bold(s) + y == "<" + "b" + ">" + (s + close);
    StripTagsTag("b", s + close);
    StripTagsPrefix(s, close);
    StripTagsTag("/b", y);
  }

  /** Stripping the tags from a text with one bold span keeps the span's
      text and everything around it. */
  lemma StripBold(x: string, s: string, y: string)
    requires '<' !in x && '<' !in s && '<' !in y
    ensures StripTags(x + Bold(s) + y) == x + s + y
  {
    var z := Bold(s) + y;
    StripBoldThen(s, y);
    assert x + Bold(s) + y == x + z;
    StripTagsPrefix(x, z);
    assert x + (s + y) == x + s + y;
  }

  // No fixed fragment holds a '<'; each literal piece has a lemma of its own.

  lemma NoOpenSummaryOpen() ensures '<' !in SUMMARY_OPEN {}
  lemma NoOpenSummaryMid() ensures '<' !in SUMMARY_MID {}
  lemma NoOpenSummaryClose() ensures '<' !in SUMMARY_CLOSE {}
  lemma NoOpenNextStepOpen() ensures '<' !in NEXT_STEP_OPEN {}
  lemma NoOpenNextStepClose() ensures '<' !in NEXT_STEP_CLOSE {}
  lemma NoOpenTinyActionOpen() ensures '<' !in TINY_ACTION_OPEN {}
  lemma NoOpenTinyActionCloseA1() ensures '<' !in " forward (send 1 message, write 5 bullets, " {}
  lemma NoOpenTinyActionCloseA2() ensures '<' !in "or take the smallest setup step)." {}
  lemma NoOpenTinyActionCloseA() ensures '<' !in TINY_ACTION_CLOSE_A { NoOpenTinyActionCloseA1(); NoOpenTinyActionCloseA2(); }
  lemma NoOpenTinyActionCloseB1() ensures '<' !in " forward (schedule, outline, " {}
  lemma NoOpenTinyActionCloseB2() ensures '<' !in "or take the smallest setup step)." {}
  lemma NoOpenTinyActionCloseB() ensures '<' !in TINY_ACTION_CLOSE_B { NoOpenTinyActionCloseB1(); NoOpenTinyActionCloseB2(); }
  lemma NoOpenUndecidedOpen1() ensures '<' !in "You’re not fully decided yet — " {}
  lemma NoOpenUndecidedOpen2() ensures '<' !in "that’s okay. Use your values (" {}
  lemma NoOpenUndecidedOpen() ensures '<' !in UNDECIDED_OPEN { NoOpenUndecidedOpen1(); NoOpenUndecidedOpen2(); }
  lemma NoOpenUndecidedClose() ensures '<' !in UNDECIDED_CLOSE {}
  lemma NoOpenUndecidedNextStep1() ensures '<' !in "Run a 24-hour test: pick one option " {}
  lemma NoOpenUndecidedNextStep2() ensures '<' !in "and take one real step. " {}
  lemma NoOpenUndecidedNextStep3() ensures '<' !in "If relief increases, you’re likely aligned." {}
  lemma NoOpenUndecidedNextStep() ensures '<' !in UNDECIDED_NEXT_STEP { NoOpenUndecidedNextStep1(); NoOpenUndecidedNextStep2(); NoOpenUndecidedNextStep3(); }
  lemma NoOpenUndecidedTinyAction1() ensures '<' !in "Write 3 reasons you’d choose A " {}
  lemma NoOpenUndecidedTinyAction2() ensures '<' !in "and 3 reasons you’d choose B. " {}
  lemma NoOpenUndecidedTinyAction3() ensures '<' !in "Circle the one that matches " {}
  lemma NoOpenUndecidedTinyAction4() ensures '<' !in "what matters most." {}
  lemma NoOpenUndecidedTinyAction() ensures '<' !in UNDECIDED_TINY_ACTION { NoOpenUndecidedTinyAction1(); NoOpenUndecidedTinyAction2(); NoOpenUndecidedTinyAction3(); NoOpenUndecidedTinyAction4(); }

  lemma NoTagOpenLeaning()
    ensures '<' !in SUMMARY_OPEN && '<' !in SUMMARY_MID && '<' !in SUMMARY_CLOSE
    ensures '<' !in NEXT_STEP_OPEN && '<' !in NEXT_STEP_CLOSE
    ensures '<' !in TINY_ACTION_OPEN && '<' !in TINY_ACTION_CLOSE_A && '<' !in TINY_ACTION_CLOSE_B
  {
    NoOpenSummaryOpen();
    NoOpenSummaryMid();
    NoOpenSummaryClose();
    NoOpenNextStepOpen();
    NoOpenNextStepClose();
    NoOpenTinyActionOpen();
    NoOpenTinyActionCloseA();
    NoOpenTinyActionCloseB();
  }

  lemma NoTagOpenUndecided()
    ensures '<' !in UNDECIDED_OPEN && '<' !in UNDECIDED_CLOSE
    ensures '<' !in UNDECIDED_NEXT_STEP && '<' !in UNDECIDED_TINY_ACTION
  {
    NoOpenUndecidedOpen();
    NoOpenUndecidedClose();
    NoOpenUndecidedNextStep();
    NoOpenUndecidedTinyAction();
  }

  /** The plain-text guidance: removing the tags from a leaning text leaves
      the sentence with the escaped label in place of its bold span (the
      entities stay); undecided texts have no tags and are unchanged. */
  lemma StrippedGuidance(lean: Lean, optionA: string, optionB: string, values: seq<string>)
    requires '<' !in ValuesText(values)
    ensures var g := GenerateNextStep(lean, optionA, optionB, values);
      var e := EscapeHtml(if lean == B then optionB else optionA);
      lean != Undecided ==>
        && StripTags(g.summary) == SUMMARY_OPEN + ValuesText(values) + SUMMARY_MID + e + SUMMARY_CLOSE
        && StripTags(g.nextStep) == NEXT_STEP_OPEN + e + NEXT_STEP_CLOSE
        && StripTags(g.tinyAction)
           == TINY_ACTION_OPEN + e + (if lean == A then TINY_ACTION_CLOSE_A else TINY_ACTION_CLOSE_B)
    ensures var g := GenerateNextStep(lean, optionA, optionB, values);
      lean == Undecided ==>
        && StripTags(g.summary) == UNDECIDED_OPEN + ValuesText(values) + UNDECIDED_CLOSE
        && StripTags(g.nextStep) == UNDECIDED_NEXT_STEP
        && StripTags(g.tinyAction) == UNDECIDED_TINY_ACTION
  {
    var vt := ValuesText(values);
    if lean == Undecided {
      NoTagOpenUndecided();
      assert '<' !in UndecidedSummary(vt);
    } else {
      var e := EscapeHtml(if lean == B then optionB else optionA);
      EscapeHtmlSafe(if lean == B then optionB else optionA);
      NoTagOpenLeaning();
      StripBold(SUMMARY_OPEN + vt + SUMMARY_MID, e, SUMMARY_CLOSE);
      StripBold(NEXT_STEP_OPEN, e, NEXT_STEP_CLOSE);
      StripBold(TINY_ACTION_OPEN, e, TINY_ACTION_CLOSE_A);
      StripBold(TINY_ACTION_OPEN, e, TINY_ACTION_CLOSE_B);
    }
  }
}
