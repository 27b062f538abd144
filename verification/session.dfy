/** The page's state and its handlers: the stored history, the selected
    values, the last export record, the form's answers and the output
    panel's HTML. The form submit infers a lean, builds the guidance and the
    export record and saves the decision; history entries can be loaded and
    deleted; the history can be wiped; the summary can be copied. */
module App {
  import opened Text
  import opened Markup
  import opened Lean
  import opened Guidance
  import opened Export
  import opened History
  import opened Selection

  /** The six answers of the form. */
  datatype Form = Form(decision: string, a: string, b: string, riskA: string, riskB: string, q24: string)

  const LOADED_MESSAGE: string := "Loaded. Click Generate clarity " + "to refresh the output."
  const WIPED_MESSAGE: string := "History wiped. Fill out the questions " + "and click Generate clarity."
  const START_MESSAGE: string := "Fill out the questions and click " + "<b>Generate clarity</b>."

  /** The answers as the submit handler reads them: each one trimmed. */
  function Trimmed(f: Form): Form {
    Form(Trim(f.decision), Trim(f.a), Trim(f.b), Trim(f.riskA), Trim(f.riskB), Trim(f.q24))
  }

  /** The guidance for trimmed answers and a selection. */
  function GuidanceOf(t: Form, values: seq<string>): Guidance {
    GenerateNextStep(InferLean(t.q24, t.a, t.b), t.a, t.b, values)
  }

  /** The export record a submit builds. */
  function ExportOf(f: Form, values: seq<string>, createdAt: string): ExportData {
    var t := Trimmed(f);
    MakeExportData(createdAt, t.decision, t.a, t.b, t.riskA, t.riskB, values, GuidanceOf(t, values))
  }

  /** The history record a submit saves. */
  function SubmittedRecord(f: Form, values: seq<string>, id: string, createdAt: string, html: string): Record {
    var t := Trimmed(f);
    Record(id, createdAt, t.decision, t.a, t.b, t.riskA, t.riskB, t.q24, values, html,
      Some(ExportOf(f, values, createdAt)))
  }

  /** The output panel after loading a record. */
  function LoadedOutput(r: Record): string {
    if r.outputHtml != [] then r.outputHtml else LOADED_MESSAGE
  }

  class Page {
    /** Browser storage under the history key. */
    var stored: Payload
    /** `selectedValues`. */
    var selected: seq<string>
    /** `lastExportData`. */
    var lastExport: Option<ExportData>
    /** The form's current answers. */
    var form: Form
    /** The output panel's HTML. */
    var output: string

    /** `readStore()`. */
    function Items(): seq<Record>
      reads this
    {
      ReadStore(stored)
    }

    /** The page as it boots over whatever storage holds. */
    constructor (initial: Payload)
      ensures stored == initial && selected == [] && lastExport == None
      ensures form == Form([], [], [], [], [], []) && output == START_MESSAGE
    {
      stored := initial;
      selected := [];
      lastExport := None;
      form := Form([], [], [], [], [], []);
      output := START_MESSAGE;
    }

    /** A click on the chip of value `v`. */
    method ToggleValue(v: string)
      requires v in VALUES
      modifies this
      ensures selected == Toggled(old(selected), v)
      ensures stored == old(stored) && lastExport == old(lastExport)
      ensures form == old(form) && output == old(output)
    {
      if v in selected {
        selected := Removed(selected, v);
      } else {
        if |selected| >= MAX_VALUES {
          return;
        }
        selected := selected + [v];
      }
    }

    /** The user typing into the six inputs: the answers become `f`. */
    method EditForm(f: Form)
      modifies this
      ensures form == f
      ensures stored == old(stored) && selected == old(selected)
      ensures lastExport == old(lastExport) && output == old(output)
    {
      form := f;
    }

    /** `saveDecision`: put the record first and keep at most 25. */
    method SaveDecision(r: Record)
      modifies this
      ensures stored == Stored(Prepended(old(Items()), r))
      ensures selected == old(selected) && lastExport == old(lastExport)
      ensures form == old(form) && output == old(output)
    {
      var items := Items();
      items := [r] + items;
      stored := Stored(items[..Min(|items|, MAX_HISTORY)]);
    }

    /** `items.find((x) => x.id === id)` over the stored history. */
    method FindRecord(id: string) returns (found: Option<Record>)
      ensures found == FindById(Items(), id)
    {
      var items := Items();
      var i := 0;
      while i < |items|
        invariant 0 <= i <= |items|
        invariant FindById(items[i..], id) == FindById(items, id)
      {
        if items[i].id == id {
          return Some(items[i]);
        }
        assert items[i..][1..] == items[i + 1..];
        i := i + 1;
      }
      return None;
    }

    /** `loadDecision`: refill the form, the selection, the output and the
      export record from the first record with the id; nothing happens
      when there is none. */
    method LoadDecision(id: string)
      modifies this
      ensures stored == old(stored)
      ensures FindById(old(Items()), id) == None ==>
        selected == old(selected) && lastExport == old(lastExport)
        && form == old(form) && output == old(output)
      ensures FindById(old(Items()), id).Some? ==>
        var r := FindById(old(Items()), id).value;
        && form == Form(r.decision, r.a, r.b, r.riskA, r.riskB, r.q24)
        && selected == Dedup(r.values)
        && output == LoadedOutput(r)
        && lastExport == r.exportData
    {
      var found := FindRecord(id);
      if found.None? {
        return;
      }
      var item := found.value;
      form := Form(item.decision, item.a, item.b, item.riskA, item.riskB, item.q24);
      selected := Dedup(item.values);
      output := LoadedOutput(item);
      lastExport := item.exportData;
    }

    /** `deleteDecision`: keep the records whose id differs. */
    method DeleteDecision(id: string)
      modifies this
      ensures stored == Stored(WithoutId(old(Items()), id))
      ensures selected == old(selected) && lastExport == old(lastExport)
      ensures form == old(form) && output == old(output)
    {
      var items := Items();
      var kept: seq<Record> := [];
      var i := 0;
      while i < |items|
        invariant 0 <= i <= |items|
        invariant kept == WithoutId(items[..i], id)
        modifies {}
      {
        WithoutIdStep(items, i, id);
        if items[i].id != id {
          kept := kept + [items[i]];
        }
        i := i + 1;
      }
      assert items[..|items|] == items;
      stored := Stored(kept);
    }

    /** The wipe-history button: storage is emptied and the export dropped. */
    method WipeHistory()
      modifies this
      ensures stored == Absent && lastExport == None && output == WIPED_MESSAGE
      ensures selected == old(selected) && form == old(form)
    {
      stored := Absent;
      lastExport := None;
      output := WIPED_MESSAGE;
    }

    /** The form submit. The record id, the creation time and the rendered
        HTML are supplied by the caller. */
    method Submit(id: string, createdAt: string, html: string)
      modifies this
      ensures lastExport == Some(ExportOf(old(form), old(selected), createdAt))
      ensures stored == Stored(Prepended(old(Items()), SubmittedRecord(old(form), old(selected), id, createdAt, html)))
      ensures output == html
      ensures selected == old(selected) && form == old(form)
    {
      var record := SubmittedRecord(form, selected, id, createdAt, html);
      var exported := record.exportData;
      SaveDecision(record);
      output := html;
      lastExport := exported;
    }

    /** The copy-summary button: the plain-text summary, or nothing when no
        export exists. `createdText` is the locale text of the creation time. */
    method CopySummary(createdText: string) returns (text: Option<string>)
      ensures lastExport.None? <==> text.None?
      ensures lastExport.Some? ==> text == Some(BuildPlainTextSummary(lastExport.value, createdText))
    {
      if lastExport.None? {
        return None;
      }
      text := Some(BuildPlainTextSummary(lastExport.value, createdText));
    }

    /** The copy-with-question button. */
    method CopyWithQuestion(createdText: string) returns (text: Option<string>)
      ensures lastExport.None? <==> text.None?
      ensures lastExport.Some? ==> text == Some(SummaryWithQuestion(lastExport.value, createdText))
    {
      if lastExport.None? {
        return None;
      }
      var summary := BuildPlainTextSummary(lastExport.value, createdText);
      text := Some(summary + ['\n'] + (['\n'] + QUESTION));
    }
  }

  // ---------------------------------------------------------------------
  // Across handlers

  /** A submitted decision, loaded back by its id, restores the trimmed
      answers, the chip selection and the export record. */
  lemma SubmitThenLoad(items: seq<Record>, f: Form, sel: seq<string>, id: string, createdAt: string, html: string)
    requires Distinct(sel)
    ensures var r := SubmittedRecord(f, sel, id, createdAt, html);
      var found := FindById(Prepended(items, r), id);
      && found == Some(r)
      && Form(r.decision, r.a, r.b, r.riskA, r.riskB, r.q24) == Trimmed(f)
      && Dedup(r.values) == sel
      && r.exportData == Some(ExportOf(f, sel, createdAt))
      && LoadedOutput(r) == (if html != [] then html else LOADED_MESSAGE)
  {
    SaveThenFind(items, SubmittedRecord(f, sel, id, createdAt, html));
    DedupDistinct(sel);
  }

  lemma NoOpenInValues()
    ensures forall k :: 0 <= k < |VALUES| ==> '<' !in VALUES[k]
  {
  }

  lemma NoOpenSeparator() ensures '<' !in ", " {}
  lemma NoOpenPlaceholder() ensures '<' !in NO_VALUES_TEXT {}

  /** A chip selection never puts a tag into the guidance. */
  lemma SelectionValuesText(sel: seq<string>)
    requires ValidSelection(sel)
    ensures '<' !in ValuesText(sel)
  {
    NoOpenInValues();
    NoOpenSeparator();
    NoOpenPlaceholder();
    forall k | 0 <= k < |sel|
      ensures '<' !in sel[k]
    {
      var j :| 0 <= j < |VALUES| && VALUES[j] == sel[k];
    }
    ValuesTextExcludes(sel, '<');
  }

  /** The exported guidance of a submit with a chip selection is the
      guidance sentence with the tags removed: for a lean, the escaped label
      of the chosen option stands where its bold span was. */
  lemma ExportedGuidance(f: Form, sel: seq<string>, createdAt: string)
    requires ValidSelection(sel)
    ensures var t := Trimmed(f);
      var lean := InferLean(t.q24, t.a, t.b);
      var d := ExportOf(f, sel, createdAt);
      var e := EscapeHtml(if lean == B then t.b else t.a);
      && (lean != Undecided ==>
            d.claritySummary == SUMMARY_OPEN + ValuesText(sel) + SUMMARY_MID + e + SUMMARY_CLOSE
            && d.nextStep == NEXT_STEP_OPEN + e + NEXT_STEP_CLOSE
            && d.tinyAction
               == TINY_ACTION_OPEN + e + (if lean == A then TINY_ACTION_CLOSE_A else TINY_ACTION_CLOSE_B))
      && (lean == Undecided ==>
            d.claritySummary == UNDECIDED_OPEN + ValuesText(sel) + UNDECIDED_CLOSE
            && d.nextStep == UNDECIDED_NEXT_STEP && d.tinyAction == UNDECIDED_TINY_ACTION)
  {
    var t := Trimmed(f);
    SelectionValuesText(sel);
    StrippedGuidance(InferLean(t.q24, t.a, t.b), t.a, t.b, sel);
  }

  lemma EscapeEachRAndD() ensures EscapeEach("R&D") == "R&amp;D" {}

  /** `escapeHtml("R&D")` is "R&amp;D". */
  lemma EscapeRAndD()
    ensures EscapeHtml("R&D") == "R&amp;D"
  {
    EscapeHtmlSinglePass("R&D");
    EscapeEachRAndD();
  }

  /** The "plain" export keeps the entities of an escaped label: with an
      option called "R&D", chosen with no values selected, the exported
      summary holds "R&amp;D", while the exported option field keeps "R&D". */
  lemma ExportKeepsEntities(decision: string, riskA: string, riskB: string, createdAt: string)
    ensures var d := MakeExportData(createdAt, decision, "R&D", "Sales", riskA, riskB, [],
                                    GenerateNextStep(A, "R&D", "Sales", []));
      && d.claritySummary == SUMMARY_OPEN + NO_VALUES_TEXT + SUMMARY_MID + "R&amp;D" + SUMMARY_CLOSE
      && d.a == "R&D"
  {
    NoOpenPlaceholder();
    StrippedGuidance(A, "R&D", "Sales", []);
    EscapeRAndD();
  }
}
