# ClearMind decision tool — a Dafny model of `app.js`

ClearMind is a single-page decision journal. The user describes a decision
between two options. They write the risks of each option and a 24-hour
"gut check" answer, and pick up to three values from seven chips. On submit
the page does the following:

- infers which option the gut check leans toward (`inferLean`);
- writes three guidance texts for that lean (`generateNextStep`), with the
  option label HTML-escaped (`escapeHtml`) and in bold;
- keeps an export record of the decision (`lastExportData`): its three
  guidance texts have their tags removed with `stripTags`, while the
  answers are kept as typed, after trimming;
- saves a history record, newest first, at most 25 of them, in browser
  storage (`saveDecision`).

History entries can be loaded back (`loadDecision`) and deleted
(`deleteDecision`), and the whole history can be wiped. The export can be
copied as a plain-text summary (`buildPlainTextSummary`), with or without a
closing question.

The project has eight modules, one per concern of `app.js`:

| file | module | models |
|---|---|---|
| `text.dfy` | `Text` | the JavaScript string built-ins used: ASCII `toLowerCase`, `trim`, `includes`, `startsWith`, `split(" ")[0]`, `join`, one-character `replaceAll`, plus `split` as the inverse of `join` |
| `lean.dfy` | `Lean` | `inferLean`; the `null` result is `Undecided` |
| `markup.dfy` | `Markup` | `escapeHtml` (five chained passes) and `stripTags` (the global `/<[^>]*>/` deletion), with a one-pass escaper and a decoder as reference definitions |
| `guidance.dfy` | `Guidance` | `generateNextStep` and its fixed texts |
| `export.dfy` | `Export` | the export record and `buildPlainTextSummary` |
| `history.dfy` | `History` | `readStore` over what storage holds, and the list operations behind `saveDecision`, `deleteDecision` and the lookup of `loadDecision` |
| `selection.dfy` | `Selection` | `VALUES`, `MAX_VALUES` and the chip toggle on the ordered selection |
| `session.dfy` | `App` | the page's mutable state as the class `Page`: storage, the selected values, `lastExportData`, the form and the output panel; and the handlers that change it |

The pure helpers of `app.js` are functions, and the properties are lemmas
about them. The page's global state (`selectedValues`, `lastExportData`,
the storage entry, the form fields and the output panel) is the class
`App.Page`. Its handlers are methods. Each method states its whole new
state in terms of the functions above.

Two places where the code may not do what a reader expects; the model
follows the code in both:

- A reader might expect the answer "I'll go with stay" with options "Go"
  and "Stay" to lean toward B; the code gives `null`. The key "go" also
  occurs in "go with", so both keys are mentioned and `inferLean` returns
  `null` (`Lean.ExampleBothMentioned`).
- The "plain" export keeps HTML entities in its three guidance texts.
  `stripTags` only deletes tags, so when the gut check leans toward an
  option named "R&D", the exported clarity summary, next step and 5-minute
  action hold "R&amp;D". The
  exported option field itself (`Option A:`) keeps "R&D" as typed
  (`App.ExportKeepsEntities`).

## Model

| member | source | states |
|---|---|---|
| Lean.ExplicitPatternsFirst | app.js:148-154 | "option a", a leading "a " or exactly "a" (after lower-casing and trimming) gives A, and is checked before B's patterns, so a text naming both options leans to A |
| Lean.KeyFallback | app.js:156-164 | without an explicit pattern: A iff A's first word is non-empty and occurs in the text while B's does not; symmetrically for B; `null` iff both or neither key is mentioned |
| Lean.LeanHasEvidence | app.js:153-161 | every lean rests on an explicit pattern or on an actual occurrence of that side's key in the normalized text |
| Lean.KeyFallbackSymmetric | app.js:156-162 | without an explicit pattern, swapping the two option labels flips the lean |
| Lean.SameKeyUndecided | app.js:156-164 | two labels with the same first word give `null` unless an explicit pattern decides |
| Lean.InferLeanIgnoresCase | app.js:149-151 | the result does not depend on ASCII letter case in any of the three inputs |
| Lean.GoStayKeys | app.js:150-157 | the keys of "Go" and "Stay" are "go" and "stay" |
| Lean.ExampleOptionA | app.js:153 | "Option A" leans to A |
| Lean.ExampleB | app.js:154 | "b" leans to B |
| Lean.ExampleBothMentioned | app.js:158-164 | "I'll go with stay" with options "Go"/"Stay" mentions both keys and gives `null` |
| Lean.ExampleNeither | app.js:158-164 | "not sure yet" mentions neither key and gives `null` |
| Lean.ExampleTieBreak | app.js:153-154 | "option a or maybe option b" leans to A whatever the labels |
| Lean.AbsentChar | app.js:153 | `includes` fails when the text lacks one of the pattern's characters |
| Text.ContainsIffOccurs | app.js:153 | the `includes` scan succeeds exactly when the pattern occurs at some index |
| Text.ContainsMiddle | app.js:158 | a text holding the pattern between two others includes it |
| Text.TrimStartSpec | app.js:149 | `trim` drops exactly the leading whitespace: the result is a suffix, everything dropped is whitespace, the result starts with a non-space |
| Text.TrimEndSpec | app.js:149 | the same for trailing whitespace |
| Text.TrimIdempotent | app.js:455-460 | trimming twice is trimming once |
| Text.TrimLower | app.js:149-151 | trimming and lower-casing commute |
| Text.LowerIdempotent | app.js:149-151 | lower-casing twice is lower-casing once |
| Text.FirstToken | app.js:156-157 | `split(" ")[0]` is a prefix with no space, ending where the text ends or at a space |
| Text.JoinContainsPart | app.js:168 | every part is included in the joined text |
| Text.JoinExcludes | app.js:168 | a character outside all parts and the separator is outside the joined text |
| Text.Split | app.js:214 | splitting gives at least one piece and no piece holds the separator |
| Text.SplitJoin | app.js:214 | splitting a join by the separator gives the parts back when no part holds it |
| Text.SplitConcat | app.js:552 | a text, a separator and more text split into the pieces of the first text followed by the pieces of the rest, whatever either side holds |
| Text.ReplaceAllAppend | app.js:120-124 | one-character `replaceAll` distributes over concatenation |
| Text.ReplaceAllAbsent | app.js:120-124 | a text without the character is left unchanged |
| Markup.EscapeEach | app.js:118-125 | the one-pass escape holds no `<`, `>`, `"` or `'` |
| Markup.EscapeHtmlSinglePass | app.js:118-125 | the five chained passes, `&` first, equal escaping each character once: no entity is escaped twice |
| Markup.EscapeHtmlChar | app.js:120-124 | on a single character the five passes write exactly that character's entity |
| Markup.EscapeHtmlAppend | app.js:118-125 | escaping distributes over concatenation |
| Markup.EscapeHtmlSafe | app.js:118-125 | escaped text holds no `<`, `>`, `"` or `'` |
| Markup.EscapedAmpersands | app.js:118-125 | every `&` in escaped text begins one of the five entities |
| Markup.UnescapeEscapeHtml | app.js:118-125 | decoding the entities gives the original text back |
| Markup.EscapeHtmlInjective | app.js:118-125 | two different texts never escape to the same markup |
| Markup.EscapeHtmlPlain | app.js:118-125 | a text without special characters is its own escape |
| Markup.StripTags | app.js:127-129 | the result is no longer than the input, uses only its characters, holds no `<` followed later by `>`, and equals the input when that has no `<` |
| Markup.StripTagsPrefix | app.js:127-129 | text before the first `<` passes through untouched |
| Markup.StripTagsTag | app.js:127-129 | a `<…>` span with no `>` inside is deleted |
| Markup.StripTagsNoTag | app.js:127-129 | text with no `<…>` span is unchanged |
| Markup.StripTagsIdempotent | app.js:127-129 | stripping twice is stripping once |
| Markup.StripTagsEscaped | app.js:118-129 | escaped text is left unchanged by stripping |
| Guidance.ValuesTextShows | app.js:168 | with values each one appears in the values text; with none it is "your priorities" |
| Guidance.ValuesTextExcludes | app.js:168 | a character in no value, not in ", " and not in the placeholder is not in the values text |
| Guidance.LeanAShowsOptionA | app.js:170-176 | for lean A all three texts hold `<b>` + escaped label A + `</b>`, the summary holds the values text, and nothing depends on label B |
| Guidance.LeanBShowsOptionB | app.js:178-184 | the same for lean B, independent of label A |
| Guidance.SummaryShows | app.js:172 | a leaning summary holds the bold label and the values text |
| Guidance.UndecidedIgnoresLabels | app.js:186-190 | undecided guidance is the same for any two labels and its summary holds the values text |
| Guidance.UndecidedShowsNoLabel | app.js:186-190 | no undecided text holds either option's bold label |
| Guidance.LeanSymmetry | app.js:170-184 | leaning to B with labels (a, b) gives the summary and next step of leaning to A with (b, a); the tiny actions differ |
| Guidance.StripBold | app.js:127-129 | stripping a text with one bold span keeps the span's text and the text around it |
| Guidance.StrippedGuidance | app.js:167-191 | with the tags removed, a leaning text is its sentence with the escaped label in place of the bold span; undecided texts are unchanged |
| Export.MakeExportData | app.js:484-495 | the exported summary, next step and tiny action hold no `<…>` span |
| Export.SummaryLines | app.js:195-213 | the summary has seventeen lines |
| Export.SummarySplitsIntoLines | app.js:194-215 | the line-feed join splits back into the seventeen lines when no field holds a line feed |
| Export.QuestionFollowsSummary | app.js:547-552 | the text copied with the question splits into the summary's own pieces, an empty line and the question, for any fields; when no field holds a line feed, those pieces are the seventeen lines |
| Export.SummaryShowsLines | app.js:194-215 | every line of the layout appears in the summary |
| Export.ValuesLineShows | app.js:201 | the values line is "—" for no values and holds every value otherwise |
| Export.LinesSingle | app.js:195-213 | no line of the layout holds a line feed when no field does |
| History.ReadStoreRecovers | app.js:131-138 | storage that is empty or does not parse reads as an empty history: a save then leaves only the new record, a delete leaves nothing, and no id is found |
| History.Prepended | app.js:345-349 | after a save the new record is first, the length is `min(n + 1, 25)`, and the rest is the old list's prefix in order |
| History.SaveThenFind | app.js:345-354 | a saved record is found by its id |
| History.SaveBounded | app.js:348 | a save never leaves more than 25 records and grows a shorter list by one |
| History.SaveAllNewestFirst | app.js:345-349 | after a run of saves the history is the new records newest first, then the old ones, cut at 25 |
| History.WithoutId | app.js:376-377 | the filter keeps exactly the records whose id differs |
| History.WithoutIdAppend | app.js:377 | the filter keeps the original order |
| History.DeleteThenFind | app.js:376-377 | after a delete the id is not found |
| History.DeleteAbsent | app.js:376-378 | deleting an id no record has leaves the history unchanged |
| History.DeleteKeepsOthers | app.js:376-377 | deleting one id does not change what another id finds |
| History.FindById | app.js:354 | `find` gives no record iff none has the id, and otherwise a record of the list with that id |
| History.FindSkipsPrefix | app.js:354 | records before the first match are skipped: the first record with the id is found |
| Selection.Removed | app.js:260 | `Set.delete` removes exactly the value, shrinks a selection that held it, keeps the rest |
| Selection.RemovedAppend | app.js:260 | deleting a value from a joined list deletes it from each part: the remaining values keep their order |
| Selection.RemovedAt | app.js:260 | on a selection without repeats, deleting the value at index i leaves exactly the values before it followed by those after it, in order |
| Selection.Dedup | app.js:366 | `new Set(values)` holds each value once, exactly the values given |
| Selection.ToggleMembership | app.js:258-264 | a click selects the value iff it was unselected and fewer than three were selected; other values keep their state |
| Selection.ToggleBounded | app.js:262 | a click never takes the selection above three |
| Selection.ToggleFullIgnored | app.js:262 | with three selected, clicking an unselected value changes nothing |
| Selection.ToggleKeepsValid | app.js:258-264 | a click keeps a selection of distinct chip values, at most three |
| Selection.ToggleTwice | app.js:258-264 | clicking an unselected chip twice, with room, restores the selection |
| Selection.ToggleSelectedTwice | app.js:258-264 | clicking a selected chip twice moves it to the end |
| Selection.RemovedDistinct | app.js:260 | deleting from a selection without repeats keeps it without repeats |
| Selection.DedupDistinct | app.js:366 | a saved selection is restored in the same order |
| App.Page.constructor | app.js:99-100 | the page starts with no selection, no export, an empty form and the start message, over whatever storage holds |
| App.Page.ToggleValue | app.js:258-264 | the selection becomes the toggled selection; nothing else changes |
| App.Page.EditForm | app.js:29-36 | the six answers become what the user typed; nothing else changes |
| App.Page.SaveDecision | app.js:345-350 | storage holds the new record first, then the old records, cut at 25; nothing else changes |
| App.Page.FindRecord | app.js:353-354 | the loop returns the first stored record with the id, or none |
| App.Page.LoadDecision | app.js:352-374 | with a record for the id: the form, the deduplicated selection, the output (or the "Loaded" message) and the export come from it; without one: nothing changes |
| App.Page.DeleteDecision | app.js:376-380 | the loop stores exactly the records whose id differs, in order; nothing else changes |
| App.Page.WipeHistory | app.js:522-529 | storage is emptied, the export dropped and the wiped message shown |
| App.Page.Submit | app.js:452-513 | the export is built from the trimmed answers, the selection and the stripped guidance, and the record is saved first in the history |
| App.Page.CopySummary | app.js:536-545 | no text without an export; otherwise the plain-text summary |
| App.Page.CopyWithQuestion | app.js:547-558 | no text without an export; otherwise the summary, two line feeds and the question |
| App.SubmitThenLoad | app.js:452-513 | a submitted decision, loaded by its id, gives back the trimmed answers, the same selection and the same export |
| App.SelectionValuesText | app.js:168 | a chip selection puts no tag into the values text |
| App.ExportedGuidance | app.js:484-495 | the exported summary, next step and 5-minute action of a submit are the guidance sentences with the escaped label of the chosen option and no tags; undecided advice is exported as written |
| App.EscapeRAndD | app.js:118-125 | "R&D" escapes to "R&amp;D" |
| App.ExportKeepsEntities | app.js:484-495 | the export record for lean A with option "R&D" and no values has a clarity summary holding "R&amp;D", while its option field keeps "R&D" |

## Left out

- DOM rendering is not modelled: the history list (`renderHistory`, including its `slice(0, 10)`), the chip buttons, the share box and its status line.
- The submit's output HTML (app.js:466-480) is a parameter of `App.Page.Submit`, not built by the model.
- `makeId` and `nowISO` are random and clock-dependent. The record id and the creation time are parameters.
- `toLocaleString` of the creation time is a parameter (`createdText`) of the summary functions.
- The download button is left out. Its file name is formatted from the date.
- Browser storage is a `Payload`: absent, unparseable, or a list of records. JSON encoding is not modelled. Neither is text that parses to something other than a list.
- Clipboard writes and their failure messages are left out. The copy methods return the text they would copy.
- `applyTemplate`, the URL-hash loading, `TEMPLATES`, the demo decision and `clearForm` are not part of this model.
- Case folding and `trim` cover ASCII only: `A`–`Z`, and space, tab, line feed, vertical tab, form feed and carriage return. Unicode case mapping and the Unicode white-space set are not modelled.
- Selection.ToggleKeepsValid: the clicked value must be one of `VALUES`, as it is when the chips are the only way to click.
- Guidance.UndecidedShowsNoLabel: this states that no undecided text holds a bold option label. It does not state that the label text itself is absent, because a label such as "test" occurs in the fixed advice by coincidence.
- Writes to browser storage are assumed to succeed. `localStorage.setItem` can throw, for example when storage is full; the submit would then show its output and set `lastExportData` without saving. No `Page` method models that failure.
- Export.QuestionFollowsSummary: its first clause holds for any fields. The line-by-line form, with the seventeen lines, holds only when no field holds a line feed.
- Export.SummarySplitsIntoLines: this holds only when no field holds a line feed. A multi-line answer adds lines.
