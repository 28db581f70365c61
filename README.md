# Match Magician home page, modelled in Dafny

Match Magician is a client-side page that turns a list of search keywords,
one per line, into their search-engine match-type variants:

- the broad form `k`;
- the phrase form `"k"`;
- the exact form `[k]`.

The page keeps a small state record: the typed text (`input`), the
generated text (`result`), the four match-type checkboxes (`matchTypes`:
all, broad, phrase, exact) and a "no match type selected" notice
(`showPopup`). This project models that record and the handlers that change
it, all in `src/views/HomepageView.jsx`:

- `handleSubmit` expands the keywords, or raises the notice when no match
  type is selected.
- `handleMatchTypeChange` applies the checkbox rule.
- `handleReset` clears the page.
- `handleFileUpload` filters the lines of an uploaded file into the input.

The files:

- `text.dfy` (module `Text`): JavaScript's `trim` (`Text.Trim`, built from
  `TrimStart` and `TrimEnd`), `split("\n")` (`Text.Split`) and `join("\n")`
  (`Text.Join`), with their round-trip facts. `Text.IsWhitespace` is the set
  of characters `trim` removes.
- `selection.dfy` (module `Selection`): the `matchTypes` record, the
  checkbox rule (`Selection.Toggled`), its invariant "all ⇒ broad ∧ phrase
  ∧ exact" (`Selection.Consistent`) and a series of checkbox changes
  (`Selection.ApplyChanges`).
- `expansion.dfy` (module `Expansion`):
  - cleaning the input into keywords: `Expansion.Keywords`, which applies
    `Expansion.CleanLines` to the split input;
  - the forms of one keyword (`Expansion.Forms`, using `Quoted` and
    `Bracketed`) and the whole expansion (`Expansion.Expand`);
  - the loop of `handleSubmit` (`Expansion.ExpandLines`), a method proved
    equal to `Expand`;
  - the upload filter: `Expansion.NonBlankLines` on the lines, and
    `Expansion.UploadedInput` for the text it puts into the input.
- `homepage.dfy` (module `Homepage`): the class `PageState` with one method
  per handler.

React's `setState` calls are modelled as assignments to the fields, in
order. The event object is replaced by its payload:

- the checkbox change by its `name` and `checked` values;
- the file upload by the file's text, or `None` when no file was chosen.

Two details of the code matter for the model:

- Submitting with no match type selected raises the notice (`showPopup`)
  and leaves `result` as it was; no error value is produced.
- The input is split on `"\n"` only, not on every kind of line break. A
  `"\r"` at the end of a line is removed by `trim` when submitting, but
  an upload keeps it.

## Model

| member | source | states |
|---|---|---|
| `Text.TrimStartSpec` | src/views/HomepageView.jsx:71 | removing leading whitespace leaves a suffix of the line that starts with a non-whitespace character, and what was removed is all whitespace |
| `Text.TrimEndSpec` | src/views/HomepageView.jsx:71 | removing trailing whitespace leaves a prefix of the line that ends with a non-whitespace character, and what was removed is all whitespace |
| `Text.Trim` | src/views/HomepageView.jsx:71 | a trimmed line has no whitespace at either end |
| `Text.TrimSlice` | src/views/HomepageView.jsx:71 | a trimmed line is the slice of the line between a whitespace-only prefix and a whitespace-only suffix |
| `Text.TrimEmptyIff` | src/views/HomepageView.jsx:71-72 | a line trims to the empty string exactly when it is all whitespace, so the filter drops exactly the blank lines |
| `Text.TrimNoNewline` | src/views/HomepageView.jsx:70-71 | trimming a line that has no newline leaves no newline |
| `Text.TrimOfTrimmed` | src/views/HomepageView.jsx:71 | a string without whitespace at either end is unchanged by trim |
| `Text.TrimIdempotent` | src/views/HomepageView.jsx:71 | trimming twice gives the same as trimming once |
| `Text.Split` | src/views/HomepageView.jsx:70 | splitting always yields at least one piece, even for the empty text |
| `Text.SplitPieces` | src/views/HomepageView.jsx:70 | no piece of a split on "\n" contains "\n" |
| `Text.SplitCount` | src/views/HomepageView.jsx:70 | a split yields exactly one more piece than the text has newlines |
| `Text.JoinSplit` | src/views/HomepageView.jsx:106-107 | joining the pieces of a split with "\n" gives back the original text |
| `Text.SplitNoNewline` | src/views/HomepageView.jsx:70 | a text without a newline splits into itself alone |
| `Text.SplitAfterPiece` | src/views/HomepageView.jsx:70 | splitting `a + "\n" + b` gives `a` followed by the pieces of `b` when `a` has no newline |
| `Text.SplitJoin` | src/views/HomepageView.jsx:82 | a non-empty list of newline-free strings, joined with "\n", splits back into exactly that list |
| `Selection.EnabledCount` | src/views/HomepageView.jsx:54-55 | the count of enabled concrete match types is at most 3, is 0 exactly when submission would be refused, and is 3 exactly when all three are on |
| `Selection.Toggled` | src/views/HomepageView.jsx:32-45 | the changed checkbox takes the new value; "all" sets broad, phrase and exact to it; any other box changes only itself and "all", which becomes `checked && old all` (cleared when unchecked, never turned on) |
| `Selection.InitialConsistent` | src/views/HomepageView.jsx:17-22 | the initial record satisfies all ⇒ broad ∧ phrase ∧ exact and selects nothing |
| `Selection.ToggledConsistent` | src/views/HomepageView.jsx:32-45 | both branches of the checkbox rule preserve all ⇒ broad ∧ phrase ∧ exact |
| `Selection.ChangesConsistent` | src/views/HomepageView.jsx:29-47 | every series of checkbox changes preserves all ⇒ broad ∧ phrase ∧ exact |
| `Selection.IndividualChangesKeepAllOff` | src/views/HomepageView.jsx:39-45 | no series of changes to broad, phrase or exact turns "all" on if it was off |
| `Selection.CheckingEachLeavesAllOff` | src/views/HomepageView.jsx:44 | from the initial record, checking broad, phrase and exact one by one gives all = false with the three on, so the invariant is an implication, not an equivalence |
| `Expansion.CleanLines` | src/views/HomepageView.jsx:69-72 | cleaning never yields more keywords than there are lines |
| `Expansion.CleanLinesShape` | src/views/HomepageView.jsx:71-72 | every cleaned keyword is non-empty with no whitespace at either end, and has no newline when no line had one |
| `Expansion.KeywordsShape` | src/views/HomepageView.jsx:69-72 | every keyword of the input is non-empty, has no whitespace at either end and contains no newline |
| `Expansion.CleanLinesAppend` | src/views/HomepageView.jsx:69-72 | cleaning distributes over concatenation of line lists, so keywords keep the order of their lines |
| `Expansion.CleanLinesMember` | src/views/HomepageView.jsx:69-72 | a string is a keyword exactly when it is the non-empty trim of one of the lines |
| `Expansion.Forms` | src/views/HomepageView.jsx:77-79 | one keyword gives one entry per enabled match type: `k` first if broad is on, `"k"` next if phrase is on, `[k]` last if exact is on |
| `Expansion.ExpandAppend` | src/views/HomepageView.jsx:76-80 | expanding a concatenation of keyword lists is the concatenation of their expansions |
| `Expansion.ExpandLength` | src/views/HomepageView.jsx:76-80 | the expansion has (number of keywords) × (number of enabled match types) entries |
| `Expansion.ExpandAt` | src/views/HomepageView.jsx:76-80 | entry `i*n + j` of the expansion is form `j` of keyword `i`, so each keyword's entries are consecutive and in keyword order |
| `Expansion.SplitExample` | src/views/HomepageView.jsx:70 | "foo\n\nbar \n" splits into "foo", "", "bar " and "" |
| `Expansion.KeywordsExample` | src/views/HomepageView.jsx:69-72 | the keywords of "foo\n\nbar \n" are exactly "foo" and "bar" |
| `Expansion.ExpandExample` | src/views/HomepageView.jsx:76-80 | with broad and phrase on, "foo" and "bar" expand to `foo`, `"foo"`, `bar`, `"bar"` |
| `Expansion.EmptyInputExample` | src/views/HomepageView.jsx:69-82 | an empty input has no keywords, so the joined result is the empty string whatever is selected |
| `Expansion.ExactOnlyExample` | src/views/HomepageView.jsx:69-80 | the input "x" with only exact on expands to the single entry `[x]` |
| `Expansion.ExpandNoNewline` | src/views/HomepageView.jsx:76-80 | keywords without a newline give entries without a newline |
| `Expansion.ResultSplitsBack` | src/views/HomepageView.jsx:82 | when the expansion is non-empty, splitting the joined result on "\n" gives back exactly the expanded entries |
| `Expansion.ExpandLines` | src/views/HomepageView.jsx:74-80 | the push loop produces exactly the expansion of its lines |
| `Expansion.NonBlankLines` | src/views/HomepageView.jsx:106 | the upload filter never yields more lines than it was given |
| `Expansion.NonBlankLinesAppend` | src/views/HomepageView.jsx:106 | the upload filter distributes over concatenation, so kept lines stay in order |
| `Expansion.NonBlankLinesMember` | src/views/HomepageView.jsx:106 | a line is kept exactly when it is one of the lines and its trim is not empty; kept lines are not trimmed |
| `Expansion.NonBlankLinesIdempotent` | src/views/HomepageView.jsx:106 | filtering the kept lines again keeps all of them |
| `Expansion.CleanNonBlank` | src/views/HomepageView.jsx:72 | dropping blank lines before cleaning does not change the keywords |
| `Expansion.KeptLinesNoNewline` | src/views/HomepageView.jsx:106 | no kept line of an upload contains a newline |
| `Expansion.UploadKeepsKeywords` | src/views/HomepageView.jsx:106-107 | submitting an uploaded file's filtered text gives the same keywords as submitting the file's raw text |
| `Expansion.UploadIdempotent` | src/views/HomepageView.jsx:106-107 | uploading the filtered text again gives the same input |
| `Expansion.UploadDoesNotTrim` | src/views/HomepageView.jsx:106 | the upload keeps " a " as it is, while the submit path turns it into the keyword "a" |
| `Homepage.PageState.constructor` | src/views/HomepageView.jsx:15-25 | the page starts with empty input and result, no checkbox on, no notice, and the invariant holding |
| `Homepage.PageState.ChangeMatchType` | src/views/HomepageView.jsx:29-47 | the new `matchTypes` follows the checkbox rule; nothing else changes; the invariant is kept |
| `Homepage.PageState.Submit` | src/views/HomepageView.jsx:51-83 | with no concrete match type on: the notice is raised and `result` is unchanged. Otherwise `result` becomes the expansion of the input's keywords joined by "\n" and the notice is untouched. `input` and `matchTypes` never change |
| `Homepage.PageState.Reset` | src/views/HomepageView.jsx:85-95 | `input` and `result` become empty and every checkbox is cleared, which re-establishes the invariant; the notice is untouched |
| `Homepage.PageState.LoadFile` | src/views/HomepageView.jsx:97-110 | with no file nothing changes; otherwise `input` becomes the file's non-blank lines, untrimmed and in order, joined by "\n"; nothing else changes; the invariant is kept |

## Left out

- The popup's auto-dismiss timer (src/views/HomepageView.jsx:59-65) is not modelled. It is asynchronous scheduling, so the model never sets `showPopup` back to false.
- The `copySuccess` field and its timer (src/views/HomepageView.jsx:27, 118) are not modelled.
- Copying to the clipboard (src/views/HomepageView.jsx:112-124) is browser I/O and is not modelled.
- `downloadResults` (src/views/HomepageView.jsx:126-139) builds a Blob, an object URL and a DOM anchor. That is browser I/O and is not modelled.
- `src/utils/fileOperations` (`downloadAsCSV`, `downloadAsPDF`) is not part of this model.
- Reading the file with `FileReader` is browser I/O. `LoadFile` receives the file's text directly.
- Rendering (src/views/HomepageView.jsx:141-180) and the child components are not modelled. This includes `TextInputArea`, `MatchTypeSelector`, `ResultsDisplay` and `PopupModal`, whose sources are not part of this model. Editing the text box through `setInput` is therefore not modelled either.
- `src/app/layout.js` holds only layout and metadata, with no logic, so it is not modelled.
- React hook semantics are not modelled: closures over a stale `matchTypes` and batched state updates. Each handler is one sequential update of one state record.
- `e.preventDefault()` is not modelled.
- `ChangeMatchType` accepts only the four checkbox names. An arbitrary `name` would add a new key to the record in JavaScript; this cannot happen with the page's own checkboxes.
- `IsWhitespace` fixes the ECMAScript whitespace and line-terminator set. Dafny strings are sequences of Unicode scalar values, not UTF-16 code units, so surrogate pairs are not modelled. Every character `trim` removes is a single code unit, so trimming is unaffected.
