# Student Feedback Portal — a verified model of its form and list

The Student Feedback Portal is a single-page form. A student fills in a draft
(full name, email, batch, course, instructor, a 1–5 rating and free-text
feedback), submits it, and sees every submitted entry in a list, newest first.
This project models the two parts of that page that hold logic:

- the form controller of `App` (`form.dfy`, module `Form`): the draft as a
  `Draft` record, the error map as `map<Field, string>`, the submitted entries
  as `seq<Entry>`, and the success message, held in the class `FeedbackForm`
  whose methods are the event handlers `handleChange`, `handleSubmit`, the
  Reset button and the deferred clearing of the success message. `validate`
  and the construction of an entry are functions; the `batches` year loop is
  a method with its loop; the `courses` list and the rating radio values are
  constants;
- the `FeedbackList` component (`feedback_list.dfy`, module `FeedbackList`):
  the star indicator and the mapping of entries to rows or to the placeholder,
  as pure functions over abstract `Row` and `View` values.

Two JavaScript built-ins the form depends on are modelled in their own
modules: `String.prototype.trim` (`js_string.dfy`, module `JsString`, with the
ECMAScript WhiteSpace and LineTerminator code points) and the conversions
`String(n)` and `Number(s)` (`js_number.dfy`, module `JsNumber`).
`wrappers.dfy` holds the `Option` type; `None` stands for a rating that is
missing or NaN.

What is proved, in short: `validate` reports exactly the blank required
fields and never the full name, and reports nothing exactly on complete
drafts; a change touches one field and at most that field's error; a failed
submit stores exactly the validation errors and changes neither the draft nor
the list; a successful submit prepends exactly one entry built from the
draft and empties the draft and the errors; Reset keeps the list; the class
invariant says every stored entry has non-empty trimmed email, instructor and
feedback, a non-empty name, batch and course, and a unique id. On the display
side, the star value is the point of [0, 5] nearest the rating, five positions
are produced whose filled ones form a prefix of that length, and the list
yields the placeholder exactly when empty and otherwise one row per entry in
order.

The page offers batch and course only through select lists and the rating
only through five radio buttons, but `validate` itself only rejects the empty
string for those three fields: any non-empty value passes
(`ValidateAcceptsUnlistedChoices`), and the stored rating is whatever `Number`
makes of the string. The model keeps that behaviour and adds no membership
check.

## Model

| member | source | states |
|---|---|---|
| `Form.Draft.Set` | src/App.jsx:33-35 | the chosen field takes the new value and every other field of the draft is unchanged |
| `Form.Batches` | src/App.jsx:5-9 | the loop yields exactly "2020" to "2025" in ascending order, and each label reads back as its year |
| `Form.YearLabels` | src/App.jsx:7 | `String(y)` spells the years 2020 to 2025 as "2020" to "2025" |
| `Form.Validate` | src/App.jsx:39-48 | email, instructor and feedback are reported exactly when they are white space only; batch, course and rating exactly when they are the empty string; the full name never |
| `Form.ValidateMessages` | src/App.jsx:41-46 | every reported field carries its own "… is required" message |
| `Form.ValidateEmptyIff` | src/App.jsx:52-53 | no error is reported exactly when the draft meets all six required-field constraints |
| `Form.ValidateAcceptsUnlistedChoices` | src/App.jsx:42-45 | an example of the general rule in `Validate`: the draft with batch "1999", course "Astrology" and rating "9", none of them offered by the page, passes validation |
| `Form.CoursesOffered` | src/App.jsx:11-18 | the `courses` constant holds six distinct course names |
| `Form.MakeEntry` | src/App.jsx:59-68 | the entry keeps the given id, copies batch and course, and always has a non-empty name without surrounding white space; its other fields are stated by the lemmas below |
| `Form.EntryName` | src/App.jsx:61 | the stored name is "Anonymous" when the typed name is white space only, otherwise the typed name trimmed, which is then non-empty |
| `Form.EntryFields` | src/App.jsx:59-68 | the entry keeps the given id, copies batch and course verbatim, and stores email, instructor and feedback trimmed (trimming again changes nothing) |
| `Form.EntryRating` | src/App.jsx:66 | a rating chosen with the k-th radio button is stored as the number k |
| `Form.EntryUnpadded` | src/App.jsx:59-68 | no stored text field starts or ends with white space |
| `Form.CompleteEntryNonEmpty` | src/App.jsx:59-68 | an entry built from a complete draft has non-empty email, instructor and feedback |
| `Form.ValidDraftGivesValidEntry` | src/App.jsx:52-68 | an entry built from a draft that passed `validate` meets the stored-entry invariant |
| `Form.PrependValid` | src/App.jsx:70 | prepending a valid entry with a fresh id keeps every entry valid and the ids distinct |
| `Form.FeedbackForm.constructor` | src/App.jsx:20-31 | the initial state: empty draft, no errors, no entries, no success message |
| `Form.FeedbackForm.HandleChange` | src/App.jsx:33-37 | only the named draft field changes; only that field's error is removed; list and success message are unchanged; the invariant is kept |
| `Form.FeedbackForm.HandleSubmit` | src/App.jsx:50-85 | an invalid draft stores exactly the `validate` result, clears the success message and keeps draft and list; a valid one prepends exactly the built entry before the old list in order, empties draft and errors and sets the success message; the invariant is kept |
| `Form.FeedbackForm.Reset` | src/App.jsx:229-241 | draft emptied, errors and success cleared, list unchanged |
| `Form.FeedbackForm.ClearSuccess` | src/App.jsx:84 | only the success message is cleared |
| `Form.MissingEmailScenario` | src/App.jsx:50-57 | a draft that lacks only the email yields exactly the email error and stores no entry |
| `Form.MissingEmailDraft` | src/App.jsx:39-48 | the draft with only the email blank yields exactly the email error with its message |
| `Form.AnonymousDraft` | src/App.jsx:59-68 | the complete draft with a blank name passes validation and builds the entry named "Anonymous" with rating 5 and the trimmed texts |
| `Form.AnonymousSubmissionScenario` | src/App.jsx:59-82 | a complete draft with a blank name is stored as "Anonymous" with rating 5, and draft and errors end empty |
| `FeedbackList.StarValue` | src/components/FeedbackList.jsx:3-4 | the star value lies in [0, 5], is 0 for a missing or NaN rating, and is the point of [0, 5] nearest the rating |
| `FeedbackList.CountFilledPrefix` | src/components/FeedbackList.jsx:8 | when exactly the positions below v are filled, v positions are filled |
| `FeedbackList.Stars` | src/components/FeedbackList.jsx:7-11 | exactly five positions; position i is filled iff i is below the star value; the filled ones form a prefix; their number is the star value |
| `FeedbackList.RenderRow` | src/components/FeedbackList.jsx:26-41 | the row is keyed by the id, shows the name or "Anonymous" when it is empty, the stars of the rating, and email, batch, course, instructor and feedback unchanged |
| `FeedbackList.RenderRows` | src/components/FeedbackList.jsx:26-27 | one row per entry, in the same order |
| `FeedbackList.Render` | src/components/FeedbackList.jsx:16-45 | the placeholder exactly for an empty list; otherwise one row per entry, in order |
| `FeedbackList.RenderRowsAppend` | src/components/FeedbackList.jsx:26 | the rows of a concatenation are the rows of each part in turn, so a prepended entry becomes the first row |
| `FeedbackList.StoredNamesShown` | src/components/FeedbackList.jsx:30 | for entries the form stores, each row shows the stored name: the fallback never applies |
| `FeedbackList.RadioRatingStars` | src/components/FeedbackList.jsx:31 | a rating chosen with the k-th radio button is shown with exactly k filled stars |
| `FeedbackList.StarExamples` | src/components/FeedbackList.jsx:3-11 | an unset rating and 0 show no filled star, 3 shows three filled then two empty, 7 shows five |
| `JsString.TrimStartSpec` | src/App.jsx:41 | leading trimming keeps a suffix that does not start with white space and drops only white space |
| `JsString.TrimEndSpec` | src/App.jsx:41 | trailing trimming keeps a prefix that does not end with white space and drops only white space |
| `JsString.Trim` | src/App.jsx:41 | the trimmed string is no longer than the input and neither starts nor ends with white space |
| `JsString.TrimIsInfix` | src/App.jsx:61-67 | the trimmed string is the middle of the input between two runs of white space |
| `JsString.TrimEmptyIff` | src/App.jsx:41-46 | the trimmed string is empty exactly when the input is white space only |
| `JsString.TrimNotBlank` | src/App.jsx:41-46 | a string with a non-white-space character trims to a non-empty string |
| `JsString.TrimUnpadded` | src/App.jsx:61-67 | a string without surrounding white space trims to itself |
| `JsString.TrimIdempotent` | src/App.jsx:61-67 | trimming twice equals trimming once |
| `JsNumber.StringOfNat` | src/App.jsx:7 | `String(n)` is a non-empty string of decimal digits without a leading zero, one digit long exactly for n below 10 |
| `JsNumber.DigitsOfStringOfNat` | src/App.jsx:7 | the digits of `String(n)` have the value n |
| `JsNumber.NumberOfString` | src/App.jsx:66 | `Number(s)`: a blank or white-space-only string is 0, and a string whose trimmed form starts with neither a digit nor a sign is NaN; its round-trip partner is `NumberOfStringOfNat` |
| `JsNumber.NumberOfStringTrimmed` | src/App.jsx:66 | surrounding white space does not change the number a string denotes |
| `JsNumber.NumberOfStringOfNat` | src/App.jsx:66 | `Number(String(n))` is n |
| `JsNumber.StringOfNatInjective` | src/App.jsx:7 | distinct years get distinct labels |

## Left out

- Markup, CSS class names, the aria-label text, header and footer, and `e.preventDefault()`: presentation only. The row's "Batch " and "Instructor: " prefixes are left out with the markup; the row holds the raw values.
- React scheduling (`useState`, `useMemo`, functional updaters): each handler is one atomic state change; `handleChange` reads the error map of the same state it updates.
- The three-second `setTimeout` after a successful submit: modelled as the operation `ClearSuccess` with no timing. The timer `handleSubmit` schedules (src/App.jsx:84) is never cancelled, so it can clear a newer success message early; that timing is not modelled.
- `crypto.randomUUID()`: the id is a parameter of `HandleSubmit`, required to differ from every stored id.
- Clearing an error writes `undefined` under its key; the model removes the key. `if (errors[name])` tests for a non-empty message, and the class invariant keeps every stored message non-empty, so the removal happens exactly when the key is present.
- `NumberOfString` models `Number` on strings only for blank strings and optionally signed decimal integers; fractions, exponents, hexadecimal, `Infinity` and other forms become `None` (NaN), and fractional star values such as 3.5 are not represented.
- The `handleChange` value is any string: the select and radio inputs that in the page restrict batch, course and rating to the offered values are not modelled, matching `validate`, which does not check them either.
- `IsWhitespace` lists the ECMAScript WhiteSpace and LineTerminator code points as of the Unicode version in which the Zs category is U+0020, U+00A0, U+1680, U+2000–U+200A, U+202F, U+205F and U+3000.
