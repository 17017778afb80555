# Quiz server: verified model of the question rules

This Dafny project models the quiz server in `main.go`. The server keeps multiple-choice questions in a
`questions` table and has three HTTP handlers:

- the home page lists every question;
- `/submit-question` validates a form, builds the four options (exactly one is correct) and inserts a row;
- `/check-answer` looks up a question by id, checks the chosen option index and reports whether that
  option is correct, together with the stored explanation.

The model has four modules:

- `Wrappers` (`wrappers.dfy`): `Maybe` and `Result`.
- `Strconv` (`strconv.dfy`): Go's `strconv.Atoi` and the `%d` formatting used for the field names
  `option1` to `option4`. It proves that reading back a formatted number gives the number again.
- `Quiz` (`quiz.dfy`): the `Option` and `Question` entities and the pure parts of the rules:
  - the range check on `correct_option`;
  - the validation of a submission;
  - the four options, built in place by a loop as the handler does;
  - the grading of a chosen option;
  - the lookup by id.
- `QuizServer` (`store.dfy`): the table as the class `QuestionStore`. It holds a sequence of rows and the
  next value of the `SERIAL` id sequence. The handlers are methods on it and return a status code
  (200, 400, 405 or 500) and a body. The INSERT, the full SELECT and the SELECT by id are also methods on it.

Most failures of the database or the template engine do not depend on the request: a lost connection,
a timeout, a broken template. Each handler therefore receives a `Faults` value that says which of those
calls fails during this request. The few failures that the request's bytes do decide are also folded
into `Faults` (see "Left out").

`getQuestions` (main.go:164-180) never asks `rows.Err()` after its row loop. If the iteration stops on
an error partway through, the rows read so far come back as a success. The model has this as the fault
`readStopsAfter`: `List` then returns only part of the table, and the home page and the submit
fragment answer 200 with that partial list.

An unknown question id is a client mistake, and a 400 would be the natural answer for it. The code,
however, looks the question up first and answers 500 on any lookup failure, including an unknown id.
The model follows the code, so a bad id wins over a bad option index.

## Model

| member | source | states |
|---|---|---|
| `Strconv.Atoi` | main.go:211 | an accepted string is an optional sign followed by decimal digits; its value fits a 64-bit int and its sign follows the leading `-` |
| `Strconv.AtoiItoa` | main.go:287 | reading back a printed 64-bit integer gives the same integer, so printed indices and ids are read back exactly |
| `Quiz.OptionFieldsDistinct` | main.go:219 | the four field names `option1`..`option4` are pairwise different, so each option reads its own form field |
| `Quiz.BuildOptions` | main.go:217-222 | the loop fills four slots; slot i holds the text of field `option<i+1>` and is correct exactly when i+1 equals `correct_option` |
| `Quiz.OptionsForShape` | main.go:210-222 | for `correct_option` in 1..4 there are exactly four options, exactly one is correct, it is the one at position `correct_option`-1, and the option texts follow the form field order |
| `Quiz.CorrectIndexUnique` | main.go:220 | among options with exactly one correct, two correct positions are the same position |
| `Quiz.ParseCorrectOption` | main.go:211-215 | accepted exactly when the text parses as an integer between 1 and 4, and then it is that integer |
| `Quiz.CorrectOptionRange` | main.go:212 | the printed numbers 1 to 4 are accepted as themselves; 0, 5 and every other number are refused |
| `Quiz.ValidateSubmission` | main.go:199-222 | a submission is accepted iff it is a POST whose form parsed without error and whose `correct_option` is valid; a refusal is 405 for a wrong method and 400 otherwise; an accepted draft carries the submitted title and explanation and well-formed options, option i with the text of field `option<i+1>` and correct exactly at `correct_option`-1 |
| `Quiz.Grade` | main.go:287-299 | an answer is given iff the `option` text parses as an index into the options; it is that option's correctness flag and always echoes the stored explanation |
| `Quiz.GradeSubmitted` | main.go:293-299 | on a question built by submit, a printed index 0..3 is graded correct iff it equals `correct_option`-1 and echoes the explanation; any other printed index is refused |
| `Quiz.GradeOneCorrect` | main.go:297 | on a well-formed question at most one index is graded correct |
| `Quiz.FindById` | main.go:271-278 | a found question is a stored row with the requested id; nothing is found only when no row has that id |
| `Quiz.FindAfterAppend` | main.go:232-237 | after a row with a fresh id is appended, that id finds the new row and every other id finds what it found before |
| `QuizServer.QuestionStore.constructor` | main.go:146-153 | the table starts empty and its id sequence starts at 1 |
| `QuizServer.QuestionStore.Insert` | main.go:232-241 | a successful INSERT appends exactly one row with the next id and leaves earlier rows unchanged; a failed one changes nothing; ids stay unique |
| `QuizServer.QuestionStore.List` | main.go:157-181 | fails exactly when the query fails; otherwise the list read back is part of the stored rows (as a multiset, since the query has no ORDER BY) of the length the row loop got through, and all of them when the iteration is not cut short |
| `QuizServer.QuestionStore.Select` | main.go:271-278 | a question is returned iff the query succeeds, the id text parses as an integer and a row has that id; the result is that row |
| `QuizServer.QuestionStore.Home` | main.go:183-196 | 500 when the query fails or rendering fails (with the template's error text); otherwise 200 with the full page listing the rows read, which are all the stored rows unless the row iteration stopped early, and then only those read so far |
| `QuizServer.QuestionStore.SubmitQuestion` | main.go:198-257 | a refused request (405 or 400) or a failed INSERT (500) leaves the table unchanged; otherwise exactly one row holding the validated draft is appended, and a later query or render failure answers 500 with the row kept; 200 iff nothing was refused and neither the INSERT, the query nor the render failed; the 200 fragment lists the rows read, all of them unless the row iteration stopped early; well-formedness of all rows is preserved |
| `QuizServer.QuestionStore.CheckAnswer` | main.go:259-307 | 405 for a non-POST; 500 when the lookup fails or finds no question (checked before the option index); 400 for a bad option index; otherwise the answer is whether the chosen stored option is correct, with the stored explanation |
| `QuizServer.QuestionStore.SubmitThenCheck` | main.go:217-222 | submitting and then checking option `idx` of the new question answers 200, correct exactly when `idx` is `correct_option`-1, with the submitted explanation |
| `QuizServer.SubmitArithmetic` | main.go:217-241 | submitting "2+2?" with options 3, 4, 5, 6 and `correct_option` 2 to an empty table stores it under id 1 with only the second option correct |
| `QuizServer.PartialPageExample` | main.go:164-180 | a row read that stops before the first row of a one-row table still answers 200, with a page that lists no question |
| `QuizServer.ArithmeticExample` | main.go:293-299 | on that question, option 1 is graded correct and option 0 incorrect, and both echo "Basic arithmetic" |

## Left out

- `static/sw.js` (the browser service worker) is not part of this model. It is browser caching and `fetch` plumbing.
- `main` and `initDB` (main.go:92-155) are not modelled: the `.env` file, environment variables, the connection string, opening and pinging the database, creating the table, serving static files and registering routes. The constructor models a freshly created, empty table. `CREATE TABLE IF NOT EXISTS` keeps an existing table with its rows, so the handler and store contracts are stated for any state satisfying `Valid()`, not only for states reached from an empty table. The commented-out `main` (main.go:41-90) is dead code.
- JSON encoding of the options column is modelled as identity: options are stored as a `seq<Option>`. `json.Marshal` on four options of text and flag cannot fail, so its 500 branch (main.go:225-229) is not reachable in the model. The `json.Unmarshal` failures (main.go:173-176, main.go:280-285) cannot happen for rows written by this model. In `getQuestions` such a failure belongs to the failed query of `Faults`. The separate "Error parsing options" answer of check-answer is not modelled.
- Template parsing with `template.Must` panics on a missing or broken template file; that panic is not modelled. Execution failures are `Faults.renderError`. The model does not capture that bytes may already have been written, with status 200, before the failure.
- `QuizServer.QuestionStore.Select`: the id text is read with `Strconv.Atoi`. PostgreSQL's own text-to-integer conversion differs from it in several ways that are not modelled. Among others, it accepts surrounding blanks, accepts `0x`/`0o`/`0b` prefixes and `_` digit separators (since PostgreSQL 16), and limits ids to 32 bits. For example, `question_index=0x1` finds row 1 there, while the model answers 500.
- `QuizServer.QuestionStore.Insert`: the 32-bit limit of the SERIAL sequence, and the sequence values that a failed INSERT may consume, are not modelled. A failed insert leaves the next id unchanged.
- `Strconv.Atoi` models Go's `int` as 64 bits. The 32-bit platform case is not modelled.
- Form handling: a request carries one value per field (the first, as `FormValue` returns) and a flag for a reported parse error. Malformed pairs are skipped and the others are kept, so the fields stay readable when the flag is set. Submit refuses on the flag; check-answer ignores it, as `FormValue` does. URL query fields are not told apart from body fields.
- Text is modelled as Unicode characters (`string`), not as the byte strings Go's form values are. Three consequences follow:
  - Some INSERT failures are decided by the request. PostgreSQL refuses TEXT holding a NUL byte or invalid UTF-8, so such a title or explanation always gets 500. An option text with a NUL byte fails too, because its JSON escape `\u0000` is refused by JSONB. The model folds these failures into `Faults.insertFails` rather than deriving them from the request.
  - The identity encoding of the options column holds only for valid UTF-8 text. `json.Marshal` replaces invalid bytes in an option text with U+FFFD, so that stored text is not the submitted field; the model cannot write such input.
  - `QuizServer.QuestionStore.SubmitQuestion` therefore promises that the stored texts equal the form fields only for inputs that are valid text.
- Concurrency between requests is not modelled: each handler runs alone on the store.
- Row order from the unordered SELECT is not modelled. List results are stated as multisets of the stored rows.
