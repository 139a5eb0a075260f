# surveys-api in Dafny

A model of the survey service's `/survey` endpoint and of its two records.

- `POST /survey` validates the JSON body first.
  - If any rule is broken, it answers the list of error messages and stores nothing.
  - Otherwise it stores one survey and one question per payload question, linked to the survey, in one commit.
- `GET /survey` lists the serialization of every stored survey.
- Dates travel as text in the format `%d/%m/%Y %H:%M`. `strptime` reads that format and `strftime` writes it.

## Files

| file | module | contents |
|---|---|---|
| `wrappers.dfy` | `Wrappers` | `Option`, `Result` and `Outcome` (success or a Python exception) |
| `dates.dfy` | `Dates` | the date format as `strptime` reads it (see below): an explicit grammar plus the calendar check; `strftime`'s zero-padded writer; both round trips; worked examples |
| `json_value.dfy` | `JsonValue` | the JSON values the service builds, `dict.get` on them, and the keys in insertion order |
| `models.py` → `models.dfy` | `Models` | the `Survey` class with `set_datetime` (in place), `get_datetime` and `serialize`; the `Question` row and its `serialize`; the `survey.questions` back reference; a client's reading of the output, used to prove that nothing is lost |
| `app.py` → `validation.dfy` | `Validation` | `validate_request` as a method with its loop, proved equal to a rule-by-rule specification; the properties of each rule |
| `app.py` → `app.dfy` | `App` | `survey()` over a `Store` class that holds both tables. POST is `Create`/`Save`/`Add`; GET is `List` |

How the date format is read:

- `strptime` turns `%d/%m/%Y %H:%M` into a regular expression. The expression accepts:
  - a day 1–31 with one or two digits, including a space followed by one digit;
  - a month 1–12 and an hour 0–23 with one or two digits;
  - a minute 0–59 with one or two digits;
  - a year of exactly four digits;
  - any run of whitespace where the format has its single space.
- The whole string must match, and the numbers must form a real date: a year from 1 to 9999, and a day that exists in its month, with the Gregorian leap-year rule.
- The grammar is not restricted to the zero-padded form. `strftime` writes that form, and `Dates.FormatParse` proves that a zero-padded string which parses is written back unchanged.

The model keeps the source's own shape:

- Where the source mutates, the model is imperative:
  - `validate_request` appends to `errors` and loops over the questions;
  - `set_datetime` assigns a column of the record;
  - the POST handler fills a new `Survey`, loops adding question rows, and commits.
- Each of these methods is proved against a specification function or states its whole new state.
- The expressions are functions: `get_datetime`, both `serialize`s, and the GET comprehension.

## Model

| member | source | states |
|---|---|---|
| Validation.Errors | app.py:75-112 | The rule-by-rule specification the validator is proved equal to: `[NotJson]` for a non-JSON request, otherwise the name, start-date, end-date and questions rules' messages in that order |
| Validation.Text | app.py:78-110 | The exact wording of each of the seven messages; TextDistinct states they are pairwise different |
| Validation.ValidateRequest | app.py:70-112 | The returned list is exactly `Errors(req)`: `[NotJson]` for a non-JSON request; otherwise the name, start-date, end-date and questions rules' messages, concatenated in that order |
| Validation.AppendBodyErrors | app.py:107-110 | The loop adds one body message per question whose body is missing or empty, in question order, after the messages already collected |
| Validation.NonJsonRejected | app.py:77-79 | A non-JSON request yields exactly the one message, and a JSON request never yields it |
| Validation.NameRule | app.py:83-85 | The name message appears if and only if the name is missing or empty, and never more than once |
| Validation.StartRule | app.py:87-94 | "required" appears if and only if the start date is missing or empty; the format error appears if and only if a start date is given and does not parse; never both |
| Validation.EndRule | app.py:96-101 | The end-date message appears if and only if an end date is given and does not parse, so an absent or empty one is never an error |
| Validation.QuestionsRule | app.py:103-110 | Missing or empty questions: exactly one "at least one question" message and no body message. Otherwise: no such message, and as many body messages as questions lacking a body |
| Validation.BodyErrorsCount | app.py:107-110 | The number of body messages equals the number of questions without a body |
| Validation.BodyErrorsEmpty | app.py:107-110 | There is no body message if and only if every question has a body |
| Validation.RuleOrder | app.py:75-112 | Messages appear in rule order: name, then start date, then end date, then questions |
| Validation.ErrorBound | app.py:75-112 | The list has at most 3 + (number of questions) messages, and at most 4 when there are no questions |
| Validation.NoErrors | app.py:75-112 | The list is empty if and only if the request is JSON and every rule holds (`Acceptable`) |
| Validation.AcceptsExample | app.py:75-112 | Name "S", start "01/01/2025 10:00" and one question "Q1" give an empty list |
| Validation.TextDistinct | app.py:78-110 | The seven message texts are pairwise different, so the response tells the rules apart |
| App.Store.Valid | app.py:48-58 | What the tables hold between requests (`Tables`): survey and question keys count up from 1, the NOT NULL columns are set, every question points at a stored survey, and every survey has a question. Every operation of `Store` keeps it |
| App.Store.Create | app.py:32-60 | With errors: answers their texts, and both tables are unchanged. Without errors: answers the success text, and the tables are extended as `Stored` says. The tables stay valid either way |
| App.Store.Save | app.py:42-58 | Storing an acceptable payload appends one new survey object (fresh, numbered after the stored surveys, name and description as sent, dates as `set_datetime` parses them, no end date when none was sent) and its question rows; the tables stay valid |
| App.Store.Add | app.py:48-58 | The commit appends the survey and one question row per item, in order: body and note as sent, ids numbered after the stored rows, linked to the new survey. The survey's back reference is exactly those rows, and every other survey's back reference is unchanged |
| App.Store.List | app.py:62-67 | GET succeeds if and only if every stored survey has both dates; otherwise it fails with AttributeError. On success it has one entry per stored survey, in storage order: that survey's `serialize` over its own questions |
| App.Collect | app.py:66 | The comprehension gives every value when no element raises; otherwise it raises the first element's exception |
| App.NewSurvey | app.py:43-47 | The new `Survey()` has the payload's name and description, the parsed start date, and the parsed end date or none when none was sent. `set_datetime` fails on a date exactly when the validator's rule for that date reports it |
| App.QuestionRows | app.py:51-56 | The loop builds one row per payload question, in order, with consecutive ids, the question's body and note, and the survey's id |
| App.TablesAppend | app.py:48-58 | Appending a survey numbered after the stored ones, plus at least one question row linked to it, keeps the tables valid (consecutive keys, non-null columns, every question pointing at a stored survey). The new survey gets exactly those questions; every other survey keeps its own |
| App.NumberedAppend | app.py:48 | Adding a survey numbered after the stored ones, with a name and a start date, keeps survey keys consecutive and the NOT NULL survey columns set |
| App.OwnedAppend | app.py:51-56 | Adding question rows numbered after the stored ones, each with a body and linked to survey n + 1, keeps question keys consecutive and every question pointing at one of surveys 1..n + 1 |
| App.PopulatedAppend | app.py:48-58 | When the new survey gets a nonempty back reference and no other back reference changes, every stored survey still has a question |
| App.NewQuestions | models.py:63-64 | Appending rows of a new survey gives that survey exactly those rows as its back reference, and leaves every other survey's back reference as it was |
| App.ListedAsPosted | app.py:43-56 | A survey stored from a payload with an end date serializes, and a client reads back the new key, the name and description as sent, both dates as parsed, and every posted question's body and note, in order |
| App.DatesListedAsSent | app.py:43-47 | The listed `start_date` and `end_date` of a survey stored with an end date are the zero-padded texts of the dates sent. A date sent zero-padded is listed as exactly the text that was sent |
| App.UnlistedWithoutEnd | models.py:35-52 | Serializing a survey stored from a payload without an end date raises AttributeError, so GET fails with AttributeError, listing no survey at all, while it is stored |
| App.DateRules | app.py:87-101 | The start-date rule reports nothing exactly when `strptime` accepts the start date; the end-date rule, for a given end date, exactly when `strptime` accepts it. This is what makes `set_datetime` (models.py:29) succeed on every date of an accepted payload |
| App.RowsRead | app.py:51-56 | The question rows built from the posted questions read back as the posted bodies and notes, in order |
| App.Asked | app.py:51-54 | One view per posted question, in order, with that question's body and note |
| Models.Survey.SetDatetime | models.py:28-33 | Fails with ValueError exactly when the string does not parse, whatever the tag. Otherwise 'start' sets only `start_date`, 'end' sets only `end_date`, and any other tag changes nothing |
| Models.Survey.GetDatetime | models.py:35-39 | For 'start' or 'end': AttributeError exactly when that column is null, and otherwise a zero-padded date text. Any other tag returns None |
| Models.Written | models.py:37 | Calling `strftime` on a null column raises AttributeError; on a set column it writes a zero-padded string |
| Models.GetDatetimeParsesBack | models.py:35-39 | The text `get_datetime` writes parses back to the column it came from |
| Models.GetAfterSet | models.py:28-39 | Once `set_datetime(tag, s)` has stored its value, `get_datetime(tag)` returns the zero-padded form of `s`, which is `s` itself when `s` is already zero-padded |
| Models.Survey.Serialize | models.py:41-52 | Fails with AttributeError unless both dates are set. Otherwise it has exactly the keys id, name, description, start_date, end_date, questions. It holds the id, the name and the description (null when absent); `start_date` and `end_date` are the texts `get_datetime('start')` and `get_datetime('end')` return; `questions` is `{'question': q.serialize}` per question, in order |
| Models.SerializeReadsBack | models.py:41-52 | Whenever serialization succeeds, a client reads back every column from it, and every question in order |
| Models.ReadSurveyJson | models.py:45-52 | The survey dict has exactly the six keys and reads back as the values it was built from |
| Models.Question.Serialize | models.py:69-75 | The dict `{'body': body, 'note': note}`, whose shape QuestionSerializeShape states |
| Models.QuestionsOf | models.py:63-64 | `survey.questions`: the question rows whose `survey_id` is the survey's id, in table order, never more than the table holds; QuestionsOfMembers and QuestionsOfAppend state its meaning |
| Models.QuestionSerializeShape | models.py:69-75 | `Question.serialize` has exactly the keys body and note, holding the two columns unchanged |
| Models.QuestionEntries | models.py:51 | The questions list is as long as `self.questions`, and element i is `{'question': questions[i].serialize}` |
| Models.ReadQuestionEntries | models.py:51 | A client reads back from the questions list every question's body and note, in order |
| Models.QuestionsOfMembers | models.py:63-64 | The back reference holds exactly the question rows whose `survey_id` is the survey's id |
| Models.QuestionsOfAppend | models.py:63-64 | The back reference over appended rows is the back reference over the old rows followed by the one over the new rows |
| Models.QuestionsOfAll | models.py:63-64 | Rows that all point at a survey are all in its back reference, in order |
| Models.QuestionsOfNone | models.py:63-64 | Rows that all point elsewhere contribute nothing to a survey's back reference |
| Dates.Parse | app.py:92 | `datetime.strptime(s, '%d/%m/%Y %H:%M')`: the datetime when the whole string matches the format's regular expression and the numbers form a calendar date, None (ValueError) otherwise. Its meaning is fixed by ScanExact, ParseGroups, ParseFormat and FormatParse |
| Dates.Format | models.py:37 | `strftime('%d/%m/%Y %H:%M')`: every field zero-padded, the year to four digits; FormatZeroPadded and ParseFormat state its shape and its inverse |
| Dates.Scan | app.py:92 | The separator positions it finds are in order within the string: a slash, a slash, room for four year characters, the end of the whitespace run, and the colon |
| Dates.FirstIndex | app.py:92 | The first occurrence of a character at or after a position: the character is there, and not before it; or None when it does not occur |
| Dates.SpaceEnd | app.py:92 | The end of the whitespace run at a position: every character before it is whitespace, and the one at it is not |
| Dates.ScanExact | app.py:92 | The scan returns given cut positions exactly when those positions delimit the string as the regular expression does |
| Dates.ReadPieces | app.py:92 | Reading the numbers in place at the cut positions gives the same result as checking and converting the groups cut out there |
| Dates.ParseGroups | app.py:92 | `strptime` fails when a separator is missing, and otherwise gives what the groups denote (`Assemble` of the groups `Split` cuts) |
| Dates.SplitSpell | app.py:92 | A string built from pieces that the format delimits is cut back into exactly those pieces: lexing is exact |
| Dates.Split | app.py:92 | Every cut it makes yields pieces that the format delimits and that spell the input |
| Dates.ParseInRange | app.py:92 | Every parsed value has a year 1–9999, a month 1–12, a day 1–31 that is at most 30 in April, June, September and November and at most 28 in February outside leap years (29 in them), an hour 0–23 and a minute 0–59 |
| Dates.ParseFormat | models.py:29-37 | `strptime(strftime(d))` gives back `d`, for every datetime |
| Dates.FormatParse | models.py:29-37 | A zero-padded string that parses is written back unchanged by `strftime` |
| Dates.FormatZeroPadded | models.py:37 | `strftime` always writes the shape dd/mm/yyyy HH:MM with digits in every numeric position |
| Dates.CanonicalForm | models.py:29-37 | Formatting any accepted string gives a zero-padded string that parses back to the same value |
| Dates.ParseExample | app.py:92 | "01/01/2025 10:00" is 1 January 2025, 10:00 |
| Dates.LenientExample | app.py:92 | "1/2/2025  9:05" (single digits, two spaces) is accepted as 1 February 2025, 09:05 |
| Dates.LeapDayExample | app.py:92 | "29/02/2024 10:00" is accepted |
| Dates.NoLeapDayExample | app.py:92 | "29/02/2023 10:00" is rejected |
| Dates.DayOutOfRangeExample | app.py:92 | "32/01/2025 10:00" is rejected |
| Dates.YearExample | app.py:92 | "01/01/25 10:00" (two-digit year) is rejected |

## Left out

- Authentication, registration and tokens: no code for them exists in this repository.
- `db_setup.py` (drops and recreates the tables): this is bootstrap I/O. The `Store` constructor starts from empty tables, which is what it leaves.
- Flask routing, `index`, `app.run` and the debug settings are not modelled.
- `jsonify` is not modelled either. The model stops at the Python values given to it, so the order in which Flask writes dictionary keys is not modelled (the model keeps the order of the dict literal).
- SQLAlchemy sessions, Marshmallow and the credentials module are not modelled. The two tables are sequences in `Store`, and a commit is one atomic assignment. Database failures at commit time, and concurrent readers, are not modelled.
- Keys are positions, as autoincrement gives them on freshly created tables: survey i and question i have id i + 1.
- `survey.questions` is computed from the question rows (`QuestionsOf`), not cached.
- App.Store.List: `Survey.query.all()` at app.py:66 and the back reference at models.py:64 have no ORDER BY, so the database does not promise any row order. The model fixes both orders as insertion order, and "in order" in `List`, `QuestionsOf` and `ListedAsPosted` means that order.
- The `datetime.utcnow` default for `start_date` is not modelled: the validator ensures a start date is always sent.
- Store.Save: `app.py:46-47` assigns the raw date strings to the DateTime columns, leaving the database to convert them. The model converts them with `set_datetime`'s parse instead. So a stored date is the value `strptime` reads, not whatever the database driver would make of the text.
  - An empty `end_date` string passes the validator (it is falsy). `app.py:47` would store that empty string; the model stores no end date.
- Request shapes outside the model's typing are not modelled. The model types the body as an object, every element of `questions` as holding an object under `'question'`, and every field as a string or absent/null. The source tests fields by Python truthiness (app.py:83-110), so a non-string value has effects of its own:
  - A falsy non-string value (`0`, `false`, `[]`, `{}`) counts as missing. For `name`, `start_date` and `questions` it gives that field's "must provide" message (app.py:84-85, 88-89, 104-105). For `end_date` it passes without error (app.py:97) and is then assigned to the column (app.py:47).
  - A truthy non-string `name`, `description`, `body` or `note` passes the validator and is assigned to its column (app.py:44-45, 53-54).
  - The source crashes on these cases only. A truthy non-string date raises TypeError in `strptime` (app.py:92, 99). A truthy `questions` that is not a list raises TypeError when a non-iterable is iterated, or AttributeError on the elements of a string or object (app.py:107-108). A body that is not an object raises AttributeError at `survey_data.get` (app.py:83). An element with no object under `'question'` raises AttributeError (app.py:108).
  None of these cases is in the model.
- `request.is_json` and the JSON decoding are taken as given (`Request.NonJson` / `Request.JsonBody`).
- Messages are the `Message` datatype. `Text` gives their exact wording, and `Texts` gives the strings of the response.
- Dates.Parse: matches ASCII only. Python's `\d` and `\s` also accept Unicode digits and whitespace, and those are not modelled.
- Dates.Format: writes every year with four digits. Some platforms' `strftime` writes years below 1000 without leading zeros, and such text would not parse back with `%Y`.
- GET on a store holding a survey without an end date fails with AttributeError in `Survey.serialize`, and `List` reports exactly that. The web server turning the exception into an HTTP 500 response is not modelled.
