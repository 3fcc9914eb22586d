# blackboard2openrouter, modelled in Dafny

blackboard2openrouter turns a Blackboard roster export (a CSV file) into one
OpenRouter API key per student. It then writes a CSV report of the issued keys. A run
of `processBlackboardCsv` does the following, in order:

- validates the run parameters (`validateOptions`);
- checks that the file's header line names the `Username` and `Student ID` columns
  (`validateBlackboardCsv`);
- maps every parsed record to a student, deriving the email from the username and a
  domain (`parseBlackboardCsv`);
- refuses an empty roster;
- resolves the provisioning key;
- asks the key service for one key per student, in order, stopping at the first
  failure;
- builds the output path and the report text.

The model has six modules:

- `Wrappers`: `Option`, `Result`, and `Outcome` (pass or fail).
- `Strings`: the JavaScript string operations the code relies on. These are
  - the `\s` character class;
  - `trim`;
  - `includes`;
  - `join`;
  - `split` on one character.
- `Types`: the records of `src/types.ts`, as datatypes.
- `Validation`: `src/validation.ts`.
  - `hasNoSpaces`, `isValidDomain` and the shape of `isValidDate` are predicates.
  - `validateOptions` is a method. It walks the seven field checks in their fixed order and appends at most one message per field. It is proved against the function `OptionErrors`.
  - The header check is a function of the file's content.
- `Parser`: the record-to-student mapping of `src/parser.ts`, applied to the records
  the CSV library returns. Each record is a map from column name to cell text.
- `Process`: `src/index.ts`.
  - The issuance loop is a method over an abstract `create` oracle. `create(i, request)` is the outcome of the `i`-th call.
  - The run itself is a method that composes the stages.
  - The output path and the report are functions. Their layout and read-back properties are proved as lemmas.

The code and its documentation differ in two places:

- The tag list is passed to every `create` call as built, unfiltered. Only the log line filters it. The model follows the code here. `Process.TagsNonEmpty` shows that the filter removes nothing once the options are valid.
- The parser checks that the username and student ID are present before it trims them, not after. This is recorded under "## Findings". The model keeps the callback as written (`Parser.StudentOfAsWritten`), but the parse, and so the whole run, uses the corrected callback (`Parser.StudentOf`). The modelled run therefore refuses a record that the program accepts (see "## Left out").

## Model

| member | source | states |
|---|---|---|
| Strings.TrimStartSpec | src/parser.ts:37-41 | leading trim drops exactly a whitespace prefix and keeps a suffix that does not start with whitespace |
| Strings.TrimEndSpec | src/parser.ts:37-41 | trailing trim drops exactly a whitespace suffix and keeps a prefix that does not end with whitespace |
| Strings.TrimSlice | src/validation.ts:63 | `trim` returns a slice of the input with only whitespace before and after it, and the slice neither starts nor ends with whitespace |
| Strings.TrimEmptyIff | src/validation.ts:63-64 | a string trims to the empty string exactly when every character is whitespace |
| Strings.TrimNoWhitespace | src/parser.ts:37-41 | a string without whitespace is its own trim |
| Strings.ContainsIff | src/validation.ts:24-25 | `includes` holds exactly when the substring occurs at some index |
| Strings.ContainsChar | src/validation.ts:24-25 | searching for a one-character string is membership of that character |
| Strings.SplitNoSeparator | src/index.ts:91 | a string without the separator splits into itself alone |
| Strings.SplitAtSeparator | src/index.ts:70-72 | splitting peels off the text before the first separator |
| Strings.SplitJoin | src/index.ts:91 | joining separator-free parts with a one-character separator and splitting again gives the parts back |
| Strings.SplitHead | src/validation.ts:130 | the first piece of a split is a prefix without the separator, followed by the separator or the end |
| Validation.DomainPatternIff | src/validation.ts:28 | `/^[a-z0-9.-]+$/i` matches exactly the non-empty strings of letters, digits, `.` and `-` |
| Validation.IsValidDomainIff | src/validation.ts:21-30 | a domain is valid iff it has no `@`, has a `.`, has no whitespace, is longer than 3 and uses only the domain characters; the class excludes whitespace |
| Validation.DefaultDomainIsValid | src/validation.ts:21-30 | `myseneca.ca` is a valid domain |
| Validation.RejectedDomains | src/validation.ts:21-30 | `my@seneca.ca`, `nodot`, `a.b` and `my seneca.ca` are rejected |
| Validation.RequiredFieldCases | src/validation.ts:61-85 | a mandatory option gets "is required" when empty, "cannot be empty" when all whitespace, "cannot contain spaces" when it has whitespace inside, and no message exactly when it is a whitespace-free non-empty string |
| Validation.OptionalFieldCases | src/validation.ts:87-116 | absent date, domain and output get no message; a date off the pattern is rejected whatever the runtime's date parser says; a blank output or domain "cannot be empty"; a non-blank domain gets the domain message exactly when it is not a valid domain |
| Validation.BlankDomainInvalid | src/validation.ts:100-106 | a blank domain is never a valid one |
| Validation.FieldProblemNoneIff | src/validation.ts:51-116 | every field is free of problems exactly when the options are valid field by field |
| Validation.FieldMessageNamesField | src/validation.ts:51-116 | every message starts with the option's name and a space |
| Validation.FieldsWithMessage | src/validation.ts:51-116 | the reported fields are exactly those of the list that have a message, and there are no more of them than fields |
| Validation.MessagesMatchFields | src/validation.ts:49-116 | the accumulated messages are one per failing field, in the same order, each that field's message |
| Validation.FieldsWithMessageOrdered | src/validation.ts:51-116 | keeping some fields of a list in increasing check order keeps that order |
| Validation.ErrorsMatchFailingFields | src/validation.ts:49-116 | error `i` is the message of failing field `i` and starts with that field's name |
| Validation.CheckOrderIncreasing | src/validation.ts:51-116 | the seven checks run in order limit, courseCode, section, term, date, emailDomain, output |
| Validation.CheckOrderComplete | src/validation.ts:51-116 | every field is checked |
| Validation.FailingFieldsInCheckOrder | src/validation.ts:51-116 | the errors follow the order of the field checks, one per failing field at most, so there are at most seven |
| Validation.FailingFieldsExactly | src/validation.ts:51-116 | a field is reported exactly when its own checks fail |
| Validation.OptionErrorsEmptyIff | src/validation.ts:118-122 | there are no errors exactly when the options are valid |
| Validation.MessagesForSnoc | src/validation.ts:49-116 | checking one more field appends that field's message, if any, to the list |
| Validation.ErrorsStep | src/validation.ts:49-116 | checking the `k`-th field of the order appends its message to the messages of the first `k` |
| Validation.CheckField | src/validation.ts:51-116 | one field's `if`/`else if` chain pushes exactly the field's message, so at most one |
| Validation.CheckRequired | src/validation.ts:61-85 | the chain for course code, section and term pushes the field's message, and nothing exactly when the value is a whitespace-free non-empty string |
| Validation.ValidateOptions | src/validation.ts:48-123 | throws exactly when the error list is non-empty, exactly when the options are invalid, with message `Validation failed:\n  - ` followed by the errors joined by `\n  - ` |
| Validation.FirstLine | src/validation.ts:130 | the first line is a prefix of the content without a line break, followed by a line break or the end |
| Validation.Filter | src/validation.ts:133-135 | `filter` keeps exactly the elements that pass, no more elements than the input, and the whole list when it keeps as many |
| Validation.FilterAppend | src/validation.ts:133-135 | filtering a concatenation filters each part in turn, so the kept elements keep their original order |
| Validation.FilterKeepsAll | src/index.ts:30 | filtering with a test every element passes keeps the whole list |
| Validation.MissingColumns | src/validation.ts:132-135 | the missing columns are `Username` if the first line lacks it, then `Student ID` if it lacks that, and nothing else |
| Validation.ValidateBlackboardCsv | src/validation.ts:128-143 | fails exactly when the first line lacks `Username` or `Student ID`, with the message naming the missing columns and then the expected ones |
| Parser.Resolve | src/parser.ts:25-28 | the fallback chain gives the empty string exactly when every key's value is empty |
| Parser.ResolveIsFirstNonEmpty | src/parser.ts:25-28 | a non-empty resolved value is the value of the first key with a non-empty value |
| Parser.StudentOfAsWritten | src/parser.ts:23-43 | as written: a record fails exactly when its resolved username or student ID is empty before trimming, with an error carrying the record; otherwise the four fields are the trimmed resolved values and the email is the trimmed username, `@` and the trimmed domain |
| Parser.StudentOf | src/parser.ts:23-43 | corrected: a record fails exactly when its trimmed resolved username or student ID is empty, with an error carrying the record; otherwise the four fields are the trimmed resolved values, username and student ID non-empty |
| Parser.EmailFormat | src/parser.ts:41 | every email is the username, `@` and the trimmed domain |
| Parser.MapOrFail | src/parser.ts:23-43 | the map succeeds exactly when every record does, with one result per record in order; otherwise it fails with the error of the first failing record |
| Parser.ParseBlackboardCsv | src/parser.ts:8-46 | all or nothing: on success the students are the records' students, same length and order; on failure the error is that of the first record whose trimmed username or student ID is empty |
| Parser.RequiredFieldsNonEmpty | src/parser.ts:30-40 | every returned student has a non-empty username and student ID |
| Parser.ResolvedTrimmed | src/parser.ts:25-28 | a value resolved from cells that are their own trim is its own trim |
| Parser.AsWrittenAgreesOnTrimmedCells | src/parser.ts:23-43 | on a record whose cells are all their own trim, the callback as written and the corrected one give the same result |
| Parser.UntrimmedUsernameSlipsThrough | src/parser.ts:30-39 | as written, a whitespace-only username passes the required-field check and yields an empty username; the corrected callback rejects that record |
| Parser.MinimalRecord | src/parser.ts:23-43 | a record with only a username and a student ID gives exactly that student, with empty names |
| Parser.RowWithoutIdsFails | src/parser.ts:30-34 | one record with neither a username nor a student ID column makes the whole parse fail |
| Process.EffectiveEmailDomain | src/index.ts:20 | the parser gets the given domain when it is present and non-empty, and `myseneca.ca` when it is absent or empty |
| Process.EffectiveEmailDomainValid | src/index.ts:16-21 | once the options are valid, the domain handed to the parser is a valid domain, and the default when none was given |
| Process.TagsNonEmpty | src/index.ts:28-30 | with valid options no tag is empty, so the logged filtered list is the list passed to every call |
| Process.IssueKeys | src/index.ts:33-66 | every call is the request for the student at its index, with the same tags, limit and date; all calls succeed iff the run succeeds, and then there are exactly as many calls and records as students and record `i` comes from call `i`; otherwise the run stops at the first failing call `k` after `k + 1` calls, with that call's error |
| Process.DateStamp | src/index.ts:71 | the date stamp is the given date when present and non-empty, and today's date when it is absent or empty |
| Process.OutputPath | src/index.ts:68-72 | a non-empty explicit output is the path |
| Process.DefaultFileNameParts | src/index.ts:70-72 | a synthesised name splits on `-` into course, section, term and the pieces of the date with `.csv` |
| Process.DefaultOutputPathParts | src/index.ts:68-72 | without an explicit output, the path splits on `-` into course, section, term and the pieces of the date stamp with `.csv` |
| Process.DefaultOutputPathExtension | src/index.ts:68-72 | without an explicit output, the path ends in `.csv` |
| Process.ReportHeaderText | src/index.ts:78 | the header line is `name,key,hash,username,studentId,email` |
| Process.ReportLineLayout | src/index.ts:79-88 | a record's line is `"name",key,hash,username,studentId,email` |
| Process.ReportLinesLayout | src/index.ts:77-89 | the report has `|records| + 1` lines: the literal header, then record `i`'s line `"name",key,hash,username,studentId,email` at position `i + 1` |
| Process.JoinFree | src/index.ts:87 | joining parts without a character, with a separator without it, gives a string without it |
| Process.ReportFieldsFree | src/index.ts:80-87 | a record's cells lack a character its values lack, other than the double quote |
| Process.HeaderColumns | src/index.ts:78 | the header splits on commas into the six column names and has no line break |
| Process.ReportRoundTrip | src/index.ts:77-91 | when no value contains a comma or line break, the report splits into the header and one line per record, and each line splits into its record's six cells |
| Process.LoadStudents | src/index.ts:16-24 | invalid options, a bad header, a failed parse and an empty roster each end the run with that stage's error, in that order; it succeeds exactly when every stage passes, with the extracted students |
| Process.IssueAndReport | src/index.ts:28-96 | a failed key lookup ends the run with no call; otherwise the calls made are the requests for the first students in order, each with the run's key, the student's email and the run's limit, tags and date, and the run succeeds exactly when every student's call succeeds, with a key for every student in order, the output path and the report; otherwise it ends with `CreateFailed` at the first failing call `k`, after `k + 1` calls, with that call's error |
| Process.ProcessBlackboardCsv | src/index.ts:12-97 | each failing stage before issuance ends the run with its own error and no call; when every stage passes, the run is the issuing part for the extracted students (the calls are their requests in order with the run's key, limit, tags and date; success exactly when every call succeeds, otherwise the key-lookup failure or the first failing call); a success, a key-lookup failure or a failed call happens only when every stage passed |

## Left out

- `bin/cli.ts` is not part of this model. It is command-line wiring: option parsing, `process.exit`, and choosing the console message by error class.
- File reading and writing. The file's content is a string parameter, and the records the CSV library returns are a sequence parameter. The run returns the output path and the report text instead of writing them.
- The CSV library itself: quote relaxation, trimming and empty-line skipping. Its `trim` option strips only unquoted ASCII whitespace around delimiters, so cells are not guaranteed to be their own trim. `Parser.CellsTrimmed` is a hypothesis of `Parser.AsWrittenAgreesOnTrimmedCells`, not a guarantee.
- The key service. `getProvisioningKey` and `create` are function parameters.
- Network failures, retries and the timing of calls are not modelled.
- The `typeof` checks. Dafny's static types subsume them, so the "must be a valid number", "must be a string" and similar messages are absent.
- The NaN and `Number.isFinite` branches of the limit check. The limit is a real number.
- The runtime's `Date`. Whether a date string parses is the parameter `dateParses`, and today's date is the string parameter `today`.
- Logging and `async`/`await`.
- The parse error carries the failing record, not its `JSON.stringify` text.
- Characters are Unicode code points rather than UTF-16 code units. Lengths differ only outside the Basic Multilingual Plane.
- Validation.ValidateOptions: the seven `if` blocks are modelled as one pass over the fixed field order (`Validation.CheckOrder`), with each block in `Validation.CheckField`.
- Validation.Filter: its own contract states membership and length. The order of the kept elements is stated by `Validation.FilterAppend`.
- Process.OutputPath: states only the explicit-output case. The synthesised name is described by `Process.DefaultOutputPathParts` and `Process.DefaultOutputPathExtension`. `Process.DefaultOutputPathParts` needs a course code, section and term without `-`. Option values that pass validation but contain `-`, such as a course code `CCP-555`, have no lemma describing how the name splits; only the `.csv` ending is stated for them.
- Parser.ParseBlackboardCsv: maps the corrected callback `Parser.StudentOf`, not the one as written. So the parse, and with it `Process.LoadStudents` and `Process.ProcessBlackboardCsv`, refuses a record whose resolved username or student ID is whitespace only. The program accepts such a record and issues a key for an email with an empty local part. The parse as written is `MapOrFail(rows, row => StudentOfAsWritten(row, d))`. It is not run through the rest of the model.

## Findings

| source | as written | input that shows it | evidently intended | confidence | as-written member | corrected member |
|---|---|---|---|---|---|---|
| src/parser.ts:30-39 | the required-field check tests the resolved username and student ID before trimming, then the record is returned with the trimmed values | a record whose `Username` cell is a single space inside quotes (`" "`), with a `Student ID` of `100`; the CSV library's `trim` leaves quoted whitespace alone | reject a record whose trimmed username or trimmed student ID is empty, so every student has both | medium; not executed | Parser.UntrimmedUsernameSlipsThrough | Parser.StudentOf |
