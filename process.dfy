/**
 * `processBlackboardCsv`: validation, student extraction, the fail-fast issuance loop
 * against the remote key service, the output path and the report text. The remote
 * calls are parameters: `create(i, request)` is the outcome of the `i`-th call, and
 * `getProvisioningKey` the outcome of resolving the provisioning key.
 */
module Process {
  import opened Wrappers
  import opened Strings
  import opened Types
  import opened Validation
  import opened Parser

  const DefaultEmailDomain: string := "myseneca.ca"

  /** `options.emailDomain || DEFAULT_EMAIL_DOMAIN`: an absent or empty domain falls back. */
  function EffectiveEmailDomain(options: ProcessOptions): (domain: string)
    ensures domain != ""
    ensures options.emailDomain.Some? && options.emailDomain.value != "" ==> domain == options.emailDomain.value
    ensures options.emailDomain.None? || options.emailDomain.value == "" ==> domain == DefaultEmailDomain
  {
    if options.emailDomain.Some? && options.emailDomain.value != "" then options.emailDomain.value
    else DefaultEmailDomain
  }

  /** Once the options are valid, the domain handed to the parser is a valid domain. */
  lemma EffectiveEmailDomainValid(options: ProcessOptions, dateParses: string -> bool)
    requires OptionsValid(options, dateParses)
    ensures IsValidDomain(EffectiveEmailDomain(options))
    ensures options.emailDomain.None? ==> EffectiveEmailDomain(options) == DefaultEmailDomain
  {
    DefaultDomainIsValid();
  }

  /** The tag list every key is created with: the course, section and term, then `student`. */
  function Tags(options: ProcessOptions): seq<string> {
    [options.courseCode, options.section, options.term, "student"]
  }

  /**
   * The list is passed unfiltered; once the options are valid none of its entries is
   * empty, so the filtered list that is logged is the same list.
   */
  lemma TagsNonEmpty(options: ProcessOptions, dateParses: string -> bool)
    requires OptionsValid(options, dateParses)
    ensures forall t | t in Tags(options) :: t != ""
    ensures Filter(Tags(options), (t: string) => t != "") == Tags(options)
  {
    FilterKeepsAll(Tags(options), (t: string) => t != "");
  }

  /** The argument of one `create` call. */
  datatype CreateRequest = CreateRequest(
    provisioningKey: string,
    email: string,
    limit: real,
    tags: seq<string>,
    date: Option<string>)

  /** What one successful `create` call returns. */
  datatype CreatedKey = CreatedKey(keyName: string, apiKey: string, hash: string)

  /** The request made for `student`: its email, and the run's key, limit, tags and date. */
  function RequestFor(provisioningKey: string, options: ProcessOptions, tags: seq<string>,
                      student: BlackboardStudent): CreateRequest
  {
    CreateRequest(provisioningKey, student.email, options.limit, tags, options.date)
  }

  /** The record pushed for `student`: the key's name, secret and hash, and the student's identity. */
  function RecordOf(student: BlackboardStudent, created: CreatedKey): KeyRecord {
    KeyRecord(created.keyName, created.apiKey, created.hash,
              student.username, student.studentId, student.email)
  }

  /** Call `k` is the first `create` call of the run that fails. */
  predicate FirstFailedCall(students: seq<BlackboardStudent>, provisioningKey: string,
                            options: ProcessOptions, tags: seq<string>,
                            create: (nat, CreateRequest) -> Result<CreatedKey, string>, k: int)
  {
    && 0 <= k < |students|
    && create(k, RequestFor(provisioningKey, options, tags, students[k])).Failure?
    && forall j | 0 <= j < k :: create(j, RequestFor(provisioningKey, options, tags, students[j])).Success?
  }

  /**
   * The run stopped at its first failing call: every call but the last succeeded,
   * the last one failed, and `reason` is that call's error.
   */
  predicate StoppedAtFailure(calls: seq<CreateRequest>,
                             create: (nat, CreateRequest) -> Result<CreatedKey, string>,
                             reason: string)
  {
    && |calls| >= 1
    && (forall i | 0 <= i < |calls| - 1 :: create(i, calls[i]).Success?)
    && create(|calls| - 1, calls[|calls| - 1]).Failure?
    && reason == create(|calls| - 1, calls[|calls| - 1]).error
  }

  /**
   * Every student got a key: call `i` was the request for student `i` and succeeded,
   * and record `i` holds its key with the identity of student `i`.
   */
  predicate AllIssued(students: seq<BlackboardStudent>, provisioningKey: string,
                      options: ProcessOptions, tags: seq<string>,
                      create: (nat, CreateRequest) -> Result<CreatedKey, string>,
                      calls: seq<CreateRequest>, records: seq<KeyRecord>)
  {
    && |calls| == |records| == |students|
    && forall i | 0 <= i < |students| ::
         && calls[i] == RequestFor(provisioningKey, options, tags, students[i])
         && create(i, calls[i]).Success?
         && records[i] == RecordOf(students[i], create(i, calls[i]).value)
  }

  /**
   * The issuance loop: one `create` call per student, in order, each with the same
   * tags, limit and date; a failing call ends the run at once with its error and no
   * records, otherwise the records are those of the calls, in order.
   */
  method IssueKeys(students: seq<BlackboardStudent>, provisioningKey: string,
                   options: ProcessOptions, tags: seq<string>,
                   create: (nat, CreateRequest) -> Result<CreatedKey, string>)
    returns (calls: seq<CreateRequest>, r: Result<seq<KeyRecord>, string>)
    ensures |calls| <= |students|
    ensures forall i | 0 <= i < |calls| ::
      calls[i] == RequestFor(provisioningKey, options, tags, students[i])
    ensures forall i | 0 <= i < |calls| ::
      calls[i].tags == tags && calls[i].limit == options.limit && calls[i].date == options.date
    ensures r.Success? <==>
      forall i | 0 <= i < |students| ::
        create(i, RequestFor(provisioningKey, options, tags, students[i])).Success?
    ensures r.Success? ==> AllIssued(students, provisioningKey, options, tags, create, calls, r.value)
    ensures r.Failure? ==>
      && StoppedAtFailure(calls, create, r.error)
      && FirstFailedCall(students, provisioningKey, options, tags, create, |calls| - 1)
  {
    calls := [];
    var records: seq<KeyRecord> := [];
    var i := 0;
    while i < |students|
      invariant 0 <= i <= |students|
      invariant |calls| == |records| == i
      invariant forall j | 0 <= j < i ::
        calls[j] == RequestFor(provisioningKey, options, tags, students[j])
      invariant forall j | 0 <= j < i ::
        && create(j, calls[j]).Success?
        && records[j] == RecordOf(students[j], create(j, calls[j]).value)
    {
      var request := RequestFor(provisioningKey, options, tags, students[i]);
      var result := create(i, request);
      calls := calls + [request];
      if result.Failure? {
        return calls, Failure(result.error);
      }
      records := records + [RecordOf(students[i], result.value)];
      i := i + 1;
    }
    return calls, Success(records);
  }

  /** `options.date || today`: the date stamp of the default output name. */
  function DateStamp(options: ProcessOptions, today: string): (stamp: string)
    ensures options.date.Some? && options.date.value != "" ==> stamp == options.date.value
    ensures options.date.None? || options.date.value == "" ==> stamp == today
  {
    if options.date.Some? && options.date.value != "" then options.date.value else today
  }

  /**
   * The synthesised name `<course>-<section>-<term>-<date>.csv` (concatenation is
   * associative; it is grouped from the right here).
   */
  function DefaultFileName(course: string, section: string, term: string, stamp: string): string {
    course + "-" + (section + "-" + (term + "-" + (stamp + ".csv")))
  }

  /**
   * `options.output || "<course>-<section>-<term>-<date>.csv"`: the explicit output
   * path when it is non-empty, the synthesised name otherwise.
   */
  function OutputPath(options: ProcessOptions, today: string): (path: string)
    ensures options.output.Some? && options.output.value != "" ==> path == options.output.value
  {
    if options.output.Some? && options.output.value != "" then options.output.value
    else DefaultFileName(options.courseCode, options.section, options.term, DateStamp(options, today))
  }

  /**
   * A synthesised name splits on `-` into the course, section and term (when none of
   * them contains a `-`), followed by the pieces of the date stamp with `.csv` appended.
   */
  lemma DefaultFileNameParts(course: string, section: string, term: string, stamp: string)
    requires '-' !in course && '-' !in section && '-' !in term
    ensures Split(DefaultFileName(course, section, term, stamp), '-')
      == [course, section, term] + Split(stamp + ".csv", '-')
  {
    var tail := stamp + ".csv";
    var afterSection := term + "-" + tail;
    var afterCourse := section + "-" + afterSection;
    SplitAtSeparator(term, tail, '-');
    SplitAtSeparator(section, afterSection, '-');
    SplitAtSeparator(course, afterCourse, '-');
  }

  /** Without an explicit output, the path is the synthesised name, split as above. */
  lemma DefaultOutputPathParts(options: ProcessOptions, today: string)
    requires options.output.None? || options.output.value == ""
    requires '-' !in options.courseCode && '-' !in options.section && '-' !in options.term
    ensures Split(OutputPath(options, today), '-')
      == [options.courseCode, options.section, options.term]
         + Split(DateStamp(options, today) + ".csv", '-')
  {
    DefaultFileNameParts(options.courseCode, options.section, options.term, DateStamp(options, today));
  }

  /** The default name ends in `.csv`. */
  lemma DefaultOutputPathExtension(options: ProcessOptions, today: string)
    requires options.output.None? || options.output.value == ""
    ensures var path := OutputPath(options, today);
      |path| >= 4 && path[|path| - 4..] == ".csv"
  {
  }

  /** The report's column names. */
  const ReportColumns: seq<string> := ["name", "key", "hash", "username", "studentId", "email"]

  /** The first line of the report, `name,key,hash,username,studentId,email`. */
  const ReportHeader: string := Join(ReportColumns, ",")

  /** The header is the literal column line. */
  lemma ReportHeaderText()
    ensures ReportHeader == "name,key,hash,username,studentId,email"
  {
    JoinSix("name", "key", "hash", "username", "studentId", "email", ",");
  }

  /** The cells of one record's line: the name in double quotes, then the other five as they are. */
  function ReportFields(record: KeyRecord): seq<string> {
    ["\"" + record.name + "\"", record.key, record.hash, record.username, record.studentId, record.email]
  }

  /** One record's line: its cells joined by commas. */
  function ReportLine(record: KeyRecord): string {
    Join(ReportFields(record), ",")
  }

  /**
   * Record `i`'s line spelled out: the name in double quotes, then the key, hash,
   * username, student ID and email, separated by commas.
   */
  lemma ReportLineLayout(record: KeyRecord)
    ensures ReportLine(record)
      == "\"" + record.name + "\"," + record.key + "," + record.hash + ","
         + record.username + "," + record.studentId + "," + record.email
  {
    var f := ReportFields(record);
    JoinSix(f[0], record.key, record.hash, record.username, record.studentId, record.email, ",");
  }

  /** `outputLines`: the header, then one line per record in record order. */
  function ReportLines(records: seq<KeyRecord>): seq<string> {
    [ReportHeader] + seq(|records|, i requires 0 <= i < |records| => ReportLine(records[i]))
  }

  /**
   * The report's lines: the literal header, then for each record, in order, its quoted
   * name, key, hash, username, student ID and email separated by commas.
   */
  lemma ReportLinesLayout(records: seq<KeyRecord>)
    ensures var lines := ReportLines(records);
      && |lines| == |records| + 1
      && lines[0] == "name,key,hash,username,studentId,email"
      && forall i | 0 <= i < |records| ::
           lines[i + 1] == "\"" + records[i].name + "\"," + records[i].key + "," + records[i].hash + ","
                           + records[i].username + "," + records[i].studentId + "," + records[i].email
  {
    ReportHeaderText();
    forall i | 0 <= i < |records|
      ensures ReportLines(records)[i + 1]
        == "\"" + records[i].name + "\"," + records[i].key + "," + records[i].hash + ","
           + records[i].username + "," + records[i].studentId + "," + records[i].email
    {
      ReportLineLayout(records[i]);
    }
  }

  /** The report text: the lines joined by line breaks, with none at the end. */
  function Report(records: seq<KeyRecord>): string {
    Join(ReportLines(records), "\n")
  }

  /** None of a record's six values contains `c`. */
  predicate FieldsFree(record: KeyRecord, c: char) {
    && c !in record.name && c !in record.key && c !in record.hash
    && c !in record.username && c !in record.studentId && c !in record.email
  }

  /** Joining parts that lack `c` with a separator that lacks `c` gives a string that lacks `c`. */
  lemma {:induction false} JoinFree(parts: seq<string>, sep: string, c: char)
    requires c !in sep
    requires forall i | 0 <= i < |parts| :: c !in parts[i]
    ensures c !in Join(parts, sep)
  {
    if |parts| > 1 {
      JoinFree(parts[1..], sep, c);
    }
  }

  /** A record's cells lack `c` when its values do and `c` is not the double quote. */
  lemma ReportFieldsFree(record: KeyRecord, c: char)
    requires FieldsFree(record, c) && c != '"'
    ensures forall i | 0 <= i < |ReportFields(record)| :: c !in ReportFields(record)[i]
  {
  }

  /** The header splits on commas into the six column names and has no line break. */
  lemma HeaderColumns()
    ensures Split(ReportHeader, ',') == ReportColumns
    ensures '\n' !in ReportHeader
  {
    var cols := ReportColumns;
    assert forall i | 0 <= i < |cols| :: ',' !in cols[i] && '\n' !in cols[i];
    SplitJoin(cols, ',');
    JoinFree(cols, ",", '\n');
  }

  /**
   * The report reads back line by line and cell by cell: when no value contains a
   * comma or line break, splitting the report on line breaks gives
   * the header and one line per record, and splitting record `i`'s line on commas
   * gives its quoted name and its other five values in column order.
   */
  lemma ReportRoundTrip(records: seq<KeyRecord>)
    requires forall i | 0 <= i < |records| ::
      FieldsFree(records[i], ',') && FieldsFree(records[i], '\n')
    ensures var lines := Split(Report(records), '\n');
      && |lines| == |records| + 1
      && lines[0] == ReportHeader
      && Split(lines[0], ',') == ReportColumns
      && forall i | 0 <= i < |records| ::
           Split(lines[i + 1], ',') == ReportFields(records[i])
  {
    var lines := ReportLines(records);
    HeaderColumns();
    forall i | 0 <= i < |lines| ensures '\n' !in lines[i] {
      if i > 0 {
        ReportFieldsFree(records[i - 1], '\n');
        JoinFree(ReportFields(records[i - 1]), ",", '\n');
      }
    }
    SplitJoin(lines, '\n');
    forall i | 0 <= i < |records| ensures Split(lines[i + 1], ',') == ReportFields(records[i]) {
      ReportFieldsFree(records[i], ',');
      SplitJoin(ReportFields(records[i]), ',');
    }
  }

  /** The error `processBlackboardCsv` ends with, by the step that raised it. */
  datatype ProcessError =
    | InvalidOptions(validation: ValidationError)
    | InvalidCsv(message: string)
    | ParseFailed(parse: ParseError)
    | NoStudents
    | ProvisioningKeyFailed(reason: string)
    | CreateFailed(reason: string)

  /** What a successful run produces: the records it returns and the file it would write. */
  datatype RunOutput = RunOutput(records: seq<KeyRecord>, outputPath: string, report: string)

  /**
   * Every stage of `processBlackboardCsv` before the first key request passes: the
   * options, the header, the extraction of the students, and the roster is not empty.
   */
  predicate StagesPass(content: string, rows: seq<Row>, options: ProcessOptions, dateParses: string -> bool) {
    && OptionsValid(options, dateParses)
    && ValidateBlackboardCsv(content).Pass?
    && ParseBlackboardCsv(rows, EffectiveEmailDomain(options)).Success?
    && ParseBlackboardCsv(rows, EffectiveEmailDomain(options)).value != []
  }

  /**
   * The stages of `processBlackboardCsv` before any key is issued: validates the
   * options and the header, extracts the students with the effective email domain and
   * refuses an empty roster. Each failure is the first stage's that fails; when all
   * pass, the students are the extracted ones.
   */
  method LoadStudents(content: string, rows: seq<Row>, options: ProcessOptions, dateParses: string -> bool)
    returns (r: Result<seq<BlackboardStudent>, ProcessError>)
    ensures !OptionsValid(options, dateParses) ==>
      r == Failure(InvalidOptions(ValidationError(FailureMessage(OptionErrors(options, dateParses)))))
    ensures OptionsValid(options, dateParses) && ValidateBlackboardCsv(content).Fail? ==>
      r == Failure(InvalidCsv(ValidateBlackboardCsv(content).error))
    ensures var parsed := ParseBlackboardCsv(rows, EffectiveEmailDomain(options));
      OptionsValid(options, dateParses) && ValidateBlackboardCsv(content).Pass? ==>
        && (parsed.Failure? ==> r == Failure(ParseFailed(parsed.error)))
        && (parsed == Success([]) ==> r == Failure(NoStudents))
    ensures r.Success? <==> StagesPass(content, rows, options, dateParses)
    ensures r.Success? ==> r.value == ParseBlackboardCsv(rows, EffectiveEmailDomain(options)).value
    ensures r.Failure? ==> !r.error.ProvisioningKeyFailed? && !r.error.CreateFailed?
  {
    var valid := ValidateOptions(options, dateParses);
    if valid.Fail? {
      return Failure(InvalidOptions(valid.error));
    }
    var header := ValidateBlackboardCsv(content);
    if header.Fail? {
      return Failure(InvalidCsv(header.error));
    }
    var parsed := ParseBlackboardCsv(rows, EffectiveEmailDomain(options));
    if parsed.Failure? {
      return Failure(ParseFailed(parsed.error));
    }
    if |parsed.value| == 0 {
      return Failure(NoStudents);
    }
    return Success(parsed.value);
  }

  /**
   * The calls made so far are the requests for the first students of the roster, in
   * order, each with the run's key, limit, tags and date.
   */
  predicate RequestsInOrder(students: seq<BlackboardStudent>, provisioningKey: string,
                            options: ProcessOptions, tags: seq<string>, calls: seq<CreateRequest>)
  {
    && |calls| <= |students|
    && forall i | 0 <= i < |calls| :: calls[i] == RequestFor(provisioningKey, options, tags, students[i])
  }

  /**
   * The outcome of the issuing part of a run for `students`: a key that does not
   * resolve ends the run with no call; otherwise the calls are the students' requests in
   * order, and the run succeeds exactly when every
   * student's call succeeds, with a key for every student in order, the output path and
   * the report, and fails with `CreateFailed` at the first failing call otherwise.
   */
  predicate IssuedRun(students: seq<BlackboardStudent>, options: ProcessOptions, today: string,
                      getProvisioningKey: Option<string> -> Result<string, string>,
                      create: (nat, CreateRequest) -> Result<CreatedKey, string>,
                      calls: seq<CreateRequest>, r: Result<RunOutput, ProcessError>)
  {
    var key := getProvisioningKey(options.provisioningKey);
    && (key.Failure? ==> calls == [] && r == Failure(ProvisioningKeyFailed(key.error)))
    && (key.Success? ==>
         && RequestsInOrder(students, key.value, options, Tags(options), calls)
         && (r.Success? <==>
               forall i | 0 <= i < |students| ::
                 create(i, RequestFor(key.value, options, Tags(options), students[i])).Success?)
         && (r.Success? ==>
               && AllIssued(students, key.value, options, Tags(options), create, calls, r.value.records)
               && r.value.outputPath == OutputPath(options, today)
               && r.value.report == Report(r.value.records))
         && (r.Failure? ==>
               && r.error.CreateFailed?
               && StoppedAtFailure(calls, create, r.error.reason)
               && FirstFailedCall(students, key.value, options, Tags(options), create, |calls| - 1)))
  }

  /**
   * The issuing part of `processBlackboardCsv` for an extracted roster: resolves the
   * provisioning key and, only when that succeeds, runs the issuance loop with the
   * run's tags; when every key was issued, produces the output path and the report.
   */
  method IssueAndReport(students: seq<BlackboardStudent>, options: ProcessOptions, today: string,
                        getProvisioningKey: Option<string> -> Result<string, string>,
                        create: (nat, CreateRequest) -> Result<CreatedKey, string>)
    returns (calls: seq<CreateRequest>, r: Result<RunOutput, ProcessError>)
    ensures IssuedRun(students, options, today, getProvisioningKey, create, calls, r)
  {
    var tags := Tags(options);
    var provisioningKey := getProvisioningKey(options.provisioningKey);
    if provisioningKey.Failure? {
      return [], Failure(ProvisioningKeyFailed(provisioningKey.error));
    }
    var issued;
    calls, issued := IssueKeys(students, provisioningKey.value, options, tags, create);
    if issued.Failure? {
      return calls, Failure(CreateFailed(issued.error));
    }
    var outputPath := OutputPath(options, today);
    var report := Report(issued.value);
    return calls, Success(RunOutput(issued.value, outputPath, report));
  }

  /**
   * `processBlackboardCsv` on the roster's text (`content`, for the header check) and
   * its parsed records (`rows`): validates the options and the header, extracts the
   * students and refuses an empty roster, each failure ending the run before any key
   * request; when every stage passes, the run is the issuing part for the extracted
   * students. A key-lookup failure, a failed call or a success happens only then.
   */
  method ProcessBlackboardCsv(
    content: string, rows: seq<Row>, options: ProcessOptions,
    dateParses: string -> bool, today: string,
    getProvisioningKey: Option<string> -> Result<string, string>,
    create: (nat, CreateRequest) -> Result<CreatedKey, string>)
    returns (calls: seq<CreateRequest>, r: Result<RunOutput, ProcessError>)
    ensures !OptionsValid(options, dateParses) ==>
      && calls == []
      && r == Failure(InvalidOptions(ValidationError(FailureMessage(OptionErrors(options, dateParses)))))
    ensures OptionsValid(options, dateParses) && ValidateBlackboardCsv(content).Fail? ==>
      calls == [] && r == Failure(InvalidCsv(ValidateBlackboardCsv(content).error))
    ensures var parsed := ParseBlackboardCsv(rows, EffectiveEmailDomain(options));
      OptionsValid(options, dateParses) && ValidateBlackboardCsv(content).Pass? ==>
        && (parsed.Failure? ==> calls == [] && r == Failure(ParseFailed(parsed.error)))
        && (parsed == Success([]) ==> calls == [] && r == Failure(NoStudents))
    ensures StagesPass(content, rows, options, dateParses) ==>
      IssuedRun(ParseBlackboardCsv(rows, EffectiveEmailDomain(options)).value,
                options, today, getProvisioningKey, create, calls, r)
    ensures r.Success? || r.error.ProvisioningKeyFailed? || r.error.CreateFailed? ==>
      StagesPass(content, rows, options, dateParses)
  {
    calls := [];
    var loaded := LoadStudents(content, rows, options, dateParses);
    if loaded.Failure? {
      return calls, Failure(loaded.error);
    }
    calls, r := IssueAndReport(loaded.value, options, today, getProvisioningKey, create);
  }
}
