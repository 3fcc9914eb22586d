/**
 * The mapping from parsed roster records to students (`parseBlackboardCsv`). The CSV
 * library's output is taken as given: one map from column name to cell text per record.
 * The callback is given twice: as written (`StudentOfAsWritten`, whose required-field
 * check looks at the untrimmed values) and corrected (`StudentOf`, checking the trimmed
 * values), which the parse uses.
 */
module Parser {
  import opened Wrappers
  import opened Strings
  import opened Types

  /** One parsed record: column name to cell text. */
  type Row = map<string, string>

  /** `record[key]`, where a missing property reads as the (equally falsy) empty string. */
  function Get(row: Row, key: string): string {
    if key in row then row[key] else ""
  }

  /** `keys[i]` is the first of `keys` whose value in `row` is non-empty. */
  predicate FirstNonEmptyAt(row: Row, keys: seq<string>, i: int) {
    && 0 <= i < |keys|
    && Get(row, keys[i]) != ""
    && forall j | 0 <= j < i :: Get(row, keys[j]) == ""
  }

  /**
   * `record[keys[0]] || record[keys[1]] || ... || ""`: the value of the first key with a
   * non-empty value, or the empty string when there is none.
   */
  function Resolve(row: Row, keys: seq<string>): (v: string)
    ensures v == "" <==> forall i | 0 <= i < |keys| :: Get(row, keys[i]) == ""
  {
    if keys == [] then ""
    else if Get(row, keys[0]) != "" then Get(row, keys[0])
    else
      assert forall i | 1 <= i < |keys| :: keys[i] == keys[1..][i - 1];
      Resolve(row, keys[1..])
  }

  /** A non-empty resolved value is the value of the first key that has a non-empty one. */
  lemma {:induction false} ResolveIsFirstNonEmpty(row: Row, keys: seq<string>)
    ensures Resolve(row, keys) != "" ==>
      exists i :: FirstNonEmptyAt(row, keys, i) && Resolve(row, keys) == Get(row, keys[i])
  {
    if keys == [] {
    } else if Get(row, keys[0]) != "" {
      assert FirstNonEmptyAt(row, keys, 0);
    } else {
      ResolveIsFirstNonEmpty(row, keys[1..]);
      var v := Resolve(row, keys[1..]);
      if v != "" {
        var i :| FirstNonEmptyAt(row, keys[1..], i) && v == Get(row, keys[1..][i]);
        assert FirstNonEmptyAt(row, keys, i + 1);
      }
    }
  }

  /** The header spelling a column is looked up under first, then its camel-case alias. */
  const LastNameKeys: seq<string> := ["Last Name", "lastName"]
  const FirstNameKeys: seq<string> := ["First Name", "firstName"]
  const UsernameKeys: seq<string> := ["Username", "username"]
  const StudentIdKeys: seq<string> := ["Student ID", "studentId"]

  /** The error thrown for a record without a username or a student ID; it carries the record. */
  datatype ParseError = MissingRequiredFields(record: Row)

  /**
   * The `records.map` callback as written: resolves the four columns, fails when the
   * resolved username or student ID is empty BEFORE trimming, and otherwise returns the
   * trimmed values with the email built from the trimmed username and domain.
   */
  function StudentOfAsWritten(row: Row, emailDomain: string): (r: Result<BlackboardStudent, ParseError>)
    ensures r.Failure? <==> Resolve(row, UsernameKeys) == "" || Resolve(row, StudentIdKeys) == ""
    ensures r.Failure? ==> r.error == MissingRequiredFields(row)
    ensures r.Success? ==>
      && r.value.lastName == Trim(Resolve(row, LastNameKeys))
      && r.value.firstName == Trim(Resolve(row, FirstNameKeys))
      && r.value.username == Trim(Resolve(row, UsernameKeys))
      && r.value.studentId == Trim(Resolve(row, StudentIdKeys))
      && r.value.email == Trim(Resolve(row, UsernameKeys)) + "@" + Trim(emailDomain)
  {
    var lastName := Resolve(row, LastNameKeys);
    var firstName := Resolve(row, FirstNameKeys);
    var username := Resolve(row, UsernameKeys);
    var studentId := Resolve(row, StudentIdKeys);
    if username == "" || studentId == "" then
      Failure(MissingRequiredFields(row))
    else
      Success(BlackboardStudent(
        Trim(lastName), Trim(firstName), Trim(username), Trim(studentId),
        Trim(username) + "@" + Trim(emailDomain)))
  }

  /**
   * The callback with the required-field check on the trimmed values, as intended: a
   * record fails exactly when its trimmed username or trimmed student ID is empty, so
   * every student it returns has both.
   */
  function StudentOf(row: Row, emailDomain: string): (r: Result<BlackboardStudent, ParseError>)
    ensures r.Failure? <==> Trim(Resolve(row, UsernameKeys)) == "" || Trim(Resolve(row, StudentIdKeys)) == ""
    ensures r.Failure? ==> r.error == MissingRequiredFields(row)
    ensures r.Success? ==>
      && r.value.lastName == Trim(Resolve(row, LastNameKeys))
      && r.value.firstName == Trim(Resolve(row, FirstNameKeys))
      && r.value.username == Trim(Resolve(row, UsernameKeys)) != ""
      && r.value.studentId == Trim(Resolve(row, StudentIdKeys)) != ""
  {
    var lastName := Trim(Resolve(row, LastNameKeys));
    var firstName := Trim(Resolve(row, FirstNameKeys));
    var username := Trim(Resolve(row, UsernameKeys));
    var studentId := Trim(Resolve(row, StudentIdKeys));
    if username == "" || studentId == "" then
      Failure(MissingRequiredFields(row))
    else
      Success(BlackboardStudent(lastName, firstName, username, studentId,
                                username + "@" + Trim(emailDomain)))
  }

  /** The email of every student is its (trimmed) username, `@`, and the trimmed domain. */
  lemma EmailFormat(row: Row, emailDomain: string)
    requires StudentOf(row, emailDomain).Success?
    ensures var s := StudentOf(row, emailDomain).value;
      && s.email == s.username + "@" + Trim(emailDomain)
      && s.email[..|s.username|] == s.username
      && s.email[|s.username|] == '@'
  {
    var s := StudentOf(row, emailDomain).value;
    assert s.email == s.username + "@" + Trim(emailDomain);
    assert (s.username + "@" + Trim(emailDomain))[..|s.username|] == s.username;
  }

  /** `rows[k]` is the first row `f` rejects. */
  predicate FirstFailure(rows: seq<Row>, f: Row -> Result<BlackboardStudent, ParseError>, k: int) {
    && 0 <= k < |rows|
    && f(rows[k]).Failure?
    && forall j | 0 <= j < k :: f(rows[j]).Success?
  }

  /**
   * `rows.map(f)` where `f` may throw: every result in order, or the error of the
   * first row that fails, with no results at all.
   */
  function MapOrFail(rows: seq<Row>, f: Row -> Result<BlackboardStudent, ParseError>)
    : (r: Result<seq<BlackboardStudent>, ParseError>)
    ensures r.Success? <==> forall i | 0 <= i < |rows| :: f(rows[i]).Success?
    ensures r.Success? ==> |r.value| == |rows| && forall i | 0 <= i < |rows| :: r.value[i] == f(rows[i]).value
    ensures r.Failure? ==> exists k :: FirstFailure(rows, f, k) && r.error == f(rows[k]).error
  {
    if rows == [] then Success([])
    else
      var first := f(rows[0]);
      if first.Failure? then
        assert FirstFailure(rows, f, 0);
        Failure(first.error)
      else
        var rest := MapOrFail(rows[1..], f);
        assert forall i | 1 <= i < |rows| :: rows[i] == rows[1..][i - 1];
        if rest.Failure? then
          var k :| FirstFailure(rows[1..], f, k) && rest.error == f(rows[1..][k]).error;
          assert FirstFailure(rows, f, k + 1);
          Failure(rest.error)
        else
          Success([first.value] + rest.value)
  }

  /** The `records.map` callback for a given email domain. */
  function StudentFor(emailDomain: string): Row -> Result<BlackboardStudent, ParseError> {
    row => StudentOf(row, emailDomain)
  }

  /**
   * `parseBlackboardCsv` after the CSV library: maps every record to a student, in
   * order, or fails with the error of the first record whose trimmed username or
   * student ID is empty, returning no students at all.
   */
  function ParseBlackboardCsv(rows: seq<Row>, emailDomain: string)
    : (r: Result<seq<BlackboardStudent>, ParseError>)
    ensures r.Success? <==> forall i | 0 <= i < |rows| :: StudentOf(rows[i], emailDomain).Success?
    ensures r.Success? ==>
      && |r.value| == |rows|
      && forall i {:trigger StudentOf(rows[i], emailDomain)} | 0 <= i < |rows| ::
           r.value[i] == StudentOf(rows[i], emailDomain).value
    ensures r.Failure? ==>
      exists k :: FirstFailure(rows, StudentFor(emailDomain), k) && r.error == MissingRequiredFields(rows[k])
  {
    MapOrFail(rows, StudentFor(emailDomain))
  }

  /** Every cell of the record is its own trim. */
  predicate CellsTrimmed(row: Row) {
    forall key | key in row :: Trim(row[key]) == row[key]
  }

  /** Every student returned has a non-empty username and student ID. */
  lemma RequiredFieldsNonEmpty(rows: seq<Row>, emailDomain: string)
    requires ParseBlackboardCsv(rows, emailDomain).Success?
    ensures var students := ParseBlackboardCsv(rows, emailDomain).value;
      forall i | 0 <= i < |students| :: students[i].username != "" && students[i].studentId != ""
  {
  }

  /** A value resolved from trimmed cells is its own trim. */
  lemma ResolvedTrimmed(row: Row, keys: seq<string>)
    requires CellsTrimmed(row)
    ensures Trim(Resolve(row, keys)) == Resolve(row, keys)
  {
    var v := Resolve(row, keys);
    ResolveIsFirstNonEmpty(row, keys);
    if v != "" {
      var i :| FirstNonEmptyAt(row, keys, i) && v == Get(row, keys[i]);
      assert keys[i] in row;
    }
  }

  /**
   * On a record whose cells are all their own trim, the callback as written and the
   * corrected one agree: the correction changes nothing there.
   */
  lemma AsWrittenAgreesOnTrimmedCells(row: Row, emailDomain: string)
    requires CellsTrimmed(row)
    ensures StudentOfAsWritten(row, emailDomain) == StudentOf(row, emailDomain)
  {
    ResolvedTrimmed(row, UsernameKeys);
    ResolvedTrimmed(row, StudentIdKeys);
  }

  /**
   * The callback as written lets a whitespace-only username through (it is non-empty
   * before trimming) and the student comes out with an empty username; the corrected
   * callback rejects the same record.
   */
  lemma UntrimmedUsernameSlipsThrough()
    ensures var row := map["Username" := " ", "Student ID" := "100"];
      && StudentOfAsWritten(row, "example.com").Success?
      && StudentOfAsWritten(row, "example.com").value.username == ""
      && StudentOf(row, "example.com") == Failure(MissingRequiredFields(row))
  {
    var row := map["Username" := " ", "Student ID" := "100"];
    assert Get(row, UsernameKeys[0]) == " ";
    assert Get(row, StudentIdKeys[0]) == "100";
    assert AllWhitespace(" ");
    TrimEmptyIff(" ");
  }

  /** A record with only the `Username` and `Student ID` columns. */
  function MinimalRow(username: string, studentId: string): Row {
    map["Username" := username, "Student ID" := studentId]
  }

  /** A record with just a whitespace-free username and student ID gives exactly that student. */
  lemma MinimalRecord(username: string, studentId: string, emailDomain: string)
    requires username != "" && !HasWhitespace(username)
    requires studentId != "" && !HasWhitespace(studentId)
    ensures StudentOf(MinimalRow(username, studentId), emailDomain)
      == Success(BlackboardStudent("", "", username, studentId, username + "@" + Trim(emailDomain)))
  {
    var row := MinimalRow(username, studentId);
    assert Get(row, UsernameKeys[0]) == username;
    assert Get(row, StudentIdKeys[0]) == studentId;
    assert Resolve(row, LastNameKeys) == "" by {
      assert Get(row, LastNameKeys[0]) == "" && Get(row, LastNameKeys[1]) == "";
    }
    assert Resolve(row, FirstNameKeys) == "" by {
      assert Get(row, FirstNameKeys[0]) == "" && Get(row, FirstNameKeys[1]) == "";
    }
    TrimNoWhitespace(username);
    TrimNoWhitespace(studentId);
    TrimNoWhitespace("");
  }

  /** A record with neither a username nor a student ID makes the whole parse fail. */
  lemma RowWithoutIdsFails(rows: seq<Row>, k: nat, emailDomain: string)
    requires k < |rows|
    requires forall key | key in UsernameKeys + StudentIdKeys :: key !in rows[k]
    ensures ParseBlackboardCsv(rows, emailDomain).Failure?
  {
    assert UsernameKeys[0] in UsernameKeys + StudentIdKeys;
    assert UsernameKeys[1] in UsernameKeys + StudentIdKeys;
    assert StudentOf(rows[k], emailDomain).Failure?;
  }
}
