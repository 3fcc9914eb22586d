/**
 * Up-front checks of an issuance run: the run parameters (`validateOptions`) and
 * the header line of the roster file (`validateBlackboardCsv`). Both run before any
 * student is extracted and before any key is requested.
 */
module Validation {
  import opened Wrappers
  import opened Strings
  import opened Types

  /** The error `validateOptions` throws; its message lists every violation found. */
  datatype ValidationError = ValidationError(message: string)

  /** `hasNoSpaces`: no character of `value` is matched by `\s`. */
  predicate HasNoSpaces(value: string) {
    !HasWhitespace(value)
  }

  /** One character of the class `[a-z0-9.-]` under the case-insensitive flag. */
  predicate IsDomainChar(c: char) {
    ('a' <= c <= 'z') || ('A' <= c <= 'Z') || ('0' <= c <= '9') || c == '.' || c == '-'
  }

  /** `/^[a-z0-9.-]+$/i`: one class character, then the rest of the string if any. */
  predicate MatchesDomainPattern(s: string)
    decreases |s|
  {
    |s| > 0 && IsDomainChar(s[0]) && (|s| == 1 || MatchesDomainPattern(s[1..]))
  }

  /** `isValidDomain`, conjunct by conjunct. */
  predicate IsValidDomain(domain: string) {
    !Contains(domain, "@")
    && Contains(domain, ".")
    && HasNoSpaces(domain)
    && |domain| > 3
    && MatchesDomainPattern(domain)
  }

  /** The pattern accepts exactly the non-empty strings of class characters. */
  lemma {:induction false} DomainPatternIff(s: string)
    ensures MatchesDomainPattern(s) <==> |s| > 0 && forall i | 0 <= i < |s| :: IsDomainChar(s[i])
    decreases |s|
  {
    if |s| > 1 {
      DomainPatternIff(s[1..]);
      if forall i | 0 <= i < |s| - 1 :: IsDomainChar(s[1..][i]) {
        assert forall i | 1 <= i < |s| :: IsDomainChar(s[i]) by {
          forall i | 1 <= i < |s| ensures IsDomainChar(s[i]) {
            assert s[i] == s[1..][i - 1];
          }
        }
      }
    }
  }

  /**
   * A domain is accepted exactly when it has no `@`, has a `.`, has no whitespace,
   * is longer than three characters and consists of letters, digits, `.` and `-`;
   * the whitespace conjunct is implied by the character class.
   */
  lemma IsValidDomainIff(d: string)
    ensures IsValidDomain(d) <==>
      '@' !in d && '.' in d && !HasWhitespace(d) && |d| > 3
      && forall i | 0 <= i < |d| :: IsDomainChar(d[i])
    ensures (forall i | 0 <= i < |d| :: IsDomainChar(d[i])) ==> !HasWhitespace(d)
  {
    ContainsChar(d, '@');
    assert "@" == ['@'];
    ContainsChar(d, '.');
    assert "." == ['.'];
    DomainPatternIff(d);
  }

  /** `myseneca.ca`, the default domain, is accepted. */
  lemma DefaultDomainIsValid()
    ensures IsValidDomain("myseneca.ca")
  {
    var d := "myseneca.ca";
    assert forall i | 0 <= i < |d| :: IsDomainChar(d[i]);
    assert d[8] == '.';
    IsValidDomainIff(d);
  }

  /** Domains rejected for an `@`, for lacking a dot, for being too short, and for a space. */
  lemma RejectedDomains()
    ensures !IsValidDomain("my@seneca.ca")
    ensures !IsValidDomain("nodot")
    ensures !IsValidDomain("a.b")
    ensures !IsValidDomain("my seneca.ca")
  {
    var d := "my@seneca.ca";
    ContainsChar(d, '@');
    assert d[2] == '@';
    assert "@" == ['@'];
    d := "nodot";
    ContainsChar(d, '.');
    assert "." == ['.'];
    d := "my seneca.ca";
    assert IsWhitespace(d[2]);
  }

  predicate IsDigit(c: char) {
    '0' <= c <= '9'
  }

  /** `/^\d{4}-\d{2}-\d{2}$/`: exactly ten characters, dashes at 4 and 7, digits elsewhere. */
  predicate MatchesDatePattern(s: string) {
    |s| == 10
    && IsDigit(s[0]) && IsDigit(s[1]) && IsDigit(s[2]) && IsDigit(s[3])
    && s[4] == '-'
    && IsDigit(s[5]) && IsDigit(s[6])
    && s[7] == '-'
    && IsDigit(s[8]) && IsDigit(s[9])
  }

  /**
   * `isValidDate`: the shape check, then whether the runtime's `Date` accepts the
   * string, which is supplied as `dateParses`.
   */
  predicate IsValidDate(s: string, dateParses: string -> bool) {
    MatchesDatePattern(s) && dateParses(s)
  }

  /** The fields `validateOptions` checks. */
  datatype Field = Limit | CourseCode | Section | Term | Date | EmailDomain | Output

  /** The option name that opens every message about the field. */
  function FieldName(f: Field): string {
    match f
    case Limit => "limit"
    case CourseCode => "courseCode"
    case Section => "section"
    case Term => "term"
    case Date => "date"
    case EmailDomain => "emailDomain"
    case Output => "output"
  }

  /** Position of the field in the order the checks run. */
  function Ordinal(f: Field): nat {
    match f
    case Limit => 0
    case CourseCode => 1
    case Section => 2
    case Term => 3
    case Date => 4
    case EmailDomain => 5
    case Output => 6
  }

  /** The fields in the order the checks run. */
  const CheckOrder: seq<Field> := [Limit, CourseCode, Section, Term, Date, EmailDomain, Output]

  /** A validation message: the option's name, a space, and what is wrong with it. */
  function Message(f: Field, problem: string): string {
    FieldName(f) + " " + problem
  }

  const DomainProblem: string := "must be a valid domain (e.g., myseneca.ca) without @ symbol"

  /** What is wrong with a mandatory string option: missing, blank, or with whitespace inside. */
  function RequiredFieldProblem(value: string): Option<string> {
    if value == "" then Some("is required")
    else if |Trim(value)| == 0 then Some("cannot be empty")
    else if !HasNoSpaces(value) then Some("cannot contain spaces")
    else None
  }

  /** What, if anything, is wrong with a field: each field's checks are an if/else-if chain. */
  function FieldProblem(o: ProcessOptions, f: Field, dateParses: string -> bool): Option<string> {
    match f
    case Limit => if o.limit <= 0.0 then Some("must be greater than 0") else None
    case CourseCode => RequiredFieldProblem(o.courseCode)
    case Section => RequiredFieldProblem(o.section)
    case Term => RequiredFieldProblem(o.term)
    case Date =>
      if o.date.Some? && !IsValidDate(o.date.value, dateParses)
      then Some("must be in YYYY-MM-DD format") else None
    case EmailDomain =>
      if o.emailDomain.None? then None
      else if |Trim(o.emailDomain.value)| == 0 then Some("cannot be empty")
      else if !IsValidDomain(o.emailDomain.value) then Some(DomainProblem)
      else None
    case Output =>
      if o.output.Some? && |Trim(o.output.value)| == 0 then Some("cannot be empty") else None
  }

  /** The one message, if any, a field contributes to the error list. */
  function FieldMessage(o: ProcessOptions, f: Field, dateParses: string -> bool): Option<string> {
    match FieldProblem(o, f, dateParses)
    case Some(problem) => Some(Message(f, problem))
    case None => None
  }

  /** The message list an optional message contributes: itself, or nothing. */
  function AsList(m: Option<string>): seq<string> {
    match m
    case Some(text) => [text]
    case None => []
  }

  /** The messages `message` gives the fields `fs`, in the order of `fs`. */
  function MessagesFor(fs: seq<Field>, message: Field -> Option<string>): seq<string> {
    if fs == [] then [] else AsList(message(fs[0])) + MessagesFor(fs[1..], message)
  }

  /** The fields of `fs` that `message` gives a message, in the order of `fs`. */
  function FieldsWithMessage(fs: seq<Field>, message: Field -> Option<string>): (r: seq<Field>)
    ensures |r| <= |fs|
    ensures forall f :: f in r <==> f in fs && message(f).Some?
  {
    if fs == [] then []
    else (if message(fs[0]).Some? then [fs[0]] else []) + FieldsWithMessage(fs[1..], message)
  }

  /** The messages of the given options, field by field. */
  function MessageOf(o: ProcessOptions, dateParses: string -> bool): Field -> Option<string> {
    f => FieldMessage(o, f, dateParses)
  }

  /** The `errors` list `validateOptions` accumulates. */
  function OptionErrors(o: ProcessOptions, dateParses: string -> bool): seq<string> {
    MessagesFor(CheckOrder, MessageOf(o, dateParses))
  }

  /** The fields `validateOptions` reports, in the order it reports them. */
  function FailingFields(o: ProcessOptions, dateParses: string -> bool): seq<Field> {
    FieldsWithMessage(CheckOrder, MessageOf(o, dateParses))
  }

  /** The text of the thrown `ValidationError`. */
  function FailureMessage(errors: seq<string>): string {
    "Validation failed:\n  - " + Join(errors, "\n  - ")
  }

  /** A mandatory option as the run parameters require it: non-empty, without whitespace. */
  predicate IsToken(s: string) {
    s != "" && !HasWhitespace(s)
  }

  /** The run parameters are acceptable, stated field by field. */
  predicate OptionsValid(o: ProcessOptions, dateParses: string -> bool) {
    && o.limit > 0.0
    && IsToken(o.courseCode) && IsToken(o.section) && IsToken(o.term)
    && (o.date.Some? ==> IsValidDate(o.date.value, dateParses))
    && (o.emailDomain.Some? ==> IsValidDomain(o.emailDomain.value))
    && (o.output.Some? ==> !AllWhitespace(o.output.value))
  }

  /**
   * A mandatory string option: the empty string "is required", a non-empty
   * all-whitespace value "cannot be empty", any other value with whitespace
   * "cannot contain spaces", and nothing is wrong otherwise.
   */
  lemma RequiredFieldCases(v: string)
    ensures v == "" ==> RequiredFieldProblem(v) == Some("is required")
    ensures v != "" && AllWhitespace(v) ==> RequiredFieldProblem(v) == Some("cannot be empty")
    ensures !AllWhitespace(v) && HasWhitespace(v) ==> RequiredFieldProblem(v) == Some("cannot contain spaces")
    ensures RequiredFieldProblem(v) == None <==> IsToken(v)
  {
    TrimEmptyIff(v);
    if v == "" {
    } else if AllWhitespace(v) {
      assert |Trim(v)| == 0;
    } else {
      assert |Trim(v)| != 0;
      assert HasNoSpaces(v) <==> !HasWhitespace(v);
    }
  }

  /**
   * The optional options: an absent one is never wrong; a present blank output or
   * domain "cannot be empty"; a present non-blank domain that is not a valid domain
   * gets the domain problem; a date off the pattern is rejected whatever the runtime's
   * `Date` would make of it.
   */
  lemma OptionalFieldCases(o: ProcessOptions, dateParses: string -> bool)
    ensures o.date.None? ==> FieldProblem(o, Date, dateParses) == None
    ensures o.emailDomain.None? ==> FieldProblem(o, EmailDomain, dateParses) == None
    ensures o.output.None? ==> FieldProblem(o, Output, dateParses) == None
    ensures o.date.Some? && !MatchesDatePattern(o.date.value) ==>
      FieldProblem(o, Date, dateParses) == Some("must be in YYYY-MM-DD format")
    ensures o.output.Some? ==>
      (FieldProblem(o, Output, dateParses) == Some("cannot be empty") <==> AllWhitespace(o.output.value))
    ensures o.emailDomain.Some? && AllWhitespace(o.emailDomain.value) ==>
      FieldProblem(o, EmailDomain, dateParses) == Some("cannot be empty")
    ensures o.emailDomain.Some? && !AllWhitespace(o.emailDomain.value) ==>
      (FieldProblem(o, EmailDomain, dateParses) == Some(DomainProblem) <==> !IsValidDomain(o.emailDomain.value))
  {
    if o.output.Some? {
      TrimEmptyIff(o.output.value);
    }
    if o.emailDomain.Some? {
      TrimEmptyIff(o.emailDomain.value);
    }
  }

  /** A blank domain is never a valid one, so the domain's two problems never overlap. */
  lemma BlankDomainInvalid(d: string)
    requires AllWhitespace(d)
    ensures !IsValidDomain(d)
  {
    IsValidDomainIff(d);
    if |d| > 0 {
      assert IsWhitespace(d[0]);
    }
  }

  /** Every field is free of problems exactly when the options satisfy `OptionsValid`. */
  lemma FieldProblemNoneIff(o: ProcessOptions, dateParses: string -> bool)
    ensures
      OptionsValid(o, dateParses) <==>
        && FieldProblem(o, Limit, dateParses).None?
        && FieldProblem(o, CourseCode, dateParses).None?
        && FieldProblem(o, Section, dateParses).None?
        && FieldProblem(o, Term, dateParses).None?
        && FieldProblem(o, Date, dateParses).None?
        && FieldProblem(o, EmailDomain, dateParses).None?
        && FieldProblem(o, Output, dateParses).None?
  {
    RequiredFieldCases(o.courseCode);
    RequiredFieldCases(o.section);
    RequiredFieldCases(o.term);
    if o.output.Some? {
      TrimEmptyIff(o.output.value);
    }
    if o.emailDomain.Some? {
      TrimEmptyIff(o.emailDomain.value);
      if AllWhitespace(o.emailDomain.value) {
        BlankDomainInvalid(o.emailDomain.value);
      }
    }
  }

  /** Every message opens with the name of the field it is about. */
  lemma FieldMessageNamesField(o: ProcessOptions, f: Field, dateParses: string -> bool)
    requires FieldMessage(o, f, dateParses).Some?
    ensures StartsWith(FieldMessage(o, f, dateParses).value, FieldName(f) + " ")
  {
    StartsWithSpaceAfter(FieldName(f), FieldProblem(o, f, dateParses).value);
  }

  /** The messages of `fs` are those of the fields that have one, one each, in the same order. */
  lemma {:induction false} MessagesMatchFields(fs: seq<Field>, message: Field -> Option<string>)
    ensures |MessagesFor(fs, message)| == |FieldsWithMessage(fs, message)|
    ensures forall i | 0 <= i < |FieldsWithMessage(fs, message)| ::
      Some(MessagesFor(fs, message)[i]) == message(FieldsWithMessage(fs, message)[i])
  {
    if fs != [] {
      MessagesMatchFields(fs[1..], message);
      var ms, rs := MessagesFor(fs[1..], message), FieldsWithMessage(fs[1..], message);
      if message(fs[0]).Some? {
        assert MessagesFor(fs, message) == [message(fs[0]).value] + ms;
        assert FieldsWithMessage(fs, message) == [fs[0]] + rs;
      } else {
        assert MessagesFor(fs, message) == ms;
        assert FieldsWithMessage(fs, message) == rs;
      }
    }
  }

  /** Keeping some of a list of fields in strictly increasing check order keeps that order. */
  lemma {:induction false} FieldsWithMessageOrdered(fs: seq<Field>, message: Field -> Option<string>)
    requires forall i, j | 0 <= i < j < |fs| :: Ordinal(fs[i]) < Ordinal(fs[j])
    ensures forall i, j | 0 <= i < j < |FieldsWithMessage(fs, message)| ::
      Ordinal(FieldsWithMessage(fs, message)[i]) < Ordinal(FieldsWithMessage(fs, message)[j])
  {
    if fs != [] {
      var tail := fs[1..];
      var rest := FieldsWithMessage(tail, message);
      FieldsWithMessageOrdered(tail, message);
      var r := FieldsWithMessage(fs, message);
      if message(fs[0]).Some? {
        assert r == [fs[0]] + rest;
        forall k | 0 <= k < |rest| ensures Ordinal(fs[0]) < Ordinal(rest[k]) {
          assert rest[k] in tail;
          var m :| 0 <= m < |tail| && tail[m] == rest[k];
          assert fs[m + 1] == rest[k];
        }
      } else {
        assert r == rest;
      }
    }
  }

  /** Each accumulated error is the message of the matching failing field, and names it. */
  lemma ErrorsMatchFailingFields(o: ProcessOptions, dateParses: string -> bool)
    ensures var errors, fields := OptionErrors(o, dateParses), FailingFields(o, dateParses);
      && |errors| == |fields|
      && forall i | 0 <= i < |errors| ::
           Some(errors[i]) == FieldMessage(o, fields[i], dateParses)
           && StartsWith(errors[i], FieldName(fields[i]) + " ")
  {
    var message := MessageOf(o, dateParses);
    var errors, fields := OptionErrors(o, dateParses), FailingFields(o, dateParses);
    MessagesMatchFields(CheckOrder, message);
    forall i | 0 <= i < |errors|
      ensures Some(errors[i]) == FieldMessage(o, fields[i], dateParses)
      ensures StartsWith(errors[i], FieldName(fields[i]) + " ")
    {
      assert Some(errors[i]) == message(fields[i]);
      FieldMessageNamesField(o, fields[i], dateParses);
    }
  }

  /** The checks run in increasing field order. */
  lemma CheckOrderIncreasing()
    ensures forall i, j | 0 <= i < j < |CheckOrder| :: Ordinal(CheckOrder[i]) < Ordinal(CheckOrder[j])
  {
    forall i | 0 <= i < |CheckOrder| ensures Ordinal(CheckOrder[i]) == i {
    }
  }

  /** Every field is checked. */
  lemma CheckOrderComplete()
    ensures forall f: Field :: f in CheckOrder
  {
    forall f: Field ensures f in CheckOrder {
      assert CheckOrder[Ordinal(f)] == f;
    }
  }

  /**
   * The failing fields are reported in check order (limit, courseCode, section, term,
   * date, emailDomain, output), each at most once, so there are at most seven errors.
   */
  lemma FailingFieldsInCheckOrder(o: ProcessOptions, dateParses: string -> bool)
    ensures var fields := FailingFields(o, dateParses);
      && |OptionErrors(o, dateParses)| == |fields| <= 7
      && forall i, j | 0 <= i < j < |fields| :: Ordinal(fields[i]) < Ordinal(fields[j])
  {
    CheckOrderIncreasing();
    MessagesMatchFields(CheckOrder, MessageOf(o, dateParses));
    FieldsWithMessageOrdered(CheckOrder, MessageOf(o, dateParses));
  }

  /** A field is reported exactly when its own checks fail. */
  lemma FailingFieldsExactly(o: ProcessOptions, dateParses: string -> bool)
    ensures forall f: Field :: f in FailingFields(o, dateParses) <==> FieldMessage(o, f, dateParses).Some?
  {
    CheckOrderComplete();
  }

  /** There are no errors exactly when the options are valid. */
  lemma OptionErrorsEmptyIff(o: ProcessOptions, dateParses: string -> bool)
    ensures OptionErrors(o, dateParses) == [] <==> OptionsValid(o, dateParses)
  {
    ErrorsMatchFailingFields(o, dateParses);
    FailingFieldsExactly(o, dateParses);
    FieldProblemNoneIff(o, dateParses);
    var fields := FailingFields(o, dateParses);
    if fields != [] {
      assert FieldMessage(o, fields[0], dateParses).Some?;
    }
  }

  /** Collecting messages over a longer list of fields appends the new field's message. */
  lemma {:induction false} MessagesForSnoc(fs: seq<Field>, f: Field, message: Field -> Option<string>)
    ensures MessagesFor(fs + [f], message) == MessagesFor(fs, message) + AsList(message(f))
  {
    if fs == [] {
      assert [] + [f] == [f];
    } else {
      assert (fs + [f])[1..] == fs[1..] + [f];
      MessagesForSnoc(fs[1..], f, message);
    }
  }

  /** Checking field `f`, the `k`-th of `order`, appends that field's message. */
  lemma ErrorsStep(o: ProcessOptions, dateParses: string -> bool, order: seq<Field>, k: nat, f: Field)
    requires k < |order| && order[k] == f
    ensures MessagesFor(order[..k + 1], MessageOf(o, dateParses))
      == MessagesFor(order[..k], MessageOf(o, dateParses)) + AsList(FieldMessage(o, f, dateParses))
  {
    assert order[..k + 1] == order[..k] + [f];
    MessagesForSnoc(order[..k], f, MessageOf(o, dateParses));
  }

  /**
   * One field's `if`/`else if` chain inside `validateOptions`: the message it pushes,
   * if any, is exactly the field's message.
   */
  method CheckField(options: ProcessOptions, f: Field, dateParses: string -> bool)
    returns (pushed: seq<string>)
    ensures pushed == AsList(FieldMessage(options, f, dateParses))
    ensures |pushed| <= 1
  {
    pushed := [];
    match f {
      case Limit =>
        if options.limit <= 0.0 {
          pushed := [Message(Limit, "must be greater than 0")];
        }
      case CourseCode =>
        pushed := CheckRequired(CourseCode, options.courseCode);
      case Section =>
        pushed := CheckRequired(Section, options.section);
      case Term =>
        pushed := CheckRequired(Term, options.term);
      case Date =>
        if options.date.Some? {
          if !IsValidDate(options.date.value, dateParses) {
            pushed := [Message(Date, "must be in YYYY-MM-DD format")];
          }
        }
      case EmailDomain =>
        if options.emailDomain.Some? {
          if |Trim(options.emailDomain.value)| == 0 {
            pushed := [Message(EmailDomain, "cannot be empty")];
          } else if !IsValidDomain(options.emailDomain.value) {
            pushed := [Message(EmailDomain, DomainProblem)];
          }
        }
      case Output =>
        if options.output.Some? {
          if |Trim(options.output.value)| == 0 {
            pushed := [Message(Output, "cannot be empty")];
          }
        }
    }
  }

  /** The chain shared by `courseCode`, `section` and `term`. */
  method CheckRequired(f: Field, value: string) returns (pushed: seq<string>)
    ensures pushed == AsList(match RequiredFieldProblem(value)
                             case Some(p) => Some(Message(f, p))
                             case None => None)
    ensures pushed == [] <==> IsToken(value)
  {
    RequiredFieldCases(value);
    if value == "" {
      pushed := [Message(f, "is required")];
    } else if |Trim(value)| == 0 {
      pushed := [Message(f, "cannot be empty")];
    } else if !HasNoSpaces(value) {
      pushed := [Message(f, "cannot contain spaces")];
    } else {
      pushed := [];
    }
  }

  /**
   * `validateOptions`: runs the seven field checks one after another in check order,
   * each appending at most one message to `errors`, and throws a `ValidationError`
   * listing them all exactly when there is at least one.
   */
  method ValidateOptions(options: ProcessOptions, dateParses: string -> bool)
    returns (r: Outcome<ValidationError>)
    ensures r.Fail? <==> OptionErrors(options, dateParses) != []
    ensures r.Fail? <==> !OptionsValid(options, dateParses)
    ensures r.Fail? ==> r.error.message == FailureMessage(OptionErrors(options, dateParses))
  {
    ghost var message := MessageOf(options, dateParses);
    var errors: seq<string> := [];
    var k := 0;
    while k < |CheckOrder|
      invariant 0 <= k <= |CheckOrder|
      invariant errors == MessagesFor(CheckOrder[..k], message)
    {
      var pushed := CheckField(options, CheckOrder[k], dateParses);
      ErrorsStep(options, dateParses, CheckOrder, k, CheckOrder[k]);
      errors := errors + pushed;
      k := k + 1;
    }
    assert CheckOrder[..k] == CheckOrder;
    OptionErrorsEmptyIff(options, dateParses);

    if |errors| > 0 {
      return Fail(ValidationError(FailureMessage(errors)));
    }
    return Pass;
  }

  /** The columns a roster export must name in its header line. */
  const RequiredColumns: seq<string> := ["Username", "Student ID"]

  /** `content.split("\n")[0]`: the text before the first line break, or all of it. */
  function FirstLine(content: string): (line: string)
    ensures StartsWith(content, line) && '\n' !in line
    ensures |line| < |content| ==> content[|line|] == '\n'
  {
    SplitHead(content, '\n');
    Split(content, '\n')[0]
  }

  /** `s.filter(keep)`: the kept elements, in their original order. */
  function Filter(s: seq<string>, keep: string -> bool): (r: seq<string>)
    ensures |r| <= |s|
    ensures forall x :: x in r <==> x in s && keep(x)
    ensures |r| == |s| ==> r == s
  {
    if s == [] then []
    else (if keep(s[0]) then [s[0]] else []) + Filter(s[1..], keep)
  }

  /** Filtering with a test every element passes keeps the whole list. */
  lemma {:induction false} FilterKeepsAll(s: seq<string>, keep: string -> bool)
    requires forall i | 0 <= i < |s| :: keep(s[i])
    ensures Filter(s, keep) == s
  {
    if s != [] {
      FilterKeepsAll(s[1..], keep);
    }
  }

  /**
   * Filtering a concatenation filters each part in turn: the kept elements stay in
   * the order they had.
   */
  lemma {:induction false} FilterAppend(a: seq<string>, b: seq<string>, keep: string -> bool)
    ensures Filter(a + b, keep) == Filter(a, keep) + Filter(b, keep)
  {
    if a != [] {
      assert (a + b)[1..] == a[1..] + b;
      FilterAppend(a[1..], b, keep);
    } else {
      assert a + b == b;
    }
  }

  /**
   * The required columns the header line does not mention, in the order they are
   * required: `Username` when it is missing, then `Student ID` when it is missing.
   */
  function MissingColumns(firstLine: string): (missing: seq<string>)
    ensures forall c :: c in missing <==> c in RequiredColumns && !Contains(firstLine, c)
    ensures missing == (if Contains(firstLine, "Username") then [] else ["Username"])
                       + (if Contains(firstLine, "Student ID") then [] else ["Student ID"])
  {
    var keep := (col: string) => !Contains(firstLine, col);
    FilterAppend([RequiredColumns[0]], [RequiredColumns[1]], keep);
    assert RequiredColumns == [RequiredColumns[0]] + [RequiredColumns[1]];
    Filter(RequiredColumns, keep)
  }

  /**
   * `validateBlackboardCsv`, on the file's content: fails, naming the missing columns
   * and then the expected ones, exactly when the first line lacks `Username` or
   * `Student ID` as a substring.
   */
  function ValidateBlackboardCsv(content: string): (r: Outcome<string>)
    ensures r.Fail? <==>
      !Contains(FirstLine(content), "Username") || !Contains(FirstLine(content), "Student ID")
    ensures r.Fail? ==>
      r.error == "Missing required columns: " + Join(MissingColumns(FirstLine(content)), ", ")
                 + "\nExpected columns: " + Join(RequiredColumns, ", ")
  {
    var missing := MissingColumns(FirstLine(content));
    assert "Username" in RequiredColumns && "Student ID" in RequiredColumns;
    if |missing| > 0 then
      Fail("Missing required columns: " + Join(missing, ", ")
           + "\nExpected columns: " + Join(RequiredColumns, ", "))
    else
      Pass
  }
}
