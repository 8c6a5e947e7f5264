/**
  `parsePersonLine` (data-reader/src/services/fileProcess.ts): one line of
  `name|surname|personalId|status|dateOfEntry|pep|os` to a record or a
  typed error. The platform date parser is a parameter: `validDate(t)` holds
  when `new Date(t)` is a valid time.
 */
module LineParser {
  import opened Wrappers
  import opened Text
  import opened Person

  const Delimiter: char := '|'
  const ExpectedFields: nat := 7

  /** The platform's `new Date(text)`: true when the text denotes a valid time. */
  type DateParser = string -> bool

  /** The errors `parsePersonLine` throws. */
  datatype ParseError =
    | WrongFieldCount(got: nat)
    | MissingRequiredFields
    | InvalidStatus(status: string)
    | InvalidDate(text: string)
  {
    function Message(): string {
      match this
      case WrongFieldCount(got) => "Invalid number of fields. Expected 7, got " + NatToString(got)
      case MissingRequiredFields => "Missing required fields"
      case InvalidStatus(status) => "Invalid status: " + status + ". Must be 'Activo' or 'Inactivo'"
      case InvalidDate(text) => "Invalid date format: " + text
    }
  }

  /** `line.split("|").map(field => field.trim())`: one field more than there are delimiters. */
  function Fields(line: string): (fields: seq<string>)
    ensures |fields| == Occurrences(line, Delimiter) + 1
    ensures |fields| == |Split(line, Delimiter)|
    ensures forall i :: 0 <= i < |fields| ==> fields[i] == Trim(Split(line, Delimiter)[i])
  {
    var raw := Split(line, Delimiter);
    SplitCount(line, Delimiter);
    seq(|raw|, i requires 0 <= i < |raw| => Trim(raw[i]))
  }

  /** The lenient boolean: `text.toLowerCase() === "true"`, compared character by character. */
  predicate IsTrueText(s: string) {
    |s| == 4 && Lower(s[0]) == 't' && Lower(s[1]) == 'r' && Lower(s[2]) == 'u' && Lower(s[3]) == 'e'
  }

  lemma IsTrueTextLowersToTrue(s: string)
    ensures IsTrueText(s) <==> ToLower(s) == "true"
  {
    if ToLower(s) == "true" {
      assert ToLower(s)[0] == 't' && ToLower(s)[1] == 'r' && ToLower(s)[2] == 'u' && ToLower(s)[3] == 'e';
    }
  }

  function ParsePersonLine(line: string, validDate: DateParser): (r: Result<PersonData, ParseError>)
  {
    CheckFields(Fields(line), validDate)
  }

  /** The checks `parsePersonLine` makes on the trimmed fields, in the order it makes them. */
  function CheckFields(fields: seq<string>, validDate: DateParser): (r: Result<PersonData, ParseError>)
  {
    if |fields| != ExpectedFields then Failure(WrongFieldCount(|fields|))
    else
      var name, surname, personalId, status, dateOfEntry, pep, os :=
        fields[0], fields[1], fields[2], fields[3], fields[4], fields[5], fields[6];
      if name == "" || surname == "" || personalId == "" || status == "" || dateOfEntry == "" then
        Failure(MissingRequiredFields)
      else if status !in StatusValues then Failure(InvalidStatus(status))
      else if !validDate(dateOfEntry) then Failure(InvalidDate(dateOfEntry))
      else Success(PersonData(Some(name), Some(surname), Some(personalId), Some(status),
                              Some(Date(dateOfEntry)), Some(IsTrueText(pep)), Some(IsTrueText(os))))
  }

  /** The field-count check fails exactly when the line does not hold six delimiters,
      and then reports one more field than there are delimiters. */
  lemma FieldCountChecked(line: string, validDate: DateParser)
    ensures (ParsePersonLine(line, validDate).Failure? && ParsePersonLine(line, validDate).error.WrongFieldCount?)
            <==> Occurrences(line, Delimiter) != 6
    ensures Occurrences(line, Delimiter) != 6 ==>
              ParsePersonLine(line, validDate).error.Message()
                == "Invalid number of fields. Expected 7, got " + NatToString(Occurrences(line, Delimiter) + 1)
  {
  }

  /** An empty name, surname, personalId, status or date (after trimming) rejects a seven-field line. */
  lemma MissingFieldRejected(line: string, validDate: DateParser, k: nat)
    requires Occurrences(line, Delimiter) == 6
    requires k < 5 && k < |Split(line, Delimiter)| && Trim(Split(line, Delimiter)[k]) == ""
    ensures ParsePersonLine(line, validDate) == Failure(MissingRequiredFields)
  {
    var fields := Fields(line);
    assert fields[k] == "";
    EmptyRequiredFieldRejected(fields, validDate, k);
  }

  lemma EmptyRequiredFieldRejected(fields: seq<string>, validDate: DateParser, k: nat)
    requires |fields| == ExpectedFields && k < 5 && fields[k] == ""
    ensures CheckFields(fields, validDate) == Failure(MissingRequiredFields)
  {
  }

  /** A seven-field line whose five required fields are present after trimming but whose trimmed
      status is neither "Activo" nor "Inactivo" (compared case-sensitively) is rejected with that status. */
  lemma InvalidStatusRejected(line: string, validDate: DateParser)
    requires |Fields(line)| == ExpectedFields && forall k :: 0 <= k < 5 ==> Fields(line)[k] != ""
    requires Fields(line)[3] !in StatusValues
    ensures ParsePersonLine(line, validDate) == Failure(InvalidStatus(Fields(line)[3]))
    ensures ParsePersonLine(line, validDate).error.Message()
            == "Invalid status: " + Fields(line)[3] + ". Must be 'Activo' or 'Inactivo'"
  {
    StatusChecked(Fields(line), validDate);
  }

  lemma StatusChecked(fields: seq<string>, validDate: DateParser)
    requires |fields| == ExpectedFields && forall k :: 0 <= k < 5 ==> fields[k] != ""
    requires fields[3] !in StatusValues
    ensures CheckFields(fields, validDate) == Failure(InvalidStatus(fields[3]))
  {
  }

  /** A seven-field line that passes the required and status checks but whose trimmed date the
      platform parser refuses is rejected with that text. */
  lemma InvalidDateRejected(line: string, validDate: DateParser)
    requires |Fields(line)| == ExpectedFields && forall k :: 0 <= k < 5 ==> Fields(line)[k] != ""
    requires Fields(line)[3] in StatusValues && !validDate(Fields(line)[4])
    ensures ParsePersonLine(line, validDate) == Failure(InvalidDate(Fields(line)[4]))
    ensures ParsePersonLine(line, validDate).error.Message() == "Invalid date format: " + Fields(line)[4]
  {
    DateChecked(Fields(line), validDate);
  }

  lemma DateChecked(fields: seq<string>, validDate: DateParser)
    requires |fields| == ExpectedFields && forall k :: 0 <= k < 5 ==> fields[k] != ""
    requires fields[3] in StatusValues && !validDate(fields[4])
    ensures CheckFields(fields, validDate) == Failure(InvalidDate(fields[4]))
  {
  }

  /** A text with no delimiter and no whitespace at either end: what a field looks like after split and trim. */
  predicate CleanField(s: string) {
    Delimiter !in s && (s == [] || (!IsSpace(s[0]) && !IsSpace(s[|s| - 1])))
  }

  /** Trimming leaves a clean field unchanged. */
  lemma TrimClean(s: string)
    requires CleanField(s)
    ensures Trim(s) == s
  {
    assert TrimStart(s) == s;
    assert TrimEnd(s) == s;
  }

  /** What `CheckFields` promises of an accepted list of fields. */
  lemma CheckedRecord(fields: seq<string>, validDate: DateParser)
    requires CheckFields(fields, validDate).Success?
    ensures var d := CheckFields(fields, validDate).value;
            && |fields| == ExpectedFields
            && d.name == Some(fields[0]) && d.surname == Some(fields[1]) && d.personalId == Some(fields[2])
            && d.status == Some(fields[3]) && (fields[3] == "Activo" || fields[3] == "Inactivo")
            && d.dateOfEntry == Some(Date(fields[4])) && validDate(fields[4])
            && d.pep == Some(IsTrueText(fields[5])) && d.os == Some(IsTrueText(fields[6]))
            && fields[0] != "" && fields[1] != "" && fields[2] != "" && fields[4] != ""
  {
  }

  /** The fields of a line with their separators and surrounding whitespace removed. */
  lemma FieldsAreClean(line: string)
    ensures forall i :: 0 <= i < |Fields(line)| ==> CleanField(Fields(line)[i])
  {
    var raw := Split(line, Delimiter);
    SplitFieldsFree(line, Delimiter);
    forall i | 0 <= i < |raw| ensures CleanField(Fields(line)[i]) {
      TrimmedFieldClean(raw[i]);
    }
  }

  /** What a successful parse promises: the trimmed first three fields as name, surname and personalId,
      a status from the two accepted values, a date the platform parser accepts, the two booleans
      true exactly when their lower-cased field reads "true", and no field holding a delimiter or
      surrounding whitespace. */
  lemma ParsedRecordFacts(line: string, validDate: DateParser)
    requires ParsePersonLine(line, validDate).Success?
    ensures var d := ParsePersonLine(line, validDate).value;
            var raw := Split(line, Delimiter);
            && |raw| == 7 && Occurrences(line, Delimiter) == 6
            && d.name == Some(Trim(raw[0])) && d.surname == Some(Trim(raw[1]))
            && d.personalId == Some(Trim(raw[2]))
            && (d.status == Some("Activo") || d.status == Some("Inactivo"))
            && d.dateOfEntry == Some(Date(Trim(raw[4]))) && validDate(Trim(raw[4]))
            && d.pep == Some(ToLower(Trim(raw[5])) == "true")
            && d.os == Some(ToLower(Trim(raw[6])) == "true")
            && WellFormedRecord(d, validDate)
  {
    var fields := Fields(line);
    CheckedRecord(fields, validDate);
    FieldsAreClean(line);
    IsTrueTextLowersToTrue(fields[5]);
    IsTrueTextLowersToTrue(fields[6]);
  }

  /** Trimming a delimiter-free text leaves a clean field. */
  lemma TrimmedFieldClean(s: string)
    requires Delimiter !in s
    ensures CleanField(Trim(s))
  {
    var r := Trim(s);
    var k := TrimInfix(s);
    assert forall c :: c in r ==> c in s;
  }

  /** A record the parser could have produced: every field present, clean and non-empty,
      an accepted status and a date the platform parser accepts. */
  predicate WellFormedRecord(d: PersonData, validDate: DateParser) {
    && d.name.Some? && d.surname.Some? && d.personalId.Some? && d.status.Some?
    && d.dateOfEntry.Some? && d.pep.Some? && d.os.Some?
    && CleanField(d.name.value) && CleanField(d.surname.value) && CleanField(d.personalId.value)
    && CleanField(d.dateOfEntry.value.text)
    && d.name.value != "" && d.surname.value != "" && d.personalId.value != ""
    && d.dateOfEntry.value.text != ""
    && d.status.value in StatusValues
    && validDate(d.dateOfEntry.value.text)
  }

  /** A parsed record passes every schema check except, possibly, the length bounds: the parser never
      checks lengths, so the schema accepts it exactly when name, surname and personalId fit. */
  lemma WellFormedAcceptedIffWithinLengths(d: PersonData, validDate: DateParser)
    requires WellFormedRecord(d, validDate)
    ensures Accepts(d) <==> |d.name.value| <= NameMaxLength && |d.surname.value| <= SurnameMaxLength
                            && |d.personalId.value| <= PersonalIdMaxLength
  {
    if |d.name.value| <= NameMaxLength && |d.surname.value| <= SurnameMaxLength
       && |d.personalId.value| <= PersonalIdMaxLength {
      forall p ensures PathHolds(d, p) {
      }
    } else {
      assert !PathHolds(d, NamePath) || !PathHolds(d, SurnamePath) || !PathHolds(d, PersonalIdPath);
    }
  }

  /** Renders a record as an input line, booleans as "true" and "false". */
  function FormatPersonLine(d: PersonData): string
    requires d.name.Some? && d.surname.Some? && d.personalId.Some? && d.status.Some?
    requires d.dateOfEntry.Some? && d.pep.Some? && d.os.Some?
  {
    Join(RecordFields(d), Delimiter)
  }

  function BoolText(b: bool): string {
    if b then "true" else "false"
  }

  function RecordFields(d: PersonData): (fields: seq<string>)
    requires d.name.Some? && d.surname.Some? && d.personalId.Some? && d.status.Some?
    requires d.dateOfEntry.Some? && d.pep.Some? && d.os.Some?
    ensures |fields| == 7
  {
    [d.name.value, d.surname.value, d.personalId.value, d.status.value,
     d.dateOfEntry.value.text, BoolText(d.pep.value), BoolText(d.os.value)]
  }

  /** A line made of separator-free fields yields those fields, trimmed. */
  lemma FieldsOfJoin(raw: seq<string>)
    requires |raw| >= 1
    requires forall i :: 0 <= i < |raw| ==> Delimiter !in raw[i]
    ensures |Fields(Join(raw, Delimiter))| == |raw|
    ensures forall i :: 0 <= i < |raw| ==> Fields(Join(raw, Delimiter))[i] == Trim(raw[i])
  {
    SplitJoin(raw, Delimiter);
  }

  /** A line made of clean fields yields exactly those fields. */
  lemma FieldsOfCleanJoin(raw: seq<string>)
    requires |raw| >= 1
    requires forall i :: 0 <= i < |raw| ==> CleanField(raw[i])
    ensures Fields(Join(raw, Delimiter)) == raw
  {
    FieldsOfJoin(raw);
    var f := Fields(Join(raw, Delimiter));
    forall i | 0 <= i < |raw| ensures f[i] == raw[i] {
      TrimClean(raw[i]);
    }
  }

  lemma CheckWellFormedFields(d: PersonData, validDate: DateParser)
    requires WellFormedRecord(d, validDate)
    ensures CheckFields(RecordFields(d), validDate) == Success(d)
  {
    assert IsTrueText("true") && !IsTrueText("false");
  }

  /** Parsing the rendered line of a well-formed record gives the record back. */
  lemma ParseFormatRoundTrip(d: PersonData, validDate: DateParser)
    requires WellFormedRecord(d, validDate)
    ensures ParsePersonLine(FormatPersonLine(d), validDate) == Success(d)
  {
    var fields := RecordFields(d);
    assert d.status.value == "Activo" || d.status.value == "Inactivo";
    assert forall i :: 0 <= i < 7 ==> CleanField(fields[i]);
    FieldsOfCleanJoin(fields);
    CheckWellFormedFields(d, validDate);
  }

  /** Whether a line parses never depends on its last two fields; they only set the two booleans. */
  lemma CheckIgnoresBooleans(a: seq<string>, b: seq<string>, validDate: DateParser)
    requires |a| == ExpectedFields && |b| == ExpectedFields && a[..5] == b[..5]
    ensures CheckFields(a, validDate)
            == match CheckFields(b, validDate)
               case Failure(e) => Failure(e)
               case Success(d) => Success(d.(pep := Some(IsTrueText(a[5])), os := Some(IsTrueText(a[6]))))
  {
    assert forall i :: 0 <= i < 5 ==> a[i] == a[..5][i] == b[..5][i] == b[i];
  }

  /** The lenient booleans never cause a rejection: two lines with as many fields and the same first
      five parse alike, failing with the same error or giving records that differ at most in pep and os. */
  lemma BooleansNeverReject(line: string, line': string, validDate: DateParser)
    requires |Split(line, Delimiter)| == |Split(line', Delimiter)|
    requires forall i :: 0 <= i < 5 && i < |Split(line, Delimiter)| ==>
               Split(line, Delimiter)[i] == Split(line', Delimiter)[i]
    ensures ParsePersonLine(line, validDate).Success? == ParsePersonLine(line', validDate).Success?
    ensures ParsePersonLine(line, validDate).Failure? ==>
              ParsePersonLine(line, validDate) == ParsePersonLine(line', validDate)
    ensures ParsePersonLine(line, validDate).Success? ==>
              ParsePersonLine(line, validDate).value.(pep := None, os := None)
              == ParsePersonLine(line', validDate).value.(pep := None, os := None)
  {
    var f, f' := Fields(line), Fields(line');
    if |f| == ExpectedFields {
      assert f[..5] == f'[..5];
      CheckIgnoresBooleans(f, f', validDate);
    }
  }

  /** The lenient booleans accept any capitalisation of "true" and nothing else. */
  lemma TrueTextExamples()
    ensures IsTrueText("true") && IsTrueText("TRUE") && IsTrueText("True")
    ensures !IsTrueText("false") && !IsTrueText("yes") && !IsTrueText("1") && !IsTrueText("")
  {
  }

  /** The well-formed example line `Jane|Doe|1234567890|Activo|2023-01-15|true|false` parses to a
      record with pep true and os false. */
  lemma ExampleLineParses(validDate: DateParser)
    requires validDate("2023-01-15")
    ensures ParsePersonLine(Join(["Jane", "Doe", "1234567890", "Activo", "2023-01-15", "true", "false"], Delimiter), validDate)
            == Success(PersonData(Some("Jane"), Some("Doe"), Some("1234567890"), Some("Activo"),
                                  Some(Date("2023-01-15")), Some(true), Some(false)))
  {
    var d := PersonData(Some("Jane"), Some("Doe"), Some("1234567890"), Some("Activo"),
                        Some(Date("2023-01-15")), Some(true), Some(false));
    assert WellFormedRecord(d, validDate) by {
      assert CleanField("Jane") && CleanField("Doe");
      assert CleanField("1234567890") && CleanField("2023-01-15");
    }
    assert RecordFields(d) == ["Jane", "Doe", "1234567890", "Activo", "2023-01-15", "true", "false"];
    ParseFormatRoundTrip(d, validDate);
  }

  /** The line `Jane|Doe||Activo|2023-01-15|true|false`, with an empty personalId, is reported as
      missing a required field. */
  lemma ExampleMissingPersonalId(validDate: DateParser)
    ensures ParsePersonLine(Join(["Jane", "Doe", "", "Activo", "2023-01-15", "true", "false"], Delimiter), validDate)
            == Failure(MissingRequiredFields)
  {
    var raw := ["Jane", "Doe", "", "Activo", "2023-01-15", "true", "false"];
    assert forall i :: 0 <= i < 7 ==> CleanField(raw[i]);
    FieldsOfCleanJoin(raw);
    EmptyRequiredFieldRejected(raw, validDate, 2);
  }

  /** A line with six fields is reported with expected 7 and actual 6. */
  lemma ExampleSixFields(validDate: DateParser)
    ensures ParsePersonLine(Join(["Jane", "Doe", "1234567890", "Activo", "2023-01-15", "true"], Delimiter), validDate)
            == Failure(WrongFieldCount(6))
  {
    var raw := ["Jane", "Doe", "1234567890", "Activo", "2023-01-15", "true"];
    SplitJoin(raw, Delimiter);
    assert |Fields(Join(raw, Delimiter))| == 6;
  }

  /** The six-field line's error reads "Expected 7, got 6". */
  lemma ExampleSixFieldsMessage()
    ensures WrongFieldCount(6).Message() == "Invalid number of fields. Expected 7, got 6"
  {
    assert NatToString(6) == "6";
  }
}
