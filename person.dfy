/**
  The person schema (data-reader/src/models/Person.ts) as an acceptance
  predicate, and the `people` collection behind `person.save()`.

  `save()` first runs the schema's validators on every path; a document that
  passes gets the identity drawn by the `uuid` default and is inserted, where
  the collection's JSON-schema validator and its unique indexes on `uuid` and
  `personalId` may still refuse it.
 */
module Person {
  import opened Wrappers
  import opened Text

  const NameMaxLength: nat := 50
  const SurnameMaxLength: nat := 50
  const PersonalIdMaxLength: nat := 10
  /** The bound the collection's own JSON-schema validator puts on name and surname. */
  const StoredNameMaxLength: nat := 256
  const StatusValues: seq<string> := ["Activo", "Inactivo"]

  /** The value of a date field; only the text the platform parser accepted is kept. */
  datatype Date = Date(text: string)

  /** `Partial<IPerson>`: what the service hands to `new Person(...)`; every field may be absent. */
  datatype PersonData = PersonData(
    name: Option<string>,
    surname: Option<string>,
    personalId: Option<string>,
    status: Option<string>,
    dateOfEntry: Option<Date>,
    pep: Option<bool>,
    os: Option<bool>)

  /** The schema paths the validators run on, in declaration order. */
  datatype SchemaPath = NamePath | SurnamePath | PersonalIdPath | StatusPath | DateOfEntryPath | PepPath | OsPath

  const SchemaOrder: seq<SchemaPath> :=
    [NamePath, SurnamePath, PersonalIdPath, StatusPath, DateOfEntryPath, PepPath, OsPath]

  /** A required string path: present and not the empty string. */
  predicate RequiredText(v: Option<string>) {
    v.Some? && v.value != ""
  }

  predicate WithinLength(v: Option<string>, max: nat) {
    v.None? || |v.value| <= max
  }

  /** The constraints the schema declares on one path. */
  predicate PathHolds(d: PersonData, p: SchemaPath) {
    match p
    case NamePath => RequiredText(d.name) && WithinLength(d.name, NameMaxLength)
    case SurnamePath => RequiredText(d.surname) && WithinLength(d.surname, SurnameMaxLength)
    case PersonalIdPath => RequiredText(d.personalId) && WithinLength(d.personalId, PersonalIdMaxLength)
    case StatusPath => RequiredText(d.status) && d.status.value in StatusValues
    case DateOfEntryPath => d.dateOfEntry.Some?
    case PepPath => d.pep.Some?
    case OsPath => d.os.Some?
  }

  /** The schema accepts a document when every path's constraints hold. */
  predicate Accepts(d: PersonData) {
    forall p :: PathHolds(d, p)
  }

  function FailingAmong(d: PersonData, paths: seq<SchemaPath>): (r: seq<SchemaPath>)
    ensures forall p :: p in r <==> p in paths && !PathHolds(d, p)
  {
    if paths == [] then []
    else (if PathHolds(d, paths[0]) then [] else [paths[0]]) + FailingAmong(d, paths[1..])
  }

  /** The paths whose validators fail, in schema order: exactly the paths whose constraints do not hold. */
  function FailingPaths(d: PersonData): (r: seq<SchemaPath>)
    ensures forall p :: p in r <==> !PathHolds(d, p)
    ensures r == [] <==> Accepts(d)
  {
    var r := FailingAmong(d, SchemaOrder);
    EveryPathValidated();
    if r == [] then r else assert r[0] in r; r
  }

  /** The validators run on every path of the schema. */
  lemma EveryPathValidated()
    ensures forall p :: p in SchemaOrder
  {
    forall p: SchemaPath ensures p in SchemaOrder {
      match p
      case NamePath => assert SchemaOrder[0] == p;
      case SurnamePath => assert SchemaOrder[1] == p;
      case PersonalIdPath => assert SchemaOrder[2] == p;
      case StatusPath => assert SchemaOrder[3] == p;
      case DateOfEntryPath => assert SchemaOrder[4] == p;
      case PepPath => assert SchemaOrder[5] == p;
      case OsPath => assert SchemaOrder[6] == p;
    }
  }

  /** Concrete consequences of the schema, path by path. */
  lemma AcceptedRecordShape(d: PersonData)
    requires Accepts(d)
    ensures d.name.Some? && 0 < |d.name.value| <= NameMaxLength
    ensures d.surname.Some? && 0 < |d.surname.value| <= SurnameMaxLength
    ensures d.personalId.Some? && 0 < |d.personalId.value| <= PersonalIdMaxLength
    ensures d.status == Some("Activo") || d.status == Some("Inactivo")
    ensures d.dateOfEntry.Some? && d.pep.Some? && d.os.Some?
  {
    assert PathHolds(d, NamePath) && PathHolds(d, SurnamePath) && PathHolds(d, PersonalIdPath);
    assert PathHolds(d, StatusPath) && PathHolds(d, DateOfEntryPath);
    assert PathHolds(d, PepPath) && PathHolds(d, OsPath);
  }

  /** A document as stored, with the identity the `uuid` default drew for it. */
  datatype StoredPerson = StoredPerson(
    uuid: nat,
    name: string,
    surname: string,
    personalId: string,
    status: string,
    dateOfEntry: Date,
    pep: bool,
    os: bool)

  /** The collection's JSON-schema validator, which the migration installs. */
  predicate StoredValid(p: StoredPerson) {
    && |p.name| <= StoredNameMaxLength
    && |p.surname| <= StoredNameMaxLength
    && |p.personalId| <= PersonalIdMaxLength
    && p.status in StatusValues
  }

  /** The document `new Person(d)` builds for an accepted `d`, given the drawn identity. */
  function ToStored(d: PersonData, uuid: nat): (p: StoredPerson)
    requires Accepts(d)
    ensures p.uuid == uuid && Some(p.personalId) == d.personalId
    ensures StoredValid(p)
    ensures 0 < |p.name| <= NameMaxLength && 0 < |p.surname| <= SurnameMaxLength
  {
    AcceptedRecordShape(d);
    StoredPerson(uuid, d.name.value, d.surname.value, d.personalId.value, d.status.value,
                 d.dateOfEntry.value, d.pep.value, d.os.value)
  }

  /** The `people` collection: its documents in insertion order and how many identities were drawn. */
  datatype Store = Store(people: seq<StoredPerson>, issued: nat)

  predicate UuidTaken(s: Store, u: nat) {
    exists i :: 0 <= i < |s.people| && s.people[i].uuid == u
  }

  predicate PersonalIdTaken(s: Store, id: string) {
    exists i :: 0 <= i < |s.people| && s.people[i].personalId == id
  }

  /** What the indexes and validators guarantee of the stored documents: every identity was
      drawn before, both unique indexes hold, and every document passed the collection validator. */
  predicate StoreInvariant(s: Store) {
    && (forall i :: 0 <= i < |s.people| ==> s.people[i].uuid < s.issued && StoredValid(s.people[i]))
    && (forall i, j :: 0 <= i < j < |s.people| ==>
          s.people[i].uuid != s.people[j].uuid && s.people[i].personalId != s.people[j].personalId)
  }

  datatype SaveError =
    | ValidationFailed(paths: seq<SchemaPath>)
    | DocumentFailedValidation
    | DuplicateKey(index: string, key: string)
  {
    /** The error's `message`; the per-path explanation the validator adds is reduced to the path's name. */
    function Message(): string {
      match this
      case ValidationFailed(paths) => "Person validation failed: " + PathNames(paths)
      case DocumentFailedValidation => "Document failed validation"
      case DuplicateKey(index, key) => "E11000 duplicate key error index: " + index + "_1 dup key: " + key
    }
  }

  function PathName(p: SchemaPath): string {
    match p
    case NamePath => "name"
    case SurnamePath => "surname"
    case PersonalIdPath => "personalId"
    case StatusPath => "status"
    case DateOfEntryPath => "dateOfEntry"
    case PepPath => "pep"
    case OsPath => "os"
  }

  function PathNames(paths: seq<SchemaPath>): string {
    if paths == [] then ""
    else if |paths| == 1 then PathName(paths[0])
    else PathName(paths[0]) + ", " + PathNames(paths[1..])
  }

  datatype SaveResult = SaveResult(store: Store, error: Option<SaveError>)

  /** `new Person(d).save()` against the collection `s`. */
  function SaveTo(s: Store, d: PersonData): (r: SaveResult)
    ensures r.store.issued == s.issued + 1
    ensures r.error.None? ==> Accepts(d) && r.store.people == s.people + [ToStored(d, s.issued)]
    ensures r.error.Some? ==> r.store.people == s.people
    ensures !Accepts(d) ==> r.error == Some(ValidationFailed(FailingPaths(d)))
  {
    var paths := FailingPaths(d);
    var drawn := s.(issued := s.issued + 1);
    if paths != [] then SaveResult(drawn, Some(ValidationFailed(paths)))
    else
      var doc := ToStored(d, s.issued);
      if !StoredValid(doc) then SaveResult(drawn, Some(DocumentFailedValidation))
      else if UuidTaken(s, doc.uuid) then SaveResult(drawn, Some(DuplicateKey("uuid", NatToString(doc.uuid))))
      else if PersonalIdTaken(s, doc.personalId) then SaveResult(drawn, Some(DuplicateKey("personalId", doc.personalId)))
      else SaveResult(Store(s.people + [doc], s.issued + 1), None)
  }

  /** A save keeps the unique indexes and the collection validator satisfied. */
  lemma SaveKeepsInvariant(s: Store, d: PersonData)
    requires StoreInvariant(s)
    ensures StoreInvariant(SaveTo(s, d).store)
  {
    var r := SaveTo(s, d);
    if r.error.None? {
      var doc := ToStored(d, s.issued);
      assert r.store.people == s.people + [doc];
      assert !PersonalIdTaken(s, doc.personalId);
      forall i, j | 0 <= i < j < |r.store.people|
        ensures r.store.people[i].uuid != r.store.people[j].uuid
        ensures r.store.people[i].personalId != r.store.people[j].personalId
      {
        if j == |s.people| {
          assert r.store.people[i] == s.people[i];
        }
      }
    }
  }

  /** On a consistent collection a save succeeds exactly when the schema accepts the record and
      no stored document has its personalId. */
  lemma SaveSucceedsIff(s: Store, d: PersonData)
    requires StoreInvariant(s)
    ensures SaveTo(s, d).error.None? <==>
              Accepts(d) && d.personalId.Some? && !PersonalIdTaken(s, d.personalId.value)
  {
    if Accepts(d) {
      var doc := ToStored(d, s.issued);
      assert !UuidTaken(s, doc.uuid);
    }
  }

  /** An accepted record whose personalId is already stored is refused by the `personalId`
      unique index, naming that key: on a consistent collection no earlier check fires. */
  lemma TakenIdRefused(s: Store, d: PersonData)
    requires StoreInvariant(s)
    requires Accepts(d) && d.personalId.Some? && PersonalIdTaken(s, d.personalId.value)
    ensures SaveTo(s, d).error == Some(DuplicateKey("personalId", d.personalId.value))
    ensures SaveTo(s, d).store.people == s.people
  {
    var doc := ToStored(d, s.issued);
    assert !UuidTaken(s, doc.uuid);
  }

  /** Once the identities in the collection were all drawn earlier, the `uuid` index never refuses a save. */
  lemma UuidIndexNeverRefuses(s: Store, d: PersonData, key: string)
    requires StoreInvariant(s)
    ensures SaveTo(s, d).error != Some(DuplicateKey("uuid", key))
  {
    if Accepts(d) {
      assert !UuidTaken(s, s.issued);
    }
  }

  /** The parser never checks lengths, so the schema's bounds are what refuses an over-long field:
      whatever the collection holds, such a save fails validation on the name path and inserts nothing. */
  lemma OverlongNameRefused(s: Store, d: PersonData)
    requires d.name.Some? && |d.name.value| > NameMaxLength
    ensures SaveTo(s, d).error == Some(ValidationFailed(FailingPaths(d)))
    ensures NamePath in FailingPaths(d)
    ensures SaveTo(s, d).store.people == s.people
  {
    assert !PathHolds(d, NamePath);
  }

  /** The collection the service writes to, updated in place by every successful save. */
  class PeopleCollection {
    var people: seq<StoredPerson>
    var issued: nat

    function Model(): Store
      reads this
    {
      Store(people, issued)
    }

    predicate Valid()
      reads this
    {
      StoreInvariant(Model())
    }

    constructor ()
      ensures Valid() && Model() == Store([], 0)
    {
      people := [];
      issued := 0;
    }

    /** `person.save()`: returns the error it would throw, or `None` when the document was inserted. */
    method Save(d: PersonData) returns (error: Option<SaveError>)
      requires Valid()
      modifies this
      ensures Valid()
      ensures SaveResult(Model(), error) == SaveTo(old(Model()), d)
    {
      var r := SaveTo(Model(), d);
      SaveKeepsInvariant(Model(), d);
      people, issued := r.store.people, r.store.issued;
      error := r.error;
    }
  }
}
