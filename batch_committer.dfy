/**
  `processBatch` (data-reader/src/services/fileProcess.ts): the records of a
  batch are saved one at a time, in index order; a failed save is caught,
  logged against line `startLineNumber + i` with the record's personalId,
  and does not stop the records after it. The run's counters then grow by
  the number of successful saves and by the batch length.
 */
module BatchCommitter {
  import opened Wrappers
  import opened Text
  import opened Person

  /** The run's summary, whose counters `processBatch` and `processFile` update in place. */
  class FileProcessResult {
    var success: bool
    var totalRecords: nat
    var savedRecords: nat
    var errorLogPath: Option<string>

    constructor ()
      ensures !success && totalRecords == 0 && savedRecords == 0 && errorLogPath == None
    {
      success := false;
      totalRecords := 0;
      savedRecords := 0;
      errorLogPath := None;
    }
  }

  /** The collection after saving some records one after another, and the outcome of each save. */
  datatype Replay = Replay(store: Store, outcomes: seq<Option<SaveError>>)

  /** Saving `records` one at a time, first to last: the reference the batch committer is held to. */
  function SaveAll(s: Store, records: seq<PersonData>): (r: Replay)
    ensures |r.outcomes| == |records|
    decreases |records|
  {
    if records == [] then Replay(s, [])
    else
      var before := SaveAll(s, records[..|records| - 1]);
      var last := SaveTo(before.store, records[|records| - 1]);
      Replay(last.store, before.outcomes + [last.error])
  }

  /** Saving one more record extends the replay by that record's save. */
  lemma SaveAllSnoc(s: Store, records: seq<PersonData>, d: PersonData)
    ensures var before := SaveAll(s, records);
            var o := SaveTo(before.store, d);
            SaveAll(s, records + [d]) == Replay(o.store, before.outcomes + [o.error])
  {
    assert (records + [d])[..|records|] == records;
  }

  /** Saving `a + b` is saving `a`, then saving `b` into what `a` left. */
  lemma {:induction false} SaveAllAppend(s: Store, a: seq<PersonData>, b: seq<PersonData>)
    ensures var ra := SaveAll(s, a);
            var rb := SaveAll(ra.store, b);
            SaveAll(s, a + b) == Replay(rb.store, ra.outcomes + rb.outcomes)
    decreases |b|
  {
    if b == [] {
      assert a + b == a;
    } else {
      var m := |b| - 1;
      var init, x := b[..m], b[m];
      SplitLast(a, b);
      var ra := SaveAll(s, a);
      var rb' := SaveAll(ra.store, init);
      var o := SaveTo(rb'.store, x);
      SaveAllAppend(s, a, init);
      SaveAllSnoc(s, a + init, x);
      SaveAllSnoc(ra.store, init, x);
      assert (ra.outcomes + rb'.outcomes) + [o.error] == ra.outcomes + (rb'.outcomes + [o.error]);
    }
  }

  lemma SplitLast<T>(a: seq<T>, b: seq<T>)
    requires b != []
    ensures a + b == (a + b[..|b| - 1]) + [b[|b| - 1]]
    ensures b == b[..|b| - 1] + [b[|b| - 1]]
  {
  }

  /** The outcome of record `i` is that of saving it into what the records before it left:
      a failure earlier in the batch never stops a later record from being tried. */
  lemma SaveAllOutcomeAt(s: Store, records: seq<PersonData>, i: nat)
    requires i < |records|
    ensures SaveAll(s, records).outcomes[i] == SaveTo(SaveAll(s, records[..i]).store, records[i]).error
  {
    SaveAllAppend(s, records[..i + 1], records[i + 1..]);
    assert records[..i + 1] + records[i + 1..] == records;
    assert records[..i + 1][..i] == records[..i];
  }

  /** Saving keeps both unique indexes and the collection validator satisfied, only ever adds
      documents, and adds one per successful save. */
  lemma {:induction false} SaveAllKeepsInvariant(s: Store, records: seq<PersonData>)
    requires StoreInvariant(s)
    ensures StoreInvariant(SaveAll(s, records).store)
    ensures |SaveAll(s, records).store.people| == |s.people| + CountOk(SaveAll(s, records).outcomes)
    ensures SaveAll(s, records).store.people[..|s.people|] == s.people
    decreases |records|
  {
    if records != [] {
      var n := |records| - 1;
      SaveAllKeepsInvariant(s, records[..n]);
      var mid := SaveAll(s, records[..n]);
      var last := SaveTo(mid.store, records[n]);
      SaveKeepsInvariant(mid.store, records[n]);
      CountOkSnoc(mid.outcomes, last.error);
      assert last.store.people[..|mid.store.people|] == mid.store.people;
      assert last.store.people[..|s.people|] == mid.store.people[..|s.people|];
    }
  }

  /** Number of successful saves among the outcomes. */
  function CountOk(outcomes: seq<Option<SaveError>>): (n: nat)
    ensures n <= |outcomes|
  {
    if outcomes == [] then 0
    else CountOk(outcomes[..|outcomes| - 1]) + (if outcomes[|outcomes| - 1].None? then 1 else 0)
  }

  lemma {:induction false} CountOkAppend(a: seq<Option<SaveError>>, b: seq<Option<SaveError>>)
    ensures CountOk(a + b) == CountOk(a) + CountOk(b)
    decreases |b|
  {
    if b != [] {
      assert (a + b)[..|a + b| - 1] == a + b[..|b| - 1];
      CountOkAppend(a, b[..|b| - 1]);
    } else {
      assert a + b == a;
    }
  }

  /** `${personData.personalId}`: the text of the id, or "undefined" when it is absent. */
  function PersonalIdText(d: PersonData): string {
    match d.personalId
    case Some(id) => id
    case None => "undefined"
  }

  /** The entry logged for a failed save. */
  function CommitErrorLine(line: int, d: PersonData, e: SaveError): string {
    "Line " + IntToString(line) + " - " + PersonalIdText(d) + ": " + e.Message()
  }

  /** The entries a batch appends: one per failed save, in index order, record `i` tagged with line `start + i`. */
  function FailureLines(outcomes: seq<Option<SaveError>>, batch: seq<PersonData>, start: int): (lines: seq<string>)
    requires |outcomes| == |batch|
    decreases |batch|
  {
    if batch == [] then []
    else
      var n := |batch| - 1;
      FailureLines(outcomes[..n], batch[..n], start)
        + (if outcomes[n].Some? then [CommitErrorLine(start + n, batch[n], outcomes[n].value)] else [])
  }

  /** Exactly one entry per failed save. */
  lemma {:induction false} FailureLinesCount(outcomes: seq<Option<SaveError>>, batch: seq<PersonData>, start: int)
    requires |outcomes| == |batch|
    ensures |FailureLines(outcomes, batch, start)| == |batch| - CountOk(outcomes)
    decreases |batch|
  {
    if batch != [] {
      var n := |batch| - 1;
      FailureLinesCount(outcomes[..n], batch[..n], start);
    }
  }

  /** Every entry names a failed record `i` by its line `start + i` and its personalId. */
  lemma {:induction false} FailureLinesSound(outcomes: seq<Option<SaveError>>, batch: seq<PersonData>, start: int, j: nat)
    returns (i: nat)
    requires |outcomes| == |batch|
    requires j < |FailureLines(outcomes, batch, start)|
    ensures i < |batch| && outcomes[i].Some?
    ensures FailureLines(outcomes, batch, start)[j] == CommitErrorLine(start + i, batch[i], outcomes[i].value)
    decreases |batch|
  {
    var n := |batch| - 1;
    var prefix := FailureLines(outcomes[..n], batch[..n], start);
    var all := FailureLines(outcomes, batch, start);
    if j < |prefix| {
      i := FailureLinesSound(outcomes[..n], batch[..n], start, j);
      assert all[j] == prefix[j];
      assert outcomes[i] == outcomes[..n][i] && batch[i] == batch[..n][i];
    } else {
      i := n;
      assert outcomes[n].Some?;
      assert all == prefix + [CommitErrorLine(start + n, batch[n], outcomes[n].value)];
    }
  }

  /** Every failed record has its entry. */
  lemma FailureLinesComplete(outcomes: seq<Option<SaveError>>, batch: seq<PersonData>, start: int, i: nat)
    requires |outcomes| == |batch|
    requires i < |batch| && outcomes[i].Some?
    ensures CommitErrorLine(start + i, batch[i], outcomes[i].value) in FailureLines(outcomes, batch, start)
  {
    var j := FailureLinePosition(outcomes, batch, start, i);
  }

  /** Where the entry of failed record `i` sits among the entries. */
  lemma {:induction false} FailureLinePosition(outcomes: seq<Option<SaveError>>, batch: seq<PersonData>, start: int, i: nat)
    returns (j: nat)
    requires |outcomes| == |batch|
    requires i < |batch| && outcomes[i].Some?
    ensures j < |FailureLines(outcomes, batch, start)|
    ensures FailureLines(outcomes, batch, start)[j] == CommitErrorLine(start + i, batch[i], outcomes[i].value)
    decreases |batch|
  {
    var n := |batch| - 1;
    var prefix := FailureLines(outcomes[..n], batch[..n], start);
    var all := FailureLines(outcomes, batch, start);
    if i < n {
      assert outcomes[..n][i] == outcomes[i] && batch[..n][i] == batch[i];
      j := FailureLinePosition(outcomes[..n], batch[..n], start, i);
      assert all[j] == prefix[j];
    } else {
      assert i == n;
      j := |prefix|;
      assert all == prefix + [CommitErrorLine(start + n, batch[n], outcomes[n].value)];
    }
  }

  /** Saving a document takes its personalId: after a save of an accepted record its id is in the
      collection, whether this save inserted it or found it there already. */
  lemma {:induction false} SavedIdsPresent(s: Store, records: seq<PersonData>)
    requires StoreInvariant(s)
    ensures forall d :: d in records && Accepts(d) ==>
              d.personalId.Some? && PersonalIdTaken(SaveAll(s, records).store, d.personalId.value)
    decreases |records|
  {
    if records != [] {
      var n := |records| - 1;
      var init := records[..n];
      assert records == init + [records[n]];
      SavedIdsPresent(s, init);
      SaveAllKeepsInvariant(s, init);
      SaveAllSnoc(s, init, records[n]);
      IdsStayPresent(SaveAll(s, init).store, init, records[n]);
    }
  }

  /** One more save keeps the personalIds of earlier accepted records and takes its own. */
  lemma IdsStayPresent(mid: Store, init: seq<PersonData>, last: PersonData)
    requires StoreInvariant(mid)
    requires forall d :: d in init && Accepts(d) ==> d.personalId.Some? && PersonalIdTaken(mid, d.personalId.value)
    ensures forall d :: d in init + [last] && Accepts(d) ==>
              d.personalId.Some? && PersonalIdTaken(SaveTo(mid, last).store, d.personalId.value)
  {
    var after := SaveTo(mid, last).store;
    SaveTakesId(mid, last);
    forall d | d in init + [last] && Accepts(d)
      ensures d.personalId.Some? && PersonalIdTaken(after, d.personalId.value)
    {
      if d != last {
        TakenPersists(mid, after, d.personalId.value);
      }
    }
  }

  /** After a save of an accepted record into a consistent collection, its personalId is taken. */
  lemma SaveTakesId(s: Store, d: PersonData)
    requires StoreInvariant(s)
    ensures Accepts(d) ==> d.personalId.Some? && PersonalIdTaken(SaveTo(s, d).store, d.personalId.value)
  {
    if Accepts(d) {
      AcceptedRecordShape(d);
      SaveSucceedsIff(s, d);
      var r := SaveTo(s, d);
      if r.error.None? {
        assert r.store.people[|s.people|].personalId == d.personalId.value;
      } else {
        TakenPersists(s, r.store, d.personalId.value);
      }
    }
  }

  /** A personalId once taken stays taken while documents are only added. */
  lemma TakenPersists(s: Store, t: Store, id: string)
    requires PersonalIdTaken(s, id)
    requires |s.people| <= |t.people| && t.people[..|s.people|] == s.people
    ensures PersonalIdTaken(t, id)
  {
    var i :| 0 <= i < |s.people| && s.people[i].personalId == id;
    assert t.people[i] == s.people[i];
  }

  /** When the collection already holds the personalId of every record that passes the schema,
      nothing is saved and the collection keeps its documents. */
  lemma {:induction false} AllTakenSavesNothing(s: Store, records: seq<PersonData>)
    requires StoreInvariant(s)
    requires forall d :: d in records && Accepts(d) ==> d.personalId.Some? && PersonalIdTaken(s, d.personalId.value)
    ensures CountOk(SaveAll(s, records).outcomes) == 0
    ensures SaveAll(s, records).store.people == s.people
    decreases |records|
  {
    if records != [] {
      var n := |records| - 1;
      var init := records[..n];
      assert forall d :: d in init ==> d in records;
      AllTakenSavesNothing(s, init);
      SaveAllKeepsInvariant(s, init);
      var mid := SaveAll(s, init);
      var last := SaveTo(mid.store, records[n]);
      SaveSucceedsIff(mid.store, records[n]);
      assert records[n] in records;
      assert last.error.Some?;
      CountOkSnoc(mid.outcomes, last.error);
    }
  }

  /** Ingesting the same records a second time saves none of them: every record that passed the
      schema the first time now collides on its personalId. */
  lemma SecondRunSavesNothing(s: Store, records: seq<PersonData>)
    requires StoreInvariant(s)
    ensures CountOk(SaveAll(SaveAll(s, records).store, records).outcomes) == 0
  {
    SavedIdsPresent(s, records);
    SaveAllKeepsInvariant(s, records);
    AllTakenSavesNothing(SaveAll(s, records).store, records);
  }

  /** The second run's outcome for an accepted record is the `personalId` index's refusal,
      naming that record's own id. */
  lemma SecondRunDuplicateKey(s: Store, records: seq<PersonData>, k: nat)
    requires StoreInvariant(s)
    requires k < |records| && Accepts(records[k]) && records[k].personalId.Some?
    ensures SaveAll(SaveAll(s, records).store, records).outcomes[k] ==
              Some(DuplicateKey("personalId", records[k].personalId.value))
  {
    var t := SaveAll(s, records).store;
    var before := SaveAll(t, records[..k]).store;
    var d := records[k];
    SavedIdsPresent(s, records);
    SaveAllKeepsInvariant(s, records);
    SaveAllKeepsInvariant(t, records[..k]);
    assert d in records;
    TakenPersists(t, before, d.personalId.value);
    TakenIdRefused(before, d);
    SaveAllOutcomeAt(t, records, k);
  }

  /** Records the schema accepts, each with a personalId the collection does not hold and no two
      sharing one. */
  predicate FreshIds(s: Store, records: seq<PersonData>) {
    && (forall k :: 0 <= k < |records| ==>
          Accepts(records[k]) && records[k].personalId.Some? && !PersonalIdTaken(s, records[k].personalId.value))
    && (forall i, j :: 0 <= i < j < |records| ==> records[i].personalId != records[j].personalId)
  }

  /** A single accepted record is fresh exactly when the collection does not hold its personalId. */
  lemma FreshSingleton(s: Store, d: PersonData)
    requires Accepts(d) && d.personalId.Some? && !PersonalIdTaken(s, d.personalId.value)
    ensures FreshIds(s, [d])
  {
    assert [d][0] == d;
  }

  /** A personalId held after saving `records` was held before, or is one of theirs. */
  lemma {:induction false} IdsOfSaveAll(s: Store, records: seq<PersonData>, id: string)
    requires PersonalIdTaken(SaveAll(s, records).store, id)
    ensures PersonalIdTaken(s, id) || exists k :: 0 <= k < |records| && records[k].personalId == Some(id)
    decreases |records|
  {
    if records != [] {
      var n := |records| - 1;
      var init := records[..n];
      var mid := SaveAll(s, init).store;
      var last := SaveTo(mid, records[n]);
      if PersonalIdTaken(mid, id) {
        IdsOfSaveAll(s, init, id);
        if !PersonalIdTaken(s, id) {
          var k :| 0 <= k < |init| && init[k].personalId == Some(id);
          assert records[k] == init[k];
        }
      } else {
        var i :| 0 <= i < |last.store.people| && last.store.people[i].personalId == id;
        assert last.error.None?;
        assert i == |mid.people|;
      }
    }
  }

  /** Records with fresh, distinct personalIds that the schema accepts are all saved. */
  lemma {:induction false} FreshRecordsAllSaved(s: Store, records: seq<PersonData>)
    requires StoreInvariant(s)
    requires FreshIds(s, records)
    ensures CountOk(SaveAll(s, records).outcomes) == |records|
    ensures |SaveAll(s, records).store.people| == |s.people| + |records|
    decreases |records|
  {
    if records != [] {
      var n := |records| - 1;
      var init := records[..n];
      var d := records[n];
      var mid := SaveAll(s, init);
      assert CountOk(mid.outcomes) == n && |mid.store.people| == |s.people| + n
             && StoreInvariant(mid.store) by {
        assert FreshIds(s, init);
        FreshRecordsAllSaved(s, init);
        SaveAllKeepsInvariant(s, init);
      }
      assert Accepts(d) && d.personalId.Some? && !PersonalIdTaken(s, d.personalId.value);
      assert !PersonalIdTaken(mid.store, d.personalId.value) by {
        if PersonalIdTaken(mid.store, d.personalId.value) {
          IdsOfSaveAll(s, init, d.personalId.value);
        }
      }
      var last := SaveTo(mid.store, d);
      assert last.error.None? by { SaveSucceedsIff(mid.store, d); }
      CountOkSnoc(mid.outcomes, last.error);
    }
  }

  lemma CountOkSnoc(outcomes: seq<Option<SaveError>>, x: Option<SaveError>)
    ensures CountOk(outcomes + [x]) == CountOk(outcomes) + (if x.None? then 1 else 0)
  {
    assert (outcomes + [x])[..|outcomes|] == outcomes;
  }

  lemma FailureLinesSnoc(outcomes: seq<Option<SaveError>>, batch: seq<PersonData>,
                         x: Option<SaveError>, d: PersonData, start: int)
    requires |outcomes| == |batch|
    ensures FailureLines(outcomes + [x], batch + [d], start)
            == FailureLines(outcomes, batch, start)
               + (if x.Some? then [CommitErrorLine(start + |batch|, d, x.value)] else [])
  {
    assert (outcomes + [x])[..|batch|] == outcomes;
    assert (batch + [d])[..|batch|] == batch;
  }

  lemma TakeAll<T>(s: seq<T>)
    ensures s[..|s|] == s
  {
  }

  /** The first `i + 1` elements are the first `i` and then element `i`. */
  lemma TakeOneMore<T>(s: seq<T>, i: nat)
    requires i < |s|
    ensures s[..i + 1] == s[..i] + [s[i]]
  {
  }

  /** The loop step of `processBatch`: one more save extends the replay of the batch prefix, the
      count of successes and the entries logged. */
  lemma CommitStep(s0: Store, batch: seq<PersonData>, i: nat, before: Store,
                   outcomes: seq<Option<SaveError>>, after: Store, error: Option<SaveError>,
                   errors: seq<string>, logged: seq<string>, start: int)
    requires i < |batch|
    requires SaveAll(s0, batch[..i]) == Replay(before, outcomes)
    requires SaveResult(after, error) == SaveTo(before, batch[i])
    requires logged == errors + FailureLines(outcomes, batch[..i], start)
    ensures SaveAll(s0, batch[..i + 1]) == Replay(after, outcomes + [error])
    ensures CountOk(outcomes + [error]) == CountOk(outcomes) + (if error.None? then 1 else 0)
    ensures errors + FailureLines(outcomes + [error], batch[..i + 1], start)
            == logged + (if error.Some? then [CommitErrorLine(start + i, batch[i], error.value)] else [])
  {
    TakeOneMore(batch, i);
    assert SaveAll(s0, batch[..i + 1]) == Replay(after, outcomes + [error]) by {
      SaveAllSnoc(s0, batch[..i], batch[i]);
    }
    CountOkSnoc(outcomes, error);
    assert |batch[..i]| == i;
    assert FailureLines(outcomes + [error], batch[..i + 1], start)
           == FailureLines(outcomes, batch[..i], start)
              + (if error.Some? then [CommitErrorLine(start + i, batch[i], error.value)] else []) by {
      FailureLinesSnoc(outcomes, batch[..i], error, batch[i], start);
    }
  }

  /** `processBatch`: saves every record of `batch` in index order into `people`, logs each failure
      against line `startLineNumber + i`, and adds the successes and the batch length to the counters. */
  method ProcessBatch(batch: seq<PersonData>, result: FileProcessResult, errors: seq<string>,
                      startLineNumber: int, people: PeopleCollection)
    returns (errors': seq<string>)
    requires people.Valid()
    modifies result, people
    ensures people.Valid()
    ensures var replay := SaveAll(old(people.Model()), batch);
            && people.Model() == replay.store
            && result.savedRecords == old(result.savedRecords) + CountOk(replay.outcomes)
            && result.totalRecords == old(result.totalRecords) + |batch|
            && errors' == errors + FailureLines(replay.outcomes, batch, startLineNumber)
    ensures result.success == old(result.success) && result.errorLogPath == old(result.errorLogPath)
  {
    var successfulInserts;
    successfulInserts, errors' := SaveEach(batch, errors, startLineNumber, people);
    result.savedRecords := result.savedRecords + successfulInserts;
    result.totalRecords := result.totalRecords + |batch|;
  }

  /** The loop of `processBatch`: one `save` per record, counting successes and logging failures. */
  method SaveEach(batch: seq<PersonData>, errors: seq<string>, startLineNumber: int, people: PeopleCollection)
    returns (successfulInserts: nat, errors': seq<string>)
    requires people.Valid()
    modifies people
    ensures people.Valid()
    ensures var replay := SaveAll(old(people.Model()), batch);
            && people.Model() == replay.store
            && successfulInserts == CountOk(replay.outcomes)
            && errors' == errors + FailureLines(replay.outcomes, batch, startLineNumber)
  {
    ghost var s0 := people.Model();
    ghost var outcomes: seq<Option<SaveError>> := [];
    successfulInserts := 0;
    errors' := errors;
    for i := 0 to |batch|
      invariant people.Valid()
      invariant SaveAll(s0, batch[..i]) == Replay(people.Model(), outcomes)
      invariant successfulInserts == CountOk(outcomes)
      invariant errors' == errors + FailureLines(outcomes, batch[..i], startLineNumber)
    {
      var personData := batch[i];
      ghost var before := people.Model();
      var error := people.Save(personData);
      CommitStep(s0, batch, i, before, outcomes, people.Model(), error, errors, errors', startLineNumber);
      outcomes := outcomes + [error];
      if error.None? {
        successfulInserts := successfulInserts + 1;
      } else {
        errors' := errors' + [CommitErrorLine(startLineNumber + i, batch[i], error.value)];
      }
    }
    TakeAll(batch);
  }
}
