/**
  `processFile` (data-reader/src/services/fileProcess.ts): reads the input
  line by line, counting every line, skipping blank ones, logging the lines
  that do not parse, and buffering parsed records into batches of 100 that
  are committed as they fill; the last partial batch is committed after the
  last line. The run succeeds when at least one record was saved, and the
  error log is written whenever there is an error to report.

  The pipeline is stated twice: as a left fold of `StepLine` over the lines
  (`Streamed`), which the lemmas reason about, and as the `ProcessFile`
  method, which updates its state in place and is proved to follow the fold.
 */
module Ingestion {
  import opened Wrappers
  import opened Text
  import opened Person
  import opened LineParser
  import opened BatchCommitter
  import opened ErrorLog

  const BatchSize: nat := 100

  /** What `processFile` carries from one line to the next: the collection, the batch buffer,
      the line counter, the shared error list and the two counters of the result. */
  datatype Pipeline = Pipeline(
    store: Store,
    batch: seq<PersonData>,
    lineNumber: nat,
    errors: seq<string>,
    saved: nat,
    total: nat)

  function Initial(s: Store): Pipeline {
    Pipeline(s, [], 0, [], 0, 0)
  }

  /** How one line is handled: skipped as blank, rejected by the parser, or parsed into a record. */
  datatype LineKind = Blank | Rejected(error: ParseError) | Parsed(record: PersonData)

  function Classify(line: string, validDate: DateParser): LineKind {
    if Trim(line) == [] then Blank else KindOf(ParsePersonLine(line, validDate))
  }

  function KindOf(parsed: Result<PersonData, ParseError>): LineKind {
    match parsed
    case Failure(e) => Rejected(e)
    case Success(d) => Parsed(d)
  }

  /** The entry logged for a line the parser rejects; no personalId is known for it. */
  function ParseErrorLine(lineNumber: int, e: ParseError): string {
    "Line " + IntToString(lineNumber) + " - N/A: " + e.Message()
  }

  /** The line a commit attributes to the buffer's first record: the buffer is taken to end at the current line. */
  function BatchStartLine(lineNumber: int, batchLength: int): int {
    lineNumber - batchLength + 1
  }

  /** `processBatch` on the buffer, attributed from `BatchStartLine`, then the buffer is emptied. */
  function Flush(p: Pipeline): (q: Pipeline)
    ensures q.batch == [] && q.lineNumber == p.lineNumber
    ensures q.total == p.total + |p.batch| && q.saved <= p.saved + |p.batch|
  {
    var replay := SaveAll(p.store, p.batch);
    Pipeline(replay.store, [], p.lineNumber,
             p.errors + FailureLines(replay.outcomes, p.batch, BatchStartLine(p.lineNumber, |p.batch|)),
             p.saved + CountOk(replay.outcomes), p.total + |p.batch|)
  }

  /** One iteration of the read loop, given how the line was classified. */
  function StepLine(p: Pipeline, kind: LineKind): Pipeline {
    var n := p.lineNumber + 1;
    match kind
    case Blank => p.(lineNumber := n)
    case Rejected(e) => p.(lineNumber := n, errors := p.errors + [ParseErrorLine(n, e)])
    case Parsed(d) =>
      Buffered(p.(lineNumber := n, batch := p.batch + [d]))
  }

  /** `StepLine` case by case, for callers that know which case they are in. */
  lemma StepLineCases(p: Pipeline, kind: LineKind)
    ensures kind.Blank? ==> StepLine(p, kind) == p.(lineNumber := p.lineNumber + 1)
    ensures kind.Rejected? ==>
              StepLine(p, kind) == p.(lineNumber := p.lineNumber + 1,
                                      errors := p.errors + [ParseErrorLine(p.lineNumber + 1, kind.error)])
    ensures kind.Parsed? ==>
              StepLine(p, kind) == Buffered(Pipeline(p.store, p.batch + [kind.record], p.lineNumber + 1,
                                                     p.errors, p.saved, p.total))
  {
    match kind
    case Blank =>
    case Rejected(e) =>
    case Parsed(d) =>
      assert p.(lineNumber := p.lineNumber + 1, batch := p.batch + [d])
             == Pipeline(p.store, p.batch + [d], p.lineNumber + 1, p.errors, p.saved, p.total);
  }

  /** The buffer after a record was added to it: committed when it holds 100 records. */
  function Buffered(q: Pipeline): Pipeline {
    if |q.batch| >= BatchSize then Flush(q) else q
  }

  /** The classification of every line of the input, in order. */
  function Kinds(lines: seq<string>, validDate: DateParser): (kinds: seq<LineKind>)
    ensures |kinds| == |lines|
    ensures forall i :: 0 <= i < |lines| ==> kinds[i] == Classify(lines[i], validDate)
  {
    seq(|lines|, i requires 0 <= i < |lines| => Classify(lines[i], validDate))
  }

  /** The state after the read loop has consumed lines classified as `kinds`. */
  function Streamed(p: Pipeline, kinds: seq<LineKind>): Pipeline
    decreases |kinds|
  {
    if kinds == [] then p
    else StepLine(Streamed(p, kinds[..|kinds| - 1]), kinds[|kinds| - 1])
  }

  lemma StreamedSnoc(p: Pipeline, kinds: seq<LineKind>, i: nat)
    requires i < |kinds|
    ensures Streamed(p, kinds[..i + 1]) == StepLine(Streamed(p, kinds[..i]), kinds[i])
  {
    assert kinds[..i + 1][..i] == kinds[..i];
  }

  /** The state after the read loop has consumed the first `j` lines. */
  function After(s: Store, kinds: seq<LineKind>, j: nat): Pipeline
    requires j <= |kinds|
  {
    Streamed(Initial(s), kinds[..j])
  }

  /** After the last line: the remaining records, if any, are committed. */
  function Drained(p: Pipeline): (q: Pipeline)
    ensures q.batch == []
  {
    if |p.batch| > 0 then Flush(p) else p
  }

  /** The records the parser produced, in line order: the reference for what gets committed. */
  function ParsedRecords(kinds: seq<LineKind>): (r: seq<PersonData>)
    ensures |r| <= |kinds|
    decreases |kinds|
  {
    if kinds == [] then []
    else
      var init := ParsedRecords(kinds[..|kinds| - 1]);
      match kinds[|kinds| - 1]
      case Parsed(d) => init + [d]
      case _ => init
  }

  /** Number of non-blank lines the parser rejected. */
  function RejectedCount(kinds: seq<LineKind>): (n: nat)
    ensures n + |ParsedRecords(kinds)| <= |kinds|
    decreases |kinds|
  {
    if kinds == [] then 0
    else RejectedCount(kinds[..|kinds| - 1]) + (if kinds[|kinds| - 1].Rejected? then 1 else 0)
  }

  /** What holds of the state at any point: every line was counted; the records parsed so far
      are the committed ones followed by the buffer; the collection and `savedRecords` are those
      of saving the committed records in order; and there is one error per rejected line and per
      failed save. */
  ghost predicate Consistent(p: Pipeline, s: Store, kinds: seq<LineKind>) {
    var recs := ParsedRecords(kinds);
    && p.lineNumber == |kinds|
    && p.total + |p.batch| == |recs|
    && p.batch == recs[p.total..]
    && p.store == SaveAll(s, recs[..p.total]).store
    && p.saved == CountOk(SaveAll(s, recs[..p.total]).outcomes)
    && |p.errors| == RejectedCount(kinds) + (p.total - p.saved)
  }

  /** What holds between two lines: the state is consistent, commits happened in whole batches
      of 100 and the buffer holds fewer. */
  ghost predicate Accounted(p: Pipeline, s: Store, kinds: seq<LineKind>) {
    && Consistent(p, s, kinds)
    && |p.batch| < BatchSize
    && p.total % BatchSize == 0
  }

  /** Committing the buffer after the records before it is saving all of them in order. */
  lemma FlushComposes(p: Pipeline, s: Store, committed: seq<PersonData>)
    requires p.store == SaveAll(s, committed).store
    requires p.saved == CountOk(SaveAll(s, committed).outcomes)
    ensures Flush(p).store == SaveAll(s, committed + p.batch).store
    ensures Flush(p).saved == CountOk(SaveAll(s, committed + p.batch).outcomes)
  {
    var before := SaveAll(s, committed);
    var replay := SaveAll(p.store, p.batch);
    SaveAllAppend(s, committed, p.batch);
    CountOkAppend(before.outcomes, replay.outcomes);
  }

  /** Committing the buffer logs one entry per failed save. */
  lemma FlushErrorCount(p: Pipeline)
    ensures |Flush(p).errors| == |p.errors| + (|p.batch| - CountOk(SaveAll(p.store, p.batch).outcomes))
  {
    FailureLinesCount(SaveAll(p.store, p.batch).outcomes, p.batch, BatchStartLine(p.lineNumber, |p.batch|));
  }

  lemma PrefixPlusRest<T>(s: seq<T>, k: nat)
    requires k <= |s|
    ensures s[..k] + s[k..] == s
  {
  }

  /** Committing the buffer keeps the state consistent. */
  lemma FlushConsistent(p: Pipeline, s: Store, kinds: seq<LineKind>)
    requires Consistent(p, s, kinds)
    ensures Consistent(Flush(p), s, kinds)
  {
    var recs := ParsedRecords(kinds);
    var f := Flush(p);
    assert recs[..p.total] + p.batch == recs by {
      PrefixPlusRest(recs, p.total);
    }
    assert recs[..f.total] == recs && recs[f.total..] == [];
    assert f.store == SaveAll(s, recs).store && f.saved == CountOk(SaveAll(s, recs).outcomes) by {
      FlushComposes(p, s, recs[..p.total]);
    }
    assert |f.errors| == RejectedCount(kinds) + (f.total - f.saved) by {
      FlushErrorCount(p);
    }
  }

  lemma ParsedRecordsSnoc(kinds: seq<LineKind>, kind: LineKind)
    ensures ParsedRecords(kinds + [kind])
            == ParsedRecords(kinds) + (match kind case Parsed(d) => [d] case _ => [])
    ensures RejectedCount(kinds + [kind]) == RejectedCount(kinds) + (if kind.Rejected? then 1 else 0)
  {
    assert (kinds + [kind])[..|kinds|] == kinds;
  }

  /** One line keeps the accounting. */
  lemma StepAccounted(p: Pipeline, s: Store, kinds: seq<LineKind>, kind: LineKind)
    requires Accounted(p, s, kinds)
    ensures Accounted(StepLine(p, kind), s, kinds + [kind])
  {
    match kind
    case Blank => ParsedRecordsSnoc(kinds, kind);
    case Rejected(e) => ParsedRecordsSnoc(kinds, kind);
    case Parsed(d) => StepParsed(p, s, kinds, d);
  }

  /** A parsed record is buffered, and the buffer is committed when that brings it to 100. */
  lemma StepParsed(p: Pipeline, s: Store, kinds: seq<LineKind>, d: PersonData)
    requires Accounted(p, s, kinds)
    ensures Accounted(StepLine(p, Parsed(d)), s, kinds + [Parsed(d)])
  {
    StepLineCases(p, Parsed(d));
    if |p.batch| + 1 >= BatchSize {
      StepFlushes(p, s, kinds, d);
    } else {
      StepBuffers(p, s, kinds, d);
    }
  }

  /** A record that leaves the buffer short of 100 is only buffered. */
  lemma StepBuffers(p: Pipeline, s: Store, kinds: seq<LineKind>, d: PersonData)
    requires Accounted(p, s, kinds) && |p.batch| + 1 < BatchSize
    ensures Accounted(Pipeline(p.store, p.batch + [d], p.lineNumber + 1, p.errors, p.saved, p.total),
                      s, kinds + [Parsed(d)])
  {
    BufferConsistent(p, s, kinds, d);
  }

  /** A record that brings the buffer to 100 commits the whole buffer. */
  lemma StepFlushes(p: Pipeline, s: Store, kinds: seq<LineKind>, d: PersonData)
    requires Accounted(p, s, kinds) && |p.batch| + 1 >= BatchSize
    ensures Accounted(Flush(Pipeline(p.store, p.batch + [d], p.lineNumber + 1, p.errors, p.saved, p.total)),
                      s, kinds + [Parsed(d)])
  {
    var q := Pipeline(p.store, p.batch + [d], p.lineNumber + 1, p.errors, p.saved, p.total);
    assert Consistent(Flush(q), s, kinds + [Parsed(d)]) by {
      BufferConsistent(p, s, kinds, d);
      FlushConsistent(q, s, kinds + [Parsed(d)]);
    }
    assert Flush(q).total == p.total + BatchSize;
    MultipleStep(p.total);
  }

  /** Buffering a parsed record keeps the state consistent. */
  lemma BufferConsistent(p: Pipeline, s: Store, kinds: seq<LineKind>, d: PersonData)
    requires Consistent(p, s, kinds)
    ensures Consistent(Pipeline(p.store, p.batch + [d], p.lineNumber + 1, p.errors, p.saved, p.total),
                       s, kinds + [Parsed(d)])
  {
    ParsedRecordsSnoc(kinds, Parsed(d));
    var recs := ParsedRecords(kinds);
    var recs' := recs + [d];
    assert recs'[..p.total] == recs[..p.total];
    assert recs'[p.total..] == recs[p.total..] + [d];
  }

  lemma MultipleStep(t: nat)
    requires t % BatchSize == 0
    ensures (t + BatchSize) % BatchSize == 0
  {
  }

  lemma {:induction false} StreamedAccounted(s: Store, kinds: seq<LineKind>)
    ensures Accounted(Streamed(Initial(s), kinds), s, kinds)
    decreases |kinds|
  {
    if kinds == [] {
      assert ParsedRecords(kinds)[..0] == [];
    } else {
      var init, last := kinds[..|kinds| - 1], kinds[|kinds| - 1];
      assert init + [last] == kinds;
      assert Streamed(Initial(s), kinds) == StepLine(Streamed(Initial(s), init), last);
      StreamedAccounted(s, init);
      StepAccounted(Streamed(Initial(s), init), s, init, last);
    }
  }

  /** The buffer is committed exactly when a parsed record brings it to 100, and otherwise grows by
      that record; blank and rejected lines leave it alone. */
  lemma FlushExactlyAtCapacity(p: Pipeline, kind: LineKind)
    requires |p.batch| < BatchSize
    ensures var q := StepLine(p, kind);
            match kind
            case Parsed(d) =>
              if |p.batch| + 1 == BatchSize then q == Flush(p.(lineNumber := p.lineNumber + 1, batch := p.batch + [d]))
              else q.batch == p.batch + [d] && q.total == p.total && q.store == p.store
            case _ => q.batch == p.batch && q.total == p.total && q.saved == p.saved && q.store == p.store
  {
    StepLineCases(p, kind);
    if kind.Parsed? {
      var q := Pipeline(p.store, p.batch + [kind.record], p.lineNumber + 1, p.errors, p.saved, p.total);
      assert q == p.(lineNumber := p.lineNumber + 1, batch := p.batch + [kind.record]);
      if |q.batch| < BatchSize {
        assert Buffered(q) == q;
      }
    }
  }

  /** After the whole input: every parsed record has been committed, in line order. */
  lemma DrainedAccounting(s: Store, kinds: seq<LineKind>)
    ensures var q := Drained(Streamed(Initial(s), kinds));
            var recs := ParsedRecords(kinds);
            && q.lineNumber == |kinds|
            && q.total == |recs|
            && q.store == SaveAll(s, recs).store
            && q.saved == CountOk(SaveAll(s, recs).outcomes)
            && q.saved <= q.total
            && |q.errors| == RejectedCount(kinds) + (q.total - q.saved)
  {
    var p := Streamed(Initial(s), kinds);
    StreamedAccounted(s, kinds);
    if |p.batch| > 0 {
      FlushConsistent(p, s, kinds);
    }
    var recs := ParsedRecords(kinds);
    assert recs[..|recs|] == recs;
  }

  lemma PrefixOfAppend<T>(a: seq<T>, b: seq<T>)
    ensures a <= a + b
  {
    assert (a + b)[..|a|] == a;
  }

  lemma PrefixTrans<T>(a: seq<T>, b: seq<T>, c: seq<T>)
    requires a <= b && b <= c
    ensures a <= c
  {
    assert c[..|b|][..|a|] == c[..|a|];
  }

  lemma PrefixMember<T>(x: T, a: seq<T>, b: seq<T>)
    requires x in a && a <= b
    ensures x in b
  {
    var i :| 0 <= i < |a| && a[i] == x;
    assert b[..|a|][i] == b[i];
  }

  /** The line counter counts every line, whatever its kind. */
  lemma {:induction false} StreamedLineNumber(p: Pipeline, kinds: seq<LineKind>)
    ensures Streamed(p, kinds).lineNumber == p.lineNumber + |kinds|
    decreases |kinds|
  {
    if kinds != [] {
      var init := kinds[..|kinds| - 1];
      StreamedLineNumber(p, init);
      StepLineCases(Streamed(p, init), kinds[|kinds| - 1]);
    }
  }

  /** A line only ever appends to the error list. */
  lemma StepErrorsGrow(p: Pipeline, kind: LineKind)
    ensures p.errors <= StepLine(p, kind).errors
  {
    match kind
    case Blank =>
    case Rejected(e) => PrefixOfAppend(p.errors, [ParseErrorLine(p.lineNumber + 1, e)]);
    case Parsed(d) =>
      var q := p.(lineNumber := p.lineNumber + 1, batch := p.batch + [d]);
      if |q.batch| >= BatchSize {
        var replay := SaveAll(q.store, q.batch);
        PrefixOfAppend(q.errors, FailureLines(replay.outcomes, q.batch, BatchStartLine(q.lineNumber, |q.batch|)));
      }
  }

  /** The error list after some of the lines is a prefix of the one after all of them. */
  lemma {:induction false} StreamedErrorsGrow(p: Pipeline, kinds: seq<LineKind>, j: nat)
    requires j <= |kinds|
    ensures Streamed(p, kinds[..j]).errors <= Streamed(p, kinds).errors
    decreases |kinds|
  {
    if j == |kinds| {
      assert kinds[..j] == kinds;
    } else {
      var init := kinds[..|kinds| - 1];
      assert init[..j] == kinds[..j];
      StreamedErrorsGrow(p, init, j);
      StepErrorsGrow(Streamed(p, init), kinds[|kinds| - 1]);
      PrefixTrans(Streamed(p, kinds[..j]).errors, Streamed(p, init).errors, Streamed(p, kinds).errors);
    }
  }

  /** The final commit only appends to the error list. */
  lemma DrainedErrorsGrow(p: Pipeline)
    ensures p.errors <= Drained(p).errors
  {
    if |p.batch| > 0 {
      var replay := SaveAll(p.store, p.batch);
      PrefixOfAppend(p.errors, FailureLines(replay.outcomes, p.batch, BatchStartLine(p.lineNumber, |p.batch|)));
    } else {
      assert Drained(p) == p;
    }
  }

  /** What is logged after the first `j` lines starts the final error list. */
  lemma ErrorsStayLogged(s: Store, kinds: seq<LineKind>, j: nat)
    requires j <= |kinds|
    ensures After(s, kinds, j).errors <= Drained(Streamed(Initial(s), kinds)).errors
  {
    var full := Streamed(Initial(s), kinds);
    StreamedErrorsGrow(Initial(s), kinds, j);
    DrainedErrorsGrow(full);
    PrefixTrans(After(s, kinds, j).errors, full.errors, Drained(full).errors);
  }

  /** An entry logged after the first `j` lines is still in the final error list. */
  lemma StaysLogged(s: Store, kinds: seq<LineKind>, j: nat, x: string)
    requires j <= |kinds| && x in After(s, kinds, j).errors
    ensures x in Drained(Streamed(Initial(s), kinds)).errors
  {
    ErrorsStayLogged(s, kinds, j);
    PrefixMember(x, After(s, kinds, j).errors, Drained(Streamed(Initial(s), kinds)).errors);
  }

  /** A rejected line appends its entry and changes nothing else that is logged. */
  lemma StepRejected(p: Pipeline, e: ParseError, n: int)
    requires n == p.lineNumber + 1
    ensures StepLine(p, Rejected(e)).errors == p.errors + [ParseErrorLine(n, e)]
  {
    StepLineCases(p, Rejected(e));
  }

  /** Line `i + 1`, when rejected, is logged as the line is read. */
  lemma RejectedLineStep(s: Store, kinds: seq<LineKind>, i: nat, e: ParseError)
    requires i < |kinds| && kinds[i] == Rejected(e)
    ensures ParseErrorLine(i + 1, e) in After(s, kinds, i + 1).errors
  {
    var p := After(s, kinds, i);
    StreamedLineNumber(Initial(s), kinds[..i]);
    StreamedSnoc(Initial(s), kinds, i);
    StepRejected(p, e, i + 1);
    assert (p.errors + [ParseErrorLine(i + 1, e)])[|p.errors|] == ParseErrorLine(i + 1, e);
  }

  /** Every line the parser rejects is logged against its own line number: "Line n - N/A: message". */
  lemma RejectedLineLogged(s: Store, kinds: seq<LineKind>, i: nat, e: ParseError)
    requires i < |kinds| && kinds[i] == Rejected(e)
    ensures ParseErrorLine(i + 1, e) in Drained(Streamed(Initial(s), kinds)).errors
  {
    assert ParseErrorLine(i + 1, e) in After(s, kinds, i + 1).errors by { RejectedLineStep(s, kinds, i, e); }
    StaysLogged(s, kinds, i + 1, ParseErrorLine(i + 1, e));
  }

  /** A parsed record that fills the buffer commits it, attributed from `BatchStartLine` at line `n`. */
  lemma StepCommits(p: Pipeline, d: PersonData, n: int)
    requires n == p.lineNumber + 1 && |p.batch| + 1 >= BatchSize
    ensures StepLine(p, Parsed(d)).errors
            == p.errors + FailureLines(SaveAll(p.store, p.batch + [d]).outcomes, p.batch + [d], BatchStartLine(n, |p.batch| + 1))
  {
    StepLineCases(p, Parsed(d));
  }

  /** The commit triggered by line `j + 1` logs the failures of the full buffer as that line is read:
      the state after it is the state before it plus those entries. */
  lemma CommitAtLine(s: Store, kinds: seq<LineKind>, j: nat, d: PersonData)
    requires j < |kinds| && kinds[j] == Parsed(d) && |After(s, kinds, j).batch| + 1 >= BatchSize
    ensures After(s, kinds, j + 1).errors
            == After(s, kinds, j).errors
               + FailureLines(SaveAll(After(s, kinds, j).store, After(s, kinds, j).batch + [d]).outcomes,
                              After(s, kinds, j).batch + [d], BatchStartLine(j + 1, |After(s, kinds, j).batch| + 1))
  {
    var p := After(s, kinds, j);
    assert Streamed(Initial(s), kinds[..j + 1]).errors
           == p.errors + FailureLines(SaveAll(p.store, p.batch + [d]).outcomes, p.batch + [d],
                                      BatchStartLine(j + 1, |p.batch| + 1)) by {
      StreamedLineNumber(Initial(s), kinds[..j]);
      StreamedSnoc(Initial(s), kinds, j);
      StepCommits(p, d, j + 1);
    }
  }

  /** A commit triggered by line `j + 1`, whose record brings the buffer to 100, logs the batch's
      failures, attributed from `BatchStartLine(j + 1, 100)`, right after the entries logged before
      it, and they stay at the head of the final error list. */
  lemma CommittedBatchLogged(s: Store, kinds: seq<LineKind>, j: nat, d: PersonData)
    requires j < |kinds| && kinds[j] == Parsed(d) && |After(s, kinds, j).batch| + 1 >= BatchSize
    ensures After(s, kinds, j).errors
            + FailureLines(SaveAll(After(s, kinds, j).store, After(s, kinds, j).batch + [d]).outcomes,
                           After(s, kinds, j).batch + [d], BatchStartLine(j + 1, |After(s, kinds, j).batch| + 1))
            <= Drained(Streamed(Initial(s), kinds)).errors
  {
    CommitAtLine(s, kinds, j, d);
    ErrorsStayLogged(s, kinds, j + 1);
  }

  lemma MemberOfPrefix<T>(x: T, a: seq<T>, b: seq<T>, c: seq<T>)
    requires x in b && a + b <= c
    ensures x in c
  {
    MemberOfAppend(x, a, b);
    PrefixMember(x, a + b, c);
  }

  /** Every record of such a batch whose save fails has its entry in the final error list. */
  lemma CommittedFailureLogged(s: Store, kinds: seq<LineKind>, j: nat, d: PersonData, k: nat)
    requires j < |kinds| && kinds[j] == Parsed(d) && |After(s, kinds, j).batch| + 1 >= BatchSize
    requires k <= |After(s, kinds, j).batch|
    requires SaveAll(After(s, kinds, j).store, After(s, kinds, j).batch + [d]).outcomes[k].Some?
    ensures CommitErrorLine(BatchStartLine(j + 1, |After(s, kinds, j).batch| + 1) + k, (After(s, kinds, j).batch + [d])[k],
                            SaveAll(After(s, kinds, j).store, After(s, kinds, j).batch + [d]).outcomes[k].value)
            in Drained(Streamed(Initial(s), kinds)).errors
  {
    var p := After(s, kinds, j);
    var batch := p.batch + [d];
    var outcomes := SaveAll(p.store, batch).outcomes;
    var start := BatchStartLine(j + 1, |batch|);
    CommittedBatchLogged(s, kinds, j, d);
    FailureLinesComplete(outcomes, batch, start, k);
    MemberOfPrefix(CommitErrorLine(start + k, batch[k], outcomes[k].value), p.errors, FailureLines(outcomes, batch, start),
                   Drained(Streamed(Initial(s), kinds)).errors);
  }

  lemma MemberOfAppend<T>(x: T, a: seq<T>, b: seq<T>)
    requires x in b
    ensures x in a + b
  {
    var i :| 0 <= i < |b| && b[i] == x;
    assert (a + b)[|a| + i] == x;
  }

  /** The final commit appends the failures of the buffer, attributed from `start`. */
  lemma DrainLogs(p: Pipeline, start: int)
    requires start == BatchStartLine(p.lineNumber, |p.batch|)
    ensures Drained(p).errors == p.errors + FailureLines(SaveAll(p.store, p.batch).outcomes, p.batch, start)
  {
    if p.batch == [] {
      assert FailureLines(SaveAll(p.store, p.batch).outcomes, p.batch, start) == [];
    }
  }

  /** The final commit logs the failures of the last partial batch, attributed from
      `BatchStartLine` at the last line, after every entry logged before it. */
  lemma FinalBatchLogged(s: Store, kinds: seq<LineKind>)
    ensures var p := Streamed(Initial(s), kinds);
            Drained(p).errors
            == p.errors + FailureLines(SaveAll(p.store, p.batch).outcomes, p.batch, BatchStartLine(|kinds|, |p.batch|))
  {
    var p := Streamed(Initial(s), kinds);
    StreamedLineNumber(Initial(s), kinds);
    DrainLogs(p, BatchStartLine(|kinds|, |p.batch|));
  }

  /** A failed record of the buffer has its entry among the errors after the final commit. */
  lemma DrainLogsFailure(p: Pipeline, start: int, k: nat)
    requires start == BatchStartLine(p.lineNumber, |p.batch|)
    requires k < |p.batch| && SaveAll(p.store, p.batch).outcomes[k].Some?
    ensures CommitErrorLine(start + k, p.batch[k], SaveAll(p.store, p.batch).outcomes[k].value) in Drained(p).errors
  {
    var outcomes := SaveAll(p.store, p.batch).outcomes;
    DrainLogs(p, start);
    FailureLinesComplete(outcomes, p.batch, start, k);
    MemberOfAppend(CommitErrorLine(start + k, p.batch[k], outcomes[k].value), p.errors, FailureLines(outcomes, p.batch, start));
  }

  /** Every record of the last partial batch whose save fails has its entry in the final error list. */
  lemma FinalBatchFailureLogged(s: Store, kinds: seq<LineKind>, p: Pipeline, k: nat)
    requires p == Streamed(Initial(s), kinds)
    requires k < |p.batch| && SaveAll(p.store, p.batch).outcomes[k].Some?
    ensures CommitErrorLine(BatchStartLine(|kinds|, |p.batch|) + k, p.batch[k], SaveAll(p.store, p.batch).outcomes[k].value)
            in Drained(p).errors
  {
    StreamedLineNumber(Initial(s), kinds);
    DrainLogsFailure(p, BatchStartLine(|kinds|, |p.batch|), k);
  }

  datatype InputFile = Missing | Readable(lines: seq<string>) | ReadFails(lines: seq<string>, reason: string)

  /** What a run leaves behind: the result's fields, the error log's lines when one is written,
      and the collection. */
  datatype Report = Report(
    success: bool,
    totalRecords: nat,
    savedRecords: nat,
    errorLogPath: Option<string>,
    log: Option<seq<string>>,
    store: Store)

  function NotFoundError(fileLocation: string): string {
    "File not found: " + fileLocation
  }

  function ProcessingError(reason: string): string {
    "File processing error: " + reason
  }

  /** The outcome of `processFile` on `file` against the collection `s`. */
  function ProcessFileSpec(file: InputFile, fileLocation: string, logFilePath: string,
                           validDate: DateParser, s: Store): Report
  {
    match file
    case Missing =>
      Report(false, 0, 0, Some(logFilePath), Some(LogLines([NotFoundError(fileLocation)])), s)
    case Readable(lines) =>
      var q := Drained(Streamed(Initial(s), Kinds(lines, validDate)));
      var logged := |q.errors| > 0;
      Report(q.saved > 0, q.total, q.saved,
             if logged then Some(logFilePath) else None,
             if logged then Some(LogLines(q.errors)) else None,
             q.store)
    case ReadFails(lines, reason) =>
      var p := Streamed(Initial(s), Kinds(lines, validDate));
      Report(false, p.total, p.saved, Some(logFilePath),
             Some(LogLines(p.errors + [ProcessingError(reason)])), p.store)
  }

  /** A missing file: one "File not found" entry, nothing counted, nothing saved, and the log written. */
  lemma MissingFileReport(fileLocation: string, logFilePath: string, validDate: DateParser, s: Store)
    ensures var r := ProcessFileSpec(Missing, fileLocation, logFilePath, validDate, s);
            && !r.success && r.totalRecords == 0 && r.savedRecords == 0
            && r.errorLogPath == Some(logFilePath)
            && r.log.Some? && ReadLog(r.log.value) == Some(["File not found: " + fileLocation])
            && r.store == s
  {
    LogRoundTrip([NotFoundError(fileLocation)]);
  }

  /** A readable file: `totalRecords` counts the lines that parsed, `savedRecords` those of them that
      were saved, the run succeeds exactly when something was saved, and the log is written exactly
      when some line was rejected or some save failed, listing one entry for each. */
  lemma ReadableFileReport(lines: seq<string>, fileLocation: string, logFilePath: string,
                           validDate: DateParser, s: Store)
    ensures var r := ProcessFileSpec(Readable(lines), fileLocation, logFilePath, validDate, s);
            var kinds := Kinds(lines, validDate);
            var recs := ParsedRecords(kinds);
            && r.totalRecords == |recs|
            && r.savedRecords == CountOk(SaveAll(s, recs).outcomes)
            && r.savedRecords <= r.totalRecords
            && r.store == SaveAll(s, recs).store
            && (r.success <==> r.savedRecords > 0)
            && (r.errorLogPath.Some? <==> RejectedCount(kinds) > 0 || r.savedRecords < r.totalRecords)
            && (r.log.Some? <==> r.errorLogPath.Some?)
            && (r.log.Some? ==>
                  ReadLog(r.log.value).Some?
                  && |ReadLog(r.log.value).value| == RejectedCount(kinds) + (r.totalRecords - r.savedRecords))
  {
    var kinds := Kinds(lines, validDate);
    var q := Drained(Streamed(Initial(s), kinds));
    DrainedAccounting(s, kinds);
    LogRoundTrip(q.errors);
  }

  /** A line of a readable file that does not parse always gets the log written, and the log read back
      holds its entry "Line n - N/A: message" under its own line number. */
  lemma RejectedLineInLog(lines: seq<string>, fileLocation: string, logFilePath: string,
                          validDate: DateParser, s: Store, i: nat, e: ParseError)
    requires i < |lines| && Classify(lines[i], validDate) == Rejected(e)
    ensures var r := ProcessFileSpec(Readable(lines), fileLocation, logFilePath, validDate, s);
            && r.errorLogPath == Some(logFilePath)
            && r.log.Some? && ReadLog(r.log.value).Some?
            && ParseErrorLine(i + 1, e) in ReadLog(r.log.value).value
  {
    var kinds := Kinds(lines, validDate);
    assert ParseErrorLine(i + 1, e) in Drained(Streamed(Initial(s), kinds)).errors by {
      RejectedLineLogged(s, kinds, i, e);
    }
    EntryInLog(lines, fileLocation, logFilePath, validDate, s, ParseErrorLine(i + 1, e));
  }

  /** Whatever ends in the final error list of a readable file is written to the log and read back. */
  lemma EntryInLog(lines: seq<string>, fileLocation: string, logFilePath: string,
                   validDate: DateParser, s: Store, x: string)
    requires x in Drained(Streamed(Initial(s), Kinds(lines, validDate))).errors
    ensures var r := ProcessFileSpec(Readable(lines), fileLocation, logFilePath, validDate, s);
            && r.errorLogPath == Some(logFilePath)
            && r.log.Some? && ReadLog(r.log.value).Some?
            && x in ReadLog(r.log.value).value
  {
    LogRoundTrip(Drained(Streamed(Initial(s), Kinds(lines, validDate))).errors);
  }

  /** A read failure drops the buffered records: only whole batches of 100 were committed, the run
      does not succeed, and the failure is the log's last entry. */
  lemma ReadFailureDropsPartialBatch(lines: seq<string>, reason: string, fileLocation: string,
                                     logFilePath: string, validDate: DateParser, s: Store)
    ensures var r := ProcessFileSpec(ReadFails(lines, reason), fileLocation, logFilePath, validDate, s);
            var recs := ParsedRecords(Kinds(lines, validDate));
            && !r.success
            && r.totalRecords % BatchSize == 0
            && r.totalRecords <= |recs| < r.totalRecords + BatchSize
            && r.store == SaveAll(s, recs[..r.totalRecords]).store
            && r.errorLogPath == Some(logFilePath)
            && r.log.Some? && |r.log.value| >= 3
            && r.log.value[|r.log.value| - 1] == "File processing error: " + reason
  {
    StreamedAccounted(s, Kinds(lines, validDate));
  }

  /** Running the same readable file a second time saves nothing: every record that passed the
      schema the first time now collides on its personalId. */
  lemma ReprocessingSavesNothing(lines: seq<string>, fileLocation: string, logFilePath: string,
                                 validDate: DateParser, s: Store)
    requires StoreInvariant(s)
    ensures var first := ProcessFileSpec(Readable(lines), fileLocation, logFilePath, validDate, s);
            var second := ProcessFileSpec(Readable(lines), fileLocation, logFilePath, validDate, first.store);
            second.savedRecords == 0 && !second.success
  {
    var kinds := Kinds(lines, validDate);
    var recs := ParsedRecords(kinds);
    DrainedAccounting(s, kinds);
    DrainedAccounting(SaveAll(s, recs).store, kinds);
    SecondRunSavesNothing(s, recs);
  }

  /** On the second run of a readable file, each parsed record the schema accepts is refused by
      the `personalId` unique index under its own id: the run saves the file's records into what
      the first run left, and record `k`'s outcome there is that duplicate-key error. */
  lemma ReprocessingRefusesEachRecord(lines: seq<string>, fileLocation: string, logFilePath: string,
                                      validDate: DateParser, s: Store, k: nat)
    requires StoreInvariant(s)
    requires var recs := ParsedRecords(Kinds(lines, validDate));
             k < |recs| && Accepts(recs[k]) && recs[k].personalId.Some?
    ensures var recs := ParsedRecords(Kinds(lines, validDate));
            var first := ProcessFileSpec(Readable(lines), fileLocation, logFilePath, validDate, s);
            var second := ProcessFileSpec(Readable(lines), fileLocation, logFilePath, validDate, first.store);
            && second.store == SaveAll(first.store, recs).store
            && SaveAll(first.store, recs).outcomes[k] == Some(DuplicateKey("personalId", recs[k].personalId.value))
  {
    var kinds := Kinds(lines, validDate);
    var recs := ParsedRecords(kinds);
    DrainedAccounting(s, kinds);
    DrainedAccounting(SaveAll(s, recs).store, kinds);
    SecondRunDuplicateKey(s, recs, k);
  }

  /** A readable file whose parsed records the schema accepts, with personalIds new to the
      collection and to one another, is saved in full: every parsed line is saved, the run succeeds
      exactly when some line parsed, and the log is written exactly when some line was rejected. */
  lemma FreshFileAllSaved(lines: seq<string>, fileLocation: string, logFilePath: string,
                          validDate: DateParser, s: Store)
    requires StoreInvariant(s)
    requires FreshIds(s, ParsedRecords(Kinds(lines, validDate)))
    ensures var r := ProcessFileSpec(Readable(lines), fileLocation, logFilePath, validDate, s);
            && r.totalRecords == |ParsedRecords(Kinds(lines, validDate))|
            && r.savedRecords == r.totalRecords
            && (r.success <==> r.totalRecords > 0)
            && (r.errorLogPath.Some? <==> RejectedCount(Kinds(lines, validDate)) > 0)
            && |r.store.people| == |s.people| + r.totalRecords
  {
    ReadableFileReport(lines, fileLocation, logFilePath, validDate, s);
    FreshRecordsAllSaved(s, ParsedRecords(Kinds(lines, validDate)));
  }

  /** The example line `Jane|Doe|1234567890|Activo|2023-01-15|true|false` is a record line whose
      record the schema accepts. */
  lemma ExampleLineAccepted(line: string, validDate: DateParser) returns (d: PersonData)
    requires line == Join(["Jane", "Doe", "1234567890", "Activo", "2023-01-15", "true", "false"], Delimiter)
    requires validDate("2023-01-15")
    ensures d == PersonData(Some("Jane"), Some("Doe"), Some("1234567890"), Some("Activo"),
                            Some(Date("2023-01-15")), Some(true), Some(false))
    ensures Classify(line, validDate) == Parsed(d) && Accepts(d) && d.personalId.Some?
  {
    d := PersonData(Some("Jane"), Some("Doe"), Some("1234567890"), Some("Activo"),
                    Some(Date("2023-01-15")), Some(true), Some(false));
    ExampleLineParses(validDate);
    ClassifyParsed(line, validDate, d);
    ParsedRecordFacts(line, validDate);
    WellFormedAcceptedIffWithinLengths(d, validDate);
  }

  /** A one-line file whose line parses to a record the schema accepts, read into a consistent
      collection that does not hold its personalId, saves that record and writes no log. */
  lemma OneRecordFileSaved(lines: seq<string>, fileLocation: string, logFilePath: string,
                           validDate: DateParser, s: Store, d: PersonData)
    requires StoreInvariant(s)
    requires |lines| == 1 && Classify(lines[0], validDate) == Parsed(d) && Accepts(d)
    requires d.personalId.Some? && !PersonalIdTaken(s, d.personalId.value)
    ensures var r := ProcessFileSpec(Readable(lines), fileLocation, logFilePath, validDate, s);
            && r.totalRecords == 1 && r.savedRecords == 1 && r.success
            && r.errorLogPath.None? && |r.store.people| == |s.people| + 1
  {
    var kinds := Kinds(lines, validDate);
    assert ParsedRecords(kinds) == [d] by {
      assert kinds[..0] == [] && kinds[0] == Parsed(d);
    }
    FreshSingleton(s, d);
    FreshFileAllSaved(lines, fileLocation, logFilePath, validDate, s);
  }

  /** The one-line file `Jane|Doe|1234567890|Activo|2023-01-15|true|false` read into an empty
      collection saves its record and writes no log. */
  lemma ExampleFileSaved(line: string, fileLocation: string, logFilePath: string,
                         validDate: DateParser, s: Store)
    requires line == Join(["Jane", "Doe", "1234567890", "Activo", "2023-01-15", "true", "false"], Delimiter)
    requires s == Store([], 0) && validDate("2023-01-15")
    ensures var r := ProcessFileSpec(Readable([line]), fileLocation, logFilePath, validDate, s);
            && r.totalRecords == 1 && r.savedRecords == 1 && r.success
            && r.errorLogPath.None? && |r.store.people| == 1
  {
    var d := ExampleLineAccepted(line, validDate);
    OneRecordFileSaved([line], fileLocation, logFilePath, validDate, s, d);
  }

  /** A blank line never parses: with no delimiter it has a single field. So the blank-line check
      only saves the parser a rejection, and a line that parses is never blank. */
  lemma BlankLineRejected(line: string, validDate: DateParser)
    ensures Trim(line) == [] ==> ParsePersonLine(line, validDate) == Failure(WrongFieldCount(1))
  {
    if Trim(line) == [] {
      TrimEmptyIffAllSpace(line);
      assert forall i :: 0 <= i < |line| ==> line[i] != Delimiter by {
        forall i | 0 <= i < |line| ensures line[i] != Delimiter {
          assert IsSpace(line[i]);
        }
      }
      SplitOfFree(line, Delimiter);
    }
  }

  /** The parser's outcome decides a line's kind, except that blank lines are skipped first. */
  lemma ClassifyParsed(line: string, validDate: DateParser, d: PersonData)
    ensures Classify(line, validDate) == Parsed(d) <==> ParsePersonLine(line, validDate) == Success(d)
  {
    BlankLineRejected(line, validDate);
  }

  /** Commit errors are attributed from `lineNumber - |batch| + 1`, which assumes the batch's records
      sit on consecutive lines: a record on line 1 followed by a blank line is committed at the end
      of the file and a failed save is reported against line 2. */
  lemma BlankLineShiftsAttribution(d: PersonData, s: Store)
    requires SaveTo(s, d).error.Some?
    ensures Drained(Streamed(Initial(s), [Parsed(d), Blank])).errors
            == [CommitErrorLine(2, d, SaveTo(s, d).error.value)]
  {
    RecordThenBlank(d, s);
    DrainOneFailure(d, s);
  }

  /** A record on line 1 and a blank line 2 leave the record buffered and the line count at 2. */
  lemma RecordThenBlank(d: PersonData, s: Store)
    ensures Streamed(Initial(s), [Parsed(d), Blank]) == Pipeline(s, [d], 2, [], 0, 0)
  {
    var p1 := Pipeline(s, [d], 1, [], 0, 0);
    assert Streamed(Initial(s), [Parsed(d)]) == p1 by {
      assert [Parsed(d)][..0] == [];
      StepLineCases(Initial(s), Parsed(d));
      assert [] + [d] == [d];
    }
    assert [Parsed(d), Blank][..1] == [Parsed(d)];
    StepLineCases(p1, Blank);
  }

  /** Draining a one-record buffer at line 2 whose save fails logs the failure against line 2. */
  lemma DrainOneFailure(d: PersonData, s: Store)
    requires SaveTo(s, d).error.Some?
    ensures Drained(Pipeline(s, [d], 2, [], 0, 0)).errors == [CommitErrorLine(2, d, SaveTo(s, d).error.value)]
  {
    var e := SaveTo(s, d).error;
    assert SaveAll(s, [d]).outcomes == [e] by {
      SaveAllSnoc(s, [], d);
      assert [] + [d] == [d];
    }
    assert BatchStartLine(2, 1) == 2;
    assert FailureLines([e], [d], 2) == [CommitErrorLine(2, d, e.value)] by {
      FailureLinesSnoc([], [], e, d, 2);
      assert [] + [e] == [e] && [] + [d] == [d];
    }
  }

  /** The records parsed from the first `j` lines come first among all the parsed records. */
  lemma {:induction false} ParsedRecordsPrefix(kinds: seq<LineKind>, j: nat)
    requires j <= |kinds|
    ensures ParsedRecords(kinds[..j]) <= ParsedRecords(kinds)
    decreases |kinds|
  {
    if j == |kinds| {
      assert kinds[..j] == kinds;
    } else {
      var init := kinds[..|kinds| - 1];
      assert init[..j] == kinds[..j];
      assert init + [kinds[|kinds| - 1]] == kinds;
      ParsedRecordsPrefix(init, j);
      ParsedRecordsSnoc(init, kinds[|kinds| - 1]);
      PrefixOfAppend(ParsedRecords(init), match kinds[|kinds| - 1] case Parsed(d) => [d] case _ => []);
      PrefixTrans(ParsedRecords(kinds[..j]), ParsedRecords(init), ParsedRecords(kinds));
    }
  }

  /** The record parsed from line `i + 1` is parsed record number `k`, where `k` counts the records
      parsed before it. */
  lemma ParsedRecordAt(kinds: seq<LineKind>, i: nat, d: PersonData)
    requires i < |kinds| && kinds[i] == Parsed(d)
    ensures var k := |ParsedRecords(kinds[..i])|;
            k < |ParsedRecords(kinds)| && ParsedRecords(kinds)[k] == d
  {
    var before := ParsedRecords(kinds[..i]);
    assert kinds[..i] + [kinds[i]] == kinds[..i + 1];
    ParsedRecordsSnoc(kinds[..i], kinds[i]);
    ParsedRecordsPrefix(kinds, i + 1);
    assert ParsedRecords(kinds[..i + 1]) == before + [d];
    assert ParsedRecords(kinds)[|before|] == (before + [d])[|before|];
  }

  /** One failed save among the outcomes leaves the success count short of their number. */
  lemma {:induction false} CountOkBelow(outcomes: seq<Option<SaveError>>, k: nat)
    requires k < |outcomes| && outcomes[k].Some?
    ensures CountOk(outcomes) < |outcomes|
    decreases |outcomes|
  {
    var n := |outcomes| - 1;
    if k < n {
      assert outcomes[..n][k] == outcomes[k];
      CountOkBelow(outcomes[..n], k);
    }
  }

  /** The parser never checks lengths: a line anywhere in the file whose name is over 50 characters
      parses, is committed with its batch, fails the schema on the name path whatever the collection
      holds by then, and so is counted in `totalRecords` but not in `savedRecords`. */
  lemma OverlongNameCountedNotSaved(s: Store, kinds: seq<LineKind>, i: nat, d: PersonData)
    requires i < |kinds| && kinds[i] == Parsed(d)
    requires d.name.Some? && |d.name.value| > NameMaxLength
    ensures var recs := ParsedRecords(kinds);
            var k := |ParsedRecords(kinds[..i])|;
            && k < |recs| && recs[k] == d
            && SaveAll(s, recs).outcomes[k] == Some(ValidationFailed(FailingPaths(d)))
            && NamePath in FailingPaths(d)
    ensures var q := Drained(Streamed(Initial(s), kinds));
            q.saved < q.total && |q.errors| > 0
  {
    var recs := ParsedRecords(kinds);
    var k := |ParsedRecords(kinds[..i])|;
    var outcomes := SaveAll(s, recs).outcomes;
    ParsedRecordAt(kinds, i, d);
    SaveAllOutcomeAt(s, recs, k);
    OverlongNameRefused(SaveAll(s, recs[..k]).store, d);
    CountOkBelow(outcomes, k);
    DrainedAccounting(s, kinds);
  }

  /** A commit inside `processFile`: `processBatch` on the buffer, its records attributed to the lines
      ending at `lineNumber`; the caller then empties the buffer. */
  method CommitBuffer(batch: seq<PersonData>, lineNumber: nat, errors: seq<string>,
                      result: FileProcessResult, people: PeopleCollection)
    returns (errors': seq<string>)
    requires people.Valid()
    modifies result, people
    ensures people.Valid()
    ensures result.success == old(result.success) && result.errorLogPath == old(result.errorLogPath)
    ensures Pipeline(people.Model(), [], lineNumber, errors', result.savedRecords, result.totalRecords)
            == Flush(Pipeline(old(people.Model()), batch, lineNumber, errors,
                              old(result.savedRecords), old(result.totalRecords)))
  {
    errors' := ProcessBatch(batch, result, errors, BatchStartLine(lineNumber, |batch|), people);
  }

  /** One iteration of the read loop of `processFile`: the line is counted, then skipped when blank,
      logged when the parser rejects it, or buffered, the buffer being committed as it reaches 100. */
  method ReadLine(line: string, validDate: DateParser, batch: seq<PersonData>, lineNumber: nat,
                  errors: seq<string>, result: FileProcessResult, people: PeopleCollection)
    returns (batch': seq<PersonData>, lineNumber': nat, errors': seq<string>)
    requires people.Valid()
    modifies result, people
    ensures people.Valid()
    ensures result.success == old(result.success) && result.errorLogPath == old(result.errorLogPath)
    ensures var p := Pipeline(old(people.Model()), batch, lineNumber, errors,
                              old(result.savedRecords), old(result.totalRecords));
            var kind := Classify(line, validDate);
            Pipeline(people.Model(), batch', lineNumber', errors', result.savedRecords, result.totalRecords)
            == StepLine(p, kind)
  {
    batch', lineNumber', errors' := batch, lineNumber + 1, errors;
    if Trim(line) == [] {
      StepLineCases(Pipeline(people.Model(), batch, lineNumber, errors, result.savedRecords, result.totalRecords),
                    Blank);
      return;
    }
    var parsed := ParsePersonLine(line, validDate);
    batch', errors' := HandleParsed(parsed, batch, lineNumber', errors, result, people);
  }

  /** What the read loop does with the parser's verdict on a non-blank line: log the rejection, or
      buffer the record. `lineNumber` is the number of the line, already counted. */
  method HandleParsed(parsed: Result<PersonData, ParseError>, batch: seq<PersonData>, lineNumber: nat,
                      errors: seq<string>, result: FileProcessResult, people: PeopleCollection)
    returns (batch': seq<PersonData>, errors': seq<string>)
    requires people.Valid() && lineNumber >= 1
    modifies result, people
    ensures people.Valid()
    ensures result.success == old(result.success) && result.errorLogPath == old(result.errorLogPath)
    ensures Pipeline(people.Model(), batch', lineNumber, errors', result.savedRecords, result.totalRecords)
            == StepLine(Pipeline(old(people.Model()), batch, lineNumber - 1, errors,
                                 old(result.savedRecords), old(result.totalRecords)),
                        KindOf(parsed))
  {
    ghost var p := Pipeline(people.Model(), batch, lineNumber - 1, errors, result.savedRecords, result.totalRecords);
    match parsed {
      case Failure(e) =>
        StepLineCases(p, Rejected(e));
        batch', errors' := batch, errors + [ParseErrorLine(lineNumber, e)];
      case Success(personData) =>
        StepLineCases(p, Parsed(personData));
        batch', errors' := BufferRecord(personData, batch, lineNumber, errors, result, people);
    }
  }

  /** The parsed-record branch of the read loop: the record joins the buffer, which is committed
      and emptied once it holds 100 records. */
  method BufferRecord(personData: PersonData, batch: seq<PersonData>, lineNumber: nat, errors: seq<string>,
                      result: FileProcessResult, people: PeopleCollection)
    returns (batch': seq<PersonData>, errors': seq<string>)
    requires people.Valid()
    modifies result, people
    ensures people.Valid()
    ensures result.success == old(result.success) && result.errorLogPath == old(result.errorLogPath)
    ensures Pipeline(people.Model(), batch', lineNumber, errors', result.savedRecords, result.totalRecords)
            == Buffered(Pipeline(old(people.Model()), batch + [personData], lineNumber, errors,
                                 old(result.savedRecords), old(result.totalRecords)))
  {
    batch', errors' := batch + [personData], errors;
    if |batch'| >= BatchSize {
      errors' := CommitBuffer(batch', lineNumber, errors', result, people);
      batch' := [];
    }
  }

  /** The read loop of `processFile` over every line of the input. */
  method ReadLines(lines: seq<string>, validDate: DateParser, result: FileProcessResult,
                   people: PeopleCollection)
    returns (batch: seq<PersonData>, lineNumber: nat, errors: seq<string>)
    requires people.Valid()
    requires result.savedRecords == 0 && result.totalRecords == 0
    modifies result, people
    ensures people.Valid()
    ensures result.success == old(result.success) && result.errorLogPath == old(result.errorLogPath)
    ensures Pipeline(people.Model(), batch, lineNumber, errors, result.savedRecords, result.totalRecords)
            == Streamed(Initial(old(people.Model())), Kinds(lines, validDate))
  {
    ghost var s0 := people.Model();
    ghost var kinds := Kinds(lines, validDate);
    batch, lineNumber, errors := [], 0, [];
    assert kinds[..0] == [];
    for i := 0 to |lines|
      invariant people.Valid()
      invariant result.success == old(result.success) && result.errorLogPath == old(result.errorLogPath)
      invariant Pipeline(people.Model(), batch, lineNumber, errors, result.savedRecords, result.totalRecords)
                == Streamed(Initial(s0), kinds[..i])
    {
      StreamedSnoc(Initial(s0), kinds, i);
      batch, lineNumber, errors := ReadLine(lines[i], validDate, batch, lineNumber, errors, result, people);
    }
    assert kinds[..|lines|] == kinds;
  }

  /** `processFile`: the file-not-found path, the read loop, the outer catch for a failing read
      stream, and the final commit, log and success flag. The log is returned as the lines
      written, or `None` when no log was written. */
  method ProcessFile(file: InputFile, fileLocation: string, logFilePath: string,
                     validDate: DateParser, people: PeopleCollection)
    returns (result: FileProcessResult, log: Option<seq<string>>)
    requires people.Valid()
    modifies people
    ensures people.Valid() && fresh(result)
    ensures Report(result.success, result.totalRecords, result.savedRecords, result.errorLogPath, log, people.Model())
            == ProcessFileSpec(file, fileLocation, logFilePath, validDate, old(people.Model()))
  {
    ghost var s0 := people.Model();
    ghost var spec := ProcessFileSpec(file, fileLocation, logFilePath, validDate, s0);
    result := new FileProcessResult();
    log := None;

    if file.Missing? {
      var errors := [NotFoundError(fileLocation)];
      var written := WriteErrorsToLog(errors);
      log := Some(written);
      result.errorLogPath := Some(logFilePath);
      assert spec == Report(false, 0, 0, Some(logFilePath), Some(LogLines(errors)), s0);
      return;
    }

    ghost var p := Streamed(Initial(s0), Kinds(file.lines, validDate));
    var batch, lineNumber, errors := ReadLines(file.lines, validDate, result, people);

    if file.ReadFails? {
      errors := errors + [ProcessingError(file.reason)];
      var written := WriteErrorsToLog(errors);
      log := Some(written);
      result.errorLogPath := Some(logFilePath);
      assert spec == Report(false, p.total, p.saved, Some(logFilePath), Some(LogLines(errors)), p.store);
      return;
    }

    if |batch| > 0 {
      errors := CommitBuffer(batch, lineNumber, errors, result, people);
      batch := [];
    }
    ghost var q := Drained(p);
    assert Pipeline(people.Model(), batch, lineNumber, errors, result.savedRecords, result.totalRecords) == q;

    if |errors| > 0 {
      var written := WriteErrorsToLog(errors);
      log := Some(written);
      result.errorLogPath := Some(logFilePath);
    }
    assert spec == Report(q.saved > 0, q.total, q.saved, result.errorLogPath, log, q.store);

    result.success := result.savedRecords > 0;
  }
}
