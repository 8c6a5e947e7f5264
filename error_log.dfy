/**
  The content `writeErrorsToLog` (data-reader/src/services/fileProcess.ts)
  writes: a header with the number of errors, a blank line, then every error
  on its own line in the order it was collected. The header's first line
  carries a clock timestamp and is not part of this model.
 */
module ErrorLog {
  import opened Wrappers
  import opened Text

  const CountPrefix: string := "Total Errors: "

  /** The log's lines. */
  function LogLines(errors: seq<string>): seq<string> {
    [CountPrefix + NatToString(|errors|), ""] + errors
  }

  /** Reads a log back: the errors it lists, provided its count line is a canonical numeral equal to
      the number of entries after the blank line. */
  function ReadLog(log: seq<string>): (r: Option<seq<string>>)
    ensures r.Some? ==> |r.value| == |log| - 2 && r.value == log[2..]
  {
    if |log| < 2 || log[1] != "" || |log[0]| <= |CountPrefix| || log[0][..|CountPrefix|] != CountPrefix then None
    else
      var numeral := log[0][|CountPrefix|..];
      if CanonicalNumeral(numeral) && DecimalValue(numeral) == |log| - 2 then Some(log[2..]) else None
  }

  /** The count line states how many errors follow, and they follow unchanged: reading a log back
      gives exactly the errors that were written. */
  lemma LogRoundTrip(errors: seq<string>)
    ensures ReadLog(LogLines(errors)) == Some(errors)
  {
    var log := LogLines(errors);
    assert log[0][..|CountPrefix|] == CountPrefix;
    assert log[0][|CountPrefix|..] == NatToString(|errors|);
    assert CanonicalNumeral(NatToString(|errors|));
    DecimalRoundTrip(|errors|);
    assert log[2..] == errors;
  }

  /** Any log that reads back to `errors` is the one written for them. */
  lemma ReadLogOnlyWritten(log: seq<string>, errors: seq<string>)
    requires ReadLog(log) == Some(errors)
    ensures log == LogLines(errors)
  {
    var numeral := log[0][|CountPrefix|..];
    CanonicalRoundTrip(numeral);
    assert log[0] == log[0][..|CountPrefix|] + numeral;
    assert log == [log[0], log[1]] + log[2..];
  }

  /** `writeErrorsToLog`: writes the header, then each error in turn. */
  method WriteErrorsToLog(errors: seq<string>) returns (log: seq<string>)
    ensures log == LogLines(errors)
    ensures ReadLog(log) == Some(errors)
  {
    var header := [CountPrefix + NatToString(|errors|), ""];
    log := header;
    for i := 0 to |errors|
      invariant log == header + errors[..i]
    {
      log := log + [errors[i]];
    }
    assert errors[..|errors|] == errors;
    LogRoundTrip(errors);
  }
}
