/**
 The bookkeeping of the validation service: the errors found for a run are
 counted by severity, the run passes when there is no blocker, and the
 result record carries the errors together with the counts and the status.
 Severity is a free string here; only the exact spellings "Blocker",
 "Warning" and "Info" are counted.
 */
module ValidationService {
  import opened Seqs

  /** One rule violation, located by file, row and column. */
  datatype ValidationError = ValidationError(
    fileId: string,
    rowIndex: int,
    columnName: string,
    severity: string,
    ruleId: string,
    description: string)

  /**
   The outcome of validating a run, as the service builds it: the run id is
   the one it was asked about, and the record has no database id yet. The
   same result as stored and loaded back by the export service is
   `ExportService.StoredValidation`, which adds the database id and holds
   both ids as stored values.
   */
  datatype ValidationResult = ValidationResult(
    runId: string,
    status: string,
    blockerCount: nat,
    warningCount: nat,
    infoCount: nat,
    errors: seq<ValidationError>)

  const BLOCKER: string := "Blocker"
  const WARNING: string := "Warning"
  const INFO: string := "Info"
  const KNOWN_SEVERITIES: set<string> := {BLOCKER, WARNING, INFO}

  function HasSeverity(severity: string): ValidationError -> bool
  {
    (e: ValidationError) => e.severity == severity
  }

  predicate HasUnknownSeverity(e: ValidationError)
  {
    e.severity !in KNOWN_SEVERITIES
  }

  /** The number of errors whose severity is exactly `severity`. */
  function SeverityCount(errors: seq<ValidationError>, severity: string): nat
  {
    Count(errors, HasSeverity(severity))
  }

  function Status(blockerCount: nat): string
  {
    if blockerCount == 0 then "passed" else "failed"
  }

  /** The result record for the errors found in a run. */
  function Summarize(runId: string, errors: seq<ValidationError>): (r: ValidationResult)
    ensures r.runId == runId && r.errors == errors
    ensures r.blockerCount == SeverityCount(errors, BLOCKER)
    ensures r.warningCount == SeverityCount(errors, WARNING)
    ensures r.infoCount == SeverityCount(errors, INFO)
    ensures r.status in {"passed", "failed"}
    ensures r.status == "passed" <==> r.blockerCount == 0
  {
    var blockers := SeverityCount(errors, BLOCKER);
    ValidationResult(
      runId,
      Status(blockers),
      blockers,
      SeverityCount(errors, WARNING),
      SeverityCount(errors, INFO),
      errors)
  }

  /** Validation of a run as the service stands: no rule is applied, so no error is ever found. */
  function ValidateRun(runId: string): (r: ValidationResult)
    ensures r.errors == [] && r.runId == runId
    ensures r.blockerCount == 0 && r.warningCount == 0 && r.infoCount == 0
    ensures r.status == "passed"
  {
    Summarize(runId, [])
  }

  /** An error record built from its parts. */
  function CreateError(fileId: string, rowIndex: int, columnName: string, severity: string, ruleId: string, description: string): (e: ValidationError)
    ensures e.fileId == fileId && e.rowIndex == rowIndex && e.columnName == columnName
    ensures e.severity == severity && e.ruleId == ruleId && e.description == description
  {
    ValidationError(fileId, rowIndex, columnName, severity, ruleId, description)
  }

  /** A severity count is the number of positions holding an error of exactly that severity. */
  lemma SeverityCountIsPositions(errors: seq<ValidationError>, severity: string)
    ensures SeverityCount(errors, severity) == |set i | 0 <= i < |errors| && errors[i].severity == severity|
  {
    var p := HasSeverity(severity);
    CountIsFilterLength(errors, p);
    FilterLengthIsIndexCount(errors, p);
    assert Positions(errors, p) == set i | 0 <= i < |errors| && errors[i].severity == severity;
  }

  /** Every error is counted under its known severity or is of an unknown one. */
  lemma {:induction false} SeverityTally(errors: seq<ValidationError>)
    ensures SeverityCount(errors, BLOCKER) + SeverityCount(errors, WARNING) + SeverityCount(errors, INFO)
            + Count(errors, HasUnknownSeverity) == |errors|
  {
    if errors != [] {
      SeverityTally(errors[1..]);
    }
  }

  /**
   The three counts never exceed the number of errors, and they add up to it
   exactly when every severity is one of the three known spellings.
   */
  lemma CountsBoundedByErrors(runId: string, errors: seq<ValidationError>)
    ensures var r := Summarize(runId, errors);
            r.blockerCount + r.warningCount + r.infoCount <= |errors|
    ensures var r := Summarize(runId, errors);
            (r.blockerCount + r.warningCount + r.infoCount == |errors|
             <==> forall i :: 0 <= i < |errors| ==> errors[i].severity in KNOWN_SEVERITIES)
  {
    SeverityTally(errors);
    CountZeroIff(errors, HasUnknownSeverity);
  }

  /** A run fails exactly when some error is a blocker. */
  lemma StatusFailedIff(runId: string, errors: seq<ValidationError>)
    ensures Summarize(runId, errors).status == "failed" <==> exists i :: 0 <= i < |errors| && errors[i].severity == BLOCKER
  {
    CountZeroIff(errors, HasSeverity(BLOCKER));
  }

  /** Adding an error that is not a blocker never changes the status. */
  lemma NonBlockerKeepsStatus(runId: string, errors: seq<ValidationError>, e: ValidationError)
    requires e.severity != BLOCKER
    ensures Summarize(runId, errors + [e]).status == Summarize(runId, errors).status
    ensures Summarize(runId, errors + [e]).blockerCount == Summarize(runId, errors).blockerCount
  {
    CountAppend(errors, e, HasSeverity(BLOCKER));
  }

  /** An error of any other severity spelling (such as "blocker") is counted nowhere and never fails the run. */
  lemma UnknownSeverityIgnored(runId: string, errors: seq<ValidationError>, e: ValidationError)
    requires e.severity !in KNOWN_SEVERITIES
    ensures var before, after := Summarize(runId, errors), Summarize(runId, errors + [e]);
            after.blockerCount == before.blockerCount && after.warningCount == before.warningCount &&
            after.infoCount == before.infoCount && after.status == before.status
  {
    CountAppend(errors, e, HasSeverity(BLOCKER));
    CountAppend(errors, e, HasSeverity(WARNING));
    CountAppend(errors, e, HasSeverity(INFO));
  }

  /** An error created with severity "Blocker" adds one blocker and fails the run. */
  lemma CreatedBlockerFailsRun(runId: string, errors: seq<ValidationError>,
                               fileId: string, rowIndex: int, columnName: string, ruleId: string, description: string)
    ensures var r := Summarize(runId, errors + [CreateError(fileId, rowIndex, columnName, BLOCKER, ruleId, description)]);
            r.blockerCount == Summarize(runId, errors).blockerCount + 1 && r.status == "failed"
  {
    CountAppend(errors, CreateError(fileId, rowIndex, columnName, BLOCKER, ruleId, description), HasSeverity(BLOCKER));
  }
}
