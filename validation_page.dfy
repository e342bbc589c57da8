/**
 The validation step of the workflow: the reported issues are split by
 severity into blockers, warnings and infos, and the way on to the export
 step is offered only when there is no blocker.
 */
module ValidationPage {
  import opened Seqs
  import opened CmmoTypes

  predicate IsBlocker(i: ValidationIssue) { i.severity == Blocker }
  predicate IsWarning(i: ValidationIssue) { i.severity == Warning }
  predicate IsInfo(i: ValidationIssue) { i.severity == Info }

  function Blockers(issues: seq<ValidationIssue>): seq<ValidationIssue> { Filter(issues, IsBlocker) }
  function Warnings(issues: seq<ValidationIssue>): seq<ValidationIssue> { Filter(issues, IsWarning) }
  function Infos(issues: seq<ValidationIssue>): seq<ValidationIssue> { Filter(issues, IsInfo) }

  /** Export may go ahead. */
  predicate CanExport(issues: seq<ValidationIssue>)
  {
    |Blockers(issues)| == 0
  }

  /** The buttons of the "Fix & Re-upload" panel. */
  datatype Action = DownloadReport | Reupload | ContinueToExport

  /** The panel offers the report and a re-upload while there are blockers, and the export otherwise. */
  function OfferedActions(issues: seq<ValidationIssue>): set<Action>
  {
    if |Blockers(issues)| > 0 then {DownloadReport, Reupload} else {ContinueToExport}
  }

  /** Each list holds exactly the issues of its severity, in report order. */
  lemma SeverityListsAreExact(issues: seq<ValidationIssue>)
    ensures IsSubsequence(Blockers(issues), issues)
    ensures IsSubsequence(Warnings(issues), issues)
    ensures IsSubsequence(Infos(issues), issues)
    ensures forall x :: x in Blockers(issues) <==> x in issues && x.severity == Blocker
    ensures forall x :: x in Warnings(issues) <==> x in issues && x.severity == Warning
    ensures forall x :: x in Infos(issues) <==> x in issues && x.severity == Info
  {
    FilterIsSubsequence(issues, IsBlocker);
    FilterIsSubsequence(issues, IsWarning);
    FilterIsSubsequence(issues, IsInfo);
    forall x
      ensures x in Blockers(issues) <==> x in issues && x.severity == Blocker
      ensures x in Warnings(issues) <==> x in issues && x.severity == Warning
      ensures x in Infos(issues) <==> x in issues && x.severity == Info
    {
      FilterMembership(issues, IsBlocker, x);
      FilterMembership(issues, IsWarning, x);
      FilterMembership(issues, IsInfo, x);
    }
  }

  /** Every issue lands in exactly one of the three lists. */
  lemma ExactlyOneList(issues: seq<ValidationIssue>, x: ValidationIssue)
    requires x in issues
    ensures x in Blockers(issues) || x in Warnings(issues) || x in Infos(issues)
    ensures !(x in Blockers(issues) && x in Warnings(issues))
    ensures !(x in Blockers(issues) && x in Infos(issues))
    ensures !(x in Warnings(issues) && x in Infos(issues))
  {
    SeverityListsAreExact(issues);
  }

  /** The three lists partition the issues: their sizes add up and, together, they hold every issue once. */
  lemma {:induction false} SeverityPartition(issues: seq<ValidationIssue>)
    ensures |Blockers(issues)| + |Warnings(issues)| + |Infos(issues)| == |issues|
    ensures multiset(Blockers(issues)) + multiset(Warnings(issues)) + multiset(Infos(issues)) == multiset(issues)
  {
    if issues != [] {
      var x, rest := issues[0], issues[1..];
      SeverityPartition(rest);
      assert issues == [x] + rest;
      SeverityStep(x, rest);
    }
  }

  /** Putting one issue in front of a report puts it in front of the list of its severity only. */
  lemma SeverityStep(x: ValidationIssue, rest: seq<ValidationIssue>)
    ensures var s := [x] + rest;
            |Blockers(s)| + |Warnings(s)| + |Infos(s)| == |Blockers(rest)| + |Warnings(rest)| + |Infos(rest)| + 1
    ensures var s := [x] + rest;
            multiset(Blockers(s)) + multiset(Warnings(s)) + multiset(Infos(s))
              == multiset{x} + multiset(Blockers(rest)) + multiset(Warnings(rest)) + multiset(Infos(rest))
  {
    var s := [x] + rest;
    assert s[0] == x && s[1..] == rest;
    match x.severity
    case Blocker =>
      assert Blockers(s) == [x] + Blockers(rest);
      assert Warnings(s) == Warnings(rest) && Infos(s) == Infos(rest);
    case Warning =>
      assert Warnings(s) == [x] + Warnings(rest);
      assert Blockers(s) == Blockers(rest) && Infos(s) == Infos(rest);
    case Info =>
      assert Infos(s) == [x] + Infos(rest);
      assert Blockers(s) == Blockers(rest) && Warnings(s) == Warnings(rest);
  }

  /** Export is allowed exactly when no issue is a blocker. */
  lemma CanExportIff(issues: seq<ValidationIssue>)
    ensures CanExport(issues) <==> forall i :: 0 <= i < |issues| ==> issues[i].severity != Blocker
  {
    FilterEmptyIff(issues, IsBlocker);
  }

  /** Adding or removing an issue that is not a blocker, anywhere in the list, never changes whether export is allowed. */
  lemma NonBlockerKeepsGate(before: seq<ValidationIssue>, x: ValidationIssue, after: seq<ValidationIssue>)
    requires x.severity != Blocker
    ensures CanExport(before + [x] + after) == CanExport(before + after)
    ensures Blockers(before + [x] + after) == Blockers(before + after)
  {
    FilterConcat(before + [x], after, IsBlocker);
    FilterAppend(before, x, IsBlocker);
    FilterConcat(before, after, IsBlocker);
  }

  /** The way on to the export step is offered exactly when export is allowed; otherwise only the report and a re-upload are. */
  lemma OfferedActionsFollowGate(issues: seq<ValidationIssue>)
    ensures ContinueToExport in OfferedActions(issues) <==> CanExport(issues)
    ensures !CanExport(issues) ==> OfferedActions(issues) == {DownloadReport, Reupload}
    ensures CanExport(issues) ==> DownloadReport !in OfferedActions(issues) && Reupload !in OfferedActions(issues)
  {
  }
}
