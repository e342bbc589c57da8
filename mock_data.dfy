/**
 The sample data the workflow pages start from, and what the pages' rules
 make of it: ten proposed mappings (seven of them required, none mapped yet)
 and a validation report of three blockers, three warnings and two infos.
 */
module MockData {
  import opened Wrappers
  import opened CmmoTypes
  import FieldMappingPage
  import ValidationPage
  import opened Seqs

  const MOCK_FIELD_MAPPINGS: seq<FieldMapping> := [
    FieldMapping("Sample_Name", "Specimen_ID", 0.95, true, false),
    FieldMapping("Block_Number", "Block_ID", 0.88, true, false),
    FieldMapping("Slide_Barcode", "Slide_ID", 0.98, true, false),
    FieldMapping("ROI", "ROI_ID", 0.92, true, false),
    FieldMapping("Library_Name", "Library_ID", 0.85, true, false),
    FieldMapping("Sequencing_Run", "Run_ID", 0.90, true, false),
    FieldMapping("Tissue_Type", "Tissue_Type", 0.99, false, false),
    FieldMapping("Collection_Date", "Collection_Date", 0.87, false, false),
    FieldMapping("Platform", "Platform", 0.94, true, false),
    FieldMapping("Chemistry_Version", "Kit_Version", 0.72, false, false)
  ]

  const MOCK_VALIDATION_ISSUES: seq<ValidationIssue> := [
    ValidationIssue("B001", Blocker, "REF_INTEGRITY_001",
      "Slide_ID \"SLD-2024-0042\" referenced in ROI table does not exist in Slide table",
      Some(127), Some("Slide_ID"), Some("SLD-2024-0042"), Some("Create missing Slide record or correct Slide_ID reference")),
    ValidationIssue("B002", Blocker, "REQUIRED_FIELD_002", "Required field \"Block_ID\" is empty",
      Some(89), Some("Block_ID"), Some(""), Some("Provide valid Block_ID value")),
    ValidationIssue("B003", Blocker, "FORMAT_003", "Slide barcode format invalid - expected pattern: SLD-YYYY-####",
      Some(203), Some("Slide_ID"), Some("SLIDE_042"), Some("Reformat to: SLD-2024-0042")),
    ValidationIssue("W001", Warning, "ENUM_VALIDATION_001",
      "Tissue_Type value \"FFPE Tumor\" not in canonical enum - using synonym mapping",
      Some(45), Some("Tissue_Type"), Some("FFPE Tumor"), Some("Will normalize to: \"FFPE_Tumor\"")),
    ValidationIssue("W002", Warning, "DATE_FORMAT_002", "Date format inconsistent - found MM/DD/YYYY, expected ISO-8601",
      Some(156), Some("Collection_Date"), Some("03/15/2024"), Some("Will normalize to: 2024-03-15")),
    ValidationIssue("W003", Warning, "WHITESPACE_001", "Leading/trailing whitespace detected",
      Some(78), Some("Library_ID"), Some(" LIB-2024-001 "), Some("Will trim to: \"LIB-2024-001\"")),
    ValidationIssue("I001", Info, "OPTIONAL_FIELD_001", "Optional field \"Notes\" is empty - this is acceptable",
      Some(12), Some("Notes"), Some(""), None),
    ValidationIssue("I002", Info, "CASE_NORMALIZATION_001", "Platform name will be normalized to canonical case",
      Some(234), Some("Platform"), Some("cosmx"), Some("Will normalize to: \"CosMx\""))
  ]

  /** The sample mappings: 10 in all, 7 required and 3 optional, none mapped, so the step cannot be left. */
  lemma MockMappingSummary()
    ensures |MOCK_FIELD_MAPPINGS| == 10
    ensures FieldMappingPage.RequiredCount(MOCK_FIELD_MAPPINGS) == 7
    ensures FieldMappingPage.OptionalCount(MOCK_FIELD_MAPPINGS) == 3
    ensures FieldMappingPage.MappedCount(MOCK_FIELD_MAPPINGS) == 0
    ensures FieldMappingPage.UnmappedRequired(MOCK_FIELD_MAPPINGS) == 7
    ensures !FieldMappingPage.CanProgress(MOCK_FIELD_MAPPINGS)
  {
    MockRequired();
    MockOptional();
    MockNoneMapped();
    MockUnmappedRequired();
  }

  lemma MockRequired()
    ensures FieldMappingPage.RequiredCount(MOCK_FIELD_MAPPINGS) == 7
  {
  }

  lemma MockOptional()
    ensures FieldMappingPage.OptionalCount(MOCK_FIELD_MAPPINGS) == 3
  {
  }

  lemma MockNoneMapped()
    ensures FieldMappingPage.MappedCount(MOCK_FIELD_MAPPINGS) == 0
  {
  }

  lemma MockUnmappedRequired()
    ensures FieldMappingPage.UnmappedRequired(MOCK_FIELD_MAPPINGS) == 7
  {
  }

  /** The sample report holds three blockers, then three warnings, then two infos. */
  lemma MockIssueSeverities()
    ensures |MOCK_VALIDATION_ISSUES| == 8
    ensures forall i :: 0 <= i < 3 ==> MOCK_VALIDATION_ISSUES[i].severity == Blocker
    ensures forall i :: 3 <= i < 6 ==> MOCK_VALIDATION_ISSUES[i].severity == Warning
    ensures forall i :: 6 <= i < 8 ==> MOCK_VALIDATION_ISSUES[i].severity == Info
  {
  }

  /** The sample report has blockers, so export is refused and only the report and a re-upload are offered. */
  lemma MockIssuesSummary()
    ensures !ValidationPage.CanExport(MOCK_VALIDATION_ISSUES)
    ensures ValidationPage.OfferedActions(MOCK_VALIDATION_ISSUES)
            == {ValidationPage.DownloadReport, ValidationPage.Reupload}
  {
    MockIssueCounts();
    ValidationPage.OfferedActionsFollowGate(MOCK_VALIDATION_ISSUES);
  }

  /** The sample report holds three blockers, three warnings and two infos. */
  lemma MockIssueCounts()
    ensures |ValidationPage.Blockers(MOCK_VALIDATION_ISSUES)| == 3
    ensures |ValidationPage.Warnings(MOCK_VALIDATION_ISSUES)| == 3
    ensures |ValidationPage.Infos(MOCK_VALIDATION_ISSUES)| == 2
  {
    MockIssueSeverities();
    LayoutCounts(MOCK_VALIDATION_ISSUES);
  }

  /** A report of three blockers, then three warnings, then two infos, split by severity. */
  lemma LayoutCounts(s: seq<ValidationIssue>)
    requires |s| == 8
    requires forall i :: 0 <= i < 3 ==> s[i].severity == Blocker
    requires forall i :: 3 <= i < 6 ==> s[i].severity == Warning
    requires forall i :: 6 <= i < 8 ==> s[i].severity == Info
    ensures |ValidationPage.Blockers(s)| == 3 && |ValidationPage.Warnings(s)| == 3 && |ValidationPage.Infos(s)| == 2
  {
    var b, w, n := s[..3], s[3..6], s[6..];
    assert s == b + w + n;
    FilterConcat(b + w, n, ValidationPage.IsBlocker);
    FilterConcat(b, w, ValidationPage.IsBlocker);
    FilterConcat(b + w, n, ValidationPage.IsWarning);
    FilterConcat(b, w, ValidationPage.IsWarning);
    FilterConcat(b + w, n, ValidationPage.IsInfo);
    FilterConcat(b, w, ValidationPage.IsInfo);
    FilterKeepsAll(b, ValidationPage.IsBlocker);
    FilterEmptyIff(w, ValidationPage.IsBlocker);
    FilterEmptyIff(n, ValidationPage.IsBlocker);
    FilterEmptyIff(b, ValidationPage.IsWarning);
    FilterKeepsAll(w, ValidationPage.IsWarning);
    FilterEmptyIff(n, ValidationPage.IsWarning);
    FilterEmptyIff(b, ValidationPage.IsInfo);
    FilterEmptyIff(w, ValidationPage.IsInfo);
    FilterKeepsAll(n, ValidationPage.IsInfo);
  }
}
