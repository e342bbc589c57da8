/**
 The records the workflow pages display: field mappings proposed for an
 uploaded metadata file and the issues the validation step reports.
 */
module CmmoTypes {
  import opened Wrappers

  /** How serious a validation issue is; only blockers stop the export. */
  datatype SeverityLevel = Blocker | Warning | Info

  /** One issue of the validation report; the location fields are optional. */
  datatype ValidationIssue = ValidationIssue(
    id: string,
    severity: SeverityLevel,
    rule: string,
    message: string,
    row: Option<int>,
    column: Option<string>,
    value: Option<string>,
    suggestion: Option<string>)

  /** A proposed binding of a column of the uploaded file to a canonical schema field. */
  datatype FieldMapping = FieldMapping(
    sourceField: string,
    targetField: string,
    confidence: real,
    required: bool,
    mapped: bool)
}
