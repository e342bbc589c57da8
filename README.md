# Metadata curation workflow: mapping, validation and export rules

This project models the decision logic of a metadata curation workflow.
A spreadsheet's columns are mapped to a canonical schema. The mapped data
is validated, and a validated run is exported as a bundle. The model
covers four pieces:

- **Field-mapping page** (`field_mapping_page.dfy`). The proposed column-to-field
  mappings, the case-insensitive search that narrows the displayed list, the
  count of required fields still unmapped (which gates the step), the summary
  counts, and the toggle handler that flips one mapping's `mapped` flag.
- **Validation page** (`validation_page.dfy`). The issue list splits into blockers,
  warnings and infos. Export is allowed only without blockers, and the panel
  offers either "download report / re-upload" or "continue to export".
- **Validation service** (`validation_service.dfy`). Errors are counted by the exact
  severity spellings "Blocker", "Warning" and "Info". A run passes when it has no
  blocker. The run validation as it stands applies no rule, so it finds no error.
  Error records are built by a constructor helper.
- **Export service** (`export_service.dfy`). Entities are grouped into the five
  exported types with their identifiers converted to text. The validation report
  is either the placeholder `no_validation` record or the stored result. The
  manifest generator records per-type counts, the validation status and the
  fixed file list. No code calls it yet: the bundle export is still a stub (see
  "Left out"). `ManifestOfExport` combines the generator with the two export
  functions the way the stub's plan describes, not the way the program runs today.

`seqs.dfy` holds the generic `Filter`/`Count` used everywhere, with their
lemmas. `cmmo_types.dfy` holds the page records and `wrappers.dfy` the `Option` type.
`mock_data.dfy` holds the sample mappings and issues the pages start from,
with what the rules make of them.

`HandleToggleMapping` and `ExportEntities` are methods whose loop and in-place
update are proved against the functions `Toggle` and `Organized`. Everything
else is functions and lemmas, as in the source.

## Model

| member | source | states |
|---|---|---|
| FieldMappingPage.IncludesAtSomeOffset | frontend/src/pages/cmmo/mapping.tsx:29-30 | the substring test holds exactly when the search term starts at some offset of the field name |
| FieldMappingPage.FilteredIsView | frontend/src/pages/cmmo/mapping.tsx:28-31 | the displayed list is an order-preserving sublist of the mappings, a mapping is displayed iff the lower-cased term occurs in its lower-cased source or target field, and its length is the number of matching positions (so repeated matching entries each get a card) |
| FieldMappingPage.EmptySearchShowsAll | frontend/src/pages/cmmo/mapping.tsx:28-31 | with an empty search term every mapping is displayed, in its place |
| FieldMappingPage.UnmappedRequiredCountsPositions | frontend/src/pages/cmmo/mapping.tsx:25 | the unmapped-required count is the number of positions holding a required, unmapped entry |
| FieldMappingPage.CanProgressIff | frontend/src/pages/cmmo/mapping.tsx:25-26 | the step can be left iff every required entry is mapped |
| FieldMappingPage.SummaryCounts | frontend/src/pages/cmmo/mapping.tsx:145-168 | required plus optional counts equal the list length; the unmapped-required count is bounded by the required count; the required fields not counted as unmapped are all counted as mapped |
| FieldMappingPage.ToggleAt | frontend/src/pages/cmmo/mapping.tsx:35 | the array afterwards is the old contents with slot `index` having its `mapped` flag inverted |
| FieldMappingPage.HandleToggleMapping | frontend/src/pages/cmmo/mapping.tsx:33-37 | the new list has the same length, entry `index` has `mapped` inverted and every other field kept, and every other entry is unchanged |
| FieldMappingPage.ToggleTwice | frontend/src/pages/cmmo/mapping.tsx:33-37 | toggling the same entry twice restores the list |
| FieldMappingPage.ToggleUnmappedRequired | frontend/src/pages/cmmo/mapping.tsx:25-37 | toggling a required unmapped entry lowers the gate count by one; toggling a required mapped entry raises it by one; toggling an optional entry leaves it |
| FieldMappingPage.ToggleSummaryCounts | frontend/src/pages/cmmo/mapping.tsx:33-37 | toggling keeps the required and optional counts and moves the mapped count by exactly one in the right direction |
| FieldMappingPage.ClickFlipsShownEntry | frontend/src/pages/cmmo/mapping.tsx:76-114 | the corrected click toggles the full-list entry shown on the clicked card; the displayed list afterwards differs from before only in that card, flipped |
| FieldMappingPage.EmptySearchClicksAgree | frontend/src/pages/cmmo/mapping.tsx:76-114 | with an empty search the card index is the full-list index, so the page's click and the corrected click agree |
| FieldMappingPage.ClickAsWrittenMissesShownEntry | frontend/src/pages/cmmo/mapping.tsx:114 | for the first two sample mappings and the term "block", the only card shows Block_Number; clicking it flips the hidden Sample_Name entry and the card stays unchanged |
| ValidationPage.SeverityListsAreExact | frontend/src/pages/cmmo/validation.tsx:25-27 | each of the three lists is an order-preserving sublist holding exactly the issues of its severity |
| ValidationPage.ExactlyOneList | frontend/src/pages/cmmo/validation.tsx:25-27 | every issue lands in one list and in no two |
| ValidationPage.SeverityPartition | frontend/src/pages/cmmo/validation.tsx:25-27 | the three list sizes add up to the number of issues, and together the lists hold every issue exactly once (as multisets) |
| ValidationPage.CanExportIff | frontend/src/pages/cmmo/validation.tsx:29 | export is allowed iff no issue is a blocker |
| ValidationPage.NonBlockerKeepsGate | frontend/src/pages/cmmo/validation.tsx:25-29 | inserting a non-blocker anywhere changes neither the blocker list nor whether export is allowed |
| ValidationPage.OfferedActionsFollowGate | frontend/src/pages/cmmo/validation.tsx:100-141 | "continue to export" is offered iff export is allowed; otherwise exactly "download report" and "re-upload" are offered |
| ValidationService.Summarize | backend/app/services/validation.py:69-83 | the result carries the run id and the errors; each of the three counts is the number of errors of exactly that severity spelling; status is "passed" or "failed", and "passed" iff the blocker count is zero |
| ValidationService.ValidateRun | backend/app/services/validation.py:58-83 | as written, validation finds no error: all counts are zero and the status is "passed" |
| ValidationService.CreateError | backend/app/services/validation.py:149-179 | each field of the created error is the corresponding argument |
| ValidationService.SeverityCountIsPositions | backend/app/services/validation.py:70-72 | a severity count is the number of positions holding an error of exactly that severity string |
| ValidationService.SeverityTally | backend/app/services/validation.py:70-72 | the three counts plus the number of errors of unknown severity equal the number of errors |
| ValidationService.CountsBoundedByErrors | backend/app/services/validation.py:70-72 | the three counts sum to at most the number of errors, and to exactly that iff every severity is one of the three known spellings |
| ValidationService.StatusFailedIff | backend/app/services/validation.py:74 | a run fails iff some error has severity "Blocker" |
| ValidationService.NonBlockerKeepsStatus | backend/app/services/validation.py:70-74 | adding a non-blocker error keeps the blocker count and the status |
| ValidationService.UnknownSeverityIgnored | backend/app/models/run.py:122 | an error whose severity is none of the three spellings (e.g. lower-case "blocker") changes no count and never fails the run |
| ValidationService.CreatedBlockerFailsRun | backend/app/services/validation.py:149-179 | appending an error created with severity "Blocker" adds one blocker and makes the status "failed" |
| ExportService.Str | backend/app/services/export.py:98-99 | string conversion turns an object id into exactly its hex text and leaves text unchanged |
| ExportService.StrKeepsIdentity | backend/app/services/export.py:98-99 | two object ids convert to the same text iff they are the same id |
| ExportService.ForJson | backend/app/services/export.py:98-99 | the converted entity keeps its type and fields, and its two identifiers are the string conversions of the original ones |
| ExportService.ExportEntities | backend/app/services/export.py:86-102 | the grouped result equals, for each of the five exported types, the converted entities of that type in load order |
| ExportService.ExportShape | backend/app/services/export.py:86-92 | the result has exactly the keys Block, Slide, ROI, Library, Run, and each list holds entities of its own type only |
| ExportService.BucketMembership | backend/app/services/export.py:94-100 | an entity is in a type's list iff it is the converted form of a loaded entity of that type |
| ExportService.UnexportedDropped | backend/app/services/export.py:95-96 | an entity without a type, or of a type outside the five, appears in no list |
| ExportService.BucketKeepsOrder | backend/app/services/export.py:94-100 | each list keeps load order |
| ExportService.BucketSizesSum | backend/app/services/export.py:86-100 | the list sizes add up to the number of loaded entities of an exported type, which is at most the number loaded |
| ExportService.ExportValidationReport | backend/app/services/export.py:122-132 | the placeholder record with status "no_validation" and the message "No validation results found for this run" is returned iff nothing is stored; otherwise the stored result, its two identifiers replaced by their string conversions and everything else kept |
| ExportService.GenerateManifest | backend/app/services/export.py:188-201 | the manifest counts every key of the grouped entities by its list length, copies the report's status, and lists version "1.0.0" and the four fixed files |
| ExportService.ManifestOfExport | backend/app/services/export.py:175-201 | if the manifest is built from the grouped entities and the validation report, as the bundle export plans to do (export.py:48-53) but does not yet do, then it counts exactly the five types, those counts sum to the number of exported entities, and its status is the stored one or "no_validation" |
| MockData.MockMappingSummary | frontend/src/data/mockData.ts:11-22 | the sample has 10 mappings, 7 required, 3 optional, none mapped, so 7 required fields are unmapped and the step cannot be left |
| MockData.MockIssueSeverities | frontend/src/data/mockData.ts:24-104 | the sample report holds three blockers, then three warnings, then two infos |
| MockData.MockIssueCounts | frontend/src/data/mockData.ts:24-104 | the page splits the sample report into 3 blockers, 3 warnings and 2 infos |
| MockData.MockIssuesSummary | frontend/src/data/mockData.ts:24-104 | on the sample report export is refused and only "download report" and "re-upload" are offered |

## Left out

- Database access (Motor queries, inserts, storing the validation result and setting its `id`) is not modelled. The loaded entities and the stored validation result are parameters.
- The bundle export (`export_run`) is not modelled. It is a stub: it writes only a placeholder manifest with status "not_implemented" and calls none of the modelled functions. `_generate_manifest` has no caller. The run metadata export (`export_metadata`) is database I/O and is not modelled either.
- ExportService.GenerateManifest: the export time is a parameter. The clock is not modelled. The unused `metadata` argument is omitted.
- ExportService.GenerateManifest: `validation.get("status")` always finds a value. A stored result always carries a status and the placeholder record has one, so the missing-key `None` case does not arise.
- ExportService.Str: object ids are modelled as their hex text. The BSON encoding and the `ObjectId(run_id)` conversion of the query (which raises on a malformed id) are not modelled.
- ExportService.ExportEntities: the source converts the identifiers of the loaded documents in place. The model builds new values, so the aliasing of those documents is not captured. Python dict key order is not modelled either, because a Dafny `map` is unordered.
- ValidationService.ValidateRun: the run id is kept as a string. Its conversion to an object id is not modelled.
- ValidationService.ValidateRun: the per-field, per-row, per-table and relationship validators are empty stubs in the source. The harmonization service is a stub too. Neither is modelled.
- FieldMappingPage.HandleToggleMapping: the source copies the list shallowly and flips the flag on the shared record, so the previous state object changes too. The records shared this way are the objects of the module-level sample list `mockFieldMappings` that the page's state starts from (frontend/src/pages/cmmo/mapping.tsx:14). A toggle therefore also changes that sample list, and the change persists when the page is left and re-entered. The model is value-based and does not capture this aliasing.
- FieldMappingPage.HandleToggleMapping: it requires `index < |mappings|`. The handler is only bound to displayed cards, whose indices are below the displayed length and hence below the full length. An out-of-range index would throw in the source and is not modelled.
- FieldMappingPage.Lower: lower-casing covers the ASCII letters only. Unicode case mapping is not modelled.
- Confidence values are carried as `real` but never computed with. The progress bar width (a float division, which divides by zero on an empty list) is presentation and is not modelled.
- Page rendering, navigation, toasts and the other pages (upload, harmonization, export page, header, stepper) are presentation and are not modelled.

## Findings

| source | as written | input that shows it | evidently intended | confidence | as-written member | corrected member |
|---|---|---|---|---|---|---|
| frontend/src/pages/cmmo/mapping.tsx:114 | the toggle button of card `index` of the filtered list calls the handler with that index, and the handler (lines 33-37) flips entry `index` of the full list | mappings [Sample_Name→Specimen_ID, Block_Number→Block_ID], search "block": the only card shows Block_Number, and clicking it flips Sample_Name | the click flips the entry shown on the clicked card | not executed | FieldMappingPage.ClickAsWrittenMissesShownEntry | FieldMappingPage.ClickFlipsShownEntry |

The two agree whenever the search box is empty (`FieldMappingPage.EmptySearchClicksAgree`).
