/**
 The export service's bookkeeping: the canonical entities of a run are
 grouped into one list per exported entity type, the stored validation
 result is turned into a report, and the bundle manifest records the size
 of each group, the validation status and the fixed list of bundle files.
 */
module ExportService {
  import opened Wrappers
  import opened Seqs
  import ValidationService

  /** A document identifier: a database object id, or the text it was converted to. */
  datatype IdValue = ObjectId(hex: string) | Text(text: string)

  /** String conversion of an identifier (an object id prints as its hex digits). */
  function Str(v: IdValue): (r: IdValue)
    ensures r.Text?
    ensures v.Text? ==> r == v
    ensures v.ObjectId? ==> r == Text(v.hex)
  {
    match v
    case ObjectId(hex) => Text(hex)
    case Text(text) => Text(text)
  }

  /** Distinct object ids convert to distinct texts, so the export keeps every identity. */
  lemma StrKeepsIdentity(a: IdValue, b: IdValue)
    requires a.ObjectId? && b.ObjectId?
    ensures Str(a) == Str(b) <==> a == b
  {
  }

  /** A stored canonical entity; `entityType` is absent when the document has no such field. */
  datatype Entity = Entity(id: IdValue, runId: IdValue, entityType: Option<string>, fields: map<string, string>)

  /** The entity types the export groups; every other type is not exported. */
  const EXPORT_TYPES: set<string> := {"Block", "Slide", "ROI", "Library", "Run"}

  /** The entity with both of its identifiers converted to text. */
  function ForJson(e: Entity): (r: Entity)
    ensures r.entityType == e.entityType && r.fields == e.fields
    ensures r.id == Str(e.id) && r.runId == Str(e.runId)
    ensures r.id.Text? && r.runId.Text?
  {
    e.(id := Str(e.id), runId := Str(e.runId))
  }

  function Converted(entities: seq<Entity>): seq<Entity>
  {
    seq(|entities|, i requires 0 <= i < |entities| => ForJson(entities[i]))
  }

  function OfType(kind: string): Entity -> bool
  {
    (e: Entity) => e.entityType == Some(kind)
  }

  predicate IsExported(e: Entity)
  {
    e.entityType.Some? && e.entityType.value in EXPORT_TYPES
  }

  /** The converted entities of one type, in the order they were loaded. */
  function Bucket(entities: seq<Entity>, kind: string): seq<Entity>
  {
    Filter(Converted(entities), OfType(kind))
  }

  /** One list per exported type. */
  function Organized(entities: seq<Entity>): map<string, seq<Entity>>
  {
    map kind | kind in EXPORT_TYPES :: Bucket(entities, kind)
  }

  /**
   Groups the loaded entities of a run by type: the five lists start empty,
   and each entity of an exported type, its identifiers converted, is appended
   to the list of its type.
   */
  method ExportEntities(entities: seq<Entity>) returns (organized: map<string, seq<Entity>>)
    ensures organized == Organized(entities)
  {
    organized := map["Block" := [], "Slide" := [], "ROI" := [], "Library" := [], "Run" := []];
    for i := 0 to |entities|
      invariant organized.Keys == EXPORT_TYPES
      invariant forall k :: k in organized ==> organized[k] == Bucket(entities[..i], k)
    {
      var entity := entities[i];
      if entity.entityType.Some? && entity.entityType.value in organized {
        var t := entity.entityType.value;
        organized := organized[t := organized[t] + [ForJson(entity)]];
      }
      forall k | k in organized ensures organized[k] == Bucket(entities[..i + 1], k) {
        BucketStep(entities, i, k);
      }
    }
    assert entities[..|entities|] == entities;
    assert organized.Keys == Organized(entities).Keys;
  }

  /** Loading one more entity appends it, converted, to the list of its own type only. */
  lemma BucketStep(entities: seq<Entity>, i: nat, kind: string)
    requires i < |entities|
    ensures Bucket(entities[..i + 1], kind)
         == Bucket(entities[..i], kind) + (if entities[i].entityType == Some(kind) then [ForJson(entities[i])] else [])
  {
    assert Converted(entities[..i + 1]) == Converted(entities[..i]) + [ForJson(entities[i])];
    FilterAppend(Converted(entities[..i]), ForJson(entities[i]), OfType(kind));
  }

  /** The result has exactly the five exported types as keys, and each list holds entities of its own type only. */
  lemma ExportShape(entities: seq<Entity>)
    ensures Organized(entities).Keys == EXPORT_TYPES && "Specimen" !in Organized(entities)
    ensures forall k :: k in Organized(entities) ==>
              forall j :: 0 <= j < |Organized(entities)[k]| ==> Organized(entities)[k][j].entityType == Some(k)
  {
  }

  /** A list holds, converted, exactly the loaded entities whose type is its key. */
  lemma BucketMembership(entities: seq<Entity>, kind: string, x: Entity)
    requires kind in EXPORT_TYPES
    ensures x in Organized(entities)[kind] <==>
            exists i :: 0 <= i < |entities| && entities[i].entityType == Some(kind) && x == ForJson(entities[i])
  {
    FilterMembership(Converted(entities), OfType(kind), x);
    if x in Converted(entities) {
      var i :| 0 <= i < |Converted(entities)| && Converted(entities)[i] == x;
      assert x == ForJson(entities[i]);
    }
    if exists i :: 0 <= i < |entities| && entities[i].entityType == Some(kind) && x == ForJson(entities[i]) {
      var i :| 0 <= i < |entities| && entities[i].entityType == Some(kind) && x == ForJson(entities[i]);
      assert Converted(entities)[i] == x;
    }
  }

  /** An entity without a type, or of a type that is not exported (a Specimen, say), lands in no list. */
  lemma UnexportedDropped(entities: seq<Entity>, i: nat)
    requires i < |entities| && !IsExported(entities[i])
    ensures forall k :: k in Organized(entities) ==> ForJson(entities[i]) !in Organized(entities)[k]
  {
    forall k | k in Organized(entities) ensures ForJson(entities[i]) !in Organized(entities)[k] {
      FilterMembership(Converted(entities), OfType(k), ForJson(entities[i]));
    }
  }

  /** Each list keeps the load order. */
  lemma BucketKeepsOrder(entities: seq<Entity>, kind: string)
    requires kind in EXPORT_TYPES
    ensures IsSubsequence(Organized(entities)[kind], Converted(entities))
  {
    FilterIsSubsequence(Converted(entities), OfType(kind));
  }

  /** Over any entity list, the five type filters together keep exactly the exported entities. */
  lemma {:induction false} TypeTally(s: seq<Entity>)
    ensures |Filter(s, OfType("Block"))| + |Filter(s, OfType("Slide"))| + |Filter(s, OfType("ROI"))|
            + |Filter(s, OfType("Library"))| + |Filter(s, OfType("Run"))| == Count(s, IsExported)
  {
    if s != [] {
      TypeTally(s[1..]);
    }
  }

  /** The list sizes add up to the number of loaded entities of an exported type, which is at most the number loaded. */
  lemma BucketSizesSum(entities: seq<Entity>)
    ensures var r := Organized(entities);
            |r["Block"]| + |r["Slide"]| + |r["ROI"]| + |r["Library"]| + |r["Run"]| == Count(entities, IsExported)
    ensures Count(entities, IsExported) <= |entities|
  {
    TypeTally(Converted(entities));
    CountPointwise(Converted(entities), IsExported, entities, IsExported);
  }

  // ---------------------------------------------------------------------------
  // Validation report
  // ---------------------------------------------------------------------------

  /**
   A validation result as stored for a run: `ValidationService.ValidationResult`
   once inserted, with its database id and with both ids as stored values.
   */
  datatype StoredValidation = StoredValidation(
    id: IdValue,
    runId: IdValue,
    status: string,
    blockerCount: nat,
    warningCount: nat,
    infoCount: nat,
    errors: seq<ValidationService.ValidationError>)

  /** The validation report of an export: a placeholder record, or the stored result. */
  datatype Report =
    | NoValidation(status: string, message: string)
    | Found(result: StoredValidation)

  /** The report for a run, given the stored result if there is one. */
  function ExportValidationReport(stored: Option<StoredValidation>): (r: Report)
    ensures r.NoValidation? <==> stored.None?
    ensures r.NoValidation? ==>
              r.status == "no_validation" && r.message == "No validation results found for this run"
    ensures stored.Some? ==>
              (r.Found? && r.result.id == Str(stored.value.id) && r.result.runId == Str(stored.value.runId) &&
               r.result.(id := stored.value.id, runId := stored.value.runId) == stored.value)
  {
    match stored
    case None => NoValidation("no_validation", "No validation results found for this run")
    case Some(v) => Found(v.(id := Str(v.id), runId := Str(v.runId)))
  }

  /** The report's "status" field. */
  function ReportStatus(report: Report): string
  {
    match report
    case NoValidation(status, _) => status
    case Found(result) => result.status
  }

  // ---------------------------------------------------------------------------
  // Manifest
  // ---------------------------------------------------------------------------

  const MANIFEST_VERSION: string := "1.0.0"
  const MANIFEST_FILES: seq<string> := ["manifest.json", "entities.json", "validation_report.json", "metadata.json"]

  datatype Manifest = Manifest(
    runId: string,
    exportDate: string,
    version: string,
    entityCounts: map<string, nat>,
    validationStatus: string,
    files: seq<string>)

  /** The bundle manifest; the export time is supplied by the caller. */
  function GenerateManifest(runId: string, exportDate: string, entities: map<string, seq<Entity>>, validation: Report): (m: Manifest)
    ensures m.entityCounts.Keys == entities.Keys
    ensures forall k :: k in entities ==> m.entityCounts[k] == |entities[k]|
    ensures m.validationStatus == ReportStatus(validation)
    ensures m.files == MANIFEST_FILES && m.version == MANIFEST_VERSION
    ensures m.runId == runId && m.exportDate == exportDate
  {
    Manifest(runId, exportDate, MANIFEST_VERSION, map k | k in entities :: |entities[k]|, ReportStatus(validation), MANIFEST_FILES)
  }

  /**
   The manifest built from the grouped entities and the validation report, as
   the bundle export is planned to combine them, counts exactly the five
   exported types. Its counts add up to the number of exported entities, and
   its validation status is the stored one, or "no_validation" when nothing is
   stored. The bundle export itself is still a stub that never builds this
   manifest.
   */
  lemma ManifestOfExport(runId: string, exportDate: string, entities: seq<Entity>, stored: Option<StoredValidation>)
    ensures var m := GenerateManifest(runId, exportDate, Organized(entities), ExportValidationReport(stored));
            m.entityCounts.Keys == EXPORT_TYPES &&
            m.entityCounts["Block"] + m.entityCounts["Slide"] + m.entityCounts["ROI"]
              + m.entityCounts["Library"] + m.entityCounts["Run"] == Count(entities, IsExported) &&
            m.validationStatus == (if stored.None? then "no_validation" else stored.value.status)
  {
    BucketSizesSum(entities);
  }
}
