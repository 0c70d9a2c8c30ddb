/**
 * The image upload form: its validation schema and what a valid submit sends.
 *
 * Validation follows the schema library's order. The field checks run first.
 * A missing or wrongly typed field, or a value outside an enum, aborts the
 * object, and then neither refinement runs. A too-short transformer id only
 * records an issue, and the two refinements still run, each adding its issue
 * when it fails. The form is valid when no issue is recorded.
 */
module ImageUploadForm {
  import opened Wrappers

  /** A field value as the schema sees it; None is `undefined`. */
  type Field = Option<string>

  /**
   * The `file` field, which the schema accepts as anything: absent, a single
   * file, an indexable list (a `FileList` or an array), or some other value,
   * truthy or not.
   */
  datatype FileValue = NoFile | AFile(name: string) | Indexable(items: seq<FileValue>) | OtherValue(truthy: bool)

  datatype FormValues = FormValues(transformerId: Field, kind: Field, envCondition: Field, file: FileValue)

  /** What a failed check reports: the schema's own message, an enum mismatch, or a missing field. */
  datatype Message = Custom(text: string) | InvalidEnum(options: seq<string>, received: string) | Required

  datatype Issue = Issue(path: string, message: Message)

  const ImageTypes: seq<string> := ["baseline", "maintenance"]
  const EnvConditions: seq<string> := ["sunny", "cloudy", "rainy"]

  const TransformerRequired := "Transformer is required"
  const EnvRequired := "Env condition is required for baseline"
  const FileRequired := "Image file is required"

  // ---------------------------------------------------------------- field checks

  /** `z.string().min(1, …)`: a missing id aborts; an empty one only records the issue. */
  function TransformerIdIssues(id: Field): (r: (seq<Issue>, bool))
    ensures r.1 <==> id.None?
    ensures r.0 == [] <==> id.Some? && |id.value| >= 1
    ensures |r.0| <= 1
    ensures r.0 != [] ==> r.0[0].path == "transformerId"
    ensures id.Some? && id.value == "" ==> r.0 == [Issue("transformerId", Custom(TransformerRequired))]
  {
    if id.None? then ([Issue("transformerId", Required)], true)
    else if |id.value| < 1 then ([Issue("transformerId", Custom(TransformerRequired))], false)
    else ([], false)
  }

  /** `z.enum([...])`: missing or outside the options aborts. */
  function EnumIssues(path: string, options: seq<string>, value: Field): (r: seq<Issue>)
    ensures r == [] <==> value.Some? && value.value in options
    ensures |r| <= 1 && forall i :: 0 <= i < |r| ==> r[i].path == path
  {
    if value.None? then [Issue(path, Required)]
    else if value.value !in options then [Issue(path, InvalidEnum(options, value.value))]
    else []
  }

  /** `.optional()`: undefined passes; anything else is checked against the options. */
  function OptionalEnumIssues(path: string, options: seq<string>, value: Field): (r: seq<Issue>)
    ensures r == [] <==> value.None? || value.value in options
    ensures |r| <= 1 && forall i :: 0 <= i < |r| ==> r[i].path == path
  {
    if value.None? then [] else EnumIssues(path, options, value)
  }

  // ---------------------------------------------------------------- refinements

  /** JavaScript truthiness of an optional text. */
  predicate Truthy(s: Field) { s.Some? && s.value != "" }

  /** The first refinement: a maintenance image, or a baseline with a condition. */
  predicate EnvRule(v: FormValues)
    ensures EnvRule(v) ==> v.kind.Some? && v.kind.value in ImageTypes
  {
    v.kind == Some("maintenance") || (v.kind == Some("baseline") && Truthy(v.envCondition))
  }

  /** `truthiness` of the file value. */
  predicate FileTruthy(f: FileValue)
  {
    match f
    case NoFile => false
    case AFile(_) => true
    case Indexable(_) => true
    case OtherValue(t) => t
  }

  /** `f[0]`: the first item of a list; undefined for anything else or an empty list. */
  function First(f: FileValue): (r: FileValue)
    ensures r != NoFile ==> f.Indexable? && |f.items| > 0 && r == f.items[0]
  {
    if f.Indexable? && |f.items| > 0 then f.items[0] else NoFile
  }

  /** The second refinement: a file, or a value whose first item is a file. */
  predicate FileRule(v: FormValues)
    ensures FileRule(v) ==> FileTruthy(v.file)
  {
    v.file.AFile? || (FileTruthy(v.file) && First(v.file).AFile?)
  }

  // ---------------------------------------------------------------- the schema

  /** The issues of the field checks, and whether one of them aborts the object. */
  function FieldIssues(v: FormValues): (r: (seq<Issue>, bool))
  {
    var id := TransformerIdIssues(v.transformerId);
    var kind := EnumIssues("type", ImageTypes, v.kind);
    var env := OptionalEnumIssues("envCondition", EnvConditions, v.envCondition);
    (id.0 + kind + env, id.1 || kind != [] || env != [])
  }

  /** The issues of the two refinements, in order. */
  function RefinementIssues(v: FormValues): (r: seq<Issue>)
    ensures r == [] <==> EnvRule(v) && FileRule(v)
  {
    (if EnvRule(v) then [] else [Issue("envCondition", Custom(EnvRequired))])
    + (if FileRule(v) then [] else [Issue("file", Custom(FileRequired))])
  }

  /** Every issue the schema reports for `v`. */
  function Issues(v: FormValues): (r: seq<Issue>)
    ensures forall i :: 0 <= i < |r| ==> r[i].path in {"transformerId", "type", "envCondition", "file"}
    ensures Issue("file", Custom(FileRequired)) in r <==> !FieldIssues(v).1 && !FileRule(v)
  {
    var (fields, aborted) := FieldIssues(v);
    if aborted then fields else fields + RefinementIssues(v)
  }

  /** The form is accepted exactly when every field and both rules hold. */
  lemma ValidIff(v: FormValues)
    ensures Issues(v) == [] <==> (
      v.transformerId.Some? && |v.transformerId.value| >= 1
      && v.kind.Some? && v.kind.value in ImageTypes
      && (v.envCondition.None? || v.envCondition.value in EnvConditions)
      && EnvRule(v) && FileRule(v))
  {
  }

  /** A type other than baseline or maintenance is rejected at `type`. */
  lemma UnknownTypeRejected(v: FormValues)
    requires v.kind.Some? && v.kind.value !in ImageTypes
    ensures Issue("type", InvalidEnum(ImageTypes, v.kind.value)) in Issues(v)
  {
    assert Issues(v)[|TransformerIdIssues(v.transformerId).0|] == Issue("type", InvalidEnum(ImageTypes, v.kind.value));
  }

  /** A condition outside sunny, cloudy and rainy, the empty placeholder included, is rejected at `envCondition`. */
  lemma UnknownConditionRejected(v: FormValues)
    requires v.envCondition.Some? && v.envCondition.value !in EnvConditions
    ensures exists i :: 0 <= i < |Issues(v)| && Issues(v)[i] == Issue("envCondition", InvalidEnum(EnvConditions, v.envCondition.value))
  {
    var f := FieldIssues(v);
    var k := |TransformerIdIssues(v.transformerId).0| + |EnumIssues("type", ImageTypes, v.kind)|;
    assert f.0[k] == Issue("envCondition", InvalidEnum(EnvConditions, v.envCondition.value));
    assert Issues(v)[k] == f.0[k];
  }

  /**
   * A baseline with a file but no condition, whose fields are otherwise
   * well-typed, gets exactly one issue about the condition, and it is attached
   * to `envCondition` (an empty transformer id adds its own issue before it).
   */
  lemma BaselineNeedsCondition(v: FormValues)
    requires v.transformerId.Some? && v.kind == Some("baseline") && v.envCondition.None?
    requires FileRule(v)
    ensures Issues(v) == TransformerIdIssues(v.transformerId).0 + [Issue("envCondition", Custom(EnvRequired))]
  {
  }

  /** A maintenance image never gets the condition issue, whatever its condition. */
  lemma MaintenanceNeedsNoCondition(v: FormValues)
    requires v.kind == Some("maintenance")
    ensures Issue("envCondition", Custom(EnvRequired)) !in Issues(v)
  {
    var f := FieldIssues(v);
    assert forall i :: 0 <= i < |f.0| ==> f.0[i].message != Custom(EnvRequired);
  }

  /** Without a file, or with an empty list, the submit is rejected at `file`. */
  lemma MissingFileRejected(v: FormValues)
    requires !FieldIssues(v).1
    requires v.file == NoFile || v.file == Indexable([])
    ensures Issues(v) == FieldIssues(v).0 + RefinementIssues(v)
    ensures RefinementIssues(v)[|RefinementIssues(v)| - 1] == Issue("file", Custom(FileRequired))
  {
  }

  // ---------------------------------------------------------------- submitting

  /** What is handed to the upload: the values and the first item of the file list. */
  datatype UploadPayload = UploadPayload(transformerId: string, kind: string, envCondition: Field, file: FileValue)

  /** The submit handler, which runs only when the schema reports no issue. */
  function Submit(v: FormValues): (r: Option<UploadPayload>)
    ensures r.Some? <==> Issues(v) == []
    ensures r.Some? ==> (r.value.transformerId == v.transformerId.value && r.value.kind == v.kind.value
      && r.value.envCondition == v.envCondition && r.value.file == First(v.file))
  {
    ValidIff(v);
    if Issues(v) != [] then None
    else Some(UploadPayload(v.transformerId.value, v.kind.value, v.envCondition, First(v.file)))
  }

  /**
   * A file list whose first item is a file uploads that file; a lone file
   * also passes the schema, but its first item is undefined, so no file is
   * uploaded.
   */
  lemma UploadedFile(v: FormValues)
    requires Issues(v) == []
    ensures v.file.Indexable? ==> Submit(v).value.file.AFile? && Submit(v).value.file == v.file.items[0]
    ensures v.file.AFile? ==> Submit(v).value.file == NoFile
  {
    ValidIff(v);
  }

  /** The form after a submit: only the type is set, to maintenance. */
  function Reset(): (r: FormValues)
    ensures r.kind == Some("maintenance") && r.transformerId.None? && r.envCondition.None? && r.file == NoFile
  {
    FormValues(None, Some("maintenance"), None, NoFile)
  }

  /**
   * After the reset, filling in a transformer and a file is enough: the
   * maintenance type needs no condition.
   */
  lemma ResetNeedsNoCondition(id: string, file: FileValue)
    requires |id| >= 1 && file.AFile?
    ensures Issues(Reset().(transformerId := Some(id), file := file)) == []
  {
    ValidIff(Reset().(transformerId := Some(id), file := file));
  }
}
