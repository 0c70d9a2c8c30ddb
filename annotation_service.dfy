/**
 * The annotation service: bounding-box annotations of one transformer's
 * inspection, created from a loosely typed JSON object, updated key by key,
 * listed, and deleted.
 *
 * A stored annotation is a record with the fields "id", "transformerNo",
 * "inspectionNo", "bbox" and "polygon" (JSON text), "shape", "className",
 * "confidence", "annotationType", "status", "comment", "userId", "createdAt"
 * and "updatedAt". JSON writing and reading, `toString` of non-text values and
 * `Double.valueOf` are library concerns and come in as functions.
 *
 * Every operation runs in one transaction. The service rethrows its failures
 * as the service exception, which is a checked exception, so the transaction
 * still commits: whatever was already saved, or already changed on a loaded
 * annotation, is kept.
 */
module AnnotationService {
  import opened Wrappers
  import opened Beans
  import opened Responses
  import opened Repository

  /** A JSON value as the request body's parser produces it. */
  datatype Json =
    | JNull
    | JBool(b: bool)
    | JNumber(x: real)
    | JText(s: string)
    | JArray(items: seq<Json>)
    | JObject(members: seq<(string, Json)>)

  /** The request body: a JSON object's members by key. */
  type Data = map<string, Json>

  /**
   * The library calls: `writeValueAsString` (None when it fails), `readValue`
   * into a list (None when it fails; the text "null" reads as JNull),
   * `toString` of a non-text value, and `Double.valueOf` (None when the text is
   * not a number).
   */
  datatype Jackson = Jackson(
    write: Json -> Option<string>, read: string -> Option<Json>,
    show: Json -> string, parseDouble: string -> Option<real>)

  /** What can go wrong while handling a request, and under which key. */
  datatype Problem =
    | NullValue(key: string)
    | WriteFailed(key: string)
    | BadNumber(text: string)
    | ReadFailed(key: string)

  /** `get`: null when the key is missing. */
  function Get(data: Data, k: string): Json
  {
    if k in data then data[k] else JNull
  }

  /** `getOrDefault`: the default only when the key is missing; a present null stays null. */
  function GetOrDefault(data: Data, k: string, d: Json): Json
  {
    if k in data then data[k] else d
  }

  /** The key is present with a non-null value. */
  predicate Present(data: Data, k: string)
  {
    k in data && data[k] != JNull
  }

  /** `v.toString()` for the value under `k`: text stays text, null throws. */
  function TextOf(v: Json, k: string, j: Jackson): (r: Result<string, Problem>)
    ensures r.Err? <==> v == JNull
    ensures r.Err? ==> r.error == NullValue(k)
    ensures v.JText? ==> r == Ok(v.s)
  {
    match v
    case JNull => Err(NullValue(k))
    case JText(s) => Ok(s)
    case _ => Ok(j.show(v))
  }

  /** A JSON-valued field that is written only when present and non-null. */
  function OptionalJson(data: Data, k: string, j: Jackson): (r: Result<Option<string>, Problem>)
    ensures !Present(data, k) ==> r == Ok(None)
    ensures Present(data, k) ==> (r.Err? <==> j.write(data[k]).None?)
    ensures r.Ok? && Present(data, k) ==> r.value == j.write(data[k])
  {
    if !Present(data, k) then Ok(None)
    else if j.write(data[k]).None? then Err(WriteFailed(k))
    else Ok(j.write(data[k]))
  }

  /** The confidence, parsed from its text only when present and non-null. */
  function Confidence(data: Data, j: Jackson): (r: Result<Option<real>, Problem>)
    ensures !Present(data, "confidence") ==> r == Ok(None)
    ensures Present(data, "confidence") ==> TextOf(data["confidence"], "confidence", j).Ok?
    ensures Present(data, "confidence") ==> var parsed := j.parseDouble(TextOf(data["confidence"], "confidence", j).value);
      (r.Err? <==> parsed.None?) && (r.Ok? ==> r.value == parsed)
  {
    if !Present(data, "confidence") then Ok(None)
    else
      var text := TextOf(data["confidence"], "confidence", j).value;
      var x := j.parseDouble(text);
      if x.None? then Err(BadNumber(text)) else Ok(x)
  }

  /** A text field that is set only when its key is present; a present null throws. */
  function OptionalText(data: Data, k: string, j: Jackson): (r: Result<Option<string>, Problem>)
    ensures k !in data ==> r == Ok(None)
    ensures k in data ==> (r.Err? <==> data[k] == JNull) && (r.Ok? ==> r.value.Some?)
  {
    if k !in data then Ok(None)
    else
      var t :- TextOf(data[k], k, j);
      Ok(Some(t))
  }

  /** Put an optional text into field `k`. */
  function PutText(rec: Record, k: string, v: Option<string>): Record
  {
    SetIfPresent(rec, k, v)
  }

  const DefaultShape := "bbox"
  const DefaultType := "MANUAL_ADDED"
  const DefaultStatus := "pending"

  /** The values `saveAnnotation` takes from the request, before they go into the entity. */
  datatype Parsed = Parsed(
    bbox: string, polygon: Option<string>, shape: string, className: string, confidence: Option<real>,
    annotationType: string, status: string, comment: Option<string>, userId: Option<string>)

  /**
   * The request's values, read in the order `saveAnnotation` assigns them:
   * the first failing one ends the request. The bounding box is always
   * written, even when absent (as the text of null); shape, type and status
   * fall back to their defaults only when their keys are missing.
   */
  function Parse(data: Data, j: Jackson): (r: Result<Parsed, Problem>)
    ensures Get(data, "className") == JNull ==> r.Err?
    ensures r.Ok? ==> (
      j.write(Get(data, "bbox")) == Some(r.value.bbox)
      && (r.value.polygon.Some? <==> Present(data, "polygon"))
      && (r.value.polygon.Some? ==> r.value.polygon == j.write(data["polygon"]))
      && (r.value.confidence.Some? <==> Present(data, "confidence"))
      && Confidence(data, j) == Ok(r.value.confidence)
      && ("shape" !in data ==> r.value.shape == DefaultShape)
      && ("shape" in data ==> TextOf(data["shape"], "shape", j) == Ok(r.value.shape))
      && TextOf(Get(data, "className"), "className", j) == Ok(r.value.className)
      && ("annotationType" !in data ==> r.value.annotationType == DefaultType)
      && ("annotationType" in data ==> TextOf(data["annotationType"], "annotationType", j) == Ok(r.value.annotationType))
      && ("status" !in data ==> r.value.status == DefaultStatus)
      && ("status" in data ==> TextOf(data["status"], "status", j) == Ok(r.value.status))
      && (r.value.comment.Some? <==> "comment" in data)
      && ("comment" in data ==> TextOf(data["comment"], "comment", j) == Ok(r.value.comment.value))
      && (r.value.userId.Some? <==> "userId" in data)
      && ("userId" in data ==> TextOf(data["userId"], "userId", j) == Ok(r.value.userId.value)))
  {
    var bbox := j.write(Get(data, "bbox"));
    if bbox.None? then Err(WriteFailed("bbox"))
    else
      var polygon :- OptionalJson(data, "polygon", j);
      var shape :- TextOf(GetOrDefault(data, "shape", JText(DefaultShape)), "shape", j);
      var className :- TextOf(Get(data, "className"), "className", j);
      var confidence :- Confidence(data, j);
      var annotationType :- TextOf(GetOrDefault(data, "annotationType", JText(DefaultType)), "annotationType", j);
      var status :- TextOf(GetOrDefault(data, "status", JText(DefaultStatus)), "status", j);
      var comment :- OptionalText(data, "comment", j);
      var userId :- OptionalText(data, "userId", j);
      Ok(Parsed(bbox.value, polygon, shape, className, confidence, annotationType, status, comment, userId))
  }

  /** The always-written fields of a new annotation. */
  function Named(transformerNo: string, inspectionNo: string, p: Parsed): (r: Record)
    ensures Str(r, "transformerNo") == Some(transformerNo) && Str(r, "inspectionNo") == Some(inspectionNo)
    ensures Str(r, "bbox") == Some(p.bbox) && Str(r, "shape") == Some(p.shape) && Str(r, "className") == Some(p.className)
    ensures Str(r, "annotationType") == Some(p.annotationType) && Str(r, "status") == Some(p.status)
    ensures r.Keys == {"transformerNo", "inspectionNo", "bbox", "shape", "className", "annotationType", "status"}
  {
    map["transformerNo" := VString(transformerNo), "inspectionNo" := VString(inspectionNo),
        "bbox" := VString(p.bbox), "shape" := VString(p.shape), "className" := VString(p.className),
        "annotationType" := VString(p.annotationType), "status" := VString(p.status)]
  }

  /** The fields that a new annotation holds only when the request gives them. */
  const OptionalKeys := {"polygon", "confidence", "comment", "userId"}

  /** `base` with the optional values that are given; the others stay null. */
  function WithOptionals(base: Record, p: Parsed): (r: Record)
    ensures forall k :: k !in OptionalKeys ==> (k in r <==> k in base) && (k in r ==> r[k] == base[k])
    ensures ("polygon" in r <==> "polygon" in base || p.polygon.Some?) && (p.polygon.Some? ==> Str(r, "polygon") == p.polygon)
    ensures ("confidence" in r <==> "confidence" in base || p.confidence.Some?)
    ensures p.confidence.Some? ==> r["confidence"] == VDouble(p.confidence.value)
    ensures ("comment" in r <==> "comment" in base || p.comment.Some?) && (p.comment.Some? ==> Str(r, "comment") == p.comment)
    ensures ("userId" in r <==> "userId" in base || p.userId.Some?) && (p.userId.Some? ==> Str(r, "userId") == p.userId)
  {
    var withPolygon := PutText(base, "polygon", p.polygon);
    var withConfidence := if p.confidence.Some? then withPolygon["confidence" := VDouble(p.confidence.value)] else withPolygon;
    PutText(PutText(withConfidence, "comment", p.comment), "userId", p.userId)
  }

  /** The unsaved entity holding the parsed values; optional ones stay null when absent. */
  function Entity(transformerNo: string, inspectionNo: string, p: Parsed): Record
  {
    WithOptionals(Named(transformerNo, inspectionNo, p), p)
  }

  /** Every parsed value lands in its own field of the entity; id and times are left to persisting. */
  lemma EntityFields(transformerNo: string, inspectionNo: string, p: Parsed)
    ensures var r := Entity(transformerNo, inspectionNo, p);
      Str(r, "transformerNo") == Some(transformerNo) && Str(r, "inspectionNo") == Some(inspectionNo)
      && Str(r, "bbox") == Some(p.bbox) && Str(r, "shape") == Some(p.shape) && Str(r, "className") == Some(p.className)
      && Str(r, "annotationType") == Some(p.annotationType) && Str(r, "status") == Some(p.status)
      && ("polygon" in r <==> p.polygon.Some?) && ("confidence" in r <==> p.confidence.Some?)
      && ("comment" in r <==> p.comment.Some?) && ("userId" in r <==> p.userId.Some?)
      && "id" !in r && "createdAt" !in r && "updatedAt" !in r
  {
    var named := Named(transformerNo, inspectionNo, p);
    assert forall k :: k in OptionalKeys ==> k !in named;
    assert "id" !in named && "createdAt" !in named && "updatedAt" !in named;
  }

  /** The entity `saveAnnotation` builds before saving it. */
  function NewAnnotation(transformerNo: string, inspectionNo: string, data: Data, j: Jackson): Result<Record, Problem>
  {
    var p :- Parse(data, j);
    Ok(Entity(transformerNo, inspectionNo, p))
  }

  // ------------------------------------------------------------ update

  /** The keys `updateAnnotation` looks at, in the order it looks at them. */
  const UpdateKeys: seq<string> := ["bbox", "polygon", "shape", "className", "confidence", "annotationType", "status", "comment"]

  /**
   * One guarded assignment of `updateAnnotation`: the bounding box is
   * rewritten when its key is present, the polygon and the confidence when
   * present and non-null, and any other field when its key is present (a
   * null value throws).
   */
  function UpdateField(e: Record, data: Data, j: Jackson, k: string): (r: Result<Record, Problem>)
    ensures k !in data ==> r == Ok(e)
    ensures r.Ok? ==> forall x :: x != k ==> (x in r.value <==> x in e) && (x in e ==> r.value[x] == e[x])
    ensures k == "bbox" && k in data ==>
      (r.Err? <==> j.write(data[k]).None?) && (r.Ok? ==> r.value == e[k := VString(j.write(data[k]).value)])
    ensures k == "polygon" ==> (
      (r.Err? <==> Present(data, k) && j.write(data[k]).None?)
      && (r.Ok? && Present(data, k) ==> r.value == e[k := VString(j.write(data[k]).value)])
      && (!Present(data, k) ==> r == Ok(e)))
    ensures k == "confidence" ==> (
      (r.Err? <==> Confidence(data, j).Err?)
      && (r.Ok? && Present(data, k) ==> r.value == e[k := VDouble(Confidence(data, j).value.value)])
      && (!Present(data, k) ==> r == Ok(e)))
    ensures k != "bbox" && k != "polygon" && k != "confidence" && k in data ==>
      (r.Err? <==> data[k] == JNull) && (r.Ok? ==> r.value == e[k := VString(TextOf(data[k], k, j).value)])
  {
    if k == "bbox" then
      if k !in data then Ok(e)
      else if j.write(data[k]).None? then Err(WriteFailed(k))
      else Ok(e[k := VString(j.write(data[k]).value)])
    else if k == "polygon" then
      var polygon :- OptionalJson(data, k, j);
      Ok(PutText(e, k, polygon))
    else if k == "confidence" then
      var confidence :- Confidence(data, j);
      Ok(if confidence.Some? then e[k := VDouble(confidence.value)] else e)
    else
      var t :- OptionalText(data, k, j);
      Ok(PutText(e, k, t))
  }

  /**
   * The guarded assignments over `keys`, in order. The first failure stops
   * them; the assignments made before it stay made.
   */
  function UpdateFrom(e: Record, data: Data, j: Jackson, keys: seq<string>): (r: (Record, Option<Problem>))
    ensures forall x :: x !in keys || x !in data ==> (x in r.0 <==> x in e) && (x in e ==> r.0[x] == e[x])
    decreases |keys|
  {
    if keys == [] then (e, None)
    else
      var step := UpdateField(e, data, j, keys[0]);
      if step.Err? then (e, Some(step.error))
      else UpdateFrom(step.value, data, j, keys[1..])
  }

  /**
   * Whether one assignment fails, and what it leaves under its own key,
   * depend only on the request and on what the key held before.
   */
  lemma UpdateFieldLocal(e: Record, e': Record, data: Data, j: Jackson, k: string)
    requires (k in e <==> k in e') && (k in e ==> e[k] == e'[k])
    ensures UpdateField(e, data, j, k).Err? <==> UpdateField(e', data, j, k).Err?
    ensures UpdateField(e, data, j, k).Err? ==> UpdateField(e, data, j, k) == UpdateField(e', data, j, k)
    ensures UpdateField(e, data, j, k).Ok? ==> var a, b := UpdateField(e, data, j, k).value, UpdateField(e', data, j, k).value;
      (k in a <==> k in b) && (k in a ==> a[k] == b[k])
  {
  }

  /** Repeating an assignment that succeeded leaves its key as the first one left it. */
  lemma UpdateFieldAgain(e: Record, data: Data, j: Jackson, k: string)
    requires UpdateField(e, data, j, k).Ok?
    ensures var once := UpdateField(e, data, j, k).value;
      UpdateField(once, data, j, k).Ok?
      && (k in UpdateField(once, data, j, k).value <==> k in once)
      && (k in once ==> UpdateField(once, data, j, k).value[k] == once[k])
  {
  }

  /**
   * When no assignment fails, every key of `keys` holds what its own
   * assignment stores, as if it were the only one made.
   */
  lemma {:induction false} UpdateFromApplies(e: Record, data: Data, j: Jackson, keys: seq<string>)
    requires UpdateFrom(e, data, j, keys).1.None?
    ensures forall x :: x in keys ==> UpdateField(e, data, j, x).Ok?
    ensures var after := UpdateFrom(e, data, j, keys).0;
      forall x :: x in keys ==> (
        (x in after <==> x in UpdateField(e, data, j, x).value)
        && (x in after ==> after[x] == UpdateField(e, data, j, x).value[x]))
    decreases |keys|
  {
    if keys != [] {
      var k := keys[0];
      var e1 := UpdateField(e, data, j, k).value;
      UpdateFromApplies(e1, data, j, keys[1..]);
      var after := UpdateFrom(e, data, j, keys).0;
      assert after == UpdateFrom(e1, data, j, keys[1..]).0;
      forall x | x in keys
        ensures UpdateField(e, data, j, x).Ok?
        ensures (x in after <==> x in UpdateField(e, data, j, x).value)
        ensures x in after ==> after[x] == UpdateField(e, data, j, x).value[x]
      {
        if x == k {
          UpdateFieldAgain(e, data, j, k);
          if x in keys[1..] {
            UpdateFieldLocal(e1, e1, data, j, k);
          }
        } else {
          assert x in keys[1..];
          UpdateFieldLocal(e1, e, data, j, x);
        }
      }
    }
  }

  /**
   * The update by `keys` stopped at position `i`: what it left is the
   * complete update by the keys before `i`, and the assignment at `i` failed
   * with the reported problem.
   */
  predicate StoppedAt(e: Record, data: Data, j: Jackson, keys: seq<string>, i: int)
  {
    var r := UpdateFrom(e, data, j, keys);
    0 <= i < |keys| && r.1.Some?
    && UpdateFrom(e, data, j, keys[..i]) == (r.0, None)
    && UpdateField(r.0, data, j, keys[i]) == Err(r.1.value)
  }

  /** A failing assignment stops the update at some key. */
  lemma {:induction false} UpdateFromStops(e: Record, data: Data, j: Jackson, keys: seq<string>)
    requires UpdateFrom(e, data, j, keys).1.Some?
    ensures exists i :: StoppedAt(e, data, j, keys, i)
    decreases |keys|
  {
    var step := UpdateField(e, data, j, keys[0]);
    if step.Err? {
      assert keys[..0] == [];
      assert StoppedAt(e, data, j, keys, 0);
    } else {
      UpdateFromCons(e, data, j, keys);
      UpdateFromStops(step.value, data, j, keys[1..]);
      var i :| StoppedAt(step.value, data, j, keys[1..], i);
      PrefixCons(keys, i);
      UpdateFromCons(e, data, j, keys[..i + 1]);
      assert StoppedAt(e, data, j, keys, i + 1);
    }
  }

  /** After a first assignment that succeeds, the update goes on from its result. */
  lemma UpdateFromCons(e: Record, data: Data, j: Jackson, keys: seq<string>)
    requires keys != [] && UpdateField(e, data, j, keys[0]).Ok?
    ensures UpdateFrom(e, data, j, keys) == UpdateFrom(UpdateField(e, data, j, keys[0]).value, data, j, keys[1..])
  {
  }

  lemma PrefixCons(keys: seq<string>, i: nat)
    requires i < |keys| - 1
    ensures keys[..i + 1] != [] && keys[..i + 1][0] == keys[0] && keys[..i + 1][1..] == keys[1..][..i]
    ensures keys[i + 1] == keys[1..][i]
  {
  }

  /** The annotation after `updateAnnotation`'s assignments, and the failure that stopped them, if any. */
  function UpdatedAnnotation(e: Record, data: Data, j: Jackson): (Record, Option<Problem>)
  {
    UpdateFrom(e, data, j, UpdateKeys)
  }

  /**
   * An update only touches fields whose keys the request carries; the id,
   * the transformer and inspection numbers, the user and the creation time
   * are never changed, whatever the request says.
   */
  lemma UpdateKeepsIdentity(e: Record, data: Data, j: Jackson, x: string)
    requires x !in UpdateKeys || x !in data
    ensures var after := UpdatedAnnotation(e, data, j).0;
      (x in after <==> x in e) && (x in e ==> after[x] == e[x])
  {
  }

  lemma FixedFields()
    ensures forall x :: x in ["id", "transformerNo", "inspectionNo", "userId", "createdAt", "updatedAt"] ==> x !in UpdateKeys
  {
  }

  /** A request with none of the update keys changes nothing and cannot fail. */
  lemma {:induction false} EmptyUpdate(e: Record, data: Data, j: Jackson, keys: seq<string>)
    requires forall i :: 0 <= i < |keys| ==> keys[i] !in data
    ensures UpdateFrom(e, data, j, keys) == (e, None)
    decreases |keys|
  {
    if keys != [] {
      EmptyUpdate(e, data, j, keys[1..]);
    }
  }

  /** What is stored at commit: a changed annotation gets the update time, an unchanged one does not. */
  function Flushed(before: Record, after: Record, now: int): (r: Record)
    ensures after == before ==> r == before
    ensures after != before ==> r == after["updatedAt" := VDateTime(now)]
  {
    if after == before then before else after["updatedAt" := VDateTime(now)]
  }

  /** The stored annotation keeps its id through an update and its flush. */
  lemma FlushedKeepsId(before: Record, data: Data, j: Jackson, now: int)
    requires Keyed(before)
    ensures var stored := Flushed(before, UpdatedAnnotation(before, data, j).0, now);
      Keyed(stored) && IdOf(stored) == IdOf(before)
  {
    var after := UpdatedAnnotation(before, data, j).0;
    IdFixed();
    UpdateKeepsIdentity(before, data, j, "id");
    assert "id" in after && after["id"] == before["id"];
  }

  /** The id is not among the update keys, and it is not the update time. */
  lemma IdFixed()
    ensures "id" !in UpdateKeys && "id" != "updatedAt"
  {
  }

  // ------------------------------------------------------------ entityToMap

  /** The map an annotation is returned as; `polygon` is None when the map has no such key. */
  datatype AnnotationView = AnnotationView(
    id: Option<int>, transformerNo: Option<string>, inspectionNo: Option<string>,
    bbox: Json, polygon: Option<Json>, shape: Option<string>, className: Option<string>,
    confidence: Option<real>, annotationType: Option<string>, status: Option<string>,
    comment: Option<string>, userId: Option<string>, createdAt: Option<int>, updatedAt: Option<int>)

  function Instant(rec: Record, k: string): Option<int>
  {
    if k in rec && rec[k].VDateTime? then Some(rec[k].instant) else None
  }

  function Real(rec: Record, k: string): Option<real>
  {
    if k in rec && rec[k].VDouble? then Some(rec[k].x) else None
  }

  /** Reading a stored JSON text back; reading a null text throws. */
  function ReadBack(text: Option<string>, k: string, j: Jackson): (r: Result<Json, Problem>)
    ensures r.Ok? <==> text.Some? && j.read(text.value).Some?
    ensures r.Ok? ==> r.value == j.read(text.value).value
  {
    if text.None? || j.read(text.value).None? then Err(ReadFailed(k)) else Ok(j.read(text.value).value)
  }

  /**
   * `entityToMap`: every field, the bounding box and the polygon read back
   * from their JSON text; the polygon key exists only when a polygon is stored.
   */
  function ToView(rec: Record, j: Jackson): (r: Result<AnnotationView, Problem>)
    ensures r.Ok? <==> (ReadBack(Str(rec, "bbox"), "bbox", j).Ok?
      && (Str(rec, "polygon").Some? ==> ReadBack(Str(rec, "polygon"), "polygon", j).Ok?))
    ensures r.Ok? ==> ((r.value.id.Some? <==> Keyed(rec)) && (r.value.id.Some? ==> r.value.id.value == IdOf(rec))
      && r.value.bbox == ReadBack(Str(rec, "bbox"), "bbox", j).value
      && (r.value.polygon.Some? <==> Str(rec, "polygon").Some?)
      && (r.value.polygon.Some? ==> r.value.polygon.value == ReadBack(Str(rec, "polygon"), "polygon", j).value)
      && r.value.transformerNo == Str(rec, "transformerNo") && r.value.inspectionNo == Str(rec, "inspectionNo")
      && r.value.shape == Str(rec, "shape") && r.value.className == Str(rec, "className")
      && r.value.confidence == Real(rec, "confidence") && r.value.annotationType == Str(rec, "annotationType")
      && r.value.status == Str(rec, "status") && r.value.comment == Str(rec, "comment")
      && r.value.userId == Str(rec, "userId")
      && r.value.createdAt == Instant(rec, "createdAt") && r.value.updatedAt == Instant(rec, "updatedAt"))
  {
    var bbox :- ReadBack(Str(rec, "bbox"), "bbox", j);
    var polygon :- if Str(rec, "polygon").None? then Ok(None)
                   else var p :- ReadBack(Str(rec, "polygon"), "polygon", j); Ok(Some(p));
    var id := if Keyed(rec) then Some(IdOf(rec)) else None;
    Ok(AnnotationView(id, Str(rec, "transformerNo"), Str(rec, "inspectionNo"), bbox, polygon,
      Str(rec, "shape"), Str(rec, "className"), Real(rec, "confidence"), Str(rec, "annotationType"),
      Str(rec, "status"), Str(rec, "comment"), Str(rec, "userId"), Instant(rec, "createdAt"), Instant(rec, "updatedAt")))
  }

  /** The views of a list of annotations, in order; the first that cannot be read fails the list. */
  function Views(rows: seq<Record>, j: Jackson): (r: Result<seq<AnnotationView>, Problem>)
    ensures r.Ok? <==> forall i :: 0 <= i < |rows| ==> ToView(rows[i], j).Ok?
    ensures r.Ok? ==> |r.value| == |rows| && forall i :: 0 <= i < |rows| ==> r.value[i] == ToView(rows[i], j).value
  {
    if rows == [] then Ok([])
    else
      var init :- Views(rows[..|rows| - 1], j);
      var last :- ToView(rows[|rows| - 1], j);
      Ok(init + [last])
  }

  /** Reading one more annotation appends its view. */
  lemma ViewsStep(rows: seq<Record>, i: int, j: Jackson)
    requires 0 <= i < |rows| && Views(rows[..i], j).Ok? && ToView(rows[i], j).Ok?
    ensures Views(rows[..i + 1], j) == Ok(Views(rows[..i], j).value + [ToView(rows[i], j).value])
  {
    assert rows[..i + 1][..i] == rows[..i];
  }

  /**
   * A saved bounding box and polygon come back as they were sent, provided
   * reading the written JSON gives back the value.
   */
  lemma SavedShapesRoundTrip(transformerNo: string, inspectionNo: string, data: Data, j: Jackson, id: int, now: int)
    requires NewAnnotation(transformerNo, inspectionNo, data, j).Ok?
    requires j.read(j.write(Get(data, "bbox")).value) == Some(Get(data, "bbox"))
    requires Present(data, "polygon") ==> j.read(j.write(data["polygon"]).value) == Some(data["polygon"])
    ensures var saved := Stamped(NewAnnotation(transformerNo, inspectionNo, data, j).value, id, now);
      ToView(saved, j).Ok?
      && ToView(saved, j).value.bbox == Get(data, "bbox")
      && (ToView(saved, j).value.polygon.Some? <==> Present(data, "polygon"))
      && (Present(data, "polygon") ==> ToView(saved, j).value.polygon == Some(data["polygon"]))
  {
    var p := Parse(data, j).value;
    var e := Entity(transformerNo, inspectionNo, p);
    EntityFields(transformerNo, inspectionNo, p);
    var saved := Stamped(e, id, now);
    assert Str(saved, "bbox") == Str(e, "bbox") == Some(p.bbox);
    assert Str(saved, "polygon") == Str(e, "polygon") == p.polygon;
  }

  /** The persisting hook: both times are set to the moment of saving. */
  function Persisting(e: Record, now: int): Record
  {
    e["createdAt" := VDateTime(now)]["updatedAt" := VDateTime(now)]
  }

  /** The record a new annotation is saved as: its id and both times set on persisting. */
  function Stamped(e: Record, id: int, now: int): (r: Record)
    ensures Keyed(r) && IdOf(r) == id
    ensures Instant(r, "createdAt") == Some(now) && Instant(r, "updatedAt") == Some(now)
    ensures forall x :: x !in {"id", "createdAt", "updatedAt"} ==> (x in r <==> x in e) && (x in r ==> r[x] == e[x])
  {
    Persisting(e, now)["id" := VLong(id)]
  }

  /** The annotations of one transformer's inspection. */
  function OfPair(transformerNo: string, inspectionNo: string): Record -> bool
  {
    (rec: Record) => Str(rec, "transformerNo") == Some(transformerNo) && Str(rec, "inspectionNo") == Some(inspectionNo)
  }

  const NotFoundText := "Annotation not found"
  const RetrieveFailedText := "Failed to retrieve annotations"

  class AnnotationServiceImpl {
    const repository: Table

    ghost predicate Valid()
      reads this, repository
    {
      repository.Valid()
    }

    constructor (repository: Table)
      requires repository.Valid()
      ensures this.repository == repository && Valid()
    {
      this.repository := repository;
    }

    /**
     * `saveAnnotation`: build the entity, insert it (the id and both times are
     * set on persisting), and return it as a map. A failure while building
     * stores nothing; a failure while reading the saved annotation back still
     * leaves it stored. Either way the client gets BAD_REQUEST with the cause.
     */
    method SaveAnnotation(transformerNo: string, inspectionNo: string, data: Data, j: Jackson,
                          explain: Problem -> string, now: int)
      returns (r: Result<ApiResponse<AnnotationView>, Failure>)
      requires Valid()
      modifies repository
      ensures Valid()
      ensures var built := NewAnnotation(transformerNo, inspectionNo, data, j);
        (built.Err? ==> (r == Err(RaiseWith(BadRequest, "Failed to save annotation: " + explain(built.error)))
          && repository.rows == old(repository.rows) && repository.nextId == old(repository.nextId)))
        && (built.Ok? ==>
          var saved := Stamped(built.value, old(repository.nextId), now);
          repository.rows == old(repository.rows) + [saved] && repository.nextId == old(repository.nextId) + 1
          && (r.Ok? <==> ToView(saved, j).Ok?)
          && (r.Ok? ==> r.value == Respond(Success, Some(ToView(saved, j).value)))
          && (r.Err? ==> r.error == RaiseWith(BadRequest, "Failed to save annotation: " + explain(ToView(saved, j).error))))
    {
      var built := NewAnnotation(transformerNo, inspectionNo, data, j);
      if built.Err? {
        return Err(RaiseWith(BadRequest, "Failed to save annotation: " + explain(built.error)));
      }
      EntityFields(transformerNo, inspectionNo, Parse(data, j).value);
      var entity := Persisting(built.value, now);
      assert !Keyed(entity);
      var saved := repository.Save(entity);
      var view := ToView(saved, j);
      if view.Err? {
        return Err(RaiseWith(BadRequest, "Failed to save annotation: " + explain(view.error)));
      }
      return Ok(Respond(Success, Some(view.value)));
    }

    /**
     * `getAnnotations`: the annotations of the pair, each turned into a map in
     * table order; an annotation that cannot be read back fails the listing
     * with NOT_FOUND.
     */
    method GetAnnotations(transformerNo: string, inspectionNo: string, j: Jackson)
      returns (r: Result<ApiResponse<seq<AnnotationView>>, Failure>)
      requires Valid()
      ensures var views := Views(Where(repository.rows, OfPair(transformerNo, inspectionNo)), j);
        (r.Ok? <==> views.Ok?)
        && (r.Ok? ==> r.value == Respond(Success, Some(views.value)))
        && (r.Err? ==> r.error == RaiseWith(NotFound, RetrieveFailedText))
    {
      var entities := Where(repository.rows, OfPair(transformerNo, inspectionNo));
      var response: seq<AnnotationView> := [];
      var i := 0;
      while i < |entities|
        invariant 0 <= i <= |entities|
        invariant Views(entities[..i], j) == Ok(response)
      {
        var view := ToView(entities[i], j);
        if view.Err? {
          assert !Views(entities, j).Ok? by {
            assert ToView(entities[i], j).Err?;
          }
          return Err(RaiseWith(NotFound, RetrieveFailedText));
        }
        ViewsStep(entities, i, j);
        response := response + [view.value];
        i := i + 1;
      }
      assert entities[..i] == entities;
      return Ok(Respond(Success, Some(response)));
    }

    /**
     * `updateAnnotation`: an unknown id is rethrown as NOT_FOUND "Annotation
     * not found" and changes nothing. Otherwise the guarded assignments run on
     * the loaded annotation, and what they changed is stored at commit, with
     * the update time when anything changed, even when a later assignment or
     * the read-back fails with BAD_REQUEST. The returned map is taken before
     * the commit, so it shows the previous update time.
     */
    method UpdateAnnotation(id: int, data: Data, j: Jackson, explain: Problem -> string, now: int)
      returns (r: Result<ApiResponse<AnnotationView>, Failure>)
      requires Valid()
      modifies repository
      ensures Valid() && repository.nextId == old(repository.nextId)
      ensures Lookup(old(repository.rows), id).None? ==>
        r == Err(RaiseWith(NotFound, NotFoundText)) && repository.rows == old(repository.rows)
      ensures Lookup(old(repository.rows), id).Some? ==>
        var before := Lookup(old(repository.rows), id).value;
        var (after, problem) := UpdatedAnnotation(before, data, j);
        repository.rows == old(repository.rows)[IndexOfId(old(repository.rows), id) := Flushed(before, after, now)]
        && (problem.Some? ==> r == Err(RaiseWith(BadRequest, "Failed to update annotation: " + explain(problem.value))))
        && (problem.None? ==> ((r.Ok? <==> ToView(after, j).Ok?)
          && (r.Ok? ==> r.value == Respond(Success, Some(ToView(after, j).value)))
          && (r.Err? ==> r.error == RaiseWith(BadRequest, "Failed to update annotation: " + explain(ToView(after, j).error)))))
    {
      var found := Lookup(repository.rows, id);
      if found.None? {
        return Err(RaiseWith(NotFound, NotFoundText));
      }
      var before := found.value;
      var (after, problem) := UpdatedAnnotation(before, data, j);
      FlushedKeepsId(before, data, j, now);
      var _ := repository.Save(Flushed(before, after, now));
      if problem.Some? {
        return Err(RaiseWith(BadRequest, "Failed to update annotation: " + explain(problem.value)));
      }
      var view := ToView(after, j);
      if view.Err? {
        return Err(RaiseWith(BadRequest, "Failed to update annotation: " + explain(view.error)));
      }
      return Ok(Respond(Success, Some(view.value)));
    }

    /**
     * `deleteAnnotation`: an unknown id is rethrown as NOT_FOUND "Annotation
     * not found" and removes nothing; otherwise exactly that annotation goes.
     */
    method DeleteAnnotation(id: int) returns (r: Result<ApiResponse<Void>, Failure>)
      requires Valid()
      modifies repository`rows
      ensures Valid()
      ensures r.Ok? <==> Lookup(old(repository.rows), id).Some?
      ensures r.Err? ==> r.error == RaiseWith(NotFound, NotFoundText) && repository.rows == old(repository.rows)
      ensures r.Ok? ==> (r.value == Respond(Success, None)
        && forall x :: x in repository.rows <==> x in old(repository.rows) && IdOf(x) != id)
    {
      if Lookup(repository.rows, id).None? {
        return Err(RaiseWith(NotFound, NotFoundText));
      }
      repository.Delete(id);
      return Ok(Respond(Success, None));
    }
  }
}
