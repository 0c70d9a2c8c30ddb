/**
 * The image half of the custom mapper: a new image entity from an upload
 * (running the detector on thermal images), the partial update of a stored
 * image, and the response built from a stored image.
 *
 * An image entity is a record with the fields "id", "type", "transformerNo",
 * "inspectionNo", "weather", "uploader", "dateTime", "image" (bytes) and
 * "detectionJson". JSON writing and reading and Base64 encoding are library
 * concerns and come in as functions.
 */
module ImageMapper {
  import opened Wrappers
  import opened Beans
  import opened PythonYolo

  /** An upload: the multipart photo is given as its bytes. */
  datatype ImageRequest = ImageRequest(
    transformerNo: Option<string>, inspectionNo: Option<string>, imageType: Option<string>,
    weather: Option<string>, photo: Option<seq<int>>)

  /**
   * The circumstances of one detector run: the temporary file, the debug
   * folder, what the process does, whether preserving a copy succeeds, the
   * clock reading, and the JSON reader.
   */
  datatype Detector = Detector(temp: string, debugDir: string, launch: Launch, copyOk: bool, millis: int, lib: JsonLib)

  /** What running the detector under `d` returns. */
  function Outcome(d: Detector): Result<seq<Anomaly>, Thrown>
  {
    RunOutcome(d.debugDir, d.launch, d.copyOk, d.millis, d.lib)
  }

  /** `writeValueAsString` of an anomaly list; None is a processing failure. */
  type Encoder = seq<Anomaly> -> Option<string>

  const YoloFailure := "Failed to process image with YOLO"

  predicate IsThermal(request: ImageRequest) { request.imageType == Some("Thermal") }

  /** The stored detection text: empty for other types, the encoded anomalies for thermal ones. */
  function DetectionJson(thermal: bool, detection: Result<seq<Anomaly>, Thrown>, encode: Encoder): Result<string, string>
  {
    if !thermal then Ok("")
    else if detection.Err? then
      (if detection.error.Unchecked? then Err(detection.error.message) else Err(YoloFailure))
    else if encode(detection.value).None? then Err(YoloFailure)
    else Ok(encode(detection.value).value)
  }

  /**
   * `toEntity(ImageRequest)` given what the detector returned for the photo.
   * A detector failure that is unchecked passes through with its own message;
   * a checked one, or a failure to encode the anomalies, becomes the YOLO
   * processing failure. The builder fills in the uploader and the upload time.
   */
  function NewImage(request: ImageRequest, detection: Result<seq<Anomaly>, Thrown>, encode: Encoder, now: string): (r: Result<Record, string>)
    requires request.photo.Some?
    ensures r.Err? <==> IsThermal(request) && (detection.Err? || encode(detection.value).None?)
    ensures r.Err? && detection.Err? && detection.error.Unchecked? ==> r.error == detection.error.message
    ensures r.Err? && !(detection.Err? && detection.error.Unchecked?) ==> r.error == YoloFailure
    ensures r.Ok? ==> ("id" !in r.value
      && Str(r.value, "type") == request.imageType
      && Str(r.value, "transformerNo") == request.transformerNo
      && Str(r.value, "inspectionNo") == request.inspectionNo
      && Str(r.value, "weather") == request.weather
      && Stored(r.value) == request.photo
      && Str(r.value, "detectionJson") == Some(if IsThermal(request) then encode(detection.value).value else "")
      && Str(r.value, "uploader") == Some("System")
      && Str(r.value, "dateTime") == Some(now))
  {
    var json := DetectionJson(IsThermal(request), detection, encode);
    if json.Err? then Err(json.error)
    else
      var named := SetIfPresent(SetIfPresent(SetIfPresent(SetIfPresent(map[],
        "type", request.imageType), "transformerNo", request.transformerNo),
        "inspectionNo", request.inspectionNo), "weather", request.weather);
      Ok(named["image" := VBytes(request.photo.value)]["detectionJson" := VString(json.value)]
        ["uploader" := VString("System")]["dateTime" := VString(now)])
  }

  /** The detector's answer as `toEntity` sees it: a real run for thermal images only. */
  function Detection(request: ImageRequest, d: Detector): Result<seq<Anomaly>, Thrown>
  {
    if IsThermal(request) then Outcome(d) else Ok([])
  }

  /** `toEntity(ImageRequest)`: run the detector on thermal images, then build the entity. */
  method ToEntity(request: ImageRequest, disk: Disk, d: Detector, encode: Encoder, now: string) returns (r: Result<Record, string>)
    requires request.photo.Some?
    modifies disk
    ensures r == NewImage(request, Detection(request, d), encode, now)
    ensures !IsThermal(request) ==> disk.files == old(disk.files)
  {
    if IsThermal(request) {
      var detection := RunYolo(disk, d.temp, d.debugDir, d.launch, d.copyOk, d.millis, d.lib);
      return NewImage(request, detection, encode, now);
    }
    return NewImage(request, Ok([]), encode, now);
  }

  /** The stored image bytes, or null. */
  function Stored(rec: Record): (r: Option<seq<int>>)
    ensures r.Some? <==> "image" in rec && rec["image"].VBytes?
  {
    if "image" in rec && rec["image"].VBytes? then Some(rec["image"].bytes) else None
  }

  /**
   * `updateEntity(ImageDataEntity, ImageRequest)`: type, transformer number and
   * inspection number are replaced when given; the image only when a
   * non-empty photo is given.
   */
  function UpdatedImage(existing: Record, request: ImageRequest): Record
  {
    var named := SetIfPresent(SetIfPresent(SetIfPresent(existing,
      "type", request.imageType), "transformerNo", request.transformerNo), "inspectionNo", request.inspectionNo);
    if request.photo.Some? && |request.photo.value| > 0 then named["image" := VBytes(request.photo.value)] else named
  }

  /** What an image update changes, field by field; the id, weather, uploader, time and detection are kept. */
  lemma UpdateImageFieldwise(existing: Record, request: ImageRequest, k: string)
    ensures var after := UpdatedImage(existing, request);
      (k !in {"type", "transformerNo", "inspectionNo", "image"} ==>
        (k in after <==> k in existing) && (k in after ==> after[k] == existing[k]))
      && (Str(after, "type") == if request.imageType.Some? then request.imageType else Str(existing, "type"))
      && (Str(after, "transformerNo") == if request.transformerNo.Some? then request.transformerNo else Str(existing, "transformerNo"))
      && (Str(after, "inspectionNo") == if request.inspectionNo.Some? then request.inspectionNo else Str(existing, "inspectionNo"))
      && (Stored(after) == if request.photo.Some? && |request.photo.value| > 0 then request.photo else Stored(existing))
  {
    if k !in {"type", "transformerNo", "inspectionNo", "image"} {
      UpdateKeepsOthers(existing, request, k);
    }
    UpdateSetsGiven(existing, request);
  }

  lemma UpdateKeepsOthers(existing: Record, request: ImageRequest, k: string)
    requires k != "type" && k != "transformerNo" && k != "inspectionNo" && k != "image"
    ensures var after := UpdatedImage(existing, request);
      (k in after <==> k in existing) && (k in after ==> after[k] == existing[k])
  {
  }

  lemma UpdateSetsGiven(existing: Record, request: ImageRequest)
    ensures var after := UpdatedImage(existing, request);
      (Str(after, "type") == if request.imageType.Some? then request.imageType else Str(existing, "type"))
      && (Str(after, "transformerNo") == if request.transformerNo.Some? then request.transformerNo else Str(existing, "transformerNo"))
      && (Str(after, "inspectionNo") == if request.inspectionNo.Some? then request.inspectionNo else Str(existing, "inspectionNo"))
      && (Stored(after) == if request.photo.Some? && |request.photo.value| > 0 then request.photo else Stored(existing))
  {
    UpdatedKeysDistinct();
  }

  /** The four keys an image update writes are different keys. */
  lemma UpdatedKeysDistinct()
    ensures "type" != "transformerNo" && "type" != "inspectionNo" && "type" != "image"
    ensures "transformerNo" != "inspectionNo" && "transformerNo" != "image" && "inspectionNo" != "image"
  {
  }

  /** Applying the same update twice is the same as applying it once. */
  lemma UpdateImageIdempotent(existing: Record, request: ImageRequest)
    ensures UpdatedImage(UpdatedImage(existing, request), request) == UpdatedImage(existing, request)
  {
    var once := UpdatedImage(existing, request);
    var twice := UpdatedImage(once, request);
    forall k ensures (k in twice <==> k in once) && (k in twice ==> twice[k] == once[k]) {
      UpdateImageFieldwise(once, request, k);
      UpdateImageFieldwise(existing, request, k);
    }
    assert twice == once;
  }

  /** The image response, as the mapper constructs it. */
  datatype ImageResponse = ImageResponse(
    id: Option<int>, transformerNo: Option<string>, inspectionNo: Option<string>, imageType: Option<string>,
    weather: Option<string>, anomalies: Option<seq<Anomaly>>, dateTime: Option<string>, photoBase64: Option<string>)

  /** Base64 encoding of bytes. */
  type Base64 = seq<int> -> string

  /** Reading a JSON anomaly list; None is a parse failure. */
  type ListReader = string -> Option<seq<Anomaly>>

  /**
   * `toResponse(ImageDataEntity)`: null for null. The photo is encoded only
   * when there are bytes; the anomalies are read only from a non-empty
   * detection text, and a text that does not parse gives null anomalies.
   */
  function ToResponse(entity: Option<Record>, base64: Base64, read: ListReader): (r: Option<ImageResponse>)
    ensures r.None? <==> entity.None?
    ensures r.Some? ==> var e := entity.value;
      (r.value.id.Some? <==> "id" in e && e["id"].VLong?)
      && (r.value.id.Some? ==> r.value.id.value == e["id"].n)
      && r.value.transformerNo == Str(e, "transformerNo") && r.value.inspectionNo == Str(e, "inspectionNo")
      && r.value.imageType == Str(e, "type") && r.value.weather == Str(e, "weather")
      && r.value.dateTime == Str(e, "dateTime")
      && (r.value.photoBase64.Some? <==> Stored(e).Some? && |Stored(e).value| > 0)
      && (r.value.photoBase64.Some? ==> r.value.photoBase64.value == base64(Stored(e).value))
      && (r.value.anomalies.Some? <==>
            Str(e, "detectionJson").Some? && |Str(e, "detectionJson").value| > 0
            && read(Str(e, "detectionJson").value).Some?)
      && (r.value.anomalies.Some? ==> r.value.anomalies == read(Str(e, "detectionJson").value))
  {
    if entity.None? then None
    else
      var e := entity.value;
      var bytes := Stored(e);
      var photo := if bytes.Some? && |bytes.value| > 0 then Some(base64(bytes.value)) else None;
      var json := Str(e, "detectionJson");
      var anomalies := if json.Some? && |json.value| > 0 then read(json.value) else None;
      var id := if "id" in e && e["id"].VLong? then Some(e["id"].n) else None;
      Some(ImageResponse(id, Str(e, "transformerNo"), Str(e, "inspectionNo"), Str(e, "type"),
        Str(e, "weather"), anomalies, Str(e, "dateTime"), photo))
  }

  /**
   * The anomalies stored for a thermal upload come back in the response,
   * provided reading the written JSON gives back the list.
   */
  lemma StoredDetectionShown(request: ImageRequest, anomalies: seq<Anomaly>, encode: Encoder, now: string,
                             base64: Base64, read: ListReader)
    requires request.photo.Some? && IsThermal(request)
    requires encode(anomalies).Some? && |encode(anomalies).value| > 0
    requires read(encode(anomalies).value) == Some(anomalies)
    ensures NewImage(request, Ok(anomalies), encode, now).Ok?
    ensures ToResponse(Some(NewImage(request, Ok(anomalies), encode, now).value), base64, read).value.anomalies == Some(anomalies)
  {
  }

  /**
   * Other image types store an empty detection text, so their response has
   * no anomalies; the uploaded photo is shown when it is non-empty.
   */
  lemma OtherTypesShowNoAnomalies(request: ImageRequest, d: Detector, encode: Encoder, now: string,
                                  base64: Base64, read: ListReader)
    requires request.photo.Some? && !IsThermal(request)
    ensures NewImage(request, Detection(request, d), encode, now).Ok?
    ensures var shown := ToResponse(Some(NewImage(request, Detection(request, d), encode, now).value), base64, read).value;
      shown.anomalies.None?
      && (|request.photo.value| > 0 ==> shown.photoBase64 == Some(base64(request.photo.value)))
  {
  }
}
