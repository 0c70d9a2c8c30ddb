/**
 * The upload endpoint of the image controller: save, then a best-effort
 * detection, then read the stored image back, with the detection's outcome
 * appended to the read-back description.
 */
module ImageController {
  import opened Wrappers
  import opened Text
  import opened Responses
  import Beans
  import opened PythonYolo
  import opened ImageMapper
  import opened ImageService

  /**
   * The code and message the controller keeps from the detection attempt: the
   * response's own, or "2007" and the exception's message when it failed.
   */
  function DetectionNote(det: Result<ApiResponse<seq<Anomaly>>, Failure>, unlisted: CodeName -> string)
    : (r: (Option<string>, Option<string>))
    ensures r.0.Some?
    ensures det.Ok? ==> r.0.value == det.value.code && r.1 == det.value.description
    ensures det.Err? ==> (r.0 == Some("2007") && r.1.Some? && StartsWith(r.1.value, "Detection attempt failed: ")
      && r.1.value[|"Detection attempt failed: "|..] == MessageText(det.error, unlisted))
  {
    if det.Ok? then (Some(det.value.code), det.value.description)
    else (Some("2007"), Some("Detection attempt failed: " + MessageText(det.error, unlisted)))
  }

  /**
   * The description after the detection note: unchanged for a null or blank
   * message; otherwise the old description and " | " (when there was one),
   * then the code in parentheses and the message.
   */
  function Combined(description: Option<string>, code: Option<string>, msg: Option<string>): (r: Option<string>)
    ensures msg.None? || IsBlank(msg.value) ==> r == description
    ensures msg.Some? && !IsBlank(msg.value) ==>
      r.Some? && |r.value| >= |msg.value| && r.value[|r.value| - |msg.value|..] == msg.value
      && (description.Some? ==> StartsWith(r.value, description.value + " | "))
      && (description.None? ==> StartsWith(r.value, "Detection: ("))
  {
    if msg.Some? && !IsBlank(msg.value) then
      var prefix := if description.None? then "" else description.value + " | ";
      var combined := prefix + "Detection: (" + (if code.None? then "" else code.value) + ") " + msg.value;
      assert combined[..|prefix|] == prefix;
      Some(combined)
    else description
  }

  /** The read-back response with the detection note folded into its description. */
  function Annotated<T>(resp: ApiResponse<T>, det: Result<ApiResponse<seq<Anomaly>>, Failure>, unlisted: CodeName -> string)
    : (r: ApiResponse<T>)
    ensures r.code == resp.code && r.data == resp.data && r.page == resp.page
  {
    var (code, msg) := DetectionNote(det, unlisted);
    resp.(description := Combined(resp.description, code, msg))
  }

  /** Reading the uploaded image back. */
  function ReadBack(rows: seq<Beans.Record>, request: ImageRequest, base64: Base64, read: ListReader)
    : Result<ApiResponse<ImageResponse>, Failure>
  {
    GetImage(rows, request.transformerNo, request.inspectionNo, request.imageType, base64, read)
  }

  /** The HTTP status comes from the read-back code alone, whatever the detection said. */
  lemma StatusIgnoresDetection<T>(resp: ApiResponse<T>, det: Result<ApiResponse<seq<Anomaly>>, Failure>, unlisted: CodeName -> string)
    ensures SetResponseEntity(Annotated(resp, det, unlisted)).status == SetResponseEntity(resp).status
  {
  }

  /** A failed detection is reported as "(2007) Detection attempt failed: …" after the old description. */
  lemma FailedDetectionNote<T>(resp: ApiResponse<T>, f: Failure, unlisted: CodeName -> string)
    requires resp.description.Some?
    ensures Annotated(resp, Err(f), unlisted).description
         == Some(resp.description.value + " | " + "Detection: (" + "2007" + ") "
                 + ("Detection attempt failed: " + MessageText(f, unlisted)))
  {
    var msg := "Detection attempt failed: " + MessageText(f, unlisted);
    assert !JavaSpace(msg[0]);
  }

  /** The table after a successful `saveImage`: the old image under the key removed, the new one appended. */
  function SavedTable(rows: seq<Beans.Record>, nextId: int, request: ImageRequest, d: Detector, encode: Encoder, now: string)
    : seq<Beans.Record>
    requires ValidateImageRequest(request).None? && NewImage(request, Detection(request, d), encode, now).Ok?
  {
    var found := FindUnique(rows, ByKey(request.transformerNo, request.inspectionNo, request.imageType));
    RemoveFound(rows, found) + [NewImage(request, Detection(request, d), encode, now).value["id" := Beans.VLong(nextId)]]
  }

  class ImageDataController {
    const service: ImageDataService

    ghost predicate Valid()
      reads this, service, service.repository
    {
      service.Valid()
    }

    constructor (service: ImageDataService)
      requires service.Valid()
      ensures this.service == service && Valid()
    {
      this.service := service;
    }

    /**
     * `uploadImage`: a failed save ends the request before detection. A failed
     * detection does not: its message is folded into the description of the
     * read-back image, whose code alone decides the status. `onUpload` and
     * `onDetect` are the detector's two runs (the mapper runs it on a thermal
     * upload, and detection runs it again).
     */
    method UploadImage(request: ImageRequest, disk: Disk, onUpload: Detector, onDetect: Detector, encode: Encoder,
                       now: string, base64: Base64, read: ListReader, unlisted: CodeName -> string)
      returns (r: Result<Reply<ImageResponse>, Failure>)
      requires Valid()
      modifies service.repository, disk
      ensures Valid()
      ensures ValidateImageRequest(request).Some? ==>
        r == Err(Raise(ImageNotCreated)) && service.repository.rows == old(service.repository.rows)
      ensures r.Err? ==> (r.error == Raise(ImageNotCreated)
        || r.error == RaiseText(NotFoundText(request.transformerNo, request.inspectionNo))
        || r.error == Raise(ImageNotConnected))
      ensures r.Ok? ==> r.value.status == 200 && r.value.body.code == "2000"
      ensures r.Ok? ==> (ValidateImageRequest(request).None?
        && !FindUnique(old(service.repository.rows), ByKey(request.transformerNo, request.inspectionNo, request.imageType)).Several?
        && NewImage(request, Detection(request, onUpload), encode, now).Ok?)
      ensures r.Ok? ==> (ReadBack(service.repository.rows, request, base64, read).Ok?
        && r.value == SetResponseEntity(Annotated(ReadBack(service.repository.rows, request, base64, read).value,
             DetectResult(SavedTable(old(service.repository.rows), old(service.repository.nextId), request, onUpload, encode, now),
               request.transformerNo, request.inspectionNo, onDetect), unlisted)))
    {
      var saveResp := service.SaveImage(request, disk, onUpload, encode, now);
      if saveResp.Err? {
        return Err(saveResp.error);
      }
      r := DetectAndReadBack(request, disk, onDetect, encode, base64, read, unlisted);
    }

    /** The part of `uploadImage` after a successful save. */
    method DetectAndReadBack(request: ImageRequest, disk: Disk, onDetect: Detector, encode: Encoder,
                             base64: Base64, read: ListReader, unlisted: CodeName -> string)
      returns (r: Result<Reply<ImageResponse>, Failure>)
      requires Valid()
      modifies service.repository, disk
      ensures Valid()
      ensures r.Err? ==> (r.error == RaiseText(NotFoundText(request.transformerNo, request.inspectionNo))
        || r.error == Raise(ImageNotConnected))
      ensures r.Ok? ==> r.value.status == 200 && r.value.body.code == "2000"
      ensures r.Ok? ==> (ReadBack(service.repository.rows, request, base64, read).Ok?
        && r.value == SetResponseEntity(Annotated(ReadBack(service.repository.rows, request, base64, read).value,
             DetectResult(old(service.repository.rows), request.transformerNo, request.inspectionNo, onDetect), unlisted)))
    {
      var det := AttemptDetection(request, disk, onDetect, encode);
      var resp := ReadBack(service.repository.rows, request, base64, read);
      if resp.Err? {
        return Err(resp.error);
      }
      var body := AnnotateBody(resp.value, det, unlisted);
      StatusIgnoresDetection(resp.value, det, unlisted);
      return Ok(SetResponseEntity(body));
    }

    /** The best-effort detection of `uploadImage`: the reply `detectAnomalies` gives on the saved table. */
    method AttemptDetection(request: ImageRequest, disk: Disk, onDetect: Detector, encode: Encoder)
      returns (det: Result<ApiResponse<seq<Anomaly>>, Failure>)
      requires Valid()
      modifies service.repository, disk
      ensures Valid()
      ensures det == DetectResult(old(service.repository.rows), request.transformerNo, request.inspectionNo, onDetect)
    {
      det := service.DetectAnomalies(request.transformerNo, request.inspectionNo, disk, onDetect, encode);
    }

    /** The detection note appended to the read-back description. */
    static method AnnotateBody(read: ApiResponse<ImageResponse>, det: Result<ApiResponse<seq<Anomaly>>, Failure>, unlisted: CodeName -> string)
      returns (body: ApiResponse<ImageResponse>)
      ensures body == Annotated(read, det, unlisted)
    {
      var detectionMsg: Option<string>;
      var detectionCode: Option<string>;
      if det.Ok? {
        detectionCode := Some(det.value.code);
        detectionMsg := det.value.description;
      } else {
        detectionMsg := Some("Detection attempt failed: " + MessageText(det.error, unlisted));
        detectionCode := Some("2007");
      }
      assert (detectionCode, detectionMsg) == DetectionNote(det, unlisted);
      body := read;
      if detectionMsg.Some? && !IsBlank(detectionMsg.value) {
        var combined := if read.description.None? then "" else read.description.value + " | ";
        combined := combined + "Detection: (" + (if detectionCode.None? then "" else detectionCode.value) + ") " + detectionMsg.value;
        body := read.(description := Some(combined));
      }
      assert body.description == Combined(read.description, detectionCode, detectionMsg);
    }
  }
}
