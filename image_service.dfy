/**
 * The image service: upload (replacing the image stored under the same
 * transformer, inspection and type), lookup, update, deletion of an
 * inspection's images, and anomaly detection on the stored thermal image.
 *
 * A derived `findBy…` that returns an optional fails when more than one
 * stored image matches; that failure is an ordinary exception, so each
 * operation's catch-all turns it into the operation's own response code.
 */
module ImageService {
  import opened Wrappers
  import opened Text
  import opened Beans
  import opened Responses
  import opened Repository
  import opened PythonYolo
  import opened ImageMapper

  // ---------------------------------------------------------------- finders

  /** The result of a single-result finder. */
  datatype Found = Missing | One(rec: Record) | Several

  function FindUnique(rows: seq<Record>, p: Record -> bool): (r: Found)
    ensures r.Missing? <==> forall x :: x in rows ==> !p(x)
    ensures r.One? ==> r.rec in rows && p(r.rec) && forall x :: x in rows && p(x) ==> x == r.rec
    ensures r.Several? <==> |Where(rows, p)| >= 2
  {
    var matches := Where(rows, p);
    if |matches| == 0 then Missing
    else if |matches| == 1 then
      assert matches[0] in matches;
      One(matches[0])
    else
      assert matches[0] in matches;
      Several
  }

  /** A null argument of a derived query matches a null column. */
  predicate HasKey(rec: Record, transformerNo: Option<string>, inspectionNo: Option<string>, imageType: Option<string>)
  {
    Str(rec, "transformerNo") == transformerNo && Str(rec, "inspectionNo") == inspectionNo && Str(rec, "type") == imageType
  }

  /** `findByTransformerNoAndInspectionNoAndType` */
  function ByKey(transformerNo: Option<string>, inspectionNo: Option<string>, imageType: Option<string>): Record -> bool
  {
    rec => HasKey(rec, transformerNo, inspectionNo, imageType)
  }

  /** `findByTransformerNoAndType` */
  function ByTransformerAndType(transformerNo: Option<string>, imageType: Option<string>): Record -> bool
  {
    rec => Str(rec, "transformerNo") == transformerNo && Str(rec, "type") == imageType
  }

  predicate OfInspection(rec: Record, transformerNo: Option<string>, inspectionNo: Option<string>)
  {
    Str(rec, "transformerNo") == transformerNo && Str(rec, "inspectionNo") == inspectionNo
  }

  /** `existsBy…` and `deleteByTransformerNoAndInspectionNo` */
  function ByInspection(transformerNo: Option<string>, inspectionNo: Option<string>): Record -> bool
  {
    rec => OfInspection(rec, transformerNo, inspectionNo)
  }

  /** String concatenation and `%s` both print null as "null". */
  function Shown(s: Option<string>): string
  {
    if s.Some? then s.value else "null"
  }

  function NotFoundText(transformerNo: Option<string>, inspectionNo: Option<string>): string
  {
    "Image not found for Transformer: " + Shown(transformerNo) + ", Inspection: " + Shown(inspectionNo)
  }

  // ---------------------------------------------------------------- upload

  /** `validateImageRequest`: transformer number, inspection number, type and a non-empty photo. */
  function ValidateImageRequest(request: ImageRequest): (r: Option<Failure>)
    ensures r.None? <==> (request.transformerNo.Some? && request.inspectionNo.Some? && request.imageType.Some?
                          && request.photo.Some? && |request.photo.value| > 0)
    ensures r.Some? ==> r.value == RaiseWith(BadRequest, "Mandatory fields are missing for Image")
  {
    if request.transformerNo.None? || request.inspectionNo.None? || request.imageType.None?
       || request.photo.None? || |request.photo.value| == 0
    then Some(RaiseWith(BadRequest, "Mandatory fields are missing for Image"))
    else None
  }

  /** The table once the image a finder found, if any, is deleted. */
  function RemoveFound(rows: seq<Record>, found: Found): seq<Record>
  {
    if found.One? && Keyed(found.rec) then Without(rows, IdOf(found.rec)) else rows
  }

  /** No row satisfies the key, so none is selected. */
  lemma {:induction false} NoneSelected(rows: seq<Record>, key: Record -> bool)
    requires forall x :: x in rows ==> !key(x)
    ensures Where(rows, key) == []
  {
    if rows != [] {
      var init := rows[..|rows| - 1];
      assert forall x :: x in init ==> x in rows;
      NoneSelected(init, key);
      assert rows[|rows| - 1] in rows;
    }
  }

  /**
   * After an upload replaced the previous image under its key and inserted the
   * new one, the new image is the only one under that key.
   */
  lemma {:induction false} UploadLeavesOneImage(rows: seq<Record>, key: Record -> bool, added: Record)
    requires Ascending(rows)
    requires !FindUnique(rows, key).Several?
    requires key(added)
    ensures FindUnique(RemoveFound(rows, FindUnique(rows, key)) + [added], key) == One(added)
  {
    var found := FindUnique(rows, key);
    var kept := RemoveFound(rows, found);
    WithoutMembers(rows, if found.One? then IdOf(found.rec) else 0);
    forall x | x in kept ensures !key(x) {
      if found.One? {
        assert x in rows && IdOf(x) != IdOf(found.rec);
      }
    }
    var all := kept + [added];
    assert all[..|all| - 1] == kept;
    NoneSelected(kept, key);
    assert Where(all, key) == [added];
  }

  // ---------------------------------------------------------------- lookup

  /** The finder `getImage` uses: a baseline image belongs to the transformer, not to an inspection. */
  function ImageSelector(transformerNo: Option<string>, inspectionNo: Option<string>, imageType: Option<string>): Record -> bool
  {
    if imageType == Some("Baseline") then ByTransformerAndType(transformerNo, imageType)
    else ByKey(transformerNo, inspectionNo, imageType)
  }

  /**
   * `getImage`: the one matching image as a response. No match is reported
   * with a message and no response code; several matches are
   * IMAGE_NOT_CONNECTED.
   */
  function GetImage(rows: seq<Record>, transformerNo: Option<string>, inspectionNo: Option<string>,
                    imageType: Option<string>, base64: Base64, read: ListReader)
    : (r: Result<ApiResponse<ImageResponse>, Failure>)
    ensures r == Err(RaiseText(NotFoundText(transformerNo, inspectionNo)))
      <==> forall x :: x in rows ==> !ImageSelector(transformerNo, inspectionNo, imageType)(x)
    ensures r == Err(Raise(ImageNotConnected)) <==> |Where(rows, ImageSelector(transformerNo, inspectionNo, imageType))| >= 2
    ensures r.Ok? ==> exists e :: (e in rows && Str(e, "transformerNo") == transformerNo && Str(e, "type") == imageType
      && (imageType != Some("Baseline") ==> Str(e, "inspectionNo") == inspectionNo)
      && r.value == Respond(Success, ToResponse(Some(e), base64, read)))
  {
    match FindUnique(rows, ImageSelector(transformerNo, inspectionNo, imageType))
    case Missing => Err(RaiseText(NotFoundText(transformerNo, inspectionNo)))
    case Several => Err(Raise(ImageNotConnected))
    case One(e) => Ok(Respond(Success, ToResponse(Some(e), base64, read)))
  }

  /** A baseline image is found whatever inspection number is asked for. */
  lemma BaselineIgnoresInspection(rows: seq<Record>, transformerNo: Option<string>, a: Option<string>, b: Option<string>,
                                  base64: Base64, read: ListReader)
    requires GetImage(rows, transformerNo, a, Some("Baseline"), base64, read).Ok?
    ensures GetImage(rows, transformerNo, b, Some("Baseline"), base64, read)
         == GetImage(rows, transformerNo, a, Some("Baseline"), base64, read)
  {
  }

  // ---------------------------------------------------------------- detection

  /** `msg.substring(idx, s2)`: the text after the first "FILE:" up to the next ';' or the end. */
  function PathAfterFile(msg: string): (r: string)
    requires Contains(msg, "FILE:")
  {
    var idx := IndexOf(msg, "FILE:") + 5;
    var s2 := IndexFrom(msg, [';'], idx);
    if s2 == -1 then msg[idx..] else msg[idx..s2]
  }

  function FailedDetectionText(msg: string): string
  {
    if Contains(msg, "FILE:") then "Detection failed; preserved image at: " + PathAfterFile(msg)
    else "Detection ran but returned no anomalies (see logs)."
  }

  /**
   * What `detectAnomalies` answers for a detector outcome: a checked failure
   * is IMAGE_NOT_DETECTED; an unchecked one a partial success with no
   * anomalies and a description that names the preserved image when the
   * message carries one; a run a success, described as "No errors" when it
   * found nothing.
   */
  function DetectionReply(outcome: Result<seq<Anomaly>, Thrown>): (r: Result<ApiResponse<seq<Anomaly>>, Failure>)
    ensures r.Err? <==> outcome.Err? && outcome.error.Checked?
    ensures r.Err? ==> r.error == Raise(ImageNotDetected)
    ensures outcome.Err? && outcome.error.Unchecked? ==>
      r.Ok? && r.value.code == "2007" && r.value.data == Some([])
      && r.value.description == Some(FailedDetectionText(outcome.error.message))
    ensures outcome.Ok? ==>
      r.Ok? && r.value.code == "2000" && r.value.data == Some(outcome.value)
      && (r.value.description == Some("No errors") <==> outcome.value == [])
  {
    match outcome
    case Err(Checked(_)) => Err(Raise(ImageNotDetected))
    case Err(Unchecked(msg)) =>
      Ok(ApiResponse(CodeOf(PartialSuccess), Some(FailedDetectionText(msg)), Some([]), None))
    case Ok(anomalies) =>
      Ok(ApiResponse(CodeOf(Success), Some(if anomalies == [] then "No errors" else MessageOf(Success)), Some(anomalies), None))
  }

  /** The anomalies written back to the image: an empty list after an unchecked failure, nothing after a checked one. */
  function Persisted(outcome: Result<seq<Anomaly>, Thrown>): Option<seq<Anomaly>>
  {
    match outcome
    case Err(Checked(_)) => None
    case Err(Unchecked(_)) => Some([])
    case Ok(anomalies) => Some(anomalies)
  }

  /** The stored bytes are missing or empty. */
  predicate NoBytes(rec: Record)
  {
    Stored(rec).None? || |Stored(rec).value| == 0
  }

  /** A path with no ';' is read back whole from a failure message. */
  lemma PreservedPathRoundTrip(path: string, err: string)
    requires forall k :: 0 <= k < |path| ==> path[k] != ';'
    ensures Contains(FailureMessage(Some(path), err), "FILE:")
    ensures PathAfterFile(FailureMessage(Some(path), err)) == path
  {
    PathRoundTrip(path, err);
  }

  /** When preserving failed, the path read back is "UNKNOWN". */
  lemma UnknownWhenNotPreserved(err: string)
    ensures Contains(FailureMessage(None, err), "FILE:")
    ensures PathAfterFile(FailureMessage(None, err)) == "UNKNOWN"
  {
    var unknown := "UNKNOWN";
    UnknownHasNoSemicolon();
    assert FailureMessage(None, err) == "PY_ERR;FILE:" + unknown + ";ERR:" + err;
    PathRoundTrip(unknown, err);
  }

  lemma UnknownHasNoSemicolon()
    ensures forall k :: 0 <= k < |"UNKNOWN"| ==> "UNKNOWN"[k] != ';'
  {
  }

  /** The first occurrence at or after `from` is the one with no occurrence between. */
  lemma FirstFrom(s: string, t: string, from: nat, r: int)
    requires from <= r && OccursAt(s, t, r)
    requires forall k :: from <= k < r ==> !OccursAt(s, t, k)
    ensures IndexFrom(s, t, from) == r
  {
  }

  lemma MarkerAtSeven(path: string, err: string)
    ensures var msg := "PY_ERR;FILE:" + path + ";ERR:" + err;
      Contains(msg, "FILE:") && IndexOf(msg, "FILE:") == 7
  {
    var msg := "PY_ERR;FILE:" + path + ";ERR:" + err;
    assert msg[7..12] == "FILE:";
    assert OccursAt(msg, "FILE:", 7);
    forall k | 0 <= k < 7 ensures !OccursAt(msg, "FILE:", k) {
      assert msg[k] != 'F';
      assert msg[k..k + 5][0] == msg[k];
    }
    FirstFrom(msg, "FILE:", 0, 7);
  }

  lemma SemicolonAfterPath(path: string, err: string)
    requires forall k :: 0 <= k < |path| ==> path[k] != ';'
    ensures var msg := "PY_ERR;FILE:" + path + ";ERR:" + err;
      IndexFrom(msg, [';'], 12) == 12 + |path| && msg[12..12 + |path|] == path
  {
    var msg := "PY_ERR;FILE:" + path + ";ERR:" + err;
    assert msg[12 + |path|] == ';';
    assert OccursAt(msg, [';'], 12 + |path|) by {
      assert msg[12 + |path|..12 + |path| + 1] == [';'];
    }
    forall k | 12 <= k < 12 + |path| ensures !OccursAt(msg, [';'], k) {
      assert msg[k] == path[k - 12];
      assert msg[k..k + 1][0] == msg[k];
    }
    FirstFrom(msg, [';'], 12, 12 + |path|);
  }

  lemma PathRoundTrip(path: string, err: string)
    requires forall k :: 0 <= k < |path| ==> path[k] != ';'
    ensures var msg := "PY_ERR;FILE:" + path + ";ERR:" + err;
      Contains(msg, "FILE:") && PathAfterFile(msg) == path
  {
    MarkerAtSeven(path, err);
    SemicolonAfterPath(path, err);
  }

  /** A decimal rendering contains no ';'. */
  lemma NoSemicolonInNumber(n: int)
    ensures forall k :: 0 <= k < |IntToString(n)| ==> IntToString(n)[k] != ';'
  {
    if n >= 0 {
      assert AllDigits(NatToString(n));
    } else {
      assert AllDigits(NatToString(-n));
      assert IntToString(n) == "-" + NatToString(-n);
    }
  }

  /**
   * A run that exits with an error is answered with a partial success that
   * names where the image was preserved, or UNKNOWN when preserving failed.
   */
  lemma FailedRunNamesPreservedImage(d: Detector)
    requires d.launch.Exited? && d.launch.exitCode != 0
    requires forall k :: 0 <= k < |d.debugDir| ==> d.debugDir[k] != ';'
    ensures DetectionReply(Outcome(d)) == Ok(ApiResponse("2007",
      Some("Detection failed; preserved image at: "
        + (if d.copyOk then PreservedPath(d.debugDir, "failed_", d.millis) else "UNKNOWN")),
      Some([]), None))
  {
    var err := ErrorText(d.launch.exitCode, Joined(d.launch.stderrLines));
    var path := PreservedPath(d.debugDir, "failed_", d.millis);
    var msg := FailureMessage(if d.copyOk then Some(path) else None, err);
    assert Outcome(d) == Err(Unchecked(msg));
    if d.copyOk {
      PreservedPathHasNoSemicolon(d.debugDir, d.millis);
      PreservedPathRoundTrip(path, err);
    } else {
      UnknownWhenNotPreserved(err);
    }
  }

  /** The preserved file's path has no ';' when its folder has none. */
  lemma PreservedPathHasNoSemicolon(debugDir: string, millis: int)
    requires forall k :: 0 <= k < |debugDir| ==> debugDir[k] != ';'
    ensures var path := PreservedPath(debugDir, "failed_", millis);
      forall k :: 0 <= k < |path| ==> path[k] != ';'
  {
    var path := PreservedPath(debugDir, "failed_", millis);
    var n := IntToString(millis);
    NoSemicolonInNumber(millis);
    assert path == debugDir + "/failed_" + n + ".jpg";
    forall k | 0 <= k < |path| ensures path[k] != ';' {
      if k < |debugDir| {
        assert path[k] == debugDir[k];
      } else if k < |debugDir| + 8 {
        assert path[k] == "/failed_"[k - |debugDir|];
      } else if k < |debugDir| + 8 + |n| {
        assert path[k] == n[k - |debugDir| - 8];
      } else {
        assert path[k] == ".jpg"[k - |debugDir| - 8 - |n|];
      }
    }
  }

  // ---------------------------------------------------------------- the service

  /**
   * The reply `detectAnomalies` gives on the table `rows`: the three failures
   * of the lookup, otherwise the reply to the detector's run.
   */
  function DetectResult(rows: seq<Record>, transformerNo: Option<string>, inspectionNo: Option<string>, d: Detector)
    : (r: Result<ApiResponse<seq<Anomaly>>, Failure>)
    ensures r.Ok? ==> FindUnique(rows, ByKey(transformerNo, inspectionNo, Some("Thermal"))).One?
  {
    var found := FindUnique(rows, ByKey(transformerNo, inspectionNo, Some("Thermal")));
    if found.Missing? then
      Err(RaiseWith(NotFound, "Thermal image not found for Transformer: " + Shown(transformerNo) + ", Inspection: " + Shown(inspectionNo)))
    else if found.Several? then Err(Raise(ImageNotDetected))
    else if NoBytes(found.rec) then
      Err(RaiseText("Stored image bytes are empty for Transformer: " + Shown(transformerNo) + ", Inspection: " + Shown(inspectionNo)))
    else DetectionReply(Outcome(d))
  }

  class ImageDataService {
    const repository: Table

    ghost predicate Valid()
      reads this, repository
    {
      repository.Valid()
    }

    constructor (repository: Table)
      requires repository.Valid()
      ensures this.repository == repository && Valid()
    {
      this.repository := repository;
    }

    /**
     * `saveImage`: validate, delete the image stored under the same key, build
     * the new entity (running the detector on thermal uploads) and insert it.
     * Every failure, the validation's included, is IMAGE_NOT_CREATED. The
     * deletion is not undone when building the entity fails afterwards.
     */
    method SaveImage(request: ImageRequest, disk: Disk, d: Detector, encode: Encoder, now: string)
      returns (r: Result<ApiResponse<Void>, Failure>)
      requires Valid()
      modifies repository, disk
      ensures Valid()
      ensures r.Err? ==> r.error == Raise(ImageNotCreated)
      ensures r.Ok? ==> r.value == Respond(Success, None)
      ensures ValidateImageRequest(request).Some? ==> r.Err? && repository.rows == old(repository.rows)
      ensures var found := FindUnique(old(repository.rows), ByKey(request.transformerNo, request.inspectionNo, request.imageType));
        ValidateImageRequest(request).None? && found.Several? ==> r.Err? && repository.rows == old(repository.rows)
      ensures var found := FindUnique(old(repository.rows), ByKey(request.transformerNo, request.inspectionNo, request.imageType));
        ValidateImageRequest(request).None? && !found.Several? ==>
          var built := NewImage(request, Detection(request, d), encode, now);
          (r.Ok? <==> built.Ok?)
          && (built.Err? ==> repository.rows == RemoveFound(old(repository.rows), found))
          && (built.Ok? ==> repository.rows == RemoveFound(old(repository.rows), found)
                                              + [built.value["id" := VLong(old(repository.nextId))]])
    {
      if ValidateImageRequest(request).Some? {
        return Err(Raise(ImageNotCreated));
      }
      var found := FindUnique(repository.rows, ByKey(request.transformerNo, request.inspectionNo, request.imageType));
      if found.Several? {
        return Err(Raise(ImageNotCreated));
      }
      if found.One? {
        repository.Delete(IdOf(found.rec));
      }
      var built := ToEntity(request, disk, d, encode, now);
      if built.Err? {
        return Err(Raise(ImageNotCreated));
      }
      var saved := repository.Save(built.value);
      return Ok(Respond(Success, None));
    }

    /**
     * `updateImage`: the image under the path's transformer and inspection and
     * the request's type, updated in place.
     */
    method UpdateImage(transformerNo: Option<string>, inspectionNo: Option<string>, request: ImageRequest)
      returns (r: Result<ApiResponse<Void>, Failure>)
      requires Valid()
      modifies repository
      ensures Valid()
      ensures var found := FindUnique(old(repository.rows), ByKey(transformerNo, inspectionNo, request.imageType));
        (found.Missing? ==> r == Err(RaiseText(NotFoundText(transformerNo, inspectionNo))) && repository.rows == old(repository.rows))
        && (found.Several? ==> r == Err(Raise(ImageNotUpdated)) && repository.rows == old(repository.rows))
        && (found.One? ==> (Keyed(found.rec) && r == Ok(Respond(Success, None))
              && repository.rows == old(repository.rows)[IndexOfId(old(repository.rows), IdOf(found.rec)) := UpdatedImage(found.rec, request)]))
    {
      var found := FindUnique(repository.rows, ByKey(transformerNo, inspectionNo, request.imageType));
      if found.Missing? {
        return Err(RaiseText(NotFoundText(transformerNo, inspectionNo)));
      }
      if found.Several? {
        return Err(Raise(ImageNotUpdated));
      }
      var e := found.rec;
      var i :| 0 <= i < |repository.rows| && repository.rows[i] == e;
      LookupAscending(repository.rows, i);
      var updated := UpdatedImage(e, request);
      UpdateImageFieldwise(e, request, "id");
      assert Keyed(updated) && IdOf(updated) == IdOf(e);
      var saved := repository.Save(updated);
      return Ok(Respond(Success, None));
    }

    /** `deleteImage`: every image of the inspection goes, whatever its type. */
    method DeleteImage(transformerNo: Option<string>, inspectionNo: Option<string>)
      returns (r: Result<ApiResponse<Void>, Failure>)
      requires Valid()
      modifies repository
      ensures Valid()
      ensures (forall x :: x in old(repository.rows) ==> !OfInspection(x, transformerNo, inspectionNo)) ==>
        r == Err(RaiseText(NotFoundText(transformerNo, inspectionNo))) && repository.rows == old(repository.rows)
      ensures (exists x :: x in old(repository.rows) && OfInspection(x, transformerNo, inspectionNo)) ==>
        r == Ok(Respond(Success, None))
        && forall x :: x in repository.rows <==> x in old(repository.rows) && !OfInspection(x, transformerNo, inspectionNo)
    {
      if |Where(repository.rows, ByInspection(transformerNo, inspectionNo))| == 0 {
        forall x | x in repository.rows ensures !OfInspection(x, transformerNo, inspectionNo) {
          assert x !in Where(repository.rows, ByInspection(transformerNo, inspectionNo));
        }
        return Err(RaiseText(NotFoundText(transformerNo, inspectionNo)));
      }
      assert Where(repository.rows, ByInspection(transformerNo, inspectionNo))[0] in repository.rows;
      repository.DeleteWhere(ByInspection(transformerNo, inspectionNo));
      return Ok(Respond(Success, None));
    }

    /**
     * `detectAnomalies`: run the detector on the stored thermal image and
     * write the anomalies back to it. Writing back is best effort: when the
     * anomalies cannot be encoded the image is left as it was.
     */
    method DetectAnomalies(transformerNo: Option<string>, inspectionNo: Option<string>, disk: Disk, d: Detector, encode: Encoder)
      returns (r: Result<ApiResponse<seq<Anomaly>>, Failure>)
      requires Valid()
      modifies repository, disk
      ensures Valid()
      ensures r == DetectResult(old(repository.rows), transformerNo, inspectionNo, d)
      ensures var found := FindUnique(old(repository.rows), ByKey(transformerNo, inspectionNo, Some("Thermal")));
        (found.Missing? ==> r == Err(RaiseWith(NotFound, "Thermal image not found for Transformer: "
                                + Shown(transformerNo) + ", Inspection: " + Shown(inspectionNo)))
                            && repository.rows == old(repository.rows))
        && (found.Several? ==> r == Err(Raise(ImageNotDetected)) && repository.rows == old(repository.rows))
        && (found.One? && NoBytes(found.rec) ==>
              r == Err(RaiseText("Stored image bytes are empty for Transformer: "
                                 + Shown(transformerNo) + ", Inspection: " + Shown(inspectionNo)))
              && repository.rows == old(repository.rows))
        && (found.One? && !NoBytes(found.rec) ==>
              var written := Persisted(Outcome(d));
              Keyed(found.rec) && r == DetectionReply(Outcome(d))
              && (written.Some? && encode(written.value).Some? ==>
                    repository.rows == old(repository.rows)[IndexOfId(old(repository.rows), IdOf(found.rec))
                                         := found.rec["detectionJson" := VString(encode(written.value).value)]])
              && (written.None? || encode(written.value).None? ==> repository.rows == old(repository.rows)))
    {
      var found := FindUnique(repository.rows, ByKey(transformerNo, inspectionNo, Some("Thermal")));
      if found.Missing? {
        return Err(RaiseWith(NotFound, "Thermal image not found for Transformer: "
                             + Shown(transformerNo) + ", Inspection: " + Shown(inspectionNo)));
      }
      if found.Several? {
        return Err(Raise(ImageNotDetected));
      }
      var e := found.rec;
      if NoBytes(e) {
        return Err(RaiseText("Stored image bytes are empty for Transformer: "
                             + Shown(transformerNo) + ", Inspection: " + Shown(inspectionNo)));
      }
      r := DetectStored(e, disk, d, encode);
    }

    /** The detector run for the stored record `e`, and the best-effort write-back of its anomalies. */
    method DetectStored(e: Record, disk: Disk, d: Detector, encode: Encoder)
      returns (r: Result<ApiResponse<seq<Anomaly>>, Failure>)
      requires Valid() && e in repository.rows
      modifies repository, disk
      ensures Valid()
      ensures Keyed(e) && r == DetectionReply(Outcome(d))
      ensures var written := Persisted(Outcome(d));
        (written.Some? && encode(written.value).Some? ==>
           repository.rows == old(repository.rows)[IndexOfId(old(repository.rows), IdOf(e))
                                := e["detectionJson" := VString(encode(written.value).value)]])
        && (written.None? || encode(written.value).None? ==> repository.rows == old(repository.rows))
    {
      var i :| 0 <= i < |repository.rows| && repository.rows[i] == e;
      LookupAscending(repository.rows, i);
      var outcome := RunYolo(disk, d.temp, d.debugDir, d.launch, d.copyOk, d.millis, d.lib);
      if outcome.Err? && outcome.error.Checked? {
        return Err(Raise(ImageNotDetected));
      }
      var anomalies := if outcome.Ok? then outcome.value else [];
      var json := encode(anomalies);
      if json.Some? {
        var updated := e["detectionJson" := VString(json.value)];
        assert Keyed(updated) && IdOf(updated) == IdOf(e);
        var saved := repository.Save(updated);
      }
      return DetectionReply(outcome);
    }
  }
}
