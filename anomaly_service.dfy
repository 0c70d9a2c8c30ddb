/**
 * The client's anomaly edits: deleting, moving and adding a box on the thermal
 * image. Each builds the full anomaly list that is sent to the server and,
 * where the edit concerns a detection, the feedback log that goes with it.
 * The request itself is not modelled; the functions return what it carries.
 *
 * The stored user name, the current time as text, and the six-decimal
 * rounding of a coordinate come in as parameters. Rounding an undefined
 * coordinate throws, so an edit that would send one fails as a whole.
 */
module AnomalyService {
  import opened Wrappers
  import opened InspectionHelpers

  /** The detector's original box in a feedback log (`klass` is its `class`). */
  datatype Detection = Detection(box: Coords, klass: string, confidence: real)

  /** The user's change to a detection: "modified" or "deleted", and by whom. */
  datatype Modification = Modification(
    action: string, finalBox: Option<Coords>, finalClass: Option<string>,
    modifiedAt: Option<string>, modifiedBy: Option<string>)

  /** A box the user drew. */
  datatype Addition = Addition(box: Coords, klass: string, addedAt: Option<string>, addedBy: Option<string>)

  /**
   * A feedback log. The client writes either a detection with its
   * modification or an addition; a log read back may hold any of the parts.
   */
  datatype FeedbackLog = FeedbackLog(
    imageId: string, originalAIDetection: Option<Detection>,
    userModification: Option<Modification>, userAddition: Option<Addition>)

  /** One entry of the anomaly list sent to the server. */
  datatype AnomalyEntry = AnomalyEntry(box: Coords, klass: string, manual: bool, user: Option<string>, confidence: Option<real>)

  /** The image a log is about. */
  function ImageId(transformerNo: string, inspectionNo: string): (r: string)
    ensures |r| == |transformerNo| + 1 + |inspectionNo|
    ensures r[..|transformerNo|] == transformerNo && r[|transformerNo|] == '_' && r[|transformerNo| + 1..] == inspectionNo
  {
    transformerNo + "_" + inspectionNo
  }

  /** The user recorded in logs: the stored name, or "User" when none is stored. */
  function UserName(stored: Option<string>): string
  {
    Or(stored, "User")
  }

  /** Every coordinate is defined (none was read past the end of a short array). */
  predicate Defined(n: Coords)
  {
    forall i :: 0 <= i < |n| ==> n[i].Some?
  }

  /**
   * `n.map((v) => parseFloat(v.toFixed(6)))`: each coordinate rounded, or a
   * failure (None) when some coordinate is undefined, since `toFixed` on
   * `undefined` throws.
   */
  function Rounded(n: Coords, round: real -> real): (r: Option<Coords>)
    ensures r.Some? <==> Defined(n)
    ensures r.Some? ==> |r.value| == |n| && forall i :: 0 <= i < |n| ==> n[i].Some? && r.value[i] == Some(round(n[i].value))
  {
    if Defined(n) then Some(seq(|n|, i requires 0 <= i < |n| => Some(round(n[i].value)))) else None
  }

  /** JavaScript truthiness of `aiDetected`. */
  predicate AiDetected(b: Box) { b.aiDetected == Some(true) }

  /** Every box of the list can be rounded. */
  predicate AllDefined(bs: seq<Box>)
  {
    forall i :: 0 <= i < |bs| ==> Defined(bs[i].n)
  }

  // ---------------------------------------------------------------- delete

  /** The entry of a box that stays after a delete: manual unless it is AI-detected. */
  function RemainingEntry(b: Box, userName: string, round: real -> real): AnomalyEntry
    requires Defined(b.n)
  {
    AnomalyEntry(Rounded(b.n, round).value, b.klass, !AiDetected(b),
      if !AiDetected(b) then Some(Or(b.rejectedBy, userName)) else None, Some(b.conf))
  }

  /**
   * `deleteAnomaly`: a log only for an AI-detected box, recording its box,
   * class and confidence with action "deleted"; and one entry per remaining
   * box, in order. The whole call fails (None) when a remaining box has an
   * undefined coordinate.
   */
  function DeleteAnomaly(transformerNo: string, inspectionNo: string, boxToDelete: Box, remainingBoxes: seq<Box>,
                         stored: Option<string>, now: string, round: real -> real)
    : (r: Option<(Option<FeedbackLog>, seq<AnomalyEntry>)>)
    ensures r.None? <==> exists i :: 0 <= i < |remainingBoxes| && !Defined(remainingBoxes[i].n)
    ensures r.Some? ==> (r.value.0.Some? <==> AiDetected(boxToDelete))
    ensures r.Some? && r.value.0.Some? ==> r.value.0.value == FeedbackLog(ImageId(transformerNo, inspectionNo),
      Some(Detection(boxToDelete.n, boxToDelete.klass, boxToDelete.conf)),
      Some(Modification("deleted", None, None, Some(now), Some(UserName(stored)))), None)
    ensures r.Some? ==> |r.value.1| == |remainingBoxes|
    ensures r.Some? ==> forall i :: 0 <= i < |r.value.1| ==> (
      Some(r.value.1[i].box) == Rounded(remainingBoxes[i].n, round) && r.value.1[i].klass == remainingBoxes[i].klass
      && (r.value.1[i].manual <==> remainingBoxes[i].aiDetected != Some(true))
      && r.value.1[i].user == (if r.value.1[i].manual then Some(Or(remainingBoxes[i].rejectedBy, UserName(stored))) else None)
      && r.value.1[i].confidence == Some(remainingBoxes[i].conf))
  {
    if !AllDefined(remainingBoxes) then None
    else
      var userName := UserName(stored);
      var log := if AiDetected(boxToDelete) then
          Some(FeedbackLog(ImageId(transformerNo, inspectionNo),
            Some(Detection(boxToDelete.n, boxToDelete.klass, boxToDelete.conf)),
            Some(Modification("deleted", None, None, Some(now), Some(userName))), None))
        else None;
      Some((log, seq(|remainingBoxes|, i requires 0 <= i < |remainingBoxes| => RemainingEntry(remainingBoxes[i], userName, round))))
  }

  // ---------------------------------------------------------------- edit

  /** The coordinates an edit sends for a box: the new ones for the edited box, else its own. */
  function SentBox(b: Box, boxToEdit: Box, newCoords: Coords): (r: Coords)
    ensures r == newCoords || r == b.n
    ensures Defined(b.n) && Defined(newCoords) ==> Defined(r)
  {
    if b.idx == boxToEdit.idx then newCoords else b.n
  }

  /** The entry of a box after an edit: the edited box takes the new coordinates and becomes manual. */
  function EditedEntry(b: Box, boxToEdit: Box, newCoords: Coords, userName: string, round: real -> real): AnomalyEntry
    requires Defined(SentBox(b, boxToEdit, newCoords))
  {
    if b.idx == boxToEdit.idx then AnomalyEntry(Rounded(newCoords, round).value, b.klass, true, Some(userName), None)
    else RemainingEntry(b, userName, round)
  }

  /**
   * `editAnomaly`: a log only for an AI-detected box, recording its original
   * detection and action "modified" to the new coordinates with the class
   * unchanged; and one entry per box, where exactly the boxes numbered like
   * the edited one get the new coordinates, become manual and lose their
   * confidence. The call fails (None) when some box it sends has an
   * undefined coordinate.
   */
  function EditAnomaly(transformerNo: string, inspectionNo: string, boxToEdit: Box, newCoords: Coords, allBoxes: seq<Box>,
                       stored: Option<string>, now: string, round: real -> real)
    : (r: Option<(Option<FeedbackLog>, seq<AnomalyEntry>)>)
    ensures r.None? <==> exists i :: 0 <= i < |allBoxes| && !Defined(SentBox(allBoxes[i], boxToEdit, newCoords))
    ensures r.Some? ==> (r.value.0.Some? <==> AiDetected(boxToEdit))
    ensures r.Some? && r.value.0.Some? ==> r.value.0.value == FeedbackLog(ImageId(transformerNo, inspectionNo),
      Some(Detection(boxToEdit.n, boxToEdit.klass, boxToEdit.conf)),
      Some(Modification("modified", Some(newCoords), Some(boxToEdit.klass), Some(now), Some(UserName(stored)))), None)
    ensures r.Some? ==> |r.value.1| == |allBoxes|
    ensures r.Some? ==> forall i :: 0 <= i < |allBoxes| && allBoxes[i].idx == boxToEdit.idx ==>
      Some(r.value.1[i].box) == Rounded(newCoords, round)
      && r.value.1[i] == AnomalyEntry(r.value.1[i].box, allBoxes[i].klass, true, Some(UserName(stored)), None)
    ensures r.Some? ==> forall i :: 0 <= i < |allBoxes| && allBoxes[i].idx != boxToEdit.idx ==>
      Some(r.value.1[i].box) == Rounded(allBoxes[i].n, round) && r.value.1[i].klass == allBoxes[i].klass
      && (r.value.1[i].manual <==> allBoxes[i].aiDetected != Some(true))
      && r.value.1[i].user == (if r.value.1[i].manual then Some(Or(allBoxes[i].rejectedBy, UserName(stored))) else None)
      && r.value.1[i].confidence == Some(allBoxes[i].conf)
  {
    if exists i :: 0 <= i < |allBoxes| && !Defined(SentBox(allBoxes[i], boxToEdit, newCoords)) then None
    else
      var userName := UserName(stored);
      var log := if AiDetected(boxToEdit) then
          Some(FeedbackLog(ImageId(transformerNo, inspectionNo),
            Some(Detection(boxToEdit.n, boxToEdit.klass, boxToEdit.conf)),
            Some(Modification("modified", Some(newCoords), Some(boxToEdit.klass), Some(now), Some(userName))), None))
        else None;
      Some((log, seq(|allBoxes|, i requires 0 <= i < |allBoxes| => EditedEntry(allBoxes[i], boxToEdit, newCoords, userName, round))))
  }

  /**
   * On boxes made from a detection response, whose numbers are distinct, an
   * edit of one of them changes that entry and no other: where both the edit
   * and a delete of the same box go through, every other entry is sent alike.
   */
  lemma EditChangesOneEntry(transformerNo: string, inspectionNo: string, anomalies: seq<AnomalyResponse>, j: int,
                            newCoords: Coords, stored: Option<string>, now: string, round: real -> real)
    requires 0 <= j < |anomalies|
    ensures var boxes := MapAnomaliesToBoxes(anomalies);
      var edited := EditAnomaly(transformerNo, inspectionNo, boxes[j], newCoords, boxes, stored, now, round);
      var kept := DeleteAnomaly(transformerNo, inspectionNo, boxes[j], boxes, stored, now, round);
      (edited.Some? <==> Defined(newCoords) && forall i :: 0 <= i < |boxes| && i != j ==> Defined(boxes[i].n))
      && (edited.Some? ==>
            Some(edited.value.1[j].box) == Rounded(newCoords, round) && edited.value.1[j].manual && edited.value.1[j].confidence.None?)
      && (edited.Some? && kept.Some? ==> forall i :: 0 <= i < |boxes| && i != j ==> edited.value.1[i] == kept.value.1[i])
  {
    var boxes := MapAnomaliesToBoxes(anomalies);
    MappedIndicesDistinct(anomalies);
    if Defined(newCoords) && forall i :: 0 <= i < |boxes| && i != j ==> Defined(boxes[i].n) {
      forall i | 0 <= i < |boxes|
        ensures Defined(SentBox(boxes[i], boxes[j], newCoords))
      {
        if i != j {
          assert boxes[i].idx != boxes[j].idx;
        }
      }
    } else if !Defined(newCoords) {
      assert !Defined(SentBox(boxes[j], boxes[j], newCoords));
    } else {
      var i :| 0 <= i < |boxes| && i != j && !Defined(boxes[i].n);
      assert boxes[i].idx != boxes[j].idx;
      assert !Defined(SentBox(boxes[i], boxes[j], newCoords));
    }
  }

  // ---------------------------------------------------------------- add

  /** The entry of an existing box when one is added: manual only when it is marked not AI-detected. */
  function ExistingEntry(b: Box, userName: string, round: real -> real): AnomalyEntry
    requires Defined(b.n)
  {
    var manual := b.aiDetected == Some(false);
    AnomalyEntry(Rounded(b.n, round).value, b.klass, manual, if manual then Some(Or(b.rejectedBy, userName)) else None, Some(b.conf))
  }

  /**
   * `addAnomaly`: always an addition log with the rounded box and the class;
   * and the existing boxes' entries followed by exactly one new manual entry.
   * The call fails (None) when the new box or an existing one has an
   * undefined coordinate.
   */
  function AddAnomaly(transformerNo: string, inspectionNo: string, newCoords: Coords, anomalyClass: string, allBoxes: seq<Box>,
                      stored: Option<string>, now: string, round: real -> real)
    : (r: Option<(FeedbackLog, seq<AnomalyEntry>)>)
    ensures r.None? <==> !Defined(newCoords) || exists i :: 0 <= i < |allBoxes| && !Defined(allBoxes[i].n)
    ensures r.Some? ==> Rounded(newCoords, round).Some? && r.value.0 == FeedbackLog(ImageId(transformerNo, inspectionNo), None, None,
      Some(Addition(Rounded(newCoords, round).value, anomalyClass, Some(now), Some(UserName(stored)))))
    ensures r.Some? ==> |r.value.1| == |allBoxes| + 1
    ensures r.Some? ==> (Rounded(newCoords, round).Some?
      && r.value.1[|allBoxes|] == AnomalyEntry(Rounded(newCoords, round).value, anomalyClass, true, Some(UserName(stored)), None))
    ensures r.Some? ==> forall i :: 0 <= i < |allBoxes| ==> (
      Some(r.value.1[i].box) == Rounded(allBoxes[i].n, round) && r.value.1[i].klass == allBoxes[i].klass
      && (r.value.1[i].manual <==> allBoxes[i].aiDetected == Some(false))
      && r.value.1[i].user == (if r.value.1[i].manual then Some(Or(allBoxes[i].rejectedBy, UserName(stored))) else None)
      && r.value.1[i].confidence == Some(allBoxes[i].conf))
  {
    if !Defined(newCoords) || !AllDefined(allBoxes) then None
    else
      var userName := UserName(stored);
      var box := Rounded(newCoords, round).value;
      var log := FeedbackLog(ImageId(transformerNo, inspectionNo), None, None, Some(Addition(box, anomalyClass, Some(now), Some(userName))));
      var existing := seq(|allBoxes|, i requires 0 <= i < |allBoxes| => ExistingEntry(allBoxes[i], userName, round));
      Some((log, existing + [AnomalyEntry(box, anomalyClass, true, Some(userName), None)]))
  }

  /**
   * A box whose AI flag is undefined is sent as manual after a delete, but as
   * not manual after an add.
   */
  lemma UndefinedFlagAsymmetry(transformerNo: string, inspectionNo: string, b: Box, gone: Box, newCoords: Coords,
                               anomalyClass: string, stored: Option<string>, now: string, round: real -> real)
    requires b.aiDetected.None? && Defined(b.n) && Defined(newCoords)
    ensures var d := DeleteAnomaly(transformerNo, inspectionNo, gone, [b], stored, now, round);
      d.Some? && d.value.1[0].manual
    ensures var a := AddAnomaly(transformerNo, inspectionNo, newCoords, anomalyClass, [b], stored, now, round);
      a.Some? && !a.value.1[0].manual
  {
  }

  /** The image id of every log names the transformer and inspection, and the user is never blank. */
  lemma LogsNameTheImage(transformerNo: string, inspectionNo: string, b: Box, newCoords: Coords, anomalyClass: string,
                         all: seq<Box>, stored: Option<string>, now: string, round: real -> real)
    ensures var d := DeleteAnomaly(transformerNo, inspectionNo, b, all, stored, now, round);
      d.Some? && d.value.0.Some? ==> d.value.0.value.imageId == ImageId(transformerNo, inspectionNo)
    ensures var e := EditAnomaly(transformerNo, inspectionNo, b, newCoords, all, stored, now, round);
      e.Some? && e.value.0.Some? ==> e.value.0.value.imageId == ImageId(transformerNo, inspectionNo)
    ensures var a := AddAnomaly(transformerNo, inspectionNo, newCoords, anomalyClass, all, stored, now, round);
      a.Some? ==> a.value.0.imageId == ImageId(transformerNo, inspectionNo)
    ensures UserName(stored) != ""
  {
  }
}
