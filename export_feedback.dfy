/**
 * The feedback export: the payload that gathers, for one thermal image, the
 * model's predictions, the annotations the user accepted, the feedback logs,
 * the removed boxes and a unified list of actions.
 *
 * Comparing two boxes by their JSON text is modelled as comparing the
 * coordinate sequences. The stored user name and the export time are
 * parameters.
 */
module ExportFeedback {
  import opened Wrappers
  import opened InspectionHelpers
  import opened AnomalyService

  /** A JavaScript value that may also be `undefined` or `null`. */
  datatype Nullable = Undefined | Null | Text(s: string)

  /** `x || null` on an optional text. */
  function OrNull(s: Option<string>): (r: Nullable)
    ensures r != Undefined
    ensures r.Text? <==> Truthy(s)
    ensures r.Text? ==> r.s == s.value
  {
    if Truthy(s) then Text(s.value) else Null
  }

  // ---------------------------------------------------------------- model predictions

  /** The prediction recorded for a box still on the image. */
  function Predicted(b: Box): Detection
  {
    Detection(b.n, b.klass, b.conf)
  }

  /** The AI-detected final boxes as predictions, in order. */
  function FromFinal(finalBoxes: seq<Box>): (r: seq<Detection>)
    ensures |r| <= |finalBoxes|
    ensures forall b :: b in finalBoxes && AiDetected(b) ==> Predicted(b) in r
    ensures forall d :: d in r ==> exists b :: b in finalBoxes && AiDetected(b) && d == Predicted(b)
  {
    if finalBoxes == [] then []
    else
      var b := finalBoxes[|finalBoxes| - 1];
      var earlier := FromFinal(finalBoxes[..|finalBoxes| - 1]);
      assert forall x :: x in finalBoxes <==> x in finalBoxes[..|finalBoxes| - 1] || x == b;
      if AiDetected(b) then earlier + [Predicted(b)] else earlier
  }

  /** The original detections recorded in the logs, in order. */
  function FromLogs(logs: seq<FeedbackLog>): (r: seq<Detection>)
    ensures |r| <= |logs|
    ensures forall lg :: lg in logs && lg.originalAIDetection.Some? ==> lg.originalAIDetection.value in r
    ensures forall d :: d in r ==> exists lg :: lg in logs && lg.originalAIDetection == Some(d)
  {
    if logs == [] then []
    else
      var lg := logs[|logs| - 1];
      var earlier := FromLogs(logs[..|logs| - 1]);
      assert forall x :: x in logs <==> x in logs[..|logs| - 1] || x == lg;
      if lg.originalAIDetection.Some? then earlier + [lg.originalAIDetection.value] else earlier
  }

  /** The predictions keep the order of the boxes: those of a first part come first. */
  lemma {:induction false} FromFinalAppend(a: seq<Box>, b: seq<Box>)
    ensures FromFinal(a + b) == FromFinal(a) + FromFinal(b)
    decreases |b|
  {
    if b == [] {
      assert a + b == a;
    } else {
      var init, last := b[..|b| - 1], b[|b| - 1];
      assert (a + b)[..|a + b| - 1] == a + init;
      assert (a + b)[|a + b| - 1] == last;
      FromFinalAppend(a, init);
    }
  }

  /** One box contributes its prediction exactly when it is AI-detected. */
  lemma FromFinalSingle(b: Box)
    ensures FromFinal([b]) == if AiDetected(b) then [Predicted(b)] else []
  {
    assert [b][..0] == [];
  }

  /** The logged detections keep the order of the logs. */
  lemma {:induction false} FromLogsAppend(a: seq<FeedbackLog>, b: seq<FeedbackLog>)
    ensures FromLogs(a + b) == FromLogs(a) + FromLogs(b)
    decreases |b|
  {
    if b == [] {
      assert a + b == a;
    } else {
      var init, last := b[..|b| - 1], b[|b| - 1];
      assert (a + b)[..|a + b| - 1] == a + init;
      assert (a + b)[|a + b| - 1] == last;
      FromLogsAppend(a, init);
    }
  }

  /** One log contributes its original detection, and only when it has one. */
  lemma FromLogsSingle(lg: FeedbackLog)
    ensures FromLogs([lg]) == if lg.originalAIDetection.Some? then [lg.originalAIDetection.value] else []
  {
    assert [lg][..0] == [];
  }

  /** The boxes of a list of predictions. */
  function BoxSet(u: seq<Detection>): set<Coords>
  {
    set d | d in u :: d.box
  }

  lemma BoxSetAppend(u: seq<Detection>, x: Detection)
    ensures BoxSet(u + [x]) == BoxSet(u) + {x.box}
  {
    assert forall d :: d in u + [x] <==> d in u || d == x;
  }

  /** The first prediction in `s` with the given box, if any. */
  function FirstWithBox(s: seq<Detection>, box: Coords): (r: Option<Detection>)
    ensures r.None? <==> box !in BoxSet(s)
    ensures r.Some? ==> r.value in s && r.value.box == box
  {
    if s == [] then None
    else
      var earlier := FirstWithBox(s[..|s| - 1], box);
      if earlier.Some? then earlier
      else if s[|s| - 1].box == box then Some(s[|s| - 1])
      else None
  }

  /** The predictions of `s` whose box has not occurred earlier in `s`. */
  function Unique(s: seq<Detection>): (r: seq<Detection>)
    ensures BoxSet(r) == BoxSet(s)
    ensures forall i, j :: 0 <= i < j < |r| ==> r[i].box != r[j].box
    ensures forall d :: d in r ==> d in s
  {
    if s == [] then []
    else
      var last := s[|s| - 1];
      var u := Unique(s[..|s| - 1]);
      assert s == s[..|s| - 1] + [last];
      BoxSetAppend(s[..|s| - 1], last);
      BoxSetAppend(u, last);
      if last.box in BoxSet(u) then u
      else u + [last]
  }

  /** Each kept prediction is the first in `s` with its box. */
  lemma {:induction false} UniqueKeepsFirst(s: seq<Detection>)
    ensures forall d :: d in Unique(s) ==> FirstWithBox(s, d.box) == Some(d)
  {
    if s != [] {
      var last := s[|s| - 1];
      var init := s[..|s| - 1];
      UniqueKeepsFirst(init);
      forall d | d in Unique(s) ensures FirstWithBox(s, d.box) == Some(d) {
        if d in Unique(init) {
          assert FirstWithBox(init, d.box) == Some(d);
        } else {
          assert d == last && last.box !in BoxSet(Unique(init));
        }
      }
    }
  }

  /** Deduplication keeps the predictions of a prefix ahead of those that follow it. */
  lemma {:induction false} UniquePrefix(a: seq<Detection>, b: seq<Detection>)
    ensures |Unique(a)| <= |Unique(a + b)|
    ensures Unique(a + b)[..|Unique(a)|] == Unique(a)
  {
    if b == [] {
      assert a + b == a;
    } else {
      var b' := b[..|b| - 1];
      assert (a + b)[..|a + b| - 1] == a + b';
      UniquePrefix(a, b');
    }
  }

  /**
   * The set-based scan of `buildExportPayload`: a prediction is kept when the
   * JSON text of its box has not been seen.
   */
  method DedupByBox(candidates: seq<Detection>) returns (modelPredicted: seq<Detection>)
    ensures modelPredicted == Unique(candidates)
  {
    var seen: set<Coords> := {};
    modelPredicted := [];
    var i := 0;
    while i < |candidates|
      invariant 0 <= i <= |candidates|
      invariant modelPredicted == Unique(candidates[..i])
      invariant seen == BoxSet(modelPredicted)
    {
      var m := candidates[i];
      UniqueStep(candidates, i);
      if m.box !in seen {
        BoxSetAppend(modelPredicted, m);
        seen := seen + {m.box};
        modelPredicted := modelPredicted + [m];
      }
      i := i + 1;
    }
    assert candidates[..i] == candidates;
  }

  /** One more candidate is kept exactly when its box is new. */
  lemma UniqueStep(s: seq<Detection>, i: nat)
    requires i < |s|
    ensures Unique(s[..i + 1]) == if s[i].box in BoxSet(Unique(s[..i])) then Unique(s[..i]) else Unique(s[..i]) + [s[i]]
  {
    assert s[..i + 1][..i] == s[..i];
  }

  // ---------------------------------------------------------------- final annotations

  /** An annotation the user accepted (`klass` is its `class`). */
  datatype FinalAnnotation = FinalAnnotation(box: Coords, klass: string, manual: bool, annotator: Option<string>)

  /**
   * The annotator of a final box: who rejected it, else the exporter, else
   * the stored user, else "User" for a box the user added, else null.
   */
  function Annotator(b: Box, exportedBy: string, stored: Option<string>): (r: Option<string>)
    ensures Truthy(b.rejectedBy) ==> r == b.rejectedBy
    ensures !Truthy(b.rejectedBy) && exportedBy != "" ==> r == Some(exportedBy)
    ensures !Truthy(b.rejectedBy) && exportedBy == "" && Truthy(stored) ==> r == stored
    ensures !Truthy(b.rejectedBy) && exportedBy == "" && !Truthy(stored) && b.userAdded == Some(true) ==> r == Some("User")
    ensures r.None? <==> !Truthy(b.rejectedBy) && exportedBy == "" && !Truthy(stored) && b.userAdded != Some(true)
  {
    if Truthy(b.rejectedBy) then b.rejectedBy
    else if exportedBy != "" then Some(exportedBy)
    else if Truthy(stored) then stored
    else if b.userAdded == Some(true) then Some("User")
    else None
  }

  /** One annotation per final box, in order; manual exactly when the box is marked not AI-detected. */
  function FinalAnnotations(finalBoxes: seq<Box>, exportedBy: string, stored: Option<string>): (r: seq<FinalAnnotation>)
    ensures |r| == |finalBoxes|
    ensures forall i :: 0 <= i < |r| ==> (
      r[i].box == finalBoxes[i].n && r[i].klass == finalBoxes[i].klass
      && (r[i].manual <==> finalBoxes[i].aiDetected == Some(false))
      && r[i].annotator == Annotator(finalBoxes[i], exportedBy, stored))
  {
    seq(|finalBoxes|, i requires 0 <= i < |finalBoxes| =>
      FinalAnnotation(finalBoxes[i].n, finalBoxes[i].klass, finalBoxes[i].aiDetected == Some(false),
        Annotator(finalBoxes[i], exportedBy, stored)))
  }

  // ---------------------------------------------------------------- actions

  const ModelDetection := "model_detection"
  const UserDeletion := "user_deletion"
  const UserModification := "user_modification"
  const UserAddition := "user_addition"

  /** What an action is about: a detection, a change of a box, or a box (`klass` is its `class`). */
  datatype Details =
    | Detected(box: Coords, klass: string, confidence: real)
    | Change(before: Coords, after: Option<Coords>, finalClass: Option<string>)
    | Boxed(box: Coords, klass: string)

  datatype Action = Action(actionType: string, actor: Nullable, at: Nullable, details: Details, relatedLog: Option<FeedbackLog>)

  predicate Defined(a: Action) { a.actor != Undefined && a.at != Undefined }

  /**
   * The actions of one log: a detection followed, when the user changed it,
   * by a deletion or a modification; or else an addition; or nothing.
   */
  function ActionsOfLog(lg: FeedbackLog): (r: seq<Action>)
    ensures lg.originalAIDetection.Some? ==> (
      |r| == (if lg.userModification.Some? then 2 else 1)
      && r[0] == Action(ModelDetection, Text("AI"), Null, Detected(lg.originalAIDetection.value.box,
           lg.originalAIDetection.value.klass, lg.originalAIDetection.value.confidence), Some(lg))
      && (|r| == 2 ==> (r[1].actionType == (if lg.userModification.value.action == "deleted" then UserDeletion else UserModification)
          && r[1].details.Change? && r[1].details.before == lg.originalAIDetection.value.box)))
    ensures lg.originalAIDetection.None? ==> (
      |r| == (if lg.userAddition.Some? then 1 else 0)
      && (|r| == 1 ==> (r[0].actionType == UserAddition
          && r[0].details == Boxed(lg.userAddition.value.box, lg.userAddition.value.klass))))
    ensures forall a :: a in r ==> a.relatedLog == Some(lg) && Defined(a)
  {
    if lg.originalAIDetection.Some? then
      var d := lg.originalAIDetection.value;
      var detection := Action(ModelDetection, Text("AI"), Null, Detected(d.box, d.klass, d.confidence), Some(lg));
      if lg.userModification.Some? then
        var m := lg.userModification.value;
        var finalClass := if m.finalClass.Some? && m.finalClass.value != "" then m.finalClass else None;
        [detection, Action(if m.action == "deleted" then UserDeletion else UserModification,
           OrNull(m.modifiedBy), OrNull(m.modifiedAt), Change(d.box, m.finalBox, finalClass), Some(lg))]
      else [detection]
    else if lg.userAddition.Some? then
      var add := lg.userAddition.value;
      [Action(UserAddition, OrNull(add.addedBy), OrNull(add.addedAt), Boxed(add.box, add.klass), Some(lg))]
    else []
  }

  /** The actions of all logs, log by log. */
  function LogActions(logs: seq<FeedbackLog>): (r: seq<Action>)
    ensures forall a :: a in r ==> Defined(a) && a.relatedLog.Some? && a.relatedLog.value in logs
  {
    if logs == [] then []
    else
      assert forall x :: x in logs[..|logs| - 1] ==> x in logs;
      LogActions(logs[..|logs| - 1]) + ActionsOfLog(logs[|logs| - 1])
  }

  /** The unified list is the concatenation of the logs' own actions. */
  lemma {:induction false} LogActionsAppend(a: seq<FeedbackLog>, b: seq<FeedbackLog>)
    ensures LogActions(a + b) == LogActions(a) + LogActions(b)
  {
    if b == [] {
      assert a + b == a;
    } else {
      var b' := b[..|b| - 1];
      assert (a + b)[..|a + b| - 1] == a + b';
      assert (a + b)[|a + b| - 1] == b[|b| - 1];
      LogActionsAppend(a, b');
      LogActionsLast(a + b);
      LogActionsLast(b);
      Regroup(LogActions(a), LogActions(b'), ActionsOfLog(b[|b| - 1]));
    }
  }

  /** One more log adds its own actions at the end. */
  lemma LogActionsStep(logs: seq<FeedbackLog>, i: nat)
    requires i < |logs|
    ensures LogActions(logs[..i + 1]) == LogActions(logs[..i]) + ActionsOfLog(logs[i])
  {
    assert logs[..i + 1][..i] == logs[..i];
    LogActionsLast(logs[..i + 1]);
  }

  lemma Regroup(x: seq<Action>, y: seq<Action>, z: seq<Action>)
    ensures (x + y) + z == x + (y + z)
  {
  }

  /** Unfolds the list of actions at its last log. */
  lemma LogActionsLast(logs: seq<FeedbackLog>)
    requires logs != []
    ensures LogActions(logs) == LogActions(logs[..|logs| - 1]) + ActionsOfLog(logs[|logs| - 1])
  {
  }

  /** Some log records `box` as its original detection. */
  predicate MatchesOriginal(logs: seq<FeedbackLog>, box: Coords)
  {
    exists lg :: lg in logs && lg.originalAIDetection.Some? && lg.originalAIDetection.value.box == box
  }

  /** Some log records `box` as a user addition. */
  predicate MatchesAddition(logs: seq<FeedbackLog>, box: Coords)
  {
    exists lg :: lg in logs && lg.userAddition.Some? && lg.userAddition.value.box == box
  }

  /**
   * The action for a final box that no log represents: a detection with no
   * log for an AI-detected box, an addition for a box the user added.
   */
  function ActionsOfFinalBox(b: Box, logs: seq<FeedbackLog>, stored: Option<string>): (r: seq<Action>)
    ensures |r| <= 1
    ensures AiDetected(b) ==> (
      (|r| == 1 <==> !MatchesOriginal(logs, b.n))
      && (|r| == 1 ==> r[0] == Action(ModelDetection, Text("AI"), Null, Detected(b.n, b.klass, b.conf), None)))
    ensures !AiDetected(b) && b.userAdded == Some(true) ==> (
      (|r| == 1 <==> !MatchesAddition(logs, b.n))
      && (|r| == 1 ==> r[0].actionType == UserAddition && r[0].details == Boxed(b.n, b.klass) && r[0].relatedLog.None?))
    ensures !AiDetected(b) && b.userAdded != Some(true) ==> r == []
    ensures forall a :: a in r ==> Defined(a)
  {
    if AiDetected(b) then
      if MatchesOriginal(logs, b.n) then []
      else [Action(ModelDetection, Text("AI"), Null, Detected(b.n, b.klass, b.conf), None)]
    else if b.userAdded == Some(true) then
      if MatchesAddition(logs, b.n) then []
      else [Action(UserAddition, OrNull(Some(Or(b.rejectedBy, Or(stored, "")))), OrNull(b.rejectedAt), Boxed(b.n, b.klass), None)]
    else []
  }

  /** The actions of the final boxes, box by box. */
  function FinalActions(finalBoxes: seq<Box>, logs: seq<FeedbackLog>, stored: Option<string>): (r: seq<Action>)
    ensures |r| <= |finalBoxes|
    ensures forall a :: a in r ==> Defined(a) && a.relatedLog.None?
  {
    if finalBoxes == [] then []
    else FinalActions(finalBoxes[..|finalBoxes| - 1], logs, stored) + ActionsOfFinalBox(finalBoxes[|finalBoxes| - 1], logs, stored)
  }

  /** A log records the deletion of `box`, as an original detection or as an addition. */
  predicate DeletionMatches(lg: FeedbackLog, box: Coords)
  {
    var deleted := lg.userModification.Some? && lg.userModification.value.action == "deleted";
    if lg.originalAIDetection.Some? && deleted then lg.originalAIDetection.value.box == box
    else if lg.userAddition.Some? && deleted then lg.userAddition.value.box == box
    else false
  }

  predicate MatchedDeletion(logs: seq<FeedbackLog>, box: Coords)
  {
    exists lg :: lg in logs && DeletionMatches(lg, box)
  }

  /** A removed box with no matching deletion log gives exactly one deletion, with no log. */
  function ActionsOfRemovedBox(b: Box, logs: seq<FeedbackLog>, stored: Option<string>): (r: seq<Action>)
    ensures |r| == (if MatchedDeletion(logs, b.n) then 0 else 1)
    ensures |r| == 1 ==> (r[0].actionType == UserDeletion && r[0].details == Boxed(b.n, b.klass) && r[0].relatedLog.None?
      && r[0].actor == OrNull(Some(Or(b.rejectedBy, Or(stored, "")))) && r[0].at == OrNull(b.rejectedAt))
    ensures forall a :: a in r ==> Defined(a)
  {
    if MatchedDeletion(logs, b.n) then []
    else [Action(UserDeletion, OrNull(Some(Or(b.rejectedBy, Or(stored, "")))), OrNull(b.rejectedAt), Boxed(b.n, b.klass), None)]
  }

  /** The actions of the removed boxes, box by box. */
  function RemovedActions(removedBoxes: seq<Box>, logs: seq<FeedbackLog>, stored: Option<string>): (r: seq<Action>)
    ensures |r| <= |removedBoxes|
    ensures forall a :: a in r ==> Defined(a) && a.actionType == UserDeletion && a.relatedLog.None?
  {
    if removedBoxes == [] then []
    else RemovedActions(removedBoxes[..|removedBoxes| - 1], logs, stored) + ActionsOfRemovedBox(removedBoxes[|removedBoxes| - 1], logs, stored)
  }

  /** When every removed box has its deletion logged, the removed boxes add no action. */
  lemma {:induction false} LoggedRemovalsAddNothing(removedBoxes: seq<Box>, logs: seq<FeedbackLog>, stored: Option<string>)
    requires forall b :: b in removedBoxes ==> MatchedDeletion(logs, b.n)
    ensures RemovedActions(removedBoxes, logs, stored) == []
  {
    if removedBoxes != [] {
      var init := removedBoxes[..|removedBoxes| - 1];
      assert forall b :: b in init ==> b in removedBoxes;
      LoggedRemovalsAddNothing(init, logs, stored);
      assert removedBoxes[|removedBoxes| - 1] in removedBoxes;
    }
  }

  /** The action with an undefined actor or time replaced by null. */
  function NormalizeAction(a: Action): (r: Action)
    ensures Defined(r)
    ensures r.actionType == a.actionType && r.details == a.details && r.relatedLog == a.relatedLog
    ensures a.actor != Undefined ==> r.actor == a.actor
    ensures a.at != Undefined ==> r.at == a.at
  {
    a.(actor := if a.actor == Undefined then Null else a.actor, at := if a.at == Undefined then Null else a.at)
  }

  /** The actions as `buildExportPayload` assembles them, before normalisation. */
  function Actions(finalBoxes: seq<Box>, logs: seq<FeedbackLog>, removedBoxes: seq<Box>, stored: Option<string>): (r: seq<Action>)
    ensures forall a :: a in r ==> Defined(a)
  {
    LogActions(logs) + FinalActions(finalBoxes, logs, stored) + RemovedActions(removedBoxes, logs, stored)
  }

  /** Every action is built with `|| null` fallbacks, so normalisation changes none of them. */
  lemma NormalizationChangesNothing(finalBoxes: seq<Box>, logs: seq<FeedbackLog>, removedBoxes: seq<Box>, stored: Option<string>)
    ensures var acts := Actions(finalBoxes, logs, removedBoxes, stored);
      forall i :: 0 <= i < |acts| ==> NormalizeAction(acts[i]) == acts[i]
  {
  }

  method CollectLogActions(logs: seq<FeedbackLog>) returns (actions: seq<Action>)
    ensures actions == LogActions(logs)
  {
    actions := [];
    var i := 0;
    while i < |logs|
      invariant 0 <= i <= |logs|
      invariant actions == LogActions(logs[..i])
    {
      var lg := logs[i];
      LogActionsStep(logs, i);
      if lg.originalAIDetection.Some? {
        var d := lg.originalAIDetection.value;
        actions := actions + [Action(ModelDetection, Text("AI"), Null, Detected(d.box, d.klass, d.confidence), Some(lg))];
        if lg.userModification.Some? {
          var m := lg.userModification.value;
          var finalClass := if m.finalClass.Some? && m.finalClass.value != "" then m.finalClass else None;
          actions := actions + [Action(if m.action == "deleted" then UserDeletion else UserModification,
            OrNull(m.modifiedBy), OrNull(m.modifiedAt), Change(d.box, m.finalBox, finalClass), Some(lg))];
        }
      } else if lg.userAddition.Some? {
        var add := lg.userAddition.value;
        actions := actions + [Action(UserAddition, OrNull(add.addedBy), OrNull(add.addedAt), Boxed(add.box, add.klass), Some(lg))];
      }
      i := i + 1;
    }
    assert logs[..i] == logs;
  }

  method CollectFinalActions(finalBoxes: seq<Box>, logs: seq<FeedbackLog>, stored: Option<string>) returns (actions: seq<Action>)
    ensures actions == FinalActions(finalBoxes, logs, stored)
  {
    actions := [];
    var i := 0;
    while i < |finalBoxes|
      invariant 0 <= i <= |finalBoxes|
      invariant actions == FinalActions(finalBoxes[..i], logs, stored)
    {
      var b := finalBoxes[i];
      assert finalBoxes[..i + 1][..i] == finalBoxes[..i];
      if AiDetected(b) {
        if !MatchesOriginal(logs, b.n) {
          actions := actions + [Action(ModelDetection, Text("AI"), Null, Detected(b.n, b.klass, b.conf), None)];
        }
      } else if b.userAdded == Some(true) {
        if !MatchesAddition(logs, b.n) {
          actions := actions + [Action(UserAddition, OrNull(Some(Or(b.rejectedBy, Or(stored, "")))), OrNull(b.rejectedAt), Boxed(b.n, b.klass), None)];
        }
      }
      i := i + 1;
    }
    assert finalBoxes[..i] == finalBoxes;
  }

  method CollectRemovedActions(removedBoxes: seq<Box>, logs: seq<FeedbackLog>, stored: Option<string>) returns (actions: seq<Action>)
    ensures actions == RemovedActions(removedBoxes, logs, stored)
  {
    actions := [];
    var i := 0;
    while i < |removedBoxes|
      invariant 0 <= i <= |removedBoxes|
      invariant actions == RemovedActions(removedBoxes[..i], logs, stored)
    {
      var b := removedBoxes[i];
      assert removedBoxes[..i + 1][..i] == removedBoxes[..i];
      if !MatchedDeletion(logs, b.n) {
        actions := actions + [Action(UserDeletion, OrNull(Some(Or(b.rejectedBy, Or(stored, "")))), OrNull(b.rejectedAt), Boxed(b.n, b.klass), None)];
      }
      i := i + 1;
    }
    assert removedBoxes[..i] == removedBoxes;
  }

  /** The in-place normalisation of every action's actor and time. */
  method NormalizeActions(actions: seq<Action>) returns (r: seq<Action>)
    ensures |r| == |actions|
    ensures forall i :: 0 <= i < |r| ==> r[i] == NormalizeAction(actions[i])
  {
    r := actions;
    var i := 0;
    while i < |r|
      invariant 0 <= i <= |r| == |actions|
      invariant forall k :: 0 <= k < i ==> r[k] == NormalizeAction(actions[k])
      invariant forall k :: i <= k < |r| ==> r[k] == actions[k]
    {
      if r[i].at == Undefined { r := r[i := r[i].(at := Null)]; }
      if r[i].actor == Undefined { r := r[i := r[i].(actor := Null)]; }
      i := i + 1;
    }
  }

  // ---------------------------------------------------------------- removed anomalies

  /** A removed box with its origin and, when a log mentions its box, that log. */
  datatype RemovedAnomaly = RemovedAnomaly(
    box: Coords, klass: string, source: string,
    removedBy: Option<string>, removedAt: Option<string>, feedbackLog: Option<FeedbackLog>)

  /** The log records `box` as its original detection or, having none, as its addition. */
  predicate LogMatchesBox(lg: FeedbackLog, box: Coords)
  {
    if lg.originalAIDetection.Some? then lg.originalAIDetection.value.box == box
    else if lg.userAddition.Some? then lg.userAddition.value.box == box
    else false
  }

  /** `find`: the first element satisfying `p`. */
  function Find<T(==)>(xs: seq<T>, p: T -> bool): (r: Option<T>)
    ensures r.None? <==> forall x :: x in xs ==> !p(x)
    ensures r.Some? ==> exists k :: (0 <= k < |xs| && xs[k] == r.value && p(xs[k])
      && forall m :: 0 <= m < k ==> !p(xs[m]))
  {
    if xs == [] then None
    else if p(xs[0]) then Some(xs[0])
    else
      var r := Find(xs[1..], p);
      assert forall x :: x in xs ==> x == xs[0] || x in xs[1..];
      if r.Some? then
        var k :| 0 <= k < |xs[1..]| && xs[1..][k] == r.value && p(xs[1..][k])
          && forall m :: 0 <= m < k ==> !p(xs[1..][m]);
        assert xs[k + 1] == r.value;
        r
      else r
  }

  /** The first log matching `box`. */
  function FindLog(logs: seq<FeedbackLog>, box: Coords): Option<FeedbackLog>
  {
    Find(logs, lg => LogMatchesBox(lg, box))
  }

  /** Who removed the box, or when: its own record first, else the matching log's modification. */
  function RemovedDetail(own: Option<string>, fromLog: Option<string>): (r: Option<string>)
    ensures r.Some? ==> r.value != ""
    ensures Truthy(own) ==> r == own
    ensures !Truthy(own) && Truthy(fromLog) ==> r == fromLog
    ensures r.None? <==> !Truthy(own) && !Truthy(fromLog)
  {
    if Truthy(own) then own else if Truthy(fromLog) then fromLog else None
  }

  /** The modification recorded by the first log matching `box`, if that log has one. */
  function LoggedModification(logs: seq<FeedbackLog>, box: Coords): Option<Modification>
  {
    var matching := FindLog(logs, box);
    if matching.Some? then matching.value.userModification else None
  }

  /** Who modified the box according to the first matching log. */
  function LoggedBy(logs: seq<FeedbackLog>, box: Coords): Option<string>
  {
    var m := LoggedModification(logs, box);
    if m.Some? then m.value.modifiedBy else None
  }

  /** When the box was modified according to the first matching log. */
  function LoggedAt(logs: seq<FeedbackLog>, box: Coords): Option<string>
  {
    var m := LoggedModification(logs, box);
    if m.Some? then m.value.modifiedAt else None
  }

  function ToRemovedAnomaly(b: Box, logs: seq<FeedbackLog>): RemovedAnomaly
  {
    RemovedAnomaly(b.n, b.klass, if AiDetected(b) then "AI" else "User",
      RemovedDetail(b.rejectedBy, LoggedBy(logs, b.n)), RemovedDetail(b.rejectedAt, LoggedAt(logs, b.n)),
      FindLog(logs, b.n))
  }

  /**
   * One entry per removed box, in order: "AI" exactly for an AI-detected box,
   * the first log that mentions its box, and who removed it and when: the
   * box's own record first, else the modification that log records.
   */
  function RemovedAnomalies(removedBoxes: seq<Box>, logs: seq<FeedbackLog>): (r: seq<RemovedAnomaly>)
    ensures |r| == |removedBoxes|
    ensures forall i :: 0 <= i < |r| ==> (
      r[i].box == removedBoxes[i].n && r[i].klass == removedBoxes[i].klass
      && (r[i].source == "AI" <==> AiDetected(removedBoxes[i]))
      && r[i].feedbackLog == FindLog(logs, removedBoxes[i].n)
      && (r[i].feedbackLog.None? <==> forall lg :: lg in logs ==> !LogMatchesBox(lg, removedBoxes[i].n))
      && (Truthy(removedBoxes[i].rejectedBy) ==> r[i].removedBy == removedBoxes[i].rejectedBy)
      && (!Truthy(removedBoxes[i].rejectedBy) && Truthy(LoggedBy(logs, removedBoxes[i].n)) ==>
            r[i].removedBy == LoggedBy(logs, removedBoxes[i].n))
      && (r[i].removedBy.None? <==> !Truthy(removedBoxes[i].rejectedBy) && !Truthy(LoggedBy(logs, removedBoxes[i].n)))
      && (Truthy(removedBoxes[i].rejectedAt) ==> r[i].removedAt == removedBoxes[i].rejectedAt)
      && (!Truthy(removedBoxes[i].rejectedAt) && Truthy(LoggedAt(logs, removedBoxes[i].n)) ==>
            r[i].removedAt == LoggedAt(logs, removedBoxes[i].n))
      && (r[i].removedAt.None? <==> !Truthy(removedBoxes[i].rejectedAt) && !Truthy(LoggedAt(logs, removedBoxes[i].n))))
  {
    seq(|removedBoxes|, i requires 0 <= i < |removedBoxes| => ToRemovedAnomaly(removedBoxes[i], logs))
  }

  // ---------------------------------------------------------------- payload

  datatype ExportPayload = ExportPayload(
    imageId: string, transformerNo: string, inspectionNo: string, exportedAt: string, exportedBy: string,
    modelPredictedAnomalies: seq<Detection>, finalAcceptedAnnotations: seq<FinalAnnotation>,
    feedbackLogs: seq<FeedbackLog>, removedAnomalies: seq<RemovedAnomaly>, actions: seq<Action>)

  /** `buildExportPayload`. */
  method BuildExportPayload(transformerNo: string, inspectionNo: string, finalBoxes: seq<Box>, feedbackLogs: seq<FeedbackLog>,
                            removedBoxes: seq<Box>, exportedBy: string, stored: Option<string>, exportedAt: string)
    returns (p: ExportPayload)
    ensures p.imageId == ImageId(transformerNo, inspectionNo)
    ensures p.transformerNo == transformerNo && p.inspectionNo == inspectionNo
    ensures p.exportedAt == exportedAt && p.exportedBy == exportedBy
    ensures p.modelPredictedAnomalies == Unique(FromFinal(finalBoxes) + FromLogs(feedbackLogs))
    ensures p.finalAcceptedAnnotations == FinalAnnotations(finalBoxes, exportedBy, stored)
    ensures p.feedbackLogs == feedbackLogs
    ensures p.removedAnomalies == RemovedAnomalies(removedBoxes, feedbackLogs)
    ensures p.actions == Actions(finalBoxes, feedbackLogs, removedBoxes, stored)
  {
    var modelPredicted := DedupByBox(FromFinal(finalBoxes) + FromLogs(feedbackLogs));
    var fromLogs := CollectLogActions(feedbackLogs);
    var fromFinal := CollectFinalActions(finalBoxes, feedbackLogs, stored);
    var fromRemoved := CollectRemovedActions(removedBoxes, feedbackLogs, stored);
    var actions := NormalizeActions(fromLogs + fromFinal + fromRemoved);
    NormalizationChangesNothing(finalBoxes, feedbackLogs, removedBoxes, stored);
    p := ExportPayload(ImageId(transformerNo, inspectionNo), transformerNo, inspectionNo, exportedAt, exportedBy,
      modelPredicted, FinalAnnotations(finalBoxes, exportedBy, stored), feedbackLogs,
      RemovedAnomalies(removedBoxes, feedbackLogs), actions);
  }

  /**
   * The predictions are distinct by box, cover every AI-detected final box
   * and every logged original detection, and keep the final boxes' ones
   * first.
   */
  lemma ModelPredictionsCover(finalBoxes: seq<Box>, logs: seq<FeedbackLog>)
    ensures var u := Unique(FromFinal(finalBoxes) + FromLogs(logs));
      (forall i, j :: 0 <= i < j < |u| ==> u[i].box != u[j].box)
      && (forall b :: b in finalBoxes && AiDetected(b) ==> b.n in BoxSet(u))
      && (forall lg :: lg in logs && lg.originalAIDetection.Some? ==> lg.originalAIDetection.value.box in BoxSet(u))
      && |Unique(FromFinal(finalBoxes))| <= |u| && u[..|Unique(FromFinal(finalBoxes))|] == Unique(FromFinal(finalBoxes))
  {
    var s := FromFinal(finalBoxes) + FromLogs(logs);
    UniquePrefix(FromFinal(finalBoxes), FromLogs(logs));
    forall b | b in finalBoxes && AiDetected(b) ensures b.n in BoxSet(Unique(s)) {
      assert Predicted(b) in s;
    }
    forall lg | lg in logs && lg.originalAIDetection.Some? ensures lg.originalAIDetection.value.box in BoxSet(Unique(s)) {
      assert lg.originalAIDetection.value in s;
    }
  }
}
