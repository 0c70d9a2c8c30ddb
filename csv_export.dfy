/**
 * The CSV form of the feedback export: one header row, then rows for the
 * model's predictions, the user's additions, the logs not yet covered and the
 * actions, each cell escaped and the cells and rows joined.
 *
 * JSON text of a non-text value comes in as a function. The escaping follows
 * rules 6 and 7 of section 2 of RFC 4180 (rule 6: a field with a comma, a line
 * break or a double quote is enclosed in double quotes; rule 7: a quote inside
 * is doubled), with rows separated by a bare line feed.
 */
module CsvExport {
  import opened Wrappers
  import opened InspectionHelpers
  import opened AnomalyService
  import opened ExportFeedback

  // ---------------------------------------------------------------- cells

  /** A JavaScript value placed in a cell. */
  datatype Js =
    | JsUndefined
    | JsNull
    | JsString(s: string)
    | JsBoolean(b: bool)
    | JsNumber(x: real)
    | JsBox(c: Coords)
    | JsLog(lg: FeedbackLog)

  /** `safeString`: empty for null and undefined, a text as itself, anything else as JSON. */
  function SafeString(v: Js, stringify: Js -> string): (r: string)
    ensures v.JsUndefined? || v.JsNull? ==> r == ""
    ensures v.JsString? ==> r == v.s
    ensures !(v.JsUndefined? || v.JsNull? || v.JsString?) ==> r == stringify(v)
  {
    match v
    case JsUndefined => ""
    case JsNull => ""
    case JsString(s) => s
    case _ => stringify(v)
  }

  /** An optional text as a JavaScript value. */
  function Opt(s: Option<string>): Js
  {
    if s.Some? then JsString(s.value) else JsUndefined
  }

  // ---------------------------------------------------------------- escaping and the reader

  predicate NeedsQuotes(s: string) { ',' in s || '\n' in s || '"' in s }

  /** Every double quote written twice. */
  function DoubleQuotes(s: string): (r: string)
    ensures |r| >= |s|
  {
    if s == [] then []
    else (if s[0] == '"' then "\"\"" else [s[0]]) + DoubleQuotes(s[1..])
  }

  /** The cell as written to the file. */
  function Escape(s: string): (r: string)
    ensures !NeedsQuotes(s) ==> r == s
    ensures NeedsQuotes(s) ==> |r| >= 2 && r[0] == '"' && r[|r| - 1] == '"'
  {
    if NeedsQuotes(s) then "\"" + DoubleQuotes(s) + "\"" else s
  }

  /** The cells of a row, escaped and joined by commas. */
  function CsvLine(row: seq<string>): string
  {
    if row == [] then ""
    else if |row| == 1 then Escape(row[0])
    else Escape(row[0]) + "," + CsvLine(row[1..])
  }

  /** The rows, each as its line, joined by line feeds. */
  function CsvText(rows: seq<seq<string>>): string
  {
    if rows == [] then ""
    else if |rows| == 1 then CsvLine(rows[0])
    else CsvLine(rows[0]) + "\n" + CsvText(rows[1..])
  }

  /** The rest of a quoted field, after its opening quote: its text and what follows the closing quote. */
  function ReadQuoted(s: string): (r: Option<(string, string)>)
    ensures r.Some? ==> |r.value.1| < |s|
  {
    if s == [] then None
    else if s[0] == '"' then
      if |s| > 1 && s[1] == '"' then
        match ReadQuoted(s[2..])
        case None => None
        case Some(p) => Some(("\"" + p.0, p.1))
      else Some(("", s[1..]))
    else
      match ReadQuoted(s[1..])
      case None => None
      case Some(p) => Some(([s[0]] + p.0, p.1))
  }

  /** An unquoted field: everything up to a comma or a line feed. */
  function ReadPlain(s: string): (r: (string, string))
    ensures |r.1| <= |s|
  {
    if s == [] || s[0] == ',' || s[0] == '\n' then ("", s)
    else
      var p := ReadPlain(s[1..]);
      ([s[0]] + p.0, p.1)
  }

  /** One field and what follows it. */
  function ReadField(s: string): (r: Option<(string, string)>)
    ensures r.Some? ==> |r.value.1| <= |s|
  {
    if s != [] && s[0] == '"' then ReadQuoted(s[1..]) else Some(ReadPlain(s))
  }

  /** The fields of one line and what follows it. */
  function ReadRow(s: string): (r: Option<(seq<string>, string)>)
    ensures r.Some? ==> |r.value.1| <= |s|
    ensures r.Some? ==> r.value.0 != []
    decreases |s|
  {
    match ReadField(s)
    case None => None
    case Some(p) =>
      if p.1 != [] && p.1[0] == ',' then
        match ReadRow(p.1[1..])
        case None => None
        case Some(q) => Some(([p.0] + q.0, q.1))
      else Some(([p.0], p.1))
  }

  /** All lines of a text. */
  function ReadRows(s: string): (r: Option<seq<seq<string>>>)
    ensures r.Some? ==> r.value != [] && forall i :: 0 <= i < |r.value| ==> r.value[i] != []
    decreases |s|
  {
    match ReadRow(s)
    case None => None
    case Some(p) =>
      if p.1 == [] then Some([p.0])
      else if p.1[0] == '\n' then
        match ReadRows(p.1[1..])
        case None => None
        case Some(rows) => Some([p.0] + rows)
      else None
  }

  /** A doubled quote inside a quoted field reads as one quote. */
  lemma ReadQuotedPair(tail: string, v: string, t: string)
    requires ReadQuoted(tail) == Some((v, t))
    ensures ReadQuoted("\"\"" + tail) == Some(("\"" + v, t))
  {
    var s := "\"\"" + tail;
    assert s[0] == '"' && s[1] == '"' && s[2..] == tail;
  }

  /** Any other character inside a quoted field reads as itself. */
  lemma ReadQuotedChar(ch: char, tail: string, v: string, t: string)
    requires ch != '"'
    requires ReadQuoted(tail) == Some((v, t))
    ensures ReadQuoted([ch] + tail) == Some(([ch] + v, t))
  {
    assert ([ch] + tail)[1..] == tail;
  }

  lemma {:induction false} QuotedRoundTrip(c: string, t: string)
    requires t == [] || t[0] != '"'
    ensures ReadQuoted(DoubleQuotes(c) + "\"" + t) == Some((c, t))
  {
    if c == [] {
      ClosingQuote(t);
    } else {
      QuotedRoundTrip(c[1..], t);
      QuotedStep(c, t);
    }
  }

  /** The closing quote ends the field; a following character other than a quote is not read. */
  lemma ClosingQuote(t: string)
    requires t == [] || t[0] != '"'
    ensures ReadQuoted(DoubleQuotes([]) + "\"" + t) == Some(([], t))
  {
    assert DoubleQuotes([]) + "\"" + t == "\"" + t;
    DropFirst('"', t);
  }

  /** The first character of a quoted field, doubled if it is a quote, reads back ahead of the rest. */
  lemma QuotedStep(c: string, t: string)
    requires c != []
    requires ReadQuoted(DoubleQuotes(c[1..]) + "\"" + t) == Some((c[1..], t))
    ensures ReadQuoted(DoubleQuotes(c) + "\"" + t) == Some((c, t))
  {
    var head := if c[0] == '"' then "\"\"" else [c[0]];
    var doubled := DoubleQuotes(c[1..]);
    var tail := doubled + "\"" + t;
    assert DoubleQuotes(c) == head + doubled;
    Assoc3(head, doubled + "\"", t);
    Assoc3(head, doubled, "\"");
    assert DoubleQuotes(c) + "\"" + t == head + tail;
    if c[0] == '"' {
      ReadQuotedPair(tail, c[1..], t);
      assert "\"" + c[1..] == c;
    } else {
      ReadQuotedChar(c[0], tail, c[1..], t);
      assert [c[0]] + c[1..] == c;
    }
  }

  lemma Assoc3(a: string, b: string, c: string)
    ensures a + b + c == a + (b + c)
  {
  }

  lemma {:induction false} PlainRoundTrip(c: string, t: string)
    requires ',' !in c && '\n' !in c
    requires t == [] || t[0] == ',' || t[0] == '\n'
    ensures ReadPlain(c + t) == (c, t)
  {
    if c == [] {
      assert c + t == t;
    } else {
      assert c[0] in c;
      assert forall x :: x in c[1..] ==> x in c;
      PlainRoundTrip(c[1..], t);
      assert (c + t)[1..] == c[1..] + t;
      assert [c[0]] + c[1..] == c;
    }
  }

  /** Reading an escaped cell gives back the cell, and stops at the separator that follows it. */
  lemma FieldRoundTrip(c: string, t: string)
    requires t == [] || t[0] == ',' || t[0] == '\n'
    ensures ReadField(Escape(c) + t) == Some((c, t))
  {
    var x := Escape(c) + t;
    if NeedsQuotes(c) {
      var body := DoubleQuotes(c) + "\"" + t;
      assert x == "\"" + body;
      assert x[0] == '"' && x[1..] == body;
      QuotedRoundTrip(c, t);
    } else {
      assert x == c + t;
      if c == [] {
        assert x == t;
      } else {
        assert c[0] in c;
        assert x[0] == c[0];
      }
      assert x == [] || x[0] != '"';
      PlainRoundTrip(c, t);
    }
  }

  /** A field followed by a comma continues the row. */
  lemma ReadRowNext(x: string, cell: string, rest: string, cells: seq<string>, t: string)
    requires ReadField(x) == Some((cell, rest))
    requires rest != [] && rest[0] == ','
    requires ReadRow(rest[1..]) == Some((cells, t))
    ensures ReadRow(x) == Some(([cell] + cells, t))
  {
  }

  /** A field followed by anything but a comma ends the row. */
  lemma ReadRowLast(x: string, cell: string, t: string)
    requires ReadField(x) == Some((cell, t))
    requires t == [] || t[0] != ','
    ensures ReadRow(x) == Some(([cell], t))
  {
  }

  lemma SingleCellRoundTrip(row: seq<string>, t: string)
    requires |row| == 1
    requires t == [] || t[0] == '\n'
    ensures ReadRow(CsvLine(row) + t) == Some((row, t))
  {
    var x := CsvLine(row) + t;
    assert ReadField(x) == Some((row[0], t)) by {
      assert x == Escape(row[0]) + t;
      FieldRoundTrip(row[0], t);
    }
    ReadRowLast(x, row[0], t);
    assert [row[0]] == row;
  }

  lemma DropFirst(c: char, s: string)
    ensures ([c] + s)[1..] == s
  {
  }

  /** A line of two or more cells is its first cell, a comma, and the line of the others. */
  lemma CsvLineCons(row: seq<string>)
    requires |row| > 1
    ensures CsvLine(row) == Escape(row[0]) + "," + CsvLine(row[1..])
  {
  }

  lemma RegroupComma(a: string, b: string, t: string)
    ensures a + "," + b + t == a + ("," + (b + t))
  {
  }

  /** Reading a line of two or more cells: its first cell, then the rest after the comma. */
  lemma FirstCellRead(row: seq<string>, t: string)
    requires |row| > 1
    ensures ReadField(CsvLine(row) + t) == Some((row[0], "," + (CsvLine(row[1..]) + t)))
  {
    var e, l := Escape(row[0]), CsvLine(row[1..]);
    CsvLineCons(row);
    RegroupComma(e, l, t);
    FieldRoundTrip(row[0], "," + (l + t));
  }

  lemma {:induction false} RowRoundTrip(row: seq<string>, t: string)
    requires row != []
    requires t == [] || t[0] == '\n'
    ensures ReadRow(CsvLine(row) + t) == Some((row, t))
  {
    if |row| == 1 {
      SingleCellRoundTrip(row, t);
    } else {
      RowRoundTrip(row[1..], t);
      RowStep(row, t);
    }
  }

  /** The first cell of a line reads back ahead of the cells that follow its comma. */
  lemma RowStep(row: seq<string>, t: string)
    requires |row| > 1
    requires ReadRow(CsvLine(row[1..]) + t) == Some((row[1..], t))
    ensures ReadRow(CsvLine(row) + t) == Some((row, t))
  {
    var more := CsvLine(row[1..]) + t;
    var rest := "," + more;
    FirstCellRead(row, t);
    DropFirst(',', more);
    ReadRowNext(CsvLine(row) + t, row[0], rest, row[1..], t);
    assert [row[0]] + row[1..] == row;
  }

  /** A line followed by a line feed continues the table. */
  lemma ReadRowsNext(x: string, row: seq<string>, rest: string, rows: seq<seq<string>>)
    requires ReadRow(x) == Some((row, rest))
    requires rest != [] && rest[0] == '\n'
    requires ReadRows(rest[1..]) == Some(rows)
    ensures ReadRows(x) == Some([row] + rows)
  {
  }

  /** Reading the text of a table of non-empty rows gives back the table. */
  lemma {:induction false} CsvRoundTrip(rows: seq<seq<string>>)
    requires rows != []
    requires forall i :: 0 <= i < |rows| ==> rows[i] != []
    ensures ReadRows(CsvText(rows)) == Some(rows)
  {
    if |rows| == 1 {
      assert CsvText(rows) == CsvLine(rows[0]);
      RowRoundTrip(rows[0], []);
      assert CsvLine(rows[0]) + [] == CsvLine(rows[0]);
      assert [rows[0]] == rows;
    } else {
      var line, more := CsvLine(rows[0]), CsvText(rows[1..]);
      var rest := "\n" + more;
      Assoc3(line, "\n", more);
      assert CsvText(rows) == line + rest;
      RowRoundTrip(rows[0], rest);
      DropFirst('\n', more);
      CsvRoundTrip(rows[1..]);
      ReadRowsNext(line + rest, rows[0], rest, rows[1..]);
      assert [rows[0]] + rows[1..] == rows;
    }
  }

  // ---------------------------------------------------------------- rows

  const Header: seq<string> := [
    "imageId", "transformerNo", "inspectionNo", "exportedAt", "exportedBy",
    "action_type", "actor", "actor_time", "action_box_before", "action_box_after",
    "recordType", "model_box", "model_class", "model_confidence", "final_box",
    "final_class", "final_manual", "annotator", "annotator_time", "feedback_type",
    "feedback_details"]

  /** The number of header columns, which every complete row matches. */
  const Width: nat := 21

  lemma HeaderWidth()
    ensures |Header| == Width
  {
  }

  /** The five cells every row starts with. */
  function Context(p: ExportPayload): (r: seq<string>)
    ensures |r| == 5
  {
    [p.imageId, p.transformerNo, p.inspectionNo, p.exportedAt, p.exportedBy]
  }

  /** The first log recording `box` as its original detection. */
  function OriginalLogOf(logs: seq<FeedbackLog>, box: Coords): Option<FeedbackLog>
  {
    Find(logs, (lg: FeedbackLog) => lg.originalAIDetection.Some? && lg.originalAIDetection.value.box == box)
  }

  /** The first log recording `box` as a user addition. */
  function AdditionLogOf(logs: seq<FeedbackLog>, box: Coords): Option<FeedbackLog>
  {
    Find(logs, (lg: FeedbackLog) => lg.userAddition.Some? && lg.userAddition.value.box == box)
  }

  /** The row of a model prediction, with the modification of the first log about its box. */
  function ModelRow(m: Detection, p: ExportPayload, stringify: Js -> string): (r: seq<string>)
    ensures |r| == Width
    ensures r[5] == "model_detection" && r[10] == "model_prediction"
    ensures r[11] == SafeString(JsBox(m.box), stringify) && r[12] == m.klass
    ensures (r[19] == "user_modification") <==> OriginalLogOf(p.feedbackLogs, m.box).Some?
  {
    var related := OriginalLogOf(p.feedbackLogs, m.box);
    var modification := if related.Some? then related.value.userModification else None;
    var finalFromLog := if modification.None? then JsNull
      else if modification.value.finalBox.Some? then JsBox(modification.value.finalBox.value) else JsUndefined;
    var annotator := if modification.Some? then Opt(modification.value.modifiedBy) else JsNull;
    var annotatorTime := if modification.Some? then Opt(modification.value.modifiedAt) else JsNull;
    Context(p) + [
      "model_detection", "AI", "", SafeString(JsBox(m.box), stringify), "", "model_prediction",
      SafeString(JsBox(m.box), stringify), SafeString(JsString(m.klass), stringify),
      SafeString(JsNumber(m.confidence), stringify), SafeString(finalFromLog, stringify), "", "",
      SafeString(annotator, stringify), SafeString(annotatorTime, stringify),
      if related.Some? then "user_modification" else "",
      if related.Some? then SafeString(JsLog(related.value), stringify) else ""]
  }

  /** The cells of an addition row after the five context cells and the action type, as written. */
  function AdditionCells(f: FinalAnnotation, logs: seq<FeedbackLog>, stringify: Js -> string): (r: seq<string>)
    ensures |r| == 10
  {
    var related := AdditionLogOf(logs, f.box);
    [SafeString(JsString(Or(f.annotator, "")), stringify), SafeString(JsString(""), stringify), ""]
    + [SafeString(JsBox(f.box), stringify), SafeString(JsString(f.klass), stringify), SafeString(JsBoolean(f.manual), stringify),
       if related.Some? then SafeString(Opt(related.value.userAddition.value.addedBy), stringify) else "",
       if related.Some? then SafeString(Opt(related.value.userAddition.value.addedAt), stringify) else "",
       if related.Some? then "user_addition" else "",
       if related.Some? then SafeString(JsLog(related.value), stringify) else ""]
  }

  /**
   * The row of an accepted annotation that is not a model prediction, as
   * written: sixteen cells, so its box and the cells after it fall five
   * columns to the left of their headers.
   */
  function AdditionRowAsWritten(f: FinalAnnotation, p: ExportPayload, stringify: Js -> string): (r: seq<string>)
    ensures |r| == 16
  {
    Context(p) + ["user_addition"] + AdditionCells(f, p.feedbackLogs, stringify)
  }

  /** The addition row with the five model columns left empty, so every cell is under its header. */
  function AdditionRow(f: FinalAnnotation, p: ExportPayload, stringify: Js -> string): (r: seq<string>)
    ensures |r| == Width
    ensures r[5] == "user_addition" && r[14] == SafeString(JsBox(f.box), stringify) && r[15] == f.klass
    ensures r[16] == SafeString(JsBoolean(f.manual), stringify)
    ensures (r[19] == "user_addition") <==> AdditionLogOf(p.feedbackLogs, f.box).Some?
  {
    var cells := AdditionCells(f, p.feedbackLogs, stringify);
    Context(p) + ["user_addition"] + cells[..3] + ["", "", "", "", ""] + cells[3..]
  }

  /** The written addition row puts the box under "action_box_after" and ends five cells short of the header. */
  lemma AdditionRowMisaligned(f: FinalAnnotation, p: ExportPayload, stringify: Js -> string)
    ensures |AdditionRowAsWritten(f, p, stringify)| == |Header| - 5
    ensures Header[9] == "action_box_after" && AdditionRowAsWritten(f, p, stringify)[9] == SafeString(JsBox(f.box), stringify)
    ensures Header[14] == "final_box" && AdditionRow(f, p, stringify)[14] == SafeString(JsBox(f.box), stringify)
  {
  }

  /** Some model prediction has `box`. */
  predicate Predicts(ms: seq<Detection>, box: Coords)
  {
    exists m :: m in ms && m.box == box
  }

  /** Some accepted annotation has `box`. */
  predicate Annotates(fs: seq<FinalAnnotation>, box: Coords)
  {
    exists f :: f in fs && f.box == box
  }

  /** A log whose box already has a prediction row or an addition row. */
  predicate Covered(lg: FeedbackLog, p: ExportPayload)
  {
    if lg.originalAIDetection.Some? then Predicts(p.modelPredictedAnomalies, lg.originalAIDetection.value.box)
    else if lg.userAddition.Some? then Annotates(p.finalAcceptedAnnotations, lg.userAddition.value.box)
    else false
  }

  /** The kind of a log row: its modification first, then its addition, then its detection. */
  function LogRowType(lg: FeedbackLog): (r: string)
    ensures lg.userModification.Some? ==> r == (if lg.userModification.value.action == "deleted" then UserDeletion else UserModification)
    ensures lg.userModification.None? && lg.userAddition.Some? ==> r == UserAddition
    ensures lg.userModification.None? && lg.userAddition.None? ==> r == (if lg.originalAIDetection.Some? then ModelDetection else "feedback_log")
  {
    if lg.userModification.Some? && lg.userModification.value.action == "deleted" then UserDeletion
    else if lg.userModification.Some? then UserModification
    else if lg.userAddition.Some? then UserAddition
    else if lg.originalAIDetection.Some? then ModelDetection
    else "feedback_log"
  }

  /** `a || b`, where `b` may be undefined. */
  function Either(a: Option<string>, b: Option<string>): Js
  {
    if Truthy(a) then JsString(a.value) else Opt(b)
  }

  /** The row of a log that no earlier row covers. */
  function LogRow(lg: FeedbackLog, p: ExportPayload, stringify: Js -> string): (r: seq<string>)
    ensures |r| == Width
    ensures r[5] == LogRowType(lg) && r[20] == SafeString(JsLog(lg), stringify)
  {
    var modification := lg.userModification;
    var addition := lg.userAddition;
    var original := lg.originalAIDetection;
    var who := Either(if modification.Some? then modification.value.modifiedBy else None,
                     if addition.Some? then addition.value.addedBy else None);
    var at := Either(if modification.Some? then modification.value.modifiedAt else None,
                     if addition.Some? then addition.value.addedAt else None);
    var finalBox := if modification.Some? && modification.value.finalBox.Some? then JsBox(modification.value.finalBox.value) else JsUndefined;
    var finalClass := if modification.Some? && Truthy(modification.value.finalClass) then JsString(modification.value.finalClass.value)
      else if addition.Some? then JsString(addition.value.klass) else JsUndefined;
    Context(p) + [
      LogRowType(lg),
      SafeString(JsString(if who.JsString? then who.s else ""), stringify),
      SafeString(JsString(if at.JsString? then at.s else ""), stringify),
      SafeString(if original.Some? then JsBox(original.value.box) else if addition.Some? then JsBox(addition.value.box) else JsString(""), stringify),
      SafeString(if finalBox.JsBox? then finalBox else JsString(""), stringify),
      "",
      SafeString(if original.Some? then JsBox(original.value.box) else JsUndefined, stringify),
      SafeString(if original.Some? then JsString(original.value.klass) else JsUndefined, stringify),
      SafeString(if original.Some? then JsNumber(original.value.confidence) else JsUndefined, stringify),
      SafeString(if finalBox.JsBox? then finalBox else if addition.Some? then JsBox(addition.value.box) else JsUndefined, stringify),
      SafeString(finalClass, stringify),
      SafeString(if modification.Some? || addition.Some? then JsBoolean(true) else JsString(""), stringify),
      SafeString(who, stringify),
      SafeString(at, stringify),
      "",
      SafeString(JsLog(lg), stringify)]
  }

  /** The box an action is about: the box before a change, else its box. */
  function ActionBox(d: Details): Coords
  {
    match d
    case Detected(box, _, _) => box
    case Change(before, _, _) => before
    case Boxed(box, _) => box
  }

  /** A text or null action field, `|| ""`. */
  function NullableText(n: Nullable): string
  {
    if n.Text? then n.s else ""
  }

  /** The cells of an action row after the five context cells, as written. */
  function ActionCells(a: Action, stringify: Js -> string): (r: seq<string>)
    ensures |r| == 5
  {
    var after := if a.details.Change? && a.details.after.Some? then JsBox(a.details.after.value) else JsString("");
    [SafeString(JsString(a.actionType), stringify), SafeString(JsString(NullableText(a.actor)), stringify),
     SafeString(JsString(NullableText(a.at)), stringify), SafeString(JsBox(ActionBox(a.details)), stringify),
     SafeString(after, stringify)]
  }

  /** The related log of an action, `|| ""`. */
  function RelatedCell(a: Action, stringify: Js -> string): string
  {
    SafeString(if a.relatedLog.Some? then JsLog(a.relatedLog.value) else JsString(""), stringify)
  }

  /**
   * The row of an action, as written: twenty cells, so its related log falls
   * under "feedback_type" and "feedback_details" stays empty.
   */
  function ActionRowAsWritten(a: Action, p: ExportPayload, stringify: Js -> string): (r: seq<string>)
    ensures |r| == 20
  {
    Context(p) + ActionCells(a, stringify) + ["action", "", "", "", "", "", "", "", ""] + [RelatedCell(a, stringify)]
  }

  /** The action row with nine empty cells, so the related log is under "feedback_details". */
  function ActionRow(a: Action, p: ExportPayload, stringify: Js -> string): (r: seq<string>)
    ensures |r| == Width
    ensures r[5] == a.actionType && r[10] == "action" && r[20] == RelatedCell(a, stringify)
    ensures forall k :: 11 <= k < 20 ==> r[k] == ""
  {
    Context(p) + ActionCells(a, stringify) + ["action", "", "", "", "", "", "", "", "", ""] + [RelatedCell(a, stringify)]
  }

  /** The written action row puts the related log under "feedback_type" and ends one cell short. */
  lemma ActionRowMisaligned(a: Action, p: ExportPayload, stringify: Js -> string)
    ensures |ActionRowAsWritten(a, p, stringify)| == |Header| - 1
    ensures Header[19] == "feedback_type" && ActionRowAsWritten(a, p, stringify)[19] == RelatedCell(a, stringify)
    ensures Header[20] == "feedback_details" && ActionRow(a, p, stringify)[20] == RelatedCell(a, stringify)
  {
  }

  // ---------------------------------------------------------------- the table

  function ModelRows(ms: seq<Detection>, p: ExportPayload, stringify: Js -> string): (r: seq<seq<string>>)
    ensures |r| == |ms|
    ensures forall i :: 0 <= i < |r| ==> |r[i]| == Width
  {
    if ms == [] then [] else ModelRows(ms[..|ms| - 1], p, stringify) + [ModelRow(ms[|ms| - 1], p, stringify)]
  }

  function AdditionRows(fs: seq<FinalAnnotation>, p: ExportPayload, stringify: Js -> string): (r: seq<seq<string>>)
    ensures |r| <= |fs|
    ensures forall i :: 0 <= i < |r| ==> |r[i]| == Width
  {
    if fs == [] then []
    else
      var f := fs[|fs| - 1];
      AdditionRows(fs[..|fs| - 1], p, stringify)
      + (if Predicts(p.modelPredictedAnomalies, f.box) then [] else [AdditionRow(f, p, stringify)])
  }

  function LogRows(logs: seq<FeedbackLog>, p: ExportPayload, stringify: Js -> string): (r: seq<seq<string>>)
    ensures |r| <= |logs|
    ensures forall i :: 0 <= i < |r| ==> |r[i]| == Width
  {
    if logs == [] then []
    else
      var lg := logs[|logs| - 1];
      LogRows(logs[..|logs| - 1], p, stringify) + (if Covered(lg, p) then [] else [LogRow(lg, p, stringify)])
  }

  function ActionRows(actions: seq<Action>, p: ExportPayload, stringify: Js -> string): (r: seq<seq<string>>)
    ensures |r| == |actions|
    ensures forall i :: 0 <= i < |r| ==> |r[i]| == Width && r[i][10] == "action"
  {
    if actions == [] then [] else ActionRows(actions[..|actions| - 1], p, stringify) + [ActionRow(actions[|actions| - 1], p, stringify)]
  }

  /** The corrected addition row is the written one with the five model cells put back before the box. */
  lemma AdditionRealigned(f: FinalAnnotation, p: ExportPayload, stringify: Js -> string)
    ensures var w := AdditionRowAsWritten(f, p, stringify);
      AdditionRow(f, p, stringify) == w[..9] + ["", "", "", "", ""] + w[9..]
  {
    var cells := AdditionCells(f, p.feedbackLogs, stringify);
    var w := AdditionRowAsWritten(f, p, stringify);
    assert w[..9] == Context(p) + ["user_addition"] + cells[..3];
    assert w[9..] == cells[3..];
  }

  /** The corrected action row is the written one with one more empty cell before the related log. */
  lemma ActionRealigned(a: Action, p: ExportPayload, stringify: Js -> string)
    ensures var w := ActionRowAsWritten(a, p, stringify);
      ActionRow(a, p, stringify) == w[..19] + [""] + w[19..]
  {
    var w := ActionRowAsWritten(a, p, stringify);
    assert w[..19] == Context(p) + ActionCells(a, stringify) + ["action", "", "", "", "", "", "", "", ""];
    assert w[19..] == [RelatedCell(a, stringify)];
  }

  /** The addition rows as `downloadCsv` writes them: one per annotation no prediction covers, each the corrected row less five cells. */
  function AdditionRowsAsWritten(fs: seq<FinalAnnotation>, p: ExportPayload, stringify: Js -> string): (r: seq<seq<string>>)
    ensures |r| == |AdditionRows(fs, p, stringify)|
    ensures forall i :: 0 <= i < |r| ==> |r[i]| == 16 && AdditionRows(fs, p, stringify)[i] == r[i][..9] + ["", "", "", "", ""] + r[i][9..]
  {
    if fs == [] then []
    else
      var f := fs[|fs| - 1];
      AdditionRealigned(f, p, stringify);
      AdditionRowsAsWritten(fs[..|fs| - 1], p, stringify)
      + (if Predicts(p.modelPredictedAnomalies, f.box) then [] else [AdditionRowAsWritten(f, p, stringify)])
  }

  /** The action rows as `downloadCsv` writes them: one per action, each the corrected row less one cell. */
  function ActionRowsAsWritten(actions: seq<Action>, p: ExportPayload, stringify: Js -> string): (r: seq<seq<string>>)
    ensures |r| == |actions|
    ensures forall i :: 0 <= i < |r| ==> |r[i]| == 20 && ActionRows(actions, p, stringify)[i] == r[i][..19] + [""] + r[i][19..]
  {
    if actions == [] then []
    else
      var a := actions[|actions| - 1];
      ActionRealigned(a, p, stringify);
      ActionRowsAsWritten(actions[..|actions| - 1], p, stringify) + [ActionRowAsWritten(a, p, stringify)]
  }

  /** The table `downloadCsv` builds as written, header first: its addition and action rows are short. */
  function CsvTableAsWritten(p: ExportPayload, stringify: Js -> string): (r: seq<seq<string>>)
    ensures r != [] && r[0] == Header
    ensures 1 + |p.modelPredictedAnomalies| + |p.actions| <= |r|
    ensures |r| <= 1 + |p.modelPredictedAnomalies| + |p.finalAcceptedAnnotations| + |p.feedbackLogs| + |p.actions|
  {
    [Header] + ModelRows(p.modelPredictedAnomalies, p, stringify) + AdditionRowsAsWritten(p.finalAcceptedAnnotations, p, stringify)
    + LogRows(p.feedbackLogs, p, stringify) + ActionRowsAsWritten(p.actions, p, stringify)
  }

  /** Every row has between `lo` and `hi` cells. */
  predicate WidthsIn(rows: seq<seq<string>>, lo: nat, hi: nat)
  {
    forall i :: 0 <= i < |rows| ==> lo <= |rows[i]| <= hi
  }

  lemma AppendWidthsIn(a: seq<seq<string>>, b: seq<seq<string>>, lo: nat, hi: nat)
    requires WidthsIn(a, lo, hi) && WidthsIn(b, lo, hi)
    ensures WidthsIn(a + b, lo, hi)
  {
    forall i | 0 <= i < |a + b| ensures lo <= |(a + b)[i]| <= hi {
      if i < |a| { assert (a + b)[i] == a[i]; } else { assert (a + b)[i] == b[i - |a|]; }
    }
  }

  /**
   * The written table has as many rows as the corrected one, and every row
   * has between sixteen and twenty-one cells.
   */
  lemma CsvAsWrittenShape(p: ExportPayload, stringify: Js -> string)
    ensures var t := CsvTableAsWritten(p, stringify);
      |t| == |CsvTable(p, stringify)| && WidthsIn(t, 16, Width)
  {
    HeaderWidth();
    CsvAsWrittenRows(p, stringify);
    StackWidths(Header, ModelRows(p.modelPredictedAnomalies, p, stringify),
      AdditionRowsAsWritten(p.finalAcceptedAnnotations, p, stringify), LogRows(p.feedbackLogs, p, stringify),
      ActionRowsAsWritten(p.actions, p, stringify));
  }

  /** The written table has one row for each row of the corrected one. */
  lemma CsvAsWrittenRows(p: ExportPayload, stringify: Js -> string)
    ensures |CsvTableAsWritten(p, stringify)| == |CsvTable(p, stringify)|
  {
    var m := |ModelRows(p.modelPredictedAnomalies, p, stringify)|;
    var a := |AdditionRows(p.finalAcceptedAnnotations, p, stringify)|;
    var l := |LogRows(p.feedbackLogs, p, stringify)|;
    var c := |p.actions|;
    assert |CsvTable(p, stringify)| == 1 + m + a + l + c;
    assert |CsvTableAsWritten(p, stringify)| == 1 + m + a + l + c;
  }

  /** The text of the written table reads back as the written table, short rows and all. */
  lemma CsvAsWrittenReadsBack(p: ExportPayload, stringify: Js -> string)
    ensures ReadRows(CsvText(CsvTableAsWritten(p, stringify))) == Some(CsvTableAsWritten(p, stringify))
  {
    var t := CsvTableAsWritten(p, stringify);
    CsvAsWrittenShape(p, stringify);
    assert forall i :: 0 <= i < |t| ==> t[i] != [] by {
      forall i | 0 <= i < |t| ensures t[i] != [] { assert |t[i]| >= 16; }
    }
    CsvRoundTrip(t);
  }

  /** A header stacked over four blocks of rows between sixteen and twenty-one cells wide. */
  lemma StackWidths(h: seq<string>, m: seq<seq<string>>, a: seq<seq<string>>, l: seq<seq<string>>, c: seq<seq<string>>)
    requires |h| == 21 && WidthsIn(m, 16, 21) && WidthsIn(a, 16, 21) && WidthsIn(l, 16, 21) && WidthsIn(c, 16, 21)
    ensures WidthsIn([h] + m + a + l + c, 16, 21)
  {
    AppendWidthsIn([h], m, 16, 21);
    AppendWidthsIn([h] + m, a, 16, 21);
    AppendWidthsIn([h] + m + a, l, 16, 21);
    AppendWidthsIn([h] + m + a + l, c, 16, 21);
  }

  /** The table of `downloadCsv` with every row as wide as the header, header first. */
  function CsvTable(p: ExportPayload, stringify: Js -> string): (r: seq<seq<string>>)
    ensures r != [] && r[0] == Header
    ensures 1 + |p.modelPredictedAnomalies| + |p.actions| <= |r|
    ensures |r| <= 1 + |p.modelPredictedAnomalies| + |p.finalAcceptedAnnotations| + |p.feedbackLogs| + |p.actions|
  {
    [Header] + ModelRows(p.modelPredictedAnomalies, p, stringify) + AdditionRows(p.finalAcceptedAnnotations, p, stringify)
    + LogRows(p.feedbackLogs, p, stringify) + ActionRows(p.actions, p, stringify)
  }

  /**
   * Every row of the table has one cell per header, the header comes first,
   * one row per prediction follows it and one row per action ends it.
   */
  lemma CsvTableShape(p: ExportPayload, stringify: Js -> string)
    ensures var t := CsvTable(p, stringify);
      t[0] == Header
      && (forall i :: 0 <= i < |t| ==> |t[i]| == |Header|)
      && |t| >= 1 + |p.modelPredictedAnomalies| + |p.actions|
      && t[1..1 + |p.modelPredictedAnomalies|] == ModelRows(p.modelPredictedAnomalies, p, stringify)
  {
    HeaderWidth();
    StackShape(Header, ModelRows(p.modelPredictedAnomalies, p, stringify),
      AdditionRows(p.finalAcceptedAnnotations, p, stringify), LogRows(p.feedbackLogs, p, stringify),
      ActionRows(p.actions, p, stringify));
  }

  /** A header stacked over four blocks of rows as wide as it. */
  lemma StackShape(h: seq<string>, m: seq<seq<string>>, a: seq<seq<string>>, l: seq<seq<string>>, c: seq<seq<string>>)
    requires AllWidth(m, |h|) && AllWidth(a, |h|) && AllWidth(l, |h|) && AllWidth(c, |h|)
    ensures var t := [h] + m + a + l + c;
      t[0] == h && AllWidth(t, |h|) && |t| == 1 + |m| + |a| + |l| + |c| && t[1..1 + |m|] == m
  {
    var n := |h|;
    AppendWidth([h], m, n);
    AppendWidth([h] + m, a, n);
    AppendWidth([h] + m + a, l, n);
    AppendWidth([h] + m + a + l, c, n);
    assert [h] + m + a + l + c == [h] + m + (a + l + c);
  }

  /** Every row has `n` cells. */
  predicate AllWidth(rows: seq<seq<string>>, n: nat)
  {
    forall i :: 0 <= i < |rows| ==> |rows[i]| == n
  }

  lemma AppendWidth(a: seq<seq<string>>, b: seq<seq<string>>, n: nat)
    requires AllWidth(a, n) && AllWidth(b, n)
    ensures AllWidth(a + b, n)
  {
    forall i | 0 <= i < |a + b| ensures |(a + b)[i]| == n {
      if i < |a| { assert (a + b)[i] == a[i]; } else { assert (a + b)[i] == b[i - |a|]; }
    }
  }

  /** The text of the exported table reads back as the table. */
  lemma CsvReadsBack(p: ExportPayload, stringify: Js -> string)
    ensures ReadRows(CsvText(CsvTable(p, stringify))) == Some(CsvTable(p, stringify))
  {
    CsvTableShape(p, stringify);
    CsvRoundTrip(CsvTable(p, stringify));
  }

  /** Pushing one more row keeps the accumulated rows equal to the starting rows plus the rows so far. */
  lemma PushStep(r: seq<seq<string>>, rows: seq<seq<string>>, done: seq<seq<string>>, row: seq<string>)
    requires r == rows + done
    ensures r + [row] == rows + (done + [row])
  {
  }

  lemma ModelRowsStep(ms: seq<Detection>, i: nat, p: ExportPayload, stringify: Js -> string)
    requires i < |ms|
    ensures ModelRows(ms[..i + 1], p, stringify) == ModelRows(ms[..i], p, stringify) + [ModelRow(ms[i], p, stringify)]
  {
    assert ms[..i + 1][..i] == ms[..i];
  }

  lemma AdditionRowsStep(fs: seq<FinalAnnotation>, i: nat, p: ExportPayload, stringify: Js -> string)
    requires i < |fs|
    ensures Predicts(p.modelPredictedAnomalies, fs[i].box) ==>
      AdditionRows(fs[..i + 1], p, stringify) == AdditionRows(fs[..i], p, stringify)
    ensures !Predicts(p.modelPredictedAnomalies, fs[i].box) ==>
      AdditionRows(fs[..i + 1], p, stringify) == AdditionRows(fs[..i], p, stringify) + [AdditionRow(fs[i], p, stringify)]
  {
    assert fs[..i + 1][..i] == fs[..i];
  }

  lemma LogRowsStep(logs: seq<FeedbackLog>, i: nat, p: ExportPayload, stringify: Js -> string)
    requires i < |logs|
    ensures Covered(logs[i], p) ==> LogRows(logs[..i + 1], p, stringify) == LogRows(logs[..i], p, stringify)
    ensures !Covered(logs[i], p) ==>
      LogRows(logs[..i + 1], p, stringify) == LogRows(logs[..i], p, stringify) + [LogRow(logs[i], p, stringify)]
  {
    assert logs[..i + 1][..i] == logs[..i];
  }

  lemma ActionRowsStep(actions: seq<Action>, i: nat, p: ExportPayload, stringify: Js -> string)
    requires i < |actions|
    ensures ActionRows(actions[..i + 1], p, stringify) == ActionRows(actions[..i], p, stringify) + [ActionRow(actions[i], p, stringify)]
  {
    assert actions[..i + 1][..i] == actions[..i];
  }

  method PushModelRows(rows: seq<seq<string>>, p: ExportPayload, stringify: Js -> string) returns (r: seq<seq<string>>)
    ensures r == rows + ModelRows(p.modelPredictedAnomalies, p, stringify)
  {
    var ms := p.modelPredictedAnomalies;
    r := rows;
    var i := 0;
    while i < |ms|
      invariant 0 <= i <= |ms|
      invariant r == rows + ModelRows(ms[..i], p, stringify)
    {
      ModelRowsStep(ms, i, p, stringify);
      PushStep(r, rows, ModelRows(ms[..i], p, stringify), ModelRow(ms[i], p, stringify));
      r := r + [ModelRow(ms[i], p, stringify)];
      i := i + 1;
    }
    assert ms[..i] == ms;
  }

  method PushAdditionRows(rows: seq<seq<string>>, p: ExportPayload, stringify: Js -> string) returns (r: seq<seq<string>>)
    ensures r == rows + AdditionRows(p.finalAcceptedAnnotations, p, stringify)
  {
    var fs := p.finalAcceptedAnnotations;
    r := rows;
    var i := 0;
    while i < |fs|
      invariant 0 <= i <= |fs|
      invariant r == rows + AdditionRows(fs[..i], p, stringify)
    {
      AdditionRowsStep(fs, i, p, stringify);
      if !Predicts(p.modelPredictedAnomalies, fs[i].box) {
        PushStep(r, rows, AdditionRows(fs[..i], p, stringify), AdditionRow(fs[i], p, stringify));
        r := r + [AdditionRow(fs[i], p, stringify)];
      }
      i := i + 1;
    }
    assert fs[..i] == fs;
  }

  method PushLogRows(rows: seq<seq<string>>, p: ExportPayload, stringify: Js -> string) returns (r: seq<seq<string>>)
    ensures r == rows + LogRows(p.feedbackLogs, p, stringify)
  {
    var logs := p.feedbackLogs;
    r := rows;
    var i := 0;
    while i < |logs|
      invariant 0 <= i <= |logs|
      invariant r == rows + LogRows(logs[..i], p, stringify)
    {
      LogRowsStep(logs, i, p, stringify);
      if !Covered(logs[i], p) {
        PushStep(r, rows, LogRows(logs[..i], p, stringify), LogRow(logs[i], p, stringify));
        r := r + [LogRow(logs[i], p, stringify)];
      }
      i := i + 1;
    }
    assert logs[..i] == logs;
  }

  method PushActionRows(rows: seq<seq<string>>, p: ExportPayload, stringify: Js -> string) returns (r: seq<seq<string>>)
    ensures r == rows + ActionRows(p.actions, p, stringify)
  {
    var actions := p.actions;
    r := rows;
    var i := 0;
    while i < |actions|
      invariant 0 <= i <= |actions|
      invariant r == rows + ActionRows(actions[..i], p, stringify)
    {
      ActionRowsStep(actions, i, p, stringify);
      PushStep(r, rows, ActionRows(actions[..i], p, stringify), ActionRow(actions[i], p, stringify));
      r := r + [ActionRow(actions[i], p, stringify)];
      i := i + 1;
    }
    assert actions[..i] == actions;
  }

  /** `downloadCsv`'s row building: the header, then four passes pushing rows. */
  method BuildCsvRows(p: ExportPayload, stringify: Js -> string) returns (rows: seq<seq<string>>)
    ensures rows == CsvTable(p, stringify)
  {
    rows := PushModelRows([Header], p, stringify);
    rows := PushAdditionRows(rows, p, stringify);
    rows := PushLogRows(rows, p, stringify);
    rows := PushActionRows(rows, p, stringify);
  }

  /** `downloadCsv`'s text, before it is handed to the browser. */
  method CsvContent(p: ExportPayload, stringify: Js -> string) returns (text: string)
    ensures text == CsvText(CsvTable(p, stringify))
    ensures ReadRows(text) == Some(CsvTable(p, stringify))
  {
    var rows := BuildCsvRows(p, stringify);
    text := CsvText(rows);
    CsvReadsBack(p, stringify);
  }
}
