/**
 * The inspection half of the custom mapper, in its current form and in the
 * older form that still numbers inspections from a database sequence.
 *
 * A request and an entity are records of their non-null fields. Date parsing
 * and rendering are a library concern: `format` parses the combined
 * "date time" text and renders it in the display format, or fails (None).
 */
module InspectionMapper {
  import opened Wrappers
  import opened Text
  import opened Beans
  import InspectionEntity

  type DateFormat = string -> Option<string>

  /** The request's fields (current form), in declaration order. */
  const RequestFields: seq<Field> := [
    Field("id", JLong), Field("branch", JString), Field("transformerNo", JString),
    Field("inspectionDate", JString), Field("time", JString), Field("inspectorName", JString),
    Field("engineerStatus", JString), Field("voltage", JString), Field("current", JString),
    Field("recommendedAction", JString), Field("additionalRemarks", JString)]

  /**
   * `formatInspectionDate`: null when either part is null, otherwise the
   * rendered combination; an unparseable combination is an error whose message
   * quotes both parts.
   */
  function FormatInspectionDate(date: Option<string>, time: Option<string>, format: DateFormat): (r: Result<Option<string>, string>)
    ensures date.None? || time.None? ==> r == Ok(None)
    ensures date.Some? && time.Some? ==>
      (r.Err? <==> format(date.value + " " + time.value).None?)
      && (r.Ok? ==> r.value == format(date.value + " " + time.value))
      && (r.Err? ==> r.error == "Invalid date/time format: " + date.value + " " + time.value)
  {
    if date.Some? && time.Some? then
      var formatted := format(date.value + " " + time.value);
      if formatted.None? then Err("Invalid date/time format: " + date.value + " " + time.value)
      else Ok(formatted)
    else Ok(None)
  }

  /**
   * `toEntity(InspectionDataRequest)`: a new entity with the request's branch
   * and transformer number, the formatted inspection date, and status "Pending";
   * the builder supplies the maintenance date (`now`). No id and no inspection
   * number are set.
   */
  function ToEntity(request: Record, format: DateFormat, now: string): (r: Result<Record, string>)
    ensures r.Err? <==> FormatInspectionDate(Str(request, "inspectionDate"), Str(request, "time"), format).Err?
    ensures r.Ok? ==> ("status" in r.value && "maintenanceDate" in r.value
      && r.value["status"] == VString("Pending")
      && r.value["maintenanceDate"] == VString(now)
      && "id" !in r.value && "inspectionNo" !in r.value
      && Str(r.value, "branch") == Str(request, "branch")
      && Str(r.value, "transformerNo") == Str(request, "transformerNo")
      && Str(r.value, "inspectedDate") == FormatInspectionDate(Str(request, "inspectionDate"), Str(request, "time"), format).value)
  {
    var inspected := FormatInspectionDate(Str(request, "inspectionDate"), Str(request, "time"), format);
    if inspected.Err? then Err(inspected.error)
    else
      var given := SetIfPresent(SetIfPresent(SetIfPresent(map[], "branch", Str(request, "branch")),
        "transformerNo", Str(request, "transformerNo")), "inspectedDate", inspected.value);
      Ok(InspectionEntity.Build(given["status" := VString("Pending")], now))
  }

  /** A new entity holds only the entity's own fields, each of its declared type. */
  lemma ToEntityConforms(request: Record, format: DateFormat, now: string)
    requires ToEntity(request, format, now).Ok?
    ensures Conforms(InspectionEntity.InspectionFields, ToEntity(request, format, now).value)
  {
    var e := ToEntity(request, format, now).value;
    assert forall k :: k in e ==> k in {"branch", "transformerNo", "inspectedDate", "status", "maintenanceDate"} && e[k].VString?;
    InspectionEntity.TextRecordConforms(e);
  }

  /**
   * The state `updateEntity(InspectionDataRequest)` leaves and whether it failed.
   * Branch and transformer number are replaced when the request carries them;
   * the inspection date is recomputed only when both date and time are given.
   * A formatting failure is raised after the first two assignments, so those
   * stay applied.
   */
  function UpdatedInspection(existing: Record, request: Record, format: DateFormat): (Record, Option<string>)
  {
    var named := SetIfPresent(SetIfPresent(existing, "branch", Str(request, "branch")),
      "transformerNo", Str(request, "transformerNo"));
    var date := Str(request, "inspectionDate");
    var time := Str(request, "time");
    if date.Some? && time.Some? then
      var inspected := FormatInspectionDate(date, time, format);
      if inspected.Err? then (named, Some(inspected.error))
      else (SetIfPresent(named, "inspectedDate", inspected.value), None)
    else (named, None)
  }

  /**
   * What an update may change: branch and transformer number (only to the
   * request's non-null values) and the inspection date (only when both date and
   * time are given); every other field, the engineer's fields included, is
   * untouched.
   */
  lemma UpdateFieldwise(existing: Record, request: Record, format: DateFormat, k: string)
    ensures var (after, _) := UpdatedInspection(existing, request, format);
      (k !in {"branch", "transformerNo", "inspectedDate"} ==> (k in after <==> k in existing) && (k in after ==> after[k] == existing[k]))
      && (k in {"branch", "transformerNo"} && Str(request, k).Some? ==> after[k] == VString(Str(request, k).value))
      && (k in {"branch", "transformerNo"} && Str(request, k).None? ==> (k in after <==> k in existing) && (k in after ==> after[k] == existing[k]))
      && ((Str(request, "inspectionDate").None? || Str(request, "time").None?) ==>
            ("inspectedDate" in after <==> "inspectedDate" in existing)
            && ("inspectedDate" in after ==> after["inspectedDate"] == existing["inspectedDate"]))
      && (Str(request, "inspectionDate").Some? && Str(request, "time").Some?
          && format(Str(request, "inspectionDate").value + " " + Str(request, "time").value).Some? ==>
            "inspectedDate" in after
            && after["inspectedDate"] == VString(format(Str(request, "inspectionDate").value + " " + Str(request, "time").value).value))
  {
  }

  /** The update fails exactly when both date and time are given and do not parse. */
  lemma UpdateFails(existing: Record, request: Record, format: DateFormat)
    ensures UpdatedInspection(existing, request, format).1.Some? <==>
      Str(request, "inspectionDate").Some? && Str(request, "time").Some?
      && format(Str(request, "inspectionDate").value + " " + Str(request, "time").value).None?
  {
  }

  /** Applying the same update twice gives the same entity as applying it once. */
  lemma UpdateIdempotent(existing: Record, request: Record, format: DateFormat)
    requires UpdatedInspection(existing, request, format).1.None?
    ensures UpdatedInspection(UpdatedInspection(existing, request, format).0, request, format)
         == UpdatedInspection(existing, request, format)
  {
    var once := UpdatedInspection(existing, request, format).0;
    var twice := UpdatedInspection(once, request, format).0;
    forall k ensures (k in twice <==> k in once) && (k in twice ==> twice[k] == once[k]) {
      UpdateFieldwise(once, request, format, k);
      UpdateFieldwise(existing, request, format, k);
    }
    assert twice == once;
  }

  /** The update keeps an entity conforming to the entity's declared fields. */
  lemma UpdateConforms(existing: Record, request: Record, format: DateFormat)
    requires Conforms(InspectionEntity.InspectionFields, existing)
    ensures Conforms(InspectionEntity.InspectionFields, UpdatedInspection(existing, request, format).0)
  {
    var fs := InspectionEntity.InspectionFields;
    InspectionEntity.TextField("branch");
    InspectionEntity.TextField("transformerNo");
    InspectionEntity.TextField("inspectedDate");
    var withBranch := SetIfPresent(existing, "branch", Str(request, "branch"));
    ConformsSetText(fs, existing, "branch", Str(request, "branch"));
    var named := SetIfPresent(withBranch, "transformerNo", Str(request, "transformerNo"));
    ConformsSetText(fs, withBranch, "transformerNo", Str(request, "transformerNo"));
    var date := Str(request, "inspectionDate");
    var time := Str(request, "time");
    if date.Some? && time.Some? {
      var inspected := FormatInspectionDate(date, time, format);
      if inspected.Ok? {
        ConformsSetText(fs, named, "inspectedDate", inspected.value);
      }
    }
  }

  /**
   * `updateEntity(entity, InspectionDataRequest)`: the assignments in source
   * order; `err` is the message of the formatting failure, if any.
   */
  method UpdateEntity(entity: Instance, request: Record, format: DateFormat) returns (err: Option<string>)
    requires entity.Valid() && entity.decl == InspectionEntity.InspectionEntityClass
    modifies entity
    ensures entity.Valid()
    ensures (entity.vals, err) == UpdatedInspection(old(entity.vals), request, format)
  {
    UpdateConforms(entity.vals, request, format);
    var branch := Str(request, "branch");
    if branch.Some? {
      entity.vals := entity.vals["branch" := VString(branch.value)];
    }
    var transformerNo := Str(request, "transformerNo");
    if transformerNo.Some? {
      entity.vals := entity.vals["transformerNo" := VString(transformerNo.value)];
    }
    var date := Str(request, "inspectionDate");
    var time := Str(request, "time");
    if date.Some? && time.Some? {
      var inspected := FormatInspectionDate(date, time, format);
      if inspected.Err? {
        return Some(inspected.error);
      }
      if inspected.value.Some? {
        entity.vals := entity.vals["inspectedDate" := VString(inspected.value.value)];
      }
    }
    return None;
  }

  // ------------------------------------------------------------ the older form

  /** A database sequence: each call yields the next number. */
  class Sequence {
    var last: int

    constructor (start: int)
      ensures last == start
    {
      last := start;
    }

    method NextVal() returns (v: int)
      modifies this
      ensures last == old(last) + 1 && v == last
    {
      last := last + 1;
      v := last;
    }
  }

  /**
   * The older `toEntity`: the same mapping, plus an inspection number made of
   * "INSP-" and the next value of the inspection sequence. The date is
   * formatted first, so a formatting failure consumes no sequence number.
   */
  method ToEntityNumbered(request: Record, format: DateFormat, now: string, sequence: Sequence)
    returns (r: Result<Record, string>)
    modifies sequence
    ensures r.Err? <==> ToEntity(request, format, now).Err?
    ensures r.Err? ==> r.error == ToEntity(request, format, now).error && sequence.last == old(sequence.last)
    ensures r.Ok? ==> (sequence.last == old(sequence.last) + 1
      && r.value == ToEntity(request, format, now).value["inspectionNo" := VString("INSP-" + IntToString(sequence.last))])
  {
    var inspected := FormatInspectionDate(Str(request, "inspectionDate"), Str(request, "time"), format);
    if inspected.Err? {
      return Err(inspected.error);
    }
    var n := sequence.NextVal();
    var entity := ToEntity(request, format, now).value;
    return Ok(entity["inspectionNo" := VString("INSP-" + IntToString(n))]);
  }

  /** Successive numbered inspections get distinct inspection numbers. */
  lemma NumberedDistinct(a: int, b: int)
    requires a != b
    ensures "INSP-" + IntToString(a) != "INSP-" + IntToString(b)
  {
    IntToStringInjective(a, b);
    PrefixKeepsDistinct("INSP-", IntToString(a), IntToString(b));
  }
}
