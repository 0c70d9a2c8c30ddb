/**
 * The maintenance-record service: records attached to an inspection, created
 * and partially updated from a request, read one at a time or per inspection,
 * and deleted. Every failure, whatever its cause, is rethrown with the
 * operation's own response code and a fixed message.
 *
 * The 29 descriptive fields of a record (pole number through CSS date) are
 * numbered by `Detail` in declaration order; a record holds the non-null ones.
 */
module MaintenanceService {
  import opened Wrappers
  import opened Beans
  import opened Responses
  import Repository

  /** A descriptive field, by its position in the entity's declarations. */
  type Detail = i: int | 0 <= i < FieldCount

  const FieldCount := 29

  const PoleNo: Detail := 0
  const LocationDetails: Detail := 1
  const Type: Detail := 2
  const Inspected: Detail := 3
  const IrLeft: Detail := 4
  const IrRight: Detail := 5
  const IrFront: Detail := 6
  const LastMonthKva: Detail := 7
  const LastMonthDate: Detail := 8
  const LastMonthTime: Detail := 9
  const CurrentMonthKva: Detail := 10
  const Serial: Detail := 11
  const MeterCtRatio: Detail := 12
  const Make: Detail := 13
  const StartTime: Detail := 14
  const CompletionTime: Detail := 15
  const SupervisedBy: Detail := 16
  const TechI: Detail := 17
  const TechII: Detail := 18
  const TechIII: Detail := 19
  const Helpers: Detail := 20
  const InspectedBy: Detail := 21
  const InspectedByDate: Detail := 22
  const ReflectedBy: Detail := 23
  const ReflectedByDate: Detail := 24
  const ReInspectedBy: Detail := 25
  const ReInspectedByDate: Detail := 26
  const Css: Detail := 27
  const CssDate: Detail := 28

  type Details = map<Detail, Value>

  /** A request: the record id (for updates), the inspection id (for saves) and the non-null details. */
  datatype MaintenanceRequest = MaintenanceRequest(id: Option<int>, inspectionId: Option<int>, details: Details)

  /** A stored record: its id, the id of its inspection, its details and its two timestamps. */
  datatype MaintenanceRow = MaintenanceRow(id: int, inspectionId: int, details: Details, createdAt: string, updatedAt: Option<string>)

  /**
   * The details after `mapRequestToEntity`: a field the request gives is
   * overwritten, every other field keeps its value.
   */
  function Applied(details: Details, given: Details): (r: Details)
    ensures forall d :: d in r <==> d in details || d in given
    ensures forall d :: d in given ==> r[d] == given[d]
    ensures forall d :: d !in given && d in details ==> r[d] == details[d]
  {
    details + given
  }

  /** Applying the same request twice is the same as applying it once. */
  lemma AppliedIdempotent(details: Details, given: Details)
    ensures Applied(Applied(details, given), given) == Applied(details, given)
  {
    var once := Applied(details, given);
    var twice := Applied(once, given);
    forall d ensures (d in twice <==> d in once) && (d in twice ==> twice[d] == once[d]) {
    }
  }

  /** The request applied to the fields declared before position `k`. */
  function Upto(given: Details, k: int): Details
  {
    map d | d in given && d < k :: given[d]
  }

  /** Applying the field at the next position. */
  lemma AppliedStep(before: Details, given: Details, sofar: Details, d: Detail)
    requires sofar == before + Upto(given, d)
    ensures (if d in given then sofar[d := given[d]] else sofar) == before + Upto(given, d + 1)
  {
    var next := before + Upto(given, d + 1);
    var stepped := if d in given then sofar[d := given[d]] else sofar;
    forall e ensures (e in stepped <==> e in next) && (e in stepped ==> stepped[e] == next[e]) {
    }
  }

  /** Nothing is applied before the first field, and everything after the last one. */
  lemma AppliedEnds(before: Details, given: Details)
    ensures before + Upto(given, 0) == before
    ensures before + Upto(given, FieldCount) == Applied(before, given)
  {
  }

  /** A maintenance-record entity as the persistence layer hands it out. */
  class MaintenanceRecordEntity {
    var id: Option<int>
    /** The id of the linked inspection; null until `setInspection`. */
    var inspectionId: Option<int>
    var details: Details
    var createdAt: string
    var updatedAt: Option<string>

    /** `new MaintenanceRecordEntity()`: nothing set except the creation time (`now`). */
    constructor (now: string)
      ensures id.None? && inspectionId.None? && details == map[] && createdAt == now && updatedAt.None?
    {
      id := None;
      inspectionId := None;
      details := map[];
      createdAt := now;
      updatedAt := None;
    }

    /** An entity loaded from a stored record. */
    constructor Loaded(row: MaintenanceRow)
      ensures Snapshot() == Some(row)
    {
      id := Some(row.id);
      inspectionId := Some(row.inspectionId);
      details := row.details;
      createdAt := row.createdAt;
      updatedAt := row.updatedAt;
    }

    /** The record this entity would be stored as, once it has an id and an inspection. */
    function Snapshot(): (r: Option<MaintenanceRow>)
      reads this
      ensures r.Some? <==> id.Some? && inspectionId.Some?
      ensures r.Some? ==> (r.value.id == id.value && r.value.inspectionId == inspectionId.value
        && r.value.details == details && r.value.createdAt == createdAt && r.value.updatedAt == updatedAt)
    {
      if id.Some? && inspectionId.Some? then Some(MaintenanceRow(id.value, inspectionId.value, details, createdAt, updatedAt))
      else None
    }

    /**
     * `mapRequestToEntity`: each of the 29 fields, in declaration order, is set
     * from the request when the request's value is non-null. The id, the
     * inspection and the timestamps are not touched. Before each field the
     * request has been applied to the fields declared before it.
     */
    method MapRequestToEntity(request: MaintenanceRequest)
      modifies this`details
      ensures details == Applied(old(details), request.details)
    {
      var given := request.details;
      ghost var before := details;
      AppliedEnds(before, given);
      SetIfGiven(given, PoleNo, before);
      SetIfGiven(given, LocationDetails, before);
      SetIfGiven(given, Type, before);
      SetIfGiven(given, Inspected, before);
      SetIfGiven(given, IrLeft, before);
      SetIfGiven(given, IrRight, before);
      SetIfGiven(given, IrFront, before);
      SetIfGiven(given, LastMonthKva, before);
      SetIfGiven(given, LastMonthDate, before);
      SetIfGiven(given, LastMonthTime, before);
      SetIfGiven(given, CurrentMonthKva, before);
      SetIfGiven(given, Serial, before);
      SetIfGiven(given, MeterCtRatio, before);
      SetIfGiven(given, Make, before);
      SetIfGiven(given, StartTime, before);
      SetIfGiven(given, CompletionTime, before);
      SetIfGiven(given, SupervisedBy, before);
      SetIfGiven(given, TechI, before);
      SetIfGiven(given, TechII, before);
      SetIfGiven(given, TechIII, before);
      SetIfGiven(given, Helpers, before);
      SetIfGiven(given, InspectedBy, before);
      SetIfGiven(given, InspectedByDate, before);
      SetIfGiven(given, ReflectedBy, before);
      SetIfGiven(given, ReflectedByDate, before);
      SetIfGiven(given, ReInspectedBy, before);
      SetIfGiven(given, ReInspectedByDate, before);
      SetIfGiven(given, Css, before);
      SetIfGiven(given, CssDate, before);
    }

    /**
     * One line of `mapRequestToEntity`: field `d` takes the request's value when
     * it is non-null, which extends the part of the request applied so far.
     */
    method SetIfGiven(given: Details, d: Detail, ghost before: Details)
      requires details == before + Upto(given, d)
      modifies this`details
      ensures details == before + Upto(given, d + 1)
    {
      AppliedStep(before, given, details, d);
      if d in given {
        details := details[d := given[d]];
      }
    }
  }

  // ------------------------------------------------------------ the table

  /** Ids strictly increase along the table, and all lie below the next sequence value. */
  predicate Ordered(rows: seq<MaintenanceRow>, nextId: int)
  {
    (forall i, j :: 0 <= i < j < |rows| ==> rows[i].id < rows[j].id)
    && forall i :: 0 <= i < |rows| ==> rows[i].id < nextId
  }

  /** `findById`: the record with that id. */
  function Find(rows: seq<MaintenanceRow>, id: int): (r: Option<MaintenanceRow>)
    ensures r.Some? ==> r.value in rows && r.value.id == id
    ensures r.None? <==> forall i :: 0 <= i < |rows| ==> rows[i].id != id
  {
    if rows == [] then None
    else if rows[0].id == id then Some(rows[0])
    else Find(rows[1..], id)
  }

  /** A derived finder (`findBy…`, or every record but one) keeps the ids in order. */
  lemma {:induction false} KeptOrdered(rows: seq<MaintenanceRow>, nextId: int, p: MaintenanceRow -> bool)
    requires Ordered(rows, nextId)
    ensures Ordered(Repository.Where(rows, p), nextId)
  {
    if rows != [] {
      var init := rows[..|rows| - 1];
      KeptOrdered(init, nextId, p);
      var k := Repository.Where(init, p);
      forall i | 0 <= i < |k| ensures k[i].id < rows[|rows| - 1].id {
        assert k[i] in init;
      }
    }
  }

  /** A record replaced by one with the same id leaves the ids in order. */
  lemma ReplaceOrdered(rows: seq<MaintenanceRow>, nextId: int, i: int, row: MaintenanceRow)
    requires Ordered(rows, nextId) && 0 <= i < |rows| && row.id == rows[i].id
    ensures Ordered(rows[i := row], nextId)
  {
  }

  /** Position of the record with the given id; -1 when there is none. */
  function IndexOf(rows: seq<MaintenanceRow>, id: int): (i: int)
    ensures -1 <= i < |rows|
    ensures i >= 0 ==> rows[i].id == id && Find(rows, id) == Some(rows[i])
    ensures i == -1 <==> Find(rows, id).None?
  {
    if rows == [] then -1
    else if rows[0].id == id then 0
    else
      var k := IndexOf(rows[1..], id);
      if k == -1 then -1 else k + 1
  }

  /** The records that do not carry the given id. */
  function OtherThan(id: int): MaintenanceRow -> bool
  {
    (row: MaintenanceRow) => row.id != id
  }

  /** The repository of maintenance records. */
  class MaintenanceRecordRepository {
    var rows: seq<MaintenanceRow>
    var nextId: int

    ghost predicate Valid()
      reads this
    {
      Ordered(rows, nextId)
    }

    constructor ()
      ensures Valid() && rows == [] && nextId == 1
    {
      rows := [];
      nextId := 1;
    }

    /**
     * `save` of an entity linked to an inspection: one without an id is
     * inserted under the next sequence value, which it then carries; one whose
     * id is stored replaces that record in place.
     */
    method Save(entity: MaintenanceRecordEntity)
      requires Valid() && entity.inspectionId.Some?
      requires entity.id.Some? ==> Find(rows, entity.id.value).Some?
      modifies this, entity`id
      ensures Valid()
      ensures entity.id.Some? && entity.Snapshot().Some?
      ensures old(entity.id).None? ==>
        entity.id == Some(old(nextId)) && nextId == old(nextId) + 1 && rows == old(rows) + [entity.Snapshot().value]
      ensures old(entity.id).Some? ==>
        entity.id == old(entity.id) && nextId == old(nextId)
        && rows == old(rows)[IndexOf(old(rows), old(entity.id).value) := entity.Snapshot().value]
    {
      if entity.id.None? {
        entity.id := Some(nextId);
        rows := rows + [entity.Snapshot().value];
        nextId := nextId + 1;
      } else {
        var i := IndexOf(rows, entity.id.value);
        ReplaceOrdered(rows, nextId, i, entity.Snapshot().value);
        rows := rows[i := entity.Snapshot().value];
      }
    }

    /** `delete` of a stored record: every record with its id goes. */
    method Delete(id: int)
      requires Valid()
      modifies this`rows
      ensures Valid()
      ensures rows == Repository.Where(old(rows), OtherThan(id))
    {
      KeptOrdered(rows, nextId, OtherThan(id));
      rows := Repository.Where(rows, OtherThan(id));
    }
  }

  /** `findByInspectionId`: the records of one inspection, in table order. */
  function OfInspection(inspectionId: int): MaintenanceRow -> bool
  {
    (row: MaintenanceRow) => row.inspectionId == inspectionId
  }

  // ------------------------------------------------------------ responses

  /** The response: the record's fields, its inspection's id in place of the inspection. */
  datatype MaintenanceRecordResponse = MaintenanceRecordResponse(
    id: int, inspectionId: int, details: Details, createdAt: string, updatedAt: Option<string>)

  /** `mapEntityToResponse`: every field copied, the linked inspection given by its id. */
  function ToResponse(row: MaintenanceRow): (r: MaintenanceRecordResponse)
    ensures r.id == row.id && r.inspectionId == row.inspectionId && r.details == row.details
    ensures r.createdAt == row.createdAt && r.updatedAt == row.updatedAt
  {
    MaintenanceRecordResponse(row.id, row.inspectionId, row.details, row.createdAt, row.updatedAt)
  }

  /** Distinct records give distinct responses: the mapping loses nothing. */
  lemma ToResponseInjective(a: MaintenanceRow, b: MaintenanceRow)
    requires ToResponse(a) == ToResponse(b)
    ensures a == b
  {
  }

  /** The responses of a list of records, one per record, in order. */
  function ToResponses(rows: seq<MaintenanceRow>): (r: seq<MaintenanceRecordResponse>)
    ensures |r| == |rows|
    ensures forall i :: 0 <= i < |rows| ==> r[i] == ToResponse(rows[i])
  {
    if rows == [] then [] else [ToResponse(rows[0])] + ToResponses(rows[1..])
  }

  /** The record a successful save stores: the request's details under a new id. */
  function NewRecord(request: MaintenanceRequest, id: int, now: string): (r: MaintenanceRow)
    requires request.inspectionId.Some?
    ensures r.id == id && r.inspectionId == request.inspectionId.value
    ensures r.details == request.details && r.createdAt == now && r.updatedAt.None?
  {
    MaintenanceRow(id, request.inspectionId.value, Applied(map[], request.details), now, None)
  }

  /** The record a successful update stores in place of `row`. */
  function UpdatedRecord(row: MaintenanceRow, request: MaintenanceRequest, now: string): (r: MaintenanceRow)
    ensures r.id == row.id && r.inspectionId == row.inspectionId && r.createdAt == row.createdAt
    ensures r.updatedAt == Some(now)
    ensures forall d :: d in request.details ==> d in r.details && r.details[d] == request.details[d]
    ensures forall d :: d !in request.details ==> ((d in r.details <==> d in row.details)
      && (d in row.details ==> r.details[d] == row.details[d]))
  {
    row.(details := Applied(row.details, request.details), updatedAt := Some(now))
  }

  /** The response for a freshly saved record shows exactly what was sent, and no update time. */
  lemma SavedRecordShown(request: MaintenanceRequest, id: int, now: string)
    requires request.inspectionId.Some?
    ensures ToResponse(NewRecord(request, id, now))
         == MaintenanceRecordResponse(id, request.inspectionId.value, request.details, now, None)
  {
  }

  /** Two updates in a row with the same request leave the details as one does, with the later time. */
  lemma UpdateTwice(row: MaintenanceRow, request: MaintenanceRequest, first: string, second: string)
    ensures UpdatedRecord(UpdatedRecord(row, request, first), request, second) == UpdatedRecord(row, request, second)
  {
    AppliedIdempotent(row.details, request.details);
  }

  const SaveFailed := "Failed to save maintenance record"
  const UpdateFailed := "Failed to update maintenance record"
  const FetchFailed := "Failed to fetch maintenance record"
  const FetchAllFailed := "Failed to fetch maintenance records"
  const DeleteFailed := "Failed to delete maintenance record"

  class MaintenanceRecordServiceImpl {
    const repository: MaintenanceRecordRepository
    /** The inspection table, read to check that a record's inspection exists. */
    const inspections: Repository.Table

    ghost predicate Valid()
      reads this, repository
    {
      repository.Valid()
    }

    constructor (repository: MaintenanceRecordRepository, inspections: Repository.Table)
      requires repository.Valid()
      ensures this.repository == repository && this.inspections == inspections && Valid()
    {
      this.repository := repository;
      this.inspections := inspections;
    }

    /**
     * `saveMaintenanceRecord`: the request's inspection must exist; the new
     * record is linked to it, takes the request's details, and is inserted.
     * A missing inspection (a null id included) is rethrown as
     * INSPECTION_NOT_CREATED.
     */
    method SaveMaintenanceRecord(request: MaintenanceRequest, now: string) returns (r: Result<ApiResponse<Void>, Failure>)
      requires Valid()
      modifies repository
      ensures Valid()
      ensures r.Ok? <==> request.inspectionId.Some? && Repository.Lookup(inspections.rows, request.inspectionId.value).Some?
      ensures r.Err? ==> (r.error == RaiseWith(InspectionNotCreated, SaveFailed)
        && repository.rows == old(repository.rows) && repository.nextId == old(repository.nextId))
      ensures r.Ok? ==> (r.value == Respond(Success, None)
        && repository.nextId == old(repository.nextId) + 1
        && repository.rows == old(repository.rows) + [NewRecord(request, old(repository.nextId), now)])
    {
      if request.inspectionId.None? {
        return Err(RaiseWith(InspectionNotCreated, SaveFailed));
      }
      var inspection := Repository.Lookup(inspections.rows, request.inspectionId.value);
      if inspection.None? {
        return Err(RaiseWith(InspectionNotCreated, SaveFailed));
      }
      var entity := new MaintenanceRecordEntity(now);
      entity.inspectionId := request.inspectionId;
      entity.MapRequestToEntity(request);
      repository.Save(entity);
      return Ok(Respond(Success, None));
    }

    /**
     * `updateMaintenanceRecord`: the stored record takes the request's non-null
     * details and the update time; its id, inspection and creation time stay.
     * A null or unknown id is rethrown as INSPECTION_NOT_UPDATED.
     */
    method UpdateMaintenanceRecord(request: MaintenanceRequest, now: string) returns (r: Result<ApiResponse<Void>, Failure>)
      requires Valid()
      modifies repository
      ensures Valid()
      ensures r.Ok? <==> request.id.Some? && Find(old(repository.rows), request.id.value).Some?
      ensures r.Err? ==> (r.error == RaiseWith(InspectionNotUpdated, UpdateFailed)
        && repository.rows == old(repository.rows))
      ensures r.Ok? ==> (r.value == Respond(Success, None) && repository.nextId == old(repository.nextId)
        && var i := IndexOf(old(repository.rows), request.id.value);
           repository.rows == old(repository.rows)[i := UpdatedRecord(old(repository.rows)[i], request, now)])
    {
      if request.id.None? {
        return Err(RaiseWith(InspectionNotUpdated, UpdateFailed));
      }
      var found := Find(repository.rows, request.id.value);
      if found.None? {
        return Err(RaiseWith(InspectionNotUpdated, UpdateFailed));
      }
      var entity := new MaintenanceRecordEntity.Loaded(found.value);
      entity.MapRequestToEntity(request);
      entity.updatedAt := Some(now);
      assert entity.Snapshot().value == UpdatedRecord(found.value, request, now);
      repository.Save(entity);
      return Ok(Respond(Success, None));
    }

    /** `getMaintenanceRecordById`: an unknown id is rethrown as INSPECTION_NOT_CONNECTED. */
    method GetMaintenanceRecordById(id: int) returns (r: Result<ApiResponse<MaintenanceRecordResponse>, Failure>)
      requires Valid()
      ensures r.Ok? <==> Find(repository.rows, id).Some?
      ensures r.Err? ==> r.error == RaiseWith(InspectionNotConnected, FetchFailed)
      ensures r.Ok? ==> r.value == Respond(Success, Some(ToResponse(Find(repository.rows, id).value)))
    {
      var found := Find(repository.rows, id);
      if found.None? {
        return Err(RaiseWith(InspectionNotConnected, FetchFailed));
      }
      return Ok(Respond(Success, Some(ToResponse(found.value))));
    }

    /** `getMaintenanceRecordsByInspectionId`: one response per record of the inspection, in table order. */
    method GetMaintenanceRecordsByInspectionId(inspectionId: int) returns (r: Result<ApiResponse<seq<MaintenanceRecordResponse>>, Failure>)
      requires Valid()
      ensures r.Ok?
      ensures r.value == Respond(Success, Some(ToResponses(Repository.Where(repository.rows, OfInspection(inspectionId)))))
    {
      var records := Repository.Where(repository.rows, OfInspection(inspectionId));
      return Ok(Respond(Success, Some(ToResponses(records))));
    }

    /**
     * `deleteMaintenanceRecord`: exactly the record with that id goes; an
     * unknown id is rethrown as INSPECTION_NOT_DELETED and removes nothing.
     */
    method DeleteMaintenanceRecord(id: int) returns (r: Result<ApiResponse<Void>, Failure>)
      requires Valid()
      modifies repository`rows
      ensures Valid()
      ensures r.Ok? <==> Find(old(repository.rows), id).Some?
      ensures r.Err? ==> r.error == RaiseWith(InspectionNotDeleted, DeleteFailed) && repository.rows == old(repository.rows)
      ensures r.Ok? ==> (r.value == Respond(Success, None)
        && forall x :: x in repository.rows <==> x in old(repository.rows) && x.id != id)
    {
      var found := Find(repository.rows, id);
      if found.None? {
        return Err(RaiseWith(InspectionNotDeleted, DeleteFailed));
      }
      repository.Delete(id);
      return Ok(Respond(Success, None));
    }
  }

  /** The listing for an inspection holds exactly the responses of that inspection's records. */
  lemma ListingOfInspection(rows: seq<MaintenanceRow>, inspectionId: int, resp: MaintenanceRecordResponse)
    ensures resp in ToResponses(Repository.Where(rows, OfInspection(inspectionId))) <==>
      exists row :: row in rows && row.inspectionId == inspectionId && ToResponse(row) == resp
  {
    var kept := Repository.Where(rows, OfInspection(inspectionId));
    var shown := ToResponses(kept);
    if resp in shown {
      var i :| 0 <= i < |shown| && shown[i] == resp;
      assert kept[i] in kept;
    }
    if exists row :: row in rows && row.inspectionId == inspectionId && ToResponse(row) == resp {
      var row :| row in rows && row.inspectionId == inspectionId && ToResponse(row) == resp;
      assert row in kept;
      var i :| 0 <= i < |kept| && kept[i] == row;
      assert shown[i] == resp;
    }
  }
}
