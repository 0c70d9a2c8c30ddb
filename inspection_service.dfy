/**
 * The inspection service: validated creation through the custom mapper,
 * update by id, lookup, deletion and the filtered, paged listing. Every
 * failure of save, update, lookup and delete, whatever its cause, is replaced
 * by the operation's own response code.
 */
module InspectionService {
  import opened Wrappers
  import opened Beans
  import opened Responses
  import opened Repository
  import opened InspectionEntity
  import opened InspectionMapper
  import Paging

  /** The response carries every entity field, declared in another order. */
  const InspectionResponseFields: seq<Field> := [
    Field("id", JLong), Field("inspectionNo", JString), Field("transformerNo", JString),
    Field("inspectedDate", JString), Field("maintenanceDate", JString), Field("status", JString),
    Field("branch", JString), Field("inspectorName", JString), Field("engineerStatus", JString),
    Field("voltage", JString), Field("current", JString), Field("recommendedAction", JString),
    Field("additionalRemarks", JString)]

  const InspectionResponseClass: ClassDecl := ClassDecl(InspectionResponseFields, true, map[])

  lemma ResponseClassWellFormed()
    ensures WellFormed(InspectionResponseClass)
  {
    forall i, j | 0 <= i < j < |InspectionResponseFields|
      ensures InspectionResponseFields[i].name != InspectionResponseFields[j].name
    {
      var a, b := InspectionResponseFields[i].name, InspectionResponseFields[j].name;
      assert |a| != |b| || a[0] != b[0] || a[|a| - 1] != b[|b| - 1] || (|a| > 7 && a[7] != b[7]);
    }
  }

  /** Mapping a stored inspection to the response loses nothing and adds nothing. */
  lemma ResponseIsEntity(rec: Record)
    requires Conforms(InspectionFields, rec)
    ensures MapOf(InspectionFields, rec, InspectionResponseClass) == rec
  {
    ResponseClassWellFormed();
    ConformsAcross(InspectionFields, InspectionResponseFields, rec);
    MapSameFields(InspectionFields, rec, InspectionResponseClass);
  }

  /** `validateInspectionData`: branch, transformer number, date and time are mandatory. */
  function ValidateInspectionData(request: Record): (r: Option<Failure>)
    ensures r.None? <==> (Str(request, "branch").Some? && Str(request, "transformerNo").Some?
                          && Str(request, "inspectionDate").Some? && Str(request, "time").Some?)
    ensures r.Some? ==> r.value == RaiseWith(BadRequest, "Mandatory Fields are Missing for Inspection")
  {
    if Str(request, "branch").None? || Str(request, "transformerNo").None?
       || Str(request, "inspectionDate").None? || Str(request, "time").None?
    then Some(RaiseWith(BadRequest, "Mandatory Fields are Missing for Inspection"))
    else None
  }

  class InspectionDataService {
    const repository: Table

    ghost predicate Valid()
      reads this, repository
    {
      repository.Valid() && forall i :: 0 <= i < |repository.rows| ==> Conforms(InspectionFields, repository.rows[i])
    }

    constructor (repository: Table)
      requires repository.Valid() && forall i :: 0 <= i < |repository.rows| ==> Conforms(InspectionFields, repository.rows[i])
      ensures this.repository == repository && Valid()
    {
      this.repository := repository;
    }

    /**
     * `saveInspectionData`: validate, build the entity and insert it under a
     * new id. Any failure, the bad-request of the validation included, surfaces
     * as INSPECTION_NOT_CREATED and stores nothing.
     */
    method SaveInspectionData(request: Record, format: DateFormat, now: string) returns (r: Result<ApiResponse<Void>, Failure>)
      requires Valid()
      modifies repository
      ensures Valid()
      ensures r.Ok? <==> ValidateInspectionData(request).None? && ToEntity(request, format, now).Ok?
      ensures r.Err? ==> (r.error == Raise(InspectionNotCreated)
        && repository.rows == old(repository.rows) && repository.nextId == old(repository.nextId))
      ensures r.Ok? ==> (r.value == Respond(Success, None)
        && repository.nextId == old(repository.nextId) + 1
        && repository.rows == old(repository.rows) + [ToEntity(request, format, now).value["id" := VLong(old(repository.nextId))]])
    {
      var invalid := ValidateInspectionData(request);
      if invalid.Some? {
        return Err(Raise(InspectionNotCreated));
      }
      var entity := ToEntity(request, format, now);
      if entity.Err? {
        return Err(Raise(InspectionNotCreated));
      }
      ToEntityConforms(request, format, now);
      ghost var before := repository.rows;
      var saved := repository.Save(entity.value);
      IdField();
      SaveConforms(InspectionFields, before, repository.rows, entity.value, saved);
      return Ok(Respond(Success, None));
    }

    /**
     * `updateInspectionData`: apply the request to the stored inspection and
     * save it back. A null id, an unknown id and an unparseable date all end as
     * INSPECTION_NOT_UPDATED, because the catch-all rewraps the not-found error
     * too; the store is then unchanged.
     */
    method UpdateInspectionData(request: Record, format: DateFormat) returns (r: Result<ApiResponse<Void>, Failure>)
      requires Valid()
      modifies repository
      ensures Valid()
      ensures r.Err? ==> r.error == Raise(InspectionNotUpdated) && repository.rows == old(repository.rows)
      ensures r.Ok? <==> (IdValue(request).Some? && Lookup(old(repository.rows), IdValue(request).value).Some?
        && UpdatedInspection(Lookup(old(repository.rows), IdValue(request).value).value, request, format).1.None?)
      ensures r.Ok? ==> (r.value == Respond(Success, None)
        && var id := IdValue(request).value;
           repository.rows == old(repository.rows)[IndexOfId(old(repository.rows), id) :=
             UpdatedInspection(Lookup(old(repository.rows), id).value, request, format).0])
    {
      var id := IdValue(request);
      if id.None? {
        return Err(Raise(InspectionNotUpdated));
      }
      var found := Lookup(repository.rows, id.value);
      if found.None? {
        return Err(Raise(InspectionNotUpdated));
      }
      EntityClassWellFormed();
      assert found.value in repository.rows;
      var existing := new Instance.Loaded(InspectionEntityClass, found.value);
      var err := UpdateEntity(existing, request, format);
      if err.Some? {
        return Err(Raise(InspectionNotUpdated));
      }
      UpdateFieldwise(found.value, request, format, "id");
      ghost var before := repository.rows;
      var saved := repository.Save(existing.vals);
      AllConform(InspectionFields, before, repository.rows, saved);
      return Ok(Respond(Success, None));
    }

    /**
     * `getInspectionById`: the stored inspection with all its fields; a null
     * or unknown id ends as INSPECTION_NOT_CONNECTED.
     */
    method GetInspectionById(id: Option<int>) returns (r: Result<ApiResponse<Record>, Failure>)
      requires Valid()
      ensures r.Err? ==> r.error == Raise(InspectionNotConnected)
      ensures r.Ok? <==> id.Some? && Lookup(repository.rows, id.value).Some?
      ensures r.Ok? ==> r.value == Respond(Success, Some(Lookup(repository.rows, id.value).value))
    {
      if id.None? {
        return Err(Raise(InspectionNotConnected));
      }
      var found := Lookup(repository.rows, id.value);
      if found.None? {
        return Err(Raise(InspectionNotConnected));
      }
      EntityClassWellFormed();
      assert found.value in repository.rows;
      var entity := new Instance.Loaded(InspectionEntityClass, found.value);
      ResponseClassWellFormed();
      var mapped := Map(entity, InspectionResponseClass);
      ResponseIsEntity(found.value);
      return Ok(Respond(Success, Some(mapped.value.vals)));
    }

    /**
     * `deleteInspectionById`: removes exactly the inspection with that id; a
     * null or unknown id ends as INSPECTION_NOT_DELETED and removes nothing.
     */
    method DeleteInspectionById(id: Option<int>) returns (r: Result<ApiResponse<Void>, Failure>)
      requires Valid()
      modifies repository`rows
      ensures Valid()
      ensures r.Err? ==> r.error == Raise(InspectionNotDeleted) && repository.rows == old(repository.rows)
      ensures r.Ok? <==> id.Some? && Lookup(old(repository.rows), id.value).Some?
      ensures r.Ok? ==> (r.value == Respond(Success, None)
        && forall x :: x in repository.rows <==> x in old(repository.rows) && IdOf(x) != id.value)
    {
      if id.None? {
        return Err(Raise(InspectionNotDeleted));
      }
      var found := Lookup(repository.rows, id.value);
      if found.None? {
        return Err(Raise(InspectionNotDeleted));
      }
      ghost var before := repository.rows;
      repository.Delete(id.value);
      forall i | 0 <= i < |repository.rows| ensures Conforms(InspectionFields, repository.rows[i]) {
        assert repository.rows[i] in before;
      }
      return Ok(Respond(Success, None));
    }

    /**
     * `filterInspectionData`: the listing with the guarded specification
     * builder over the entity's declared fields.
     */
    function FilterInspectionData(req: Paging.FilterRequest): (r: ApiResponse<seq<Record>>)
      reads this, repository
      ensures r.code == "2000" || r == Paging.ListingFailed()
    {
      Paging.Listing(repository.rows, req, Names(InspectionFields), true, InspectionFields, InspectionResponseClass)
    }
  }
}
