/**
 * The transformer service: validated creation, update by id with a null-skipping
 * merge, lookup, deletion, and the filtered, paged listing. Every failure is a
 * service exception; the catch-all handlers replace the code of any unexpected
 * failure by the operation's own code, while a not-found error keeps its code.
 */
module TransformerService {
  import opened Wrappers
  import opened Text
  import opened Beans
  import opened Responses
  import opened Repository
  import opened FilterSpec
  import Paging

  /** The messages of the bad-request failures for an unknown id, each followed by the id. */
  const NotFoundToUpdate: string := "Transformer Data is not found with ID to Update: "
  const NotFoundToView: string := "Transformer not found with ID to View: "
  const NotFoundToDelete: string := "Transformer is not found with ID to Delete: "

  /** The fields shared by the transformer request and entity, in declaration order. */
  const TransformerFields: seq<Field> := [
    Field("id", JLong), Field("region", JString), Field("transformerNo", JString),
    Field("poleNo", JString), Field("type", JString), Field("locationDetails", JString)]

  const TransformerRequestClass: ClassDecl := ClassDecl(TransformerFields, true, map[])
  const TransformerEntityClass: ClassDecl := ClassDecl(TransformerFields, true, map[])
  /** The response omits the location details. */
  const TransformerResponseClass: ClassDecl := ClassDecl(TransformerFields[..5], true, map[])

  const MandatoryFields: seq<string> := ["region", "transformerNo", "poleNo", "type", "locationDetails"]

  lemma EntityClassWellFormed()
    ensures WellFormed(TransformerEntityClass)
  {
  }

  lemma ResponseClassWellFormed()
    ensures WellFormed(TransformerResponseClass)
  {
  }

  lemma IdField()
    ensures FieldIn(TransformerFields, "id") == Some(Field("id", JLong))
  {
    assert TransformerFields[0] == Field("id", JLong);
  }

  /** `validateTransformerData`: every mandatory field must be non-null. */
  function ValidateTransformerData(request: Record): (r: Option<Failure>)
    ensures r.None? <==> forall f :: f in MandatoryFields ==> f in request
    ensures r.Some? ==> r.value == RaiseWith(BadRequest, "Mandatory Fields are Missing")
  {
    if "region" in request && "transformerNo" in request && "poleNo" in request
       && "type" in request && "locationDetails" in request
    then None
    else Some(RaiseWith(BadRequest, "Mandatory Fields are Missing"))
  }

  /** The request's id, when it carries one. */
  function RequestId(request: Record): Option<int>
  {
    if "id" in request && request["id"].VLong? then Some(request["id"].n) else None
  }

  /**
   * The tail of `updateTransformerData`: load the stored record `row` into an
   * entity, copy the request onto it and save it back in the record's place.
   */
  method MergeAndSave(table: Table, entity: ClassDecl, request: Instance, row: Record)
    requires table.Valid() && forall i :: 0 <= i < |table.rows| ==> Conforms(entity.fields, table.rows[i])
    requires WellFormed(entity) && FieldIn(entity.fields, "id") == Some(Field("id", JLong))
    requires request.Valid() && request.decl.fields == entity.fields
    requires Keyed(row) && Lookup(table.rows, IdOf(row)) == Some(row)
    requires "id" in request.vals && request.vals["id"] == row["id"]
    modifies table
    ensures table.Valid() && forall i :: 0 <= i < |table.rows| ==> Conforms(entity.fields, table.rows[i])
    ensures table.rows == old(table.rows)[IndexOfId(old(table.rows), IdOf(row)) :=
      Merged(entity.fields, request.vals, entity.fields, row)]
  {
    assert Conforms(entity.fields, row) by {
      var k :| 0 <= k < |table.rows| && table.rows[k] == row;
    }
    var merged := MergeStored(entity, request, row);
    MergeFieldwise(entity.fields, request.vals, entity.fields, row, "id");
    assert Keyed(merged) && IdOf(merged) == IdOf(row);
    ghost var before := table.rows;
    var saved := table.Save(merged);
    SaveConforms(entity.fields, before, table.rows, merged, saved);
  }

  /** Load the stored record `row` into an entity and copy the request onto it. */
  method MergeStored(entity: ClassDecl, request: Instance, row: Record) returns (merged: Record)
    requires WellFormed(entity) && Conforms(entity.fields, row)
    requires request.Valid() && request.decl.fields == entity.fields
    ensures merged == Merged(entity.fields, request.vals, entity.fields, row)
    ensures Conforms(entity.fields, merged)
  {
    var existing := new Instance.Loaded(entity, row);
    Update(request, existing);
    merged := existing.vals;
  }

  class TransformerDataService {
    const repository: Table

    ghost predicate Valid()
      reads this, repository
    {
      repository.Valid() && forall i :: 0 <= i < |repository.rows| ==> Conforms(TransformerFields, repository.rows[i])
    }

    constructor (repository: Table)
      requires repository.Valid() && forall i :: 0 <= i < |repository.rows| ==> Conforms(TransformerFields, repository.rows[i])
      ensures this.repository == repository && Valid()
    {
      this.repository := repository;
    }

    /**
     * `saveTransformerData`: validate, map the request onto a new entity and
     * save it. The entity is appended under the next id, unless the request
     * names the id of a stored transformer, which it then replaces in place.
     * A validation failure surfaces as TRANSFORMER_NOT_CREATED, not as the
     * bad-request error it started as.
     */
    method SaveTransformerData(request: Instance) returns (r: Result<ApiResponse<Void>, Failure>)
      requires Valid() && request.Valid() && request.decl == TransformerRequestClass
      modifies repository
      ensures Valid()
      ensures r.Ok? <==> ValidateTransformerData(request.vals).None?
      ensures r.Err? ==> (r.error == Raise(TransformerNotCreated)
        && repository.rows == old(repository.rows) && repository.nextId == old(repository.nextId))
      ensures r.Ok? ==> (r.value == Respond(Success, None)
        && exists id :: Lookup(repository.rows, id) == Some(MapOf(TransformerFields, request.vals, TransformerEntityClass)["id" := VLong(id)]))
      ensures r.Ok? ==> var e := MapOf(TransformerFields, request.vals, TransformerEntityClass);
        if Keyed(e) && Lookup(old(repository.rows), IdOf(e)).Some? then
          repository.rows == old(repository.rows)[IndexOfId(old(repository.rows), IdOf(e)) := e]
          && repository.nextId == old(repository.nextId)
        else
          repository.rows == old(repository.rows) + [e["id" := VLong(old(repository.nextId))]]
          && repository.nextId == old(repository.nextId) + 1
    {
      var invalid := ValidateTransformerData(request.vals);
      if invalid.Some? {
        return Err(Raise(TransformerNotCreated));
      }
      EntityClassWellFormed();
      var mapped := Map(request, TransformerEntityClass);
      var entity := mapped.value;
      MergeConforms(TransformerFields, request.vals, TransformerFields, map[]);
      ghost var before := repository.rows;
      var saved := repository.Save(entity.vals);
      IdField();
      SaveConforms(TransformerFields, before, repository.rows, entity.vals, saved);
      assert saved == entity.vals["id" := VLong(IdOf(saved))];
      assert Lookup(repository.rows, IdOf(saved)) == Some(saved);
      return Ok(Respond(Success, None));
    }

    /**
     * `updateTransformerData`: find the stored record by the request id, merge
     * the request's non-null fields onto it and save it back. An unknown id
     * keeps its bad-request code because that exception is re-thrown as it is; a
     * null id makes the lookup itself fail, which becomes TRANSFORMER_NOT_UPDATED.
     */
    method UpdateTransformerData(request: Instance) returns (r: Result<ApiResponse<Void>, Failure>)
      requires Valid() && request.Valid() && request.decl == TransformerRequestClass
      modifies repository
      ensures Valid()
      ensures RequestId(request.vals).None? ==> r == Err(Raise(TransformerNotUpdated))
      ensures RequestId(request.vals).Some? && Lookup(old(repository.rows), RequestId(request.vals).value).None? ==>
        r == Err(RaiseWith(BadRequest, NotFoundToUpdate + IntToString(RequestId(request.vals).value)))
      ensures r.Err? ==> repository.rows == old(repository.rows)
      ensures r.Ok? <==> RequestId(request.vals).Some? && Lookup(old(repository.rows), RequestId(request.vals).value).Some?
      ensures r.Ok? ==> (r.value == Respond(Success, None)
        && var id := RequestId(request.vals).value;
           repository.rows == old(repository.rows)[IndexOfId(old(repository.rows), id) :=
             Merged(TransformerFields, request.vals, TransformerFields, Lookup(old(repository.rows), id).value)])
    {
      var id := RequestId(request.vals);
      if id.None? {
        return Err(Raise(TransformerNotUpdated));
      }
      var found := Lookup(repository.rows, id.value);
      if found.None? {
        return Err(RaiseWith(BadRequest, NotFoundToUpdate + IntToString(id.value)));
      }
      EntityClassWellFormed();
      IdField();
      MergeAndSave(repository, TransformerEntityClass, request, found.value);
      return Ok(Respond(Success, None));
    }

    /**
     * `getTransformerById`: the stored record mapped to the response class; an
     * unknown id raises bad-request, a null id TRANSFORMER_NOT_CONNECTED.
     */
    method GetTransformerById(id: Option<int>) returns (r: Result<ApiResponse<Record>, Failure>)
      requires Valid()
      ensures id.None? ==> r == Err(Raise(TransformerNotConnected))
      ensures id.Some? && Lookup(repository.rows, id.value).None? ==>
        r == Err(RaiseWith(BadRequest, NotFoundToView + IntToString(id.value)))
      ensures r.Ok? <==> id.Some? && Lookup(repository.rows, id.value).Some?
      ensures r.Ok? ==> r.value == Respond(Success, Some(MapOf(TransformerFields, Lookup(repository.rows, id.value).value, TransformerResponseClass)))
      ensures r.Ok? ==> "locationDetails" !in r.value.data.value
    {
      if id.None? {
        return Err(Raise(TransformerNotConnected));
      }
      var found := Lookup(repository.rows, id.value);
      if found.None? {
        return Err(RaiseWith(BadRequest, NotFoundToView + IntToString(id.value)));
      }
      EntityClassWellFormed();
      ResponseClassWellFormed();
      var entity := new Instance.Loaded(TransformerEntityClass, found.value);
      var mapped := Map(entity, TransformerResponseClass);
      MapFieldwise(TransformerFields, found.value, TransformerResponseClass, "locationDetails");
      return Ok(Respond(Success, Some(mapped.value.vals)));
    }

    /**
     * `deleteTransformerById`: an unknown id raises bad-request and deletes
     * nothing; otherwise exactly the record with that id is removed.
     */
    method DeleteTransformerById(id: Option<int>) returns (r: Result<ApiResponse<Void>, Failure>)
      requires Valid()
      modifies repository`rows
      ensures Valid()
      ensures id.None? ==> r == Err(Raise(TransformerNotDeleted))
      ensures id.Some? && Lookup(old(repository.rows), id.value).None? ==>
        r == Err(RaiseWith(BadRequest, NotFoundToDelete + IntToString(id.value)))
      ensures r.Err? ==> repository.rows == old(repository.rows)
      ensures r.Ok? <==> id.Some? && Lookup(old(repository.rows), id.value).Some?
      ensures r.Ok? ==> (r.value == Respond(Success, None)
        && forall x :: x in repository.rows <==> x in old(repository.rows) && IdOf(x) != id.value)
    {
      if id.None? {
        return Err(Raise(TransformerNotDeleted));
      }
      var found := Lookup(repository.rows, id.value);
      if found.None? {
        return Err(RaiseWith(BadRequest, NotFoundToDelete + IntToString(id.value)));
      }
      ghost var before := repository.rows;
      repository.Delete(id.value);
      forall i | 0 <= i < |repository.rows| ensures Conforms(TransformerFields, repository.rows[i]) {
        assert repository.rows[i] in before;
      }
      return Ok(Respond(Success, None));
    }

    /**
     * `filterTransformerData`: the listing with the unchecked specification
     * builder, over the entity's fields, mapped to the response class.
     */
    function FilterTransformerData(req: Paging.FilterRequest): (r: ApiResponse<seq<Record>>)
      reads this, repository
      ensures r.code == "2000" || r == Paging.ListingFailed()
    {
      Paging.Listing(repository.rows, req, Names(TransformerFields), false, TransformerFields, TransformerResponseClass)
    }
  }

  /**
   * A filter on a column the transformer entity does not have is not skipped:
   * the whole listing fails with the internal-server-error reply.
   */
  lemma UnknownColumnFailsListing(rows: seq<Record>, v: string)
    ensures var c := Criterion(Some("colour"), Some([Some(v)]), Some("Include"));
      Paging.Listing(rows, Paging.FilterRequest(Some([c]), None, None), Names(TransformerFields), false,
                     TransformerFields, TransformerResponseClass) == Paging.ListingFailed()
  {
    var c := Criterion(Some("colour"), Some([Some(v)]), Some("Include"));
    ColourUndeclared();
    UnknownColumnFailsUnchecked(c, Names(TransformerFields));
    assert Specification(Some([c]), Names(TransformerFields), false).Err?;
  }

  /** The transformer entity has no column named "colour". */
  lemma ColourUndeclared()
    ensures "colour" !in Names(TransformerFields)
  {
    var names := Names(TransformerFields);
    forall i | 0 <= i < |names| ensures names[i] != "colour" {
      assert names[i] == TransformerFields[i].name;
    }
  }
}
