/**
 * The login service: storing a username and password, and checking a pair
 * against the stored ones by exact match.
 *
 * A stored login is a record with the fields "id", "username" and
 * "password". The response class is not part of this model: mapping a
 * matched login to it comes in as a function, which may fail.
 */
module LoginService {
  import opened Wrappers
  import opened Beans
  import opened Responses
  import opened Repository

  /** A login request; either field may be null. */
  datatype LoginRequest = LoginRequest(username: Option<string>, password: Option<string>)

  const MissingText := "Mandatory Fields are Missing"
  const InvalidText := "Invalid username or password"

  /** `validateLoginData`: both the username and the password must be non-null. */
  function ValidateLoginData(request: LoginRequest): (r: Option<Failure>)
    ensures r.None? <==> request.username.Some? && request.password.Some?
    ensures r.Some? ==> r.value == RaiseWith(BadRequest, MissingText)
  {
    if request.username.None? || request.password.None? then Some(RaiseWith(BadRequest, MissingText)) else None
  }

  /** The entity a valid request is mapped onto: its two fields, no id yet. */
  function Credential(request: LoginRequest): (r: Record)
    requires request.username.Some? && request.password.Some?
    ensures Str(r, "username") == request.username && Str(r, "password") == request.password
    ensures !Keyed(r)
  {
    map["username" := VString(request.username.value), "password" := VString(request.password.value)]
  }

  /** A stored login whose username and password both equal the given ones. */
  function SameCredentials(username: string, password: string): Record -> bool
  {
    (rec: Record) => Str(rec, "username") == Some(username) && Str(rec, "password") == Some(password)
  }

  /** Maps a matched login onto the response; None when the mapping throws. */
  type ResponseMapper<R> = Record -> Option<R>

  /**
   * `verifyCredentials` against the stored logins `rows`. A null field is
   * rethrown as the validation failure. The derived finder returns an
   * optional single login: no match is reported as an invalid pair, and so
   * are several matches (the finder throws for those) and a failing mapping.
   */
  function Verified<R>(rows: seq<Record>, request: LoginRequest, toResponse: ResponseMapper<R>): (r: Result<ApiResponse<R>, Failure>)
    ensures ValidateLoginData(request).Some? ==> r == Err(RaiseWith(BadRequest, MissingText))
    ensures r.Ok? <==> (ValidateLoginData(request).None?
      && |Where(rows, SameCredentials(request.username.value, request.password.value))| == 1
      && toResponse(Where(rows, SameCredentials(request.username.value, request.password.value))[0]).Some?)
    ensures r.Ok? ==>
      var found := Where(rows, SameCredentials(request.username.value, request.password.value))[0];
      found in rows && Str(found, "username") == request.username && Str(found, "password") == request.password
      && r.value == Respond(Success, toResponse(found))
    ensures r.Err? && ValidateLoginData(request).None? ==> r.error == RaiseWith(BadRequest, InvalidText)
  {
    if ValidateLoginData(request).Some? then Err(ValidateLoginData(request).value)
    else
      var matches := Where(rows, SameCredentials(request.username.value, request.password.value));
      if |matches| != 1 then Err(RaiseWith(BadRequest, InvalidText))
      else
        assert matches[0] in matches;
        var response := toResponse(matches[0]);
        if response.None? then Err(RaiseWith(BadRequest, InvalidText))
        else Ok(Respond(Success, response))
  }

  /** Only a stored pair is accepted: with no stored login matching, verification fails. */
  lemma UnknownPairRejected<R>(rows: seq<Record>, request: LoginRequest, toResponse: ResponseMapper<R>)
    requires request.username.Some? && request.password.Some?
    requires forall x :: x in rows ==> !(Str(x, "username") == request.username && Str(x, "password") == request.password)
    ensures Verified(rows, request, toResponse) == Err(RaiseWith(BadRequest, InvalidText))
  {
  }

  /**
   * A pair saved into a table where it was not yet stored can be verified
   * afterwards, as long as the response mapping succeeds.
   */
  lemma {:induction false} SavedPairVerifies<R>(rows: seq<Record>, request: LoginRequest, id: int, toResponse: ResponseMapper<R>)
    requires request.username.Some? && request.password.Some?
    requires forall x :: x in rows ==> !(Str(x, "username") == request.username && Str(x, "password") == request.password)
    requires toResponse(Credential(request)["id" := VLong(id)]).Some?
    ensures Verified(rows + [Credential(request)["id" := VLong(id)]], request, toResponse).Ok?
  {
    var saved := Credential(request)["id" := VLong(id)];
    var p := SameCredentials(request.username.value, request.password.value);
    WhereNone(rows, p);
    assert (rows + [saved])[..|rows|] == rows;
    assert Where(rows + [saved], p) == [saved];
  }

  /** No stored login satisfies `p`, so none is selected. */
  lemma {:induction false} WhereNone(rows: seq<Record>, p: Record -> bool)
    requires forall x :: x in rows ==> !p(x)
    ensures Where(rows, p) == []
  {
    if Where(rows, p) != [] {
      assert Where(rows, p)[0] in Where(rows, p);
    }
  }

  class LoginServiceImpl {
    const repository: Table

    ghost predicate Valid()
      reads this, repository
    {
      repository.Valid()
    }

    constructor (repository: Table)
      requires repository.Valid()
      ensures this.repository == repository && Valid()
    {
      this.repository := repository;
    }

    /**
     * `saveLoginData`: validate, map the request onto a new login and save it.
     * Every failure, the validation's included, is reported as
     * USER_NOT_CREATED. `accepted` says whether the database takes the row.
     */
    method SaveLoginData(request: LoginRequest, accepted: bool) returns (r: Result<ApiResponse<Void>, Failure>)
      requires Valid()
      modifies repository
      ensures Valid()
      ensures r.Ok? <==> ValidateLoginData(request).None? && accepted
      ensures r.Ok? ==> (r.value == Respond(Success, None)
        && repository.rows == old(repository.rows) + [Credential(request)["id" := VLong(old(repository.nextId))]]
        && repository.nextId == old(repository.nextId) + 1)
      ensures r.Err? ==> (r.error == Raise(UserNotCreated) && repository.rows == old(repository.rows)
        && repository.nextId == old(repository.nextId))
    {
      if ValidateLoginData(request).Some? || !accepted {
        return Err(Raise(UserNotCreated));
      }
      var _ := repository.Save(Credential(request));
      return Ok(Respond(Success, None));
    }

    /** `verifyCredentials` against the stored logins; nothing changes. */
    method VerifyCredentials<R>(request: LoginRequest, toResponse: ResponseMapper<R>) returns (r: Result<ApiResponse<R>, Failure>)
      requires Valid()
      ensures r == Verified(repository.rows, request, toResponse)
    {
      var invalid := ValidateLoginData(request);
      if invalid.Some? {
        return Err(invalid.value);
      }
      var matches := Where(repository.rows, SameCredentials(request.username.value, request.password.value));
      if |matches| != 1 {
        return Err(RaiseWith(BadRequest, InvalidText));
      }
      var response := toResponse(matches[0]);
      if response.None? {
        return Err(RaiseWith(BadRequest, InvalidText));
      }
      return Ok(Respond(Success, response));
    }
  }
}
