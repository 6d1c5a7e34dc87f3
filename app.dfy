/**
 * The five request handlers of app.go over the table model. A request arrives
 * here already taken apart: a path id is `Some(n)` when `strconv.Atoi` accepted
 * the path segment and `None` when it did not; a body is `Some(p)` when the JSON
 * decoder produced the record `p` (an absent `age` is 0, an absent `gender`
 * is "") and `None` when decoding failed; a query parameter is `Some(n)` when
 * it is a decimal number, whatever its size, and `None` when it is absent or
 * malformed.
 */
module Handlers {
  import opened Wrappers
  import opened PersonStore

  const StatusOK := 200
  const StatusCreated := 201
  const StatusBadRequest := 400
  const StatusNotFound := 404
  const StatusInternalServerError := 500

  /** The JSON payloads the handlers write. */
  datatype Body =
    | PersonBody(person: Person)
    | PeopleBody(people: seq<Person>)
    | ErrorBody(error: string)      // {"error": error}
    | ResultBody(result: string)    // {"result": result}

  /** A status code with the payload written under it. */
  datatype Response = Response(code: int, body: Body)

  /** `respondWithError`: the `{"error": message}` envelope. */
  function RespondWithError(code: int, message: string): (resp: Response)
    ensures resp.code == code
    ensures resp.body.ErrorBody? && resp.body.error == message
  {
    Response(code, ErrorBody(message))
  }

  /** `strconv.Atoi` with its error discarded: 0 when the value did not parse. */
  function QueryInt(v: Option<int>): (n: int)
    ensures v.None? ==> n == 0
    ensures v.Some? ==> n == v.value
  {
    v.GetOr(0)
  }

  /** The limit `getPeople` passes on: 1 to 10, and 10 for anything outside that range. */
  function ClampCount(count: int): (c: int)
    ensures 1 <= c <= 10
    ensures 1 <= count <= 10 ==> c == count
    ensures count < 1 || 10 < count ==> c == 10
  {
    if count > 10 || count < 1 then 10 else count
  }

  /** The offset `getPeople` passes on: negative values become 0. */
  function ClampStart(start: int): (s: int)
    ensures 0 <= s
    ensures 0 <= start ==> s == start
    ensures start < 0 ==> s == 0
  {
    if start < 0 then 0 else start
  }

  lemma ClampIdempotent(count: int, start: int)
    ensures ClampCount(ClampCount(count)) == ClampCount(count)
    ensures ClampStart(ClampStart(start)) == ClampStart(start)
  {
  }

  /** The answer of `getPeople` to the listing or the error. */
  function ListResponse(r: Result<seq<Person>, StoreError>): (resp: Response)
    ensures resp.code == StatusOK <==> r.Ok?
    ensures resp.code == StatusInternalServerError <==> r.Err?
    ensures r.Ok? ==> resp.body == PeopleBody(r.value)
    ensures r.Err? ==> resp.body == ErrorBody(ErrorText(r.error))
  {
    match r
    case Ok(people) => Response(StatusOK, PeopleBody(people))
    case Err(e) => RespondWithError(StatusInternalServerError, ErrorText(e))
  }

  /** The answer of `createPerson` to the stored record or the error. */
  function CreateResponse(r: Result<Person, StoreError>): (resp: Response)
    ensures resp.code == StatusCreated <==> r.Ok?
    ensures resp.code == StatusInternalServerError <==> r.Err?
    ensures r.Ok? ==> resp.body == PersonBody(r.value)
    ensures r.Err? ==> resp.body == ErrorBody(ErrorText(r.error))
  {
    match r
    case Ok(p) => Response(StatusCreated, PersonBody(p))
    case Err(e) => RespondWithError(StatusInternalServerError, ErrorText(e))
  }

  /** The answer of `getPerson`: 200, 404 for NotFound, 500 with the text of any other error. */
  function GetResponse(r: Result<Person, StoreError>): (resp: Response)
    ensures resp.code == StatusOK <==> r.Ok?
    ensures resp.code == StatusNotFound <==> r == Err(NotFound)
    ensures resp.code == StatusInternalServerError <==> r.Err? && r.error.StorageError?
    ensures r.Ok? ==> resp.body == PersonBody(r.value)
    ensures r == Err(NotFound) ==> resp.body == ErrorBody("Person not found")
    ensures r.Err? && r.error.StorageError? ==> resp.body == ErrorBody(r.error.message)
  {
    match r
    case Ok(p) => Response(StatusOK, PersonBody(p))
    case Err(NotFound) => RespondWithError(StatusNotFound, "Person not found")
    case Err(e) => RespondWithError(StatusInternalServerError, ErrorText(e))
  }

  /** The answer of `updatePerson`: the record as submitted, or 500 with the error text. */
  function UpdateResponse(p: Person, r: Outcome<StoreError>): (resp: Response)
    ensures resp.code == StatusOK <==> r.Pass?
    ensures resp.code == StatusInternalServerError <==> r.Fail?
    ensures r.Pass? ==> resp.body == PersonBody(p)
    ensures r.Fail? ==> resp.body == ErrorBody(ErrorText(r.error))
  {
    match r
    case Pass => Response(StatusOK, PersonBody(p))
    case Fail(e) => RespondWithError(StatusInternalServerError, ErrorText(e))
  }

  /** The answer of `deletePerson`: `{"result": "success"}`, or 500 with the error text. */
  function DeleteResponse(r: Outcome<StoreError>): (resp: Response)
    ensures resp.code == StatusOK <==> r.Pass?
    ensures resp.code == StatusInternalServerError <==> r.Fail?
    ensures r.Pass? ==> resp.body == ResultBody("success")
    ensures r.Fail? ==> resp.body == ErrorBody(ErrorText(r.error))
  {
    match r
    case Pass => Response(StatusOK, ResultBody("success"))
    case Fail(e) => RespondWithError(StatusInternalServerError, ErrorText(e))
  }

  /** The application: the handlers over one database handle. */
  class App {
    const db: Table

    constructor (db: Table)
      ensures this.db == db
    {
      this.db := db;
    }

    /**
     * GET /people. A connection lost partway through the scan (`cut`) is not
     * noticed: the answer is 200 with the rows read until then.
     */
    method GetPeople(countParam: Option<int>, startParam: Option<int>, fault: Option<string>, cut: Option<nat>)
      returns (resp: Response)
      requires db.Valid()
      modifies db`log
      ensures db.Valid()
      ensures db.log == old(db.log)
        + [SqlSelectRange(ClampCount(QueryInt(countParam)), ClampStart(QueryInt(startParam)))]
      ensures fault.Some? ==> resp == RespondWithError(StatusInternalServerError, fault.value)
      ensures fault.None? && cut.None? ==>
        resp == Response(StatusOK, PeopleBody(
          Listing(db.rows, db.order, ClampStart(QueryInt(startParam)), ClampCount(QueryInt(countParam)))))
      ensures fault.None? && cut.Some? ==>
        var full := Listing(db.rows, db.order, ClampStart(QueryInt(startParam)), ClampCount(QueryInt(countParam)));
        resp == Response(StatusOK, PeopleBody(full[..Min(cut.value, |full|)]))
    {
      var count := QueryInt(countParam);
      var start := QueryInt(startParam);
      if count > 10 || count < 1 {
        count := 10;
      }
      if start < 0 {
        start := 0;
      }
      var r := db.GetPeople(start, count, fault, cut);
      resp := ListResponse(r);
    }

    /** POST /person; `place` is where later scans list the new row. */
    method CreatePerson(body: Option<Person>, fault: Option<string>, place: nat) returns (resp: Response)
      requires db.Valid()
      modifies db
      ensures db.Valid()
      ensures body.None? ==>
        resp == RespondWithError(StatusBadRequest, "Invalid request payload") && unchanged(db)
      ensures body.Some? ==> db.log == old(db.log) + [SqlInsert(RowOf(body.value))]
      ensures body.Some? && fault.Some? ==>
        && resp == RespondWithError(StatusInternalServerError, fault.value)
        && db.rows == old(db.rows) && db.order == old(db.order) && db.nextId == old(db.nextId)
      ensures body.Some? && fault.None? ==>
        && old(db.nextId) !in old(db.rows)
        && resp == Response(StatusCreated, PersonBody(body.value.(id := old(db.nextId))))
        && db.rows == old(db.rows)[old(db.nextId) := RowOf(body.value)]
        && db.order == InsertAt(old(db.order), place, old(db.nextId))
        && db.nextId == old(db.nextId) + 1
    {
      if body.None? {
        return RespondWithError(StatusBadRequest, "Invalid request payload");
      }
      var p := body.value;
      var r := db.CreatePerson(p, fault, place);
      resp := CreateResponse(r);
    }

    /** GET /person/{id} */
    method GetPerson(id: Option<int>, fault: Option<string>) returns (resp: Response)
      requires db.Valid()
      modifies db`log
      ensures db.Valid()
      ensures id.None? ==>
        resp == RespondWithError(StatusBadRequest, "Invalid person ID") && db.log == old(db.log)
      ensures id.Some? ==> db.log == old(db.log) + [SqlSelect(id.value)]
      ensures id.Some? && fault.Some? ==> resp == RespondWithError(StatusInternalServerError, fault.value)
      ensures id.Some? && fault.None? && id.value !in db.rows ==>
        resp == RespondWithError(StatusNotFound, "Person not found")
      ensures id.Some? && fault.None? && id.value in db.rows ==>
        resp == Response(StatusOK, PersonBody(ToPerson(id.value, db.rows[id.value])))
    {
      if id.None? {
        return RespondWithError(StatusBadRequest, "Invalid person ID");
      }
      var r := db.GetPerson(id.value, fault);
      resp := GetResponse(r);
    }

    /**
     * PUT /person/{id}: the path id replaces whatever id the body carried, and
     * the answer echoes that record without reading the row back. `place` is
     * where later scans list the rewritten row.
     */
    method UpdatePerson(id: Option<int>, body: Option<Person>, fault: Option<string>, place: nat)
      returns (resp: Response)
      requires db.Valid()
      modifies db`rows, db`order, db`log
      ensures db.Valid()
      ensures id.None? ==>
        resp == RespondWithError(StatusBadRequest, "Invalid person ID") && unchanged(db)
      ensures id.Some? && body.None? ==>
        resp == RespondWithError(StatusBadRequest, "Invalid resquest payload") && unchanged(db)
      ensures id.Some? && body.Some? ==>
        db.log == old(db.log) + [SqlUpdate(id.value, RowOf(body.value))]
      ensures id.Some? && body.Some? && fault.Some? ==>
        && resp == RespondWithError(StatusInternalServerError, fault.value)
        && db.rows == old(db.rows) && db.order == old(db.order)
      ensures id.Some? && body.Some? && fault.None? ==>
        resp == Response(StatusOK, PersonBody(body.value.(id := id.value)))
      ensures id.Some? && body.Some? && fault.None? && id.value in old(db.rows) ==>
        && db.rows == old(db.rows)[id.value := RowOf(body.value)]
        && db.order == InsertAt(Without(old(db.order), id.value), place, id.value)
      ensures id.Some? && body.Some? && fault.None? && id.value !in old(db.rows) ==>
        db.rows == old(db.rows) && db.order == old(db.order)
    {
      if id.None? {
        return RespondWithError(StatusBadRequest, "Invalid person ID");
      }
      if body.None? {
        return RespondWithError(StatusBadRequest, "Invalid resquest payload");
      }
      var p := body.value;
      p := p.(id := id.value);
      var r := db.UpdatePerson(p, fault, place);
      resp := UpdateResponse(p, r);
    }

    /** DELETE /person/{id}: success whether or not the row existed. */
    method DeletePerson(id: Option<int>, fault: Option<string>) returns (resp: Response)
      requires db.Valid()
      modifies db`rows, db`order, db`log
      ensures db.Valid()
      ensures id.None? ==>
        resp == RespondWithError(StatusBadRequest, "Invalid Person ID") && unchanged(db)
      ensures id.Some? ==> db.log == old(db.log) + [SqlDelete(id.value)]
      ensures id.Some? && fault.Some? ==>
        && resp == RespondWithError(StatusInternalServerError, fault.value)
        && db.rows == old(db.rows) && db.order == old(db.order)
      ensures id.Some? && fault.None? ==>
        && resp == Response(StatusOK, ResultBody("success"))
        && db.rows == old(db.rows) - {id.value}
        && db.order == Without(old(db.order), id.value)
    {
      if id.None? {
        return RespondWithError(StatusBadRequest, "Invalid Person ID");
      }
      var r := db.DeletePerson(id.value, fault);
      resp := DeleteResponse(r);
    }
  }
}
