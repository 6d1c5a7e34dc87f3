/**
 * The request sequences of the test suite (main_test.go), each stating the outcome
 * its test checks, and the properties that connect several requests: create then
 * get, delete then get, update then get, and successive creates. Each test
 * scenario begins with `Clear`, so it needs nothing of the table but a valid
 * state. No storage fault occurs in any of them; in the test scenarios written
 * rows are listed last by later scans, the other properties hold wherever they
 * are listed.
 */
module Scenarios {
  import opened Wrappers
  import opened PersonStore
  import opened Handlers

  /** `addPeople(1)`: one row "Person 0", 10, "male" inserted behind the handlers' back. */
  method AddOnePerson(db: Table)
    requires db.Valid()
    modifies db
    ensures db.Valid()
    ensures db.rows == old(db.rows)[old(db.nextId) := Row("Person 0", 10, "male")]
    ensures db.nextId == old(db.nextId) + 1
  {
    var _ := db.CreatePerson(Person(0, "Person 0", 10, "male"), None, |db.order|);
  }

  /** TestEmptyTable: GET /people on a cleared table answers 200 with `[]`. */
  method EmptyTable(app: App) returns (resp: Response)
    requires app.db.Valid()
    modifies app.db
    ensures resp == Response(StatusOK, PeopleBody([]))
  {
    app.db.Clear();
    resp := app.GetPeople(None, None, None, None);
  }

  /** TestGetNonExistentPerson: GET /person/1 on a cleared table answers 404. */
  method GetNonExistentPerson(app: App) returns (resp: Response)
    requires app.db.Valid()
    modifies app.db
    ensures resp == Response(StatusNotFound, ErrorBody("Person not found"))
  {
    app.db.Clear();
    resp := app.GetPerson(Some(1), None);
  }

  /** TestCreatePerson: the first POST after clearing answers 201 with id 1 and the fields echoed. */
  method CreateFirstPerson(app: App) returns (resp: Response)
    requires app.db.Valid()
    modifies app.db
    ensures resp == Response(StatusCreated, PersonBody(Person(1, "test", 123, "male")))
  {
    app.db.Clear();
    resp := app.CreatePerson(Some(Person(0, "test", 123, "male")), None, |app.db.order|);
  }

  /** TestGetPeople: after clearing and adding one row, GET /person/1 answers 200. */
  method GetAddedPerson(app: App) returns (resp: Response)
    requires app.db.Valid()
    modifies app.db
    ensures resp == Response(StatusOK, PersonBody(Person(1, "Person 0", 10, "male")))
  {
    app.db.Clear();
    AddOnePerson(app.db);
    resp := app.GetPerson(Some(1), None);
  }

  /**
   * TestUpdatePerson: PUT /person/1 with `{"name":"test", "age": 123}` keeps the id
   * and answers with the new name and age.
   */
  method UpdateAddedPerson(app: App) returns (original: Response, updated: Response)
    requires app.db.Valid()
    modifies app.db
    ensures original == Response(StatusOK, PersonBody(Person(1, "Person 0", 10, "male")))
    ensures updated == Response(StatusOK, PersonBody(Person(1, "test", 123, "")))
    ensures updated.body.person.id == original.body.person.id
    ensures updated.body.person.name != original.body.person.name
    ensures updated.body.person.age != original.body.person.age
  {
    app.db.Clear();
    AddOnePerson(app.db);
    original := app.GetPerson(Some(1), None);
    updated := app.UpdatePerson(Some(1), Some(Person(0, "test", 123, "")), None, |app.db.order|);
  }

  /** TestDeletePerson: GET answers 200, DELETE answers 200, and the next GET answers 404. */
  method DeleteAddedPerson(app: App) returns (before: Response, deleted: Response, after: Response)
    requires app.db.Valid()
    modifies app.db
    ensures before.code == StatusOK
    ensures deleted == Response(StatusOK, ResultBody("success"))
    ensures after == Response(StatusNotFound, ErrorBody("Person not found"))
  {
    app.db.Clear();
    AddOnePerson(app.db);
    before := app.GetPerson(Some(1), None);
    deleted := app.DeletePerson(Some(1), None);
    after := app.GetPerson(Some(1), None);
  }

  /** Round trip: GET of the id a POST returned gives back exactly the posted fields. */
  method CreateThenGet(app: App, p: Person, place: nat) returns (created: Response, fetched: Response)
    requires app.db.Valid()
    modifies app.db
    ensures created.code == StatusCreated && created.body.PersonBody?
    ensures RowOf(created.body.person) == RowOf(p)
    ensures fetched == Response(StatusOK, created.body)
  {
    created := app.CreatePerson(Some(p), None, place);
    fetched := app.GetPerson(Some(created.body.person.id), None);
  }

  /** After a successful DELETE, GET of that id answers 404, whether or not the row existed. */
  method DeleteThenGet(app: App, id: int) returns (deleted: Response, fetched: Response)
    requires app.db.Valid()
    modifies app.db
    ensures deleted == Response(StatusOK, ResultBody("success"))
    ensures fetched == Response(StatusNotFound, ErrorBody("Person not found"))
  {
    deleted := app.DeletePerson(Some(id), None);
    fetched := app.GetPerson(Some(id), None);
  }

  /**
   * PUT answers 200 with the submitted record either way, but only an existing
   * row is changed: a later GET shows the update, or 404 when there was no row.
   */
  method UpdateThenGet(app: App, id: int, p: Person, place: nat) returns (updated: Response, fetched: Response)
    requires app.db.Valid()
    modifies app.db
    ensures updated == Response(StatusOK, PersonBody(p.(id := id)))
    ensures id in old(app.db.rows) ==> fetched == Response(StatusOK, PersonBody(p.(id := id)))
    ensures id !in old(app.db.rows) ==> fetched == Response(StatusNotFound, ErrorBody("Person not found"))
  {
    updated := app.UpdatePerson(Some(id), Some(p), None, place);
    fetched := app.GetPerson(Some(id), None);
  }

  /** Each POST is given an id larger than every id handed out before it. */
  method SuccessiveCreates(app: App, p: Person, q: Person, place1: nat, place2: nat) returns (first: Response, second: Response)
    requires app.db.Valid()
    modifies app.db
    ensures first.code == StatusCreated && first.body.PersonBody?
    ensures second.code == StatusCreated && second.body.PersonBody?
    ensures forall id :: id in old(app.db.rows) ==> id < first.body.person.id
    ensures first.body.person.id < second.body.person.id
  {
    first := app.CreatePerson(Some(p), None, place1);
    second := app.CreatePerson(Some(q), None, place2);
  }

  /**
   * A connection lost after the first of three rows has arrived goes unnoticed:
   * GET /people answers 200 with that one row, not with an error.
   */
  method InterruptedListing(app: App) returns (resp: Response)
    requires app.db.Valid()
    modifies app.db
    ensures resp == Response(StatusOK, PeopleBody([Person(1, "a", 1, "")]))
  {
    app.db.Clear();
    var _ := app.db.CreatePerson(Person(0, "a", 1, ""), None, 0);
    var _ := app.db.CreatePerson(Person(0, "b", 2, ""), None, 1);
    var _ := app.db.CreatePerson(Person(0, "c", 3, ""), None, 2);
    assert app.db.order == [1, 2, 3];
    assert app.db.rows[1] == Row("a", 1, "");
    ghost var full := Listing(app.db.rows, app.db.order, 0, 10);
    assert |full| == 3 && full[0] == Person(1, "a", 1, "");
    assert full[..1] == [Person(1, "a", 1, "")];
    resp := app.GetPeople(None, None, None, Some(1));
  }
}
