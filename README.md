# Person CRUD service: table model and request rules

A model of a small Go service with one table, `people` (`id`, `name`, `age`,
`gender`). The service has five HTTP routes: list with offset/limit, create,
get, update and delete by id. The model covers two layers:

- `person.dfy`, module `PersonStore`, for person.go. The table is the class
  `Table`. Its fields are:
  - a map from id to the stored columns;
  - the sequence of ids that a scan returns;
  - the next value of the `SERIAL` sequence;
  - a ghost log of every SQL statement issued.

  The five storage operations are methods on `Table`. Each method says
  exactly what it returns and what the new state is.
- `app.dfy`, module `Handlers`, for app.go. It holds the clamping of `count`
  and `start`, and the choice of status code and body for each outcome (pure
  functions returning a `Response`). It also has the class `App`, with one
  method per handler over the table. Each handler says what it answers, what
  the table becomes, and which statement it sends (none when the id or the
  body did not parse, exactly one otherwise).
- `scenarios.dfy`, module `Scenarios`, for main_test.go. Each test is a
  request sequence that starts with `clearTable`, with the outcome the test
  checks as its postcondition. It also holds the properties that link several
  requests: a create followed by a get returns the same record; a delete
  followed by a get gives 404; an update followed by a get shows the change
  only if the row existed; each create gets a larger id than the one before.
- `wrappers.dfy`, module `Wrappers`: `Option`, `Result` and `Outcome`.

Inputs that are parsed outside the core arrive as `Option` values:
- A path id is `None` when `strconv.Atoi` rejects the segment.
- A body is `None` when JSON decoding fails.
- A query parameter is `Some(n)` when it is a decimal number, whatever its
  size, and `None` when it is absent or malformed.

A failure that the database may report when a statement is issued is a
parameter `fault: Option<string>`. Examples are a lost connection or a
violated constraint. `Some(text)` makes the statement fail with that text and
change nothing.

A connection lost during the listing scan is a separate parameter
`cut: Option<nat>` of `GetPeople`. `Some(k)` means the scan stops after `k`
rows have arrived. The loop in person.go:58-64 ends when `rows.Next()` reports
false, and `rows.Err()` is never checked. So the source returns the rows read
so far as a success, and the handler answers 200 with a shortened list.
`Scenarios.InterruptedListing` shows this for a three-row table.

The source has no `ORDER BY`, so the order a scan returns rows in is not
fixed. The model keeps the current scan order as a sequence of ids that
lists every key exactly once. It does not assume any sorting:
- An insert can put the new row at any position, given by a `place`
  parameter.
- An update can move the row it rewrites to any position, also given by
  `place`, because PostgreSQL writes a new row version.
- A delete removes the row and keeps the others in their order.

A negative `OFFSET` or `LIMIT` passed to `getPeople` in person.go is modelled
as the error PostgreSQL reports. The offset is checked first. The handler
clamps both values, so it never reaches these errors; `Handlers.App.GetPeople`
states this.

The update handler's message `"Invalid resquest payload"` keeps the source's
spelling.

## Model

| member | source | states |
|---|---|---|
| PersonStore.ErrorText | person.go:14-16 | `err.Error()`: the text of `sql.ErrNoRows` for NotFound, the driver's own message for any other error |
| PersonStore.Without | person.go:39-40 | the ids left after a delete are exactly the others, still each listed once; an absent id leaves the sequence as it was |
| PersonStore.WithoutKeepsOrder | person.go:39-40 | deleting the id listed at position k leaves the ids before k and after k exactly as they were, in their order |
| PersonStore.InsertAt | person.go:20-22 | a written row appears in the scan exactly once, at the chosen position (or last); the ids before that position and after it are the old ones in their order |
| PersonStore.FetchRows | person.go:56-64 | the rows of the result set scan into records one for one, each with its id and stored name, age and gender, in order |
| PersonStore.FetchRowsPrefix | person.go:58-64 | scanning only the first k rows gives exactly the first k records of the full scan |
| PersonStore.Listing | person.go:45-48 | LIMIT/OFFSET gives the rows at positions start .. start+count-1 of the scan; at most count of them, never more than remain after start, none on an empty table or past the end; no row twice |
| PersonStore.Table.constructor | main_test.go:158-165 | a new table is empty and its id sequence starts at 1 |
| PersonStore.Table.Clear | main_test.go:153-156 | clearTable removes every row and restarts the id sequence at 1 |
| PersonStore.Table.GetPerson | person.go:14-17 | a present id yields exactly its stored name, age and gender; NotFound exactly when the id is absent; a storage fault yields its text; the table is not modified |
| PersonStore.Table.CreatePerson | person.go:19-29 | the record is stored under the next sequence value, which no row had and which exceeds every existing id; the returned record carries that id and the submitted fields; other rows are unchanged; the sequence advances by one |
| PersonStore.Table.UpdatePerson | person.go:31-37 | a present id gets the new name, age and gender, and its row may move in the scan order; an absent id changes nothing and still succeeds; all other rows are unchanged |
| PersonStore.Table.DeletePerson | person.go:39-43 | the id is no longer in the table and other rows are unchanged; an absent id changes nothing and still succeeds |
| PersonStore.Table.GetPeople | person.go:45-67 | the loop collects exactly the listing for the given offset and limit, starting from an empty (non-null) list; a scan cut after k rows returns the first k as a success; negative offset or limit and a failing query yield errors |
| Handlers.RespondWithError | app.go:147-149 | the error envelope carries the given status code and `{"error": message}` |
| Handlers.QueryInt | app.go:47-48 | a query value that did not parse counts as 0; a parsed one is kept |
| Handlers.ClampCount | app.go:47-52 | the effective count is in [1,10]; a value in range is kept; anything else, including the 0 of a failed parse, becomes 10 |
| Handlers.ClampStart | app.go:48-55 | the effective start is at least 0; a non-negative value is kept; a negative one becomes 0 |
| Handlers.ClampIdempotent | app.go:50-55 | clamping an already clamped count or start gives it back unchanged |
| Handlers.ListResponse | app.go:57-63 | 200 with the list exactly when the listing succeeded, otherwise 500 with the error text |
| Handlers.CreateResponse | app.go:75-80 | 201 with the created record exactly when the insert succeeded, otherwise 500 with the error text |
| Handlers.GetResponse | app.go:92-102 | 200 with the record on success, 404 "Person not found" exactly for NotFound, 500 with the text exactly for other errors |
| Handlers.UpdateResponse | app.go:122-127 | 200 echoing the submitted record exactly when the update succeeded, otherwise 500 with the error text |
| Handlers.DeleteResponse | app.go:139-144 | 200 `{"result": "success"}` exactly when the delete succeeded, otherwise 500 with the error text |
| Handlers.App.GetPeople | app.go:46-64 | one range query with the clamped limit and offset; 200 with the listing for those values (only its first k rows when the scan is cut after k), or 500 with the fault text; the table is not modified |
| Handlers.App.CreatePerson | app.go:66-81 | an undecodable body gives 400 "Invalid request payload" and issues nothing; otherwise one insert, answered with 201 and the record under its new id, or 500 with the fault text |
| Handlers.App.GetPerson | app.go:83-103 | an unparsable id gives 400 "Invalid person ID" and issues nothing; otherwise one select, answered 200 with the stored record, 404 "Person not found" or 500 |
| Handlers.App.UpdatePerson | app.go:105-128 | 400 "Invalid person ID", or 400 "Invalid resquest payload", with nothing issued; otherwise one update keyed by the path id, answered 200 with the submitted fields and the path id whatever id the body carried, not re-read and whether or not the row existed |
| Handlers.App.DeletePerson | app.go:130-145 | an unparsable id gives 400 "Invalid Person ID" and issues nothing; otherwise one delete, answered 200 `{"result": "success"}` whether or not the row existed, or 500 |
| Scenarios.AddOnePerson | main_test.go:167-175 | addPeople(1) stores "Person 0", 10, "male" under the next id |
| Scenarios.EmptyTable | main_test.go:28-39 | after clearTable, GET /people answers 200 with the empty list |
| Scenarios.GetNonExistentPerson | main_test.go:41-54 | after clearTable, GET /person/1 answers 404 "Person not found" |
| Scenarios.CreateFirstPerson | main_test.go:56-84 | after clearTable, the first POST answers 201 with id 1 and name, age and gender echoed |
| Scenarios.GetAddedPerson | main_test.go:86-94 | after clearTable and one added row, GET /person/1 answers 200 with that row |
| Scenarios.UpdateAddedPerson | main_test.go:96-127 | PUT /person/1 keeps the id and answers with the new name and age, both different from the originals |
| Scenarios.DeleteAddedPerson | main_test.go:129-145 | GET answers 200, DELETE answers 200 with the success envelope, and the next GET answers 404 |
| Scenarios.CreateThenGet | app.go:75-102 | GET of the id returned by POST answers 200 with exactly the created record and the submitted name, age and gender |
| Scenarios.DeleteThenGet | app.go:130-144 | after a successful DELETE of any id, present or not, GET of it answers 404 |
| Scenarios.UpdateThenGet | app.go:120-127 | PUT always answers 200 with the submitted record; a later GET shows it only if the row existed, otherwise 404 |
| Scenarios.SuccessiveCreates | person.go:19-22 | each created id is larger than every id present before and than the id of the previous create |
| Scenarios.InterruptedListing | person.go:58-66 | with three rows and the connection lost after the first arrives, GET /people answers 200 with that one row |

## Left out

- The HTTP server, `ListenAndServe` and `mux` routing (app.go:19-21, app.go:33-44). Only the effect of routing is kept: a path id reaches a handler as the result of `strconv.Atoi`. Because of the `[0-9]+` pattern, a parse can fail only on a number too large for `int`.
- JSON encoding and decoding (app.go:68-69, app.go:151-157). The decoded record or its failure is an input; the written payload is the `Body` value.
- The SQL driver, the connection and `log.Fatal` (app.go:23-31) are foreign calls. Their errors are the `fault` parameter.
- Handlers.QueryInt: a decimal number too large for Go's `int` arrives as its exact value. `strconv.Atoi` instead returns the largest or smallest `int`. The answers still agree: count becomes 10 either way; start becomes 0 for a huge negative value, and for a huge positive value both give an offset past every row, so an empty page. Only the offset recorded in the statement log differs; the source's would be 9223372036854775807.
- Go's 64-bit `int` and the 32-bit `integer` id column: ids and ages are unbounded integers. A digits-only path id above 2147483647 passes the router and `strconv.Atoi`, but PostgreSQL rejects it as out of range for the id column. So GET, PUT and DELETE answer 500 in the source. The model with no fault answers 404, 200 and 200. Exhausting the sequence is not modelled either, nor is the `SMALLINT` range check on age (main_test.go:162), which is a constraint error inside the database.
- PersonStore.Table.CreatePerson: a failed insert leaves the sequence where it was. PostgreSQL may consume a sequence value on a failed insert, so later ids can have gaps that the model does not produce.
- NULL `gender` values: rows enter only through the API, which always sends a string, so a stored NULL (and the Scan error it would cause) does not arise in the model.
- The test harness (main_test.go:16-26, main_test.go:147-151, main_test.go:177-188) talks to a live database. The general `addPeople(count)` loop is modelled only as the single-row call that the tests make.
- Concurrent request handling belongs to the server and the database. Each request is modelled as one atomic step.
