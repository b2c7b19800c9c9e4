/**
 The create, get-one, update and delete handlers over an abstract store: a
 map from id to row, with ids handed out in increasing order from 1.
 */
module Router {
  import opened Wrappers
  import opened TagCodec
  import opened Schema
  import opened Resources

  datatype Store = Store(rows: map<int, Row>, nextId: int)

  /** Every stored row sits under its own id, and every id is positive and
      below the next one to be handed out. */
  predicate ValidStore(s: Store) {
    && s.nextId >= 1
    && forall id :: id in s.rows ==> 1 <= id < s.nextId && s.rows[id].id == id
  }

  const EmptyStore := Store(map[], 1)

  /** The router's answers: 201, 200, 204, 400 with the field issues, 404. */
  datatype Response =
    | Created(view: View)
    | Ok(view: View)
    | NoContent
    | BadRequest(issues: set<Issue>)
    | NotFound

  /** `POST /resources`: an accepted body is stored under a fresh id with
      the given timestamp and returned with status 201; a rejected one
      leaves the store alone and is answered with 400. */
  function Create(s: Store, body: Json, now: int): (out: (Store, Response))
    requires ValidStore(s)
    ensures ValidStore(out.0)
    ensures out.1.BadRequest? <==> !CreateAccepts(body)
    ensures out.1.BadRequest? ==> out.0 == s && out.1.issues == ParseCreate(body).issues
    ensures out.1.Created? ==>
      && s.nextId !in s.rows
      && out.0.rows == s.rows[s.nextId := NewRow(s.nextId, now, ParseCreate(body).value)]
      && out.1.view == Present(out.0.rows[s.nextId])
    ensures out.1.Created? || out.1.BadRequest?
  {
    match ParseCreate(body)
    case Rejected(issues) => (s, BadRequest(issues))
    case Accepted(x) =>
      var row := NewRow(s.nextId, now, x);
      (Store(s.rows[s.nextId := row], s.nextId + 1), Created(Present(row)))
  }

  /** `GET /resources/:id`: the row under `id`, or 404. */
  function GetOne(s: Store, id: int): (r: Response)
    ensures r.Ok? <==> id in s.rows
    ensures r.Ok? ==> r.view == Present(s.rows[id])
    ensures !r.Ok? ==> r == NotFound
  {
    if id in s.rows then Ok(Present(s.rows[id])) else NotFound
  }

  /** `PATCH /resources/:id`: the body is validated before the store is
      touched (400); a missing row is 404; otherwise the patch built from the
      body is merged into the row under `id` and nothing else changes. */
  function Update(s: Store, id: int, body: Json): (out: (Store, Response))
    requires ValidStore(s)
    ensures ValidStore(out.0)
    ensures out.1.BadRequest? <==> !UpdateAccepts(body)
    ensures out.1.NotFound? <==> UpdateAccepts(body) && id !in s.rows
    ensures out.1.BadRequest? ==> out.1.issues == ParseUpdate(body).issues
    ensures !out.1.Ok? ==> out.0 == s
    ensures out.1.Ok? ==>
      && id in s.rows
      && out.0 == Store(s.rows[id := Merge(s.rows[id], BuildPatch(ParseUpdate(body).value))], s.nextId)
      && out.1.view == Present(out.0.rows[id])
    ensures out.1.Ok? || out.1.BadRequest? || out.1.NotFound?
  {
    match ParseUpdate(body)
    case Rejected(issues) => (s, BadRequest(issues))
    case Accepted(u) =>
      if id !in s.rows then (s, NotFound)
      else
        var row := Merge(s.rows[id], BuildPatch(u));
        (Store(s.rows[id := row], s.nextId), Ok(Present(row)))
  }

  /** `DELETE /resources/:id`: 204 and the row is gone, or 404 when there
      was none. */
  function Delete(s: Store, id: int): (out: (Store, Response))
    requires ValidStore(s)
    ensures ValidStore(out.0)
    ensures out.1 == NoContent <==> id in s.rows
    ensures out.1 != NoContent ==> out.1 == NotFound && out.0 == s
    ensures out.0.rows == s.rows - {id} && id !in out.0.rows
    ensures out.0.nextId == s.nextId
  {
    if id in s.rows then (Store(s.rows - {id}, s.nextId), NoContent) else (s, NotFound)
  }

  /** A created resource is found under its id with the body's fields, and
      clean tags read back as given. */
  lemma CreateThenGet(s: Store, name: string, tags: seq<string>, now: int)
    requires ValidStore(s)
    requires |name| >= 1 && CleanTags(tags)
    ensures var x := CreateInput(name, None, Some(tags));
            var (s', r) := Create(s, EncodeCreate(x), now);
            r.Created? && r.view.id == s.nextId && r.view.id >= 1 && r.view.tags == tags
            && GetOne(s', r.view.id) == Ok(r.view)
  {
    var x := CreateInput(name, None, Some(tags));
    CreateRoundTrip(x);
    CreatedView(s.nextId, now, x);
  }

  /** An empty update body answers 200 with the row as it was. */
  lemma EmptyUpdateIsNoChange(s: Store, id: int)
    requires ValidStore(s) && id in s.rows
    ensures Update(s, id, JObject(map[])) == (s, Ok(Present(s.rows[id])))
  {
    EmptyBody();
    MergeEmpty(s.rows[id]);
    assert s.rows[id := s.rows[id]] == s.rows;
  }

  /** Updating one row leaves every other row, and the ids, as they were. */
  lemma UpdateTouchesOneRow(s: Store, id: int, body: Json, other: int)
    requires ValidStore(s) && other != id
    ensures var s' := Update(s, id, body).0;
            s'.nextId == s.nextId && s'.rows.Keys == s.rows.Keys
            && (other in s.rows ==> s'.rows[other] == s.rows[other])
  {
  }

  /** Deleting twice: the second delete finds nothing and answers 404. */
  lemma DeleteTwice(s: Store, id: int)
    requires ValidStore(s) && id in s.rows
    ensures var (s1, r1) := Delete(s, id);
            r1 == NoContent && Delete(s1, id) == (s1, NotFound) && GetOne(s1, id) == NotFound
  {
  }

  /** Ids are never reused: after a delete, the next create gets a new id. */
  lemma CreateAfterDeleteFreshId(s: Store, id: int, body: Json, now: int)
    requires ValidStore(s) && id in s.rows
    ensures var (s1, _) := Delete(s, id);
            var (_, r) := Create(s1, body, now);
            r.Created? ==> r.view.id != id
  {
  }
}
