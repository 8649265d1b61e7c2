/** The `/api/tasks` route handlers (app/api/tasks/route.ts).
    GET fills in query-parameter defaults, builds the query document and
    returns the matching records; POST stamps the request body into a new
    record and inserts it. A failure anywhere inside either handler becomes
    status 500 with a fixed `{error}` body. Whether the database connection
    is available, and what `request.json()` parsed, are parameters. */
module TasksRoute {
  import opened TaskTypes
  import opened TaskStore
  import Text

  /** A JSON response body: the task list, the created record, or `{error}`. */
  datatype Body = TaskList(tasks: seq<Task>) | Created(task: Task) | Error(error: string)

  datatype Response = Response(status: nat, body: Body)

  const FetchFailed: string := "Failed to fetch tasks"
  const CreateFailed: string := "Failed to create task"

  // ---------------------------------------------------------------------
  // GET
  // ---------------------------------------------------------------------

  /** `searchParams.get("search") || ""`: a missing or empty parameter is "". */
  function SearchParam(raw: Option<string>): (search: string)
    ensures search == "" <==> raw.None? || raw.value == ""
    ensures search != "" ==> raw == Some(search)
  {
    if raw.Some? && raw.value != "" then raw.value else ""
  }

  /** `searchParams.get("day") || "all"`: a missing or empty parameter is "all". */
  function DayParam(raw: Option<string>): (day: string)
    ensures raw.None? || raw.value == "" ==> day == "all"
    ensures raw.Some? && raw.value != "" ==> day == raw.value
    ensures day != ""
  {
    if raw.Some? && raw.value != "" then raw.value else "all"
  }

  /** The query document for a search text and a day: a retailer constraint
      only for a non-empty search, a day constraint for every day other than
      "all" ("today" included, taken literally). Either way a record matches
      when its retailer contains the search text and, unless the day is
      "all", its day contains the day text. */
  function QueryFor(search: string, day: string): (q: Query)
    ensures q.retailer.None? <==> search == ""
    ensures q.retailer.Some? ==> q.retailer.value == search
    ensures q.day.None? <==> day == "all"
    ensures q.day.Some? ==> q.day.value == day
    ensures forall t :: Matches(q, t) <==>
              Text.ContainsIgnoreCase(t.retailer, search) &&
              (day == "all" || Text.ContainsIgnoreCase(t.day, day))
  {
    var q := Query(if search != "" then Some(search) else None,
                   if day != "all" then Some(day) else None);
    assert forall t: Task :: Text.ContainsIgnoreCase(t.retailer, "") by {
      forall t: Task ensures Text.ContainsIgnoreCase(t.retailer, "") {
        Text.EmptyNeedleMatches(t.retailer);
      }
    }
    q
  }

  /** Lines 14-22: start from `{}` and add each constraint when needed. */
  method BuildQuery(search: string, day: string) returns (q: Query)
    ensures q == QueryFor(search, day)
  {
    q := EmptyQuery;
    if search != "" {
      q := q.(retailer := Some(search));
    }
    if day != "all" {
      q := q.(day := Some(day));
    }
  }

  /** With no parameters the query is empty and every stored task is listed. */
  lemma DefaultsListEverything(docs: seq<Task>)
    ensures QueryFor(SearchParam(None), DayParam(None)) == EmptyQuery
    ensures FindIn(docs, QueryFor(SearchParam(None), DayParam(None))) == docs
  {
    EmptyQueryFindsAll(docs);
  }

  /** `GET /api/tasks?search=…&day=…` */
  method Get(store: TaskCollection, rawSearch: Option<string>, rawDay: Option<string>, connected: bool)
    returns (resp: Response)
    requires store.Valid()
    ensures resp.status == 200 <==> connected
    ensures resp.status != 200 ==> resp == Response(500, Error(FetchFailed))
    ensures resp.status == 200 ==>
              resp.body == TaskList(FindIn(store.docs, QueryFor(SearchParam(rawSearch), DayParam(rawDay))))
    ensures resp.status == 200 ==> HasIds(resp.body.tasks) && DistinctIds(resp.body.tasks)
  {
    if !connected {
      return Response(500, Error(FetchFailed));
    }
    var search := SearchParam(rawSearch);
    var day := DayParam(rawDay);
    var q := BuildQuery(search, day);
    var found := FindIn(store.docs, q);
    FindInDistinctIds(store.docs, q);
    resp := Response(200, TaskList(found));
  }

  // ---------------------------------------------------------------------
  // POST
  // ---------------------------------------------------------------------

  /** The parsed request body: the task fields the client sends, with an
      optional `_id` and optional values for the three fields the handler
      overrides. */
  datatype TaskBody = TaskBody(
    id: Option<string>,
    retailer: string,
    day: string,
    fileCount: int,
    formats: Formats,
    loadType: LoadType,
    link: string,
    username: string,
    password: string,
    files: seq<TaskFile>,
    completed: Option<bool>,
    createdAt: Option<int>,
    updatedAt: Option<int>)

  /** `t` carries every field of `body` that the handler does not override. */
  predicate ClientFieldsKept(body: TaskBody, t: Task) {
    && t.id == body.id
    && t.retailer == body.retailer
    && t.day == body.day
    && t.fileCount == body.fileCount
    && t.formats == body.formats
    && t.loadType == body.loadType
    && t.link == body.link
    && t.username == body.username
    && t.password == body.password
    && t.files == body.files
  }

  /** `{...taskData, completed: false, createdAt: new Date(), updatedAt: new Date()}`:
      the overrides come after the spread, so they win. */
  function Stamp(body: TaskBody, createdAt: int, updatedAt: int): (t: Task)
    ensures ClientFieldsKept(body, t)
    ensures !t.completed
    ensures t.createdAt == createdAt && t.updatedAt == updatedAt
  {
    Task(body.id, body.retailer, body.day, body.fileCount, body.formats, body.loadType,
         body.link, body.username, body.password, body.files,
         false, createdAt, updatedAt)
  }

  /** Whatever the body says about `completed` and the timestamps is
      ignored: two bodies agreeing on the client fields stamp the same record. */
  lemma StampIgnoresOverriddenFields(b1: TaskBody, b2: TaskBody, createdAt: int, updatedAt: int)
    requires b1.(completed := None, createdAt := None, updatedAt := None) ==
             b2.(completed := None, createdAt := None, updatedAt := None)
    ensures Stamp(b1, createdAt, updatedAt) == Stamp(b2, createdAt, updatedAt)
  {
  }

  /** `POST /api/tasks`. `body` is `None` when the request body does not
      parse; `clock1` and `clock2` are the two reads of the clock. */
  method Post(store: TaskCollection, body: Option<TaskBody>, clock1: int, clock2: int, connected: bool)
    returns (resp: Response)
    requires store.Valid()
    modifies store
    ensures store.Valid()
    ensures resp.status == 200 <==>
              connected && body.Some? && (body.value.id.None? || body.value.id.value !in old(IdSet(store.docs)))
    ensures resp.status != 200 ==> resp == Response(500, Error(CreateFailed)) && store.docs == old(store.docs)
    ensures resp.status == 200 ==>
              && resp.body.Created?
              && resp.body.task.id.Some?
              && resp.body.task.id.value !in old(IdSet(store.docs))
              && resp.body.task == Stamp(body.value, clock1, clock2).(id := resp.body.task.id)
              && store.docs == old(store.docs) + [resp.body.task]
    ensures resp.status == 200 && body.value.id.Some? ==> resp.body.task.id == body.value.id
    ensures resp.status == 200 && body.value.id.None? ==> resp.body.task.id == Some(HexId(old(store.nextId)))
  {
    if !connected || body.None? {
      return Response(500, Error(CreateFailed));
    }
    var task := Stamp(body.value, clock1, clock2);
    var insertedId := store.InsertOne(task);
    if insertedId.None? {
      return Response(500, Error(CreateFailed));
    }
    resp := Response(200, Created(task.(id := insertedId)));
  }
}
