/** `GET /api/tasks` and `POST /api/tasks`. The listing builds a filter
    and an ordering from the query string, whitelisting every value; the
    creation checks authentication, then the rate limit, then the body. */
module TasksRoute {
  import opened Wrappers
  import opened Strings
  import opened Json
  import opened Domain
  import opened ApiUtils
  import opened RateLimit
  import opened Store
  import opened Auth
  import opened ValidationErrors
  import opened Validations
  import LoginRoute

  const NotAuthenticated: Response := ApiError("Not authenticated", 401)
  const TooManyRequests: Response := ApiError("Too many requests. Please try again later.", 429)

  // ─── GET ──────────────────────────────────────────────

  /** The columns a listing may be sorted on. */
  const SortFields: seq<string> := ["createdAt", "updatedAt", "dueDate", "priority", "status", "title"]

  /** The `where` of the listing: always the user, and a status and a
      priority only when the query names a valid one. */
  datatype Filter = Filter(userId: string, status: Option<Status>, priority: Option<Priority>)

  datatype ListQuery = ListQuery(filter: Filter, sortField: string, ascending: bool)

  /** `searchParams.get(name)`. */
  function Param(params: map<string, string>, name: string): Option<string>
  {
    if name in params then Some(params[name]) else None
  }

  /** `searchParams.get("sortBy") || "createdAt"`, then the whitelist. */
  function SortFieldFor(sortBy: Option<string>): (field: string)
    ensures field in SortFields
    ensures field == (if sortBy.Some? && sortBy.value in SortFields then sortBy.value else "createdAt")
  {
    var requested := if sortBy.Some? && sortBy.value != "" then sortBy.value else "createdAt";
    if requested in SortFields then requested else "createdAt"
  }

  /** The filter and ordering of a listing for `userId`. */
  function BuildQuery(userId: string, params: map<string, string>): (q: ListQuery)
    ensures q.filter.userId == userId
    ensures q.filter.status.Some? <==> Param(params, "status").Some? && Param(params, "status").value in StatusNames
    ensures q.filter.status.Some? ==> StatusName(q.filter.status.value) == params["status"]
    ensures q.filter.priority.Some? <==> Param(params, "priority").Some? && Param(params, "priority").value in PriorityNames
    ensures q.filter.priority.Some? ==> PriorityName(q.filter.priority.value) == params["priority"]
    ensures q.sortField in SortFields
    ensures q.ascending <==> Param(params, "order") == Some("asc")
  {
    var status := Param(params, "status");
    var priority := Param(params, "priority");
    var sortBy := Param(params, "sortBy");
    var order := Param(params, "order");
    ListQuery(
      Filter(userId,
        if status.Some? && status.value != "" && status.value in StatusNames then StatusFromName(status.value) else None,
        if priority.Some? && priority.value != "" && priority.value in PriorityNames then PriorityFromName(priority.value) else None),
      SortFieldFor(sortBy),
      order == Some("asc"))
  }

  /** Whether a stored task is in a listing with this filter. */
  predicate Selects(filter: Filter, t: Task)
  {
    t.userId == filter.userId &&
    (filter.status.Some? ==> t.status == filter.status.value) &&
    (filter.priority.Some? ==> t.priority == filter.priority.value)
  }

  datatype Listing = Rejected(response: Response) | Listed(query: ListQuery)

  /** `GET`: 401 without a current user, otherwise the query it runs (no
      rate limit on this route). */
  function Get(cookies: map<string, Cookie>, users: seq<User>, c: Crypto, now: int, params: map<string, string>): (r: Listing)
    ensures r.Rejected? <==> GetCurrentUser(cookies, users, c, now).None?
    ensures r.Rejected? ==> r.response == NotAuthenticated
    ensures r.Listed? ==> r.query == BuildQuery(GetCurrentUser(cookies, users, c, now).value.id, params)
  {
    match GetCurrentUser(cookies, users, c, now)
    case None => Rejected(NotAuthenticated)
    case Some(user) => Listed(BuildQuery(user.id, params))
  }

  /** A listing never shows another user's task, whatever the query string. */
  lemma ListingIsOwnTasksOnly(cookies: map<string, Cookie>, users: seq<User>, c: Crypto, now: int,
                              params: map<string, string>, t: Task)
    requires Get(cookies, users, c, now, params).Listed?
    requires Selects(Get(cookies, users, c, now, params).query.filter, t)
    ensures t.userId == GetCurrentUser(cookies, users, c, now).value.id
  {
  }

  /** Unknown sort fields and order words fall back to the defaults. */
  lemma UnknownSortFallsBack(userId: string, params: map<string, string>)
    requires "sortBy" in params && params["sortBy"] !in SortFields
    requires "order" in params && params["order"] != "asc"
    ensures BuildQuery(userId, params).sortField == "createdAt"
    ensures !BuildQuery(userId, params).ascending
  {
  }

  // ─── POST ─────────────────────────────────────────────

  /** The rate-limit key of task creation, shared with the meeting
      confirmation route. */
  function TasksKey(forwardedFor: Option<string>): string
  {
    "tasks:" + GetClientIp(forwardedFor)
  }

  function OptionOf(v: Nullable<string>): Option<string>
  {
    if v.Value? then Some(v.value) else None
  }

  /** The task stored for a valid body: the parsed fields and the current user. */
  function TaskFromInput(input: CreateTaskInput, userId: string): (t: Task)
    ensures t.userId == userId && t.title == input.title && t.status == input.status
    ensures t.priority == input.priority && t.dueDate == input.dueDate && t.sourceTranscriptId.None?
    ensures t.description == OptionOf(input.description)
  {
    Task(userId, input.title, OptionOf(input.description), input.status, input.priority, input.dueDate, None)
  }

  function TaskJson(t: Task): Json
  {
    JObj(map[
      "userId" := JStr(t.userId), "title" := JStr(t.title), "description" := NullableStr(t.description),
      "status" := JStr(StatusName(t.status)), "priority" := JStr(PriorityName(t.priority)),
      "dueDate" := NullableStr(t.dueDate), "sourceTranscriptId" := NullableStr(t.sourceTranscriptId)])
  }

  /** Whether a task-creating request gets past authentication and the
      rate limit of task creation. */
  predicate Admitted(entries: map<string, Entry>, users: seq<User>, cookies: map<string, Cookie>,
                     c: Crypto, now: int, forwardedFor: Option<string>)
  {
    GetCurrentUser(cookies, users, c, now).Some? && Step(entries, TasksKey(forwardedFor), ApiRateLimit, now).1.success
  }

  method Post(limiter: RateLimiter, db: Db, cookies: map<string, Cookie>, c: Crypto, f: Formats,
              forwardedFor: Option<string>, body: Option<Json>, now: int) returns (resp: Response)
    modifies limiter, db
    ensures db.users == old(db.users) && db.refreshTokens == old(db.refreshTokens) && db.transcripts == old(db.transcripts)
    ensures GetCurrentUser(cookies, old(db.users), c, now).None? ==>
      resp == NotAuthenticated && limiter.entries == old(limiter.entries)
    ensures GetCurrentUser(cookies, old(db.users), c, now).Some? ==>
      limiter.entries == Step(old(limiter.entries), TasksKey(forwardedFor), ApiRateLimit, now).0
    ensures GetCurrentUser(cookies, old(db.users), c, now).Some? && !Step(old(limiter.entries), TasksKey(forwardedFor), ApiRateLimit, now).1.success ==>
      resp == TooManyRequests
    ensures Admitted(old(limiter.entries), old(db.users), cookies, c, now, forwardedFor) && body.None? ==>
      resp == LoginRoute.Unexpected
    ensures (Admitted(old(limiter.entries), old(db.users), cookies, c, now, forwardedFor) && body.Some? &&
             CreateTaskSchema(body.value, f).Invalid?) ==>
      resp == ApiError("Validation failed", 400, Some(Grouped(IssuesOf(CreateTaskSchema(body.value, f)))))
    ensures resp.status != 201 ==> db.tasks == old(db.tasks)
    ensures resp.status == 201 <==>
      Admitted(old(limiter.entries), old(db.users), cookies, c, now, forwardedFor) &&
      body.Some? && CreateTaskSchema(body.value, f).Valid?
    ensures resp.status == 400 ==>
      body.Some? && resp == ApiError("Validation failed", 400, Some(Grouped(IssuesOf(CreateTaskSchema(body.value, f)))))
    ensures resp.status == 201 ==>
      var t := TaskFromInput(CreateTaskSchema(body.value, f).value, GetCurrentUser(cookies, old(db.users), c, now).value.id);
      db.tasks == old(db.tasks) + [t] && resp == ApiSuccess(JObj(map["task" := TaskJson(t)]), 201)
  {
    var user := GetCurrentUser(cookies, db.users, c, now);
    if user.None? {
      return NotAuthenticated;
    }
    var limit := limiter.Check(TasksKey(forwardedFor), ApiRateLimit, now);
    if !limit.success {
      return TooManyRequests;
    }
    if body.None? {
      return LoginRoute.Unexpected;
    }
    var parsed := CreateTaskSchema(body.value, f);
    if parsed.Invalid? {
      var errors := GroupIssues(parsed.issues);
      return ApiError("Validation failed", 400, Some(errors));
    }
    var task := TaskFromInput(parsed.value, user.value.id);
    var _ := db.CreateTasks([task]);
    resp := ApiSuccess(JObj(map["task" := TaskJson(task)]), 201);
  }
}
