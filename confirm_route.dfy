/** `POST /api/meetings/confirm`: turn the confirmed action items of a
    transcript into tasks. Checks run in order: authentication (401), rate
    limit (429, the bucket of task creation), body (400), transcript exists
    (404), transcript is the user's (403). Tasks are created only when all
    pass. */
module ConfirmRoute {
  import opened Wrappers
  import opened Strings
  import opened Json
  import opened Domain
  import opened ApiUtils
  import opened RateLimit
  import opened Store
  import opened Auth
  import opened ValidationErrors
  import opened Validations
  import LoginRoute
  import TasksRoute

  const TranscriptNotFound: Response := ApiError("Transcript not found", 404)
  const NotAuthorized: Response := ApiError("Not authorized", 403)

  /** The task one action item becomes. */
  function ItemToTask(item: ActionItemInput, userId: string, transcriptId: string): (t: Task)
    ensures t.status == Todo && t.userId == userId && t.sourceTranscriptId == Some(transcriptId)
    ensures t.title == item.title && t.description == TasksRoute.OptionOf(item.description)
    ensures t.priority == item.priority && t.dueDate == item.dueDate
  {
    Task(userId, item.title, TasksRoute.OptionOf(item.description), Todo, item.priority, item.dueDate, Some(transcriptId))
  }

  /** `actionItems.map(...)`: one task per item, in item order. */
  function ItemsToTasks(items: seq<ActionItemInput>, userId: string, transcriptId: string): (ts: seq<Task>)
    ensures |ts| == |items|
    ensures forall i :: 0 <= i < |items| ==> ts[i] == ItemToTask(items[i], userId, transcriptId)
  {
    seq(|items|, i requires 0 <= i < |items| => ItemToTask(items[i], userId, transcriptId))
  }

  function Confirmed(count: nat, created: seq<Task>): Response
  {
    ApiSuccess(JObj(map[
      "message" := JStr(NatToString(count) + " tasks created successfully"),
      "tasks" := JArr(seq(|created|, i requires 0 <= i < |created| => TasksRoute.TaskJson(created[i])))]), 201)
  }

  /** Whether the parsed request names a transcript of `userId`. */
  predicate OwnsTranscript(transcripts: seq<Transcript>, transcriptId: string, userId: string)
  {
    FindTranscript(transcripts, transcriptId).Some? && FindTranscript(transcripts, transcriptId).value.userId == userId
  }

  method Post(limiter: RateLimiter, db: Db, cookies: map<string, Cookie>, c: Crypto, f: Formats,
              forwardedFor: Option<string>, body: Option<Json>, now: int) returns (resp: Response)
    modifies limiter, db
    ensures db.users == old(db.users) && db.refreshTokens == old(db.refreshTokens) && db.transcripts == old(db.transcripts)
    ensures GetCurrentUser(cookies, old(db.users), c, now).None? ==>
      resp == TasksRoute.NotAuthenticated && limiter.entries == old(limiter.entries)
    ensures GetCurrentUser(cookies, old(db.users), c, now).Some? ==>
      limiter.entries == Step(old(limiter.entries), TasksRoute.TasksKey(forwardedFor), ApiRateLimit, now).0
    ensures (GetCurrentUser(cookies, old(db.users), c, now).Some? &&
             !Step(old(limiter.entries), TasksRoute.TasksKey(forwardedFor), ApiRateLimit, now).1.success) ==>
      resp == TasksRoute.TooManyRequests
    ensures TasksRoute.Admitted(old(limiter.entries), old(db.users), cookies, c, now, forwardedFor) && body.None? ==>
      resp == LoginRoute.Unexpected
    ensures (TasksRoute.Admitted(old(limiter.entries), old(db.users), cookies, c, now, forwardedFor) && body.Some? &&
             ConfirmActionItemsSchema(body.value, f).Invalid?) ==>
      resp == ApiError("Validation failed", 400, Some(Grouped(IssuesOf(ConfirmActionItemsSchema(body.value, f)))))
    ensures (TasksRoute.Admitted(old(limiter.entries), old(db.users), cookies, c, now, forwardedFor) && body.Some? &&
             ConfirmActionItemsSchema(body.value, f).Valid?) ==>
      var id := ConfirmActionItemsSchema(body.value, f).value.transcriptId;
      (FindTranscript(old(db.transcripts), id).None? ==> resp == TranscriptNotFound) &&
      (FindTranscript(old(db.transcripts), id).Some? &&
       !OwnsTranscript(old(db.transcripts), id, GetCurrentUser(cookies, old(db.users), c, now).value.id) ==>
         resp == NotAuthorized)
    ensures resp.status == 400 ==>
      body.Some? && resp == ApiError("Validation failed", 400, Some(Grouped(IssuesOf(ConfirmActionItemsSchema(body.value, f)))))
    ensures resp.status == 404 ==>
      body.Some? && ConfirmActionItemsSchema(body.value, f).Valid? &&
      FindTranscript(old(db.transcripts), ConfirmActionItemsSchema(body.value, f).value.transcriptId).None?
    ensures resp.status == 403 ==>
      body.Some? && ConfirmActionItemsSchema(body.value, f).Valid? &&
      var id := ConfirmActionItemsSchema(body.value, f).value.transcriptId;
      FindTranscript(old(db.transcripts), id).Some? &&
      !OwnsTranscript(old(db.transcripts), id, GetCurrentUser(cookies, old(db.users), c, now).value.id)
    ensures resp.status != 201 ==> db.tasks == old(db.tasks)
    ensures resp.status == 201 <==>
      GetCurrentUser(cookies, old(db.users), c, now).Some? &&
      Step(old(limiter.entries), TasksRoute.TasksKey(forwardedFor), ApiRateLimit, now).1.success &&
      body.Some? && ConfirmActionItemsSchema(body.value, f).Valid? &&
      OwnsTranscript(old(db.transcripts), ConfirmActionItemsSchema(body.value, f).value.transcriptId,
                     GetCurrentUser(cookies, old(db.users), c, now).value.id)
    ensures resp.status == 201 ==>
      var input := ConfirmActionItemsSchema(body.value, f).value;
      var added := ItemsToTasks(input.actionItems, GetCurrentUser(cookies, old(db.users), c, now).value.id, input.transcriptId);
      db.tasks == old(db.tasks) + added && resp == Confirmed(|added|, added)
  {
    var user := GetCurrentUser(cookies, db.users, c, now);
    if user.None? {
      return TasksRoute.NotAuthenticated;
    }
    var limit := limiter.Check(TasksRoute.TasksKey(forwardedFor), ApiRateLimit, now);
    if !limit.success {
      return TasksRoute.TooManyRequests;
    }
    if body.None? {
      return LoginRoute.Unexpected;
    }
    var parsed := ConfirmActionItemsSchema(body.value, f);
    if parsed.Invalid? {
      var errors := GroupIssues(parsed.issues);
      return ApiError("Validation failed", 400, Some(errors));
    }
    var transcript := FindTranscript(db.transcripts, parsed.value.transcriptId);
    if transcript.None? {
      return TranscriptNotFound;
    }
    if transcript.value.userId != user.value.id {
      return NotAuthorized;
    }
    var added := ItemsToTasks(parsed.value.actionItems, user.value.id, parsed.value.transcriptId);
    var count := db.CreateTasks(added);
    resp := Confirmed(count, added);
  }

  /** Every task a confirmation creates belongs to the confirming user and
      points back at the transcript, whose owner that user is. */
  lemma ConfirmedTasksAreOwned(transcripts: seq<Transcript>, items: seq<ActionItemInput>, userId: string,
                               transcriptId: string, t: Task)
    requires OwnsTranscript(transcripts, transcriptId, userId)
    requires t in ItemsToTasks(items, userId, transcriptId)
    ensures t.userId == userId && t.status == Todo && t.sourceTranscriptId == Some(transcriptId)
    ensures exists tr :: tr in transcripts && tr.id == transcriptId && tr.userId == userId
  {
    var ts := ItemsToTasks(items, userId, transcriptId);
    var i :| 0 <= i < |ts| && ts[i] == t;
  }
}
