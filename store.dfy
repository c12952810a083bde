/** The persistent records the routes read and write (the Prisma models),
    kept in memory: users, refresh-token records, meeting transcripts and
    tasks. The refresh-token records are the session store: a record says
    that the holder of a refresh token whose salted hash is `tokenHash` may
    renew the session of `userId` until `expiresAt`. */
module Store {
  import opened Wrappers
  import opened Domain

  datatype User = User(id: string, email: string, name: string, passwordHash: string)

  datatype RefreshRecord = RefreshRecord(userId: string, tokenHash: string, expiresAt: int)

  datatype Transcript = Transcript(id: string, userId: string)

  /** A stored task. The database's generated id and timestamps are not
      part of the model. */
  datatype Task = Task(
    userId: string, title: string, description: Option<string>,
    status: Status, priority: Priority, dueDate: Option<string>, sourceTranscriptId: Option<string>)

  /** Whether a raw secret is accepted by a salted hash (`bcrypt.compare`). */
  type Matcher = (string, string) -> bool

  // ─── Lookups ──────────────────────────────────────────

  /** `user.findUnique({ where: { email } })`. */
  function FindUserByEmail(users: seq<User>, email: string): (r: Option<User>)
    ensures r.Some? ==> r.value in users && r.value.email == email
    ensures r.None? <==> forall u :: u in users ==> u.email != email
  {
    if users == [] then None
    else if users[0].email == email then Some(users[0])
    else FindUserByEmail(users[1..], email)
  }

  /** `user.findUnique({ where: { id } })`. */
  function FindUserById(users: seq<User>, id: string): (r: Option<User>)
    ensures r.Some? ==> r.value in users && r.value.id == id
    ensures r.None? <==> forall u :: u in users ==> u.id != id
  {
    if users == [] then None
    else if users[0].id == id then Some(users[0])
    else FindUserById(users[1..], id)
  }

  /** `meetingTranscript.findUnique({ where: { id } })`. */
  function FindTranscript(transcripts: seq<Transcript>, id: string): (r: Option<Transcript>)
    ensures r.Some? ==> r.value in transcripts && r.value.id == id
    ensures r.None? <==> forall t :: t in transcripts ==> t.id != id
  {
    if transcripts == [] then None
    else if transcripts[0].id == id then Some(transcripts[0])
    else FindTranscript(transcripts[1..], id)
  }

  /** No two users share an e-mail address (the column is unique). */
  ghost predicate UniqueEmails(users: seq<User>)
  {
    forall i, j :: 0 <= i < j < |users| ==> users[i].email != users[j].email
  }

  // ─── The session store ────────────────────────────────

  /** The records of one user, in store order. */
  function RecordsOf(records: seq<RefreshRecord>, userId: string): (r: seq<RefreshRecord>)
    ensures forall x :: x in r <==> x in records && x.userId == userId
    ensures |r| <= |records|
  {
    if records == [] then []
    else (if records[0].userId == userId then [records[0]] else []) + RecordsOf(records[1..], userId)
  }

  /** `refreshToken.deleteMany({ where: { userId } })`: what is left. */
  function RevokeAll(records: seq<RefreshRecord>, userId: string): (r: seq<RefreshRecord>)
    ensures forall x :: x in r <==> x in records && x.userId != userId
  {
    if records == [] then []
    else (if records[0].userId != userId then [records[0]] else []) + RevokeAll(records[1..], userId)
  }

  /** `refreshToken.findMany({ where: { userId, expiresAt: { gt: now } } })`:
      the candidates a refresh token is checked against. */
  function LiveFor(records: seq<RefreshRecord>, userId: string, now: int): (r: seq<RefreshRecord>)
    ensures forall x :: x in r <==> x in records && x.userId == userId && x.expiresAt > now
  {
    if records == [] then []
    else
      (if records[0].userId == userId && records[0].expiresAt > now then [records[0]] else []) +
      LiveFor(records[1..], userId, now)
  }

  /** Whether some record's hash accepts the raw token. */
  predicate AnyMatch(records: seq<RefreshRecord>, token: string, matches: Matcher)
  {
    exists i :: 0 <= i < |records| && matches(token, records[i].tokenHash)
  }

  /** Rotation, as login and refresh do it: revoke every record of the user,
      then add the new one. */
  function Rotate(records: seq<RefreshRecord>, userId: string, issued: RefreshRecord): (r: seq<RefreshRecord>)
    ensures forall x :: x in r <==> x == issued || (x in records && x.userId != userId)
    ensures |r| >= 1 && r[|r| - 1] == issued
  {
    RevokeAll(records, userId) + [issued]
  }

  lemma {:induction false} RecordsOfAppend(a: seq<RefreshRecord>, b: seq<RefreshRecord>, u: string)
    ensures RecordsOf(a + b, u) == RecordsOf(a, u) + RecordsOf(b, u)
    decreases |a|
  {
    if a == [] {
      assert a + b == b;
    } else {
      assert (a + b)[1..] == a[1..] + b;
      RecordsOfAppend(a[1..], b, u);
    }
  }

  /** Revoking a user's records empties that user's part of the store and
      leaves every other user's records exactly as they were, in order. */
  lemma {:induction false} RevokeAllTouchesOnlyItsUser(records: seq<RefreshRecord>, userId: string, u: string)
    ensures RecordsOf(RevokeAll(records, userId), u) == if u == userId then [] else RecordsOf(records, u)
    decreases |records|
  {
    if records != [] {
      RevokeAllTouchesOnlyItsUser(records[1..], userId, u);
      var head := if records[0].userId != userId then [records[0]] else [];
      RecordsOfAppend(head, RevokeAll(records[1..], userId), u);
    }
  }

  /** After a rotation the user has exactly the new record, and every other
      user keeps theirs. */
  lemma RotateLeavesOne(records: seq<RefreshRecord>, userId: string, issued: RefreshRecord, u: string)
    requires issued.userId == userId
    ensures RecordsOf(Rotate(records, userId, issued), u) == if u == userId then [issued] else RecordsOf(records, u)
  {
    RecordsOfAppend(RevokeAll(records, userId), [issued], u);
    RevokeAllTouchesOnlyItsUser(records, userId, u);
  }

  /** The live records of a user are the live part of that user's records. */
  lemma {:induction false} LiveForOfRecords(records: seq<RefreshRecord>, userId: string, now: int)
    ensures LiveFor(records, userId, now) == LiveFor(RecordsOf(records, userId), userId, now)
    decreases |records|
  {
    if records != [] {
      LiveForOfRecords(records[1..], userId, now);
      var r := RecordsOf(records, userId);
      if records[0].userId == userId {
        assert r == [records[0]] + RecordsOf(records[1..], userId);
        assert r[0] == records[0] && r[1..] == RecordsOf(records[1..], userId);
      } else {
        assert r == RecordsOf(records[1..], userId);
      }
    }
  }

  /** Rotation makes the old refresh token single-use: once the new record's
      hash rejects the old token, no live record of the user accepts it, at
      any later time. */
  lemma RotationIsSingleUse(records: seq<RefreshRecord>, userId: string, issued: RefreshRecord,
                            oldToken: string, matches: Matcher, later: int)
    requires issued.userId == userId
    requires !matches(oldToken, issued.tokenHash)
    ensures !AnyMatch(LiveFor(Rotate(records, userId, issued), userId, later), oldToken, matches)
  {
    var after := Rotate(records, userId, issued);
    LiveForOfRecords(after, userId, later);
    RotateLeavesOne(records, userId, issued, userId);
    var live := LiveFor(after, userId, later);
    assert forall x :: x in live ==> x == issued;
  }

  /** The new token opens the new record until it expires. */
  lemma RotationNewTokenWorks(records: seq<RefreshRecord>, userId: string, issued: RefreshRecord,
                              newToken: string, matches: Matcher, later: int)
    requires issued.userId == userId
    requires matches(newToken, issued.tokenHash) && later < issued.expiresAt
    ensures AnyMatch(LiveFor(Rotate(records, userId, issued), userId, later), newToken, matches)
  {
    var live := LiveFor(Rotate(records, userId, issued), userId, later);
    assert issued in Rotate(records, userId, issued);
    assert issued in live;
    var i :| 0 <= i < |live| && live[i] == issued;
  }

  /** Revoking every record of a user kills every chain of that user: no
      token of theirs refreshes any more. */
  lemma RevokeKillsEveryChain(records: seq<RefreshRecord>, userId: string, token: string, matches: Matcher, later: int)
    ensures LiveFor(RevokeAll(records, userId), userId, later) == []
    ensures !AnyMatch(LiveFor(RevokeAll(records, userId), userId, later), token, matches)
  {
    LiveForOfRecords(RevokeAll(records, userId), userId, later);
    RevokeAllTouchesOnlyItsUser(records, userId, userId);
  }

  // ─── The database ─────────────────────────────────────

  /** The database, as the routes see it: tables updated in place. */
  class Db {
    var users: seq<User>
    var refreshTokens: seq<RefreshRecord>
    var transcripts: seq<Transcript>
    var tasks: seq<Task>

    constructor (users0: seq<User>, refreshTokens0: seq<RefreshRecord>, transcripts0: seq<Transcript>, tasks0: seq<Task>)
      ensures users == users0 && refreshTokens == refreshTokens0
      ensures transcripts == transcripts0 && tasks == tasks0
    {
      users, refreshTokens, transcripts, tasks := users0, refreshTokens0, transcripts0, tasks0;
    }

    /** `refreshToken.deleteMany({ where: { userId } })`. */
    method DeleteRefreshTokensOf(userId: string)
      modifies this
      ensures refreshTokens == RevokeAll(old(refreshTokens), userId)
      ensures users == old(users) && transcripts == old(transcripts) && tasks == old(tasks)
    {
      refreshTokens := RevokeAll(refreshTokens, userId);
    }

    /** `refreshToken.create({ data })`. */
    method CreateRefreshToken(rec: RefreshRecord)
      modifies this
      ensures refreshTokens == old(refreshTokens) + [rec]
      ensures users == old(users) && transcripts == old(transcripts) && tasks == old(tasks)
    {
      refreshTokens := refreshTokens + [rec];
    }

    /** `user.create({ data })`. */
    method CreateUser(user: User)
      modifies this
      ensures users == old(users) + [user]
      ensures refreshTokens == old(refreshTokens) && transcripts == old(transcripts) && tasks == old(tasks)
    {
      users := users + [user];
    }

    /** `task.create` and `task.createMany`: the count is the number added. */
    method CreateTasks(added: seq<Task>) returns (count: nat)
      modifies this
      ensures tasks == old(tasks) + added && count == |added|
      ensures users == old(users) && refreshTokens == old(refreshTokens) && transcripts == old(transcripts)
    {
      tasks := tasks + added;
      count := |added|;
    }
  }
}
