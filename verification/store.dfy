/** The persistence layer of the claim workflow: two tables, sessions and
    claims, each keyed by an auto-increment row id, and the queries and single
    status mutator the route handlers use (backend/src/database.ts). */
module Store {
  import opened Wrappers
  import opened Listing

  /** One uploaded activity session. Distance, cadence and calories are
      floating-point columns in the store. */
  datatype Session = Session(
    id: int,
    deviceId: string,
    startTime: int,
    endTime: int,
    totalSteps: int,
    totalDistance: real,
    avgCadence: real,
    caloriesBurned: real,
    sessionData: string)

  datatype Status = Pending | Approved | Rejected | Completed

  /** One reward claim. `createdAt` is in epoch seconds (the column default),
      `completedAt` in epoch milliseconds (stamped by the status mutator). */
  datatype Claim = Claim(
    id: int,
    sessionId: int,
    userWallet: string,
    steps: int,
    rewardAmount: int,
    status: Status,
    txDigest: Option<string>,
    createdAt: int,
    completedAt: Option<int>)

  /** Both tables, with the next row id each will assign. */
  datatype Db = Db(
    sessions: map<int, Session>,
    claims: map<int, Claim>,
    nextSessionId: int,
    nextClaimId: int)

  /** A freshly created database file: both tables empty, ids start at 1. */
  const Empty := Db(map[], map[], 1, 1)

  /** Auto-increment bookkeeping: every row sits under a positive key below
      the table's next id, and carries that key as its `id`. */
  ghost predicate Valid(db: Db) {
    && db.nextSessionId >= 1
    && db.nextClaimId >= 1
    && (forall id :: id in db.sessions ==> 1 <= id < db.nextSessionId && db.sessions[id].id == id)
    && (forall id :: id in db.claims ==> 1 <= id < db.nextClaimId && db.claims[id].id == id)
  }

  lemma EmptyValid()
    ensures Valid(Empty)
  {
  }

  lemma ValidInjective(db: Db)
    ensures Valid(db) ==> Injective(db.sessions) && Injective(db.claims)
  {
  }

  /** A stored claim is found again under its own id. */
  lemma StoredClaimById(db: Db, c: Claim)
    requires Valid(db)
    requires c in db.claims.Values
    ensures c.id in db.claims && db.claims[c.id] == c
  {
    ClaimInValues(db.claims, c);
  }

  lemma ClaimInValues(m: map<int, Claim>, c: Claim)
    requires c in m.Values
    ensures exists k :: k in m && m[k] == c
  {
    if forall k :: k in m ==> m[k] != c {
      assert false;
    }
  }

  // ---------------------------------------------------------------- sessions

  /** Inserts `s` (its `id` is ignored) and returns the new row id. */
  function CreateSession(db: Db, s: Session): (r: (Db, int))
    ensures Valid(db) ==> Valid(r.0) && r.1 !in db.sessions && r.1 >= 1
    ensures GetSession(r.0, r.1) == Some(s.(id := r.1))
    ensures forall id :: id != r.1 ==> GetSession(r.0, id) == GetSession(db, id)
    ensures r.0.sessions.Keys == db.sessions.Keys + {r.1}
    ensures r.0.claims == db.claims && r.0.nextClaimId == db.nextClaimId
  {
    var id := db.nextSessionId;
    (db.(sessions := db.sessions[id := s.(id := id)], nextSessionId := id + 1), id)
  }

  function GetSession(db: Db, id: int): (r: Option<Session>)
    ensures r.Some? <==> id in db.sessions
    ensures r.Some? ==> r.value == db.sessions[id]
  {
    if id in db.sessions then Some(db.sessions[id]) else None
  }

  predicate OnDevice(deviceId: string, s: Session) {
    s.deviceId == deviceId
  }

  function ForDevice(deviceId: string): Session -> bool {
    s => OnDevice(deviceId, s)
  }

  function NewestStartFirst(s: Session): int {
    -s.startTime
  }

  /** The device's sessions, latest `startTime` first, at most `limit` of
      them; a negative `limit` imposes no bound, as in SQLite. */
  function SessionsByDevice(db: Db, deviceId: string, limit: int): (r: seq<Session>)
    ensures limit >= 0 ==> |r| <= limit
    ensures forall i :: 0 <= i < |r| ==> r[i].deviceId == deviceId && r[i] in db.sessions.Values
    ensures forall i, j :: 0 <= i < j < |r| ==> r[i].startTime >= r[j].startTime
    ensures Valid(db) ==> NoDup(r)
    ensures Valid(db) ==> forall id :: id in db.sessions && db.sessions[id].deviceId == deviceId && db.sessions[id] !in r ==>
      && |r| == limit
      && forall i :: 0 <= i < |r| ==> r[i].startTime >= db.sessions[id].startTime
  {
    var all := Select(db.sessions, db.nextSessionId, ForDevice(deviceId), NewestStartFirst);
    ValidInjective(db);
    Truncate(all, limit)
  }

  /** The first `limit` elements of `s`, or all of them when `limit` is negative. */
  function Truncate<T>(s: seq<T>, limit: int): (r: seq<T>)
    ensures limit >= 0 ==> |r| == if limit < |s| then limit else |s|
    ensures limit < 0 ==> r == s
    ensures r == s[..|r|]
  {
    if 0 <= limit < |s| then s[..limit] else s
  }

  // ------------------------------------------------------------------ claims

  /** Inserts a claim; the store leaves `txDigest` and `completedAt` empty and
      stamps `createdAt` with the insertion time `nowSec`. The session
      reference is not checked here: the only caller inserts a claim for a
      session it has just looked up, and sessions are never deleted. */
  function CreateClaim(db: Db, sessionId: int, wallet: string, steps: int, reward: int,
                       status: Status, nowSec: int): (r: (Db, int))
    ensures Valid(db) ==> Valid(r.0) && r.1 !in db.claims && r.1 >= 1
    ensures GetClaim(r.0, r.1) == Some(Claim(r.1, sessionId, wallet, steps, reward, status, None, nowSec, None))
    ensures forall id :: id != r.1 ==> GetClaim(r.0, id) == GetClaim(db, id)
    ensures r.0.claims.Keys == db.claims.Keys + {r.1}
    ensures r.0.sessions == db.sessions && r.0.nextSessionId == db.nextSessionId
  {
    var id := db.nextClaimId;
    var c := Claim(id, sessionId, wallet, steps, reward, status, None, nowSec, None);
    (db.(claims := db.claims[id := c], nextClaimId := id + 1), id)
  }

  function GetClaim(db: Db, id: int): (r: Option<Claim>)
    ensures r.Some? <==> id in db.claims
    ensures r.Some? ==> r.value == db.claims[id]
  {
    if id in db.claims then Some(db.claims[id]) else None
  }

  predicate IsPending(c: Claim) {
    c.status == Pending
  }

  predicate IsCompleted(c: Claim) {
    c.status == Completed
  }

  predicate OfWallet(wallet: string, c: Claim) {
    c.userWallet == wallet
  }

  function ForWallet(wallet: string): Claim -> bool {
    c => OfWallet(wallet, c)
  }

  function OldestFirst(c: Claim): int {
    c.createdAt
  }

  function NewestFirst(c: Claim): int {
    -c.createdAt
  }

  /** The admin review queue: all pending claims, oldest first. */
  function PendingClaims(db: Db): (r: seq<Claim>)
    ensures forall i :: 0 <= i < |r| ==> r[i].status == Pending && r[i] in db.claims.Values
    ensures forall i, j :: 0 <= i < j < |r| ==> r[i].createdAt <= r[j].createdAt
    ensures Valid(db) ==> Enumerates(db.claims, r, IsPending)
  {
    ValidInjective(db);
    Select(db.claims, db.nextClaimId, IsPending, OldestFirst)
  }

  /** A wallet's claim history, newest first. */
  function ClaimsByWallet(db: Db, wallet: string): (r: seq<Claim>)
    ensures forall i :: 0 <= i < |r| ==> r[i].userWallet == wallet && r[i] in db.claims.Values
    ensures forall i, j :: 0 <= i < j < |r| ==> r[i].createdAt >= r[j].createdAt
    ensures Valid(db) ==> forall id :: id in db.claims && db.claims[id].userWallet == wallet ==> db.claims[id] in r
    ensures Valid(db) ==> NoDup(r)
  {
    ValidInjective(db);
    Select(db.claims, db.nextClaimId, ForWallet(wallet), NewestFirst)
  }

  /** The digest the mutator stores: `txDigest || null`, so an absent or
      empty digest is stored as null. */
  function StoredDigest(tx: Option<string>): (r: Option<string>)
    ensures r.Some? <==> tx.Some? && tx.value != ""
    ensures r.Some? ==> r == tx
  {
    if tx.Some? && tx.value != "" then tx else None
  }

  /** The only claim mutator, unconditional: sets the status and the digest
      (clearing any earlier one when `tx` is absent) and stamps
      `completedAt` with `nowMs` exactly when the new status is completed. A
      missing id changes nothing. */
  function UpdateClaimStatus(db: Db, id: int, status: Status, tx: Option<string>, nowMs: int): (r: Db)
    ensures r.sessions == db.sessions
    ensures r.nextSessionId == db.nextSessionId && r.nextClaimId == db.nextClaimId
    ensures r.claims.Keys == db.claims.Keys
    ensures forall other :: other in db.claims && other != id ==> r.claims[other] == db.claims[other]
    ensures id in db.claims ==>
      var before, after := db.claims[id], r.claims[id];
      && after.status == status
      && (after.txDigest.Some? <==> tx.Some? && tx.value != "")
      && (after.txDigest.Some? ==> after.txDigest == tx)
      && (after.completedAt.Some? <==> status == Completed)
      && after == before.(status := after.status, txDigest := after.txDigest, completedAt := after.completedAt)
    ensures Valid(db) ==> Valid(r)
  {
    if id !in db.claims then db
    else
      var completedAt := if status == Completed then Some(nowMs) else None;
      var c := db.claims[id].(status := status, txDigest := StoredDigest(tx), completedAt := completedAt);
      db.(claims := db.claims[id := c])
  }

  predicate CountsToday(wallet: string, todayStart: int, c: Claim) {
    c.userWallet == wallet && c.createdAt >= todayStart
  }

  /** The ids of the claims the wallet created at or after `todayStart`. */
  ghost function TodayClaimIds(db: Db, wallet: string, todayStart: int): set<int> {
    set id | id in db.claims && CountsToday(wallet, todayStart, db.claims[id])
  }

  function CountsTodayFor(wallet: string, todayStart: int): Claim -> bool {
    c => CountsToday(wallet, todayStart, c)
  }

  /** The number of claims the wallet created at or after `todayStart`,
      whatever their status. */
  function TodayClaimCount(db: Db, wallet: string, todayStart: int): (r: nat)
    ensures Valid(db) ==> r == |TodayClaimIds(db, wallet, todayStart)|
  {
    RowsCount(db.claims, db.nextClaimId, CountsTodayFor(wallet, todayStart));
    TodayIdsInRange(db, wallet, todayStart);
    |Filter(Rows(db.claims, db.nextClaimId), CountsTodayFor(wallet, todayStart))|
  }

  lemma TodayIdsInRange(db: Db, wallet: string, todayStart: int)
    ensures Valid(db) ==>
      KeysWhere(db.claims, db.nextClaimId, CountsTodayFor(wallet, todayStart)) == TodayClaimIds(db, wallet, todayStart)
  {
  }
}
