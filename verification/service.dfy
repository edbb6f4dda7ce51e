/** The route handlers of the backend (backend/src/server.ts) as pure
    transitions: each takes the store, the request's inputs, the clock and the
    ledger's answer, and returns the new store with the HTTP response. */
module ClaimService {
  import opened Wrappers
  import opened Listing
  import opened Store

  /** The claim rules read from the environment: minimum steps per claim,
      claims per wallet per day, base units of reward per step. */
  datatype Config = Config(minSteps: int, maxClaimsPerDay: int, rewardPerStep: int)

  /** The time of a request: epoch seconds (claim creation), epoch
      milliseconds (completion stamp) and the start of the local day in epoch
      seconds (daily limit). */
  datatype Clock = Clock(nowSec: int, nowMs: int, todayStart: int)

  /** What the ledger answered to a mint or to a signed transaction. */
  datatype LedgerOutcome = Ok(digest: string) | Err(message: string)

  /** The admin mint: with no admin key configured it fails before reaching
      the network. */
  function AdminMint(keyConfigured: bool, network: LedgerOutcome): (r: LedgerOutcome)
    ensures !keyConfigured ==> r.Err?
    ensures keyConfigured ==> r == network
  {
    if keyConfigured then network else Err("Admin private key not configured")
  }

  datatype Failure =
    | MissingFields
    | SessionNotFound
    | BelowMinimum(required: int, yourSteps: int)
    | DailyLimitReached(maxClaims: int)
    | ClaimNotFound
    | AlreadyDecided(current: Status)
    | MissingSignedTransaction
    | LedgerFailure(message: string)

  /** The wallet figures of `GET /api/wallet/:address`; `totalEarned` is in
      base units. */
  datatype WalletSummary = WalletSummary(
    address: string,
    balance: real,
    totalEarned: int,
    claimCount: nat,
    pendingClaims: nat)

  datatype Response =
    | Error(failure: Failure)
    | SessionCreated(session: Session)
    | SessionFound(session: Session)
    | SessionList(sessions: seq<Session>)
    | ClaimCreated(claim: Claim, mint: LedgerOutcome)
    | ClaimList(claims: seq<Claim>)
    | Minted(txDigest: string, claimId: int)
    | ClaimCompleted(txDigest: string)
    | ClaimRejected
    | WalletInfo(wallet: WalletSummary)

  function StatusCode(r: Response): int {
    match r
    case Error(f) =>
      (match f
       case MissingFields => 400
       case SessionNotFound => 404
       case BelowMinimum(_, _) => 400
       case DailyLimitReached(_) => 429
       case ClaimNotFound => 404
       case AlreadyDecided(_) => 400
       case MissingSignedTransaction => 400
       case LedgerFailure(_) => 500)
    case SessionCreated(_) => 201
    case ClaimCreated(_, _) => 201
    case _ => 200
  }

  datatype Outcome = Outcome(db: Db, response: Response)

  /** JavaScript truthiness of an optional string / number field. */
  predicate Given(s: Option<string>) {
    s.Some? && s.value != ""
  }

  predicate GivenNumber(n: Option<int>) {
    n.Some? && n.value != 0
  }

  function RealOrZero(x: Option<real>): real {
    if x.Some? then x.value else 0.0
  }

  // ---------------------------------------------------------------- sessions

  /** The body of `POST /api/sessions`. `sessionData` is the payload already
      serialised as JSON text. */
  datatype SessionUpload = SessionUpload(
    deviceId: Option<string>,
    startTime: Option<int>,
    endTime: Option<int>,
    totalSteps: Option<int>,
    totalDistance: Option<real>,
    avgCadence: Option<real>,
    caloriesBurned: Option<real>,
    sessionData: Option<string>)

  predicate UploadComplete(u: SessionUpload) {
    Given(u.deviceId) && GivenNumber(u.startTime) && GivenNumber(u.endTime) && u.totalSteps.Some?
  }

  /** `POST /api/sessions`. */
  function UploadSession(db: Db, u: SessionUpload): (r: Outcome)
    ensures !UploadComplete(u) ==> r == Outcome(db, Error(MissingFields))
    ensures UploadComplete(u) ==>
      && StatusCode(r.response) == 201
      && r.response.SessionCreated?
      && var s := r.response.session;
      && r.db.sessions == db.sessions[s.id := s]
      && (Valid(db) ==> s.id !in db.sessions)
      && s.deviceId == u.deviceId.value
      && s.startTime == u.startTime.value
      && s.endTime == u.endTime.value
      && s.totalSteps == u.totalSteps.value
      && s.totalDistance == RealOrZero(u.totalDistance)
      && s.avgCadence == RealOrZero(u.avgCadence)
      && s.caloriesBurned == RealOrZero(u.caloriesBurned)
      && s.sessionData == (if Given(u.sessionData) then u.sessionData.value else "{}")
    ensures r.db.claims == db.claims
    ensures Valid(db) ==> Valid(r.db)
  {
    if !UploadComplete(u) then Outcome(db, Error(MissingFields))
    else
      var fields := Session(0, u.deviceId.value, u.startTime.value, u.endTime.value, u.totalSteps.value,
                            RealOrZero(u.totalDistance), RealOrZero(u.avgCadence), RealOrZero(u.caloriesBurned),
                            if Given(u.sessionData) then u.sessionData.value else "{}");
      var (db1, id) := CreateSession(db, fields);
      Outcome(db1, SessionCreated(GetSession(db1, id).value))
  }

  /** `GET /api/sessions/:id`. */
  function FetchSession(db: Db, id: int): (r: Response)
    ensures id !in db.sessions <==> r == Error(SessionNotFound)
    ensures id in db.sessions ==> r == SessionFound(db.sessions[id]) && StatusCode(r) == 200
  {
    match GetSession(db, id)
    case None => Error(SessionNotFound)
    case Some(s) => SessionFound(s)
  }

  /** The `limit` query parameter: `parseInt(limit) || 20`, so an absent,
      unparsable or zero limit means 20. */
  function DeviceLimit(limit: Option<int>): (n: int)
    ensures n != 0
    ensures GivenNumber(limit) ==> n == limit.value
    ensures !GivenNumber(limit) ==> n == 20
  {
    if GivenNumber(limit) then limit.value else 20
  }

  /** `GET /api/sessions/device/:device_id`. */
  function ListDeviceSessions(db: Db, deviceId: string, limit: Option<int>): (r: Response)
    ensures r.SessionList?
    ensures !GivenNumber(limit) ==> |r.sessions| <= 20
    ensures GivenNumber(limit) && limit.value > 0 ==> |r.sessions| <= limit.value
    ensures forall i :: 0 <= i < |r.sessions| ==>
      r.sessions[i].deviceId == deviceId && r.sessions[i] in db.sessions.Values
    ensures forall i, j :: 0 <= i < j < |r.sessions| ==> r.sessions[i].startTime >= r.sessions[j].startTime
    ensures Valid(db) ==> NoDup(r.sessions)
    ensures Valid(db) ==> forall id :: id in db.sessions && db.sessions[id].deviceId == deviceId
                                       && db.sessions[id] !in r.sessions ==>
      && |r.sessions| == DeviceLimit(limit)
      && forall i :: 0 <= i < |r.sessions| ==> r.sessions[i].startTime >= db.sessions[id].startTime
  {
    SessionList(SessionsByDevice(db, deviceId, DeviceLimit(limit)))
  }

  // ------------------------------------------------------------------ claims

  /** The guards of `POST /api/claims` that run before any write. */
  predicate SubmitAccepted(db: Db, cfg: Config, clock: Clock, sessionId: Option<int>, wallet: Option<string>) {
    && GivenNumber(sessionId)
    && Given(wallet)
    && sessionId.value in db.sessions
    && db.sessions[sessionId.value].totalSteps >= cfg.minSteps
    && TodayClaimCount(db, wallet.value, clock.todayStart) < cfg.maxClaimsPerDay
  }

  /** `POST /api/claims`: validate, record a pending claim worth
      `steps * rewardPerStep`, then try the automatic mint; a failed mint
      leaves the claim pending and the request still succeeds. */
  function SubmitClaim(db: Db, cfg: Config, clock: Clock, sessionId: Option<int>, wallet: Option<string>,
                       mint: LedgerOutcome): (r: Outcome)
    ensures !GivenNumber(sessionId) || !Given(wallet) ==> r == Outcome(db, Error(MissingFields))
    ensures GivenNumber(sessionId) && Given(wallet) && sessionId.value !in db.sessions ==>
      r == Outcome(db, Error(SessionNotFound))
    ensures GivenNumber(sessionId) && Given(wallet) && sessionId.value in db.sessions
            && db.sessions[sessionId.value].totalSteps < cfg.minSteps ==>
      r == Outcome(db, Error(BelowMinimum(cfg.minSteps, db.sessions[sessionId.value].totalSteps)))
    ensures GivenNumber(sessionId) && Given(wallet) && sessionId.value in db.sessions
            && db.sessions[sessionId.value].totalSteps >= cfg.minSteps
            && TodayClaimCount(db, wallet.value, clock.todayStart) >= cfg.maxClaimsPerDay ==>
      r == Outcome(db, Error(DailyLimitReached(cfg.maxClaimsPerDay)))
    ensures SubmitAccepted(db, cfg, clock, sessionId, wallet) ==>
      && StatusCode(r.response) == 201
      && r.response.ClaimCreated?
      && r.response.mint == mint
      && var c := r.response.claim;
      && var steps := db.sessions[sessionId.value].totalSteps;
      && r.db.claims == db.claims[c.id := c]
      && (Valid(db) ==> c.id !in db.claims)
      && c.sessionId == sessionId.value
      && c.userWallet == wallet.value
      && c.steps == steps
      && c.rewardAmount == steps * cfg.rewardPerStep
      && c.createdAt == clock.nowSec
      && (mint.Ok? ==> c.status == Completed && c.txDigest == StoredDigest(Some(mint.digest))
                       && c.completedAt == Some(clock.nowMs))
      && (mint.Err? ==> c.status == Pending && c.txDigest == None && c.completedAt == None)
    ensures r.db.sessions == db.sessions
    ensures Valid(db) ==> Valid(r.db)
  {
    if !GivenNumber(sessionId) || !Given(wallet) then Outcome(db, Error(MissingFields))
    else
      match GetSession(db, sessionId.value)
      case None => Outcome(db, Error(SessionNotFound))
      case Some(session) =>
        if session.totalSteps < cfg.minSteps then
          Outcome(db, Error(BelowMinimum(cfg.minSteps, session.totalSteps)))
        else if TodayClaimCount(db, wallet.value, clock.todayStart) >= cfg.maxClaimsPerDay then
          Outcome(db, Error(DailyLimitReached(cfg.maxClaimsPerDay)))
        else
          var reward := session.totalSteps * cfg.rewardPerStep;
          var (created, id) := CreateClaim(db, sessionId.value, wallet.value, session.totalSteps, reward,
                                           Pending, clock.nowSec);
          var settled := match mint
            case Ok(digest) => UpdateClaimStatus(created, id, Completed, Some(digest), clock.nowMs)
            case Err(_) => created;
          Outcome(settled, ClaimCreated(GetClaim(settled, id).value, mint))
  }

  /** `GET /api/claims/pending`. */
  function ListPending(db: Db): (r: Response)
    ensures r.ClaimList?
    ensures forall i :: 0 <= i < |r.claims| ==> r.claims[i].status == Pending
    ensures forall i, j :: 0 <= i < j < |r.claims| ==> r.claims[i].createdAt <= r.claims[j].createdAt
    ensures Valid(db) ==> Enumerates(db.claims, r.claims, IsPending)
  {
    ClaimList(PendingClaims(db))
  }

  /** `GET /api/claims/wallet/:address`. */
  function ListWalletClaims(db: Db, address: string): (r: Response)
    ensures r.ClaimList?
    ensures forall i :: 0 <= i < |r.claims| ==> r.claims[i].userWallet == address && r.claims[i] in db.claims.Values
    ensures forall i, j :: 0 <= i < j < |r.claims| ==> r.claims[i].createdAt >= r.claims[j].createdAt
    ensures Valid(db) ==> forall id :: id in db.claims && db.claims[id].userWallet == address ==> db.claims[id] in r.claims
    ensures Valid(db) ==> NoDup(r.claims)
  {
    ClaimList(ClaimsByWallet(db, address))
  }

  /** `POST /api/claims/:id/approve`: only a pending claim may be approved;
      it is marked approved, minted, then completed, and a failed mint sets it
      back to pending and answers 500. */
  function ApproveClaim(db: Db, clock: Clock, id: int, mint: LedgerOutcome): (r: Outcome)
    ensures id !in db.claims ==> r == Outcome(db, Error(ClaimNotFound))
    ensures id in db.claims && db.claims[id].status != Pending ==>
      r == Outcome(db, Error(AlreadyDecided(db.claims[id].status)))
    ensures id in db.claims && db.claims[id].status == Pending ==>
      && r.db.sessions == db.sessions
      && r.db.claims.Keys == db.claims.Keys
      && (forall other :: other in db.claims && other != id ==> r.db.claims[other] == db.claims[other])
      && var before, after := db.claims[id], r.db.claims[id];
      && (mint.Ok? ==>
            && r.response == Minted(mint.digest, id)
            && after == before.(status := Completed, txDigest := StoredDigest(Some(mint.digest)),
                                completedAt := Some(clock.nowMs)))
      && (mint.Err? ==>
            && r.response == Error(LedgerFailure(mint.message))
            && StatusCode(r.response) == 500
            && after == before.(txDigest := None, completedAt := None))
    ensures Valid(db) ==> Valid(r.db)
  {
    match GetClaim(db, id)
    case None => Outcome(db, Error(ClaimNotFound))
    case Some(claim) =>
      if claim.status != Pending then Outcome(db, Error(AlreadyDecided(claim.status)))
      else
        var approved := UpdateClaimStatus(db, id, Approved, None, clock.nowMs);
        match mint
        case Ok(digest) =>
          Outcome(UpdateClaimStatus(approved, id, Completed, Some(digest), clock.nowMs), Minted(digest, id))
        case Err(message) =>
          Outcome(UpdateClaimStatus(approved, id, Pending, None, clock.nowMs), Error(LedgerFailure(message)))
  }

  /** `POST /api/claims/:id/complete`: executes a transaction the user signed
      and marks the claim completed, whatever its status was. */
  function CompleteClaim(db: Db, clock: Clock, id: int, signedTransaction: Option<string>,
                         execution: LedgerOutcome): (r: Outcome)
    ensures !Given(signedTransaction) ==> r == Outcome(db, Error(MissingSignedTransaction))
    ensures Given(signedTransaction) && id !in db.claims ==> r == Outcome(db, Error(ClaimNotFound))
    ensures Given(signedTransaction) && id in db.claims && execution.Err? ==>
      r == Outcome(db, Error(LedgerFailure(execution.message)))
    ensures Given(signedTransaction) && id in db.claims && execution.Ok? ==>
      && r.response == ClaimCompleted(execution.digest)
      && r.db.sessions == db.sessions
      && r.db.claims == db.claims[id := db.claims[id].(status := Completed,
                                                        txDigest := StoredDigest(Some(execution.digest)),
                                                        completedAt := Some(clock.nowMs))]
    ensures Valid(db) ==> Valid(r.db)
  {
    if !Given(signedTransaction) then Outcome(db, Error(MissingSignedTransaction))
    else
      match GetClaim(db, id)
      case None => Outcome(db, Error(ClaimNotFound))
      case Some(_) =>
        match execution
        case Err(message) => Outcome(db, Error(LedgerFailure(message)))
        case Ok(digest) =>
          Outcome(UpdateClaimStatus(db, id, Completed, Some(digest), clock.nowMs), ClaimCompleted(digest))
  }

  /** `POST /api/claims/:id/reject`: rejects any existing claim, whatever its
      status, clearing its digest. */
  function RejectClaim(db: Db, clock: Clock, id: int): (r: Outcome)
    ensures id !in db.claims ==> r == Outcome(db, Error(ClaimNotFound))
    ensures id in db.claims ==>
      && r.response == ClaimRejected
      && r.db.sessions == db.sessions
      && r.db.claims == db.claims[id := db.claims[id].(status := Rejected, txDigest := None, completedAt := None)]
    ensures Valid(db) ==> Valid(r.db)
  {
    match GetClaim(db, id)
    case None => Outcome(db, Error(ClaimNotFound))
    case Some(_) => Outcome(UpdateClaimStatus(db, id, Rejected, None, clock.nowMs), ClaimRejected)
  }

  // ------------------------------------------------------------------ wallet

  function RewardOf(c: Claim): int {
    c.rewardAmount
  }

  /** `GET /api/wallet/:address`: the ledger balance (0 when the balance
      query fails, which the balance helper swallows) and figures aggregated
      from the wallet's claim history. */
  function WalletInfoFor(db: Db, address: string, balance: Option<real>): (r: Response)
    ensures r.WalletInfo?
    ensures r.wallet.address == address
    ensures r.wallet.balance == if balance.Some? then balance.value else 0.0
    ensures r.wallet.claimCount + r.wallet.pendingClaims <= |ClaimsByWallet(db, address)|
  {
    var history := ClaimsByWallet(db, address);
    var completed := Filter(history, IsCompleted);
    FilterDisjoint(history, IsCompleted, IsPending);
    WalletInfo(WalletSummary(
      address,
      if balance.Some? then balance.value else 0.0,
      SumBy(completed, RewardOf),
      |completed|,
      |Filter(history, IsPending)|))
  }
}
