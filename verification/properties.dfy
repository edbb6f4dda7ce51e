/** Properties of the claim workflow across requests: the invariant every
    route keeps, the daily cap under sequential requests, the shape of a
    claim's status history, the compensating revert of a failed approval, and
    the wallet summary checked against an order-independent reference. */
module ServiceProperties {
  import opened Wrappers
  import opened Listing
  import opened Store
  import opened ClaimService

  /** One request to the backend's routes. */
  datatype Request =
    | PostSession(upload: SessionUpload)
    | GetSessionById(sessionId: int)
    | GetDeviceSessions(deviceId: string, limit: Option<int>)
    | PostClaim(claimSessionId: Option<int>, wallet: Option<string>)
    | GetPendingClaims
    | GetWalletClaims(address: string)
    | PostApprove(claimId: int)
    | PostComplete(claimId: int, signedTransaction: Option<string>)
    | PostReject(claimId: int)
    | GetWallet(address: string)

  /** What the outside world contributes to one request: the time, the
      ledger's answer to the mint or signed transaction, and the balance
      query's answer. */
  datatype World = World(clock: Clock, ledger: LedgerOutcome, balance: Option<real>)

  /** Routes a request to its handler. */
  function Handle(db: Db, cfg: Config, req: Request, w: World): (r: Outcome)
    ensures !(req.PostSession? || req.PostClaim? || req.PostApprove? || req.PostComplete? || req.PostReject?) ==>
      r.db == db
    ensures Valid(db) ==> Valid(r.db)
  {
    match req
    case PostSession(u) => UploadSession(db, u)
    case GetSessionById(id) => Outcome(db, FetchSession(db, id))
    case GetDeviceSessions(d, limit) => Outcome(db, ListDeviceSessions(db, d, limit))
    case PostClaim(sid, wallet) => SubmitClaim(db, cfg, w.clock, sid, wallet, w.ledger)
    case GetPendingClaims => Outcome(db, ListPending(db))
    case GetWalletClaims(a) => Outcome(db, ListWalletClaims(db, a))
    case PostApprove(id) => ApproveClaim(db, w.clock, id, w.ledger)
    case PostComplete(id, tx) => CompleteClaim(db, w.clock, id, tx, w.ledger)
    case PostReject(id) => RejectClaim(db, w.clock, id)
    case GetWallet(a) => Outcome(db, WalletInfoFor(db, a, w.balance))
  }

  /** The store after serving `reqs` one after another. */
  function Run(db: Db, cfg: Config, reqs: seq<(Request, World)>): Db
    decreases |reqs|
  {
    if reqs == [] then db
    else Run(Handle(db, cfg, reqs[0].0, reqs[0].1).db, cfg, reqs[1..])
  }

  // -------------------------------------------------------------- invariant

  /** What every stored claim satisfies between requests when the
      configuration does not change: it refers to an existing session whose
      step count it copied, that count met the minimum, the reward is the
      exact product with the rate, it is never left `approved`, it carries a
      completion time exactly when completed, and only a completed claim can
      carry a digest. */
  ghost predicate ClaimConsistent(cfg: Config, db: Db, c: Claim) {
    && c.sessionId in db.sessions
    && c.steps == db.sessions[c.sessionId].totalSteps
    && c.steps >= cfg.minSteps
    && c.rewardAmount == c.steps * cfg.rewardPerStep
    && c.userWallet != ""
    && c.status != Approved
    && (c.completedAt.Some? <==> c.status == Completed)
    && (c.status != Completed ==> c.txDigest.None?)
  }

  ghost predicate Inv(cfg: Config, db: Db) {
    && Valid(db)
    && forall id :: id in db.claims ==> ClaimConsistent(cfg, db, db.claims[id])
  }

  lemma EmptyInv(cfg: Config)
    ensures Inv(cfg, Empty)
  {
  }

  /** Claims keep their session reference valid when sessions are only added. */
  lemma SessionsGrow(cfg: Config, db: Db, db': Db)
    requires Inv(cfg, db)
    requires db'.claims == db.claims && Valid(db')
    requires forall sid :: sid in db.sessions ==> sid in db'.sessions && db'.sessions[sid] == db.sessions[sid]
    ensures Inv(cfg, db')
  {
    forall id | id in db'.claims
      ensures ClaimConsistent(cfg, db', db'.claims[id])
    {
      assert ClaimConsistent(cfg, db, db.claims[id]);
    }
  }

  lemma SubmitPreservesInv(db: Db, cfg: Config, clock: Clock, sid: Option<int>, wallet: Option<string>,
                           mint: LedgerOutcome)
    requires Inv(cfg, db)
    ensures Inv(cfg, SubmitClaim(db, cfg, clock, sid, wallet, mint).db)
  {
    var r := SubmitClaim(db, cfg, clock, sid, wallet, mint);
    if SubmitAccepted(db, cfg, clock, sid, wallet) {
      var c := r.response.claim;
      forall id | id in r.db.claims
        ensures ClaimConsistent(cfg, r.db, r.db.claims[id])
      {
        if id != c.id {
          assert r.db.claims[id] == db.claims[id];
          assert ClaimConsistent(cfg, db, db.claims[id]);
        }
      }
    }
  }

  lemma ApprovePreservesInv(db: Db, cfg: Config, clock: Clock, id: int, mint: LedgerOutcome)
    requires Inv(cfg, db)
    ensures Inv(cfg, ApproveClaim(db, clock, id, mint).db)
  {
    var r := ApproveClaim(db, clock, id, mint);
    if id in db.claims && db.claims[id].status == Pending {
      forall k | k in r.db.claims
        ensures ClaimConsistent(cfg, r.db, r.db.claims[k])
      {
        assert ClaimConsistent(cfg, db, db.claims[k]);
      }
    }
  }

  lemma CompletePreservesInv(db: Db, cfg: Config, clock: Clock, id: int, tx: Option<string>, exec: LedgerOutcome)
    requires Inv(cfg, db)
    ensures Inv(cfg, CompleteClaim(db, clock, id, tx, exec).db)
  {
    var r := CompleteClaim(db, clock, id, tx, exec);
    forall k | k in r.db.claims
      ensures ClaimConsistent(cfg, r.db, r.db.claims[k])
    {
      assert ClaimConsistent(cfg, db, db.claims[k]);
    }
  }

  lemma RejectPreservesInv(db: Db, cfg: Config, clock: Clock, id: int)
    requires Inv(cfg, db)
    ensures Inv(cfg, RejectClaim(db, clock, id).db)
  {
    var r := RejectClaim(db, clock, id);
    forall k | k in r.db.claims
      ensures ClaimConsistent(cfg, r.db, r.db.claims[k])
    {
      assert ClaimConsistent(cfg, db, db.claims[k]);
    }
  }

  /** Every route keeps the invariant. */
  lemma HandlePreservesInv(db: Db, cfg: Config, req: Request, w: World)
    requires Inv(cfg, db)
    ensures Inv(cfg, Handle(db, cfg, req, w).db)
  {
    match req
    case PostSession(u) =>
      var r := UploadSession(db, u);
      if UploadComplete(u) {
        SessionsGrow(cfg, db, r.db);
      }
    case PostClaim(sid, wallet) => SubmitPreservesInv(db, cfg, w.clock, sid, wallet, w.ledger);
    case PostApprove(id) => ApprovePreservesInv(db, cfg, w.clock, id, w.ledger);
    case PostComplete(id, tx) => CompletePreservesInv(db, cfg, w.clock, id, tx, w.ledger);
    case PostReject(id) => RejectPreservesInv(db, cfg, w.clock, id);
    case _ =>
  }

  /** Any sequence of requests served under one configuration keeps the invariant. */
  lemma {:induction false} RunPreservesInv(db: Db, cfg: Config, reqs: seq<(Request, World)>)
    requires Inv(cfg, db)
    ensures Inv(cfg, Run(db, cfg, reqs))
    decreases |reqs|
  {
    if reqs != [] {
      HandlePreservesInv(db, cfg, reqs[0].0, reqs[0].1);
      RunPreservesInv(Handle(db, cfg, reqs[0].0, reqs[0].1).db, cfg, reqs[1..]);
    }
  }

  // ------------------------------------------------------------- daily cap

  /** A route that leaves every claim's wallet and creation time alone does
      not change any daily count. */
  lemma TodayIdsFrame(db: Db, db': Db, wallet: string, t: int)
    requires db'.claims.Keys == db.claims.Keys
    requires forall id :: id in db.claims ==>
      db'.claims[id].userWallet == db.claims[id].userWallet && db'.claims[id].createdAt == db.claims[id].createdAt
    ensures TodayClaimIds(db', wallet, t) == TodayClaimIds(db, wallet, t)
  {
    forall id
      ensures id in TodayClaimIds(db', wallet, t) <==> id in TodayClaimIds(db, wallet, t)
    {
      if id in db.claims {
        assert CountsToday(wallet, t, db'.claims[id]) == CountsToday(wallet, t, db.claims[id]);
      }
    }
  }

  /** A new claim adds itself to its wallet's daily count if it was created
      at or after the start of the day, and to no other count. */
  lemma TodayIdsInsert(db: Db, db': Db, c: Claim, wallet: string, t: int)
    requires c.id !in db.claims
    requires db'.claims == db.claims[c.id := c]
    ensures TodayClaimIds(db', wallet, t)
         == TodayClaimIds(db, wallet, t) + (if CountsToday(wallet, t, c) then {c.id} else {})
  {
    forall id
      ensures id in TodayClaimIds(db', wallet, t)
          <==> id in TodayClaimIds(db, wallet, t) + (if CountsToday(wallet, t, c) then {c.id} else {})
    {
      if id in db.claims && id != c.id {
        assert db'.claims[id] == db.claims[id];
      }
    }
  }

  /** An accepted claim raises only its own wallet's count, and only from
      below the cap. */
  lemma SubmitKeepsDailyCap(db: Db, cfg: Config, clock: Clock, sid: Option<int>, who: Option<string>,
                            mint: LedgerOutcome, wallet: string)
    requires Valid(db)
    requires TodayClaimCount(db, wallet, clock.todayStart) <= cfg.maxClaimsPerDay
    ensures TodayClaimCount(SubmitClaim(db, cfg, clock, sid, who, mint).db, wallet, clock.todayStart)
         <= cfg.maxClaimsPerDay
  {
    var t := clock.todayStart;
    var r := SubmitClaim(db, cfg, clock, sid, who, mint);
    if SubmitAccepted(db, cfg, clock, sid, who) {
      var c := r.response.claim;
      TodayIdsInsert(db, r.db, c, wallet, t);
      if CountsToday(wallet, t, c) {
        assert who.value == wallet;
        assert |TodayClaimIds(r.db, wallet, t)| == |TodayClaimIds(db, wallet, t)| + 1;
      } else {
        assert TodayClaimIds(r.db, wallet, t) == TodayClaimIds(db, wallet, t);
      }
    }
  }

  /** One request never lifts a wallet's daily count above the cap, provided
      the request sees the same start of day. */
  lemma HandleKeepsDailyCap(db: Db, cfg: Config, req: Request, w: World, wallet: string)
    requires Valid(db)
    requires TodayClaimCount(db, wallet, w.clock.todayStart) <= cfg.maxClaimsPerDay
    ensures TodayClaimCount(Handle(db, cfg, req, w).db, wallet, w.clock.todayStart) <= cfg.maxClaimsPerDay
  {
    var t := w.clock.todayStart;
    var db' := Handle(db, cfg, req, w).db;
    if req.PostClaim? {
      SubmitKeepsDailyCap(db, cfg, w.clock, req.claimSessionId, req.wallet, w.ledger, wallet);
    } else {
      HandleKeepsClaimOwners(db, cfg, req, w);
      TodayIdsFrame(db, db', wallet, t);
      TodayCountFrame(db, db', wallet, t);
    }
  }

  /** Apart from submitting, no route adds or removes a claim or changes the
      wallet or creation time of one. */
  lemma HandleKeepsClaimOwners(db: Db, cfg: Config, req: Request, w: World)
    requires !req.PostClaim?
    ensures var db' := Handle(db, cfg, req, w).db;
      && db'.claims.Keys == db.claims.Keys
      && forall id :: id in db.claims ==>
           db'.claims[id].userWallet == db.claims[id].userWallet && db'.claims[id].createdAt == db.claims[id].createdAt
  {
  }

  lemma TodayCountFrame(db: Db, db': Db, wallet: string, t: int)
    requires Valid(db) && Valid(db')
    requires TodayClaimIds(db', wallet, t) == TodayClaimIds(db, wallet, t)
    ensures TodayClaimCount(db', wallet, t) == TodayClaimCount(db, wallet, t)
  {
  }

  /** Served one at a time, requests that share a start of day never take a
      wallet past its daily cap, whatever the statuses of its claims. */
  lemma {:induction false} RunKeepsDailyCap(db: Db, cfg: Config, reqs: seq<(Request, World)>, wallet: string, t: int)
    requires Valid(db)
    requires forall i :: 0 <= i < |reqs| ==> reqs[i].1.clock.todayStart == t
    requires TodayClaimCount(db, wallet, t) <= cfg.maxClaimsPerDay
    ensures TodayClaimCount(Run(db, cfg, reqs), wallet, t) <= cfg.maxClaimsPerDay
    decreases |reqs|
  {
    if reqs != [] {
      HandleKeepsDailyCap(db, cfg, reqs[0].0, reqs[0].1, wallet);
      RunKeepsDailyCap(Handle(db, cfg, reqs[0].0, reqs[0].1).db, cfg, reqs[1..], wallet, t);
    }
  }

  // ---------------------------------------------------------- status history

  /** How one request may change the claims table: nothing is deleted, at
      most the next id is added (pending, or completed by the automatic
      mint), and an existing claim either keeps its status or moves to
      completed or rejected; only a claim that was pending can be pending
      afterwards, and no claim is left approved. */
  ghost predicate StatusStep(db: Db, db': Db) {
    && db.claims.Keys <= db'.claims.Keys <= db.claims.Keys + {db.nextClaimId}
    && (forall id :: id in db'.claims && id !in db.claims ==>
          db'.claims[id].status == Pending || db'.claims[id].status == Completed)
    && (forall id :: id in db.claims ==>
          var s, s' := db.claims[id].status, db'.claims[id].status;
          && (s' == s || s' == Completed || s' == Rejected)
          && (s' == Pending ==> s == Pending)
          && s' != Approved)
  }

  /** No stored claim is approved. */
  ghost predicate NoneApproved(db: Db) {
    forall id :: id in db.claims ==> db.claims[id].status != Approved
  }

  lemma HandleStatusStep(db: Db, cfg: Config, req: Request, w: World)
    requires Inv(cfg, db)
    ensures StatusStep(db, Handle(db, cfg, req, w).db)
  {
    assert NoneApproved(db);
    match req
    case PostSession(u) =>
    case PostClaim(sid, who) => SubmitStatusStep(db, cfg, w.clock, sid, who, w.ledger);
    case PostApprove(id) => ApproveStatusStep(db, w.clock, id, w.ledger);
    case PostComplete(id, tx) => CompleteStatusStep(db, w.clock, id, tx, w.ledger);
    case PostReject(id) => RejectStatusStep(db, w.clock, id);
    case _ =>
  }

  /** Only the lifecycle fields (status, digest, completion time) differ. */
  predicate LifecycleOnly(before: Claim, after: Claim) {
    after == before.(status := after.status, txDigest := after.txDigest, completedAt := after.completedAt)
  }

  /** Every claim other than `id` is kept as it was, and none is added or removed. */
  ghost predicate OthersKept(db: Db, db': Db, id: int) {
    && db'.claims.Keys == db.claims.Keys
    && forall k :: k in db.claims && k != id ==> db'.claims[k] == db.claims[k]
  }

  /** A submit keeps every existing claim exactly as it was; only the new
      claim, pending or completed, may appear. */
  lemma SubmitStatusStep(db: Db, cfg: Config, clock: Clock, sid: Option<int>, who: Option<string>,
                         mint: LedgerOutcome)
    requires Valid(db) && NoneApproved(db)
    ensures StatusStep(db, SubmitClaim(db, cfg, clock, sid, who, mint).db)
    ensures var db' := SubmitClaim(db, cfg, clock, sid, who, mint).db;
      forall k :: k in db.claims ==> k in db'.claims && db'.claims[k] == db.claims[k]
  {
  }

  /** Approving touches only the approved claim, and only a pending one: it
      ends completed, or pending again after a failed mint. */
  lemma ApproveStatusStep(db: Db, clock: Clock, id: int, mint: LedgerOutcome)
    requires NoneApproved(db)
    ensures StatusStep(db, ApproveClaim(db, clock, id, mint).db)
    ensures var db' := ApproveClaim(db, clock, id, mint).db;
      && OthersKept(db, db', id)
      && (id in db.claims ==>
            && LifecycleOnly(db.claims[id], db'.claims[id])
            && (db'.claims[id] != db.claims[id] ==>
                  db.claims[id].status == Pending
                  && (db'.claims[id].status == Completed || db'.claims[id].status == Pending)))
  {
  }

  /** Completing touches only the completed claim, which ends completed or unchanged. */
  lemma CompleteStatusStep(db: Db, clock: Clock, id: int, tx: Option<string>, execution: LedgerOutcome)
    requires NoneApproved(db)
    ensures StatusStep(db, CompleteClaim(db, clock, id, tx, execution).db)
    ensures var db' := CompleteClaim(db, clock, id, tx, execution).db;
      && OthersKept(db, db', id)
      && (id in db.claims ==>
            && LifecycleOnly(db.claims[id], db'.claims[id])
            && (db'.claims[id].status == Completed || db'.claims[id] == db.claims[id]))
  {
  }

  /** Rejecting touches only the rejected claim, which ends rejected. */
  lemma RejectStatusStep(db: Db, clock: Clock, id: int)
    requires NoneApproved(db)
    ensures StatusStep(db, RejectClaim(db, clock, id).db)
    ensures var db' := RejectClaim(db, clock, id).db;
      && OthersKept(db, db', id)
      && (id in db.claims ==> LifecycleOnly(db.claims[id], db'.claims[id]) && db'.claims[id].status == Rejected)
  {
  }

  /** Sessions are write-once: no request alters or removes a stored session. */
  lemma HandleKeepsSessions(db: Db, cfg: Config, req: Request, w: World)
    requires Valid(db)
    ensures var db' := Handle(db, cfg, req, w).db;
      forall sid :: sid in db.sessions ==> sid in db'.sessions && db'.sessions[sid] == db.sessions[sid]
  {
  }

  lemma {:induction false} RunKeepsSessions(db: Db, cfg: Config, reqs: seq<(Request, World)>)
    requires Valid(db)
    ensures var db' := Run(db, cfg, reqs);
      forall sid :: sid in db.sessions ==> sid in db'.sessions && db'.sessions[sid] == db.sessions[sid]
    decreases |reqs|
  {
    if reqs != [] {
      var next := Handle(db, cfg, reqs[0].0, reqs[0].1).db;
      HandleKeepsSessions(db, cfg, reqs[0].0, reqs[0].1);
      RunKeepsSessions(next, cfg, reqs[1..]);
    }
  }

  // ------------------------------------------------------------- approvals

  /** A failed approval is fully compensated: the claim is back to pending
      with nothing stamped, so the store is exactly as before the request. */
  lemma FailedApprovalRestores(db: Db, cfg: Config, clock: Clock, id: int, message: string)
    requires Inv(cfg, db)
    ensures ApproveClaim(db, clock, id, Err(message)).db == db
  {
    var r := ApproveClaim(db, clock, id, Err(message));
    if id in db.claims && db.claims[id].status == Pending {
      assert ClaimConsistent(cfg, db, db.claims[id]);
      assert r.db.claims == db.claims;
    }
  }

  /** Without an admin key an accepted claim always stays pending. */
  lemma NoAdminKeySubmitStaysPending(db: Db, cfg: Config, clock: Clock, sid: Option<int>, wallet: Option<string>,
                                     network: LedgerOutcome)
    requires SubmitAccepted(db, cfg, clock, sid, wallet)
    ensures var r := SubmitClaim(db, cfg, clock, sid, wallet, AdminMint(false, network));
      && StatusCode(r.response) == 201
      && r.response.claim.status == Pending
  {
  }

  /** Without an admin key approving changes nothing and answers 500. */
  lemma NoAdminKeyApproveChangesNothing(db: Db, cfg: Config, clock: Clock, id: int, network: LedgerOutcome)
    requires Inv(cfg, db)
    requires id in db.claims && db.claims[id].status == Pending
    ensures var r := ApproveClaim(db, clock, id, AdminMint(false, network));
      r.db == db && StatusCode(r.response) == 500
  {
    FailedApprovalRestores(db, cfg, clock, id, AdminMint(false, network).message);
  }

  // --------------------------------------------------------- wallet summary

  /** The wallet's completed / pending claim ids: the reference the summary
      is checked against. */
  ghost function CompletedIds(db: Db, wallet: string): set<int> {
    set id | id in db.claims && db.claims[id].userWallet == wallet && db.claims[id].status == Completed
  }

  ghost function PendingIds(db: Db, wallet: string): set<int> {
    set id | id in db.claims && db.claims[id].userWallet == wallet && db.claims[id].status == Pending
  }

  predicate CompletedFor(wallet: string, c: Claim) {
    c.userWallet == wallet && c.status == Completed
  }

  function CompletedForWallet(wallet: string): Claim -> bool {
    c => CompletedFor(wallet, c)
  }

  predicate PendingFor(wallet: string, c: Claim) {
    c.userWallet == wallet && c.status == Pending
  }

  function PendingForWallet(wallet: string): Claim -> bool {
    c => PendingFor(wallet, c)
  }

  /** Selecting from the newest-first history counts and sums the same as
      selecting from a plain scan of the table. */
  lemma HistorySelection(db: Db, wallet: string, q: Claim -> bool, pq: Claim -> bool)
    requires forall c :: pq(c) == (OfWallet(wallet, c) && q(c))
    ensures var rows := Rows(db.claims, db.nextClaimId);
      && |Filter(ClaimsByWallet(db, wallet), q)| == |Filter(rows, pq)|
      && SumBy(Filter(ClaimsByWallet(db, wallet), q), RewardOf) == SumBy(Filter(rows, pq), RewardOf)
  {
    var rows := Rows(db.claims, db.nextClaimId);
    var mine := Filter(rows, ForWallet(wallet));
    var history := ClaimsByWallet(db, wallet);
    assert history == SortBy(mine, NewestFirst);
    FilterPermutation(history, mine, q);
    FilterFilter(rows, ForWallet(wallet), q, pq);
    SumByPermutation(Filter(history, q), Filter(mine, q), RewardOf);
    assert |Filter(history, q)| == |multiset(Filter(history, q))| == |multiset(Filter(mine, q))|;
  }

  /** The wallet summary agrees with the claims table: the completed and
      pending counts are the numbers of the wallet's completed and pending
      claims, and the total earned is the sum of the rewards of its
      completed claims only. */
  lemma WalletSummaryMatchesTable(db: Db, address: string, balance: Option<real>)
    requires Valid(db)
    ensures var s := WalletInfoFor(db, address, balance).wallet;
      && s.claimCount == |CompletedIds(db, address)|
      && s.pendingClaims == |PendingIds(db, address)|
      && s.totalEarned == SumBy(Filter(Rows(db.claims, db.nextClaimId), CompletedForWallet(address)), RewardOf)
  {
    CompletedCount(db, address);
    PendingCount(db, address);
    HistorySelection(db, address, IsCompleted, CompletedForWallet(address));
  }

  lemma CompletedCount(db: Db, address: string)
    requires Valid(db)
    ensures |Filter(ClaimsByWallet(db, address), IsCompleted)| == |CompletedIds(db, address)|
  {
    HistorySelection(db, address, IsCompleted, CompletedForWallet(address));
    RowsCount(db.claims, db.nextClaimId, CompletedForWallet(address));
    assert KeysWhere(db.claims, db.nextClaimId, CompletedForWallet(address)) == CompletedIds(db, address);
  }

  lemma PendingCount(db: Db, address: string)
    requires Valid(db)
    ensures |Filter(ClaimsByWallet(db, address), IsPending)| == |PendingIds(db, address)|
  {
    HistorySelection(db, address, IsPending, PendingForWallet(address));
    RowsCount(db.claims, db.nextClaimId, PendingForWallet(address));
    assert KeysWhere(db.claims, db.nextClaimId, PendingForWallet(address)) == PendingIds(db, address);
  }

  /** Under the invariant every completed reward is its steps times the
      rate, so the total earned is the rate times the completed steps. */
  lemma {:induction false} EarnedIsRateTimesSteps(cfg: Config, db: Db, s: seq<Claim>)
    requires Inv(cfg, db)
    requires forall i :: 0 <= i < |s| ==> s[i] in db.claims.Values
    ensures SumBy(s, RewardOf) == cfg.rewardPerStep * SumBy(s, StepsOf)
    decreases |s|
  {
    if s != [] {
      StoredClaimById(db, s[0]);
      assert ClaimConsistent(cfg, db, db.claims[s[0].id]);
      EarnedIsRateTimesSteps(cfg, db, s[1..]);
    }
  }

  function StepsOf(c: Claim): int {
    c.steps
  }

  /** The summary's total earned is the configured rate times the steps of
      the wallet's completed claims. */
  lemma WalletEarnedIsRateTimesSteps(cfg: Config, db: Db, address: string, balance: Option<real>)
    requires Inv(cfg, db)
    ensures WalletInfoFor(db, address, balance).wallet.totalEarned
         == cfg.rewardPerStep * SumBy(Filter(ClaimsByWallet(db, address), IsCompleted), StepsOf)
  {
    var completed := Filter(ClaimsByWallet(db, address), IsCompleted);
    assert forall i :: 0 <= i < |completed| ==> completed[i] in db.claims.Values;
    EarnedIsRateTimesSteps(cfg, db, completed);
  }
}
