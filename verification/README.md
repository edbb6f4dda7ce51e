# StepSign claim workflow in Dafny

This project models the backend of the StepSign fitness demo, which turns an
uploaded step-counting session into a token reward. The model covers two
layers:

- **The store** (`backend/src/database.ts`). It has two tables, `sessions`
  and `claims`, keyed by auto-increment row ids. They sit behind inserts,
  lookups, three ordered listings, the single unconditional mutator
  `updateClaimStatus`, and the daily-count query `getTodayClaimCount`.
- **The claim service** (the route handlers of `backend/src/server.ts`).
  It holds the rules for submitting a claim:
  - the session must have at least `MIN_STEPS` steps;
  - the wallet may make at most `MAX_CLAIMS` claims per local day;
  - the reward is `steps * REWARD_PER_STEP` base units.

  It then attempts an automatic mint. The service also implements the admin
  approve path with its compensating revert, completion with a user-signed
  transaction, rejection, and the wallet summary.

Layout:

| file | module | contents |
|---|---|---|
| `wrappers.dfy` | `Wrappers` | `Option`, which stands in for `undefined`/`null` and for a failed lookup |
| `listing.dfy` | `Listing` | a table scan in row-id order, `Filter`, insertion `SortBy`, `SumBy`, and the permutation and counting lemmas that the queries rest on |
| `store.dfy` | `Store` | `Session`, `Claim`, `Status`, the `Db` state, and every store operation |
| `service.dfy` | `ClaimService` | `Config`, `Clock`, `LedgerOutcome`, `Response`, and one pure transition per route: `Db × inputs × ledger answer → (Db, Response)` |
| `properties.dfy` | `ServiceProperties` | a request dispatcher, runs of requests, and the cross-request properties |

The outside world is passed in as parameters:
- **The ledger** is a `LedgerOutcome`, either `Ok(digest)` or `Err(message)`.
  `AdminMint` turns every mint into a failure when no admin key is
  configured (backend/src/sui-client.ts:130-133).
- **The clock** is a `Clock`:
  - `nowSec` is the `created_at` default, in epoch seconds;
  - `nowMs` is the `completed_at` stamp, taken from `Date.now()`, so it is in
    milliseconds;
  - `todayStart` is the start of the local day, in seconds.
- **The wallet balance** is an `Option<real>`.
- **The environment configuration** is a `Config` record. The code's
  defaults are 10 minimum steps, 3 claims per day and 1,000,000 base units
  per step (backend/src/server.ts:120-122).

JavaScript truthiness is modelled where the guards depend on it. A
`session_id` of 0, an empty wallet, a `start_time`/`end_time` of 0, and an
empty `signedTransaction` all count as missing. `updateClaimStatus` stores
`txDigest || null`, so an empty digest is stored as null (`StoredDigest`).

Behaviour of the code worth knowing, all modelled as written:
- **The balance query never fails the wallet summary.** `getStepBalance`
  catches any error and returns 0 (backend/src/sui-client.ts:61-64). So
  `WalletInfoFor` reports a balance of 0 when the query fails.
- **The digest is written whatever the status.** `updateClaimStatus` always
  writes the given digest, or null (backend/src/database.ts:153-161). Setting
  a non-completed status with no digest therefore clears an earlier one.
- **Approving a claim that is not pending answers 400**
  (backend/src/server.ts:228-230). The failure is named `AlreadyDecided`
  after the message "Claim is already …".
- **The session listing limit has two unusual cases.**
  - The route computes `parseInt(limit) || 20` (backend/src/server.ts:90),
    so a limit of 0 means 20.
  - SQLite treats a negative `LIMIT` as no bound.

  `Store.SessionsByDevice` and `ClaimService.ListDeviceSessions` state both
  cases.
- **Only approve checks the current status.** Complete and reject do not
  (backend/src/server.ts:270-321). A completed claim can be rejected, which
  clears its digest, and a rejected claim can be completed.
  `HandleStatusStep` states exactly the transitions the routes allow.

SQL `ORDER BY` leaves the order of equal keys open. The listing contracts
state only the order the query requires. The model's concrete choice is
insertion order by row id.

## Model

| member | source | states |
|---|---|---|
| `Store.CreateSession` | backend/src/database.ts:81-97 | The returned id was not in the table before, given well-formed auto-increment state. Looking it up returns exactly the inserted fields with that id. Every other session and the whole claims table are unchanged. |
| `Store.GetSession` | backend/src/database.ts:99-102 | Finds a session exactly when a row with that id exists, and then returns that row. |
| `Store.SessionsByDevice` | backend/src/database.ts:104-112 | Lists only the device's stored sessions, each at most once, latest `start_time` first. There are at most `limit` of them when `limit` is non-negative and no bound when it is negative. A matching session is left out only when the list is full and it starts no later than every listed one. |
| `Store.CreateClaim` | backend/src/database.ts:115-128 | Returns a fresh id. Looking it up returns the inserted session, wallet, steps, reward and status, with no digest, no completion time, and `created_at` set to the insertion time. Nothing else changes. |
| `Store.GetClaim` | backend/src/database.ts:130-133 | Finds a claim exactly when a row with that id exists, and then returns that row. |
| `Store.PendingClaims` | backend/src/database.ts:135-142 | Lists exactly the stored claims with status pending, each once, oldest `created_at` first. |
| `Store.ClaimsByWallet` | backend/src/database.ts:144-151 | Lists exactly the wallet's stored claims, each once, newest `created_at` first. |
| `Store.StoredDigest` | backend/src/database.ts:160 | The stored digest is null exactly when the given one is absent or empty. Otherwise it is the given one. |
| `Store.UpdateClaimStatus` | backend/src/database.ts:153-161 | Changes only the row with that id, and does nothing if there is none. That row gets the new status and the given digest, or null, which clears an earlier digest. `completed_at` is set exactly when the new status is completed. Every other field, every other claim and every session stay the same. |
| `Store.TodayClaimCount` | backend/src/database.ts:163-172 | Equals the number of the wallet's claims created at or after `todayStart`, whatever their status. |
| `ClaimService.AdminMint` | backend/src/sui-client.ts:130-133 | With no admin key configured, a mint always fails. Otherwise the ledger's answer passes through. |
| `ClaimService.UploadSession` | backend/src/server.ts:27-62 | Answers 400 and changes nothing when the device id, start time or end time is missing or falsy, or the step total is undefined. Otherwise answers 201 with the new session. That session is stored under a fresh id with the given fields. Distance, cadence and calories default to 0 and the payload defaults to `{}`. Claims are untouched. |
| `ClaimService.FetchSession` | backend/src/server.ts:68-81 | Answers 404 exactly when the session does not exist. Otherwise answers 200 with the stored session. |
| `ClaimService.DeviceLimit` | backend/src/server.ts:90 | The limit is never 0. A given non-zero limit is used as is. An absent or zero limit becomes 20. |
| `ClaimService.ListDeviceSessions` | backend/src/server.ts:87-97 | Lists only the device's stored sessions, each at most once, latest `start_time` first. There are at most 20 when no limit is given, and at most `limit` for a positive limit. A matching session is left out only when the list already holds the effective limit and the session starts no later than every listed one. |
| `ClaimService.SubmitClaim` | backend/src/server.ts:105-186 | Each guard failure leaves the store unchanged: a missing field gives 400, an unknown session 404, too few steps 400 with the required minimum and the actual count, and a wallet at its daily cap 429. A passing submit answers 201 and adds exactly one claim under a fresh id. That claim has the session's steps and reward `steps * rate` as an exact product. It is completed with the digest and a completion time when the mint succeeds, and pending with neither when it fails. Sessions are untouched. |
| `ClaimService.ListPending` | backend/src/server.ts:192-199 | Lists exactly the pending claims, each once, oldest first. |
| `ClaimService.ListWalletClaims` | backend/src/server.ts:205-213 | Lists exactly the wallet's stored claims, each once, newest first. |
| `ClaimService.ApproveClaim` | backend/src/server.ts:219-264 | A missing claim gives 404, and a claim that is not pending gives 400 with its current status; both leave the store unchanged. For a pending claim, a successful mint answers with the digest and leaves it completed with the digest. A failed mint answers 500 and leaves it pending with no digest and no completion time. No other claim changes. |
| `ClaimService.CompleteClaim` | backend/src/server.ts:270-300 | A missing or empty signed transaction gives 400, before any lookup. A missing claim gives 404. A failed execution gives 500 and changes nothing. A successful one marks the claim completed with the digest, whatever its earlier status. |
| `ClaimService.RejectClaim` | backend/src/server.ts:306-321 | A missing claim gives 404. Any existing claim becomes rejected, whatever its status, with its digest and completion time cleared. Nothing else changes. |
| `ClaimService.WalletInfoFor` | backend/src/server.ts:329-355 | The summary carries the address and the balance, which is 0 when the balance query failed. The completed count plus the pending count never exceeds the number of the wallet's claims. |
| `ServiceProperties.Handle` | backend/src/server.ts:27-355 | The read-only routes never change the store. Every route keeps the auto-increment bookkeeping well formed. |
| `ServiceProperties.SubmitPreservesInv` | backend/src/server.ts:114-149 | Submitting keeps every claim consistent. Each claim refers to an existing session, copies its step count, meets the minimum, has reward `steps * rate`, is never left approved, carries a completion time exactly when completed, and has a digest only if completed. |
| `ServiceProperties.ApprovePreservesInv` | backend/src/server.ts:232-263 | Approving keeps every claim consistent, including after the compensating revert. |
| `ServiceProperties.CompletePreservesInv` | backend/src/server.ts:284-288 | Completing with a signed transaction keeps every claim consistent. |
| `ServiceProperties.RejectPreservesInv` | backend/src/server.ts:309-315 | Rejecting keeps every claim consistent. |
| `ServiceProperties.HandlePreservesInv` | backend/src/server.ts:105-321 | Every route keeps the claim invariant. |
| `ServiceProperties.RunPreservesInv` | backend/src/server.ts:105-321 | Any sequence of requests served one at a time under one configuration keeps the claim invariant. |
| `ServiceProperties.SubmitKeepsDailyCap` | backend/src/server.ts:131-149 | A submit never takes a wallet's count for the day past `MAX_CLAIMS`. |
| `ServiceProperties.HandleKeepsDailyCap` | backend/src/server.ts:131-137 | No route takes a wallet's count for the day past the cap, whatever statuses the claims have. |
| `ServiceProperties.RunKeepsDailyCap` | backend/src/database.ts:163-172 | Requests served one at a time with the same start of day keep every wallet within its daily cap. |
| `ServiceProperties.HandleStatusStep` | backend/src/server.ts:143-315 | One request never deletes a claim and adds at most the next id, as pending or completed. An existing claim keeps its status or becomes completed or rejected. A claim is pending afterwards only if it was pending before. No claim is ever left approved. |
| `ServiceProperties.SubmitStatusStep` | backend/src/server.ts:142-181 | A submit stays within the allowed status step: at most the next id is added, as pending or completed. Every existing claim is kept exactly as it was. |
| `ServiceProperties.ApproveStatusStep` | backend/src/server.ts:219-264 | Approving stays within the allowed status step and no claim is added or removed. Every claim but the approved one is kept as it was. The approved one changes only in status, digest and completion time, and only if it was pending: it ends completed, or pending again after a failed mint. The intermediate approved status never survives the request. |
| `ServiceProperties.CompleteStatusStep` | backend/src/server.ts:270-300 | Completing stays within the allowed status step and no claim is added or removed. Every other claim is kept as it was. The named claim changes only in status, digest and completion time, and ends either completed or unchanged. |
| `ServiceProperties.RejectStatusStep` | backend/src/server.ts:306-321 | Rejecting stays within the allowed status step and no claim is added or removed. Every other claim is kept as it was. The named claim ends rejected, with only its status, digest and completion time changed. |
| `ServiceProperties.HandleKeepsClaimOwners` | backend/src/server.ts:219-321 | No route except submitting adds or removes a claim or changes a claim's wallet or creation time. |
| `ServiceProperties.HandleKeepsSessions` | backend/src/database.ts:80-112 | Sessions are write-once: no request alters or removes a stored session. |
| `ServiceProperties.RunKeepsSessions` | backend/src/database.ts:80-112 | Sessions are write-once across any sequence of requests. |
| `ServiceProperties.FailedApprovalRestores` | backend/src/server.ts:255-263 | A failed approval mint, after the revert to pending, leaves the store exactly as it was before the request. |
| `ServiceProperties.NoAdminKeySubmitStaysPending` | backend/src/server.ts:151-181 | Without an admin key, an accepted claim still answers 201 and stays pending. |
| `ServiceProperties.NoAdminKeyApproveChangesNothing` | backend/src/server.ts:233-262 | Without an admin key, approving a pending claim answers 500 and changes nothing. |
| `ServiceProperties.CompletedCount` | backend/src/server.ts:337-347 | The number of completed claims in the wallet's history equals the number of the wallet's completed claims in the table. |
| `ServiceProperties.PendingCount` | backend/src/server.ts:348 | The number of pending claims in the wallet's history equals the number of the wallet's pending claims in the table. |
| `ServiceProperties.WalletSummaryMatchesTable` | backend/src/server.ts:337-348 | The completed and pending counts equal the numbers of the wallet's completed and pending claims in the table. The total earned equals the sum of `reward_amount` over the wallet's completed claims only, independent of listing order. |
| `ServiceProperties.EarnedIsRateTimesSteps` | backend/src/server.ts:140 | Under the claim invariant, the rewards of any stored claims sum to the rate times their steps. |
| `ServiceProperties.WalletEarnedIsRateTimesSteps` | backend/src/server.ts:339 | Under the claim invariant, the summary's total earned is the rate times the steps of the wallet's completed claims. |

## Left out

- The React screens (`src/App.tsx`, `src/components/*.tsx`). They are presentational and driven by random data and timers, with no persisted state.
- `backend/src/sui-client.ts` beyond the missing-key rule. Its network calls, Ed25519 signing and float conversions such as `Math.floor(amount * 1_000_000)` are replaced by the `LedgerOutcome` parameter.
- The `/ 1_000_000` display-unit divisions in `server.ts`. These are floating point. `WalletInfoFor` reports `totalEarned` in integer base units.
- ClaimService.SubmitClaim: the wallet and amount sent to the automatic mint are not modelled, because the ledger is an opaque outcome. The same holds for `ClaimService.ApproveClaim`.
- Express, CORS, JSON parsing, logging, `app.listen` and `dotenv`. The configuration is a `Config` record. A non-numeric environment value, which would make `parseInt` yield NaN, is not modelled.
- The generic 500 answers of the `catch` blocks for storage failures. The store operations are total in the model.
- The type coercions of the request bodies:
  - a `session_id` sent as a string;
  - a `total_steps` of `null`, which passes the route check and then fails the NOT NULL constraint with a 500;
  - NaN in the float fields.

  A path id that `parseInt` cannot read is some int with no row, so it gives 404 as in the code.
- `JSON.stringify(session_data || {})`. The payload is taken as already-serialized JSON text, with `{}` when absent or empty.
- The `created_at` column of the sessions table, which the `Session` interface does not declare.
- JavaScript number precision. The reward is an exact integer product, while the source's doubles are exact only up to 2^53 and SQLite integers only up to 2^63.
- SQL text, indexes and SQLite internals, which are replaced by maps and sequences.
- Store.CreateClaim: it does not model the foreign-key failure for a claim on an unknown session (backend/src/database.ts:70, which better-sqlite3 enforces). No route reaches that case: the submit route rejects unknown sessions first (backend/src/server.ts:113-116), and sessions are never deleted.
- Wall-clock time, including `Date.now()` and the local-midnight `setHours` computation. These are the `Clock` parameter.
- The concurrent check-then-act race on the daily cap, and interleaved status updates. Requests are atomic steps served one at a time, and the daily-cap lemmas hold only under that assumption.
