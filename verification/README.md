# Ugobueze balance, redemption, referral and withdrawal bookkeeping in Dafny

This project models the money-moving core of the Ugobueze gift-card
platform, an Express/Mongoose service. Users submit gift-card
*redemptions*. A redemption is approved, which credits the user's
`balance`, or rejected. The admin routes (routes/admin.js,
routes/redemptions.js) demand an admin token for this; the giftcards.js
and redeem.js routes demand no token at all. A user who signed up with someone's referral
code makes that referrer eligible for a referral bonus, paid into the
referrer's `referralEarnings`. Users withdraw from their balance. An
admin approves a withdrawal, or rejects it and the amount is refunded.

## Modelling choices

- **The store.** It is four sequences of immutable records: users,
  redemptions, referral edges and gift cards (`Records.Store`).
  - Sequences, not maps, because every Mongo `findOne`/`findById` of these
    handlers returns the *first* match in natural order (`Base.FindIndex`).
  - Referral edges are not unique per referred user, so several edges
    for one user must be representable.
- **Handlers.** Each handler is a pure function from the store and its
  request fields to an `Outcome`: `Ok(store)` or `Fail(store, error)`.
  - The store in a `Fail` is the one *as persisted*. Almost every refusal
    leaves it unchanged. Three handlers fail after an earlier write:
    - the giftcards.js approve of a redemption whose submitter is missing:
      the approved status is kept (`ThresholdPolicy.ApproveFound`);
    - the redeem.js approve in the same case, which runs the same steps
      (`ThresholdPolicy.ApproveUnchecked`);
    - a users.js registration whose insert fails after the referrer was
      saved (`Registration.RegisterWithBalanceBonus`).
  - The error kinds and their HTTP statuses are `Base.Error` and
    `Base.HttpStatus`.
- **Parameters instead of side effects.** Inputs the handlers get from
  outside are parameters:
  - new ids;
  - the bcrypt hash;
  - the Cloudinary upload result (`Option<string>`, `None` for a failed upload);
  - the codes `shortid` generates (a finite candidate list);
  - the `REFERRAL_BONUS` variable (`Accounting.Env`);
  - `jwt.verify` (a total function returning `Option<Claims>`).
- **Two bonus policies, kept apart.**
  - `FlatPolicy` (routes/admin.js, repeated word for word, messages aside,
    in routes/redemptions.js) pays `Number(REFERRAL_BONUS || 3)` once per
    unredeemed edge.
  - `ThresholdPolicy` (routes/giftcards.js, repeated in routes/redeem.js)
    accumulates approved amounts on the edge and pays
    `Number(REFERRAL_BONUS) || 3` once, when the total first reaches 100.
    `Accounting.BonusReadingsAgree` states where the two readings of the
    variable differ.
- **Two registration variants, kept apart.**
  - routes/users.js gives the new user a fresh code and credits a resolved
    referrer's *balance* with 3 at once.
  - routes/adminlogin.js gives no code, credits nothing, and records an edge.
- **Faithful to the code, gaps included.** The model does not repair
  these; each is stated as a lemma:
  - withdrawal status changes have no pending guard, so rejecting twice
    refunds twice;
  - the flat policy's approve and reject guards are asymmetric, so
    approve → reject → approve credits twice;
  - the threshold policy has no status guard at all;
  - `giftCard?.amount` reads a field the catalog schema does not have
    (`value` is the face value), so the claimed amount is what gets credited;
  - a negative claimed amount is stored and credited as is.
- **The two auth middlewares.**
  - middlewave/auth.js demands the `Bearer ` prefix and answers 401 or 403.
  - middleware/auth.js takes the second space-separated word of any
    header and answers 401, 400 or 403.
  - `String.prototype.split` is modelled with its join round trip.

### Gaps in the code

- The fallback `giftCard?.amount || redemption.amount || 0`
  (routes/admin.js:75, routes/redemptions.js:53) shows the intent to
  credit the catalog amount when the card exists. The catalog schema has
  no `amount` field (its face value is `value`), so the first operand is
  always undefined and the claimed amount is credited. The model follows
  the code (`FlatPolicy.CreditIsClaimedAmount`).
- Withdrawal approve/reject (routes/withdrawal.js:101-147) has no pending
  guard: it overwrites any status, and every reject refunds. The model
  follows the code (`Withdrawals.RejectTwiceRefundsTwice`).
- routes/withdrawal.js pushes onto and reads `user.withdrawals`, but
  model/user.js declares no such field. As written, a valid submission
  that passes the balance check reaches `user.withdrawals.push` on an
  undefined field (routes/withdrawal.js:62). That throws, the handler
  answers 500, and the debit of line 52 is never saved. The PATCH lookup
  by `withdrawals._id` then finds nobody. The model gives users the
  embedded list that routes/withdrawal.js assumes, and models the
  handlers as their authors intended them.
- The redemption approve and reject routes of giftcards.js (lines 100
  and 153) and redeem.js (lines 55 and 97), and every referral.js route,
  use no auth middleware. Anyone can approve a redemption there, and
  anyone can create or redeem a referral edge. The model's handlers for
  these routes take no caller, as the code does.
- routes/withdrawal.js looks the caller up by the token's `id` claim.
  The tokens signed by users.js, adminlogin.js and admin.js carry `_id`.
  A registration token therefore reads `/me` but is answered 404 by the
  withdrawal handler (`Sessions.RegistrationTokenCannotWithdraw`).
- app.js mounts only users, auth, giftcards, admin and referral routes.
  withdrawal.js, redemptions.js, redeem.js and adminlogin.js are modelled
  as the variants they are.
- referral.js (line 3) and adminlogin.js (line 6) `import Referral from`
  model/referral.js, which has only the named export of line 11. An ES
  module whose default import is missing fails to link. app.js:32 imports
  referral.js, so as written the server does not start at all. The model
  treats the import as if it resolved to the named export.

## Model

| member | source | states |
|---|---|---|
| Records.NewUser | model/user.js:5-14 | A new user document has balance 0, referral earnings 0, isAdmin false, no code, no referrals, and carries the given id, name, email, password and referredBy. |
| Records.MakeRedeem | model/redeem.js:5-10 | Saving a redemption succeeds exactly when the user id and a non-empty image URL are present; it starts pending with no reason. |
| Records.MakeReferral | model/referral.js:5-8 | Saving an edge succeeds exactly when the code is present and non-empty and the referred id is present; it starts unredeemed with total 0. |
| Records.InsertUser | model/user.js:7-11 | An insert succeeds exactly when no stored user shares its id, email or referralCode (two missing codes collide); on success the user is appended. |
| Records.InsertKeepsIndexesUnique | model/user.js:7 | A successful insert keeps ids, emails and codes pairwise distinct. |
| Records.ValidateUser | model/user.js:19-26 | Accepts exactly: name of at least 3, a well-formed email, password of at least 6, an optional non-empty referredBy, and no other key. |
| Records.ValidateUserRefusesPrivilegedKeys | model/user.js:20-25 | A body carrying isAdmin or balance is refused. |
| Records.ExampleEmails | model/user.js:22 | "a@b.co" is accepted as an email; "a@bco" and "@b.co" are not. |
| Records.ParseStatus | model/redeem.js:9 | Only the three enum names parse, each to the status it names. |
| Records.StatusRoundTrip | model/redeem.js:9 | Every status survives printing and parsing. |
| Withdrawals.ValidateWithdrawal | routes/withdrawal.js:10-18 | Accepts exactly an amount of at least 1, three non-empty bank strings and no unknown key. |
| Withdrawals.ValidateWithdrawalStatus | routes/withdrawal.js:21-26 | Accepts exactly a body whose status is "approved" or "rejected" and which has no other key; never pending. |
| Withdrawals.Submit | routes/withdrawal.js:30-63 | Invalid body, unknown caller or amount above balance fail with the store unchanged; otherwise only the caller changes: balance minus amount, one pending withdrawal appended, earlier ones kept. |
| Withdrawals.SetStatus | routes/withdrawal.js:101-163 | An invalid body fails with no change; then a withdrawal id that is not an ObjectId is a server error and an unknown id is not found, both with no change; otherwise the status is overwritten whatever it was, and the amount is refunded exactly on reject. |
| Withdrawals.ExtraKeyIsRefused | routes/withdrawal.js:21-26 | A PATCH body with any key besides status is refused as invalid input with no change, whatever the status and the id. |
| Withdrawals.SubmittedIsFound | routes/withdrawal.js:114-120 | After submitting a fresh id, the PATCH lookup finds the caller and the appended withdrawal. |
| Withdrawals.SubmitThenRejectRestoresBalance | routes/withdrawal.js:130-131 | Submit then reject restores the caller's balance exactly and leaves the withdrawal rejected. |
| Withdrawals.RejectTwiceRefundsTwice | routes/withdrawal.js:127-131 | With no pending guard, a second reject refunds the amount again. |
| Withdrawals.SetStatusKeepsOwner | routes/withdrawal.js:120-127 | A status change keeps the owner and position of the withdrawal. |
| Withdrawals.ApproveMovesNoMoney | routes/withdrawal.js:138-147 | Approving a withdrawal changes no balance. |
| Withdrawals.SubmitKeepsBalancesNonNegative | routes/withdrawal.js:46-52 | Non-negative balances and positive withdrawal amounts survive a submission. |
| Withdrawals.SetStatusKeepsBalancesNonNegative | routes/withdrawal.js:126-131 | Non-negative balances and positive withdrawal amounts survive a status change. |
| Accounting.FlatBonus | routes/admin.js:15 | Unset or empty gives 3, a number gives itself (0 included), a non-number gives NaN. |
| Accounting.ThresholdBonus | routes/giftcards.js:119 | A non-zero number gives itself; 0, unset, empty or a non-number give 3. |
| Accounting.BonusReadingsAgree | routes/redemptions.js:16 | The two readings agree except on "0" and on a non-numeric value. |
| Accounting.CreditCodeHolder | routes/admin.js:94-98 | Only the first holder of the code changes, and only in earnings, which rise by the bonus, as does the earnings total; with no holder nothing changes. |
| FlatPolicy.CreditIsClaimedAmount | routes/admin.js:74-75 | The credited amount is the claimed one whether or not the gift card exists. |
| FlatPolicy.PayBonus | routes/admin.js:83-100 | Without a truthy referredBy, or with no open edge from that code to the user, the store is unchanged; otherwise exactly that edge becomes redeemed and only the code's first holder gains the bonus in earnings; no balance moves. |
| FlatPolicy.PayEdge | routes/admin.js:90-98 | The found edge becomes redeemed, the redeemed count rises by exactly one, and only the code's first holder, if any, gains the bonus in earnings. |
| FlatPolicy.Credit | routes/admin.js:77-100 | The redemption becomes approved and the submitter's balance rises by its amount; the submitter's first open edge from its referredBy code becomes redeemed and that code's holder gains the bonus; with no open edge no edge and no earnings change; gift cards are kept. |
| FlatPolicy.Approve | routes/admin.js:52-106 | Malformed id, unknown redemption, already approved or unknown submitter fail with no change; otherwise the submitter gains the amount, the open edge to the submitter is redeemed and its code holder gains the bonus exactly once. |
| FlatPolicy.Reject | routes/admin.js:109-135 | Only an already rejected redemption is refused; otherwise it becomes rejected with the given reason or "No reason provided", and nothing else changes. |
| FlatPolicy.ApproveTwiceRefused | routes/redemptions.js:43-45 | A second approval of the same redemption is refused and changes nothing. |
| FlatPolicy.ApproveRejectApproveCreditsTwice | routes/admin.js:123-129 | Reject does not reverse an approval and approve accepts a rejected redemption, so approve, reject, approve credits twice. |
| FlatPolicy.RejectMovesNoMoney | routes/redemptions.js:104-110 | Reject leaves users and edges untouched. |
| FlatPolicy.ApproveStepPaysPerFlip | routes/redemptions.js:63-80 | One approval raises total earnings by at most the bonus times the number of newly redeemed edges. |
| FlatPolicy.ApproveAllPaysPerFlip | routes/admin.js:83-100 | Over any sequence of approvals the edge count is kept, the redeemed count never falls, and earnings rise by at most the bonus per newly redeemed edge. |
| FlatPolicy.BonusAtMostOncePerEdge | routes/admin.js:84-98 | Over any sequence of approvals, referrers earn at most the bonus once per edge that was unredeemed at the start. |
| ThresholdPolicy.Record | routes/giftcards.js:82-91 | A failed upload or a missing user id fails with no change; otherwise one pending redemption with the stored amount is appended. |
| ThresholdPolicy.Submit | routes/giftcards.js:57-97 | Missing image, missing or malformed id, or an id not in the catalog fail with no change; otherwise the upload and save decide, and one pending redemption of the caller, with the uploaded image and `Number(amount) \|\| 0`, is appended; users, edges and the catalog are kept. |
| ThresholdPolicy.SubmitUnchecked | routes/redeem.js:18-53 | The same checks without the catalog lookup. |
| ThresholdPolicy.SubmissionsDifferOnlyInCatalogCheck | routes/giftcards.js:67-70 | The two submissions agree on every request except one naming a card the catalog lacks. |
| ThresholdPolicy.EdgeStep | routes/giftcards.js:129-132 | An approval adds its amount to the edge's total; the edge becomes redeemed and pays exactly when the total reaches 100. |
| ThresholdPolicy.FeedPaysOnceAtThreshold | routes/giftcards.js:121-142 | Over any series of approvals an edge pays at most once, and exactly once when some running total reaches 100. |
| ThresholdPolicy.Accumulate | routes/giftcards.js:121-143 | Without a truthy referredBy, or with no open edge, the store is unchanged; otherwise exactly that edge takes one threshold step, and the code's holder gains the bonus exactly when the step reaches 100; no balance moves. |
| ThresholdPolicy.StepEdgeAt | routes/giftcards.js:128-141 | The found edge takes one threshold step; when it pays, the redeemed count rises by one and the code holder gains the bonus; otherwise no user changes; ids and balances are kept. |
| ThresholdPolicy.ApproveFound | routes/giftcards.js:107-143 | The status is saved as approved first; a missing submitter then fails with a server error and a store that differs only by that status; otherwise the submitter gains the claimed amount and the open edge to the submitter takes one threshold step, paying its code holder when it reaches 100. |
| ThresholdPolicy.Approve | routes/giftcards.js:100-150 | A malformed id or unknown redemption fails with no change; any other redemption is approved whatever its status, crediting the claimed amount and stepping the submitter's open edge with the threshold bonus. |
| ThresholdPolicy.ApproveAllPaysPerFlip | routes/giftcards.js:128-141 | Over any series of approvals the edge count is kept and referrers gain at most the bonus per newly redeemed edge. |
| ThresholdPolicy.ApproveFoundFeedsEdge | routes/giftcards.js:110-143 | For a user whose only edge is k, one approval of their redemption moves edge k by one threshold step while it is open and leaves it alone once redeemed. |
| ThresholdPolicy.ApprovalsFeedTheEdge | routes/giftcards.js:121-143 | For a user whose only edge is k, approving a series of their redemptions leaves edge k exactly as feeding the claimed amounts one by one does. |
| ThresholdPolicy.ApprovalsRedeemAtThreshold | routes/giftcards.js:129-132 | For that user, after any series of approvals the open edge is redeemed exactly when some running total of the claimed amounts reaches 100. |
| ThresholdPolicy.ApproveUnchecked | routes/redeem.js:55-95 | Without the id shape check, a malformed id fails as a server error; otherwise it behaves as the giftcards.js approve. |
| ThresholdPolicy.Reject | routes/giftcards.js:153-171 | Any existing redemption becomes rejected whatever its status, with no reason and no money moved. |
| ThresholdPolicy.RejectUnchecked | routes/redeem.js:97-108 | As the giftcards.js reject, with a malformed id failing as a server error. |
| ThresholdPolicy.ApproveTwiceCreditsTwice | routes/giftcards.js:110-116 | With no status guard, approving twice credits the claimed amount twice. |
| ThresholdPolicy.StatusIsOverwritten | routes/giftcards.js:163-164 | An approved redemption can be rejected, and the credit stays. |
| ThresholdPolicy.NegativeClaimDrivesBalanceNegative | model/user.js:10 | Nothing bounds the balance: approving a negative claim drives a zero balance negative. |
| ThresholdPolicy.NegativeClaimIsStored | routes/redeem.js:42 | `Number(amount) \|\| 0` keeps a negative amount. |
| ReferralRoutes.CreateEdge | routes/referral.js:9-26 | The edge is stored whenever both fields are present; the referrer's referrals gain the id only if the code resolves; users, redemptions and gift cards are otherwise unchanged. |
| ReferralRoutes.Redeem | routes/referral.js:29-47 | A referredUserId that is not an ObjectId fails with a server error and no change; any other succeeds; with no open edge for the user nothing changes; otherwise exactly that edge becomes redeemed and only the first holder of its code gains 3 in earnings; no balance moves. |
| ReferralRoutes.RedeemIsIdempotent | routes/referral.js:32-43 | For a user with one edge, a second redeem finds nothing open, changes nothing and still succeeds. |
| ReferralRoutes.GetStats | routes/referral.js:50-63 | Fails with not-found exactly when no user holds the code; otherwise reports the holder's referral count and earnings. |
| ReferralRoutes.CreateEdgeRaisesCount | routes/referral.js:16-20 | Creating an edge for a held code raises that code's count by one and leaves its earnings. |
| ReferralRoutes.SortByEarnings | routes/referral.js:69 | The result is a permutation of the input in non-increasing earnings order. |
| ReferralRoutes.Leaderboard | routes/referral.js:66-76 | Only users with positive earnings, in non-increasing order, min(10, count) of them, and every earner left out earns no more than every entry. |
| Registration.FirstUnusedCode | routes/users.js:12-23 | The chosen candidate is held by no user and every earlier candidate is held; there is none exactly when every candidate is held. |
| Registration.CreditedReferrer | routes/users.js:51-53 | The referrer gains the new id in referrals and 3 in balance, nothing else. |
| Registration.RegisterWithBalanceBonus | routes/users.js:26-70 | Invalid body or known email fail with no change; the new user has a fresh code and defaults; a resolved referrer is credited 3; an unresolved referredBy is cleared and no other user changes; an insert that fails after a code was found is a server error that leaves the resolved referrer credited and nothing else changed. |
| Registration.SaveWithCode | routes/users.js:48-70 | The new user carries the code and defaults; a resolved referrer is credited and no one else changes; otherwise referredBy is cleared and the earlier users are kept; a failed insert is a server error whose store is the original one with only the resolved referrer credited. |
| Registration.RegisterWithFreshIdSucceeds | routes/users.js:65-70 | With an unused id, a valid body, a new email and a free candidate, registration succeeds. |
| Registration.RegisterTwiceRefused | routes/users.js:32-35 | Registering the same email again is refused with no change. |
| Registration.RegisterKeepsIndexesUnique | routes/users.js:42 | users.js registration keeps ids, emails and codes unique. |
| Registration.Me | routes/users.js:131-151 | Not found exactly when the `_id` claim is missing or unknown; otherwise the balance, the code or "", and the number of referrals. |
| Registration.RegisterShowsOnReferrerProfile | routes/users.js:49-53 | After a users.js registration under a held code, the referrer's profile shows one more referral and 3 more balance. |
| Registration.RegisterWithEdge | routes/adminlogin.js:12-52 | Invalid body or known email fail with no change; the user is saved with no code and defaults, which fails if another user lacks a code; for a truthy referredBy naming a held code the referrer gains the id and one unredeemed edge is recorded; no balance moves. |
| Registration.LinkReferrer | routes/adminlogin.js:35-48 | Always succeeds; a truthy referredBy naming a held code gives that referrer the new id and records one unredeemed edge; otherwise nothing but the insert is stored. |
| Registration.RegisterWithEdgeKeepsIndexesUnique | routes/adminlogin.js:24-32 | adminlogin.js registration keeps ids, emails and codes unique. |
| Registration.SecondCodelessRegistrationFails | model/user.js:11 | Once a user without a code exists, every adminlogin.js registration fails. |
| Registration.EdgeIffReferrerResolves | routes/adminlogin.js:35-48 | An edge is recorded exactly when referredBy is given and resolves. |
| Registration.VariantsDisagreeOnUnresolvedCode | routes/users.js:60-62 | An unresolved referredBy is cleared by users.js and kept by adminlogin.js. |
| Registration.ReferredUsers | routes/adminlogin.js:76-88 | Not found when the caller or their code is missing; otherwise exactly the users whose referredBy is the caller's code. |
| Registration.RegisteredUserIsListed | routes/adminlogin.js:83 | A user registered under a held code appears in that referrer's listing. |
| Auth.Split | middleware/auth.js:6 | The pieces contain no separator; the first is the longest separator-free prefix; there is one piece exactly when the separator is absent. |
| Auth.JoinSplit | middleware/auth.js:5-6 | Joining the pieces of a split gives the string back. |
| Auth.SplitJoin | middlewave/auth.js:7 | Splitting separator-free pieces that were joined gives the pieces back. |
| Auth.ExtractBearer | middlewave/auth.js:4-8 | A token exactly when the header is non-empty and starts with "Bearer "; the token is the text after the prefix up to the next space. |
| Auth.BearerWord | middlewave/auth.js:6-7 | "Bearer " followed by a space-free word yields that word. |
| Auth.BearerExample | middlewave/auth.js:7 | "Bearer abc" yields "abc". |
| Auth.OtherSchemeHasNoBearerToken | middlewave/auth.js:6 | "Token abc" yields no token. |
| Auth.EmptyBearerIsRefused | middlewave/auth.js:11-12 | "Bearer " yields the empty token, answered 401. |
| Auth.BearerTokenGate | middlewave/auth.js:10-21 | Passes exactly a non-empty token that verifies, with its claims; 401 without a token, 403 when verification fails. |
| Auth.BearerAdminGate | middlewave/auth.js:23-37 | Passes exactly a verified token with isAdmin; every refusal is 403. |
| Auth.SecondWord | middleware/auth.js:5-6 | No header gives no token; otherwise the second space-separated piece, if any. |
| Auth.SchemeWord | middleware/auth.js:6 | Any space-free scheme word, a space and a space-free word yield that word. |
| Auth.WordTokenGate | middleware/auth.js:4-20 | Passes exactly a non-empty second word that verifies; 401 without one, 400 when verification fails. |
| Auth.WordAdminGate | middleware/auth.js:22-29 | The token gate's refusals pass through unchanged; a passed token without isAdmin gets 403. |
| Auth.BearerTokenPassesWordGate | middleware/auth.js:5-6 | Whatever the Bearer gate passes, the word gate passes with the same claims. |
| Auth.WordGateIgnoresScheme | middleware/auth.js:6 | A verified token under any scheme word other than Bearer passes the word gate and gets 401 from the Bearer gate. |
| Auth.BadTokenStatusesDiffer | middleware/auth.js:16-19 | A Bearer token that fails verification gets 403 from one middleware and 400 from the other. |
| Auth.AdminGatesRefineTokenGates | middleware/auth.js:23-27 | Each admin gate passes only what its token gate passes, with the same claims. |
| Sessions.RegistrationClaims | routes/users.js:77-82 | A registration token carries the id as `_id`, no `id`, and the user's isAdmin. |
| Sessions.RegistrationTokenReadsProfile | routes/users.js:134 | A registration token of a stored user reads `/me`. |
| Sessions.RegistrationTokenCannotWithdraw | routes/withdrawal.js:38-42 | A valid withdrawal under a registration token is answered not-found with no change. |

## Left out

- HTTP plumbing: Express routing, response bodies and messages, and status codes beyond the error kind (`Base.HttpStatus`) are not modelled.
- Persistence: Mongoose is modelled as atomic in-memory updates of the store, one per `save()`.
- Concurrency: races between handlers on `isRedeemed` or `balance` are not modelled.
- Foreign libraries: bcrypt hashing, JWT signing, expiry and the secret are not modelled. `jwt.verify` is an uninterpreted parameter.
- Uploads: the Cloudinary/multer upload is a parameter, its URL or a failure.
- Numbers: amounts and balances are integers. JavaScript floating point, fractional amounts and NaN arithmetic are not modelled. `Accounting.FlatBonus` reports a NaN bonus as `None`; the flat handlers take an integer bonus.
- Registration.FirstUnusedCode: `shortid` generation and the loop's termination are not modelled. A candidate list in which every code is taken stands for a loop that never ends; registration then reports a server error with the store unchanged.
- Records.ValidateUser: approximates Joi's full email grammar by one `@`, a non-empty local part, a dotted domain and no spaces.
- Registration.RegisterWithBalanceBonus: the check of `JWT_SECRET` after the save (routes/users.js:72-75) is not modelled, because the user is already stored when it fails.
- Dates and projections are not modelled: `date`, `createdAt`, `signupDate`, `.select` projections, `.populate`, and the `createdAt` ordering of the list endpoints.
- Listings: the admin list endpoints are not modelled: `/withdrawals/all`, `/redemptions`, `/redeem` and `GET /api/giftcards`. They are reads with no bookkeeping.
- Login: login and admin login (routes/users.js:93-128, routes/admin.js:29-49) are bcrypt/JWT plumbing.
- Withdrawals.Submit: modelled as if model/user.js declared the embedded `withdrawals` list. As written every valid submission with enough balance answers 500 and saves nothing; the model does not promise that.
- Authorisation of the unguarded routes: the redemption approve and reject routes of giftcards.js and redeem.js and the referral.js routes have no caller, so no contract speaks of who may call them.
- Module linking: the failed default import of model/referral.js, which keeps the server from starting, is not modelled.
- ReferralRoutes.Leaderboard: breaks earnings ties by insertion order. Mongo gives no tie order, so the contract leaves ties unconstrained.
- ReferralRoutes.Redeem: a missing `referredUserId` is not modelled; Mongo would then match an edge of any user.
- ReferralRoutes.CreateEdge: a `referredUserId` that is not an ObjectId fails the save's cast exactly as a missing one does, so the model takes both as `None`.
- Side routes: the `/share` no-op, the gift-card read endpoints and activity logging (utils/logActivity.js) are not modelled.
- Other files: routes/auth.js, routes/trash.js, routes/activity.js, routes/transaction.js, controller.js/activityController.js and controller.js/userController.js are not part of this model. The last one is broken as written: `router` and `Referral` are undefined. Its `earnings = 3 × redeemed edges` is not stated.
- Failed saves: apart from the unique indexes and required fields, `save()` failures and the resulting 500 answers are not modelled.
