/** The cumulative-threshold referral bonus policy of routes/giftcards.js
    (repeated in routes/redeem.js): submission of a redemption, approval that
    credits the claimed amount and accumulates it on the referral edge until
    the total first reaches 100, and reject.  Neither approve nor reject
    looks at the current status. */
module ThresholdPolicy {
  import opened Base
  import opened Records
  import opened Accounting

  /** The accumulated total at which the bonus is paid. */
  const Threshold: int := 100

  /** A `giftCardId` body field: absent (undefined or empty), rejected by
      `ObjectId.isValid`, or a well-formed id. */
  datatype FieldId = Absent | Invalid | Valid(id: GiftCardId)

  /** The multipart submission: whether a file was attached, the `amount`
      field as a number (`None` when missing or not numeric), the gift card id. */
  datatype Submission = Submission(hasImage: bool, amount: Option<int>, giftCardId: FieldId)

  /** `Number(amount) || 0`. */
  function StoredAmount(amount: Option<int>): int
  {
    if amount.Some? then amount.value else 0
  }

  /** The shared tail of both submissions: upload, then `new Redeem(...).save()`.
      `upload` is the blob store's URL, or `None` when the upload failed;
      `caller` is the token's `_id` claim. */
  function Record(st: Store, caller: Option<UserId>, amount: Option<int>, gid: GiftCardId,
                  upload: Option<string>, newId: RedeemId): (r: Outcome)
    ensures r.Fail? ==> r.store == st && r.error == ServerError
    ensures r.Ok? <==> upload.Some? && MakeRedeem(newId, caller, gid, StoredAmount(amount), upload.value).Success?
    ensures r.Ok? ==>
              r.store == st.(redeems := st.redeems + [Redeem(newId, caller.value, gid, StoredAmount(amount), upload.value, Pending, None)])
  {
    if upload.None? then Fail(st, ServerError)
    else
      match MakeRedeem(newId, caller, gid, StoredAmount(amount), upload.value)
      case Failure(e) => Fail(st, e)
      case Success(d) => Ok(st.(redeems := st.redeems + [d]))
  }

  /** POST /api/giftcards/redeem: image, id presence, id shape and catalog
      existence are checked, in that order, before anything is written. */
  function Submit(st: Store, caller: Option<UserId>, s: Submission, upload: Option<string>, newId: RedeemId): (r: Outcome)
    ensures r.Fail? ==> r.store == st
    ensures !s.hasImage ==> r == Fail(st, InvalidInput)
    ensures s.hasImage && s.giftCardId.Absent? ==> r == Fail(st, InvalidInput)
    ensures s.hasImage && s.giftCardId.Invalid? ==> r == Fail(st, InvalidId)
    ensures s.hasImage && s.giftCardId.Valid? && GiftCardById(st.giftCards, s.giftCardId.id).None? ==>
              r == Fail(st, NotFound)
    ensures r.Ok? ==> s.giftCardId.Valid? && GiftCardById(st.giftCards, s.giftCardId.id).Some?
    ensures s.hasImage && s.giftCardId.Valid? && GiftCardById(st.giftCards, s.giftCardId.id).Some? ==>
              r == Record(st, caller, s.amount, s.giftCardId.id, upload, newId)
    ensures r.Ok? ==>
              && r.store.users == st.users && r.store.referrals == st.referrals && r.store.giftCards == st.giftCards
              && |r.store.redeems| == |st.redeems| + 1
              && r.store.redeems[..|st.redeems|] == st.redeems
              && var d := r.store.redeems[|st.redeems|];
                 && d.status == Pending && d.amount == StoredAmount(s.amount) && d.giftCardId == s.giftCardId.id
                 && caller.Some? && d.userId == caller.value && upload.Some? && d.imageUrl == upload.value
  {
    if !s.hasImage then Fail(st, InvalidInput)
    else
      match s.giftCardId
      case Absent => Fail(st, InvalidInput)
      case Invalid => Fail(st, InvalidId)
      case Valid(gid) =>
        if GiftCardById(st.giftCards, gid).None? then Fail(st, NotFound)
        else Record(st, caller, s.amount, gid, upload, newId)
  }

  /** POST /api/redeem (routes/redeem.js): the same without the catalog lookup. */
  function SubmitUnchecked(st: Store, caller: Option<UserId>, s: Submission, upload: Option<string>, newId: RedeemId): (r: Outcome)
    ensures r.Fail? ==> r.store == st
    ensures !s.hasImage ==> r == Fail(st, InvalidInput)
    ensures s.hasImage && s.giftCardId.Absent? ==> r == Fail(st, InvalidInput)
    ensures s.hasImage && s.giftCardId.Invalid? ==> r == Fail(st, InvalidId)
    ensures s.hasImage && s.giftCardId.Valid? ==> r == Record(st, caller, s.amount, s.giftCardId.id, upload, newId)
  {
    if !s.hasImage then Fail(st, InvalidInput)
    else
      match s.giftCardId
      case Absent => Fail(st, InvalidInput)
      case Invalid => Fail(st, InvalidId)
      case Valid(gid) => Record(st, caller, s.amount, gid, upload, newId)
  }

  /** The two submissions agree except that only the checked one refuses an
      id the catalog does not hold. */
  lemma SubmissionsDifferOnlyInCatalogCheck(st: Store, caller: Option<UserId>, s: Submission, upload: Option<string>, newId: RedeemId)
    ensures s.giftCardId.Valid? && GiftCardById(st.giftCards, s.giftCardId.id).None? && s.hasImage ==>
              Submit(st, caller, s, upload, newId) == Fail(st, NotFound)
    ensures !(s.giftCardId.Valid? && GiftCardById(st.giftCards, s.giftCardId.id).None?) ==>
              Submit(st, caller, s, upload, newId) == SubmitUnchecked(st, caller, s, upload, newId)
  {
  }

  // ---------------------------------------------------------------- the edge step

  /** One approval seen by an unredeemed edge: add the amount to the total;
      once the total reaches the threshold, mark it redeemed and pay. */
  function EdgeStep(e: Referral, amount: int): (r: (Referral, bool))
    requires !e.isRedeemed
    ensures r.0 == e.(totalApprovedAmount := e.totalApprovedAmount + amount, isRedeemed := r.1)
    ensures r.1 <==> e.totalApprovedAmount + amount >= Threshold
  {
    var total := e.totalApprovedAmount + amount;
    if total >= Threshold then (e.(totalApprovedAmount := total, isRedeemed := true), true)
    else (e.(totalApprovedAmount := total), false)
  }

  /** An edge fed a series of approved amounts of its referred user: the
      final edge and the number of bonuses paid.  A redeemed edge is no
      longer found by the lookup, so it ignores further amounts. */
  function Feed(e: Referral, amounts: seq<int>): (Referral, nat)
    decreases |amounts|
  {
    if |amounts| == 0 || e.isRedeemed then (e, 0)
    else
      var (e1, paid) := EdgeStep(e, amounts[0]);
      var (e2, n) := Feed(e1, amounts[1..]);
      (e2, n + if paid then 1 else 0)
  }

  function Sum(s: seq<int>): int
  {
    if |s| == 0 then 0 else s[0] + Sum(s[1..])
  }

  /** Some running total, counted from `start`, reaches the threshold. */
  ghost predicate Reaches(start: int, amounts: seq<int>)
  {
    exists k :: 1 <= k <= |amounts| && start + Sum(amounts[..k]) >= Threshold
  }

  /** The bonus is paid at most once per edge, and exactly once when some
      running total of the approved amounts reaches the threshold. */
  lemma {:induction false} FeedPaysOnceAtThreshold(e: Referral, amounts: seq<int>)
    requires !e.isRedeemed
    ensures Feed(e, amounts).1 <= 1
    ensures Feed(e, amounts).1 == 1 <==> Reaches(e.totalApprovedAmount, amounts)
    ensures Feed(e, amounts).0.isRedeemed <==> Feed(e, amounts).1 == 1
    decreases |amounts|
  {
    if |amounts| > 0 {
      var (e1, paid) := EdgeStep(e, amounts[0]);
      var rest := amounts[1..];
      assert amounts[..1] == [amounts[0]];
      assert Sum(amounts[..1]) == amounts[0];
      if !paid {
        FeedPaysOnceAtThreshold(e1, rest);
        if Reaches(e.totalApprovedAmount, amounts) {
          var k :| 1 <= k <= |amounts| && e.totalApprovedAmount + Sum(amounts[..k]) >= Threshold;
          assert k > 1;
          assert amounts[..k][1..] == rest[..k - 1];
          assert e1.totalApprovedAmount + Sum(rest[..k - 1]) >= Threshold;
        }
        if Reaches(e1.totalApprovedAmount, rest) {
          var k :| 1 <= k <= |rest| && e1.totalApprovedAmount + Sum(rest[..k]) >= Threshold;
          assert amounts[..k + 1][1..] == rest[..k];
          assert e.totalApprovedAmount + Sum(amounts[..k + 1]) >= Threshold;
        }
      }
    }
  }

  // ---------------------------------------------------------------- approve and reject

  /** The bonus step after the credit: through the first unredeemed edge
      from the user's `referredBy` code to the user, run `EdgeStep` with the
      approved amount, and on payment add `bonus` to the referrer's earnings. */
  function Accumulate(st: Store, i: nat, amount: int, bonus: int): (st': Store)
    requires i < |st.users|
    ensures SameIds(st, st') && |st'.referrals| == |st.referrals|
    ensures st'.redeems == st.redeems
    ensures BalancesUnchanged(st, st')
    ensures !Truthy(st.users[i].referredBy) ==> st' == st
    ensures PaidPerFlip(st, st', bonus) || bonus < 0
    ensures RedeemedCount(st'.referrals) <= RedeemedCount(st.referrals) + 1
    ensures forall k :: 0 <= k < |st.referrals| && st.referrals[k].isRedeemed ==> st'.referrals[k] == st.referrals[k]
    ensures st'.giftCards == st.giftCards
    ensures var u := st.users[i];
            Truthy(u.referredBy) && OpenEdge(st.referrals, u.referredBy.value, u.id).None? ==> st' == st
    ensures var u := st.users[i];
            Truthy(u.referredBy) && OpenEdge(st.referrals, u.referredBy.value, u.id).Some? ==>
              var k := OpenEdge(st.referrals, u.referredBy.value, u.id).value;
              var step := EdgeStep(st.referrals[k], amount);
              && st'.referrals == st.referrals[k := step.0]
              && (step.1 ==> st'.users == CreditCodeHolder(st.users, u.referredBy.value, bonus))
              && (!step.1 ==> st'.users == st.users)
  {
    var u := st.users[i];
    if !Truthy(u.referredBy) then st
    else
      match OpenEdge(st.referrals, u.referredBy.value, u.id)
      case None => st
      case Some(k) => StepEdgeAt(st, k, u.referredBy.value, amount, bonus)
  }

  /** Feed edge `k` one approved amount and, when that pays, credit the
      holder of `code`. */
  function StepEdgeAt(st: Store, k: nat, code: string, amount: int, bonus: int): (st': Store)
    requires k < |st.referrals| && !st.referrals[k].isRedeemed
    ensures st'.referrals == st.referrals[k := EdgeStep(st.referrals[k], amount).0]
    ensures st'.redeems == st.redeems && st'.giftCards == st.giftCards
    ensures SameIds(st, st') && BalancesUnchanged(st, st')
    ensures PaidPerFlip(st, st', bonus) || bonus < 0
    ensures !EdgeStep(st.referrals[k], amount).1 ==>
              st'.users == st.users && RedeemedCount(st'.referrals) == RedeemedCount(st.referrals)
    ensures EdgeStep(st.referrals[k], amount).1 ==>
              && st'.users == CreditCodeHolder(st.users, code, bonus)
              && RedeemedCount(st'.referrals) == RedeemedCount(st.referrals) + 1
  {
    var (e', paid) := EdgeStep(st.referrals[k], amount);
    RedeemedCountUpdate(st.referrals, k, e');
    if !paid then st.(referrals := st.referrals[k := e'])
    else st.(referrals := st.referrals[k := e'], users := CreditCodeHolder(st.users, code, bonus))
  }

  /** The users and edges after user `i` is credited `amount` and the
      threshold step runs: the first open edge from the user's `referredBy`
      code to the user takes one `EdgeStep`, and when that pays the code's
      holder gains `bonus`; with no such edge, only the credit is stored. */
  ghost predicate Accumulated(st: Store, i: nat, amount: int, bonus: int, st': Store)
    requires i < |st.users|
  {
    var u := st.users[i];
    var credited := st.users[i := u.(balance := u.balance + amount)];
    if Truthy(u.referredBy) && OpenEdge(st.referrals, u.referredBy.value, u.id).Some? then
      var k := OpenEdge(st.referrals, u.referredBy.value, u.id).value;
      var step := EdgeStep(st.referrals[k], amount);
      && st'.referrals == st.referrals[k := step.0]
      && st'.users == (if step.1 then CreditCodeHolder(credited, u.referredBy.value, bonus) else credited)
    else
      st'.referrals == st.referrals && st'.users == credited
  }

  /** Approve of an existing redemption: the status is saved first; a missing
      submitter then makes `user.referredBy` throw, leaving the status saved
      and nothing credited. */
  function ApproveFound(st: Store, di: nat, bonus: int): (r: Outcome)
    requires di < |st.redeems|
    ensures SameIds(st, r.store) && |r.store.referrals| == |st.referrals|
    ensures r.store.redeems == st.redeems[di := st.redeems[di].(status := Approved)]
    ensures UserById(st.users, st.redeems[di].userId).None? <==> r.Fail?
    ensures r.Fail? ==> r == Fail(st.(redeems := st.redeems[di := st.redeems[di].(status := Approved)]), ServerError)
    ensures r.Ok? ==>
              var i := UserById(st.users, st.redeems[di].userId).value;
              && r.store.users[i].balance == st.users[i].balance + st.redeems[di].amount
              && (forall j :: 0 <= j < |st.users| && j != i ==> r.store.users[j].balance == st.users[j].balance)
              && (PaidPerFlip(st, r.store, bonus) || bonus < 0)
              && r.store.giftCards == st.giftCards
              && Accumulated(st, i, st.redeems[di].amount, bonus, r.store)
  {
    var d := st.redeems[di];
    var st1 := st.(redeems := st.redeems[di := d.(status := Approved)]);
    match UserById(st1.users, d.userId)
    case None => Fail(st1, ServerError)
    case Some(i) =>
      var u' := st1.users[i].(balance := st1.users[i].balance + d.amount);
      TotalEarningsUpdate(st1.users, i, u');
      var st2 := st1.(users := st1.users[i := u']);
      Ok(Accumulate(st2, i, d.amount, bonus))
  }

  /** POST /api/giftcards/redeem/:id/approve. */
  function Approve(st: Store, rid: PathId, env: Env): (r: Outcome)
    ensures rid.Malformed? ==> r == Fail(st, InvalidId)
    ensures rid.Id? && RedeemById(st.redeems, rid.id).None? ==> r == Fail(st, NotFound)
    ensures rid.Id? && RedeemById(st.redeems, rid.id).Some? ==>
              r == ApproveFound(st, RedeemById(st.redeems, rid.id).value, ThresholdBonus(env))
  {
    match rid
    case Malformed => Fail(st, InvalidId)
    case Id(id) =>
      match RedeemById(st.redeems, id)
      case None => Fail(st, NotFound)
      case Some(di) => ApproveFound(st, di, ThresholdBonus(env))
  }

  /** POST /api/redeem/:id/approve (routes/redeem.js): no id shape check, so
      a malformed id fails in the lookup's cast with a server error. */
  function ApproveUnchecked(st: Store, rid: PathId, env: Env): (r: Outcome)
    ensures rid.Malformed? ==> r == Fail(st, ServerError)
    ensures rid.Id? ==> r == Approve(st, rid, env)
  {
    match rid
    case Malformed => Fail(st, ServerError)
    case Id(_) => Approve(st, rid, env)
  }

  /** POST /api/giftcards/redeem/:id/reject: whatever the status was, it
      becomes rejected; the reason is not touched and no money moves. */
  function Reject(st: Store, rid: PathId): (r: Outcome)
    ensures r.Fail? ==> r.store == st
    ensures rid.Malformed? ==> r == Fail(st, InvalidId)
    ensures rid.Id? ==> (r.Ok? <==> RedeemById(st.redeems, rid.id).Some?)
    ensures r.Fail? && rid.Id? ==> r.error == NotFound
    ensures r.Ok? ==>
              var di := RedeemById(st.redeems, rid.id).value;
              r.store == st.(redeems := st.redeems[di := st.redeems[di].(status := Rejected)])
  {
    match rid
    case Malformed => Fail(st, InvalidId)
    case Id(id) =>
      match RedeemById(st.redeems, id)
      case None => Fail(st, NotFound)
      case Some(di) => Ok(st.(redeems := st.redeems[di := st.redeems[di].(status := Rejected)]))
  }

  /** POST /api/redeem/:id/reject (routes/redeem.js): as above, with a
      malformed id failing in the cast. */
  function RejectUnchecked(st: Store, rid: PathId): (r: Outcome)
    ensures rid.Malformed? ==> r == Fail(st, ServerError)
    ensures rid.Id? ==> r == Reject(st, rid)
  {
    match rid
    case Malformed => Fail(st, ServerError)
    case Id(_) => Reject(st, rid)
  }

  // ---------------------------------------------------------------- properties

  /** Without a status guard, approving the same redemption twice credits
      the claimed amount twice. */
  lemma ApproveTwiceCreditsTwice(st: Store, rid: PathId, env: Env)
    requires Approve(st, rid, env).Ok?
    ensures var d := st.redeems[RedeemById(st.redeems, rid.id).value];
            var i := UserById(st.users, d.userId).value;
            var r1 := Approve(st, rid, env);
            var r2 := Approve(r1.store, rid, env);
            && r2.Ok?
            && r2.store.users[i].balance == st.users[i].balance + 2 * d.amount
  {
    var di := RedeemById(st.redeems, rid.id).value;
    var d := st.redeems[di];
    var s1 := Approve(st, rid, env).store;
    SameIdsSameLookups(st, s1, d.userId, rid.id);
    assert s1.redeems[di].amount == d.amount && s1.redeems[di].userId == d.userId;
  }

  /** A rejected redemption can still be approved, and an approved one
      rejected without the credit being reversed. */
  lemma StatusIsOverwritten(st: Store, rid: PathId, env: Env)
    requires Approve(st, rid, env).Ok?
    ensures var r1 := Approve(st, rid, env);
            var r2 := Reject(r1.store, rid);
            && r2.Ok?
            && r2.store.users == r1.store.users
            && r2.store.redeems[RedeemById(st.redeems, rid.id).value].status == Rejected
  {
    var s1 := Approve(st, rid, env).store;
    SameIdsSameLookups(st, s1, 0, rid.id);
  }

  /** The claimed amount is credited as stored, sign included: the schema
      bounds neither the claim nor the balance, so approving a negative
      claim drives a zero balance negative. */
  lemma NegativeClaimDrivesBalanceNegative(st: Store, di: nat, bonus: int)
    requires di < |st.redeems| && st.redeems[di].amount < 0
    requires UserById(st.users, st.redeems[di].userId).Some?
    requires st.users[UserById(st.users, st.redeems[di].userId).value].balance == 0
    ensures !NonNegativeBalances(ApproveFound(st, di, bonus).store.users)
  {
    var i := UserById(st.users, st.redeems[di].userId).value;
    assert ApproveFound(st, di, bonus).store.users[i].balance < 0;
  }

  /** `Number(amount) || 0` keeps a negative number: a submission with
      amount -5 is stored with amount -5. */
  lemma NegativeClaimIsStored(st: Store, caller: UserId, gid: GiftCardId, url: string, newId: RedeemId)
    requires |url| > 0
    ensures var r := SubmitUnchecked(st, Some(caller), Submission(true, Some(-5), Valid(gid)), Some(url), newId);
            r.Ok? && r.store.redeems[|st.redeems|].amount == -5
  {
  }

  // ---------------------------------------------------------------- a series of approvals

  /** The store after approving each id in turn (failures change at most statuses). */
  function ApproveAll(st: Store, rids: seq<PathId>, env: Env): Store
    decreases |rids|
  {
    if |rids| == 0 then st else ApproveAll(Approve(st, rids[0], env).store, rids[1..], env)
  }

  /** One approval, successful or not, pays at most the bonus per edge it redeems. */
  lemma ApproveStepPaysPerFlip(st: Store, rid: PathId, env: Env)
    requires ThresholdBonus(env) >= 0
    ensures var st' := Approve(st, rid, env).store;
            PaidPerFlip(st, st', ThresholdBonus(env)) && |st'.referrals| == |st.referrals|
  {
  }

  /** Over any series of approvals the edge count is kept and the referrers
      together gain at most the bonus per newly redeemed edge. */
  lemma {:induction false} ApproveAllPaysPerFlip(st: Store, rids: seq<PathId>, env: Env)
    requires ThresholdBonus(env) >= 0
    ensures var st' := ApproveAll(st, rids, env);
            |st'.referrals| == |st.referrals| && PaidPerFlip(st, st', ThresholdBonus(env))
    decreases |rids|
  {
    if |rids| > 0 {
      var s1 := Approve(st, rids[0], env).store;
      var st' := ApproveAll(s1, rids[1..], env);
      ApproveStepPaysPerFlip(st, rids[0], env);
      ApproveAllPaysPerFlip(s1, rids[1..], env);
      assert ApproveAll(st, rids, env) == st';
      PaidPerFlipTransitive(st, s1, st', ThresholdBonus(env));
    }
  }

  /** Every id names a stored redemption submitted by `uid`. */
  predicate SubmittedBy(st: Store, rids: seq<PathId>, uid: UserId)
  {
    forall n :: 0 <= n < |rids| ==>
      && rids[n].Id? && RedeemById(st.redeems, rids[n].id).Some?
      && st.redeems[RedeemById(st.redeems, rids[n].id).value].userId == uid
  }

  /** The claimed amounts of the redemptions the ids name, in order. */
  function ClaimedAmounts(st: Store, rids: seq<PathId>): seq<int>
    requires forall n :: 0 <= n < |rids| ==> rids[n].Id? && RedeemById(st.redeems, rids[n].id).Some?
    decreases |rids|
  {
    if |rids| == 0 then []
    else [st.redeems[RedeemById(st.redeems, rids[0].id).value].amount] + ClaimedAmounts(st, rids[1..])
  }

  /** User `i` is found under its id, has a truthy `referredBy`, and edge `k`
      is the only edge referring it, from that code. */
  predicate SoleEdge(st: Store, i: nat, k: nat)
  {
    && i < |st.users| && k < |st.referrals|
    && Truthy(st.users[i].referredBy)
    && UserById(st.users, st.users[i].id) == Some(i)
    && st.referrals[k].referredUserId == st.users[i].id
    && st.referrals[k].referrerCode == st.users[i].referredBy.value
    && forall m :: 0 <= m < |st.referrals| && m != k ==> st.referrals[m].referredUserId != st.users[i].id
  }

  /** Redemptions keep their ids, submitters and amounts. */
  predicate SameClaims(st: Store, st': Store)
  {
    && SameIds(st, st')
    && forall j :: 0 <= j < |st.redeems| ==>
         st'.redeems[j].userId == st.redeems[j].userId && st'.redeems[j].amount == st.redeems[j].amount
  }

  /** Under the same claims, the ids name the same submitters and amounts. */
  lemma {:induction false} SameClaimsKeepAmounts(st: Store, st': Store, rids: seq<PathId>, uid: UserId)
    requires SameClaims(st, st') && SubmittedBy(st, rids, uid)
    ensures SubmittedBy(st', rids, uid)
    ensures ClaimedAmounts(st', rids) == ClaimedAmounts(st, rids)
    decreases |rids|
  {
    forall n | 0 <= n < |rids|
      ensures RedeemById(st'.redeems, rids[n].id) == RedeemById(st.redeems, rids[n].id)
    {
      SameIdsSameLookups(st, st', 0, rids[n].id);
    }
    if |rids| > 0 {
      assert SubmittedBy(st, rids[1..], uid) by {
        forall n | 0 <= n < |rids[1..]|
          ensures rids[1..][n] == rids[n + 1]
        {
        }
      }
      SameClaimsKeepAmounts(st, st', rids[1..], uid);
    }
  }

  /** Which edge the bonus lookup finds when edge `k` is the user's only edge. */
  lemma SoleEdgeIsOpenEdge(st: Store, i: nat, k: nat)
    requires SoleEdge(st, i, k)
    ensures var u := st.users[i];
            OpenEdge(st.referrals, u.referredBy.value, u.id) == (if st.referrals[k].isRedeemed then None else Some(k))
  {
    var u := st.users[i];
    var o := OpenEdge(st.referrals, u.referredBy.value, u.id);
    if !st.referrals[k].isRedeemed {
      assert o.Some?;
    }
  }

  /** Crediting and accumulating never move a user's id or `referredBy`,
      nor an edge's ends. */
  lemma AccumulatedKeepsLinks(st: Store, i: nat, amount: int, bonus: int, st': Store)
    requires i < |st.users| && Accumulated(st, i, amount, bonus, st')
    ensures |st'.users| == |st.users| && |st'.referrals| == |st.referrals|
    ensures forall j :: 0 <= j < |st.users| ==>
              st'.users[j].id == st.users[j].id && st'.users[j].referredBy == st.users[j].referredBy
    ensures forall m :: 0 <= m < |st.referrals| ==>
              st'.referrals[m].referredUserId == st.referrals[m].referredUserId
              && st'.referrals[m].referrerCode == st.referrals[m].referrerCode
  {
  }

  /** One approval of an existing redemption submitted by user `i` moves
      edge `k` by one `EdgeStep` while it is open. */
  lemma ApproveFoundFeedsEdge(st: Store, di: nat, bonus: int, i: nat, k: nat)
    requires SoleEdge(st, i, k) && di < |st.redeems| && st.redeems[di].userId == st.users[i].id
    ensures var s1 := ApproveFound(st, di, bonus).store;
            var e := st.referrals[k];
            && SoleEdge(s1, i, k) && s1.users[i].id == st.users[i].id
            && SameClaims(st, s1)
            && s1.referrals[k] == (if e.isRedeemed then e else EdgeStep(e, st.redeems[di].amount).0)
  {
    var u := st.users[i];
    var r := ApproveFound(st, di, bonus);
    assert r.Ok?;
    var s1 := r.store;
    assert Accumulated(st, i, st.redeems[di].amount, bonus, s1);
    AccumulatedKeepsLinks(st, i, st.redeems[di].amount, bonus, s1);
    SoleEdgeIsOpenEdge(st, i, k);
    SameIdsSameLookups(st, s1, u.id, 0);
  }

  /** The same step through the route's id lookup. */
  lemma ApproveStepFeedsEdge(st: Store, rid: PathId, env: Env, i: nat, k: nat)
    requires SoleEdge(st, i, k)
    requires rid.Id? && RedeemById(st.redeems, rid.id).Some?
    requires st.redeems[RedeemById(st.redeems, rid.id).value].userId == st.users[i].id
    ensures var s1 := Approve(st, rid, env).store;
            var e := st.referrals[k];
            var a := st.redeems[RedeemById(st.redeems, rid.id).value].amount;
            && SoleEdge(s1, i, k) && s1.users[i].id == st.users[i].id
            && SameClaims(st, s1)
            && s1.referrals[k] == (if e.isRedeemed then e else EdgeStep(e, a).0)
  {
    ApproveFoundFeedsEdge(st, RedeemById(st.redeems, rid.id).value, ThresholdBonus(env), i, k);
  }

  /** Approving a series of redemptions of a user whose only edge is `k`
      leaves that edge exactly as `Feed` leaves it given the claimed amounts. */
  lemma {:induction false} ApprovalsFeedTheEdge(st: Store, rids: seq<PathId>, env: Env, i: nat, k: nat)
    requires SoleEdge(st, i, k) && SubmittedBy(st, rids, st.users[i].id)
    ensures var st' := ApproveAll(st, rids, env);
            && k < |st'.referrals|
            && st'.referrals[k] == Feed(st.referrals[k], ClaimedAmounts(st, rids)).0
    decreases |rids|
  {
    if |rids| > 0 {
      var uid := st.users[i].id;
      var e := st.referrals[k];
      var s1 := Approve(st, rids[0], env).store;
      ApproveStepFeedsEdge(st, rids[0], env, i, k);
      var rest := rids[1..];
      assert SubmittedBy(st, rest, uid) by {
        forall n | 0 <= n < |rest|
          ensures rest[n] == rids[n + 1]
        {
        }
      }
      SameClaimsKeepAmounts(st, s1, rest, uid);
      ApprovalsFeedTheEdge(s1, rest, env, i, k);
      assert ApproveAll(st, rids, env) == ApproveAll(s1, rest, env);
      var amounts := ClaimedAmounts(st, rids);
      assert amounts[1..] == ClaimedAmounts(st, rest);
      if e.isRedeemed {
        FeedIgnoresRedeemedEdge(e, ClaimedAmounts(st, rest));
      }
    }
  }

  /** A redeemed edge is past the threshold and ignores further amounts. */
  lemma FeedIgnoresRedeemedEdge(e: Referral, amounts: seq<int>)
    requires e.isRedeemed
    ensures Feed(e, amounts) == (e, 0)
  {
  }

  /** The threshold promise on the store: after approving a series of
      redemptions of a user whose only edge `k` is open, that edge is
      redeemed exactly when some running total of the claimed amounts
      reaches 100. */
  lemma ApprovalsRedeemAtThreshold(st: Store, rids: seq<PathId>, env: Env, i: nat, k: nat)
    requires SoleEdge(st, i, k) && SubmittedBy(st, rids, st.users[i].id)
    requires !st.referrals[k].isRedeemed
    ensures var st' := ApproveAll(st, rids, env);
            && k < |st'.referrals|
            && (st'.referrals[k].isRedeemed
                <==> Reaches(st.referrals[k].totalApprovedAmount, ClaimedAmounts(st, rids)))
  {
    ApprovalsFeedTheEdge(st, rids, env, i, k);
    FeedPaysOnceAtThreshold(st.referrals[k], ClaimedAmounts(st, rids));
  }
}
