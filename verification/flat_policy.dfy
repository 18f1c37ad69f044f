/** The flat one-time referral bonus policy: approve and reject of a
    redemption as routes/admin.js implements them (routes/redemptions.js
    repeats the same two handlers with other messages).  Approve refuses
    only an already approved redemption, reject only an already rejected one. */
module FlatPolicy {
  import opened Base
  import opened Records
  import opened Accounting

  /** `giftCard?.amount`: the catalog record has no `amount` field (its face
      value is `value`), so the read is undefined whether or not the card exists. */
  function CatalogAmount(card: Option<GiftCard>): Option<int>
  {
    None
  }

  /** `cardAmount || claimed || 0`: the first truthy number. */
  function ResolveAmount(cardAmount: Option<int>, claimed: int): (r: int)
    ensures cardAmount.Some? && cardAmount.value != 0 ==> r == cardAmount.value
    ensures cardAmount.None? || cardAmount.value == 0 ==> r == claimed
  {
    if cardAmount.Some? && cardAmount.value != 0 then cardAmount.value
    else if claimed != 0 then claimed
    else 0
  }

  /** The credited amount is the claimed one; the catalog value plays no part. */
  lemma CreditIsClaimedAmount(card: Option<GiftCard>, claimed: int)
    ensures ResolveAmount(CatalogAmount(card), claimed) == claimed
  {
  }

  /** The bonus step after the credit: through the first unredeemed edge
      from the user's `referredBy` code to the user, mark it redeemed and add
      `bonus` to the earnings of the user holding that code. */
  function PayBonus(st: Store, i: nat, bonus: int): (st': Store)
    requires i < |st.users|
    ensures |st'.users| == |st.users| && |st'.referrals| == |st.referrals|
    ensures st'.redeems == st.redeems && st'.giftCards == st.giftCards
    ensures BalancesUnchanged(st, st')
    ensures !Truthy(st.users[i].referredBy) ==> st' == st
    ensures forall k :: 0 <= k < |st.referrals| && st'.referrals[k] != st.referrals[k] ==>
              !st.referrals[k].isRedeemed && st'.referrals[k] == st.referrals[k].(isRedeemed := true)
    ensures PaidPerFlip(st, st', bonus) || bonus < 0
    ensures RedeemedCount(st'.referrals) <= RedeemedCount(st.referrals) + 1
    ensures forall j :: 0 <= j < |st.users| ==>
              st'.users[j] == st.users[j].(referralEarnings := st'.users[j].referralEarnings)
    ensures var u := st.users[i];
            Truthy(u.referredBy) && OpenEdge(st.referrals, u.referredBy.value, u.id).None? ==> st' == st
    ensures var u := st.users[i];
            Truthy(u.referredBy) && OpenEdge(st.referrals, u.referredBy.value, u.id).Some? ==>
              var k := OpenEdge(st.referrals, u.referredBy.value, u.id).value;
              && st'.referrals == st.referrals[k := st.referrals[k].(isRedeemed := true)]
              && st'.users == CreditCodeHolder(st.users, u.referredBy.value, bonus)
              && (UserByCode(st.users, u.referredBy.value).Some? ==>
                    var j := UserByCode(st.users, u.referredBy.value).value;
                    st'.users[j].referralEarnings == st.users[j].referralEarnings + bonus)
  {
    var u := st.users[i];
    if !Truthy(u.referredBy) then st
    else
      match OpenEdge(st.referrals, u.referredBy.value, u.id)
      case None => st
      case Some(k) => PayEdge(st, k, u.referredBy.value, bonus)
  }

  /** Mark edge `k` redeemed and add `bonus` to the earnings of the user
      holding `code`, when one does. */
  function PayEdge(st: Store, k: nat, code: string, bonus: int): (st': Store)
    requires k < |st.referrals| && !st.referrals[k].isRedeemed
    ensures st'.referrals == st.referrals[k := st.referrals[k].(isRedeemed := true)]
    ensures st'.redeems == st.redeems && st'.giftCards == st.giftCards
    ensures RedeemedCount(st'.referrals) == RedeemedCount(st.referrals) + 1
    ensures st'.users == CreditCodeHolder(st.users, code, bonus)
    ensures UserByCode(st.users, code).None? ==> st'.users == st.users
    ensures UserByCode(st.users, code).Some? ==>
              var j := UserByCode(st.users, code).value;
              && st'.users == st.users[j := st.users[j].(referralEarnings := st.users[j].referralEarnings + bonus)]
              && TotalEarnings(st'.users) == TotalEarnings(st.users) + bonus
  {
    var edges' := st.referrals[k := st.referrals[k].(isRedeemed := true)];
    RedeemedCountUpdate(st.referrals, k, st.referrals[k].(isRedeemed := true));
    st.(referrals := edges', users := CreditCodeHolder(st.users, code, bonus))
  }

  /** The users and edges after user `i` is credited `amount` and the
      bonus step runs: through the first open edge from the user's
      `referredBy` code to the user, that edge is redeemed and the code's
      holder gains `bonus`; with no such edge, only the credit is stored. */
  ghost predicate BonusPaid(st: Store, i: nat, amount: int, bonus: int, st': Store)
    requires i < |st.users|
  {
    var u := st.users[i];
    var credited := st.users[i := u.(balance := u.balance + amount)];
    if Truthy(u.referredBy) && OpenEdge(st.referrals, u.referredBy.value, u.id).Some? then
      var k := OpenEdge(st.referrals, u.referredBy.value, u.id).value;
      && st'.referrals == st.referrals[k := st.referrals[k].(isRedeemed := true)]
      && st'.users == CreditCodeHolder(credited, u.referredBy.value, bonus)
    else
      st'.referrals == st.referrals && st'.users == credited
  }

  /** POST /redemptions/:id/approve. */
  function Approve(st: Store, rid: PathId, bonus: int): (r: Outcome)
    ensures r.Fail? ==> r.store == st
    ensures rid.Malformed? ==> r == Fail(st, InvalidId)
    ensures rid.Id? && RedeemById(st.redeems, rid.id).None? ==> r == Fail(st, NotFound)
    ensures rid.Id? && RedeemById(st.redeems, rid.id).Some? ==>
              var d := st.redeems[RedeemById(st.redeems, rid.id).value];
              && (d.status == Approved ==> r == Fail(st, AlreadyApproved))
              && (d.status != Approved && UserById(st.users, d.userId).None? ==> r == Fail(st, NotFound))
              && (r.Ok? <==> d.status != Approved && UserById(st.users, d.userId).Some?)
    ensures SameIds(st, r.store) && |r.store.referrals| == |st.referrals|
    ensures r.Ok? ==>
              var di := RedeemById(st.redeems, rid.id).value;
              var d := st.redeems[di];
              var i := UserById(st.users, d.userId).value;
              && r.store.redeems == st.redeems[di := d.(status := Approved)]
              && r.store.users[i].balance == st.users[i].balance + d.amount
              && (forall j :: 0 <= j < |st.users| && j != i ==> r.store.users[j].balance == st.users[j].balance)
              && (PaidPerFlip(st, r.store, bonus) || bonus < 0)
              && RedeemedCount(r.store.referrals) <= RedeemedCount(st.referrals) + 1
              && r.store.giftCards == st.giftCards
              && BonusPaid(st, i, d.amount, bonus, r.store)
  {
    match rid
    case Malformed => Fail(st, InvalidId)
    case Id(id) =>
      match RedeemById(st.redeems, id)
      case None => Fail(st, NotFound)
      case Some(di) =>
        var d := st.redeems[di];
        if d.status == Approved then Fail(st, AlreadyApproved)
        else
          match UserById(st.users, d.userId)
          case None => Fail(st, NotFound)
          case Some(i) => Ok(Credit(st, di, i, bonus))
  }

  /** The writes of a successful approval: status, then the submitter's
      balance, then the bonus step. */
  function Credit(st: Store, di: nat, i: nat, bonus: int): (st': Store)
    requires di < |st.redeems| && i < |st.users|
    ensures SameIds(st, st') && |st'.referrals| == |st.referrals|
    ensures st'.redeems == st.redeems[di := st.redeems[di].(status := Approved)]
    ensures st'.users[i].balance == st.users[i].balance + st.redeems[di].amount
    ensures forall j :: 0 <= j < |st.users| && j != i ==> st'.users[j].balance == st.users[j].balance
    ensures PaidPerFlip(st, st', bonus) || bonus < 0
    ensures RedeemedCount(st'.referrals) <= RedeemedCount(st.referrals) + 1
    ensures st'.giftCards == st.giftCards
    ensures BonusPaid(st, i, st.redeems[di].amount, bonus, st')
  {
    var d := st.redeems[di];
    var amount := ResolveAmount(CatalogAmount(GiftCardById(st.giftCards, d.giftCardId)), d.amount);
    var st1 := st.(redeems := st.redeems[di := d.(status := Approved)]);
    var u' := st1.users[i].(balance := st1.users[i].balance + amount);
    TotalEarningsUpdate(st1.users, i, u');
    var st2 := st1.(users := st1.users[i := u']);
    PayBonus(st2, i, bonus)
  }

  /** POST /redemptions/:id/reject. */
  function Reject(st: Store, rid: PathId, reason: Option<string>): (r: Outcome)
    ensures r.Fail? ==> r.store == st
    ensures rid.Malformed? ==> r == Fail(st, InvalidId)
    ensures rid.Id? && RedeemById(st.redeems, rid.id).None? ==> r == Fail(st, NotFound)
    ensures rid.Id? && RedeemById(st.redeems, rid.id).Some? ==>
              var d := st.redeems[RedeemById(st.redeems, rid.id).value];
              && (d.status == Rejected <==> r == Fail(st, AlreadyRejected))
              && (r.Ok? <==> d.status != Rejected)
    ensures SameIds(st, r.store)
    ensures r.Ok? ==>
              var di := RedeemById(st.redeems, rid.id).value;
              var d := st.redeems[di];
              && r.store == st.(redeems := st.redeems[di := d.(status := Rejected, reason := r.store.redeems[di].reason)])
              && r.store.redeems[di].reason == (if Truthy(reason) then reason else Some("No reason provided"))
  {
    match rid
    case Malformed => Fail(st, InvalidId)
    case Id(id) =>
      match RedeemById(st.redeems, id)
      case None => Fail(st, NotFound)
      case Some(di) =>
        var d := st.redeems[di];
        if d.status == Rejected then Fail(st, AlreadyRejected)
        else
          var why := if Truthy(reason) then reason else Some("No reason provided");
          Ok(st.(redeems := st.redeems[di := d.(status := Rejected, reason := why)]))
  }

  // ---------------------------------------------------------------- properties

  /** A second approval of the same redemption is refused and changes
      nothing, so the balance is credited once. */
  lemma ApproveTwiceRefused(st: Store, rid: PathId, bonus: int)
    requires Approve(st, rid, bonus).Ok?
    ensures var st' := Approve(st, rid, bonus).store;
            Approve(st', rid, bonus) == Fail(st', AlreadyApproved)
  {
    var st' := Approve(st, rid, bonus).store;
    SameIdsSameLookups(st, st', 0, rid.id);
  }

  /** Reject does not reverse an approval, and approve accepts a rejected
      redemption: approve, reject, approve credits the claimed amount twice. */
  lemma ApproveRejectApproveCreditsTwice(st: Store, rid: PathId, bonus: int, reason: Option<string>)
    requires Approve(st, rid, bonus).Ok?
    ensures var di := RedeemById(st.redeems, rid.id).value;
            var d := st.redeems[di];
            var i := UserById(st.users, d.userId).value;
            var s1 := Approve(st, rid, bonus).store;
            var r2 := Reject(s1, rid, reason);
            var r3 := Approve(r2.store, rid, bonus);
            && r2.Ok? && r3.Ok?
            && r2.store.users[i].balance == st.users[i].balance + d.amount
            && r3.store.users[i].balance == st.users[i].balance + 2 * d.amount
  {
    var di := RedeemById(st.redeems, rid.id).value;
    var d := st.redeems[di];
    var i := UserById(st.users, d.userId).value;
    var s1 := Approve(st, rid, bonus).store;
    SameIdsSameLookups(st, s1, d.userId, rid.id);
    var s2 := Reject(s1, rid, reason).store;
    SameIdsSameLookups(s1, s2, d.userId, rid.id);
    assert s2.redeems[di].status == Rejected;
    assert s2.users == s1.users;
  }

  /** Reject leaves every balance and every edge as it was. */
  lemma RejectMovesNoMoney(st: Store, rid: PathId, reason: Option<string>)
    ensures var st' := Reject(st, rid, reason).store;
            st'.users == st.users && st'.referrals == st.referrals
  {
  }

  lemma BonusBound(bonus: int, flips: int, edges: int)
    requires bonus >= 0 && flips <= edges
    ensures bonus * flips <= bonus * edges
  {
  }

  /** The store after approving each id in turn (failures change nothing). */
  function ApproveAll(st: Store, rids: seq<PathId>, bonus: int): Store
    decreases |rids|
  {
    if |rids| == 0 then st else ApproveAll(Approve(st, rids[0], bonus).store, rids[1..], bonus)
  }

  lemma ApproveStepPaysPerFlip(st: Store, rid: PathId, bonus: int)
    requires bonus >= 0
    ensures var st' := Approve(st, rid, bonus).store;
            PaidPerFlip(st, st', bonus) && |st'.referrals| == |st.referrals|
  {
  }

  /** Every prefix of approvals keeps the edge count and pays at most
      `bonus` per edge it flips. */
  lemma {:induction false} ApproveAllPaysPerFlip(st: Store, rids: seq<PathId>, bonus: int)
    requires bonus >= 0
    ensures var st' := ApproveAll(st, rids, bonus);
            |st'.referrals| == |st.referrals| && PaidPerFlip(st, st', bonus)
    decreases |rids|
  {
    if |rids| > 0 {
      var s1 := Approve(st, rids[0], bonus).store;
      var st' := ApproveAll(s1, rids[1..], bonus);
      ApproveStepPaysPerFlip(st, rids[0], bonus);
      ApproveAllPaysPerFlip(s1, rids[1..], bonus);
      assert ApproveAll(st, rids, bonus) == st';
      PaidPerFlipTransitive(st, s1, st', bonus);
    }
  }

  /** Over any sequence of approvals the referrers together earn at most
      `bonus` per edge unredeemed at the start: at most once per edge,
      however often the referred users are approved. */
  lemma BonusAtMostOncePerEdge(st: Store, rids: seq<PathId>, bonus: int)
    requires bonus >= 0
    ensures var st' := ApproveAll(st, rids, bonus);
            TotalEarnings(st'.users)
            <= TotalEarnings(st.users) + bonus * (|st.referrals| - RedeemedCount(st.referrals))
  {
    var st' := ApproveAll(st, rids, bonus);
    ApproveAllPaysPerFlip(st, rids, bonus);
    var flips := RedeemedCount(st'.referrals) - RedeemedCount(st.referrals);
    assert flips <= |st.referrals| - RedeemedCount(st.referrals);
    BonusBound(bonus, flips, |st.referrals| - RedeemedCount(st.referrals));
  }
}
