/** Totals over the store used to state "at most one bonus per edge", and the
    two readings of the `REFERRAL_BONUS` environment variable. */
module Accounting {
  import opened Base
  import opened Records

  /** The sum of `referralEarnings` over all users. */
  function TotalEarnings(users: seq<User>): int
  {
    if |users| == 0 then 0 else TotalEarnings(users[..|users| - 1]) + users[|users| - 1].referralEarnings
  }

  /** The number of referral edges whose bonus is marked paid. */
  function RedeemedCount(edges: seq<Referral>): (n: nat)
    ensures n <= |edges|
  {
    if |edges| == 0 then 0
    else RedeemedCount(edges[..|edges| - 1]) + (if edges[|edges| - 1].isRedeemed then 1 else 0)
  }

  /** Replacing one user changes the total by exactly that user's difference. */
  lemma {:induction false} TotalEarningsUpdate(users: seq<User>, i: nat, u: User)
    requires i < |users|
    ensures TotalEarnings(users[i := u]) == TotalEarnings(users) - users[i].referralEarnings + u.referralEarnings
    decreases |users|
  {
    var n := |users| - 1;
    if i < n {
      assert users[i := u][..n] == users[..n][i := u];
      TotalEarningsUpdate(users[..n], i, u);
    } else {
      assert users[i := u][..n] == users[..n];
    }
  }

  /** Replacing one edge changes the count by exactly that edge's difference. */
  lemma {:induction false} RedeemedCountUpdate(edges: seq<Referral>, k: nat, e: Referral)
    requires k < |edges|
    ensures RedeemedCount(edges[k := e]) + (if edges[k].isRedeemed then 1 else 0)
            == RedeemedCount(edges) + (if e.isRedeemed then 1 else 0)
    decreases |edges|
  {
    var n := |edges| - 1;
    if k < n {
      assert edges[k := e][..n] == edges[..n][k := e];
      RedeemedCountUpdate(edges[..n], k, e);
    } else {
      assert edges[k := e][..n] == edges[..n];
    }
  }

  /** Appending an edge adds one to the count exactly when it is redeemed. */
  lemma RedeemedCountAppend(edges: seq<Referral>, e: Referral)
    ensures RedeemedCount(edges + [e]) == RedeemedCount(edges) + (if e.isRedeemed then 1 else 0)
  {
    assert (edges + [e])[..|edges|] == edges;
  }

  /** Appending a user adds that user's earnings to the total. */
  lemma TotalEarningsAppend(users: seq<User>, u: User)
    ensures TotalEarnings(users + [u]) == TotalEarnings(users) + u.referralEarnings
  {
    assert (users + [u])[..|users|] == users;
  }

  /** The users after the holder of `code`, when there is one, gains
      `bonus` in referral earnings. */
  function CreditCodeHolder(users: seq<User>, code: string, bonus: int): (r: seq<User>)
    ensures |r| == |users|
    ensures forall j :: 0 <= j < |users| ==> r[j] == users[j].(referralEarnings := r[j].referralEarnings)
    ensures UserByCode(users, code).None? ==> r == users
    ensures UserByCode(users, code).Some? ==>
              var j := UserByCode(users, code).value;
              && r == users[j := users[j].(referralEarnings := users[j].referralEarnings + bonus)]
              && TotalEarnings(r) == TotalEarnings(users) + bonus
  {
    match UserByCode(users, code)
    case None => users
    case Some(j) =>
      var ref' := users[j].(referralEarnings := users[j].referralEarnings + bonus);
      TotalEarningsUpdate(users, j, ref');
      users[j := ref']
  }

  /** The edge predicate the bonus accounting is stated over: every change
      from `edges` to `edges'` flips unredeemed edges to redeemed, and the
      earnings total rose by `bonus` per flipped edge at most. */
  ghost predicate PaidPerFlip(st: Store, st': Store, bonus: int)
  {
    && RedeemedCount(st'.referrals) >= RedeemedCount(st.referrals)
    && TotalEarnings(st'.users) - TotalEarnings(st.users)
       <= bonus * (RedeemedCount(st'.referrals) - RedeemedCount(st.referrals))
  }

  lemma PaidPerFlipTransitive(a: Store, b: Store, c: Store, bonus: int)
    requires PaidPerFlip(a, b, bonus) && PaidPerFlip(b, c, bonus)
    ensures PaidPerFlip(a, c, bonus)
  {
  }

  /** The value of the `REFERRAL_BONUS` environment variable. */
  datatype Env = Unset | Empty | Numeric(n: int) | NotANumber

  /** `Number(process.env.REFERRAL_BONUS || 3)` (admin.js, redemptions.js):
      an unset or empty variable gives 3, "0" gives 0, a non-numeric value
      gives NaN, written `None`. */
  function FlatBonus(env: Env): (r: Option<int>)
    ensures env.Numeric? ==> r == Some(env.n)
    ensures env.NotANumber? <==> r.None?
    ensures env.Unset? || env.Empty? ==> r == Some(3)
  {
    match env
    case Unset => Some(3)
    case Empty => Some(3)
    case Numeric(n) => Some(n)
    case NotANumber => None
  }

  /** `Number(process.env.REFERRAL_BONUS) || 3` (giftcards.js, redeem.js):
      every falsy number, 0 and NaN included, falls back to 3. */
  function ThresholdBonus(env: Env): (r: int)
    ensures env.Numeric? && env.n != 0 ==> r == env.n
    ensures !(env.Numeric? && env.n != 0) ==> r == 3
  {
    match env
    case Numeric(n) => if n != 0 then n else 3
    case _ => 3
  }

  /** The two readings agree except on "0" and on a non-numeric value. */
  lemma BonusReadingsAgree(env: Env)
    ensures FlatBonus(env) == Some(ThresholdBonus(env)) <==> !(env.Numeric? && env.n == 0) && !env.NotANumber?
  {
  }
}
