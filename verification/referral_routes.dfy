/** The stand-alone referral endpoints of routes/referral.js: edge creation,
    the one-time +3 redeem, per-code stats and the earnings leaderboard. */
module ReferralRoutes {
  import opened Base
  import opened Records
  import opened Accounting

  /** The fixed amount `/redeem` adds to the referrer's earnings. */
  const RedeemBonus: int := 3

  /** The number of leaderboard entries. */
  const LeaderboardSize: nat := 10

  /** POST /: the edge is saved first (failing only on a missing field);
      the referrer's `referrals` then gains the referred id when the code
      resolves. */
  function CreateEdge(st: Store, referrerCode: Option<string>, referredUserId: Option<UserId>): (r: Outcome)
    ensures r.Fail? <==> MakeReferral(referrerCode, referredUserId).Failure?
    ensures r.Fail? ==> r.store == st && r.error == ServerError
    ensures r.Ok? ==>
              && r.store.referrals == st.referrals + [Referral(referrerCode.value, referredUserId.value, false, 0)]
              && r.store.redeems == st.redeems
              && r.store.giftCards == st.giftCards
              && |r.store.users| == |st.users|
    ensures r.Ok? && UserByCode(st.users, referrerCode.value).None? ==>
              r.store == st.(referrals := r.store.referrals)
    ensures r.Ok? && UserByCode(st.users, referrerCode.value).Some? ==>
              var j := UserByCode(st.users, referrerCode.value).value;
              && OnlyUserChanged(st.(referrals := r.store.referrals), r.store, j)
              && r.store.users[j] == st.users[j].(referrals := st.users[j].referrals + [referredUserId.value])
  {
    match MakeReferral(referrerCode, referredUserId)
    case Failure(e) => Fail(st, e)
    case Success(edge) =>
      var st1 := st.(referrals := st.referrals + [edge]);
      match UserByCode(st1.users, edge.referrerCode)
      case None => Ok(st1)
      case Some(j) =>
        Ok(st1.(users := st1.users[j := st1.users[j].(referrals := st1.users[j].referrals + [edge.referredUserId])]))
  }

  /** The first unredeemed edge of a referred user, whatever its code. */
  function OpenEdgeOf(edges: seq<Referral>, uid: UserId): (r: Option<nat>)
    ensures r.Some? ==> r.value < |edges| && !edges[r.value].isRedeemed && edges[r.value].referredUserId == uid
    ensures r.None? <==> forall k :: 0 <= k < |edges| ==> edges[k].isRedeemed || edges[k].referredUserId != uid
  {
    FindIndex(edges, (e: Referral) => !e.isRedeemed && e.referredUserId == uid)
  }

  /** PATCH /redeem: mark the user's first unredeemed edge redeemed and add 3
      to the earnings of the user holding its code.  A `referredUserId` that
      is not an ObjectId makes the query's cast throw, answered 500; any
      well-formed id is answered with success. */
  function Redeem(st: Store, referredUserId: PathId): (r: Outcome)
    ensures r.Ok? <==> referredUserId.Id?
    ensures referredUserId.Malformed? ==> r == Fail(st, ServerError)
    ensures SameIds(st, r.store) && |r.store.referrals| == |st.referrals|
    ensures BalancesUnchanged(st, r.store) && r.store.redeems == st.redeems && r.store.giftCards == st.giftCards
    ensures referredUserId.Id? && OpenEdgeOf(st.referrals, referredUserId.id).None? ==> r.store == st
    ensures referredUserId.Id? && OpenEdgeOf(st.referrals, referredUserId.id).Some? ==>
              var k := OpenEdgeOf(st.referrals, referredUserId.id).value;
              && r.store.referrals == st.referrals[k := st.referrals[k].(isRedeemed := true)]
              && RedeemedCount(r.store.referrals) == RedeemedCount(st.referrals) + 1
              && (UserByCode(st.users, st.referrals[k].referrerCode).None? ==> r.store.users == st.users)
              && (UserByCode(st.users, st.referrals[k].referrerCode).Some? ==>
                    var j := UserByCode(st.users, st.referrals[k].referrerCode).value;
                    && r.store.users == st.users[j := st.users[j].(referralEarnings := st.users[j].referralEarnings + RedeemBonus)]
                    && TotalEarnings(r.store.users) == TotalEarnings(st.users) + RedeemBonus)
  {
    if referredUserId.Malformed? then Fail(st, ServerError)
    else
      match OpenEdgeOf(st.referrals, referredUserId.id)
      case None => Ok(st)
      case Some(k) =>
        var e := st.referrals[k];
        var edges' := st.referrals[k := e.(isRedeemed := true)];
        RedeemedCountUpdate(st.referrals, k, e.(isRedeemed := true));
        Ok(st.(referrals := edges', users := CreditCodeHolder(st.users, e.referrerCode, RedeemBonus)))
  }

  /** A second `/redeem` for a user with one edge finds nothing open, changes
      nothing, and still reports success. */
  lemma RedeemIsIdempotent(st: Store, uid: UserId)
    requires forall k, m :: 0 <= k < m < |st.referrals| ==>
               st.referrals[k].referredUserId != uid || st.referrals[m].referredUserId != uid
    ensures var s1 := Redeem(st, Id(uid)).store;
            Redeem(s1, Id(uid)) == Ok(s1)
  {
    var s1 := Redeem(st, Id(uid)).store;
    var o := OpenEdgeOf(st.referrals, uid);
    if o.Some? {
      forall k | 0 <= k < |s1.referrals|
        ensures s1.referrals[k].isRedeemed || s1.referrals[k].referredUserId != uid
      {
        if k != o.value {
          assert st.referrals[k].referredUserId != uid;
        }
      }
    }
  }

  datatype Stats = Stats(count: nat, earnings: int)

  /** GET /stats/:referralCode. */
  function GetStats(st: Store, code: string): (r: Result<Stats>)
    ensures r.Failure? <==> forall j :: 0 <= j < |st.users| ==> st.users[j].referralCode != Some(code)
    ensures r.Failure? ==> r.error == NotFound
    ensures r.Success? ==>
              var j := UserByCode(st.users, code).value;
              r.value == Stats(|st.users[j].referrals|, st.users[j].referralEarnings)
  {
    match UserByCode(st.users, code)
    case None => Failure(NotFound)
    case Some(j) => Success(Stats(|st.users[j].referrals|, st.users[j].referralEarnings))
  }

  /** Creating an edge for a resolvable code raises that code's count by
      one and leaves its earnings alone. */
  lemma CreateEdgeRaisesCount(st: Store, code: string, uid: UserId)
    requires |code| > 0 && GetStats(st, code).Success?
    ensures var r := CreateEdge(st, Some(code), Some(uid));
            && r.Ok?
            && GetStats(r.store, code).Success?
            && GetStats(r.store, code).value.count == GetStats(st, code).value.count + 1
            && GetStats(r.store, code).value.earnings == GetStats(st, code).value.earnings
  {
    var r := CreateEdge(st, Some(code), Some(uid));
    var j := UserByCode(st.users, code).value;
    assert forall m :: 0 <= m < |st.users| ==> r.store.users[m].referralCode == st.users[m].referralCode;
    assert UserByCode(r.store.users, code) == Some(j) by {
      var j' := UserByCode(r.store.users, code).value;
      assert r.store.users[j].referralCode == Some(code);
    }
  }

  // ---------------------------------------------------------------- leaderboard

  predicate Earns(u: User)
  {
    u.referralEarnings > 0
  }

  predicate DescendingByEarnings(s: seq<User>)
  {
    forall a, b :: 0 <= a < b < |s| ==> s[a].referralEarnings >= s[b].referralEarnings
  }

  /** An entry earning at least the head of a descending list can go in front. */
  lemma ConsDescending(x: User, t: seq<User>)
    requires DescendingByEarnings(t)
    requires |t| > 0 ==> t[0].referralEarnings <= x.referralEarnings
    ensures DescendingByEarnings([x] + t)
  {
    var r := [x] + t;
    forall a, b | 0 <= a < b < |r|
      ensures r[a].referralEarnings >= r[b].referralEarnings
    {
      assert r[b] == t[b - 1];
      if a == 0 {
        assert t[0].referralEarnings >= t[b - 1].referralEarnings;
      } else {
        assert r[a] == t[a - 1];
      }
    }
  }

  /** Insert into a list sorted by non-increasing earnings, after the
      entries with equal earnings. */
  function InsertByEarnings(u: User, s: seq<User>): (r: seq<User>)
    requires DescendingByEarnings(s)
    ensures DescendingByEarnings(r)
    ensures multiset(r) == multiset(s) + multiset{u}
    ensures |r| == |s| + 1
    ensures r[0] == u || (|s| > 0 && r[0] == s[0])
  {
    if |s| == 0 then [u]
    else if s[0].referralEarnings >= u.referralEarnings then
      var t := InsertByEarnings(u, s[1..]);
      assert s == [s[0]] + s[1..];
      ConsDescending(s[0], t);
      [s[0]] + t
    else
      ConsDescending(u, s);
      [u] + s
  }

  function SortByEarnings(s: seq<User>): (r: seq<User>)
    ensures DescendingByEarnings(r)
    ensures multiset(r) == multiset(s)
  {
    if |s| == 0 then []
    else
      assert s == [s[0]] + s[1..];
      InsertByEarnings(s[0], SortByEarnings(s[1..]))
  }

  function Min(a: nat, b: nat): nat
  {
    if a <= b then a else b
  }

  /** Whatever a prefix of a descending list leaves out earns no more than
      anything the prefix keeps. */
  lemma PrefixIsTop(sorted: seq<User>, n: nat)
    requires DescendingByEarnings(sorted) && n <= |sorted|
    ensures multiset(sorted) == multiset(sorted[..n]) + multiset(sorted[n..])
    ensures forall u :: u in multiset(sorted) - multiset(sorted[..n]) ==>
              forall a :: 0 <= a < n ==> u.referralEarnings <= sorted[a].referralEarnings
  {
    assert sorted == sorted[..n] + sorted[n..];
    forall u | u in multiset(sorted) - multiset(sorted[..n])
      ensures forall a :: 0 <= a < n ==> u.referralEarnings <= sorted[a].referralEarnings
    {
      assert u in sorted[n..];
      var b :| 0 <= b < |sorted[n..]| && sorted[n..][b] == u;
      assert sorted[n + b] == u;
    }
  }

  /** Every member of a filtered list is a member of the list that passes. */
  lemma FilterMember(users: seq<User>, p: User -> bool, x: User)
    requires x in Filter(users, p)
    ensures x in users && p(x)
  {
    var f := Filter(users, p);
    var i :| 0 <= i < |f| && f[i] == x;
  }

  /** A prefix of a descending list is descending. */
  lemma PrefixDescending(s: seq<User>, n: nat)
    requires DescendingByEarnings(s) && n <= |s|
    ensures DescendingByEarnings(s[..n])
  {
    assert forall a :: 0 <= a < n ==> s[..n][a] == s[a];
  }

  /** What the first `Min(LeaderboardSize, |sorted|)` of the sorted earners satisfy. */
  lemma TopOfEarners(users: seq<User>, sorted: seq<User>, r: seq<User>)
    requires DescendingByEarnings(sorted) && multiset(sorted) == multiset(Filter(users, Earns))
    requires r == sorted[..Min(LeaderboardSize, |sorted|)]
    ensures |r| == Min(LeaderboardSize, |Filter(users, Earns)|)
    ensures DescendingByEarnings(r)
    ensures forall a :: 0 <= a < |r| ==> r[a].referralEarnings > 0 && r[a] in users
    ensures multiset(r) <= multiset(Filter(users, Earns))
    ensures forall u :: u in multiset(Filter(users, Earns)) - multiset(r) ==>
              forall a :: 0 <= a < |r| ==> u.referralEarnings <= r[a].referralEarnings
  {
    var earners := Filter(users, Earns);
    var n := Min(LeaderboardSize, |sorted|);
    assert |sorted| == |earners| by { assert |multiset(sorted)| == |multiset(earners)|; }
    PrefixIsTop(sorted, n);
    PrefixDescending(sorted, n);
    forall a | 0 <= a < n
      ensures r[a].referralEarnings > 0 && r[a] in users
    {
      assert r[a] == sorted[a];
      assert sorted[a] in multiset(earners);
      FilterMember(users, Earns, sorted[a]);
    }
  }

  /** GET /leaderboard: the users with positive earnings, by non-increasing
      earnings, at most ten. */
  function Leaderboard(users: seq<User>): (r: seq<User>)
    ensures |r| == Min(LeaderboardSize, |Filter(users, Earns)|)
    ensures DescendingByEarnings(r)
    ensures forall a :: 0 <= a < |r| ==> r[a].referralEarnings > 0 && r[a] in users
    ensures multiset(r) <= multiset(Filter(users, Earns))
    ensures forall u :: u in multiset(Filter(users, Earns)) - multiset(r) ==>
              forall a :: 0 <= a < |r| ==> u.referralEarnings <= r[a].referralEarnings
  {
    var sorted := SortByEarnings(Filter(users, Earns));
    var r := sorted[..Min(LeaderboardSize, |sorted|)];
    TopOfEarners(users, sorted, r);
    r
  }
}
