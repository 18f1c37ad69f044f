/** The two registration handlers and the two profile reads.  routes/users.js
    gives every new user a fresh referral code and credits a resolved
    referrer's balance with 3 at once; routes/adminlogin.js gives no code,
    credits nothing, and instead records a referral edge whose bonus is paid
    later by the approval handlers. */
module Registration {
  import opened Base
  import opened Records

  /** The amount users.js adds to the referrer's balance at sign-up. */
  const SignupBonus: int := 3

  /** Some user already holds this referral code. */
  predicate CodeInUse(users: seq<User>, code: string)
  {
    exists j :: 0 <= j < |users| && users[j].referralCode == Some(code)
  }

  /** `generateUniqueReferralCode`: the position of the first generated
      candidate no user holds.  The generator's output is the parameter
      `candidates`; `None` stands for a loop that never finds a free code. */
  function FirstUnusedCode(users: seq<User>, candidates: seq<string>): (r: Option<nat>)
    ensures r.Some? ==> r.value < |candidates| && !CodeInUse(users, candidates[r.value])
    ensures r.Some? ==> forall m :: 0 <= m < r.value ==> CodeInUse(users, candidates[m])
    ensures r.None? <==> forall m :: 0 <= m < |candidates| ==> CodeInUse(users, candidates[m])
  {
    FindIndex(candidates, (c: string) => !CodeInUse(users, c))
  }

  /** The referrer after users.js has saved it: the new id pushed onto
      `referrals` and the balance raised by 3. */
  function CreditedReferrer(u: User, newId: UserId): (r: User)
    ensures r.balance == u.balance + SignupBonus
    ensures r.referrals == u.referrals + [newId]
    ensures r == u.(balance := r.balance, referrals := r.referrals)
  {
    u.(referrals := u.referrals + [newId], balance := u.balance + SignupBonus)
  }

  /** POST /api/users (routes/users.js).  `hashed` is the bcrypt hash of the
      password and `candidates` the codes `shortid` would generate.  The
      referrer is saved before the new user, so a failing insert leaves the
      referrer credited. */
  function RegisterWithBalanceBonus(st: Store, b: RegisterBody, newId: UserId, hashed: string,
                                    candidates: seq<string>): (r: Outcome)
    ensures r.store.redeems == st.redeems && r.store.referrals == st.referrals && r.store.giftCards == st.giftCards
    ensures ValidateUser(b).Failure? ==> r == Fail(st, InvalidInput)
    ensures ValidateUser(b).Success? && UserByEmail(st.users, b.email.value).Some? ==> r == Fail(st, AlreadyRegistered)
    ensures ValidateUser(b).Success? && UserByEmail(st.users, b.email.value).None? ==>
              (FirstUnusedCode(st.users, candidates).None? ==> r == Fail(st, ServerError))
    ensures r.Ok? ==>
              && ValidateUser(b).Success? && UserByEmail(st.users, b.email.value).None?
              && |r.store.users| == |st.users| + 1
              && var u := r.store.users[|st.users|];
                 && u.id == newId && u.name == b.name.value && u.email == b.email.value
                 && u.password == hashed && !u.isAdmin && u.balance == 0 && u.referralEarnings == 0
                 && u.referrals == [] && u.withdrawals == []
                 && u.referralCode.Some? && u.referralCode.value in candidates
                 && !CodeInUse(st.users, u.referralCode.value)
    ensures r.Ok? && Truthy(b.referredBy) && UserByCode(st.users, b.referredBy.value).Some? ==>
              var j := UserByCode(st.users, b.referredBy.value).value;
              && r.store.users[|st.users|].referredBy == b.referredBy
              && r.store.users[j] == CreditedReferrer(st.users[j], newId)
              && forall m :: 0 <= m < |st.users| && m != j ==> r.store.users[m] == st.users[m]
    ensures r.Ok? && (b.referredBy.None? || UserByCode(st.users, b.referredBy.value).None?) ==>
              && r.store.users[|st.users|].referredBy.None?
              && r.store.users[..|st.users|] == st.users
    ensures r.Fail? && ValidateUser(b).Success? && UserByEmail(st.users, b.email.value).None?
              && FirstUnusedCode(st.users, candidates).Some? ==>
              && r.error == ServerError
              && (b.referredBy.Some? && UserByCode(st.users, b.referredBy.value).Some? ==>
                    var j := UserByCode(st.users, b.referredBy.value).value;
                    r.store == st.(users := st.users[j := CreditedReferrer(st.users[j], newId)]))
              && (b.referredBy.None? || UserByCode(st.users, b.referredBy.value).None? ==> r.store == st)
  {
    match ValidateUser(b)
    case Failure(e) => Fail(st, e)
    case Success(reg) =>
      if UserByEmail(st.users, reg.email).Some? then Fail(st, AlreadyRegistered)
      else
        match FirstUnusedCode(st.users, candidates)
        case None => Fail(st, ServerError)
        case Some(k) => SaveWithCode(st, reg, newId, hashed, candidates[k])
  }

  /** The writes of a users.js registration once a free code is found: a
      resolved referrer is credited and saved, then the new user is inserted. */
  function SaveWithCode(st: Store, reg: Registration, newId: UserId, hashed: string, code: string): (r: Outcome)
    ensures r.store.redeems == st.redeems && r.store.referrals == st.referrals && r.store.giftCards == st.giftCards
    ensures r.Ok? ==>
              && |r.store.users| == |st.users| + 1
              && var u := r.store.users[|st.users|];
                 && u.id == newId && u.name == reg.name && u.email == reg.email
                 && u.password == hashed && !u.isAdmin && u.balance == 0 && u.referralEarnings == 0
                 && u.referrals == [] && u.withdrawals == [] && u.referralCode == Some(code)
    ensures r.Ok? && reg.referredBy.Some? && UserByCode(st.users, reg.referredBy.value).Some? ==>
              var j := UserByCode(st.users, reg.referredBy.value).value;
              && r.store.users[|st.users|].referredBy == reg.referredBy
              && r.store.users[j] == CreditedReferrer(st.users[j], newId)
              && forall m :: 0 <= m < |st.users| && m != j ==> r.store.users[m] == st.users[m]
    ensures r.Ok? && (reg.referredBy.None? || UserByCode(st.users, reg.referredBy.value).None?) ==>
              && r.store.users[|st.users|].referredBy.None?
              && r.store.users[..|st.users|] == st.users
    ensures r.Fail? ==> r.error == ServerError
    ensures r.Fail? && reg.referredBy.Some? && UserByCode(st.users, reg.referredBy.value).Some? ==>
              var j := UserByCode(st.users, reg.referredBy.value).value;
              r.store == st.(users := st.users[j := CreditedReferrer(st.users[j], newId)])
    ensures r.Fail? && (reg.referredBy.None? || UserByCode(st.users, reg.referredBy.value).None?) ==>
              r.store == st
  {
    var created := NewUser(newId, reg.name, reg.email, hashed, reg.referredBy).(referralCode := Some(code));
    var referrer := if reg.referredBy.Some? then UserByCode(st.users, reg.referredBy.value) else None;
    var users1 := if referrer.Some? then st.users[referrer.value := CreditedReferrer(st.users[referrer.value], newId)]
                  else st.users;
    var u := if referrer.Some? then created else created.(referredBy := None);
    match InsertUser(users1, u)
    case Failure(e) => Fail(st.(users := users1), e)
    case Success(users2) =>
      assert users2[..|st.users|] == users1;
      Ok(st.(users := users2))
  }

  /** With an id no user has, a valid body with a new email and a free
      candidate code always registers. */
  lemma RegisterWithFreshIdSucceeds(st: Store, b: RegisterBody, newId: UserId, hashed: string,
                                    candidates: seq<string>)
    requires UserById(st.users, newId).None?
    requires ValidateUser(b).Success? && UserByEmail(st.users, b.email.value).None?
    requires exists m :: 0 <= m < |candidates| && !CodeInUse(st.users, candidates[m])
    ensures RegisterWithBalanceBonus(st, b, newId, hashed, candidates).Ok?
  {
    var k := FirstUnusedCode(st.users, candidates).value;
    var code := candidates[k];
    var referrer := if b.referredBy.Some? then UserByCode(st.users, b.referredBy.value) else None;
    var users1 := if referrer.Some? then st.users[referrer.value := CreditedReferrer(st.users[referrer.value], newId)]
                  else st.users;
    forall j | 0 <= j < |users1|
      ensures users1[j].id != newId && users1[j].email != b.email.value && users1[j].referralCode != Some(code)
    {
      assert users1[j].id == st.users[j].id && users1[j].email == st.users[j].email;
      assert users1[j].referralCode == st.users[j].referralCode;
    }
  }

  /** The same body registered twice: the second attempt is refused for its
      email and changes nothing. */
  lemma RegisterTwiceRefused(st: Store, b: RegisterBody, id1: UserId, id2: UserId, hashed: string,
                             candidates: seq<string>)
    requires RegisterWithBalanceBonus(st, b, id1, hashed, candidates).Ok?
    ensures var s1 := RegisterWithBalanceBonus(st, b, id1, hashed, candidates).store;
            RegisterWithBalanceBonus(s1, b, id2, hashed, candidates) == Fail(s1, AlreadyRegistered)
  {
    var s1 := RegisterWithBalanceBonus(st, b, id1, hashed, candidates).store;
    assert s1.users[|st.users|].email == b.email.value;
  }

  /** users.js keeps the user collection's unique indexes unique. */
  lemma RegisterKeepsIndexesUnique(st: Store, b: RegisterBody, newId: UserId, hashed: string,
                                   candidates: seq<string>)
    requires UniqueIndexes(st.users)
    ensures var r := RegisterWithBalanceBonus(st, b, newId, hashed, candidates);
            r.Ok? ==> UniqueIndexes(r.store.users)
  {
    var r := RegisterWithBalanceBonus(st, b, newId, hashed, candidates);
    if r.Ok? {
      var reg := ValidateUser(b).value;
      var k := FirstUnusedCode(st.users, candidates).value;
      assert r == SaveWithCode(st, reg, newId, hashed, candidates[k]);
      var created := NewUser(newId, reg.name, reg.email, hashed, reg.referredBy).(referralCode := Some(candidates[k]));
      var referrer := if reg.referredBy.Some? then UserByCode(st.users, reg.referredBy.value) else None;
      var users1 := if referrer.Some? then st.users[referrer.value := CreditedReferrer(st.users[referrer.value], newId)]
                    else st.users;
      var u := if referrer.Some? then created else created.(referredBy := None);
      assert SameKeys(st.users, users1);
      SameKeysKeepIndexesUnique(st.users, users1);
      InsertKeepsIndexesUnique(users1, u);
    }
  }

  /** What GET /api/users/me answers. */
  datatype Profile = Profile(balance: int, referralCode: string, referredCount: nat)

  /** GET /api/users/me: the caller is looked up by the token's `_id` claim;
      a missing code reads as "". */
  function Me(st: Store, caller: Option<UserId>): (r: Result<Profile>)
    ensures r.Failure? <==> caller.None? || UserById(st.users, caller.value).None?
    ensures r.Failure? ==> r.error == NotFound
    ensures r.Success? ==>
              var u := st.users[UserById(st.users, caller.value).value];
              && r.value.balance == u.balance
              && r.value.referredCount == |u.referrals|
              && (u.referralCode.Some? ==> r.value.referralCode == u.referralCode.value)
              && (u.referralCode.None? ==> r.value.referralCode == "")
  {
    if caller.None? then Failure(NotFound)
    else
      match UserById(st.users, caller.value)
      case None => Failure(NotFound)
      case Some(i) =>
        var u := st.users[i];
        Success(Profile(u.balance, if u.referralCode.Some? then u.referralCode.value else "", |u.referrals|))
  }

  /** A users.js registration naming a resolvable code shows up on the
      referrer's profile: one more referred user and 3 more in balance. */
  lemma RegisterShowsOnReferrerProfile(st: Store, b: RegisterBody, newId: UserId, hashed: string,
                                       candidates: seq<string>)
    requires UniqueIndexes(st.users)
    requires b.referredBy.Some? && UserByCode(st.users, b.referredBy.value).Some?
    requires RegisterWithBalanceBonus(st, b, newId, hashed, candidates).Ok?
    ensures var j := UserByCode(st.users, b.referredBy.value).value;
            var s1 := RegisterWithBalanceBonus(st, b, newId, hashed, candidates).store;
            var before := Me(st, Some(st.users[j].id));
            var after := Me(s1, Some(st.users[j].id));
            && before.Success? && after.Success?
            && after.value.referredCount == before.value.referredCount + 1
            && after.value.balance == before.value.balance + SignupBonus
  {
    var j := UserByCode(st.users, b.referredBy.value).value;
    var s1 := RegisterWithBalanceBonus(st, b, newId, hashed, candidates).store;
    var id := st.users[j].id;
    assert UserById(st.users, id) == Some(j) by {
      var f := UserById(st.users, id).value;
      assert st.users[f].id == id;
    }
    RegisterKeepsIndexesUnique(st, b, newId, hashed, candidates);
    assert s1.users[j].id == id;
    assert UserById(s1.users, id) == Some(j) by {
      var f := UserById(s1.users, id).value;
      assert s1.users[f].id == id;
    }
  }

  /** POST on the adminlogin.js router: the user is saved first, with no
      referral code; then, for a resolvable `referredBy`, the referrer's
      `referrals` gains the new id and an unredeemed edge is recorded.  An
      unresolvable `referredBy` is stored as given. */
  function RegisterWithEdge(st: Store, b: RegisterBody, newId: UserId, hashed: string): (r: Outcome)
    ensures r.store.redeems == st.redeems && r.store.giftCards == st.giftCards
    ensures ValidateUser(b).Failure? ==> r == Fail(st, InvalidInput)
    ensures ValidateUser(b).Success? && UserByEmail(st.users, b.email.value).Some? ==> r == Fail(st, AlreadyRegistered)
    ensures r.Fail? ==> r.store == st
    ensures ValidateUser(b).Success? && UserByEmail(st.users, b.email.value).None? ==>
              (r.Ok? <==> forall j :: 0 <= j < |st.users| ==> st.users[j].id != newId && st.users[j].referralCode.Some?)
    ensures r.Ok? ==>
              && |r.store.users| == |st.users| + 1
              && r.store.users[|st.users|] == NewUser(newId, b.name.value, b.email.value, hashed, b.referredBy)
              && BalancesUnchanged(st, r.store.(users := r.store.users[..|st.users|]))
    ensures r.Ok? && Truthy(b.referredBy) && UserByCode(st.users, b.referredBy.value).Some? ==>
              var j := UserByCode(st.users, b.referredBy.value).value;
              && r.store.users[j] == st.users[j].(referrals := st.users[j].referrals + [newId])
              && (forall m :: 0 <= m < |st.users| && m != j ==> r.store.users[m] == st.users[m])
              && r.store.referrals == st.referrals + [Referral(b.referredBy.value, newId, false, 0)]
    ensures r.Ok? && (!Truthy(b.referredBy) || UserByCode(st.users, b.referredBy.value).None?) ==>
              && r.store.users == st.users + [NewUser(newId, b.name.value, b.email.value, hashed, b.referredBy)]
              && r.store.referrals == st.referrals
  {
    match ValidateUser(b)
    case Failure(e) => Fail(st, e)
    case Success(reg) =>
      if UserByEmail(st.users, reg.email).Some? then Fail(st, AlreadyRegistered)
      else
        var u := NewUser(newId, reg.name, reg.email, hashed, reg.referredBy);
        match InsertUser(st.users, u)
        case Failure(e) => Fail(st, e)
        case Success(users1) =>
          assert users1[..|st.users|] == st.users;
          LinkReferrer(st, users1, reg.referredBy, newId)
  }

  /** The writes of adminlogin.js after the new user is saved: for a truthy
      `referredBy` naming a referrer, the referrer's `referrals` gains the new
      id and an unredeemed edge is recorded. */
  function LinkReferrer(st: Store, users1: seq<User>, referredBy: Option<string>, newId: UserId): (r: Outcome)
    requires |users1| == |st.users| + 1 && users1[..|st.users|] == st.users
    requires users1[|st.users|].referralCode.None?
    ensures r.Ok?
    ensures r.store.redeems == st.redeems && r.store.giftCards == st.giftCards
    ensures |r.store.users| == |users1|
    ensures r.store.users[|st.users|] == users1[|st.users|]
    ensures BalancesUnchanged(st, r.store.(users := r.store.users[..|st.users|]))
    ensures Truthy(referredBy) && UserByCode(st.users, referredBy.value).Some? ==>
              var j := UserByCode(st.users, referredBy.value).value;
              && r.store.users[j] == st.users[j].(referrals := st.users[j].referrals + [newId])
              && (forall m :: 0 <= m < |st.users| && m != j ==> r.store.users[m] == st.users[m])
              && r.store.referrals == st.referrals + [Referral(referredBy.value, newId, false, 0)]
    ensures !Truthy(referredBy) || UserByCode(st.users, referredBy.value).None? ==>
              r.store.users == users1 && r.store.referrals == st.referrals
  {
    if !Truthy(referredBy) then Ok(st.(users := users1))
    else
      assert forall m :: 0 <= m < |st.users| ==> users1[m] == st.users[m];
      assert UserByCode(users1, referredBy.value) == UserByCode(st.users, referredBy.value);
      match UserByCode(users1, referredBy.value)
      case None => Ok(st.(users := users1))
      case Some(j) =>
        var users2 := users1[j := users1[j].(referrals := users1[j].referrals + [newId])];
        var edge := MakeReferral(referredBy, Some(newId)).value;
        assert users2[..|st.users|] == st.users[j := users2[j]];
        Ok(st.(users := users2, referrals := st.referrals + [edge]))
  }

  /** adminlogin.js keeps the user collection's unique indexes unique. */
  lemma RegisterWithEdgeKeepsIndexesUnique(st: Store, b: RegisterBody, newId: UserId, hashed: string)
    requires UniqueIndexes(st.users)
    ensures var r := RegisterWithEdge(st, b, newId, hashed);
            r.Ok? ==> UniqueIndexes(r.store.users)
  {
    var r := RegisterWithEdge(st, b, newId, hashed);
    if r.Ok? {
      var reg := ValidateUser(b).value;
      var u := NewUser(newId, reg.name, reg.email, hashed, reg.referredBy);
      var users1 := InsertUser(st.users, u).value;
      InsertKeepsIndexesUnique(st.users, u);
      assert SameKeys(users1, r.store.users);
      SameKeysKeepIndexesUnique(users1, r.store.users);
    }
  }

  /** Because the `referralCode` index is not sparse, once one user without
      a code exists every further adminlogin.js registration fails to save. */
  lemma SecondCodelessRegistrationFails(st: Store, b: RegisterBody, newId: UserId, hashed: string)
    requires exists j :: 0 <= j < |st.users| && st.users[j].referralCode.None?
    ensures RegisterWithEdge(st, b, newId, hashed).Fail?
  {
  }

  /** adminlogin.js records an edge exactly when the code resolves. */
  lemma EdgeIffReferrerResolves(st: Store, b: RegisterBody, newId: UserId, hashed: string)
    requires RegisterWithEdge(st, b, newId, hashed).Ok?
    ensures var r := RegisterWithEdge(st, b, newId, hashed);
            |r.store.referrals| == |st.referrals| + 1
            <==> b.referredBy.Some? && UserByCode(st.users, b.referredBy.value).Some?
  {
  }

  /** The two variants part ways on an unresolvable `referredBy`: users.js
      clears it, adminlogin.js keeps it. */
  lemma VariantsDisagreeOnUnresolvedCode(st: Store, b: RegisterBody, newId: UserId, hashed: string,
                                         candidates: seq<string>)
    requires b.referredBy.Some? && UserByCode(st.users, b.referredBy.value).None?
    requires RegisterWithBalanceBonus(st, b, newId, hashed, candidates).Ok?
    requires RegisterWithEdge(st, b, newId, hashed).Ok?
    ensures RegisterWithBalanceBonus(st, b, newId, hashed, candidates).store.users[|st.users|].referredBy.None?
    ensures RegisterWithEdge(st, b, newId, hashed).store.users[|st.users|].referredBy == b.referredBy
  {
  }

  /** GET /referrals on the adminlogin.js router: the users whose
      `referredBy` is the caller's code; 404 when the caller or the code is
      missing. */
  function ReferredUsers(st: Store, caller: Option<UserId>): (r: Result<seq<User>>)
    ensures r.Failure? <==>
              || caller.None? || UserById(st.users, caller.value).None?
              || !Truthy(st.users[UserById(st.users, caller.value).value].referralCode)
    ensures r.Failure? ==> r.error == NotFound
    ensures r.Success? ==>
              var code := st.users[UserById(st.users, caller.value).value].referralCode;
              && (forall a :: 0 <= a < |r.value| ==> r.value[a] in st.users && r.value[a].referredBy == code)
              && (forall m :: 0 <= m < |st.users| && st.users[m].referredBy == code ==> st.users[m] in r.value)
  {
    if caller.None? then Failure(NotFound)
    else
      match UserById(st.users, caller.value)
      case None => Failure(NotFound)
      case Some(i) =>
        var code := st.users[i].referralCode;
        if !Truthy(code) then Failure(NotFound)
        else Success(Filter(st.users, (u: User) => u.referredBy == code))
  }

  /** A user registered through users.js under a resolvable code is listed
      among that referrer's referred users. */
  lemma RegisteredUserIsListed(st: Store, b: RegisterBody, newId: UserId, hashed: string,
                               candidates: seq<string>)
    requires UniqueIndexes(st.users)
    requires b.referredBy.Some? && UserByCode(st.users, b.referredBy.value).Some?
    requires RegisterWithBalanceBonus(st, b, newId, hashed, candidates).Ok?
    ensures var j := UserByCode(st.users, b.referredBy.value).value;
            var s1 := RegisterWithBalanceBonus(st, b, newId, hashed, candidates).store;
            var r := ReferredUsers(s1, Some(st.users[j].id));
            r.Success? && s1.users[|st.users|] in r.value
  {
    var j := UserByCode(st.users, b.referredBy.value).value;
    var s1 := RegisterWithBalanceBonus(st, b, newId, hashed, candidates).store;
    var id := st.users[j].id;
    RegisterKeepsIndexesUnique(st, b, newId, hashed, candidates);
    assert s1.users[j].id == id;
    assert UserById(s1.users, id) == Some(j) by {
      var f := UserById(s1.users, id).value;
      assert s1.users[f].id == id;
    }
    assert s1.users[j].referralCode == b.referredBy;
  }
}
