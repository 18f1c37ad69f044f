/** The persisted records of the platform (model/user.js, model/redeem.js,
    model/referral.js, model/giftcard.js), the store that holds them, the
    registration validator of model/user.js, and the lookups and frame
    predicates the handlers share. */
module Records {
  import opened Base

  type UserId = nat
  type RedeemId = nat
  type GiftCardId = nat
  type WithdrawalId = nat

  /** An id taken from the request, a URL path parameter or a body field:
      either something that is not an ObjectId, or a well-formed id. */
  datatype PathId = Malformed | Id(id: nat)

  /** The status enum shared by redemptions and embedded withdrawals. */
  datatype Status = Pending | Approved | Rejected

  function StatusName(s: Status): string
  {
    match s
    case Pending => "pending"
    case Approved => "approved"
    case Rejected => "rejected"
  }

  /** The schema's `enum` check: only the three names are storable. */
  function ParseStatus(s: string): (r: Option<Status>)
    ensures r.Some? ==> StatusName(r.value) == s
  {
    if s == "pending" then Some(Pending)
    else if s == "approved" then Some(Approved)
    else if s == "rejected" then Some(Rejected)
    else None
  }

  lemma StatusRoundTrip(s: Status)
    ensures ParseStatus(StatusName(s)) == Some(s)
  {
    match s
    case Pending =>
    case Approved =>
      assert StatusName(s) != "pending" by { assert StatusName(s)[0] == 'a'; }
    case Rejected =>
      assert StatusName(s) != "pending" by { assert StatusName(s)[0] == 'r'; }
      assert StatusName(s) != "approved" by { assert StatusName(s)[0] == 'r'; }
  }

  /** A withdrawal request embedded in its user. */
  datatype Withdrawal = Withdrawal(
    id: WithdrawalId,
    amount: int,
    status: Status,
    accountNumber: string,
    bankName: string,
    accountName: string)

  /** A user document.  A missing `referralCode` is `None`. */
  datatype User = User(
    id: UserId,
    name: string,
    email: string,
    password: string,
    isAdmin: bool,
    balance: int,
    referralCode: Option<string>,
    referrals: seq<UserId>,
    referredBy: Option<string>,
    referralEarnings: int,
    withdrawals: seq<Withdrawal>)

  /** A redemption claim. */
  datatype Redeem = Redeem(
    id: RedeemId,
    userId: UserId,
    giftCardId: GiftCardId,
    amount: int,
    imageUrl: string,
    status: Status,
    reason: Option<string>)

  /** A referrer-to-referred edge. */
  datatype Referral = Referral(
    referrerCode: string,
    referredUserId: UserId,
    isRedeemed: bool,
    totalApprovedAmount: int)

  /** A catalog entry.  Its face value is the field `value`; there is no
      `amount` field. */
  datatype GiftCard = GiftCard(
    id: GiftCardId,
    name: string,
    brand: string,
    value: int,
    currency: string,
    image: string)

  /** The four collections, each in natural (insertion) order. */
  datatype Store = Store(
    users: seq<User>,
    redeems: seq<Redeem>,
    referrals: seq<Referral>,
    giftCards: seq<GiftCard>)

  /** The store as persisted when a handler returns, with the error it
      answered with, if any. */
  datatype Outcome = Ok(store: Store) | Fail(store: Store, error: Error)

  // ---------------------------------------------------------------- defaults

  /** A user document as `new User({...})` builds it from the four accepted
      fields: every other field takes its schema default. */
  function NewUser(id: UserId, name: string, email: string, password: string,
                   referredBy: Option<string>): (u: User)
    ensures u.balance == 0 && u.referralEarnings == 0 && !u.isAdmin
    ensures u.referrals == [] && u.withdrawals == [] && u.referralCode.None?
    ensures u.id == id && u.name == name && u.email == email && u.referredBy == referredBy
    ensures u.password == password
  {
    User(id, name, email, password, false, 0, None, [], referredBy, 0, [])
  }

  /** `new Redeem({...}).save()`: the required string `imageUrl` may not be
      empty; `status` defaults to pending and `reason` is unset. */
  function MakeRedeem(id: RedeemId, userId: Option<UserId>, giftCardId: GiftCardId,
                      amount: int, imageUrl: string): (r: Result<Redeem>)
    ensures r.Success? <==> userId.Some? && |imageUrl| > 0
    ensures r.Success? ==> r.value.status == Pending && r.value.reason.None?
    ensures r.Success? ==>
              && r.value.userId == userId.value && r.value.giftCardId == giftCardId
              && r.value.amount == amount && r.value.imageUrl == imageUrl && r.value.id == id
    ensures r.Failure? ==> r.error == ServerError
  {
    if userId.None? || |imageUrl| == 0 then Failure(ServerError)
    else Success(Redeem(id, userId.value, giftCardId, amount, imageUrl, Pending, None))
  }

  /** `new Referral({...}).save()`: both fields are required; a new edge is
      unredeemed with nothing accumulated. */
  function MakeReferral(referrerCode: Option<string>, referredUserId: Option<UserId>): (r: Result<Referral>)
    ensures r.Success? <==> Truthy(referrerCode) && referredUserId.Some?
    ensures r.Success? ==> !r.value.isRedeemed && r.value.totalApprovedAmount == 0
    ensures r.Success? ==>
              && r.value.referrerCode == referrerCode.value
              && r.value.referredUserId == referredUserId.value
    ensures r.Failure? ==> r.error == ServerError
  {
    if !Truthy(referrerCode) || referredUserId.None? then Failure(ServerError)
    else Success(Referral(referrerCode.value, referredUserId.value, false, 0))
  }

  // ---------------------------------------------------------------- unique indexes

  /** The unique indexes of the user collection: `_id`, `email`, and the
      non-sparse `referralCode` index, under which two users both lacking a
      code collide. */
  predicate UniqueIndexes(users: seq<User>)
  {
    forall i, j :: 0 <= i < j < |users| ==>
      users[i].id != users[j].id &&
      users[i].email != users[j].email &&
      users[i].referralCode != users[j].referralCode
  }

  predicate Collides(a: User, b: User)
  {
    a.id == b.id || a.email == b.email || a.referralCode == b.referralCode
  }

  /** The two user lists agree, position by position, on every indexed key. */
  predicate SameKeys(users: seq<User>, users': seq<User>)
  {
    && |users'| == |users|
    && forall j :: 0 <= j < |users| ==>
         users'[j].id == users[j].id && users'[j].email == users[j].email
         && users'[j].referralCode == users[j].referralCode
  }

  /** Rewriting users without touching their keys keeps the indexes unique. */
  lemma SameKeysKeepIndexesUnique(users: seq<User>, users': seq<User>)
    requires UniqueIndexes(users) && SameKeys(users, users')
    ensures UniqueIndexes(users')
  {
  }

  /** Inserting a user document: a duplicate key aborts the save. */
  function InsertUser(users: seq<User>, u: User): (r: Result<seq<User>>)
    ensures r.Success? <==> forall j :: 0 <= j < |users| ==> !Collides(users[j], u)
    ensures r.Success? ==> r.value == users + [u]
    ensures r.Failure? ==> r.error == ServerError
  {
    if FindIndex(users, (v: User) => Collides(v, u)).Some? then Failure(ServerError)
    else Success(users + [u])
  }

  lemma InsertKeepsIndexesUnique(users: seq<User>, u: User)
    requires UniqueIndexes(users)
    requires InsertUser(users, u).Success?
    ensures UniqueIndexes(InsertUser(users, u).value)
  {
    var r := InsertUser(users, u).value;
    forall i, j | 0 <= i < j < |r|
      ensures r[i].id != r[j].id && r[i].email != r[j].email && r[i].referralCode != r[j].referralCode
    {
      if j == |users| {
        assert !Collides(users[i], u);
      }
    }
  }

  // ---------------------------------------------------------------- lookups

  function UserById(users: seq<User>, id: UserId): (r: Option<nat>)
    ensures r.Some? ==> r.value < |users| && users[r.value].id == id
    ensures r.None? <==> forall j :: 0 <= j < |users| ==> users[j].id != id
  {
    FindIndex(users, (u: User) => u.id == id)
  }

  function UserByEmail(users: seq<User>, email: string): (r: Option<nat>)
    ensures r.Some? ==> r.value < |users| && users[r.value].email == email
    ensures r.None? <==> forall j :: 0 <= j < |users| ==> users[j].email != email
  {
    FindIndex(users, (u: User) => u.email == email)
  }

  /** `User.findOne({ referralCode: code })`. */
  function UserByCode(users: seq<User>, code: string): (r: Option<nat>)
    ensures r.Some? ==> r.value < |users| && users[r.value].referralCode == Some(code)
    ensures r.Some? ==> forall j :: 0 <= j < r.value ==> users[j].referralCode != Some(code)
    ensures r.None? <==> forall j :: 0 <= j < |users| ==> users[j].referralCode != Some(code)
  {
    FindIndex(users, (u: User) => u.referralCode == Some(code))
  }

  function RedeemById(redeems: seq<Redeem>, id: RedeemId): (r: Option<nat>)
    ensures r.Some? ==> r.value < |redeems| && redeems[r.value].id == id
    ensures r.None? <==> forall j :: 0 <= j < |redeems| ==> redeems[j].id != id
  {
    FindIndex(redeems, (d: Redeem) => d.id == id)
  }

  function GiftCardById(cards: seq<GiftCard>, id: GiftCardId): (r: Option<GiftCard>)
    ensures r.Some? ==> r.value in cards && r.value.id == id
    ensures r.None? <==> forall j :: 0 <= j < |cards| ==> cards[j].id != id
  {
    match FindIndex(cards, (c: GiftCard) => c.id == id)
    case None => None
    case Some(k) => Some(cards[k])
  }

  /** `Referral.findOne({ referrerCode, referredUserId, isRedeemed: false })`. */
  function OpenEdge(edges: seq<Referral>, code: string, uid: UserId): (r: Option<nat>)
    ensures r.Some? ==>
              && r.value < |edges| && !edges[r.value].isRedeemed
              && edges[r.value].referrerCode == code && edges[r.value].referredUserId == uid
    ensures r.None? <==> forall j :: 0 <= j < |edges| ==>
                           edges[j].isRedeemed || edges[j].referrerCode != code || edges[j].referredUserId != uid
  {
    FindIndex(edges, (e: Referral) => !e.isRedeemed && e.referrerCode == code && e.referredUserId == uid)
  }

  // ---------------------------------------------------------------- frames

  /** Only the user at index `i` may differ; the other collections are as they were. */
  predicate OnlyUserChanged(st: Store, st': Store, i: nat)
  {
    && |st'.users| == |st.users|
    && (forall j :: 0 <= j < |st.users| && j != i ==> st'.users[j] == st.users[j])
    && st'.redeems == st.redeems
    && st'.referrals == st.referrals
    && st'.giftCards == st.giftCards
  }

  /** Users and redemptions are where they were, under the same ids. */
  predicate SameIds(st: Store, st': Store)
  {
    && |st'.users| == |st.users|
    && (forall j :: 0 <= j < |st.users| ==> st'.users[j].id == st.users[j].id)
    && |st'.redeems| == |st.redeems|
    && (forall j :: 0 <= j < |st.redeems| ==> st'.redeems[j].id == st.redeems[j].id)
  }

  /** Lookups by id answer the same in two stores with the same ids. */
  lemma SameIdsSameLookups(st: Store, st': Store, uid: UserId, rid: RedeemId)
    requires SameIds(st, st')
    ensures UserById(st'.users, uid) == UserById(st.users, uid)
    ensures RedeemById(st'.redeems, rid) == RedeemById(st.redeems, rid)
  {
    var a, b := UserById(st.users, uid), UserById(st'.users, uid);
    if a.Some? { assert st'.users[a.value].id == uid; }
    if b.Some? { assert st.users[b.value].id == uid; }
    var c, d := RedeemById(st.redeems, rid), RedeemById(st'.redeems, rid);
    if c.Some? { assert st'.redeems[c.value].id == rid; }
    if d.Some? { assert st.redeems[d.value].id == rid; }
  }

  /** Every user's `balance` is as it was (other fields may differ). */
  predicate BalancesUnchanged(st: Store, st': Store)
  {
    && |st'.users| == |st.users|
    && forall j :: 0 <= j < |st.users| ==> st'.users[j].balance == st.users[j].balance
  }

  predicate NonNegativeBalances(users: seq<User>)
  {
    forall j :: 0 <= j < |users| ==> users[j].balance >= 0
  }

  // ---------------------------------------------------------------- registration validator

  /** A registration request body.  `extraKeys` are the names of any other
      keys present; the Joi object schema admits none. */
  datatype RegisterBody = RegisterBody(
    name: Option<string>,
    email: Option<string>,
    password: Option<string>,
    referredBy: Option<string>,
    extraKeys: set<string>)

  /** A body that passed `validateUser`. */
  datatype Registration = Registration(
    name: string,
    email: string,
    password: string,
    referredBy: Option<string>)

  predicate NoSpace(s: string)
  {
    forall k :: 0 <= k < |s| ==> s[k] != ' '
  }

  /** A domain of at least two non-empty dot-separated labels. */
  predicate WellFormedDomain(d: string)
  {
    && |d| >= 3
    && d[0] != '.' && d[|d| - 1] != '.'
    && (exists k :: 0 < k < |d| - 1 && d[k] == '.')
    && (forall k :: 0 <= k < |d| - 1 ==> !(d[k] == '.' && d[k + 1] == '.'))
    && (forall k :: 0 <= k < |d| ==> d[k] != '@')
  }

  /** A simplified `Joi.string().email()`: one `@`, a non-empty local part, a
      dotted domain, no spaces. */
  predicate WellFormedEmail(s: string)
  {
    && NoSpace(s)
    && exists k :: 0 < k < |s| && s[k] == '@'
         && (forall m :: 0 <= m < k ==> s[m] != '@')
         && WellFormedDomain(s[k + 1..])
  }

  /** `validateUser`: name at least 3 characters, a well-formed email, a
      password of at least 6, an optional non-empty `referredBy`, and no other key. */
  function ValidateUser(b: RegisterBody): (r: Result<Registration>)
    ensures r.Success? <==>
              && b.name.Some? && |b.name.value| >= 3
              && b.email.Some? && WellFormedEmail(b.email.value)
              && b.password.Some? && |b.password.value| >= 6
              && (b.referredBy.None? || |b.referredBy.value| > 0)
              && b.extraKeys == {}
    ensures r.Success? ==> r.value == Registration(b.name.value, b.email.value, b.password.value, b.referredBy)
    ensures r.Failure? ==> r.error == InvalidInput
  {
    if b.name.None? || |b.name.value| < 3 then Failure(InvalidInput)
    else if b.email.None? || !WellFormedEmail(b.email.value) then Failure(InvalidInput)
    else if b.password.None? || |b.password.value| < 6 then Failure(InvalidInput)
    else if b.referredBy.Some? && |b.referredBy.value| == 0 then Failure(InvalidInput)
    else if b.extraKeys != {} then Failure(InvalidInput)
    else Success(Registration(b.name.value, b.email.value, b.password.value, b.referredBy))
  }

  /** A body that tries to set the balance or the admin flag is refused. */
  lemma ValidateUserRefusesPrivilegedKeys(b: RegisterBody)
    requires "isAdmin" in b.extraKeys || "balance" in b.extraKeys
    ensures ValidateUser(b) == Failure(InvalidInput)
  {
  }

  lemma ExampleEmails()
    ensures WellFormedEmail("a@b.co")
    ensures !WellFormedEmail("a@bco")
    ensures !WellFormedEmail("@b.co")
  {
    var s := "a@b.co";
    var d := s[2..];
    assert d == "b.co";
    assert d[1] == '.';
    assert WellFormedDomain(d);
    assert s[1] == '@';
    var t := "a@bco";
    forall k | 0 < k < |t| && t[k] == '@' && (forall m :: 0 <= m < k ==> t[m] != '@')
      ensures !WellFormedDomain(t[k + 1..])
    {
      assert k == 1;
      assert t[2..] == "bco";
    }
  }
}
