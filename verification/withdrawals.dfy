/** The withdrawal reservation/refund machine of routes/withdrawal.js: a
    submission debits the balance at once and appends a pending withdrawal to
    the user; the admin PATCH overwrites its status and refunds on reject. */
module Withdrawals {
  import opened Base
  import opened Records

  /** The POST body; a missing or non-numeric field is `None`, and
      `extraKeys` names any key the schema does not list. */
  datatype WithdrawalBody = WithdrawalBody(
    amount: Option<int>,
    accountNumber: Option<string>,
    bankName: Option<string>,
    accountName: Option<string>,
    extraKeys: set<string>)

  datatype WithdrawalRequest = WithdrawalRequest(
    amount: int,
    accountNumber: string,
    bankName: string,
    accountName: string)

  /** `validateWithdrawal`: a positive amount of at least 1, three
      non-empty bank strings, and no other key. */
  function ValidateWithdrawal(b: WithdrawalBody): (r: Result<WithdrawalRequest>)
    ensures r.Success? <==>
              && b.amount.Some? && b.amount.value >= 1
              && Truthy(b.accountNumber) && Truthy(b.bankName) && Truthy(b.accountName)
              && b.extraKeys == {}
    ensures r.Success? ==>
              r.value == WithdrawalRequest(b.amount.value, b.accountNumber.value, b.bankName.value, b.accountName.value)
    ensures r.Failure? ==> r.error == InvalidInput
  {
    if b.amount.None? || b.amount.value < 1 then Failure(InvalidInput)
    else if !Truthy(b.accountNumber) || !Truthy(b.bankName) || !Truthy(b.accountName) then Failure(InvalidInput)
    else if b.extraKeys != {} then Failure(InvalidInput)
    else Success(WithdrawalRequest(b.amount.value, b.accountNumber.value, b.bankName.value, b.accountName.value))
  }

  /** The PATCH body: the `status` field, if any, and the keys the schema
      does not list. */
  datatype StatusBody = StatusBody(status: Option<string>, extraKeys: set<string>)

  /** `validateWithdrawalStatus`: exactly "approved" or "rejected", and no
      other key. */
  function ValidateWithdrawalStatus(b: StatusBody): (r: Result<Status>)
    ensures r.Success? <==> (b.status == Some("approved") || b.status == Some("rejected")) && b.extraKeys == {}
    ensures r.Success? ==> r.value != Pending && StatusName(r.value) == b.status.value
    ensures r.Failure? ==> r.error == InvalidInput
  {
    if b.extraKeys != {} then Failure(InvalidInput)
    else if b.status == Some("approved") then Success(Approved)
    else if b.status == Some("rejected") then Success(Rejected)
    else Failure(InvalidInput)
  }

  function WithdrawalIndex(ws: seq<Withdrawal>, wid: WithdrawalId): (r: Option<nat>)
    ensures r.Some? ==> r.value < |ws| && ws[r.value].id == wid
    ensures r.Some? ==> forall k :: 0 <= k < r.value ==> ws[k].id != wid
    ensures r.None? <==> forall k :: 0 <= k < |ws| ==> ws[k].id != wid
  {
    FindIndex(ws, (w: Withdrawal) => w.id == wid)
  }

  predicate Holds(u: User, wid: WithdrawalId)
  {
    WithdrawalIndex(u.withdrawals, wid).Some?
  }

  /** `User.findOne({ 'withdrawals._id': wid })`. */
  function OwnerOf(users: seq<User>, wid: WithdrawalId): (r: Option<nat>)
    ensures r.Some? ==> r.value < |users| && Holds(users[r.value], wid)
    ensures r.Some? ==> forall j :: 0 <= j < r.value ==> !Holds(users[j], wid)
    ensures r.None? <==> forall j :: 0 <= j < |users| ==> !Holds(users[j], wid)
  {
    FindIndex(users, (u: User) => Holds(u, wid))
  }

  /** No user holds a withdrawal with this id (a freshly generated subdocument id). */
  predicate FreshWithdrawalId(users: seq<User>, wid: WithdrawalId)
  {
    forall j :: 0 <= j < |users| ==> !Holds(users[j], wid)
  }

  /** Every embedded withdrawal carries an amount of at least 1, as
      `validateWithdrawal` demands of every submission. */
  predicate PositiveWithdrawals(users: seq<User>)
  {
    forall j, k :: 0 <= j < |users| && 0 <= k < |users[j].withdrawals| ==> users[j].withdrawals[k].amount >= 1
  }

  /** The user record after a successful submission. */
  function Debited(u: User, req: WithdrawalRequest, wid: WithdrawalId): User
  {
    u.(balance := u.balance - req.amount,
       withdrawals := u.withdrawals + [Withdrawal(wid, req.amount, Pending, req.accountNumber, req.bankName, req.accountName)])
  }

  /** POST: validate, look the caller up by the token's `id` claim, refuse an
      amount above the balance, else debit and append a pending withdrawal. */
  function Submit(st: Store, caller: Option<UserId>, b: WithdrawalBody, wid: WithdrawalId): (r: Outcome)
    ensures r.Fail? ==> r.store == st
    ensures |r.store.users| == |st.users|
    ensures ValidateWithdrawal(b).Failure? ==> r == Fail(st, InvalidInput)
    ensures ValidateWithdrawal(b).Success? && (caller.None? || UserById(st.users, caller.value).None?) ==>
              r == Fail(st, NotFound)
    ensures r.Ok? <==>
              && ValidateWithdrawal(b).Success? && caller.Some? && UserById(st.users, caller.value).Some?
              && st.users[UserById(st.users, caller.value).value].balance >= b.amount.value
    ensures r.Fail? && r.error == InsufficientBalance ==>
              var i := UserById(st.users, caller.value).value;
              st.users[i].balance < b.amount.value
    ensures r.Ok? ==>
              var i := UserById(st.users, caller.value).value;
              var u, u' := st.users[i], r.store.users[i];
              && OnlyUserChanged(st, r.store, i)
              && u'.balance == u.balance - b.amount.value
              && |u'.withdrawals| == |u.withdrawals| + 1
              && u'.withdrawals[..|u.withdrawals|] == u.withdrawals
              && u'.withdrawals[|u.withdrawals|]
                 == Withdrawal(wid, b.amount.value, Pending, b.accountNumber.value, b.bankName.value, b.accountName.value)
              && u' == u.(balance := u'.balance, withdrawals := u'.withdrawals)
  {
    match ValidateWithdrawal(b)
    case Failure(e) => Fail(st, e)
    case Success(req) =>
      if caller.None? then Fail(st, NotFound)
      else
        match UserById(st.users, caller.value)
        case None => Fail(st, NotFound)
        case Some(i) =>
          if st.users[i].balance < req.amount then Fail(st, InsufficientBalance)
          else Ok(st.(users := st.users[i := Debited(st.users[i], req, wid)]))
  }

  /** PATCH: validate the body, find the owning user, overwrite the status
      whatever it was, and refund the amount when the new status is rejected.
      A `:withdrawalId` that is not an ObjectId makes the lookup's cast throw,
      answered 500. */
  function SetStatus(st: Store, wid: PathId, b: StatusBody): (r: Outcome)
    ensures r.Fail? ==> r.store == st
    ensures |r.store.users| == |st.users|
    ensures ValidateWithdrawalStatus(b).Failure? ==> r == Fail(st, InvalidInput)
    ensures ValidateWithdrawalStatus(b).Success? && wid.Malformed? ==> r == Fail(st, ServerError)
    ensures r.Ok? <==> ValidateWithdrawalStatus(b).Success? && wid.Id? && OwnerOf(st.users, wid.id).Some?
    ensures ValidateWithdrawalStatus(b).Success? && wid.Id? && OwnerOf(st.users, wid.id).None? ==>
              r == Fail(st, NotFound)
    ensures r.Ok? ==>
              var s := ValidateWithdrawalStatus(b).value;
              var i := OwnerOf(st.users, wid.id).value;
              var u, u' := st.users[i], r.store.users[i];
              var k := WithdrawalIndex(u.withdrawals, wid.id).value;
              && OnlyUserChanged(st, r.store, i)
              && u'.withdrawals == u.withdrawals[k := u.withdrawals[k].(status := s)]
              && u'.balance == u.balance + (if s == Rejected then u.withdrawals[k].amount else 0)
              && u' == u.(balance := u'.balance, withdrawals := u'.withdrawals)
  {
    match ValidateWithdrawalStatus(b)
    case Failure(e) => Fail(st, e)
    case Success(s) =>
      if wid.Malformed? then Fail(st, ServerError)
      else
        match OwnerOf(st.users, wid.id)
        case None => Fail(st, NotFound)
        case Some(i) =>
          var u := st.users[i];
          var k := WithdrawalIndex(u.withdrawals, wid.id).value;
          var refund := if s == Rejected then u.withdrawals[k].amount else 0;
          var u' := u.(withdrawals := u.withdrawals[k := u.withdrawals[k].(status := s)],
                       balance := u.balance + refund);
          Ok(st.(users := st.users[i := u']))
  }

  // ---------------------------------------------------------------- properties

  /** The PATCH bodies `{ status: "approved" }` and `{ status: "rejected" }`. */
  const ApproveBody: StatusBody := StatusBody(Some("approved"), {})
  const RejectBody: StatusBody := StatusBody(Some("rejected"), {})

  /** A body carrying any key besides `status` is refused before the lookup,
      even with a valid status and an existing withdrawal. */
  lemma ExtraKeyIsRefused(st: Store, wid: PathId, status: string, key: string)
    ensures SetStatus(st, wid, StatusBody(Some(status), {key})) == Fail(st, InvalidInput)
  {
  }

  /** A withdrawal appended under a new id is found at the end. */
  lemma AppendedIsFound(ws: seq<Withdrawal>, w: Withdrawal)
    requires WithdrawalIndex(ws, w.id).None?
    ensures WithdrawalIndex(ws + [w], w.id) == Some(|ws|)
  {
    var ws' := ws + [w];
    assert forall k :: 0 <= k < |ws| ==> ws'[k] == ws[k];
    var r := WithdrawalIndex(ws', w.id);
    assert ws'[|ws|].id == w.id;
    assert forall k :: 0 <= k < |ws| ==> ws'[k].id != w.id;
  }

  /** When only user `i` changed and it now holds `wid`, which no user held
      before, the owner lookup finds `i`. */
  lemma NewHolderIsOwner(users: seq<User>, users': seq<User>, i: nat, wid: WithdrawalId)
    requires |users'| == |users| && i < |users|
    requires FreshWithdrawalId(users, wid) && Holds(users'[i], wid)
    requires forall j :: 0 <= j < i ==> users'[j] == users[j]
    ensures OwnerOf(users', wid) == Some(i)
  {
    assert forall j :: 0 <= j < i ==> !Holds(users'[j], wid);
  }

  /** After a successful submission of a fresh id, the caller is the owner
      the PATCH handler finds, at the appended position. */
  lemma SubmittedIsFound(st: Store, caller: Option<UserId>, b: WithdrawalBody, wid: WithdrawalId)
    requires FreshWithdrawalId(st.users, wid)
    requires Submit(st, caller, b, wid).Ok?
    ensures var i := UserById(st.users, caller.value).value;
            var st' := Submit(st, caller, b, wid).store;
            && OwnerOf(st'.users, wid) == Some(i)
            && WithdrawalIndex(st'.users[i].withdrawals, wid) == Some(|st.users[i].withdrawals|)
  {
    var i := UserById(st.users, caller.value).value;
    var st' := Submit(st, caller, b, wid).store;
    var ws := st.users[i].withdrawals;
    var ws' := st'.users[i].withdrawals;
    assert ws' == ws + [ws'[|ws|]];
    AppendedIsFound(ws, ws'[|ws|]);
    NewHolderIsOwner(st.users, st'.users, i, wid);
  }

  /** Submit-then-reject restores the caller's balance exactly and leaves
      the withdrawal recorded as rejected. */
  lemma SubmitThenRejectRestoresBalance(st: Store, caller: Option<UserId>, b: WithdrawalBody, wid: WithdrawalId)
    requires FreshWithdrawalId(st.users, wid)
    requires Submit(st, caller, b, wid).Ok?
    ensures var i := UserById(st.users, caller.value).value;
            var r := SetStatus(Submit(st, caller, b, wid).store, Id(wid), RejectBody);
            && r.Ok?
            && r.store.users[i].balance == st.users[i].balance
            && r.store.users[i].withdrawals[|st.users[i].withdrawals|].status == Rejected
            && r.store.users[i].withdrawals[|st.users[i].withdrawals|].amount == b.amount.value
  {
    SubmittedIsFound(st, caller, b, wid);
  }

  /** The status is overwritten without a pending check, so a second reject
      of the same withdrawal refunds its amount a second time. */
  lemma RejectTwiceRefundsTwice(st: Store, wid: WithdrawalId)
    requires OwnerOf(st.users, wid).Some?
    ensures var i := OwnerOf(st.users, wid).value;
            var u := st.users[i];
            var amount := u.withdrawals[WithdrawalIndex(u.withdrawals, wid).value].amount;
            var r1 := SetStatus(st, Id(wid), RejectBody);
            var r2 := SetStatus(r1.store, Id(wid), RejectBody);
            && r1.Ok? && r2.Ok?
            && r2.store.users[i].balance == u.balance + 2 * amount
  {
    var i := OwnerOf(st.users, wid).value;
    var r1 := SetStatus(st, Id(wid), RejectBody);
    SetStatusKeepsOwner(st, wid, RejectBody);
  }

  /** A status change keeps every withdrawal id where it was. */
  lemma SetStatusKeepsOwner(st: Store, wid: WithdrawalId, b: StatusBody)
    requires SetStatus(st, Id(wid), b).Ok?
    ensures var st' := SetStatus(st, Id(wid), b).store;
            var i := OwnerOf(st.users, wid).value;
            && OwnerOf(st'.users, wid) == OwnerOf(st.users, wid)
            && WithdrawalIndex(st'.users[i].withdrawals, wid) == WithdrawalIndex(st.users[i].withdrawals, wid)
  {
    var st' := SetStatus(st, Id(wid), b).store;
    var i := OwnerOf(st.users, wid).value;
    var ws, ws' := st.users[i].withdrawals, st'.users[i].withdrawals;
    assert forall k :: 0 <= k < |ws| ==> ws'[k].id == ws[k].id;
    assert Holds(st'.users[i], wid);
    assert forall j :: 0 <= j < i ==> st'.users[j] == st.users[j];
  }

  /** Approval moves no money: every balance is as it was. */
  lemma ApproveMovesNoMoney(st: Store, wid: WithdrawalId)
    ensures SetStatus(st, Id(wid), ApproveBody).Ok? ==>
              BalancesUnchanged(st, SetStatus(st, Id(wid), ApproveBody).store)
  {
  }

  /** Non-negative balances and positive withdrawal amounts survive both
      withdrawal handlers. */
  lemma SubmitKeepsBalancesNonNegative(st: Store, caller: Option<UserId>, b: WithdrawalBody, wid: WithdrawalId)
    requires NonNegativeBalances(st.users) && PositiveWithdrawals(st.users)
    ensures var st' := Submit(st, caller, b, wid).store;
            NonNegativeBalances(st'.users) && PositiveWithdrawals(st'.users)
  {
    var r := Submit(st, caller, b, wid);
    if r.Ok? {
      var i := UserById(st.users, caller.value).value;
      forall j, k | 0 <= j < |r.store.users| && 0 <= k < |r.store.users[j].withdrawals|
        ensures r.store.users[j].withdrawals[k].amount >= 1
      {
        if j == i && k < |st.users[i].withdrawals| {
          assert r.store.users[j].withdrawals[k] == st.users[i].withdrawals[k];
        }
      }
    }
  }

  lemma SetStatusKeepsBalancesNonNegative(st: Store, wid: PathId, b: StatusBody)
    requires NonNegativeBalances(st.users) && PositiveWithdrawals(st.users)
    ensures var st' := SetStatus(st, wid, b).store;
            NonNegativeBalances(st'.users) && PositiveWithdrawals(st'.users)
  {
    var r := SetStatus(st, wid, b);
    if r.Ok? {
      var i := OwnerOf(st.users, wid.id).value;
      var ws := st.users[i].withdrawals;
      var k := WithdrawalIndex(ws, wid.id).value;
      assert ws[k].amount >= 1;
      forall j, m | 0 <= j < |r.store.users| && 0 <= m < |r.store.users[j].withdrawals|
        ensures r.store.users[j].withdrawals[m].amount >= 1
      {
        if j == i {
          assert r.store.users[j].withdrawals[m].amount == ws[m].amount;
        }
      }
    }
  }
}
