/** How the claims a token carries reach the handlers: the handlers of
    users.js and giftcards.js read the user id from `req.user._id`, the
    withdrawal handler from `req.user.id`. */
module Sessions {
  import opened Base
  import opened Records
  import Auth
  import Withdrawals
  import Registration

  /** The payload users.js and adminlogin.js sign after a registration or a
      login: the id under `_id`, no `id`. */
  function RegistrationClaims(u: User): (c: Auth.Claims)
    ensures c.oid == Some(u.id) && c.id.None? && c.isAdmin == u.isAdmin
  {
    Auth.Claims(Some(u.id), None, u.isAdmin)
  }

  /** A token from a registration reaches `/me` for a stored user... */
  lemma RegistrationTokenReadsProfile(st: Store, u: User)
    requires u in st.users
    ensures Registration.Me(st, RegistrationClaims(u).oid).Success?
  {
    var j :| 0 <= j < |st.users| && st.users[j] == u;
    assert st.users[j].id == u.id;
  }

  /** ...but a withdrawal under the same token is answered 404, because the
      handler looks the caller up by the absent `id` claim. */
  lemma RegistrationTokenCannotWithdraw(st: Store, u: User, b: Withdrawals.WithdrawalBody, wid: WithdrawalId)
    requires Withdrawals.ValidateWithdrawal(b).Success?
    ensures Withdrawals.Submit(st, RegistrationClaims(u).id, b, wid) == Fail(st, NotFound)
  {
  }
}
