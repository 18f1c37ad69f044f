/** Failure-carrying wrappers, the error kinds the handlers report, and the
    "first match in natural order" search that every Mongo `findOne` /
    `findById` of the modelled handlers reduces to. */
module Base {

  datatype Option<+T> = None | Some(value: T)

  /** The error kinds the handlers answer with.  The HTTP status each one is
      sent with is given by `HttpStatus`. */
  datatype Error =
    | InvalidInput         // Joi validation failure or missing request field (400)
    | InvalidId            // `mongoose.Types.ObjectId.isValid` rejected an id (400)
    | NotFound             // a looked-up record does not exist (404)
    | AlreadyApproved      // approve of an approved redemption (400)
    | AlreadyRejected      // reject of a rejected redemption (400)
    | InsufficientBalance  // withdrawal larger than the balance (400)
    | AlreadyRegistered    // registration with a known email (400)
    | ServerError          // an exception caught by the handler's catch (500)

  function HttpStatus(e: Error): nat
  {
    match e
    case NotFound => 404
    case ServerError => 500
    case _ => 400
  }

  /** The answer of a read-only handler. */
  datatype Result<+T> = Success(value: T) | Failure(error: Error)

  /** JavaScript truthiness of an optional string: present and non-empty. */
  predicate Truthy(s: Option<string>)
  {
    s.Some? && |s.value| > 0
  }

  /** Index of the first element satisfying `p`, as a Mongo query scanning in
      natural order returns the first matching document. */
  function FindIndex<T>(s: seq<T>, p: T -> bool): (r: Option<nat>)
    ensures r.Some? ==> r.value < |s| && p(s[r.value])
    ensures r.Some? ==> forall j :: 0 <= j < r.value ==> !p(s[j])
    ensures r.None? <==> forall j :: 0 <= j < |s| ==> !p(s[j])
  {
    if |s| == 0 then None
    else if p(s[0]) then Some(0)
    else
      match FindIndex(s[1..], p)
      case None =>
        assert forall j :: 1 <= j < |s| ==> s[j] == s[1..][j - 1];
        None
      case Some(k) =>
        assert forall j :: 1 <= j < k + 1 ==> s[j] == s[1..][j - 1];
        Some(k + 1)
  }

  /** The elements satisfying `p`, in order (a Mongo `find` with a filter). */
  function Filter<T>(s: seq<T>, p: T -> bool): (r: seq<T>)
    ensures forall i :: 0 <= i < |r| ==> r[i] in s && p(r[i])
    ensures forall i :: 0 <= i < |s| && p(s[i]) ==> s[i] in r
    ensures |r| <= |s|
  {
    if |s| == 0 then []
    else if p(s[0]) then [s[0]] + Filter(s[1..], p)
    else Filter(s[1..], p)
  }
}
