/** The two authentication middlewares.  middlewave/auth.js demands the
    "Bearer " scheme and answers 401 or 403; middleware/auth.js takes the
    second space-separated word of any Authorization header and answers 401
    or 400.  Token verification (`jwt.verify` with the server secret) is the
    partial function `verify`, a parameter of every gate. */
module Auth {
  import opened Base
  import opened Records

  /** The decoded token payload.  Tokens signed by users.js, adminlogin.js
      and admin.js carry the user id as `_id` (here `oid`); the token of
      routes/auth.js carries it as `id`. */
  datatype Claims = Claims(oid: Option<UserId>, id: Option<UserId>, isAdmin: bool)

  /** What a gate does with the request: pass it on with the decoded claims
      as `req.user`, or answer with an HTTP status. */
  datatype Gate = Pass(claims: Claims) | Deny(status: nat)

  // ---------------------------------------------------------------- String.prototype.split

  /** `s.split(sep)` for a one-character separator: the pieces between
      separators, in order, empty pieces included. */
  function Split(s: string, sep: char): (r: seq<string>)
    ensures |r| >= 1
    ensures forall i :: 0 <= i < |r| ==> sep !in r[i]
    ensures |r[0]| <= |s| && r[0] == s[..|r[0]|]
    ensures |r[0]| == |s| || s[|r[0]|] == sep
    ensures |r| == 1 <==> sep !in s
    decreases |s|
  {
    if |s| == 0 then [""]
    else
      var t := Split(s[1..], sep);
      assert s == [s[0]] + s[1..];
      if s[0] == sep then [""] + t
      else
        assert [s[0]] + t[0] == s[..|t[0]| + 1];
        [[s[0]] + t[0]] + t[1..]
  }

  /** `parts.join(sep)`. */
  function Join(parts: seq<string>, sep: char): string
    requires |parts| >= 1
  {
    if |parts| == 1 then parts[0] else parts[0] + [sep] + Join(parts[1..], sep)
  }

  /** Prefixing the first piece prefixes the joined string. */
  lemma JoinConsFirst(c: char, parts: seq<string>, sep: char)
    requires |parts| >= 1
    ensures Join([[c] + parts[0]] + parts[1..], sep) == [c] + Join(parts, sep)
  {
    var q := [[c] + parts[0]] + parts[1..];
    if |parts| > 1 {
      assert q[1..] == parts[1..];
    }
  }

  /** Joining the pieces of a split gives the string back. */
  lemma {:induction false} JoinSplit(s: string, sep: char)
    ensures Join(Split(s, sep), sep) == s
    decreases |s|
  {
    if |s| > 0 {
      var t := Split(s[1..], sep);
      JoinSplit(s[1..], sep);
      assert s == [s[0]] + s[1..];
      if s[0] == sep {
        assert ([""] + t)[1..] == t;
      } else {
        JoinConsFirst(s[0], t, sep);
      }
    }
  }

  /** A word free of the separator followed by the separator splits off as
      the first piece. */
  lemma {:induction false} SplitFirstWord(w: string, sep: char, rest: string)
    requires sep !in w
    ensures Split(w + [sep] + rest, sep) == [w] + Split(rest, sep)
    decreases |w|
  {
    var s := w + [sep] + rest;
    if |w| == 0 {
      assert s == [sep] + rest;
      assert s[1..] == rest;
    } else {
      var t := Split(s[1..], sep);
      assert s[1..] == w[1..] + [sep] + rest;
      SplitFirstWord(w[1..], sep, rest);
      assert t == [w[1..]] + Split(rest, sep);
      assert s[0] == w[0] && s[0] != sep;
      assert Split(s, sep) == [[s[0]] + t[0]] + t[1..];
      assert [w[0]] + w[1..] == w;
    }
  }

  /** A string without the separator is its own single piece. */
  lemma {:induction false} NoSeparatorOnePiece(s: string, sep: char)
    requires sep !in s
    ensures Split(s, sep) == [s]
    decreases |s|
  {
    if |s| > 0 {
      NoSeparatorOnePiece(s[1..], sep);
      assert [s[0]] + s[1..] == s;
    }
  }

  /** Splitting pieces that were joined gives the pieces back. */
  lemma {:induction false} SplitJoin(parts: seq<string>, sep: char)
    requires |parts| >= 1
    requires forall i :: 0 <= i < |parts| ==> sep !in parts[i]
    ensures Split(Join(parts, sep), sep) == parts
    decreases |parts|
  {
    if |parts| == 1 {
      NoSeparatorOnePiece(parts[0], sep);
    } else {
      SplitJoin(parts[1..], sep);
      SplitFirstWord(parts[0], sep, Join(parts[1..], sep));
      assert parts == [parts[0]] + parts[1..];
    }
  }

  /** `split(sep)[n]`, `undefined` (`None`) past the end. */
  function Piece(s: string, sep: char, n: nat): (r: Option<string>)
    ensures r.Some? <==> n < |Split(s, sep)|
    ensures r.Some? ==> sep !in r.value
  {
    var parts := Split(s, sep);
    if n < |parts| then Some(parts[n]) else None
  }

  // ---------------------------------------------------------------- middlewave/auth.js

  const BearerPrefix: string := "Bearer "

  predicate StartsWith(s: string, prefix: string)
  {
    |prefix| <= |s| && s[..|prefix|] == prefix
  }

  /** `extractToken`: no token unless the header is present, non-empty and
      starts with "Bearer "; otherwise the text after that prefix up to the
      next space. */
  function ExtractBearer(header: Option<string>): (r: Option<string>)
    ensures r.Some? <==> Truthy(header) && StartsWith(header.value, BearerPrefix)
    ensures r.Some? ==>
              var rest := header.value[|BearerPrefix|..];
              && |r.value| <= |rest|
              && ' ' !in r.value
              && r.value == rest[..|r.value|]
              && (|r.value| == |rest| || rest[|r.value|] == ' ')
  {
    if !Truthy(header) || !StartsWith(header.value, BearerPrefix) then None
    else
      var h := header.value;
      assert h == "Bearer" + [' '] + h[|BearerPrefix|..];
      SplitFirstWord("Bearer", ' ', h[|BearerPrefix|..]);
      Piece(h, ' ', 1)
  }

  /** `authenticateToken` of middlewave/auth.js. */
  function BearerTokenGate(header: Option<string>, verify: string -> Option<Claims>): (r: Gate)
    ensures r.Pass? <==> Truthy(ExtractBearer(header)) && verify(ExtractBearer(header).value).Some?
    ensures r.Pass? ==> r.claims == verify(ExtractBearer(header).value).value
    ensures r.Deny? && !Truthy(ExtractBearer(header)) ==> r.status == 401
    ensures r.Deny? && Truthy(ExtractBearer(header)) ==> r.status == 403
  {
    var token := ExtractBearer(header);
    if !Truthy(token) then Deny(401)
    else
      match verify(token.value)
      case None => Deny(403)
      case Some(c) => Pass(c)
  }

  /** `authenticateAdmin` of middlewave/auth.js: every refusal is a 403. */
  function BearerAdminGate(header: Option<string>, verify: string -> Option<Claims>): (r: Gate)
    ensures r.Pass? <==>
              && Truthy(ExtractBearer(header))
              && verify(ExtractBearer(header).value).Some?
              && verify(ExtractBearer(header).value).value.isAdmin
    ensures r.Pass? ==> r.claims == verify(ExtractBearer(header).value).value
    ensures r.Deny? ==> r.status == 403
  {
    var token := ExtractBearer(header);
    if !Truthy(token) then Deny(403)
    else
      match verify(token.value)
      case None => Deny(403)
      case Some(c) => if !c.isAdmin then Deny(403) else Pass(c)
  }

  /** A space-free word after "Bearer " is the token. */
  lemma BearerWord(w: string)
    requires ' ' !in w
    ensures ExtractBearer(Some(BearerPrefix + w)) == Some(w)
  {
    var h := BearerPrefix + w;
    assert h[..|BearerPrefix|] == BearerPrefix;
    assert h[|BearerPrefix|..] == w;
    assert StartsWith(h, BearerPrefix);
    var r := ExtractBearer(Some(h));
    assert r.Some?;
    assert |r.value| == |w|;
    assert r.value == w[..|w|] == w;
  }

  lemma BearerExample()
    ensures ExtractBearer(Some("Bearer abc")) == Some("abc")
  {
    assert BearerPrefix + "abc" == "Bearer abc";
    BearerWord("abc");
  }

  lemma OtherSchemeHasNoBearerToken()
    ensures ExtractBearer(Some("Token abc")).None?
  {
    assert !StartsWith("Token abc", BearerPrefix) by { assert "Token abc"[0] == 'T'; }
  }

  /** "Bearer " with nothing after it yields the empty token, refused as absent. */
  lemma EmptyBearerIsRefused(verify: string -> Option<Claims>)
    ensures ExtractBearer(Some("Bearer ")) == Some("")
    ensures BearerTokenGate(Some("Bearer "), verify) == Deny(401)
  {
    assert BearerPrefix + "" == "Bearer ";
    BearerWord("");
  }

  // ---------------------------------------------------------------- middleware/auth.js

  /** The token of middleware/auth.js: the second space-separated word of
      the header, whatever the first word is. */
  function SecondWord(header: Option<string>): (r: Option<string>)
    ensures header.None? ==> r.None?
    ensures header.Some? ==> r == Piece(header.value, ' ', 1)
    ensures r.Some? ==> ' ' !in r.value
  {
    if header.None? then None else Piece(header.value, ' ', 1)
  }

  /** Any space-free scheme word, a space, and a space-free word: the
      second word is the token. */
  lemma SchemeWord(scheme: string, w: string)
    requires ' ' !in scheme && ' ' !in w
    ensures SecondWord(Some(scheme + [' '] + w)) == Some(w)
  {
    SplitFirstWord(scheme, ' ', w);
    NoSeparatorOnePiece(w, ' ');
  }

  /** `authenticateToken` of middleware/auth.js. */
  function WordTokenGate(header: Option<string>, verify: string -> Option<Claims>): (r: Gate)
    ensures r.Pass? <==> Truthy(SecondWord(header)) && verify(SecondWord(header).value).Some?
    ensures r.Pass? ==> r.claims == verify(SecondWord(header).value).value
    ensures r.Deny? && !Truthy(SecondWord(header)) ==> r.status == 401
    ensures r.Deny? && Truthy(SecondWord(header)) ==> r.status == 400
  {
    var token := SecondWord(header);
    if !Truthy(token) then Deny(401)
    else
      match verify(token.value)
      case None => Deny(400)
      case Some(c) => Pass(c)
  }

  /** `authenticateAdmin` of middleware/auth.js: the token gate first, its
      refusals unchanged, then 403 for a non-admin. */
  function WordAdminGate(header: Option<string>, verify: string -> Option<Claims>): (r: Gate)
    ensures WordTokenGate(header, verify).Deny? ==> r == WordTokenGate(header, verify)
    ensures WordTokenGate(header, verify).Pass? ==>
              (r.Pass? <==> WordTokenGate(header, verify).claims.isAdmin)
    ensures r.Pass? ==> r == WordTokenGate(header, verify)
    ensures r.Deny? && WordTokenGate(header, verify).Pass? ==> r.status == 403
  {
    match WordTokenGate(header, verify)
    case Deny(s) => Deny(s)
    case Pass(c) => if !c.isAdmin then Deny(403) else Pass(c)
  }

  // ---------------------------------------------------------------- relations

  /** Whatever passes the "Bearer " gate passes the word gate with the same
      claims: both take the same token from a "Bearer " header. */
  lemma BearerTokenPassesWordGate(header: Option<string>, verify: string -> Option<Claims>)
    requires BearerTokenGate(header, verify).Pass?
    ensures WordTokenGate(header, verify) == BearerTokenGate(header, verify)
  {
    var h := header.value;
    assert h == "Bearer" + [' '] + h[|BearerPrefix|..];
    SplitFirstWord("Bearer", ' ', h[|BearerPrefix|..]);
  }

  /** Only the scheme word "Bearer" makes a "scheme token" header start
      with "Bearer ". */
  lemma OnlyBearerSchemeStartsWithPrefix(scheme: string, w: string)
    requires ' ' !in scheme && scheme != "Bearer"
    ensures !StartsWith(scheme + [' '] + w, BearerPrefix)
  {
    var h := scheme + [' '] + w;
    assert h[|scheme|] == ' ';
    if |scheme| > 6 {
      assert h[6] == scheme[6] != ' ';
    } else if |scheme| < 6 {
      assert BearerPrefix[|scheme|] != ' ';
    } else {
      assert h[..6] == scheme;
    }
  }

  /** The converse fails: the word gate ignores the scheme word, so a
      token under any other scheme passes it and is refused by the
      "Bearer " gate. */
  lemma WordGateIgnoresScheme(scheme: string, w: string, verify: string -> Option<Claims>)
    requires ' ' !in scheme && scheme != "Bearer"
    requires ' ' !in w && |w| > 0 && verify(w).Some?
    ensures WordTokenGate(Some(scheme + [' '] + w), verify).Pass?
    ensures BearerTokenGate(Some(scheme + [' '] + w), verify) == Deny(401)
  {
    SchemeWord(scheme, w);
    OnlyBearerSchemeStartsWithPrefix(scheme, w);
  }

  /** A bad token is a 403 under one middleware and a 400 under the other. */
  lemma BadTokenStatusesDiffer(header: Option<string>, verify: string -> Option<Claims>)
    requires Truthy(ExtractBearer(header)) && verify(ExtractBearer(header).value).None?
    ensures BearerTokenGate(header, verify) == Deny(403)
    ensures WordTokenGate(header, verify) == Deny(400)
  {
    var h := header.value;
    assert h == "Bearer" + [' '] + h[|BearerPrefix|..];
    SplitFirstWord("Bearer", ' ', h[|BearerPrefix|..]);
  }

  /** Each admin gate passes only requests its token gate passes, with the
      same claims. */
  lemma AdminGatesRefineTokenGates(header: Option<string>, verify: string -> Option<Claims>)
    ensures BearerAdminGate(header, verify).Pass? ==>
              BearerTokenGate(header, verify) == BearerAdminGate(header, verify)
    ensures WordAdminGate(header, verify).Pass? ==>
              WordTokenGate(header, verify) == WordAdminGate(header, verify)
  {
  }
}
