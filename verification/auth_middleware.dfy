/** `protect`: the bearer-token middleware, and the single-active-session property it
    enforces together with login and logout. */
module AuthMiddleware {
  import opened Common
  import opened Strings
  import opened Collections
  import opened Models
  import opened Store

  /** The JWT library, abstracted: each token string that currently verifies (good
      signature, not expired) mapped to the email claim it carries. Expiry removes entries.
      The library refuses an empty token outright, whatever the map holds. */
  type Verifier = map<string, string>

  const Bearer := "Bearer "
  const NoTokenProvided := "No token provided"
  const InvalidToken := "Invalid token"
  const TokenMismatch := "Unauthorized user or token mismatch"

  /** `authHeader?.startsWith('Bearer ')`. */
  predicate StartsWithBearer(h: string) {
    |h| >= |Bearer| && h[..|Bearer|] == Bearer
  }

  /** The token `protect` takes: absent unless the header starts with `Bearer `, and then the
      header's second space-separated field, i.e. the text after `Bearer ` up to the next space. */
  function BearerToken(header: Option<string>): (r: Option<string>)
    ensures r.None? <==> header.None? || !StartsWithBearer(header.value)
    ensures r.Some? ==> r.value == UpTo(header.value[|Bearer|..], ' ')
  {
    if header.None? || !StartsWithBearer(header.value) then None
    else
      var h := header.value;
      assert h == "Bearer" + [' '] + h[|Bearer|..];
      SplitAfterWord("Bearer", ' ', h[|Bearer|..]);
      SplitFirstField(h[|Bearer|..], ' ');
      Some(Split(h, ' ')[1])
  }

  /** The bearer token is a prefix of what follows `Bearer ` and holds no space. */
  lemma BearerTokenShape(header: string)
    requires StartsWithBearer(header)
    ensures var t := BearerToken(Some(header)).value;
      ' ' !in t && header[..|Bearer| + |t|] == Bearer + t
  {
    var t := BearerToken(Some(header)).value;
    assert header[|Bearer|..][..|t|] == t;
    assert header[..|Bearer| + |t|] == header[..|Bearer|] + header[|Bearer|..][..|t|];
  }

  /** What `protect` does to a request: it passes it on with `req.user` and `req.token`
      attached, or answers 401. */
  datatype AuthResult = Admitted(user: User, token: string) | Rejected(reply: Reply)

  /** A token opens a live session when it verifies and is the token stored on the user
      its claim names. */
  ghost predicate LiveSession(users: seq<User>, verifier: Verifier, t: string) {
    t in verifier &&
    exists i :: 0 <= i < |users| && users[i].email == Lower(verifier[t]) && users[i].token == Some(t)
  }

  /** `protect`: parse the header, verify the token, find the user by the claimed email and
      require the stored token to be the presented one. */
  method Protect(db: Db, verifier: Verifier, header: Option<string>) returns (r: AuthResult)
    requires db.Valid()
    ensures BearerToken(header).None? ==> r == Rejected(Reply(401, NoTokenProvided))
    ensures BearerToken(header).Some? && (BearerToken(header).value == "" || BearerToken(header).value !in verifier) ==>
      r == Rejected(Reply(401, InvalidToken))
    ensures BearerToken(header).Some? && BearerToken(header).value != "" && BearerToken(header).value in verifier &&
            r.Rejected? ==>
      r == Rejected(Reply(401, TokenMismatch))
    ensures r.Admitted? <==>
      BearerToken(header).Some? && BearerToken(header).value != "" &&
      LiveSession(db.users, verifier, BearerToken(header).value)
    ensures r.Admitted? ==>
      && Some(r.token) == BearerToken(header)
      && r.user in db.users
      && r.user.email == Lower(verifier[r.token])
      && r.user.token == Some(r.token)
  {
    var token := BearerToken(header);
    if token.None? {
      return Rejected(Reply(401, NoTokenProvided));
    }
    var t := token.value;
    // an empty token is refused by the JWT library before any signature check
    if t == "" || t !in verifier {
      return Rejected(Reply(401, InvalidToken));
    }
    var found := Find(db.users, UserWithEmail(Lower(verifier[t])));
    if found.None? {
      return Rejected(Reply(401, TokenMismatch));
    }
    var user := db.users[found.value];
    if user.token != Some(t) {
      forall i | 0 <= i < |db.users| && db.users[i].email == Lower(verifier[t])
        ensures db.users[i].token != Some(t)
      {
        EmailDeterminesUser(db.users, db.nextId, i, found.value);
      }
      return Rejected(Reply(401, TokenMismatch));
    }
    return Admitted(user, t);
  }

  /** The users table after one user's stored token is overwritten (login) or cleared (logout). */
  function SetToken(users: seq<User>, k: nat, tok: Option<string>): (r: seq<User>)
    requires k < |users|
    ensures |r| == |users| && r[k] == users[k].(token := tok)
    ensures forall i :: 0 <= i < |users| ==> r[i].email == users[i].email
    ensures forall i :: 0 <= i < |users| && i != k ==> r[i] == users[i]
  {
    users[k := users[k].(token := tok)]
  }

  lemma SetTokenKeepsInvariant(users: seq<User>, next: Id, k: nat, tok: Option<string>)
    requires UsersOk(users, next) && k < |users|
    ensures UsersOk(SetToken(users, k, tok), next)
  {
  }

  /** Single active session: once a user's stored token is replaced or cleared, every other
      token claiming that user is refused, however valid its signature. */
  lemma {:induction false} ReplacedTokenRejected(users: seq<User>, next: Id, verifier: Verifier, k: nat, tok: Option<string>, t: string)
    requires UsersOk(users, next) && k < |users|
    requires t in verifier && Lower(verifier[t]) == users[k].email
    requires tok != Some(t)
    ensures !LiveSession(SetToken(users, k, tok), verifier, t)
  {
    var after := SetToken(users, k, tok);
    forall i | 0 <= i < |after| && after[i].email == Lower(verifier[t])
      ensures after[i].token != Some(t)
    {
      EmailDeterminesUser(users, next, i, k);
    }
  }

  /** The token just stored is live whenever it verifies with that user's email as claim. */
  lemma {:induction false} StoredTokenLive(users: seq<User>, verifier: Verifier, k: nat, t: string)
    requires k < |users|
    requires t in verifier && Lower(verifier[t]) == users[k].email
    ensures LiveSession(SetToken(users, k, Some(t)), verifier, t)
  {
    assert SetToken(users, k, Some(t))[k].email == Lower(verifier[t]);
  }

  /** Changing one user's token leaves every session claiming another user as it was. */
  lemma {:induction false} OtherSessionsUnaffected(users: seq<User>, verifier: Verifier, k: nat, tok: Option<string>, t: string)
    requires k < |users|
    requires t in verifier && Lower(verifier[t]) != users[k].email
    ensures LiveSession(SetToken(users, k, tok), verifier, t) <==> LiveSession(users, verifier, t)
  {
    var after := SetToken(users, k, tok);
    if LiveSession(users, verifier, t) {
      var i :| 0 <= i < |users| && users[i].email == Lower(verifier[t]) && users[i].token == Some(t);
      assert after[i] == users[i];
    }
    if LiveSession(after, verifier, t) {
      var i :| 0 <= i < |after| && after[i].email == Lower(verifier[t]) && after[i].token == Some(t);
      assert after[i] == users[i];
    }
  }

  /** At any moment at most one token is live per user. */
  lemma {:induction false} AtMostOneLiveToken(users: seq<User>, next: Id, verifier: Verifier, t1: string, t2: string)
    requires UsersOk(users, next)
    requires LiveSession(users, verifier, t1) && LiveSession(users, verifier, t2)
    requires Lower(verifier[t1]) == Lower(verifier[t2])
    ensures t1 == t2
  {
    var i :| 0 <= i < |users| && users[i].email == Lower(verifier[t1]) && users[i].token == Some(t1);
    var j :| 0 <= j < |users| && users[j].email == Lower(verifier[t2]) && users[j].token == Some(t2);
    EmailDeterminesUser(users, next, i, j);
  }
}
