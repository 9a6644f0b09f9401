/**
 * Authentication (backend/services/authService.js): the JWT check in front of the
 * protected routes, user registration and login.
 *
 * The crypto is a parameter: `verify` stands for `jwt.verify` (the payload, or the
 * message of its error), `sign` for `jwt.sign`, `hash` for `bcrypt.hash` and `compare`
 * for `bcrypt.compare`; the clock gives `createdAt`.
 */
module AuthService {
  import opened Base
  import opened Js

  const NoTokenMessage: string := "Keine Token-Angabe."
  const TokenMissingMessage: string := "Token fehlt."
  const InvalidTokenMessage: string := "Ungültiges Token."
  const DuplicateEmailMessage: string := "Email bereits registriert."
  /** The message of the `TypeError` thrown by assigning to a `const`. */
  const ConstAssignmentMessage: string := "Assignment to constant variable."
  const BadCredentialsMessage: string := "Ungültige Anmeldedaten."
  const SaltRounds: nat := 12
  const UserIdStart: nat := 1000

  /** The token payload. */
  datatype Claims = Claims(sub: string, email: string, name: string, budgetId: string)

  /** An error reply: status and message. */
  datatype Reply = Reply(status: nat, error: string)

  /** `header.split(' ')[1]`, the empty string standing for `undefined`. */
  function TokenOf(header: string): (t: string)
    ensures ' ' !in t
  {
    var parts := SplitOn(header, ' ');
    if |parts| > 1 then parts[1] else ""
  }

  /** The usual header `Bearer <token>` yields the token. */
  lemma BearerHeaderToken(scheme: string, token: string)
    requires ' ' !in scheme && ' ' !in token
    ensures TokenOf(scheme + " " + token) == token
  {
    SplitAtFirst(scheme, ' ', token);
    SplitWithoutSeparator(token, ' ');
  }

  /** A header without a space has no token part. */
  lemma NoSpaceNoToken(header: string)
    requires ' ' !in header
    ensures TokenOf(header) == ""
  {
    SplitWithoutSeparator(header, ' ');
  }

  /** `verifyToken`: the payload, or `null` when verifying throws. */
  function VerifyToken(token: string, verify: string -> Result<Claims, string>): (r: Option<Claims>)
    ensures r.Some? <==> verify(token).Ok?
    ensures r.Some? ==> r.value == verify(token).value
  {
    match verify(token)
    case Ok(payload) => Some(payload)
    case Err(_) => None
  }

  /** The parts of a request the check reads and writes. */
  class HttpRequest {
    var authorization: Option<string>   // req.headers['authorization']
    var user: Option<Claims>            // req.user

    constructor (authorization: Option<string>)
      ensures this.authorization == authorization && user == None
    {
      this.authorization := authorization;
      user := None;
    }
  }

  /**
   * `authenticateJWT(req, res, next)`: returns the error reply sent, if any, and how many
   * times `next` was called. Exactly one of the two happens.
   */
  method AuthenticateJWT(req: HttpRequest, verify: string -> Result<Claims, string>)
    returns (reply: Option<Reply>, nextCalls: nat)
    modifies req
    ensures reply.None? <==> nextCalls == 1
    ensures nextCalls <= 1
    ensures req.authorization == old(req.authorization)
    ensures var h := old(req.authorization);
            (h.None? || h.value == "" ==> reply == Some(Reply(401, NoTokenMessage)))
            && (h.Some? && h.value != "" && TokenOf(h.value) == "" ==> reply == Some(Reply(401, TokenMissingMessage)))
            && (h.Some? && h.value != "" && TokenOf(h.value) != "" && verify(TokenOf(h.value)).Err? ==>
                  reply == Some(Reply(403, InvalidTokenMessage)))
            && (h.Some? && h.value != "" && TokenOf(h.value) != "" && verify(TokenOf(h.value)).Ok? ==>
                  reply == None && req.user == Some(verify(TokenOf(h.value)).value))
            && (reply.Some? ==> req.user == old(req.user))
  {
    var authHeader := req.authorization;
    if authHeader.None? || authHeader.value == "" {
      return Some(Reply(401, NoTokenMessage)), 0;
    }
    var token := TokenOf(authHeader.value);
    if token == "" {
      return Some(Reply(401, TokenMissingMessage)), 0;
    }
    var payload := VerifyToken(token, verify);
    if payload.None? {
      return Some(Reply(403, InvalidTokenMessage)), 0;
    }
    req.user := payload;
    reply, nextCalls := None, 1;
  }

  /** A stored user. */
  datatype User = User(id: string, email: string, name: string, password: string, budgetId: string, createdAt: string)

  /** The public part of a user, as returned. */
  datatype PublicUser = PublicUser(id: string, email: string, name: string, budgetId: string)

  function Public(u: User): PublicUser
  {
    PublicUser(u.id, u.email, u.name, u.budgetId)
  }

  /** `users.find(u => u.email === email)`, as the index of the first match. */
  function FindByEmail(users: seq<User>, email: string): (r: Option<nat>)
    ensures r.Some? ==> r.value < |users| && users[r.value].email == email
                        && forall j :: 0 <= j < r.value ==> users[j].email != email
    ensures r.None? ==> forall j :: 0 <= j < |users| ==> users[j].email != email
  {
    if users == [] then None
    else if users[0].email == email then Some(0)
    else
      match FindByEmail(users[1..], email)
      case None => None
      case Some(i) => Some(i + 1)
  }

  /** The first id, as text. */
  lemma UserIdStartText()
    ensures NatToString(UserIdStart) == "1000"
  {
    assert NatToString(1) == "1";
    assert NatToString(10) == NatToString(1) + "0";
    assert NatToString(100) == NatToString(10) + "0";
    assert NatToString(1000) == NatToString(100) + "0";
  }

  /**
   * The id `registerUser` gives a new user, as written: "1000" for the first user, and for
   * any later one the `TypeError` of the assignment to the `const` holding the id.
   */
  function AllocateIdAsWritten(users: seq<User>): Result<string, string>
  {
    if |users| == 0 then Ok(NatToString(UserIdStart)) else Err(ConstAssignmentMessage)
  }

  /** The largest id that `Number` reads as a finite number, for ids made of decimal digits. */
  function MaxId(users: seq<User>): (m: Option<nat>)
    ensures m.Some? ==> exists j :: 0 <= j < |users| && NumberOf(users[j].id) == Some(m.value)
    ensures m.Some? ==> forall j :: 0 <= j < |users| && NumberOf(users[j].id).Some? ==>
                          NumberOf(users[j].id).value <= m.value
    ensures m.None? ==> forall j :: 0 <= j < |users| ==> NumberOf(users[j].id).None?
  {
    if users == [] then None
    else
      var rest := MaxId(users[1..]);
      var here := NumberOf(users[0].id);
      if here.None? then rest
      else if rest.None? || here.value >= rest.value then here
      else rest
  }

  /** The evidently intended id: one more than the largest numeric id, or 1000 when there is none. */
  function NextUserId(users: seq<User>): (id: nat)
    ensures MaxId(users).None? ==> id == UserIdStart
    ensures MaxId(users).Some? ==> id == MaxId(users).value + 1
  {
    if MaxId(users).Some? then MaxId(users).value + 1 else UserIdStart
  }

  /** The intended id is never one already taken. */
  lemma NextUserIdFresh(users: seq<User>)
    ensures forall j :: 0 <= j < |users| ==> users[j].id != NatToString(NextUserId(users))
  {
    var id := NextUserId(users);
    ParseNatToString(id);
    forall j | 0 <= j < |users|
      ensures users[j].id != NatToString(id)
    {
      if AllDigits(users[j].id) {
        assert NumberOf(users[j].id).Some?;
      }
    }
  }

  /** On an empty store both allocations agree; on any other the one as written fails. */
  lemma AllocationDisagreesAfterFirstUser(users: seq<User>)
    ensures users == [] ==> AllocateIdAsWritten(users) == Ok(NatToString(NextUserId(users)))
    ensures users != [] ==> AllocateIdAsWritten(users).Err?
  {
  }

  /** A store holding only user "1000": as written a second registration fails; intended it gets "1001". */
  lemma SecondRegistration(u: User)
    requires u.id == "1000"
    ensures AllocateIdAsWritten([u]) == Err(ConstAssignmentMessage)
    ensures NextUserId([u]) == 1001
  {
    UserIdStartText();
    ParseNatToString(1000);
    assert NumberOf("1000") == Some(1000);
  }

  /** What `loginUser` resolves with. */
  datatype Session = Session(token: string, user: PublicUser)

  /**
   * `loginUser`: an unknown email and a wrong password fail alike; otherwise the token
   * signs the user's id, email, name and budget.
   */
  function LoginUser(users: seq<User>, email: string, password: string,
                     compare: (string, string) -> bool, sign: Claims -> string): (r: Result<Session, string>)
    ensures r.Err? ==> r.error == BadCredentialsMessage
    ensures r.Err? <==> FindByEmail(users, email).None? || !compare(password, users[FindByEmail(users, email).value].password)
    ensures r.Ok? ==> var u := users[FindByEmail(users, email).value];
                      r.value == Session(sign(Claims(u.id, u.email, u.name, u.budgetId)), Public(u))
  {
    match FindByEmail(users, email)
    case None => Err(BadCredentialsMessage)
    case Some(i) =>
      var u := users[i];
      if !compare(password, u.password) then Err(BadCredentialsMessage)
      else Ok(Session(sign(Claims(u.id, u.email, u.name, u.budgetId)), Public(u)))
  }

  /** The users of the store (`db.data.users`). */
  class UserStore {
    var users: seq<User>

    constructor (users: seq<User>)
      ensures this.users == users
    {
      this.users := users;
    }

    /**
     * `registerUser`, as written. Returns the outcome and whether the password was hashed.
     * An email already registered fails before hashing; a store that already has a user
     * fails at the id; only the first user is stored, with id "1000".
     */
    method RegisterUser(email: string, password: string, name: string, budgetId: string,
                        hash: (string, nat) -> string, now: string)
      returns (r: Result<PublicUser, string>, hashed: bool)
      modifies this
      ensures FindByEmail(old(users), email).Some? ==>
                r == Err(DuplicateEmailMessage) && !hashed && users == old(users)
      ensures FindByEmail(old(users), email).None? && old(users) != [] ==>
                r == Err(ConstAssignmentMessage) && hashed && users == old(users)
      ensures FindByEmail(old(users), email).None? && old(users) == [] ==>
                hashed && users == [User("1000", email, name, hash(password, SaltRounds), budgetId, now)]
                && r == Ok(PublicUser("1000", email, name, budgetId))
    {
      if FindByEmail(users, email).Some? {
        return Err(DuplicateEmailMessage), false;
      }
      var hashedPassword := hash(password, SaltRounds);
      hashed := true;
      var id := AllocateIdAsWritten(users);
      UserIdStartText();
      if id.Err? {
        return Err(id.error), hashed;
      }
      var newUser := User(id.value, email, name, hashedPassword, budgetId, now);
      users := users + [newUser];
      r := Ok(Public(newUser));
    }
  }

  /** The first user registered can log in with the password given, if the hash matches it. */
  lemma FirstUserCanLogIn(email: string, password: string, name: string, budgetId: string,
                          hash: (string, nat) -> string, now: string,
                          compare: (string, string) -> bool, sign: Claims -> string)
    requires compare(password, hash(password, SaltRounds))
    ensures var r := LoginUser([User("1000", email, name, hash(password, SaltRounds), budgetId, now)],
                               email, password, compare, sign);
            r == Ok(Session(sign(Claims("1000", email, name, budgetId)), PublicUser("1000", email, name, budgetId)))
  {
  }
}
