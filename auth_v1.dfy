/** The first authentication service: the credential check over an in-memory
    user table, the two login endpoints (form `/token` and JSON `/login`),
    the bearer-token check behind every protected endpoint, and the
    administrator-only registration and listing of users. Password hashing
    (bcrypt) and token signing are outside the model: the password check is
    a parameter and a token is represented by the claims it carries. */
module AuthV1 {
  import opened Common
  import opened OrderedDict

  const AccessTokenExpireMinutes: int := 30
  const ValidRoles: seq<string> := ["doctor", "nurse", "pharmacist", "lab_tech", "admin"]
  const Issuer: string := "danaya-auth-service"

  datatype UserInDB = UserInDB(
    userId: string, email: string, fullName: string, role: string, hospitalId: string,
    department: Option<string>, hashedPassword: string, isActive: bool, createdAt: string)

  /** The public view of a stored user: everything but the password hash. */
  datatype User = User(
    userId: string, email: string, fullName: string, role: string, hospitalId: string,
    department: Option<string>, isActive: bool, createdAt: string)

  datatype UserCreate = UserCreate(
    email: string, password: string, fullName: string, role: string, hospitalId: string,
    department: Option<string>)

  /** The claims a signed token carries: `sub`, `role`, optionally
      `hospital_id`, and the `exp`, `iat` and `iss` claims the token factory
      adds (times in seconds). */
  datatype AccessToken = AccessToken(
    sub: string, role: string, hospitalId: Option<string>, exp: int, iat: int, iss: string)

  datatype Token = Token(accessToken: AccessToken, tokenType: string, expiresIn: int, user: User)

  /** What decoding a bearer token yields. */
  datatype Decoded = Payload(sub: Option<string>) | ExpiredSignature | InvalidToken

  /** `pwd_context.verify(plain, hashed)`: bcrypt's check, left abstract. */
  type Verifier = (string, string) -> bool

  function ToUser(u: UserInDB): (r: User)
    ensures r.userId == u.userId && r.email == u.email && r.role == u.role && r.isActive == u.isActive
    ensures r.fullName == u.fullName && r.hospitalId == u.hospitalId && r.department == u.department
    ensures r.createdAt == u.createdAt
  {
    User(u.userId, u.email, u.fullName, u.role, u.hospitalId, u.department, u.isActive, u.createdAt)
  }

  /** The identifier given to the n-th user: `USR` and n padded to three
      digits. */
  function UserId(n: nat): string
  {
    "USR" + Pad3(n)
  }

  /** Different counters give different identifiers (also beyond 999, where
      the number simply grows wider). */
  lemma UserIdInjective(m: nat, n: nat)
    requires UserId(m) == UserId(n)
    ensures m == n
  {
    assert UserId(m)[3..] == Pad3(m);
    assert UserId(n)[3..] == Pad3(n);
    Pad3RoundTrip(m);
    Pad3RoundTrip(n);
  }

  lemma UserIdShape(n: nat)
    requires 1 <= n <= 999
    ensures |UserId(n)| == 6 && UserId(n)[..3] == "USR"
  {
    Pad3Width(n);
  }

  /** The user table the service keeps: keyed by e-mail, each record
      stored under its own address, and the i-th record inserted (from
      zero) carrying identifier `USR` + (i + 1). */
  ghost predicate WellFormed(db: Dict<UserInDB>)
  {
    && KeysDistinct(db)
    && (forall i :: 0 <= i < |db| ==> db[i].0 == db[i].1.email)
    && (forall i :: 0 <= i < |db| ==> db[i].1.userId == UserId(i + 1))
  }

  /** In a well-formed table no two users share an identifier. */
  lemma UserIdsUnique(db: Dict<UserInDB>)
    requires WellFormed(db)
    ensures forall i, j :: 0 <= i < j < |db| ==> db[i].1.userId != db[j].1.userId
  {
    forall i, j | 0 <= i < j < |db| ensures db[i].1.userId != db[j].1.userId {
      if db[i].1.userId == db[j].1.userId {
        UserIdInjective(i + 1, j + 1);
      }
    }
  }

  /** The two demo accounts the table starts with; their bcrypt hashes and
      the start-up time are computed when the service starts. */
  function SeedUsers(doctorHash: string, nurseHash: string, startedAt: string): (db: Dict<UserInDB>)
    ensures |db| == 2
  {
    [ ("doctor@chu-ouaga.bf",
       UserInDB("USR001", "doctor@chu-ouaga.bf", "Dr. Ouedraogo Amadou", "doctor", "HOS001",
                Some("Emergency"), doctorHash, true, startedAt)),
      ("nurse@chu-ouaga.bf",
       UserInDB("USR002", "nurse@chu-ouaga.bf", "Zongo Fatoumata", "nurse", "HOS001",
                Some("Pediatrics"), nurseHash, true, startedAt)) ]
  }

  lemma SeedWellFormed(doctorHash: string, nurseHash: string, startedAt: string)
    ensures WellFormed(SeedUsers(doctorHash, nurseHash, startedAt))
  {
    assert UserId(1) == "USR001" && UserId(2) == "USR002";
  }

  // ---------------------------------------------------------------------
  // Credentials and tokens

  /** `authenticate_user`: no record for an unknown address, none when the
      password does not verify, the stored record otherwise. */
  function AuthenticateUser(db: Dict<UserInDB>, verify: Verifier, email: string, password: string): (r: Option<UserInDB>)
    ensures Get(db, email).None? ==> r.None?
    ensures Get(db, email).Some? && !verify(password, Get(db, email).value.hashedPassword) ==> r.None?
    ensures Get(db, email).Some? && verify(password, Get(db, email).value.hashedPassword) ==> r == Get(db, email)
  {
    match Get(db, email)
    case None => None
    case Some(u) => if verify(password, u.hashedPassword) then Some(u) else None
  }

  /** `create_access_token`: the given claims plus `exp` (now plus the given
      lifetime, or 30 minutes when none or a zero one is given), `iat` and
      `iss`. */
  function CreateAccessToken(sub: string, role: string, hospitalId: Option<string>, expiresDelta: Option<int>, now: int): (t: AccessToken)
    ensures t.sub == sub && t.role == role && t.hospitalId == hospitalId
    ensures t.iat == now && t.iss == Issuer
    ensures t.exp == now + (if expiresDelta.Some? && expiresDelta.value != 0 then expiresDelta.value else AccessTokenExpireMinutes * 60)
  {
    var lifetime := if expiresDelta.Some? && expiresDelta.value != 0 then expiresDelta.value else AccessTokenExpireMinutes * 60;
    AccessToken(sub, role, hospitalId, now + lifetime, now, Issuer)
  }

  /** `POST /token` (form login): 401 for bad credentials, 403 for an
      inactive account, otherwise a bearer token whose claims are the
      address, the role and the hospital. */
  function Login(db: Dict<UserInDB>, verify: Verifier, username: string, password: string, now: int): (r: Result<Token>)
    ensures AuthenticateUser(db, verify, username, password).None? ==>
      r == Err(HttpError(401, "Incorrect email or password", true))
    ensures var u := AuthenticateUser(db, verify, username, password);
      u.Some? && !u.value.isActive ==> r == Err(HttpError(403, "Account is inactive. Contact administrator.", false))
    ensures var u := AuthenticateUser(db, verify, username, password);
      r.Ok? <==> u.Some? && u.value.isActive
    ensures r.Ok? ==>
      var u := AuthenticateUser(db, verify, username, password);
      && u.Some? && u.value.isActive
      && r.value.user == ToUser(u.value)
      && r.value.tokenType == "bearer" && r.value.expiresIn == 1800
      && r.value.accessToken.sub == u.value.email && r.value.accessToken.role == u.value.role
      && r.value.accessToken.hospitalId == Some(u.value.hospitalId)
      && r.value.accessToken.exp == now + 1800
      && r.value.accessToken.iat == now && r.value.accessToken.iss == Issuer
  {
    match AuthenticateUser(db, verify, username, password)
    case None => Err(HttpError(401, "Incorrect email or password", true))
    case Some(u) =>
      if !u.isActive then Err(HttpError(403, "Account is inactive. Contact administrator.", false))
      else
        var token := CreateAccessToken(u.email, u.role, Some(u.hospitalId), Some(AccessTokenExpireMinutes * 60), now);
        Ok(Token(token, "bearer", AccessTokenExpireMinutes * 60, ToUser(u)))
  }

  /** `POST /login` (JSON login): the same checks in the same order, but the
      token carries only the address and the role. */
  function LoginJson(db: Dict<UserInDB>, verify: Verifier, email: string, password: string, now: int): (r: Result<Token>)
    ensures AuthenticateUser(db, verify, email, password).None? ==>
      r == Err(HttpError(401, "Incorrect email or password", false))
    ensures var u := AuthenticateUser(db, verify, email, password);
      u.Some? && !u.value.isActive ==> r == Err(HttpError(403, "Account is inactive", false))
    ensures var u := AuthenticateUser(db, verify, email, password);
      r.Ok? <==> u.Some? && u.value.isActive
    ensures r.Ok? ==>
      var u := AuthenticateUser(db, verify, email, password);
      && u.Some? && u.value.isActive
      && r.value.user == ToUser(u.value)
      && r.value.tokenType == "bearer" && r.value.expiresIn == 1800
      && r.value.accessToken.sub == u.value.email && r.value.accessToken.role == u.value.role
      && r.value.accessToken.hospitalId.None?
      && r.value.accessToken.exp == now + 1800
      && r.value.accessToken.iat == now && r.value.accessToken.iss == Issuer
  {
    match AuthenticateUser(db, verify, email, password)
    case None => Err(HttpError(401, "Incorrect email or password", false))
    case Some(u) =>
      if !u.isActive then Err(HttpError(403, "Account is inactive", false))
      else
        var token := CreateAccessToken(u.email, u.role, None, Some(AccessTokenExpireMinutes * 60), now);
        Ok(Token(token, "bearer", AccessTokenExpireMinutes * 60, ToUser(u)))
  }

  /** An unknown address and a wrong password are indistinguishable to the
      caller of either endpoint. */
  lemma NoAccountEnumeration(db: Dict<UserInDB>, verify: Verifier, unknown: string, known: string, wrong: string, anyPassword: string, now: int)
    requires Get(db, unknown).None?
    requires Get(db, known).Some? && !verify(wrong, Get(db, known).value.hashedPassword)
    ensures Login(db, verify, unknown, anyPassword, now) == Login(db, verify, known, wrong, now)
    ensures LoginJson(db, verify, unknown, anyPassword, now) == LoginJson(db, verify, known, wrong, now)
  {
  }

  /** The two endpoints accept and refuse the same credentials; their tokens
      differ only in the hospital claim. */
  lemma LoginEndpointsAgree(db: Dict<UserInDB>, verify: Verifier, email: string, password: string, now: int)
    ensures Login(db, verify, email, password, now).Ok? <==> LoginJson(db, verify, email, password, now).Ok?
    ensures Login(db, verify, email, password, now).Err? ==>
      Login(db, verify, email, password, now).error.status == LoginJson(db, verify, email, password, now).error.status
    ensures Login(db, verify, email, password, now).Ok? ==>
      Login(db, verify, email, password, now).value.(accessToken := LoginJson(db, verify, email, password, now).value.accessToken)
        == LoginJson(db, verify, email, password, now).value
  {
  }

  /** `get_current_user`: 401 for a token without `sub`, 401 "Token has
      expired" for an expired one, 401 for an invalid one or for an address
      no longer in the table; otherwise the stored user. */
  function GetCurrentUser(db: Dict<UserInDB>, decoded: Decoded): (r: Result<User>)
    ensures decoded.ExpiredSignature? ==> r == Err(HttpError(401, "Token has expired", true))
    ensures decoded.InvalidToken? || decoded == Payload(None) ==> r == Err(CredentialsError)
    ensures decoded.Payload? && decoded.sub.Some? ==>
      match Get(db, decoded.sub.value)
      case None => r == Err(CredentialsError)
      case Some(u) => r == Ok(ToUser(u))
    ensures r.Err? ==> r.error.status == 401
  {
    match decoded
    case ExpiredSignature => Err(HttpError(401, "Token has expired", true))
    case InvalidToken => Err(CredentialsError)
    case Payload(sub) =>
      match sub
      case None => Err(CredentialsError)
      case Some(email) =>
        match Get(db, email)
        case None => Err(CredentialsError)
        case Some(u) => Ok(ToUser(u))
  }

  const CredentialsError := HttpError(401, "Could not validate credentials", true)

  /** A user returned for a token is one stored under the token's subject. */
  lemma CurrentUserIsStored(db: Dict<UserInDB>, decoded: Decoded)
    requires GetCurrentUser(db, decoded).Ok?
    ensures decoded.Payload? && decoded.sub.Some?
    ensures exists u :: (decoded.sub.value, u) in db && GetCurrentUser(db, decoded).value == ToUser(u)
  {
    GetSomeIsStored(db, decoded.sub.value);
  }

  // ---------------------------------------------------------------------
  // Administration

  /** The checks of `register_user`, in order: the caller must be an
      administrator (403), the address must be new (400), the role must be
      one of the five (400). `None` means the registration goes ahead. */
  function RegisterRejection(db: Dict<UserInDB>, caller: User, req: UserCreate): (e: Option<HttpError>)
    ensures caller.role != "admin" ==> e == Some(HttpError(403, "Only administrators can register new users", false))
    ensures caller.role == "admin" && HasKey(db, req.email) ==> e == Some(HttpError(400, "Email already registered", false))
    ensures caller.role == "admin" && !HasKey(db, req.email) && req.role !in ValidRoles ==>
      e == Some(HttpError(400, "Invalid role. Must be one of: doctor, nurse, pharmacist, lab_tech, admin", false))
    ensures e.None? <==> caller.role == "admin" && !HasKey(db, req.email) && req.role in ValidRoles
  {
    if caller.role != "admin" then Some(HttpError(403, "Only administrators can register new users", false))
    else if HasKey(db, req.email) then Some(HttpError(400, "Email already registered", false))
    else if req.role !in ValidRoles then
      Some(HttpError(400, "Invalid role. Must be one of: doctor, nurse, pharmacist, lab_tech, admin", false))
    else None
  }

  /** The record `register_user` inserts into a table of `size` users. */
  function NewUserRecord(size: nat, req: UserCreate, hashedPassword: string, now: string): (u: UserInDB)
    ensures u.userId == UserId(size + 1) && u.email == req.email && u.role == req.role
    ensures u.isActive && u.hashedPassword == hashedPassword && u.createdAt == now
    ensures u.fullName == req.fullName && u.hospitalId == req.hospitalId && u.department == req.department
  {
    UserInDB(UserId(size + 1), req.email, req.fullName, req.role, req.hospitalId, req.department,
             hashedPassword, true, now)
  }

  /** Appending an accepted registration keeps the table well formed. */
  lemma RegisterKeepsWellFormed(db: Dict<UserInDB>, req: UserCreate, hashedPassword: string, now: string)
    requires WellFormed(db) && !HasKey(db, req.email)
    ensures WellFormed(db + [(req.email, NewUserRecord(|db|, req, hashedPassword, now))])
  {
    var rec := NewUserRecord(|db|, req, hashedPassword, now);
    var d := db + [(req.email, rec)];
    forall i | 0 <= i < |db| ensures d[i] == db[i] && db[i].0 != req.email {
      assert HasKey(db, db[i].0);
    }
    assert KeysDistinct(d) by {
      forall i, j | 0 <= i < j < |d| ensures d[i].0 != d[j].0 {
        if j == |db| {
          assert d[j].0 == req.email;
        } else {
          assert d[i] == db[i] && d[j] == db[j];
        }
      }
    }
    assert d[|db|] == (req.email, rec);
  }

  /** `list_users`: administrators get one public record per stored user,
      in table order; anyone else is refused. */
  function ListUsers(db: Dict<UserInDB>, decoded: Decoded): (r: Result<seq<User>>)
    ensures GetCurrentUser(db, decoded).Err? ==> r == Err(GetCurrentUser(db, decoded).error)
    ensures GetCurrentUser(db, decoded).Ok? && GetCurrentUser(db, decoded).value.role != "admin" ==>
      r == Err(HttpError(403, "Only administrators can list users", false))
    ensures r.Ok? <==> GetCurrentUser(db, decoded).Ok? && GetCurrentUser(db, decoded).value.role == "admin"
    ensures r.Ok? ==> |r.value| == |db| && forall i :: 0 <= i < |db| ==> r.value[i] == ToUser(db[i].1)
  {
    match GetCurrentUser(db, decoded)
    case Err(e) => Err(e)
    case Ok(caller) =>
      if caller.role != "admin" then Err(HttpError(403, "Only administrators can list users", false))
      else Ok(seq(|db|, i requires 0 <= i < |db| => ToUser(db[i].1)))
  }

  /** After a registration the new user can sign in with the password
      whose hash was stored, provided the check accepts it. */
  lemma RegisteredUserCanLogin(db: Dict<UserInDB>, req: UserCreate, hashedPassword: string, now: string, verify: Verifier, t: int)
    requires WellFormed(db) && !HasKey(db, req.email) && verify(req.password, hashedPassword)
    ensures Login(db + [(req.email, NewUserRecord(|db|, req, hashedPassword, now))], verify, req.email, req.password, t).Ok?
  {
    var d := db + [(req.email, NewUserRecord(|db|, req, hashedPassword, now))];
    RegisterKeepsWellFormed(db, req, hashedPassword, now);
    GetAt(d, |db|);
  }

  /** The service and its mutable user table. */
  class AuthService {
    var users: Dict<UserInDB>

    ghost predicate Valid()
      reads this
    {
      WellFormed(users)
    }

    constructor (doctorHash: string, nurseHash: string, startedAt: string)
      ensures Valid() && users == SeedUsers(doctorHash, nurseHash, startedAt)
    {
      users := SeedUsers(doctorHash, nurseHash, startedAt);
      SeedWellFormed(doctorHash, nurseHash, startedAt);
    }

    /** `POST /users/register`. The caller is resolved from the bearer token
        first; `hashedPassword` is the bcrypt hash of the new password and
        `now` the creation time. Every rejection leaves the table as it
        was; an acceptance appends exactly one record under the new
        address. */
    method RegisterUser(decoded: Decoded, req: UserCreate, hashedPassword: string, now: string) returns (r: Result<User>)
      requires Valid()
      modifies this
      ensures Valid()
      ensures GetCurrentUser(old(users), decoded).Err? ==>
        r == Err(GetCurrentUser(old(users), decoded).error) && users == old(users)
      ensures GetCurrentUser(old(users), decoded).Ok? ==>
        var rejection := RegisterRejection(old(users), GetCurrentUser(old(users), decoded).value, req);
        && (rejection.Some? ==> r == Err(rejection.value) && users == old(users))
        && (rejection.None? ==>
              var u := NewUserRecord(|old(users)|, req, hashedPassword, now);
              r == Ok(ToUser(u)) && users == old(users) + [(req.email, u)])
    {
      var caller := GetCurrentUser(users, decoded);
      if caller.Err? {
        return Err(caller.error);
      }
      var rejection := RegisterRejection(users, caller.value, req);
      if rejection.Some? {
        return Err(rejection.value);
      }
      var u := NewUserRecord(|users|, req, hashedPassword, now);
      RegisterKeepsWellFormed(users, req, hashedPassword, now);
      PutNewAppends(users, req.email, u);
      users := Put(users, req.email, u);
      r := Ok(ToUser(u));
    }
  }
}
