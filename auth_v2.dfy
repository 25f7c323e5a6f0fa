/** The second authentication service: the same credential check with an
    unsalted hash compared by equality, a fixed table of demo users, the
    hospital lookup in the facility registry with its logo colour by
    facility type, and the two login endpoints. Hashing (SHA-256), token
    signing and the HTTP call to the registry are outside the model: the
    hash is a parameter, a token is its claims, and the registry's reply to
    each hospital identifier is a parameter. */
module AuthV2 {
  import opened Common
  import opened OrderedDict

  const AccessTokenExpireMinutes: int := 30
  const DefaultLogoColor: string := "#0047AB"

  datatype UserInDB = UserInDB(
    userId: string, email: string, fullName: string, role: string, hospitalId: string,
    department: Option<string>, hashedPassword: string, isActive: bool, createdAt: string)

  datatype User = User(
    userId: string, email: string, fullName: string, role: string, hospitalId: string,
    department: Option<string>, isActive: bool, createdAt: string)

  datatype Hospital = Hospital(
    id: string, name: string, shortCode: string, facilityType: string, level: string,
    regionName: string, city: string, logoUrl: string, logoColor: string)

  /** The claims of a signed token: `sub`, `role`, `exp` and `iat` (seconds). */
  datatype AccessToken = AccessToken(sub: string, role: string, exp: int, iat: int)

  datatype Token = Token(
    accessToken: AccessToken, tokenType: string, expiresIn: int, user: User, hospital: Option<Hospital>)

  /** The registry fields the lookup copies. */
  datatype FacilityBody = FacilityBody(
    id: string, name: string, shortCode: string, facilityType: string, level: string,
    regionName: string, city: string, logoUrl: string)

  /** What the registry's `GET /facilities/{id}` gives back: a status and a
      body (`None` when the body is not JSON or lacks one of the copied
      fields), or a transport failure such as a timeout. */
  datatype RegistryReply = Reply(status: int, body: Option<FacilityBody>) | TransportError

  /** A login's response together with the hospital identifiers it asked the
      registry about, in order. */
  datatype LoginOutcome = LoginOutcome(response: Result<Token>, registryRequests: seq<string>)

  /** What decoding a bearer token yields. */
  datatype Decoded = Payload(sub: Option<string>) | ExpiredSignature | InvalidToken

  /** `hash_password`: SHA-256 in hexadecimal, left abstract. */
  type Hasher = string -> string

  function ToUser(u: UserInDB): (r: User)
    ensures r.userId == u.userId && r.email == u.email && r.role == u.role && r.isActive == u.isActive
    ensures r.fullName == u.fullName && r.hospitalId == u.hospitalId && r.department == u.department
    ensures r.createdAt == u.createdAt
  {
    User(u.userId, u.email, u.fullName, u.role, u.hospitalId, u.department, u.isActive, u.createdAt)
  }

  /** The four demo accounts; hashes and creation time are computed when the
      service starts. */
  function SeedUsers(hash: Hasher, startedAt: string): (db: Dict<UserInDB>)
    ensures |db| == 4
    ensures forall i :: 0 <= i < |db| ==> db[i].0 == db[i].1.email && db[i].1.isActive
  {
    [ ("doctor@chu-ouaga.bf",
       UserInDB("USR001", "doctor@chu-ouaga.bf", "Dr. Ouedraogo Amadou", "doctor", "BF-CHU-YALG",
                Some("Emergency"), hash("Doctor123!"), true, startedAt)),
      ("nurse@chu-ouaga.bf",
       UserInDB("USR002", "nurse@chu-ouaga.bf", "Zongo Fatoumata", "nurse", "BF-CHU-YALG",
                Some("Pediatrics"), hash("Nurse123!"), true, startedAt)),
      ("admin@danaya.bf",
       UserInDB("USR003", "admin@danaya.bf", "Administrateur Système", "admin", "BF-CHU-YALG",
                Some("IT"), hash("Admin123!"), true, startedAt)),
      ("doctor@chu-bobo.bf",
       UserInDB("USR004", "doctor@chu-bobo.bf", "Dr. Kone Seydou", "doctor", "BF-CHU-BOBO",
                Some("Surgery"), hash("Doctor123!"), true, startedAt)) ]
  }

  // ---------------------------------------------------------------------
  // Credentials

  /** `verify_password`: the plain password hashes to the stored hash. */
  predicate VerifyPassword(hash: Hasher, plain: string, hashed: string)
  {
    hash(plain) == hashed
  }

  /** `authenticate_user`. */
  function AuthenticateUser(db: Dict<UserInDB>, hash: Hasher, email: string, password: string): (r: Option<UserInDB>)
    ensures Get(db, email).None? ==> r.None?
    ensures Get(db, email).Some? && hash(password) != Get(db, email).value.hashedPassword ==> r.None?
    ensures Get(db, email).Some? && hash(password) == Get(db, email).value.hashedPassword ==> r == Get(db, email)
  {
    match Get(db, email)
    case None => None
    case Some(u) => if VerifyPassword(hash, password, u.hashedPassword) then Some(u) else None
  }

  /** The demo doctor signs in with the demo password, and with nothing that
      hashes differently. */
  lemma DemoDoctorCredentials(hash: Hasher, startedAt: string, password: string)
    ensures AuthenticateUser(SeedUsers(hash, startedAt), hash, "doctor@chu-ouaga.bf", "Doctor123!").Some?
    ensures hash(password) != hash("Doctor123!") ==>
      AuthenticateUser(SeedUsers(hash, startedAt), hash, "doctor@chu-ouaga.bf", password).None?
  {
  }

  // ---------------------------------------------------------------------
  // Hospital lookup

  /** The logo colour by facility type, with a default for any other type. */
  function LogoColor(facilityType: string): (c: string)
    ensures facilityType == "CHU" ==> c == "#0047AB"
    ensures facilityType == "CHR" ==> c == "#00A651"
    ensures facilityType == "CMA" ==> c == "#FDB813"
    ensures facilityType == "CSPS" ==> c == "#20B2AA"
    ensures facilityType !in {"CHU", "CHR", "CMA", "CSPS"} ==> c == DefaultLogoColor
  {
    var typeColors := map["CHU" := "#0047AB", "CHR" := "#00A651", "CMA" := "#FDB813", "CSPS" := "#20B2AA"];
    if facilityType in typeColors then typeColors[facilityType] else DefaultLogoColor
  }

  /** `get_hospital_info`: a hospital copied from the registry's fields on a
      200 reply with a usable body; nothing on any other status, on an
      unusable body or on a transport failure. */
  function GetHospitalInfo(reply: RegistryReply): (h: Option<Hospital>)
    ensures h.Some? <==> reply.Reply? && reply.status == 200 && reply.body.Some?
    ensures h.Some? ==>
      var b := reply.body.value;
      && h.value.id == b.id && h.value.name == b.name && h.value.shortCode == b.shortCode
      && h.value.facilityType == b.facilityType && h.value.level == b.level
      && h.value.regionName == b.regionName && h.value.city == b.city && h.value.logoUrl == b.logoUrl
      && h.value.logoColor == LogoColor(b.facilityType)
  {
    match reply
    case TransportError => None
    case Reply(status, body) =>
      if status != 200 then None
      else match body
        case None => None
        case Some(b) =>
          Some(Hospital(b.id, b.name, b.shortCode, b.facilityType, b.level, b.regionName, b.city,
                        b.logoUrl, LogoColor(b.facilityType)))
  }

  // ---------------------------------------------------------------------
  // Login endpoints

  function IssueToken(u: UserInDB, hospital: Option<Hospital>, now: int): (t: Token)
    ensures t.accessToken == AccessToken(u.email, u.role, now + 1800, now)
    ensures t.tokenType == "bearer" && t.expiresIn == 1800 && t.user == ToUser(u) && t.hospital == hospital
  {
    var lifetime := AccessTokenExpireMinutes * 60;
    Token(AccessToken(u.email, u.role, now + lifetime, now), "bearer", lifetime, ToUser(u), hospital)
  }

  /** `POST /token`: 401 for bad credentials, 403 for an inactive account
      (both before the registry is asked anything), then one registry lookup
      whose outcome only decides the `hospital` field. */
  function Login(db: Dict<UserInDB>, hash: Hasher, registry: string -> RegistryReply, username: string, password: string, now: int): (o: LoginOutcome)
    ensures var u := AuthenticateUser(db, hash, username, password);
      && (o.response.Ok? <==> u.Some? && u.value.isActive)
      && (u.None? ==> o.response == Err(HttpError(401, "Incorrect email or password", true)))
      && (u.Some? && !u.value.isActive ==> o.response == Err(HttpError(403, "Account is inactive", false)))
      && (o.response.Err? ==> o.registryRequests == [])
      && (o.response.Ok? ==>
            && o.registryRequests == [u.value.hospitalId]
            && o.response.value == IssueToken(u.value, GetHospitalInfo(registry(u.value.hospitalId)), now))
  {
    match AuthenticateUser(db, hash, username, password)
    case None => LoginOutcome(Err(HttpError(401, "Incorrect email or password", true)), [])
    case Some(u) =>
      if !u.isActive then LoginOutcome(Err(HttpError(403, "Account is inactive", false)), [])
      else
        var hospital := GetHospitalInfo(registry(u.hospitalId));
        LoginOutcome(Ok(IssueToken(u, hospital, now)), [u.hospitalId])
  }

  /** `POST /login`: only the credential check; an inactive account is not
      refused. */
  function LoginJson(db: Dict<UserInDB>, hash: Hasher, registry: string -> RegistryReply, email: string, password: string, now: int): (o: LoginOutcome)
    ensures var u := AuthenticateUser(db, hash, email, password);
      && (o.response.Ok? <==> u.Some?)
      && (u.None? ==> o.response == Err(HttpError(401, "Incorrect email or password", false)))
      && (o.response.Err? ==> o.registryRequests == [])
      && (o.response.Ok? ==>
            && o.registryRequests == [u.value.hospitalId]
            && o.response.value == IssueToken(u.value, GetHospitalInfo(registry(u.value.hospitalId)), now))
  {
    match AuthenticateUser(db, hash, email, password)
    case None => LoginOutcome(Err(HttpError(401, "Incorrect email or password", false)), [])
    case Some(u) =>
      var hospital := GetHospitalInfo(registry(u.hospitalId));
      LoginOutcome(Ok(IssueToken(u, hospital, now)), [u.hospitalId])
  }

  /** A registry that fails, times out or answers garbage never fails a
      login: whether a token is issued, and the token itself, are the same
      for any two registries. */
  lemma RegistryFailureNeverFailsLogin(db: Dict<UserInDB>, hash: Hasher, r1: string -> RegistryReply, r2: string -> RegistryReply, email: string, password: string, now: int)
    ensures Login(db, hash, r1, email, password, now).response.Ok? == Login(db, hash, r2, email, password, now).response.Ok?
    ensures Login(db, hash, r1, email, password, now).response.Ok? ==>
      Login(db, hash, r1, email, password, now).response.value.(hospital := None)
        == Login(db, hash, r2, email, password, now).response.value.(hospital := None)
    ensures LoginJson(db, hash, r1, email, password, now).response.Ok? == LoginJson(db, hash, r2, email, password, now).response.Ok?
    ensures LoginJson(db, hash, r1, email, password, now).response.Ok? ==>
      LoginJson(db, hash, r1, email, password, now).response.value.(hospital := None)
        == LoginJson(db, hash, r2, email, password, now).response.value.(hospital := None)
  {
  }

  /** The two endpoints disagree exactly on inactive accounts: `/token`
      refuses them with 403, `/login` issues them a token. */
  lemma LoginJsonAdmitsInactive(db: Dict<UserInDB>, hash: Hasher, registry: string -> RegistryReply, email: string, password: string, now: int)
    ensures var u := AuthenticateUser(db, hash, email, password);
      u.Some? && !u.value.isActive ==>
        && Login(db, hash, registry, email, password, now).response == Err(HttpError(403, "Account is inactive", false))
        && LoginJson(db, hash, registry, email, password, now).response.Ok?
    ensures Login(db, hash, registry, email, password, now).response.Ok? ==>
      Login(db, hash, registry, email, password, now) == LoginJson(db, hash, registry, email, password, now)
  {
  }

  /** A concrete case: an inactive account with the right password. */
  lemma InactiveAccountExample(hash: Hasher, registry: string -> RegistryReply, now: int)
    ensures var db := [("x@h.bf", UserInDB("USR009", "x@h.bf", "X", "nurse", "H", None, hash("pw"), false, "t"))];
      && Login(db, hash, registry, "x@h.bf", "pw", now).response.Err?
      && LoginJson(db, hash, registry, "x@h.bf", "pw", now).response.Ok?
  {
  }

  // ---------------------------------------------------------------------
  // The bearer-token check

  const CredentialsError := HttpError(401, "Could not validate credentials", true)

  /** The reply an unhandled exception gets from the server. */
  const InternalServerError := HttpError(500, "Internal Server Error", false)

  /** `get_current_user` as written. The token library this service imports
      raises its own error class for a bad token and has no `PyJWTError`, so
      once an exception other than an expiry reaches the second `except`
      clause, evaluating that clause raises `AttributeError`: both the
      credentials error raised for a token without `sub` and a decoding
      failure end as a server error. Only expiry and an unknown subject get
      their 401. */
  function GetCurrentUserAsWritten(db: Dict<UserInDB>, decoded: Decoded): (r: Result<User>)
    ensures decoded.ExpiredSignature? ==> r == Err(HttpError(401, "Token has expired", false))
    ensures decoded.InvalidToken? || decoded == Payload(None) ==> r == Err(InternalServerError)
    ensures decoded.Payload? && decoded.sub.Some? ==>
      r == match Get(db, decoded.sub.value) case None => Err(CredentialsError) case Some(u) => Ok(ToUser(u))
  {
    match decoded
    case ExpiredSignature => Err(HttpError(401, "Token has expired", false))
    case InvalidToken => Err(InternalServerError)
    case Payload(sub) =>
      match sub
      case None => Err(InternalServerError)
      case Some(email) =>
        match Get(db, email)
        case None => Err(CredentialsError)
        case Some(u) => Ok(ToUser(u))
  }

  /** The discrepancy: a token without a subject is refused with a server
      error and not with the 401 the handler raises. */
  lemma MissingSubjectIsServerError(db: Dict<UserInDB>)
    ensures GetCurrentUserAsWritten(db, Payload(None)).error.status == 500
    ensures GetCurrentUserAsWritten(db, InvalidToken).error.status == 500
  {
  }

  /** `get_current_user` as intended: every refusal is a 401, expiry with its
      own message. */
  function GetCurrentUser(db: Dict<UserInDB>, decoded: Decoded): (r: Result<User>)
    ensures r.Err? ==> r.error.status == 401
    ensures decoded.ExpiredSignature? ==> r == Err(HttpError(401, "Token has expired", false))
    ensures r.Ok? <==> decoded.Payload? && decoded.sub.Some? && HasKey(db, decoded.sub.value)
    ensures r.Ok? ==> Get(db, decoded.sub.value).Some? && r.value == ToUser(Get(db, decoded.sub.value).value)
  {
    match decoded
    case ExpiredSignature => Err(HttpError(401, "Token has expired", false))
    case InvalidToken => Err(CredentialsError)
    case Payload(sub) =>
      match sub
      case None => Err(CredentialsError)
      case Some(email) =>
        GetSomeIffHasKey(db, email);
        match Get(db, email)
        case None => Err(CredentialsError)
        case Some(u) => Ok(ToUser(u))
  }

  /** The corrected check agrees with the code as written wherever the code
      as written does not end in a server error. */
  lemma CorrectedAgreesOtherwise(db: Dict<UserInDB>, decoded: Decoded)
    requires GetCurrentUserAsWritten(db, decoded) != Err(InternalServerError)
    ensures GetCurrentUser(db, decoded) == GetCurrentUserAsWritten(db, decoded)
  {
  }
}
