/** The staff portal's authorization and session logic: the static role to
    permission-flag table, the fail-closed permission lookup for the
    signed-in user, the page guard, the sidebar's navigation entries, the
    choice of page content, and the login/logout transitions over the
    screen's state and the browser's storage. */
module StaffPortal {
  import opened Common

  /** The flags of a permission object. */
  datatype Capability =
    | ViewPatients | EditPatients | ViewLabs | ViewPrescriptions | WritePrescriptions
    | ViewAppointments | ManageAppointments | AccessTelemedicine | ViewSettings

  /** A permission object: a flag that is missing is `undefined` in the
      browser, which reads as false, exactly like a flag set to false. */
  type Permissions = map<Capability, bool>

  /** A flag is granted when it is present and true. */
  predicate Granted(p: Permissions, c: Capability)
  {
    c in p && p[c]
  }

  const DoctorFlags: Permissions := map[
    ViewPatients := true, EditPatients := true, ViewLabs := true,
    ViewPrescriptions := true, WritePrescriptions := true,
    ViewAppointments := true, ManageAppointments := true,
    AccessTelemedicine := true, ViewSettings := true]

  const NurseFlags: Permissions := map[
    ViewPatients := true, EditPatients := true, ViewLabs := true,
    ViewPrescriptions := true, WritePrescriptions := false,
    ViewAppointments := true, ManageAppointments := true,
    AccessTelemedicine := true, ViewSettings := false]

  /** Pharmacist, lab technician and administrator carry no telemedicine flag. */
  const PharmacistFlags: Permissions := map[
    ViewPatients := false, EditPatients := false, ViewLabs := false,
    ViewPrescriptions := true, WritePrescriptions := false,
    ViewAppointments := false, ManageAppointments := false,
    ViewSettings := false]

  const LabTechFlags: Permissions := map[
    ViewPatients := true, EditPatients := false, ViewLabs := true,
    ViewPrescriptions := false, WritePrescriptions := false,
    ViewAppointments := false, ManageAppointments := false,
    ViewSettings := false]

  const AdminFlags: Permissions := map[
    ViewPatients := true, EditPatients := true, ViewLabs := true,
    ViewPrescriptions := true, WritePrescriptions := true,
    ViewAppointments := true, ManageAppointments := true,
    ViewSettings := true]

  /** The `PERMISSIONS` table, keyed by role name. */
  const PermissionTable: map<string, Permissions> := map[
    "doctor" := DoctorFlags, "nurse" := NurseFlags, "pharmacist" := PharmacistFlags,
    "lab_tech" := LabTechFlags, "admin" := AdminFlags]

  /** The fields of the user object the portal reads. */
  datatype User = User(fullName: string, email: string, role: string, department: Option<string>)

  /** The hospital object the login response carries. */
  datatype Hospital = Hospital(
    name: string, shortCode: string, facilityType: string, level: string,
    regionName: string, city: string, logoColor: Option<string>)

  /** The permissions of the signed-in user: nothing without a user, and
      nothing for a role the table does not list. */
  function CurrentPermissions(user: Option<User>): (p: Permissions)
    ensures user.None? ==> p == map[]
    ensures user.Some? && user.value.role !in PermissionTable ==> p == map[]
    ensures user.Some? && user.value.role in PermissionTable ==> p == PermissionTable[user.value.role]
  {
    match user
    case None => map[]
    case Some(u) => if u.role in PermissionTable then PermissionTable[u.role] else map[]
  }

  // ---------------------------------------------------------------------
  // The page guard

  /** The gated pages and the flag each one needs: an independent statement
      of what the guard's switch decides. */
  const RequiredFlag: map<string, Capability> := map[
    "patients" := ViewPatients, "appointments" := ViewAppointments,
    "labs" := ViewLabs, "prescriptions" := ViewPrescriptions,
    "settings" := ViewSettings]

  /** `canAccessPage`: a gated page needs its flag; any other page name is
      allowed. */
  function CanAccessPage(p: Permissions, page: string): (allowed: bool)
    ensures page in RequiredFlag ==> (allowed <==> Granted(p, RequiredFlag[page]))
    ensures page !in RequiredFlag ==> allowed
  {
    if page == "patients" then Granted(p, ViewPatients)
    else if page == "appointments" then Granted(p, ViewAppointments)
    else if page == "labs" then Granted(p, ViewLabs)
    else if page == "prescriptions" then Granted(p, ViewPrescriptions)
    else if page == "settings" then Granted(p, ViewSettings)
    else true
  }

  /** Fail-closed: with no user, or with a role the table does not know,
      every gated page is denied and only ungated pages remain. */
  lemma FailClosed(user: Option<User>, page: string)
    requires user.None? || user.value.role !in PermissionTable
    ensures CanAccessPage(CurrentPermissions(user), page) <==> page !in RequiredFlag
  {
  }

  /** Whatever the permissions, a page outside the gated five (the
      dashboard, telemedicine, any other name) is allowed. */
  lemma UngatedPagesAllowed(p: Permissions)
    ensures CanAccessPage(p, "dashboard") && CanAccessPage(p, "telemedicine")
  {
  }

  /** The facts the role table fixes. */
  lemma RoleTableFacts()
    ensures var ph := PermissionTable["pharmacist"];
      Granted(ph, ViewPrescriptions) && !Granted(ph, WritePrescriptions) && !Granted(ph, ViewPatients)
    ensures var lt := PermissionTable["lab_tech"];
      Granted(lt, ViewPatients) && Granted(lt, ViewLabs)
      && !Granted(lt, EditPatients) && !Granted(lt, WritePrescriptions) && !Granted(lt, ManageAppointments)
    ensures !Granted(PermissionTable["nurse"], WritePrescriptions) && !Granted(PermissionTable["nurse"], ViewSettings)
    ensures forall c: Capability :: Granted(PermissionTable["doctor"], c)
  {
    forall c: Capability ensures Granted(PermissionTable["doctor"], c) {
      match c
      case ViewPatients =>
      case EditPatients =>
      case ViewLabs =>
      case ViewPrescriptions =>
      case WritePrescriptions =>
      case ViewAppointments =>
      case ManageAppointments =>
      case AccessTelemedicine =>
      case ViewSettings =>
    }
  }

  /** The table never changes within or across sessions: the permissions of
      two users with the same role agree. */
  lemma PermissionsDependOnRoleOnly(u1: User, u2: User)
    requires u1.role == u2.role
    ensures CurrentPermissions(Some(u1)) == CurrentPermissions(Some(u2))
  {
  }

  // ---------------------------------------------------------------------
  // Sidebar and page content

  /** The sidebar's navigation entries, in order: the dashboard always, each
      other entry only under its flag. */
  function NavEntries(p: Permissions): (nav: seq<string>)
    ensures |nav| >= 1 && nav[0] == "dashboard"
    ensures forall e :: e in nav ==> e == "dashboard" || e == "telemedicine" || e in RequiredFlag
    ensures forall e :: e in nav ==> CanAccessPage(p, e)
    ensures "telemedicine" in nav <==> Granted(p, AccessTelemedicine)
  {
    ["dashboard"]
    + (if Granted(p, ViewPatients) then ["patients"] else [])
    + (if Granted(p, ViewAppointments) then ["appointments"] else [])
    + (if Granted(p, ViewLabs) then ["labs"] else [])
    + (if Granted(p, ViewPrescriptions) then ["prescriptions"] else [])
    + (if Granted(p, AccessTelemedicine) then ["telemedicine"] else [])
    + (if Granted(p, ViewSettings) then ["settings"] else [])
  }

  /** The sidebar shows a gated page exactly when the guard admits it. */
  lemma NavShowsGatedPages(p: Permissions)
    ensures forall g :: g in RequiredFlag ==> (g in NavEntries(p) <==> CanAccessPage(p, g))
  {
    var nav := NavEntries(p);
    assert "patients" in nav <==> Granted(p, ViewPatients);
    assert "appointments" in nav <==> Granted(p, ViewAppointments);
    assert "labs" in nav <==> Granted(p, ViewLabs);
    assert "prescriptions" in nav <==> Granted(p, ViewPrescriptions);
    assert "settings" in nav <==> Granted(p, ViewSettings);
  }

  /** The telemedicine page is guarded by nothing: a role whose sidebar hides
      it (the pharmacist, say) is still admitted by the guard. */
  lemma TelemedicineHiddenButAdmitted()
    ensures "telemedicine" !in NavEntries(PermissionTable["pharmacist"])
    ensures CanAccessPage(PermissionTable["pharmacist"], "telemedicine")
  {
  }

  /** What the main area shows, with just the flags each page branches on. */
  datatype View =
    | Blank                                   // `null`
    | AccessDenied(role: string)              // the denial notice, naming the role
    | Dashboard(shownFlags: seq<Capability>, showsHospital: bool)
    | PatientsPage(editable: bool)
    | AppointmentsPage(canManage: bool)
    | LabsPage
    | PrescriptionsPage(canWrite: bool)
    | TelemedicinePage
    | SettingsPage

  /** The position of a flag in the dashboard's permission list; viewing
      appointments and telemedicine are not listed. */
  function DashboardRank(c: Capability): nat
  {
    match c
    case ViewPatients => 0
    case EditPatients => 1
    case ViewLabs => 2
    case ViewPrescriptions => 3
    case WritePrescriptions => 4
    case ManageAppointments => 5
    case ViewSettings => 6
    case ViewAppointments => 7
    case AccessTelemedicine => 8
  }

  /** The flags the dashboard's permission list names, in its order. */
  const DashboardOrder: seq<Capability> :=
    [ViewPatients, EditPatients, ViewLabs, ViewPrescriptions, WritePrescriptions, ManageAppointments, ViewSettings]

  /** The granted flags of `cs`, in the order of `cs`. */
  function GrantedAmong(p: Permissions, cs: seq<Capability>): (r: seq<Capability>)
    ensures forall c :: c in r <==> c in cs && Granted(p, c)
  {
    if cs == [] then []
    else GrantedAmong(p, cs[..|cs| - 1]) + (if Granted(p, cs[|cs| - 1]) then [cs[|cs| - 1]] else [])
  }

  /** Keeping some flags of a list ordered by rank keeps it ordered. */
  lemma {:induction false} GrantedAmongOrdered(p: Permissions, cs: seq<Capability>)
    requires forall i, j :: 0 <= i < j < |cs| ==> DashboardRank(cs[i]) < DashboardRank(cs[j])
    ensures forall i, j :: 0 <= i < j < |GrantedAmong(p, cs)| ==>
      DashboardRank(GrantedAmong(p, cs)[i]) < DashboardRank(GrantedAmong(p, cs)[j])
  {
    if cs != [] {
      var q := cs[..|cs| - 1];
      var last := cs[|cs| - 1];
      assert forall i :: 0 <= i < |q| ==> q[i] == cs[i];
      GrantedAmongOrdered(p, q);
      var r0 := GrantedAmong(p, q);
      forall c | c in r0 ensures DashboardRank(c) < DashboardRank(last) {
        var k :| 0 <= k < |q| && q[k] == c;
      }
      var r := GrantedAmong(p, cs);
      assert r == r0 + (if Granted(p, last) then [last] else []);
      forall i, j | 0 <= i < j < |r| ensures DashboardRank(r[i]) < DashboardRank(r[j]) {
        assert r[i] == r0[i] && r[i] in r0;
        if j < |r0| {
          assert r[j] == r0[j];
        } else {
          assert r[j] == last;
        }
      }
    }
  }

  /** The flags the dashboard lists: every granted flag of its list and no
      other, in the list's order. */
  function DashboardFlags(p: Permissions): (flags: seq<Capability>)
    ensures forall c :: c in flags ==> Granted(p, c)
    ensures forall c :: DashboardRank(c) < 7 ==> (c in flags <==> Granted(p, c))
    ensures ViewAppointments !in flags && AccessTelemedicine !in flags
    ensures forall i, j :: 0 <= i < j < |flags| ==> DashboardRank(flags[i]) < DashboardRank(flags[j])
  {
    GrantedAmongOrdered(p, DashboardOrder);
    var flags := GrantedAmong(p, DashboardOrder);
    assert forall i, j :: 0 <= i < j < |flags| ==> DashboardRank(flags[i]) < DashboardRank(flags[j]);
    assert forall c :: DashboardRank(c) < 7 ==> c in DashboardOrder by {
      forall c | DashboardRank(c) < 7 ensures c in DashboardOrder {
        assert DashboardOrder[DashboardRank(c)] == c;
      }
    }
    flags
  }

  /** The pages `renderPageContent` knows. */
  const PageNames: set<string> := {"dashboard", "patients", "appointments", "labs", "prescriptions", "telemedicine", "settings"}

  /** `renderPageContent`: nothing without a user; the denial notice and no
      page content when the guard refuses the active page; otherwise the
      page, or nothing for a page name it does not know. */
  function RenderPageContent(user: Option<User>, hospital: Option<Hospital>, activePage: string): (v: View)
    ensures user.None? ==> v == Blank
    ensures user.Some? && !CanAccessPage(CurrentPermissions(user), activePage) ==> v == AccessDenied(user.value.role)
    ensures v.AccessDenied? ==> user.Some? && !CanAccessPage(CurrentPermissions(user), activePage)
    ensures !v.Blank? && !v.AccessDenied? ==> user.Some? && CanAccessPage(CurrentPermissions(user), activePage)
    ensures v.PatientsPage? ==> activePage == "patients" && v.editable == Granted(CurrentPermissions(user), EditPatients)
    ensures v.PrescriptionsPage? ==> activePage == "prescriptions" && v.canWrite == Granted(CurrentPermissions(user), WritePrescriptions)
    ensures v.AppointmentsPage? ==> activePage == "appointments" && v.canManage == Granted(CurrentPermissions(user), ManageAppointments)
    ensures user.Some? && CanAccessPage(CurrentPermissions(user), activePage) ==>
      var p := CurrentPermissions(user);
      && (activePage == "dashboard" ==> v == Dashboard(DashboardFlags(p), hospital.Some?))
      && (activePage == "patients" ==> v == PatientsPage(Granted(p, EditPatients)))
      && (activePage == "appointments" ==> v == AppointmentsPage(Granted(p, ManageAppointments)))
      && (activePage == "labs" ==> v == LabsPage)
      && (activePage == "prescriptions" ==> v == PrescriptionsPage(Granted(p, WritePrescriptions)))
      && (activePage == "telemedicine" ==> v == TelemedicinePage)
      && (activePage == "settings" ==> v == SettingsPage)
      && (activePage !in PageNames ==> v == Blank)
  {
    match user
    case None => Blank
    case Some(u) =>
      var p := CurrentPermissions(user);
      if !CanAccessPage(p, activePage) then AccessDenied(u.role)
      else if activePage == "dashboard" then Dashboard(DashboardFlags(p), hospital.Some?)
      else if activePage == "patients" then PatientsPage(Granted(p, EditPatients))
      else if activePage == "appointments" then AppointmentsPage(Granted(p, ManageAppointments))
      else if activePage == "labs" then LabsPage
      else if activePage == "prescriptions" then PrescriptionsPage(Granted(p, WritePrescriptions))
      else if activePage == "telemedicine" then TelemedicinePage
      else if activePage == "settings" then SettingsPage
      else Blank
  }

  /** A pharmacist is refused the patients page and reaches prescriptions
      without the right to write them; a doctor reaches settings. */
  lemma RoleScenarios(pharmacist: User, doctor: User, h: Option<Hospital>)
    requires pharmacist.role == "pharmacist" && doctor.role == "doctor"
    ensures RenderPageContent(Some(pharmacist), h, "patients") == AccessDenied("pharmacist")
    ensures RenderPageContent(Some(pharmacist), h, "prescriptions") == PrescriptionsPage(false)
    ensures RenderPageContent(Some(doctor), h, "settings") == SettingsPage
  {
  }

  /** Page access never depends on the hospital: it is decided from the role
      alone, whether or not the hospital arrived. */
  lemma AccessIndependentOfHospital(user: User, h1: Option<Hospital>, h2: Option<Hospital>, page: string)
    ensures RenderPageContent(Some(user), h1, page).AccessDenied?
        <==> RenderPageContent(Some(user), h2, page).AccessDenied?
  {
  }

  // ---------------------------------------------------------------------
  // Session state

  const TokenKey := "danaya_token"
  const HospitalKey := "danaya_hospital"
  const LoginErrorMessage := "Email ou mot de passe incorrect"

  /** The screen's state and the browser's storage. */
  datatype AppState = AppState(
    user: Option<User>,
    hospital: Option<Hospital>,
    activePage: string,
    error: string,
    loading: bool,
    storage: map<string, string>)

  /** A successful response from the token endpoint. */
  datatype LoginResponse = LoginResponse(accessToken: string, user: User, hospital: Option<Hospital>)

  /** The state when the screen is first shown; the browser's storage is
      whatever an earlier visit left in it. */
  function Initial(storage: map<string, string>): (s: AppState)
    ensures s.user.None? && s.hospital.None? && s.activePage == "dashboard"
    ensures s.error == "" && !s.loading && s.storage == storage
  {
    AppState(None, None, "dashboard", "", false, storage)
  }

  /** The part of `handleLogin` before the request: the error cleared and
      the spinner on. */
  function StartLogin(s: AppState): AppState
  {
    s.(error := "", loading := true)
  }

  /** The rest of `handleLogin`, once the request settled: `None` stands for
      any failure (rejected credentials, inactive account, network error).
      `stringify` is `JSON.stringify` applied to the hospital. */
  function FinishLogin(s: AppState, response: Option<LoginResponse>, stringify: Option<Hospital> -> string): (r: AppState)
    ensures !r.loading
    ensures response.Some? ==>
      && r.user == Some(response.value.user)
      && r.hospital == response.value.hospital
      && r.activePage == "dashboard"
      && r.error == s.error
      && r.storage == s.storage[TokenKey := response.value.accessToken][HospitalKey := stringify(response.value.hospital)]
    ensures response.None? ==>
      r == s.(error := LoginErrorMessage, loading := false)
  {
    match response
    case Some(res) =>
      s.(user := Some(res.user), hospital := res.hospital,
         storage := s.storage[TokenKey := res.accessToken][HospitalKey := stringify(res.hospital)],
         activePage := "dashboard", loading := false)
    case None =>
      s.(error := LoginErrorMessage, loading := false)
  }

  /** `handleLogin` as a whole. */
  function Login(s: AppState, response: Option<LoginResponse>, stringify: Option<Hospital> -> string): AppState
  {
    FinishLogin(StartLogin(s), response, stringify)
  }

  /** `handleLogout`. */
  function Logout(s: AppState): (r: AppState)
    ensures r.user.None? && r.hospital.None? && r.activePage == "dashboard"
    ensures TokenKey !in r.storage && HospitalKey !in r.storage
    ensures r.storage == s.storage - {TokenKey, HospitalKey}
    ensures r.error == s.error && r.loading == s.loading
  {
    s.(user := None, hospital := None,
       storage := s.storage - {TokenKey, HospitalKey}, activePage := "dashboard")
  }

  /** A click on a navigation entry. */
  function Navigate(s: AppState, page: string): AppState
  {
    s.(activePage := page)
  }

  /** The login effects: a success installs the user and hospital from the
      response, persists token and hospital, returns to the dashboard and
      clears the error; a failure, whatever its cause, keeps everything but
      the one generic message. Either way the spinner is off. */
  lemma LoginEffects(s: AppState, response: Option<LoginResponse>, stringify: Option<Hospital> -> string)
    ensures var r := Login(s, response, stringify);
      && !r.loading
      && (response.Some? ==>
            && r.user == Some(response.value.user) && r.hospital == response.value.hospital
            && r.activePage == "dashboard" && r.error == ""
            && r.storage[TokenKey] == response.value.accessToken
            && r.storage[HospitalKey] == stringify(response.value.hospital))
      && (response.None? ==>
            && r.user == s.user && r.hospital == s.hospital && r.activePage == s.activePage
            && r.storage == s.storage && r.error == LoginErrorMessage)
  {
  }

  /** Logging out twice is the same as logging out once. */
  lemma LogoutIdempotent(s: AppState)
    ensures Logout(Logout(s)) == Logout(s)
  {
  }

  /** What the whole screen shows: the login form (with its error and
      spinner) without a user, else the sidebar entries and the page. */
  datatype Screen =
    | LoginForm(error: string, loading: bool)
    | Portal(nav: seq<string>, content: View)

  function Render(s: AppState): (screen: Screen)
    ensures s.user.None? ==> screen == LoginForm(s.error, s.loading)
    ensures s.user.Some? ==> screen.Portal? && screen.nav == NavEntries(CurrentPermissions(s.user))
    ensures s.user.Some? ==> screen.content == RenderPageContent(s.user, s.hospital, s.activePage)
  {
    match s.user
    case None => LoginForm(s.error, s.loading)
    case Some(_) => Portal(NavEntries(CurrentPermissions(s.user)), RenderPageContent(s.user, s.hospital, s.activePage))
  }

  /** The invariant of every state the screen itself can reach: a signed-in
      user's active page passes the guard, and the credential is persisted. */
  predicate Consistent(s: AppState)
  {
    s.user.Some? ==>
      && CanAccessPage(CurrentPermissions(s.user), s.activePage)
      && TokenKey in s.storage && HospitalKey in s.storage
  }

  /** The screen starts consistent and each of its transitions (login in
      either outcome, logout, a click on an offered entry) keeps it so;
      only those clicks change the active page. */
  lemma ConsistentPreserved(s: AppState, response: Option<LoginResponse>, stringify: Option<Hospital> -> string, page: string)
    ensures Consistent(Initial(s.storage))
    ensures Consistent(s) ==> Consistent(Login(s, response, stringify))
    ensures Consistent(s) ==> Consistent(Logout(s))
    ensures Consistent(s) && page in NavEntries(CurrentPermissions(s.user)) ==> Consistent(Navigate(s, page))
  {
  }

  /** In a consistent state the denial notice is never shown: it is reached
      only by an active page the sidebar never offered. */
  lemma ConsistentNeverDenied(s: AppState)
    requires Consistent(s)
    ensures !Render(s).Portal? || !Render(s).content.AccessDenied?
  {
  }

  // ---------------------------------------------------------------------
  // The component's state, updated in place

  class PortalApp {
    var user: Option<User>
    var hospital: Option<Hospital>
    var activePage: string
    var error: string
    var loading: bool
    /** `localStorage`. */
    var storage: map<string, string>

    function State(): AppState
      reads this
    {
      AppState(user, hospital, activePage, error, loading, storage)
    }

    constructor (persisted: map<string, string>)
      ensures State() == Initial(persisted)
    {
      user := None;
      hospital := None;
      activePage := "dashboard";
      error := "";
      loading := false;
      storage := persisted;
    }

    /** The permissions derived from the current user. */
    function Permissions(): (p: Permissions)
      reads this
      ensures user.None? ==> p == map[]
      ensures user.Some? && user.value.role !in PermissionTable ==> p == map[]
      ensures user.Some? && user.value.role in PermissionTable ==> p == PermissionTable[user.value.role]
    {
      CurrentPermissions(user)
    }

    method HandleLogin(response: Option<LoginResponse>, stringify: Option<Hospital> -> string)
      modifies this
      ensures State() == Login(old(State()), response, stringify)
    {
      error := "";
      loading := true;
      if response.Some? {
        var res := response.value;
        user := Some(res.user);
        hospital := res.hospital;
        storage := storage[TokenKey := res.accessToken];
        storage := storage[HospitalKey := stringify(res.hospital)];
        activePage := "dashboard";
      } else {
        error := LoginErrorMessage;
      }
      loading := false;
    }

    method HandleLogout()
      modifies this
      ensures State() == Logout(old(State()))
    {
      user := None;
      hospital := None;
      storage := storage - {TokenKey};
      storage := storage - {HospitalKey};
      activePage := "dashboard";
    }

    method SetActivePage(page: string)
      modifies this
      ensures State() == Navigate(old(State()), page)
    {
      activePage := page;
    }
  }
}
