# DANAYA core, modelled in Dafny

DANAYA is a small health-information platform: a staff portal in the browser
and three back-end services. The model covers five parts of it, one Dafny
module per source file:

- `StaffPortal` (`staff_portal.dfy`) covers the portal's authorization and
  session logic:
  - the role-to-permission table and the fail-closed lookup for the
    signed-in user;
  - the page guard, the sidebar entries and the choice of page content;
  - login and logout over the screen's state and the browser's storage;
  - a `PortalApp` class whose fields are the component's state.
- `AuthV1` (`auth_v1.dfy`) is the first authentication service:
  - the credential check over the in-memory user table;
  - the form login and the JSON login;
  - the bearer-token check;
  - the administrator-only registration and user listing, with an
    `AuthService` class that owns the mutable table.
- `AuthV2` (`auth_v2.dfy`) is the second authentication service:
  - an unsalted hash compared by equality;
  - four demo accounts;
  - the hospital lookup in the registry, with a logo colour per facility
    type;
  - the two logins;
  - the bearer-token check, both as written and as intended.
- `PatientStore` (`patient_store.dfy`) is the patient service:
  - the seeded store;
  - identifier generation;
  - search and paging;
  - create, get, partial update with re-validation, and delete;
  - a `PatientService` class whose field is the store.
- `Registry` (`registry.dfy`) is the facility registry:
  - the index built by identifier and again by short code, built by a
    nested loop;
  - lookup;
  - the deduplicated, filtered listing and the substring search, each a
    loop proved against a specification function;
  - the per-type summary, the per-region counts and the facility total.

Two support modules hold what the services share:

- `Common` (`common.dfy`): `Option`, `Result`, HTTP errors; ASCII
  `lower()`/`upper()`; Python's `in` on strings; Python slices; `:03d`
  formatting.
- `OrderedDict` (`ordered_dict.dfy`): Python's insertion-ordered `dict`, as
  an association list.
  - Assigning to an existing key keeps its position.
  - A new key is appended.
  - `del` removes the entry and keeps the order of the rest.

Things outside the programs become parameters:

- **Crypto:** bcrypt verification (`Verifier`) and SHA-256 (`Hasher`).
- **Clock:** `now`.
- **Randomness:** the uuid hex string.
- **Registry reply:** the registry's answer to the login's HTTP call, as a
  function from hospital identifier to reply.
- **Token decoding:** its outcome (`Decoded`).

A signed token is represented by the claims it carries.

## Model

| member | source | states |
|---|---|---|
| `StaffPortal.CurrentPermissions` | frontend/staff-portal/src/App.js:71 | no user, or a role missing from the table, gives the empty permission object; a known role gives that role's row |
| `StaffPortal.RoleTableFacts` | frontend/staff-portal/src/App.js:6-59 | pharmacist may view but not write prescriptions and not view patients; lab technician views patients and labs but edits no patient, writes no prescription and manages no appointment; nurse cannot write prescriptions or see settings; doctor holds every flag |
| `StaffPortal.CanAccessPage` | frontend/staff-portal/src/App.js:109-124 | a gated page (patients, appointments, labs, prescriptions, settings) is allowed exactly when its flag is granted; any other page name is allowed |
| `StaffPortal.FailClosed` | frontend/staff-portal/src/App.js:71 | without a user or with an unknown role exactly the ungated pages are allowed |
| `StaffPortal.UngatedPagesAllowed` | frontend/staff-portal/src/App.js:121-122 | dashboard and telemedicine pass the guard under any permissions |
| `StaffPortal.PermissionsDependOnRoleOnly` | frontend/staff-portal/src/App.js:71 | two users with the same role get the same permissions |
| `StaffPortal.NavEntries` | frontend/staff-portal/src/App.js:479-540 | the sidebar starts with the dashboard, lists only the dashboard, telemedicine and gated pages, every entry passes the guard, and telemedicine is listed exactly under its flag |
| `StaffPortal.NavShowsGatedPages` | frontend/staff-portal/src/App.js:488-539 | a gated page is in the sidebar exactly when the guard admits it |
| `StaffPortal.TelemedicineHiddenButAdmitted` | frontend/staff-portal/src/App.js:523-530 | the pharmacist's sidebar hides telemedicine although the guard admits the page |
| `StaffPortal.DashboardFlags` | frontend/staff-portal/src/App.js:188-199 | the dashboard lists exactly the granted flags of its list of seven (never viewing appointments or telemedicine), in the list's order |
| `StaffPortal.RenderPageContent` | frontend/staff-portal/src/App.js:128-436 | nothing without a user; the denial notice naming the role exactly when the guard refuses; otherwise a page only if the guard admits it; an admitted page shows its own view (the dashboard with the granted flags and whether a hospital is known, and the edit, write and manage switches equal to the matching flags), and an unknown page name shows nothing |
| `StaffPortal.RoleScenarios` | frontend/staff-portal/src/App.js:132-145 | pharmacist is denied patients and sees prescriptions read-only; doctor reaches settings |
| `StaffPortal.AccessIndependentOfHospital` | frontend/staff-portal/src/App.js:128-145 | whether the page is denied does not depend on the hospital object |
| `StaffPortal.Initial` | frontend/staff-portal/src/App.js:61-68 | no user or hospital, dashboard active, no error, not loading, storage as the browser had it |
| `StaffPortal.FinishLogin` | frontend/staff-portal/src/App.js:86-97 | success installs user and hospital, stores token and serialized hospital, returns to the dashboard; failure only sets the one generic message; the spinner ends off |
| `StaffPortal.Logout` | frontend/staff-portal/src/App.js:100-106 | user and hospital cleared, both storage keys removed and nothing else, dashboard active |
| `StaffPortal.LoginEffects` | frontend/staff-portal/src/App.js:73-98 | the combined effect of a login: on success the response's user, hospital and token are installed and the error is empty; on failure all but the message is kept |
| `StaffPortal.LogoutIdempotent` | frontend/staff-portal/src/App.js:100-106 | logging out twice equals logging out once |
| `StaffPortal.Render` | frontend/staff-portal/src/App.js:438-600 | without a user the login form with error and spinner; with one the sidebar of the user's permissions and the page content for the active page |
| `StaffPortal.ConsistentPreserved` | frontend/staff-portal/src/App.js:61-106 | the initial state is consistent (active page passes the guard, credential stored); login, logout and clicks on offered entries keep it so |
| `StaffPortal.ConsistentNeverDenied` | frontend/staff-portal/src/App.js:132-145 | in a consistent state the denial notice is never shown |
| `StaffPortal.PortalApp.constructor` | frontend/staff-portal/src/App.js:62-68 | the component starts in the initial state |
| `StaffPortal.PortalApp.Permissions` | frontend/staff-portal/src/App.js:70-71 | the signed-in user's role row of the table, and the empty object with no user or an unknown role |
| `StaffPortal.PortalApp.HandleLogin` | frontend/staff-portal/src/App.js:73-98 | the fields after the handler are the login transition of the fields before |
| `StaffPortal.PortalApp.HandleLogout` | frontend/staff-portal/src/App.js:100-106 | the fields after the handler are the logout transition of the fields before |
| `StaffPortal.PortalApp.SetActivePage` | frontend/staff-portal/src/App.js:483 | the fields after a click are the navigation transition |
| `AuthV1.ToUser` | src/main.py:60-72 | the public record keeps every field of the stored one except the password hash |
| `AuthV1.UserIdInjective` | src/main.py:304 | different counters give different `USR%03d` identifiers |
| `AuthV1.UserIdShape` | src/main.py:304 | for counters 1 to 999 the identifier has six characters and starts with `USR` |
| `AuthV1.UserIdsUnique` | src/main.py:303-315 | in a well-formed table no two users share an identifier |
| `AuthV1.SeedUsers` | src/main.py:97-120 | the table starts with two users |
| `AuthV1.SeedWellFormed` | src/main.py:97-120 | the seed table is keyed by address with identifiers USR001, USR002 |
| `AuthV1.AuthenticateUser` | src/main.py:148-159 | none for an unknown address or a failing password check, the stored record otherwise |
| `AuthV1.CreateAccessToken` | src/main.py:131-145 | the given claims plus `iat` now, issuer `danaya-auth-service`, and `exp` now plus the lifetime, 30 minutes when none or a zero one is given |
| `AuthV1.Login` | src/main.py:213-242 | 401 with bearer challenge for bad credentials, 403 for an inactive account; a token exactly for an authenticated active user: bearer, 1800 s, claims address, role and hospital, `exp` now plus 1800, `iat` now, `iss` the issuer, and the public user |
| `AuthV1.LoginJson` | src/main.py:245-271 | the same checks without the challenge header; a token exactly for an authenticated active user, with the same claims and times but no hospital claim |
| `AuthV1.NoAccountEnumeration` | src/main.py:148-156 | an unknown address and a wrong password give identical replies on both endpoints |
| `AuthV1.LoginEndpointsAgree` | src/main.py:213-271 | both endpoints accept the same credentials, fail with the same status, and differ only in the token |
| `AuthV1.GetCurrentUser` | src/main.py:162-187 | expired gives "Token has expired"; invalid, subject-less or unknown-subject tokens give the credentials error; every refusal is a 401; a known subject gives the stored user |
| `AuthV1.CurrentUserIsStored` | src/main.py:183-187 | a user returned for a token is stored under the token's subject |
| `AuthV1.RegisterRejection` | src/main.py:284-301 | non-admin 403, then known address 400, then unknown role 400; registration proceeds exactly when none applies |
| `AuthV1.NewUserRecord` | src/main.py:303-313 | the new record takes identifier `USR` plus table size plus one, the request's fields, the hash, active, created now |
| `AuthV1.RegisterKeepsWellFormed` | src/main.py:303-315 | appending an accepted registration keeps the table keyed by address with sequential identifiers |
| `AuthV1.ListUsers` | src/main.py:321-330 | token errors pass through; non-admins get 403; the list is returned exactly to an admin caller, one public record per stored user in table order |
| `AuthV1.RegisteredUserCanLogin` | src/main.py:279-318 | a newly registered user can log in with the registered password |
| `AuthV1.AuthService.constructor` | src/main.py:97-120 | the service starts with the seed table, well formed |
| `AuthV1.AuthService.RegisterUser` | src/main.py:279-318 | every rejection leaves the table unchanged; an acceptance appends exactly the new record and returns its public view; the table stays well formed |
| `AuthV2.ToUser` | backend/auth-service/src/main.py:49-60 | the public record keeps every field of the stored one except the password hash |
| `AuthV2.SeedUsers` | backend/auth-service/src/main.py:85-130 | four active users, each stored under its own address |
| `AuthV2.AuthenticateUser` | backend/auth-service/src/main.py:176-185 | none for an unknown address or a password whose hash differs, the stored record otherwise |
| `AuthV2.DemoDoctorCredentials` | backend/auth-service/src/main.py:85-96 | the demo doctor authenticates with the demo password and with nothing hashing differently |
| `AuthV2.LogoColor` | backend/auth-service/src/main.py:143-160 | the four type colours, the default for any other type |
| `AuthV2.GetHospitalInfo` | backend/auth-service/src/main.py:132-164 | a hospital exactly on a 200 reply with a usable body, copying its fields and the type's colour; nothing on any failure |
| `AuthV2.IssueToken` | backend/auth-service/src/main.py:166-174 | claims sub, role, iat now and exp now plus 1800; bearer, 1800 s, the public user and the hospital |
| `AuthV2.Login` | backend/auth-service/src/main.py:231-266 | 401 with challenge or 403 before any registry request; otherwise exactly one request for the user's hospital and a token carrying its outcome |
| `AuthV2.LoginJson` | backend/auth-service/src/main.py:268-292 | 401 without challenge for bad credentials; any authenticated user, active or not, gets a token |
| `AuthV2.RegistryFailureNeverFailsLogin` | backend/auth-service/src/main.py:249-266 | on both endpoints, whether a token is issued, and the token apart from its hospital field, do not depend on the registry |
| `AuthV2.LoginJsonAdmitsInactive` | backend/auth-service/src/main.py:243-278 | on an inactive account the form login refuses with 403 while the JSON login issues a token; where the form login succeeds both agree |
| `AuthV2.InactiveAccountExample` | backend/auth-service/src/main.py:268-292 | a concrete inactive account on which the endpoints disagree |
| `AuthV2.GetCurrentUserAsWritten` | backend/auth-service/src/main.py:187-209 | as written: expiry 401 without challenge; subject-less or undecodable token 500; unknown subject credentials error; known subject the user |
| `AuthV2.MissingSubjectIsServerError` | backend/auth-service/src/main.py:196-204 | the subject-less and the undecodable token end in status 500 |
| `AuthV2.GetCurrentUser` | backend/auth-service/src/main.py:187-209 | as intended: every refusal a 401; a user exactly for a decoded token whose subject is stored, and then that user |
| `AuthV2.CorrectedAgreesOtherwise` | backend/auth-service/src/main.py:187-209 | the corrected check equals the written one wherever that does not produce a 500 |
| `PatientStore.SeedPatients` | backend/patient-service/src/main.py:60-173 | eight demo patients keyed by their own identifiers, all valid |
| `PatientStore.GeneratePatientId` | backend/patient-service/src/main.py:175-176 | `PAT-` then the first ten characters of the UUID's hex text, each upper-cased (14 characters for a full UUID); no lower-case letter, and only `0`-`9`, `A`-`F` after the prefix when the text is hexadecimal |
| `PatientStore.SearchFilter` | backend/patient-service/src/main.py:202-209 | keeps exactly the patients whose first name, last name or national id contains the lower-cased query, in order |
| `PatientStore.SearchFilterAppend` | backend/patient-service/src/main.py:204-209 | filtering distributes over concatenation (the filter keeps order) |
| `PatientStore.ListPatientsWindow` | backend/patient-service/src/main.py:196-211 | for non-negative `skip` and `limit` the listing is exactly the stored records (no or empty search) or the matching ones, in order, from position `skip` up to `skip + limit` or the end of the list, whichever comes first |
| `PatientStore.ListPatientsProperties` | backend/patient-service/src/main.py:196-211 | at most `limit` results, each stored and matching the search |
| `PatientStore.AllListedOnce` | backend/patient-service/src/main.py:196-211 | in a store keyed by identifier, every listing (any window, any search) carries distinct patient identifiers |
| `PatientStore.SearchFilterDistinct` | backend/patient-service/src/main.py:202-209 | the search keeps distinct identifiers distinct |
| `PatientStore.GetPatient` | backend/patient-service/src/main.py:227-235 | found exactly for a stored identifier, with the stored record; else 404 naming the identifier |
| `PatientStore.GetPatientCarriesId` | backend/patient-service/src/main.py:227-235 | a record found in a consistent store carries the looked-up identifier and is valid |
| `PatientStore.NewPatient` | backend/patient-service/src/main.py:217-222 | the record takes every field of the payload, the new identifier, and now as both timestamps |
| `PatientStore.Create` | backend/patient-service/src/main.py:213-225 | invalid names give 422 with the store unchanged; otherwise the record is stored under its identifier and returned |
| `PatientStore.CreateThenGet` | backend/patient-service/src/main.py:213-235 | after a creation the new identifier gives the new record and every other identifier gives what it gave before |
| `PatientStore.CreateFreshAppends` | backend/patient-service/src/main.py:223 | a fresh identifier is appended at the end of the store |
| `PatientStore.CreateKeepsInvariant` | backend/patient-service/src/main.py:213-225 | creation keeps the store keyed by identifier with valid records |
| `PatientStore.Merge` | backend/patient-service/src/main.py:245-247 | an unset field keeps the stored value, a set one (also to null) replaces it |
| `PatientStore.Rebuild` | backend/patient-service/src/main.py:245-249 | the merged record is accepted exactly when both merged names are present and valid; otherwise 500; accepted records are valid, carry every merged field and the new timestamp |
| `PatientStore.EmptyUpdateTouchesOnlyTimestamp` | backend/patient-service/src/main.py:245-249 | an empty update changes only `updated_at` |
| `PatientStore.RebuildIdempotent` | backend/patient-service/src/main.py:245-249 | applying the same update twice equals applying it once |
| `PatientStore.Update` | backend/patient-service/src/main.py:237-252 | unknown identifier 404 with store unchanged; a rejected merge 500 with store unchanged; else the merged record replaces the stored one and is returned |
| `PatientStore.UpdateInPlace` | backend/patient-service/src/main.py:250 | an update replaces the entry in its position, keeping the identifier |
| `PatientStore.UpdateKeepsInvariant` | backend/patient-service/src/main.py:237-252 | every update outcome keeps the store invariant |
| `PatientStore.Delete` | backend/patient-service/src/main.py:254-263 | unknown identifier 404 with store unchanged; else the entry is removed |
| `PatientStore.DeleteThenGet` | backend/patient-service/src/main.py:254-263 | after a deletion the identifier is not found, every other is unchanged, the store is one shorter |
| `PatientStore.DeleteKeepsInvariant` | backend/patient-service/src/main.py:254-263 | deletion keeps the store invariant |
| `PatientStore.PatientService.constructor` | backend/patient-service/src/main.py:60-173 | the service starts with the seed store |
| `PatientStore.PatientService.CreatePatient` | backend/patient-service/src/main.py:213-225 | the new store and the reply are those of `Create` with the generated identifier |
| `PatientStore.PatientService.UpdatePatient` | backend/patient-service/src/main.py:237-252 | the new store and the reply are those of `Update` |
| `PatientStore.PatientService.DeletePatient` | backend/patient-service/src/main.py:254-263 | the new store and the reply are those of `Delete` |
| `Registry.RecordOf` | backend/registry/main.py:42-46 | an indexed record keeps every field of the facility (identifier, short code, name, type, level, district, city) and adds its region's identifier and name |
| `Registry.Placed` | backend/registry/main.py:40-41 | each facility of a region is paired with that region, in order |
| `Registry.BuildIndex` | backend/registry/main.py:38-49 | the nested loop produces the index specified by `Index` |
| `Registry.IndexRegion` | backend/registry/main.py:41-49 | the inner loop over one region's facilities extends the index by exactly those facilities, in order |
| `Registry.GetIndexOne` | backend/registry/main.py:42-49 | one facility's insertion makes its identifier and short code give its record and leaves other keys alone |
| `Registry.LastClaim` | backend/registry/main.py:38-49 | some facility claiming the key gives the record of the last one; none claiming it gives none |
| `Registry.IndexIsLastWriter` | backend/registry/main.py:38-49 | a lookup in the built index returns the record of the last facility claiming the key |
| `Registry.IndexKeysDistinct` | backend/registry/main.py:38-49 | the index holds each key once |
| `Registry.LastClaimUnique` | backend/registry/main.py:38-49 | when no two facilities claim the same key, the claimant's own record is the last claim |
| `Registry.IndexFindsEveryFacility` | backend/registry/main.py:38-49 | without collisions every facility is found under its identifier and its short code |
| `Registry.RegistryIndexFindsEveryFacility` | backend/registry/main.py:40-49 | the same for each facility of each region of the file |
| `Registry.IndexSize` | backend/registry/main.py:38-49 | without collisions the index has one key per identifier plus one per distinct short code |
| `Registry.GetFacility` | backend/registry/main.py:114-123 | found exactly for an indexed key, returning the stored record; else 404 naming the key |
| `Registry.GetFacilityOnIndex` | backend/registry/main.py:114-123 | on the built index a lookup succeeds exactly for claimed keys and returns the last claimant's record |
| `Registry.Dedup` | backend/registry/main.py:94-100 | deduplication never lengthens the run |
| `Registry.DedupProperties` | backend/registry/main.py:94-100 | the deduplicated run holds records of the run, every identifier of the run, and each identifier once |
| `Registry.FirstWithId` | backend/registry/main.py:97-100 | the first record with a present identifier is a record of the run with that identifier |
| `Registry.FirstWithIdIsFirst` | backend/registry/main.py:97-100 | that record stands at a position before which no record carries the identifier |
| `Registry.DedupKeepsFirst` | backend/registry/main.py:97-100 | a record survives deduplication exactly when it is the first with its identifier |
| `Registry.FilterListing` | backend/registry/main.py:102-110 | filtering never lengthens the run |
| `Registry.FilterListingKeeps` | backend/registry/main.py:102-110 | keeps exactly the records matching every given filter (region and level case-folded, type upper-cased, empty filter ignored), and keeps identifiers distinct |
| `Registry.ListFacilities` | backend/registry/main.py:86-112 | the endpoint returns the specified listing of the index values |
| `Registry.ListValues` | backend/registry/main.py:94-112 | the loop with its seen-set returns the first record of each identifier, in order, filtered |
| `Registry.ListingProperties` | backend/registry/main.py:86-112 | the listing has distinct identifiers, holds only indexed records matching the filters, and holds every first-of-its-identifier record that matches |
| `Registry.IndexListing` | backend/registry/main.py:86-112 | without collisions a facility is listed exactly when it matches the filters |
| `Registry.RecordsOfSameIdAgree` | backend/registry/main.py:42-49 | without collisions the first indexed record with a facility's identifier is that facility's record |
| `Registry.FilterQuery` | backend/registry/main.py:168-170 | keeps exactly the records whose lower-cased name, city or district contains the query |
| `Registry.SearchFacilities` | backend/registry/main.py:157-174 | the loop returns the specified search result, with its count |
| `Registry.SearchProperties` | backend/registry/main.py:157-174 | results have distinct identifiers, are indexed and match; every matching indexed record has its identifier among the results |
| `Registry.Describe` | backend/registry/main.py:148-153 | the fixed descriptions of the four known types (with the accented letters stored as `√©`, as the file has them); any other type describes itself |
| `Registry.ListTypes` | backend/registry/main.py:138-155 | the loop returns the specified type summary |
| `Registry.TypesDistinct` | backend/registry/main.py:141-155 | the summary has one entry per type |
| `Registry.TypesKeys` | backend/registry/main.py:143-145 | the summary's keys are exactly the non-empty types of the indexed records |
| `Registry.TypesFirstSeen` | backend/registry/main.py:144-154 | each entry takes the level of the first record of its type and the type's description |
| `Registry.ListRegions` | backend/registry/main.py:125-136 | one summary per region, in order, with identifier, name and facility count; total is the number of regions |
| `Registry.RegionCountsAddUp` | backend/registry/main.py:132 | the per-region counts sum to the number of facilities in the file |
| `Registry.TotalFacilitiesAsWritten` | backend/registry/main.py:74 | as written: half the number of index keys, rounded down (twice the count is the key count or one below it) |
| `Registry.AsWrittenRightWithShortCodes` | backend/registry/main.py:74 | the halved count is right when every facility has its own short code and no keys collide |
| `Registry.AsWrittenMiscounts` | backend/registry/main.py:74 | a registry of one facility without a short code gets count 0 as written and 1 corrected, also in the root summary |
| `Registry.TotalFacilities` | backend/registry/main.py:74 | corrected: never above the number of index keys |
| `Registry.TotalFacilitiesCountsIds` | backend/registry/main.py:74 | the corrected total is the number of distinct identifiers in the index |
| `Registry.RootAsWritten` | backend/registry/main.py:67-76 | as written: the file's country, the number of regions, and half the key count of the index built from the regions, rounded down |
| `Registry.Root` | backend/registry/main.py:67-76 | corrected: the file's country, the number of regions, and the number of distinct facility identifiers in the index built from the regions |
| `Registry.IndexIds` | backend/registry/main.py:38-49 | without collisions the index's records carry exactly the facilities' identifiers, one per facility |
| `Registry.RootCountsEveryFacility` | backend/registry/main.py:74 | without collisions the corrected root counts every facility of the file exactly once |
| `OrderedDict.GetPut` | backend/patient-service/src/main.py:223 | after `d[k] = v` the key gives `v` and every other key is unchanged |
| `OrderedDict.PutNewAppends` | backend/registry/main.py:42 | assigning a new key appends it |
| `OrderedDict.PutExistingInPlace` | backend/registry/main.py:49 | assigning an existing key replaces its value in place |
| `OrderedDict.GetRemove` | backend/patient-service/src/main.py:261 | after `del d[k]` the key is absent and the others unchanged |
| `OrderedDict.RemoveFilters` | backend/patient-service/src/main.py:261 | after `del` exactly the entries under other keys remain, and the table does not grow |
| `OrderedDict.RemoveKeepsOrder` | backend/patient-service/src/main.py:261 | `del` works entry by entry (an entry under the key is dropped, any other kept) and splits over concatenation, so the remaining entries keep their order |
| `Common.PySliceWindow` | backend/patient-service/src/main.py:211 | `xs[skip:skip + limit]` with non-negative bounds has at most `limit` elements and is the expected window |
| `Common.Pad3RoundTrip` | src/main.py:304 | the three-digit padding can be read back as the number |
| `Common.ContainsIffOccurs` | backend/registry/main.py:168-170 | Python's substring test holds exactly when the query occurs at some position |

## Left out

- The JSX markup, styling, emoji and texts of each page. The model keeps only
  the flags a page branches on (`View`).
- The login form's own state (`email`, `password` inputs). `console.error`.
- HTTP plumbing of all services: routing, CORS, request parsing, response
  serialization, status of a successful reply, logging, `print`, start-up
  and shutdown hooks.
- Validation by the web framework:
  - Pydantic's `EmailStr`, the password's `min_length` of 8 in the first
    service, and the body of the 422 error.
  - A rejected creation is one `ValidationError` value.
  - Response-model validation of registry records that lack a field is
    not modelled.
- Name lengths (`max_length=100`) are counted in Dafny characters, not
  Unicode code points of Python strings.
- `lower()`/`upper()` fold only ASCII letters; Python folds all of Unicode.
- bcrypt, SHA-256 and the JWT signature, encoding and decoding are
  parameters. A token is its claims; only its decoding outcome is modelled.
- The clock, uuid4 and the HTTP call to the registry (with its 5-second
  timeout) are parameters.
- The auth services' and the patient service's `/` and `/health` endpoints
  and the first service's `/logout` only return constants, counts or the
  current user. `/users/me` is `GetCurrentUser` itself.
- The registry's health endpoint (backend/registry/main.py:83) reports the
  same halved count as the root. It is covered by the finding below, not as
  a separate member.
- Two of the registry root's fields, `service` and `version`, are constants
  and are not modelled. It also has a `docs` field, which is left out too.
- Loading `hospitals_bf.json` is not modelled; the parsed regions are the
  input.
  - An entry without `id` (a `KeyError`) is not representable.
  - A field absent from an entry and a field holding `null` are both `None`.
    The model reads both as an absent field. So wherever the code meets a
    `null`, the model differs from it:
    - An entry whose `short_code` is `null` is indexed under the key `None`
      in the code (backend/registry/main.py:48-49), and under no second key
      here.
    - `.get(key, "")` returns `None` for a key holding `null`, and the next
      `.upper()` or `.lower()` raises `AttributeError`, so the request ends
      in a 500. The model reads such a value as `""` (`Registry.OrEmpty`) and
      answers normally. This happens in these cases:
      - `list_facilities` reaches a first record whose `type` is `null` while
        the `type` filter is given (line 105), or whose `level` is `null`
        while the `level` filter is given (line 107). `Registry.MatchesFilters`
        and so `Registry.ListFacilities` do not model this error.
      - `search_facilities` reaches a record not yet returned whose `name` is
        `null` (line 168). The same holds for a `null` `city` when the name
        does not match, and for a `null` `district` when neither the name nor
        the city matches (lines 169-170). `Registry.MatchesQuery` and so
        `Registry.SearchFacilities` do not model this error.
  - The facility fields the code never reads (ownership, address, logo URL,
    capabilities, status) are not kept. The file's top-level `country` is
    an input of `Registry.RootAsWritten` and `Registry.Root`.
- Concurrency between requests; async scheduling.
- Registry.Dedup: its own contract states only the length bound. Membership,
  identifier coverage and distinctness are stated by `Registry.DedupProperties`.
- Registry.FilterListing: its own contract states only the length bound. What
  it keeps is stated by `Registry.FilterListingKeeps`.
- Registry.TotalFacilities: its own contract states only the bound by the key
  count. That it counts distinct identifiers is `Registry.TotalFacilitiesCountsIds`.
- StaffPortal.NavEntries: its own contract leaves the gated-page equivalence
  to `StaffPortal.NavShowsGatedPages`.
- PatientStore.ListPatients has no contract of its own. What a listing returns
  is stated by `PatientStore.ListPatientsWindow` and
  `PatientStore.ListPatientsProperties`.

## Findings

| source | as written | input that shows it | evidently intended | confidence | as-written member | corrected member |
|---|---|---|---|---|---|---|
| backend/auth-service/src/main.py:203 | `except jwt.PyJWTError` names a class the imported `jose.jwt` module does not have. The clause is only evaluated when an earlier clause did not match, and evaluating it raises `AttributeError`. So a token without `sub` (whose 401 is raised at line 197 inside the `try`) and a token that fails to decode both end as a 500. | a validly signed token whose payload has no `sub` claim | 401 "Could not validate credentials" with a bearer challenge | not executed | `AuthV2.GetCurrentUserAsWritten` (shown by `AuthV2.MissingSubjectIsServerError`) | `AuthV2.GetCurrentUser` (equal elsewhere, `AuthV2.CorrectedAgreesOtherwise`) |
| backend/registry/main.py:74 | `len(facilities_db) // 2` assumes every facility writes exactly two keys. A facility without a short code writes one, so the total is too low. | a registry with one region holding one facility that has no `short_code` | the number of distinct facilities, 1 | not executed | `Registry.TotalFacilitiesAsWritten` and `Registry.RootAsWritten` (shown by `Registry.AsWrittenMiscounts`) | `Registry.TotalFacilities` and `Registry.Root` (the count of distinct identifiers, `Registry.TotalFacilitiesCountsIds`; every facility once without collisions, `Registry.RootCountsEveryFacility`) |
