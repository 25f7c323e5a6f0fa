/** The patient service: an in-memory table of patient records keyed by
    patient identifier, in insertion order, with listing (search and
    pagination), creation, lookup, partial update and deletion. The clock
    and the random UUID behind a new identifier are parameters. */
module PatientStore {
  import opened Common
  import opened OrderedDict

  /** The fields a client supplies (`PatientBase`). */
  datatype PatientCreate = PatientCreate(
    nationalId: Option<string>, firstName: string, lastName: string, sex: Option<string>,
    dateOfBirth: Option<string>, phone: Option<string>, address: Option<string>,
    regionId: Option<string>, hospitalId: Option<string>)

  /** A stored record: the client fields plus identifier and timestamps. */
  datatype Patient = Patient(
    patientId: string, nationalId: Option<string>, firstName: string, lastName: string,
    sex: Option<string>, dateOfBirth: Option<string>, phone: Option<string>, address: Option<string>,
    regionId: Option<string>, hospitalId: Option<string>, createdAt: string, updatedAt: string)

  /** A field of an update body: left out of the body, or given (possibly as
      `null`). */
  datatype Patch<T> = Unset | Set(v: T)

  /** `PatientUpdate`: every field optional; only the given ones are merged. */
  datatype PatientUpdate = PatientUpdate(
    nationalId: Patch<Option<string>>, firstName: Patch<Option<string>>, lastName: Patch<Option<string>>,
    sex: Patch<Option<string>>, dateOfBirth: Patch<Option<string>>, phone: Patch<Option<string>>,
    address: Patch<Option<string>>, regionId: Patch<Option<string>>, hospitalId: Patch<Option<string>>)

  const EmptyUpdate := PatientUpdate(Unset, Unset, Unset, Unset, Unset, Unset, Unset, Unset, Unset)

  /** A store together with a handler's reply. */
  datatype Outcome<T> = Outcome(store: Dict<Patient>, result: Result<T>)

  const MaxNameLength: int := 100

  /** The length constraint on `first_name` and `last_name`. */
  predicate ValidName(s: string)
  {
    1 <= |s| <= MaxNameLength
  }

  predicate ValidRecord(p: Patient)
  {
    ValidName(p.firstName) && ValidName(p.lastName)
  }

  /** The table's invariant: one entry per identifier, each stored under its
      own identifier, each satisfying the field constraints. */
  predicate StoreInvariant(db: Dict<Patient>)
  {
    && KeysDistinct(db)
    && (forall i :: 0 <= i < |db| ==> db[i].0 == db[i].1.patientId && ValidRecord(db[i].1))
  }

  function NotFound(id: string): HttpError
  {
    HttpError(404, "Patient '" + id + "' not found", false)
  }

  /** The request-validation error the framework answers before the handler
      runs. */
  const ValidationError := HttpError(422, "Unprocessable Entity", false)

  /** An unhandled exception in the handler. */
  const InternalServerError := HttpError(500, "Internal Server Error", false)

  function SeedPatient(id: string, nationalId: string, first: string, last: string, sex: string, dob: string,
                       phone: string, address: string, createdAt: string, updatedAt: string): Patient
  {
    Patient(id, Some(nationalId), first, last, Some(sex), Some(dob), Some(phone), Some(address),
            Some("Centre"), Some("CHU-Ouagadougou"), createdAt, updatedAt)
  }

  /** The eight demo patients the service starts with. */
  function SeedPatients(): (db: Dict<Patient>)
    ensures |db| == 8 && StoreInvariant(db)
  {
    [ ("P001", SeedPatient("P001", "BF2025ABC12345", "Awa", "Zongo", "F", "1992-03-15", "+226 70 12 34 56",
                           "Quartier Gounghin, Ouagadougou", "2024-01-15T10:30:00Z", "2024-12-10T14:20:00Z")),
      ("P002", SeedPatient("P002", "BF2025DEF67890", "Salif", "Ouedraogo", "M", "1978-07-22", "+226 76 55 44 33",
                           "Secteur 15, Ouagadougou", "2023-06-20T09:15:00Z", "2024-11-28T16:45:00Z")),
      ("P003", SeedPatient("P003", "BF2025GHI11223", "Mariam", "Sawadogo", "F", "1995-11-08", "+226 72 88 99 00",
                           "Ouaga 2000", "2024-10-05T11:00:00Z", "2024-12-01T10:00:00Z")),
      ("P004", SeedPatient("P004", "BF2025JKL44556", "Ibrahim", "Traore", "M", "1985-02-14", "+226 78 33 44 55",
                           "Tampui, Ouagadougou", "2024-08-12T14:30:00Z", "2024-12-08T09:20:00Z")),
      ("P005", SeedPatient("P005", "BF2025MNO77889", "Aminata", "Kone", "F", "2000-09-30", "+226 70 99 88 77",
                           "Zone du Bois, Ouagadougou", "2024-11-20T08:45:00Z", "2024-12-11T13:15:00Z")),
      ("P006", SeedPatient("P006", "BF2025PQR99001", "Boureima", "Kabore", "M", "1960-05-18", "+226 75 44 33 22",
                           "Pissy, Ouagadougou", "2022-03-10T13:20:00Z", "2024-12-09T11:30:00Z")),
      ("P007", SeedPatient("P007", "BF2025STU22334", "Fatou", "Diallo", "F", "2010-12-25", "+226 71 22 33 44",
                           "Bogodogo, Ouagadougou", "2024-09-15T08:00:00Z", "2024-12-11T15:45:00Z")),
      ("P008", SeedPatient("P008", "BF2025VWX55667", "Moussa", "Compaore", "M", "1988-08-03", "+226 77 88 99 00",
                           "Kossodo, Ouagadougou", "2024-07-22T10:15:00Z", "2024-12-05T09:30:00Z")) ]
  }

  /** The lower-case hexadecimal digits `uuid4().hex` is made of. */
  predicate LowerHex(s: string)
  {
    forall i :: 0 <= i < |s| ==> '0' <= s[i] <= '9' || 'a' <= s[i] <= 'f'
  }

  /** `generate_patient_id`: "PAT-" and the first ten hexadecimal digits of
      a random UUID (given as its `hex` text), upper-cased. */
  function GeneratePatientId(uuidHex: string): (id: string)
    ensures StartsWith(id, "PAT-")
    ensures |id| == 4 + (if |uuidHex| < 10 then |uuidHex| else 10)
    ensures forall i :: 0 <= i < |id| - 4 ==> id[4 + i] == UpperChar(uuidHex[i])
    ensures forall i :: 0 <= i < |id| ==> !('a' <= id[i] <= 'z')
    ensures LowerHex(uuidHex) ==> forall i :: 4 <= i < |id| ==> '0' <= id[i] <= '9' || 'A' <= id[i] <= 'F'
  {
    var id := "PAT-" + Upper(PySlice(uuidHex, 0, 10));
    assert id[..4] == "PAT-";
    id
  }

  // ---------------------------------------------------------------------
  // Listing

  function OrEmpty(s: Option<string>): string
  {
    match s case None => "" case Some(t) => t
  }

  /** A patient the search keeps: the lower-cased query occurs in the
      lower-cased first name, last name or national identifier. */
  predicate MatchesSearch(p: Patient, q: string)
  {
    || Contains(Lower(p.firstName), q)
    || Contains(Lower(p.lastName), q)
    || Contains(Lower(OrEmpty(p.nationalId)), q)
  }

  /** The comprehension of the search: the matching patients, in order. */
  function SearchFilter(ps: seq<Patient>, q: string): (r: seq<Patient>)
    ensures |r| <= |ps|
    ensures forall p :: p in r <==> p in ps && MatchesSearch(p, q)
  {
    if ps == [] then []
    else if MatchesSearch(ps[0], q) then [ps[0]] + SearchFilter(ps[1..], q)
    else SearchFilter(ps[1..], q)
  }

  /** The search keeps the relative order of the records: filtering a
      concatenation filters each part. */
  lemma {:induction false} SearchFilterAppend(a: seq<Patient>, b: seq<Patient>, q: string)
    ensures SearchFilter(a + b, q) == SearchFilter(a, q) + SearchFilter(b, q)
  {
    if a != [] {
      assert (a + b)[1..] == a[1..] + b;
      SearchFilterAppend(a[1..], b, q);
    } else {
      assert a + b == b;
    }
  }

  /** `list_patients`: the stored records in insertion order, narrowed by a
      non-empty search term, then sliced `[skip:skip + limit]`. */
  function ListPatients(db: Dict<Patient>, skip: int, limit: int, search: Option<string>): seq<Patient>
  {
    PySlice(Candidates(db, search), skip, skip + limit)
  }

  /** The records a listing slices: the stored ones, or with a non-empty
      search the matching ones. */
  function Candidates(db: Dict<Patient>, search: Option<string>): seq<Patient>
  {
    if search.Some? && search.value != "" then SearchFilter(Values(db), Lower(search.value)) else Values(db)
  }

  /** For non-negative arguments a listing is exactly the window of the
      stored (or, with a search, the matching) records in order from
      position `skip`, cut at `skip + limit` and at the end of the list. */
  lemma ListPatientsWindow(db: Dict<Patient>, skip: int, limit: int, search: Option<string>)
    requires skip >= 0 && limit >= 0
    ensures var ps := Candidates(db, search);
      ListPatients(db, skip, limit, search)
        == ps[(if skip < |ps| then skip else |ps|)..(if skip + limit < |ps| then skip + limit else |ps|)]
  {
    PySliceWindow(Candidates(db, search), skip, limit);
  }

  /** What a listing returns for non-negative arguments: at most `limit`
      records, each stored and matching the search. */
  lemma ListPatientsProperties(db: Dict<Patient>, skip: int, limit: int, search: Option<string>)
    requires skip >= 0 && limit >= 0
    ensures |ListPatients(db, skip, limit, search)| <= limit
    ensures forall p :: p in ListPatients(db, skip, limit, search) ==>
      p in Values(db) && (search.Some? && search.value != "" ==> MatchesSearch(p, Lower(search.value)))
  {
    var ps := Candidates(db, search);
    PySliceWindow(ps, skip, limit);
    ListPatientsWindow(db, skip, limit, search);
    var r := ListPatients(db, skip, limit, search);
    forall p | p in r ensures p in ps {
      var lo := if skip < |ps| then skip else |ps|;
      var k :| 0 <= k < |r| && r[k] == p;
      assert ps[lo + k] == p;
    }
  }

  /** No two records of the run carry the same identifier. */
  predicate DistinctIds(ps: seq<Patient>)
  {
    forall i, j :: 0 <= i < j < |ps| ==> ps[i].patientId != ps[j].patientId
  }

  /** The search keeps a subsequence, so distinct identifiers stay distinct. */
  lemma {:induction false} SearchFilterDistinct(ps: seq<Patient>, q: string)
    requires DistinctIds(ps)
    ensures DistinctIds(SearchFilter(ps, q))
  {
    if ps != [] {
      var rest := SearchFilter(ps[1..], q);
      assert DistinctIds(ps[1..]) by {
        forall i, j | 0 <= i < j < |ps[1..]| ensures ps[1..][i].patientId != ps[1..][j].patientId {
          assert ps[1..][i] == ps[i + 1] && ps[1..][j] == ps[j + 1];
        }
      }
      SearchFilterDistinct(ps[1..], q);
      if MatchesSearch(ps[0], q) {
        forall k | 0 <= k < |rest| ensures rest[k].patientId != ps[0].patientId {
          assert rest[k] in ps[1..];
          var m :| 0 <= m < |ps[1..]| && ps[1..][m] == rest[k];
          assert ps[m + 1] == rest[k];
        }
        assert SearchFilter(ps, q) == [ps[0]] + rest;
      }
    }
  }

  /** In a table built by the service every record is keyed by its
      identifier, so a listing, whatever its window and search, returns each
      patient at most once. */
  lemma AllListedOnce(db: Dict<Patient>, skip: int, limit: int, search: Option<string>)
    requires StoreInvariant(db)
    ensures DistinctIds(ListPatients(db, skip, limit, search))
  {
    var vs := Values(db);
    assert DistinctIds(vs);
    var ps := Candidates(db, search);
    if search.Some? && search.value != "" {
      SearchFilterDistinct(vs, Lower(search.value));
    }
    var lo := SliceBound(skip, |ps|);
    var hi := SliceBound(skip + limit, |ps|);
    if lo < hi {
      var r := ps[lo..hi];
      forall i, j | 0 <= i < j < |r| ensures r[i].patientId != r[j].patientId {
        assert r[i] == ps[lo + i] && r[j] == ps[lo + j];
      }
    }
  }

  // ---------------------------------------------------------------------
  // Lookup

  /** `get_patient`. */
  function GetPatient(db: Dict<Patient>, id: string): (r: Result<Patient>)
    ensures r.Ok? <==> HasKey(db, id)
    ensures r.Err? ==> r.error == NotFound(id)
    ensures r.Ok? ==> (id, r.value) in db
  {
    GetSomeIffHasKey(db, id);
    match Get(db, id)
    case None => Err(NotFound(id))
    case Some(p) => GetSomeIsStored(db, id); Ok(p)
  }

  /** In a table kept by the service, the record found under an identifier
      carries that identifier. */
  lemma GetPatientCarriesId(db: Dict<Patient>, id: string)
    requires StoreInvariant(db)
    ensures GetPatient(db, id).Ok? ==> GetPatient(db, id).value.patientId == id && ValidRecord(GetPatient(db, id).value)
  {
  }

  // ---------------------------------------------------------------------
  // Creation

  function NewPatient(payload: PatientCreate, id: string, now: string): (p: Patient)
    ensures p.patientId == id && p.createdAt == now && p.updatedAt == now
    ensures p.firstName == payload.firstName && p.lastName == payload.lastName && p.nationalId == payload.nationalId
    ensures p.sex == payload.sex && p.dateOfBirth == payload.dateOfBirth && p.phone == payload.phone
    ensures p.address == payload.address && p.regionId == payload.regionId && p.hospitalId == payload.hospitalId
  {
    Patient(id, payload.nationalId, payload.firstName, payload.lastName, payload.sex, payload.dateOfBirth,
            payload.phone, payload.address, payload.regionId, payload.hospitalId, now, now)
  }

  /** `create_patient` with the generated identifier `id`: a body whose names
      break the constraints is refused before the handler runs; otherwise the
      new record is stored under `id` (replacing a record already there). */
  function Create(db: Dict<Patient>, payload: PatientCreate, id: string, now: string): (o: Outcome<Patient>)
    ensures o.result.Ok? <==> ValidName(payload.firstName) && ValidName(payload.lastName)
    ensures o.result.Err? ==> o.result.error == ValidationError && o.store == db
    ensures o.result.Ok? ==> o.result.value == NewPatient(payload, id, now) && o.store == Put(db, id, o.result.value)
  {
    if !(ValidName(payload.firstName) && ValidName(payload.lastName)) then Outcome(db, Err(ValidationError))
    else
      var patient := NewPatient(payload, id, now);
      Outcome(Put(db, id, patient), Ok(patient))
  }

  /** A created record is found under its identifier, and no other lookup
      changes. */
  lemma CreateThenGet(db: Dict<Patient>, payload: PatientCreate, id: string, now: string, other: string)
    requires Create(db, payload, id, now).result.Ok?
    ensures GetPatient(Create(db, payload, id, now).store, id) == Create(db, payload, id, now).result
    ensures other != id ==> GetPatient(Create(db, payload, id, now).store, other) == GetPatient(db, other)
  {
    GetPut(db, id, NewPatient(payload, id, now), id);
    GetPut(db, id, NewPatient(payload, id, now), other);
  }

  /** With a fresh identifier the record is appended: the table grows by
      exactly that one entry. */
  lemma CreateFreshAppends(db: Dict<Patient>, payload: PatientCreate, id: string, now: string)
    requires !HasKey(db, id) && Create(db, payload, id, now).result.Ok?
    ensures Create(db, payload, id, now).store == db + [(id, NewPatient(payload, id, now))]
  {
    PutNewAppends(db, id, NewPatient(payload, id, now));
  }

  lemma CreateKeepsInvariant(db: Dict<Patient>, payload: PatientCreate, id: string, now: string)
    requires StoreInvariant(db)
    ensures StoreInvariant(Create(db, payload, id, now).store)
  {
    if ValidName(payload.firstName) && ValidName(payload.lastName) {
      var p := NewPatient(payload, id, now);
      PutKeepsKeysDistinct(db, id, p);
      var db' := Put(db, id, p);
      forall j | 0 <= j < |db'| ensures db'[j].0 == db'[j].1.patientId && ValidRecord(db'[j].1) {
        EntriesOfPut(db, id, p, j);
      }
    }
  }

  // ---------------------------------------------------------------------
  // Partial update

  /** One field of the merge: the given value, or the stored one. */
  function Merge<T>(patch: Patch<T>, stored: T): (r: T)
    ensures patch.Unset? ==> r == stored
    ensures patch.Set? ==> r == patch.v
  {
    match patch case Unset => stored case Set(v) => v
  }

  /** The stored record with the given fields merged in and `updated_at` set,
      rebuilt as a `Patient`: a merged name that is `null` or breaks the
      length constraint makes the rebuild raise, which the server answers
      with 500. */
  function Rebuild(stored: Patient, patch: PatientUpdate, now: string): (r: Result<Patient>)
    ensures var first := Merge(patch.firstName, Some(stored.firstName));
      var last := Merge(patch.lastName, Some(stored.lastName));
      r.Ok? <==> first.Some? && last.Some? && ValidName(first.value) && ValidName(last.value)
    ensures r.Err? ==> r.error == InternalServerError
    ensures r.Ok? ==> ValidRecord(r.value)
    ensures r.Ok? ==>
      && r.value.patientId == stored.patientId && r.value.createdAt == stored.createdAt && r.value.updatedAt == now
      && Some(r.value.firstName) == Merge(patch.firstName, Some(stored.firstName))
      && Some(r.value.lastName) == Merge(patch.lastName, Some(stored.lastName))
      && r.value.nationalId == Merge(patch.nationalId, stored.nationalId)
      && r.value.sex == Merge(patch.sex, stored.sex)
      && r.value.dateOfBirth == Merge(patch.dateOfBirth, stored.dateOfBirth)
      && r.value.phone == Merge(patch.phone, stored.phone)
      && r.value.address == Merge(patch.address, stored.address)
      && r.value.regionId == Merge(patch.regionId, stored.regionId)
      && r.value.hospitalId == Merge(patch.hospitalId, stored.hospitalId)
  {
    var first := Merge(patch.firstName, Some(stored.firstName));
    var last := Merge(patch.lastName, Some(stored.lastName));
    if first.None? || last.None? || !ValidName(first.value) || !ValidName(last.value) then Err(InternalServerError)
    else
      Ok(Patient(stored.patientId, Merge(patch.nationalId, stored.nationalId), first.value, last.value,
                 Merge(patch.sex, stored.sex), Merge(patch.dateOfBirth, stored.dateOfBirth),
                 Merge(patch.phone, stored.phone), Merge(patch.address, stored.address),
                 Merge(patch.regionId, stored.regionId), Merge(patch.hospitalId, stored.hospitalId),
                 stored.createdAt, now))
  }

  /** An empty update body changes only `updated_at`. */
  lemma EmptyUpdateTouchesOnlyTimestamp(stored: Patient, now: string)
    requires ValidRecord(stored)
    ensures Rebuild(stored, EmptyUpdate, now) == Ok(stored.(updatedAt := now))
  {
  }

  /** Applying the same update twice is applying it once (up to the
      timestamp of the second application). */
  lemma RebuildIdempotent(stored: Patient, patch: PatientUpdate, now1: string, now2: string)
    requires Rebuild(stored, patch, now1).Ok?
    ensures Rebuild(Rebuild(stored, patch, now1).value, patch, now2) == Rebuild(stored, patch, now2)
  {
  }

  /** `update_patient`. */
  function Update(db: Dict<Patient>, id: string, patch: PatientUpdate, now: string): (o: Outcome<Patient>)
    ensures !HasKey(db, id) ==> o == Outcome(db, Err(NotFound(id)))
    ensures HasKey(db, id) ==> Get(db, id).Some?
    ensures Get(db, id).Some? ==>
      var rebuilt := Rebuild(Get(db, id).value, patch, now);
      && o.result == rebuilt
      && (rebuilt.Err? ==> o.store == db)
      && (rebuilt.Ok? ==> o.store == Put(db, id, rebuilt.value))
  {
    GetSomeIffHasKey(db, id);
    match Get(db, id)
    case None => Outcome(db, Err(NotFound(id)))
    case Some(stored) =>
      match Rebuild(stored, patch, now)
      case Err(e) => Outcome(db, Err(e))
      case Ok(updated) => Outcome(Put(db, id, updated), Ok(updated))
  }

  /** A successful update rewrites the record in its place: every other entry
      and the order of the table are unchanged. */
  lemma UpdateInPlace(db: Dict<Patient>, i: int, patch: PatientUpdate, now: string)
    requires StoreInvariant(db) && 0 <= i < |db|
    requires Update(db, db[i].0, patch, now).result.Ok?
    ensures Update(db, db[i].0, patch, now).store == db[i := (db[i].0, Update(db, db[i].0, patch, now).result.value)]
    ensures Update(db, db[i].0, patch, now).result.value.patientId == db[i].0
  {
    GetAt(db, i);
    PutExistingInPlace(db, i, Update(db, db[i].0, patch, now).result.value);
  }

  lemma UpdateKeepsInvariant(db: Dict<Patient>, id: string, patch: PatientUpdate, now: string)
    requires StoreInvariant(db)
    ensures StoreInvariant(Update(db, id, patch, now).store)
  {
    var o := Update(db, id, patch, now);
    if o.result.Ok? {
      GetSomeIffHasKey(db, id);
      var i :| 0 <= i < |db| && db[i].0 == id;
      UpdateInPlace(db, i, patch, now);
    }
  }

  // ---------------------------------------------------------------------
  // Deletion

  /** `delete_patient`. */
  function Delete(db: Dict<Patient>, id: string): (o: Outcome<()>)
    ensures o.result.Ok? <==> HasKey(db, id)
    ensures o.result.Err? ==> o.result.error == NotFound(id) && o.store == db
    ensures o.result.Ok? ==> o.store == Remove(db, id)
  {
    if !HasKey(db, id) then Outcome(db, Err(NotFound(id))) else Outcome(Remove(db, id), Ok(()))
  }

  /** After a deletion the identifier is not found, every other lookup is
      unchanged, and the table shrinks by exactly one entry. */
  lemma DeleteThenGet(db: Dict<Patient>, id: string, other: string)
    requires StoreInvariant(db) && Delete(db, id).result.Ok?
    ensures GetPatient(Delete(db, id).store, id) == Err(NotFound(id))
    ensures other != id ==> GetPatient(Delete(db, id).store, other) == GetPatient(db, other)
    ensures |Delete(db, id).store| == |db| - 1
  {
    GetRemove(db, id, id);
    GetRemove(db, id, other);
    GetSomeIffHasKey(Remove(db, id), id);
    GetSomeIffHasKey(Remove(db, id), other);
    GetSomeIffHasKey(db, other);
    RemovePresentSize(db, id);
  }

  lemma DeleteKeepsInvariant(db: Dict<Patient>, id: string)
    requires StoreInvariant(db)
    ensures StoreInvariant(Delete(db, id).store)
  {
    if HasKey(db, id) {
      RemoveKeepsKeysDistinct(db, id);
      var db' := Remove(db, id);
      forall j | 0 <= j < |db'| ensures db'[j].0 == db'[j].1.patientId && ValidRecord(db'[j].1) {
        EntriesOfRemove(db, id, j);
      }
    }
  }

  // ---------------------------------------------------------------------
  // The service's table

  class PatientService {
    var patients: Dict<Patient>

    ghost predicate Valid()
      reads this
    {
      StoreInvariant(patients)
    }

    constructor()
      ensures patients == SeedPatients() && Valid()
    {
      patients := SeedPatients();
    }

    method CreatePatient(payload: PatientCreate, uuidHex: string, now: string) returns (r: Result<Patient>)
      requires Valid()
      modifies this
      ensures Valid()
      ensures Outcome(patients, r) == Create(old(patients), payload, GeneratePatientId(uuidHex), now)
    {
      if !(ValidName(payload.firstName) && ValidName(payload.lastName)) {
        return Err(ValidationError);
      }
      var id := GeneratePatientId(uuidHex);
      var patient := NewPatient(payload, id, now);
      CreateKeepsInvariant(patients, payload, id, now);
      patients := Put(patients, id, patient);
      r := Ok(patient);
    }

    method UpdatePatient(id: string, patch: PatientUpdate, now: string) returns (r: Result<Patient>)
      requires Valid()
      modifies this
      ensures Valid()
      ensures Outcome(patients, r) == Update(old(patients), id, patch, now)
    {
      UpdateKeepsInvariant(patients, id, patch, now);
      var stored := Get(patients, id);
      if stored.None? {
        return Err(NotFound(id));
      }
      r := Rebuild(stored.value, patch, now);
      if r.Ok? {
        patients := Put(patients, id, r.value);
      }
    }

    method DeletePatient(id: string) returns (r: Result<()>)
      requires Valid()
      modifies this
      ensures Valid()
      ensures Outcome(patients, r) == Delete(old(patients), id)
    {
      DeleteKeepsInvariant(patients, id);
      if !HasKey(patients, id) {
        return Err(NotFound(id));
      }
      patients := Remove(patients, id);
      r := Ok(());
    }
  }
}
