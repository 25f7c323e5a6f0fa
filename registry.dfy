/** The facility registry: the regions of the national registry with their
    facilities, indexed once by facility identifier and again by short code,
    and the read-only endpoints over that index (lookup, filtered listing,
    substring search, the per-type summary, the per-region counts and the
    facility total). Reading the registry file is outside the model: the
    parsed regions are the input. */
module Registry {
  import opened Common
  import opened OrderedDict

  /** A facility as the registry file lists it; only the fields the service
      reads are modelled, and `None` is a field the entry does not have. */
  datatype RawFacility = RawFacility(
    id: string, shortCode: Option<string>, name: Option<string>, facilityType: Option<string>,
    level: Option<string>, district: Option<string>, city: Option<string>)

  /** A region of the registry file; a region without a facility list has an
      empty one. */
  datatype Region = Region(regionId: string, name: string, facilities: seq<RawFacility>)

  /** An indexed record: the facility's fields plus its region's identifier
      and name. */
  datatype Facility = Facility(
    id: string, shortCode: Option<string>, name: Option<string>, facilityType: Option<string>,
    level: Option<string>, district: Option<string>, city: Option<string>,
    regionId: string, regionName: string)

  datatype TypeInfo = TypeInfo(name: string, level: Option<string>, description: string)

  datatype RegionSummary = RegionSummary(regionId: string, name: string, facilityCount: nat)

  datatype RegionList = RegionList(regions: seq<RegionSummary>, total: nat)

  datatype SearchResult = SearchResult(results: seq<Facility>, count: nat)

  /** The service's root summary: the file's country and the two counts. */
  datatype RootInfo = RootInfo(country: Option<string>, totalRegions: nat, totalFacilities: nat)

  function OrEmpty(s: Option<string>): string
  {
    match s case None => "" case Some(t) => t
  }

  /** A query parameter that Python treats as true: given and non-empty. */
  predicate Given(p: Option<string>)
  {
    p.Some? && p.value != ""
  }

  // ---------------------------------------------------------------------
  // The index

  /** The record indexed for a facility of a region. */
  function RecordOf(f: RawFacility, r: Region): (rec: Facility)
    ensures rec.id == f.id && rec.shortCode == f.shortCode
    ensures rec.name == f.name && rec.facilityType == f.facilityType && rec.level == f.level
    ensures rec.district == f.district && rec.city == f.city
    ensures rec.regionId == r.regionId && rec.regionName == r.name
  {
    Facility(f.id, f.shortCode, f.name, f.facilityType, f.level, f.district, f.city, r.regionId, r.name)
  }

  /** The facilities of one region, each paired with the region. */
  function Placed(r: Region, fs: seq<RawFacility>): (ps: seq<(RawFacility, Region)>)
    ensures |ps| == |fs| && forall k :: 0 <= k < |fs| ==> ps[k] == (fs[k], r)
  {
    seq(|fs|, k requires 0 <= k < |fs| => (fs[k], r))
  }

  /** Every facility of the registry with its enclosing region, in file
      order. */
  function Flatten(rs: seq<Region>): seq<(RawFacility, Region)>
  {
    if rs == [] then [] else Flatten(rs[..|rs| - 1]) + Placed(rs[|rs| - 1], rs[|rs| - 1].facilities)
  }

  /** The keys a facility writes: its identifier and, when it has one, its
      short code. */
  predicate Claims(f: RawFacility, k: string)
  {
    k == f.id || f.shortCode == Some(k)
  }

  /** One step of the build: the record under the identifier, then the same
      record under the short code. */
  function IndexOne(db: Dict<Facility>, f: RawFacility, r: Region): Dict<Facility>
  {
    var rec := RecordOf(f, r);
    var db1 := Put(db, f.id, rec);
    match f.shortCode
    case None => db1
    case Some(sc) => Put(db1, sc, rec)
  }

  /** The index after inserting the facilities `es` in order. */
  function FlatIndex(es: seq<(RawFacility, Region)>): Dict<Facility>
  {
    if es == [] then [] else IndexOne(FlatIndex(es[..|es| - 1]), es[|es| - 1].0, es[|es| - 1].1)
  }

  /** `facilities_db` built from the registry's regions. */
  function Index(regions: seq<Region>): Dict<Facility>
  {
    FlatIndex(Flatten(regions))
  }

  lemma FlatIndexSnoc(es: seq<(RawFacility, Region)>, x: (RawFacility, Region))
    ensures FlatIndex(es + [x]) == IndexOne(FlatIndex(es), x.0, x.1)
  {
    assert (es + [x])[..|es|] == es;
  }

  lemma PlacedSnoc(es: seq<(RawFacility, Region)>, r: Region, fs: seq<RawFacility>, j: int)
    requires 0 <= j < |fs|
    ensures es + Placed(r, fs[..j + 1]) == (es + Placed(r, fs[..j])) + [(fs[j], r)]
  {
    assert Placed(r, fs[..j + 1]) == Placed(r, fs[..j]) + [(fs[j], r)];
  }

  lemma FlattenSnoc(rs: seq<Region>, i: int)
    requires 0 <= i < |rs|
    ensures Flatten(rs[..i + 1]) == Flatten(rs[..i]) + Placed(rs[i], rs[i].facilities)
  {
    assert rs[..i + 1][..i] == rs[..i];
  }

  /** The nested loop that fills `facilities_db`. */
  method BuildIndex(regions: seq<Region>) returns (db: Dict<Facility>)
    ensures db == Index(regions)
  {
    db := [];
    var i := 0;
    while i < |regions|
      invariant 0 <= i <= |regions|
      invariant db == FlatIndex(Flatten(regions[..i]))
    {
      db := IndexRegion(db, regions[i], Flatten(regions[..i]));
      FlattenSnoc(regions, i);
      i := i + 1;
    }
    assert regions[..i] == regions;
  }

  /** The inner loop of the build over the facilities of one region, on an
      index that holds the facilities `done` inserted before. */
  method IndexRegion(db0: Dict<Facility>, region: Region, ghost done: seq<(RawFacility, Region)>) returns (db: Dict<Facility>)
    requires db0 == FlatIndex(done)
    ensures db == FlatIndex(done + Placed(region, region.facilities))
  {
    db := db0;
    var j := 0;
    assert done + Placed(region, region.facilities[..0]) == done;
    while j < |region.facilities|
      invariant 0 <= j <= |region.facilities|
      invariant db == FlatIndex(done + Placed(region, region.facilities[..j]))
    {
      var facility := region.facilities[j];
      ghost var prev := db;
      var rec := RecordOf(facility, region);
      db := Put(db, facility.id, rec);
      if facility.shortCode.Some? {
        // the short code gets the record just stored under the identifier
        db := Put(db, facility.shortCode.value, rec);
      }
      assert db == IndexOne(prev, facility, region);
      PlacedSnoc(done, region, region.facilities, j);
      FlatIndexSnoc(done + Placed(region, region.facilities[..j]), (facility, region));
      j := j + 1;
    }
    assert region.facilities[..j] == region.facilities;
  }

  /** What one step does to a lookup: the keys it claims now give its record,
      every other key is unchanged. */
  lemma GetIndexOne(db: Dict<Facility>, f: RawFacility, r: Region, k: string)
    ensures Get(IndexOne(db, f, r), k) == if Claims(f, k) then Some(RecordOf(f, r)) else Get(db, k)
  {
    GetPut(db, f.id, RecordOf(f, r), k);
    if f.shortCode.Some? {
      GetPut(Put(db, f.id, RecordOf(f, r)), f.shortCode.value, RecordOf(f, r), k);
    }
  }

  /** The record of the last facility that claims `k`. */
  function LastClaim(es: seq<(RawFacility, Region)>, k: string): (r: Option<Facility>)
    ensures r.Some? ==> exists j :: 0 <= j < |es| && Claims(es[j].0, k) && r.value == RecordOf(es[j].0, es[j].1)
    ensures r.None? ==> forall j :: 0 <= j < |es| ==> !Claims(es[j].0, k)
  {
    if es == [] then None
    else
      var x := es[|es| - 1];
      if Claims(x.0, k) then Some(RecordOf(x.0, x.1))
      else
        var r := LastClaim(es[..|es| - 1], k);
        assert forall j :: 0 <= j < |es| - 1 ==> es[..|es| - 1][j] == es[j];
        r
  }

  /** A lookup in the index finds the record of the last facility that
      claimed the key. */
  lemma {:induction false} IndexIsLastWriter(es: seq<(RawFacility, Region)>, k: string)
    ensures Get(FlatIndex(es), k) == LastClaim(es, k)
  {
    if es != [] {
      IndexIsLastWriter(es[..|es| - 1], k);
      GetIndexOne(FlatIndex(es[..|es| - 1]), es[|es| - 1].0, es[|es| - 1].1, k);
    }
  }

  lemma {:induction false} IndexKeysDistinct(es: seq<(RawFacility, Region)>)
    ensures KeysDistinct(FlatIndex(es))
  {
    if es != [] {
      var x := es[|es| - 1];
      var db := FlatIndex(es[..|es| - 1]);
      IndexKeysDistinct(es[..|es| - 1]);
      PutKeepsKeysDistinct(db, x.0.id, RecordOf(x.0, x.1));
      if x.0.shortCode.Some? {
        PutKeepsKeysDistinct(Put(db, x.0.id, RecordOf(x.0, x.1)), x.0.shortCode.value, RecordOf(x.0, x.1));
      }
    }
  }

  /** No two facilities write the same key: no identifier or short code of
      one is an identifier or short code of another. */
  ghost predicate NoCollisions(es: seq<(RawFacility, Region)>)
  {
    forall i, j, k :: 0 <= i < j < |es| && Claims(es[i].0, k) ==> !Claims(es[j].0, k)
  }

  lemma {:induction false} LastClaimUnique(es: seq<(RawFacility, Region)>, i: int, k: string)
    requires NoCollisions(es) && 0 <= i < |es| && Claims(es[i].0, k)
    ensures LastClaim(es, k) == Some(RecordOf(es[i].0, es[i].1))
  {
    if i < |es| - 1 {
      var p := es[..|es| - 1];
      assert p[i] == es[i];
      assert !Claims(es[|es| - 1].0, k);
      assert NoCollisions(p) by {
        forall a, b, key | 0 <= a < b < |p| && Claims(p[a].0, key) ensures !Claims(p[b].0, key) {
          assert p[a] == es[a] && p[b] == es[b];
        }
      }
      LastClaimUnique(p, i, k);
    }
  }

  /** Without collisions every facility is found under its identifier and
      under its short code, with its own fields and its region's identifier
      and name. */
  lemma IndexFindsEveryFacility(es: seq<(RawFacility, Region)>, i: int)
    requires NoCollisions(es) && 0 <= i < |es|
    ensures Get(FlatIndex(es), es[i].0.id) == Some(RecordOf(es[i].0, es[i].1))
    ensures es[i].0.shortCode.Some? ==> Get(FlatIndex(es), es[i].0.shortCode.value) == Some(RecordOf(es[i].0, es[i].1))
  {
    IndexIsLastWriter(es, es[i].0.id);
    LastClaimUnique(es, i, es[i].0.id);
    if es[i].0.shortCode.Some? {
      IndexIsLastWriter(es, es[i].0.shortCode.value);
      LastClaimUnique(es, i, es[i].0.shortCode.value);
    }
  }

  /** The facility `b` of region `a` is among the flattened facilities. */
  lemma {:induction false} FlattenHas(rs: seq<Region>, a: int, b: int) returns (i: int)
    requires 0 <= a < |rs| && 0 <= b < |rs[a].facilities|
    ensures 0 <= i < |Flatten(rs)| && Flatten(rs)[i] == (rs[a].facilities[b], rs[a])
  {
    var p := rs[..|rs| - 1];
    if a == |rs| - 1 {
      i := |Flatten(p)| + b;
    } else {
      assert p[a] == rs[a];
      i := FlattenHas(p, a, b);
    }
  }

  /** The same, stated on the regions: when no two facilities of the
      registry write the same key, every facility of every region is found
      under its identifier and its short code. */
  lemma RegistryIndexFindsEveryFacility(rs: seq<Region>, a: int, b: int)
    requires NoCollisions(Flatten(rs)) && 0 <= a < |rs| && 0 <= b < |rs[a].facilities|
    ensures var f := rs[a].facilities[b];
      && Get(Index(rs), f.id) == Some(RecordOf(f, rs[a]))
      && (f.shortCode.Some? ==> Get(Index(rs), f.shortCode.value) == Some(RecordOf(f, rs[a])))
  {
    var i := FlattenHas(rs, a, b);
    IndexFindsEveryFacility(Flatten(rs), i);
  }

  // ---------------------------------------------------------------------
  // Lookup

  function NotFound(key: string): HttpError
  {
    HttpError(404, "Facility '" + key + "' not found", false)
  }

  /** `get_facility`: the record indexed under an identifier or short code. */
  function GetFacility(db: Dict<Facility>, key: string): (r: Result<Facility>)
    ensures r.Ok? <==> HasKey(db, key)
    ensures r.Err? ==> r.error == NotFound(key)
    ensures r.Ok? ==> (key, r.value) in db
  {
    GetSomeIffHasKey(db, key);
    match Get(db, key)
    case None => Err(NotFound(key))
    case Some(f) => GetSomeIsStored(db, key); Ok(f)
  }

  /** On the built index, a lookup succeeds exactly for the keys some
      facility claims, and returns the record of the last such facility. */
  lemma GetFacilityOnIndex(rs: seq<Region>, key: string)
    ensures GetFacility(Index(rs), key).Ok? <==> exists j :: 0 <= j < |Flatten(rs)| && Claims(Flatten(rs)[j].0, key)
    ensures GetFacility(Index(rs), key).Ok? ==> Some(GetFacility(Index(rs), key).value) == LastClaim(Flatten(rs), key)
  {
    var es := Flatten(rs);
    var db := Index(rs);
    IndexIsLastWriter(es, key);
    GetSomeIffHasKey(db, key);
    var r := GetFacility(db, key);
    if r.Ok? {
      assert Get(db, key) == Some(r.value);
      assert LastClaim(es, key) == Some(r.value);
      var j :| 0 <= j < |es| && Claims(es[j].0, key) && r.value == RecordOf(es[j].0, es[j].1);
    } else {
      assert LastClaim(es, key).None?;
    }
  }

  // ---------------------------------------------------------------------
  // Deduplication

  predicate IdsDistinct(xs: seq<Facility>)
  {
    forall i, j :: 0 <= i < j < |xs| ==> xs[i].id != xs[j].id
  }

  /** The identifiers of a run of records. */
  function IdSet(xs: seq<Facility>): set<string>
  {
    if xs == [] then {} else IdSet(xs[..|xs| - 1]) + {xs[|xs| - 1].id}
  }

  /** An identifier is in the set exactly when some record carries it. */
  lemma {:induction false} IdSetMembers(xs: seq<Facility>)
    ensures forall id :: id in IdSet(xs) <==> exists i :: 0 <= i < |xs| && xs[i].id == id
  {
    if xs != [] {
      var p := xs[..|xs| - 1];
      IdSetMembers(p);
      assert forall i :: 0 <= i < |p| ==> p[i] == xs[i];
    }
  }

  /** The records whose identifier has not been seen earlier in the run:
      the first record of each identifier, in order. */
  function Dedup(xs: seq<Facility>): (r: seq<Facility>)
    ensures |r| <= |xs|
  {
    if xs == [] then []
    else if xs[|xs| - 1].id in IdSet(xs[..|xs| - 1]) then Dedup(xs[..|xs| - 1])
    else Dedup(xs[..|xs| - 1]) + [xs[|xs| - 1]]
  }

  /** The deduplicated run keeps only records of the run, loses no
      identifier, and holds each identifier once. */
  lemma DedupProperties(xs: seq<Facility>)
    ensures forall k :: 0 <= k < |Dedup(xs)| ==> Dedup(xs)[k] in xs
    ensures IdSet(Dedup(xs)) == IdSet(xs)
    ensures IdsDistinct(Dedup(xs))
  {
    DedupInRun(xs);
    DedupIds(xs);
    DedupDistinct(xs);
  }

  lemma {:induction false} DedupInRun(xs: seq<Facility>)
    ensures forall k :: 0 <= k < |Dedup(xs)| ==> Dedup(xs)[k] in xs
  {
    if xs != [] {
      var p := xs[..|xs| - 1];
      DedupInRun(p);
      assert forall f :: f in p ==> f in xs;
    }
  }

  lemma {:induction false} DedupIds(xs: seq<Facility>)
    ensures IdSet(Dedup(xs)) == IdSet(xs)
  {
    if xs != [] {
      var p := xs[..|xs| - 1];
      var x := xs[|xs| - 1];
      DedupIds(p);
      if x.id !in IdSet(p) {
        IdSetSnoc(Dedup(p), x);
      }
    }
  }

  lemma {:induction false} DedupDistinct(xs: seq<Facility>)
    ensures IdsDistinct(Dedup(xs))
  {
    if xs != [] {
      var p := xs[..|xs| - 1];
      var x := xs[|xs| - 1];
      var d := Dedup(p);
      DedupDistinct(p);
      if x.id !in IdSet(p) {
        DedupIds(p);
        IdSetMembers(d);
        forall k | 0 <= k < |d| ensures d[k].id != x.id {
          assert d[k].id in IdSet(d);
        }
        assert Dedup(xs) == d + [x];
      }
    }
  }

  /** Some record of the run carries the identifier. */
  predicate HasId(xs: seq<Facility>, id: string)
  {
    exists j :: 0 <= j < |xs| && xs[j].id == id
  }

  /** The first record with a given identifier (the run must hold one). */
  function FirstWithId(xs: seq<Facility>, id: string): (f: Facility)
    requires HasId(xs, id)
    ensures f in xs && f.id == id
  {
    var p := xs[..|xs| - 1];
    assert forall i :: 0 <= i < |p| ==> p[i] == xs[i];
    if HasId(p, id) then FirstWithId(p, id) else xs[|xs| - 1]
  }

  /** The record `FirstWithId` picks stands at a position before which no
      record carries the identifier. */
  lemma {:induction false} FirstWithIdIsFirst(xs: seq<Facility>, id: string) returns (j: int)
    requires HasId(xs, id)
    ensures 0 <= j < |xs| && xs[j] == FirstWithId(xs, id) && xs[j].id == id
    ensures forall k :: 0 <= k < j ==> xs[k].id != id
  {
    var p := xs[..|xs| - 1];
    assert forall i :: 0 <= i < |p| ==> p[i] == xs[i];
    if HasId(p, id) {
      j := FirstWithIdIsFirst(p, id);
    } else {
      j := |xs| - 1;
      forall k | 0 <= k < j ensures xs[k].id != id {
        assert p[k] == xs[k];
      }
    }
  }

  lemma IdSetSnoc(xs: seq<Facility>, x: Facility)
    ensures IdSet(xs + [x]) == IdSet(xs) + {x.id}
  {
    assert (xs + [x])[..|xs|] == xs;
  }

  lemma DedupSnoc(xs: seq<Facility>, x: Facility)
    ensures Dedup(xs + [x]) == if x.id in IdSet(xs) then Dedup(xs) else Dedup(xs) + [x]
  {
    assert (xs + [x])[..|xs|] == xs;
  }

  /** A record is kept by the deduplication exactly when it is the first
      record with its identifier. */
  lemma {:induction false} DedupKeepsFirst(xs: seq<Facility>, i: int)
    requires 0 <= i < |xs|
    ensures xs[i] in Dedup(xs) <==> xs[i] == FirstWithId(xs, xs[i].id)
  {
    var p := xs[..|xs| - 1];
    var x := xs[|xs| - 1];
    IdSetMembers(p);
    DedupProperties(p);
    if i < |xs| - 1 {
      assert p[i] == xs[i];
      DedupKeepsFirst(p, i);
      assert x.id !in IdSet(p) ==> x != xs[i];
    } else if x.id in IdSet(p) && x in p {
      var k :| 0 <= k < |p| && p[k] == x;
      DedupKeepsFirst(p, k);
    }
  }

  // ---------------------------------------------------------------------
  // Listing

  /** The filters of `list_facilities`; a filter not given constrains
      nothing, region and level compare lower-cased and type upper-cased. */
  predicate MatchesFilters(f: Facility, region: Option<string>, facilityType: Option<string>, level: Option<string>)
  {
    && (Given(region) ==> Lower(f.regionName) == Lower(region.value))
    && (Given(facilityType) ==> Upper(OrEmpty(f.facilityType)) == Upper(facilityType.value))
    && (Given(level) ==> Lower(OrEmpty(f.level)) == Lower(level.value))
  }

  function FilterListing(xs: seq<Facility>, region: Option<string>, facilityType: Option<string>, level: Option<string>): (r: seq<Facility>)
    ensures |r| <= |xs|
  {
    if xs == [] then []
    else
      var r := FilterListing(xs[..|xs| - 1], region, facilityType, level);
      if MatchesFilters(xs[|xs| - 1], region, facilityType, level) then r + [xs[|xs| - 1]] else r
  }

  /** The filter keeps exactly the matching records, and keeps identifiers
      distinct. */
  lemma {:induction false} FilterListingKeeps(xs: seq<Facility>, region: Option<string>, facilityType: Option<string>, level: Option<string>)
    ensures forall f :: f in FilterListing(xs, region, facilityType, level) <==> f in xs && MatchesFilters(f, region, facilityType, level)
    ensures IdsDistinct(xs) ==> IdsDistinct(FilterListing(xs, region, facilityType, level))
  {
    if xs != [] {
      var p := xs[..|xs| - 1];
      var x := xs[|xs| - 1];
      var r := FilterListing(p, region, facilityType, level);
      FilterListingKeeps(p, region, facilityType, level);
      assert forall f :: f in xs <==> f in p || f == x;
      if IdsDistinct(xs) {
        assert IdsDistinct(p) by {
          forall a, b | 0 <= a < b < |p| ensures p[a].id != p[b].id {
            assert p[a] == xs[a] && p[b] == xs[b];
          }
        }
        forall k | 0 <= k < |r| ensures r[k].id != x.id {
          assert r[k] in p;
          var m :| 0 <= m < |p| && p[m] == r[k];
          assert xs[m] == r[k];
        }
      }
    }
  }

  /** The listing `list_facilities` returns: the first record of each
      identifier in index order, then filtered. */
  function Listing(db: Dict<Facility>, region: Option<string>, facilityType: Option<string>, level: Option<string>): seq<Facility>
  {
    FilterListing(Dedup(Values(db)), region, facilityType, level)
  }

  lemma FilterListingSnoc(xs: seq<Facility>, x: Facility, region: Option<string>, facilityType: Option<string>, level: Option<string>)
    ensures FilterListing(xs + [x], region, facilityType, level)
      == FilterListing(xs, region, facilityType, level) + (if MatchesFilters(x, region, facilityType, level) then [x] else [])
  {
    assert (xs + [x])[..|xs|] == xs;
  }

  /** One record more: the listing grows by that record exactly when its
      identifier is new and it matches. */
  lemma ListingStep(xs: seq<Facility>, x: Facility, region: Option<string>, facilityType: Option<string>, level: Option<string>)
    ensures IdSet(xs + [x]) == if x.id in IdSet(xs) then IdSet(xs) else IdSet(xs) + {x.id}
    ensures FilterListing(Dedup(xs + [x]), region, facilityType, level) ==
      if x.id in IdSet(xs) then FilterListing(Dedup(xs), region, facilityType, level)
      else FilterListing(Dedup(xs), region, facilityType, level) + (if MatchesFilters(x, region, facilityType, level) then [x] else [])
  {
    IdSetSnoc(xs, x);
    DedupSnoc(xs, x);
    FilterListingSnoc(Dedup(xs), x, region, facilityType, level);
  }

  /** `list_facilities`: one pass over the index values with a set of seen
      identifiers; a record is marked seen before the filters are applied. */
  method ListFacilities(db: Dict<Facility>, region: Option<string>, facilityType: Option<string>, level: Option<string>)
    returns (facilities: seq<Facility>)
    ensures facilities == Listing(db, region, facilityType, level)
  {
    facilities := ListValues(Values(db), region, facilityType, level);
  }

  /** The loop of `list_facilities` over the index values `values`. */
  method ListValues(values: seq<Facility>, region: Option<string>, facilityType: Option<string>, level: Option<string>)
    returns (facilities: seq<Facility>)
    ensures facilities == FilterListing(Dedup(values), region, facilityType, level)
  {
    var seenIds: set<string> := {};
    facilities := [];
    var i := 0;
    ghost var done: seq<Facility> := [];
    while i < |values|
      invariant 0 <= i <= |values| && done == values[..i]
      invariant seenIds == IdSet(done)
      invariant facilities == FilterListing(Dedup(done), region, facilityType, level)
    {
      var facility := values[i];
      ghost var before := facilities;
      if facility.id !in seenIds {
        seenIds := seenIds + {facility.id};
        var keep := MatchesFilters(facility, region, facilityType, level);
        if keep {
          facilities := facilities + [facility];
        }
      }
      ListingLoopStep(done, facility, region, facilityType, level, before, seenIds, facilities);
      PrefixSnoc(values, i);
      done := done + [facility];
      i := i + 1;
    }
    assert done == values;
  }

  /** The step of the loop: the seen set and the listing after one more record
      are those of the run one record longer. */
  lemma ListingLoopStep(done: seq<Facility>, x: Facility, region: Option<string>, facilityType: Option<string>, level: Option<string>,
                        before: seq<Facility>, seen: set<string>, after: seq<Facility>)
    requires before == FilterListing(Dedup(done), region, facilityType, level)
    requires seen == IdSet(done) + {x.id}
    requires after == if x.id in IdSet(done) || !MatchesFilters(x, region, facilityType, level) then before else before + [x]
    ensures seen == IdSet(done + [x])
    ensures after == FilterListing(Dedup(done + [x]), region, facilityType, level)
  {
    ListingStep(done, x, region, facilityType, level);
  }

  /** The listing returns each identifier at most once, each record stored in
      the index and matching every given filter, and every first record of its
      identifier that matches. */
  lemma ListingProperties(db: Dict<Facility>, region: Option<string>, facilityType: Option<string>, level: Option<string>)
    ensures IdsDistinct(Listing(db, region, facilityType, level))
    ensures forall f :: f in Listing(db, region, facilityType, level) ==>
      f in Values(db) && MatchesFilters(f, region, facilityType, level)
    ensures forall i :: (0 <= i < |Values(db)| && Values(db)[i] == FirstWithId(Values(db), Values(db)[i].id)
      && MatchesFilters(Values(db)[i], region, facilityType, level)) ==> Values(db)[i] in Listing(db, region, facilityType, level)
  {
    var vs := Values(db);
    DedupProperties(vs);
    FilterListingKeeps(Dedup(vs), region, facilityType, level);
    forall i | 0 <= i < |vs| && vs[i] == FirstWithId(vs, vs[i].id) && MatchesFilters(vs[i], region, facilityType, level)
      ensures vs[i] in Listing(db, region, facilityType, level)
    {
      DedupKeepsFirst(vs, i);
    }
  }

  /** On a registry without collisions, a facility is listed exactly when
      it matches the filters. */
  lemma IndexListing(es: seq<(RawFacility, Region)>, i: int, region: Option<string>, facilityType: Option<string>, level: Option<string>)
    requires NoCollisions(es) && 0 <= i < |es|
    ensures var rec := RecordOf(es[i].0, es[i].1);
      rec in Listing(FlatIndex(es), region, facilityType, level) <==> MatchesFilters(rec, region, facilityType, level)
  {
    var rec := RecordOf(es[i].0, es[i].1);
    var db := FlatIndex(es);
    var vs := Values(db);
    IndexFindsEveryFacility(es, i);
    GetSomeIsStored(db, rec.id);
    var m :| 0 <= m < |db| && db[m] == (rec.id, rec);
    assert vs[m] == rec;
    RecordsOfSameIdAgree(es, i, vs[m].id);
    DedupKeepsFirst(vs, m);
    DedupProperties(vs);
    FilterListingKeeps(Dedup(vs), region, facilityType, level);
  }

  /** Without collisions, every indexed record with a facility's identifier
      is that facility's record; so the first such record is too. */
  lemma RecordsOfSameIdAgree(es: seq<(RawFacility, Region)>, i: int, id: string)
    requires NoCollisions(es) && 0 <= i < |es| && id == es[i].0.id
    requires HasId(Values(FlatIndex(es)), id)
    ensures FirstWithId(Values(FlatIndex(es)), id) == RecordOf(es[i].0, es[i].1)
  {
    var vs := Values(FlatIndex(es));
    var f := FirstWithId(vs, id);
    var m :| 0 <= m < |vs| && vs[m] == f;
    StoredRecordOfId(es, i, m);
  }

  /** Without collisions, an index entry whose record carries a facility's
      identifier holds that facility's record. */
  lemma StoredRecordOfId(es: seq<(RawFacility, Region)>, i: int, m: int)
    requires NoCollisions(es) && 0 <= i < |es| && 0 <= m < |FlatIndex(es)|
    requires FlatIndex(es)[m].1.id == es[i].0.id
    ensures FlatIndex(es)[m].1 == RecordOf(es[i].0, es[i].1)
  {
    var db := FlatIndex(es);
    IndexKeysDistinct(es);
    GetAt(db, m);
    IndexIsLastWriter(es, db[m].0);
    var j :| 0 <= j < |es| && Claims(es[j].0, db[m].0) && db[m].1 == RecordOf(es[j].0, es[j].1);
    assert Claims(es[j].0, es[i].0.id) && Claims(es[i].0, es[i].0.id);
    assert !(j < i) && !(i < j);
  }

  // ---------------------------------------------------------------------
  // Search

  /** A record the search keeps: the lower-cased query occurs in its
      lower-cased name, city or district (a missing field reads as ""). */
  predicate MatchesQuery(f: Facility, q: string)
  {
    || Contains(Lower(OrEmpty(f.name)), q)
    || Contains(Lower(OrEmpty(f.city)), q)
    || Contains(Lower(OrEmpty(f.district)), q)
  }

  function FilterQuery(xs: seq<Facility>, q: string): (r: seq<Facility>)
    ensures |r| <= |xs|
    ensures forall f :: f in r <==> f in xs && MatchesQuery(f, q)
  {
    if xs == [] then []
    else
      var p := xs[..|xs| - 1];
      var x := xs[|xs| - 1];
      assert forall f :: f in xs <==> f in p || f == x;
      if MatchesQuery(x, q) then FilterQuery(p, q) + [x] else FilterQuery(p, q)
  }

  /** What `search_facilities` returns: the first matching record of each
      identifier, in index order. */
  function Search(db: Dict<Facility>, q: string): seq<Facility>
  {
    Dedup(FilterQuery(Values(db), Lower(q)))
  }

  lemma FilterQuerySnoc(xs: seq<Facility>, x: Facility, q: string)
    ensures FilterQuery(xs + [x], q) == FilterQuery(xs, q) + (if MatchesQuery(x, q) then [x] else [])
  {
    assert (xs + [x])[..|xs|] == xs;
  }

  /** One record more: the search grows by that record exactly when it
      matches and its identifier has not been returned yet. */
  lemma SearchStep(xs: seq<Facility>, i: int, q: string)
    requires 0 <= i < |xs|
    ensures var before := Dedup(FilterQuery(xs[..i], q));
      && IdSet(before + [xs[i]]) == IdSet(before) + {xs[i].id}
      && Dedup(FilterQuery(xs[..i + 1], q)) ==
        if xs[i].id in IdSet(before) || !MatchesQuery(xs[i], q) then before else before + [xs[i]]
  {
    var m := FilterQuery(xs[..i], q);
    assert xs[..i + 1] == xs[..i] + [xs[i]];
    FilterQuerySnoc(xs[..i], xs[i], q);
    DedupSnoc(m, xs[i]);
    DedupProperties(m);
    IdSetSnoc(Dedup(m), xs[i]);
  }

  /** `search_facilities`: one pass with a set of the identifiers returned so
      far; a record is marked seen only when it matches. */
  method SearchFacilities(db: Dict<Facility>, q: string) returns (r: SearchResult)
    ensures r.results == Search(db, q) && r.count == |r.results|
  {
    var queryLower := Lower(q);
    var values := Values(db);
    var seenIds: set<string> := {};
    var results: seq<Facility> := [];
    var i := 0;
    while i < |values|
      invariant 0 <= i <= |values|
      invariant results == Dedup(FilterQuery(values[..i], queryLower))
      invariant seenIds == IdSet(results)
    {
      var facility := values[i];
      SearchStep(values, i, queryLower);
      if facility.id in seenIds {
        i := i + 1;
        continue;
      }
      if MatchesQuery(facility, queryLower) {
        seenIds := seenIds + {facility.id};
        results := results + [facility];
      }
      i := i + 1;
    }
    assert values[..i] == values;
    r := SearchResult(results, |results|);
  }

  /** The search returns each identifier once, each record matching the
      query, and the first matching record of every matching identifier. */
  lemma SearchProperties(db: Dict<Facility>, q: string)
    ensures IdsDistinct(Search(db, q))
    ensures forall f :: f in Search(db, q) ==> f in Values(db) && MatchesQuery(f, Lower(q))
    ensures forall f :: f in Values(db) && MatchesQuery(f, Lower(q)) ==>
      exists g :: g in Search(db, q) && g.id == f.id
  {
    var m := FilterQuery(Values(db), Lower(q));
    DedupProperties(m);
    IdSetMembers(m);
    IdSetMembers(Search(db, q));
    forall f | f in Values(db) && MatchesQuery(f, Lower(q)) ensures exists g :: g in Search(db, q) && g.id == f.id {
      var i :| 0 <= i < |m| && m[i] == f;
      assert f.id in IdSet(m);
      var d := Search(db, q);
      var k :| 0 <= k < |d| && d[k].id == f.id;
      assert d[k] in d;
    }
  }

  // ---------------------------------------------------------------------
  // Types

  /** The fixed description of the four known facility types; any other
      type is described by its own name. */
  const TypeDescriptions: map<string, string> := map[
    "CHU" := "Centre Hospitalier Universitaire (University Hospital)",
    "CHR" := "Centre Hospitalier R\U{221A}\U{00A9}gional (Regional Hospital)",
    "CMA" := "Centre M\U{221A}\U{00A9}dical avec Antenne chirurgicale (Medical Center with Surgery)",
    "CSPS" := "Centre de Sant\U{221A}\U{00A9} et de Promotion Sociale (Health Center)"]

  function Describe(t: string): (d: string)
    ensures t == "CHU" ==> d == "Centre Hospitalier Universitaire (University Hospital)"
    ensures t == "CHR" ==> d == "Centre Hospitalier R\U{221A}\U{00A9}gional (Regional Hospital)"
    ensures t == "CMA" ==> d == "Centre M\U{221A}\U{00A9}dical avec Antenne chirurgicale (Medical Center with Surgery)"
    ensures t == "CSPS" ==> d == "Centre de Sant\U{221A}\U{00A9} et de Promotion Sociale (Health Center)"
    ensures t !in {"CHU", "CHR", "CMA", "CSPS"} ==> d == t
  {
    if t in TypeDescriptions then TypeDescriptions[t] else t
  }

  /** The types summary after the records `xs`: a type seen for the first
      time is added with the level of that record. */
  function TypesOf(xs: seq<Facility>): Dict<TypeInfo>
  {
    if xs == [] then []
    else
      var types := TypesOf(xs[..|xs| - 1]);
      var x := xs[|xs| - 1];
      if Given(x.facilityType) && !HasKey(types, x.facilityType.value) then
        Put(types, x.facilityType.value, TypeInfo(x.facilityType.value, x.level, Describe(x.facilityType.value)))
      else types
  }

  lemma TypesSnoc(xs: seq<Facility>, x: Facility)
    ensures TypesOf(xs + [x]) ==
      if Given(x.facilityType) && !HasKey(TypesOf(xs), x.facilityType.value) then
        Put(TypesOf(xs), x.facilityType.value, TypeInfo(x.facilityType.value, x.level, Describe(x.facilityType.value)))
      else TypesOf(xs)
  {
    assert (xs + [x])[..|xs|] == xs;
  }

  /** `list_types`. */
  method ListTypes(db: Dict<Facility>) returns (types: Dict<TypeInfo>)
    ensures types == TypesOf(Values(db))
  {
    var values := Values(db);
    types := [];
    var i := 0;
    while i < |values|
      invariant 0 <= i <= |values|
      invariant types == TypesOf(values[..i])
    {
      var facility := values[i];
      assert values[..i + 1] == values[..i] + [facility];
      TypesSnoc(values[..i], facility);
      var ftype := facility.facilityType;
      if ftype.Some? && ftype.value != "" && !HasKey(types, ftype.value) {
        types := Put(types, ftype.value, TypeInfo(ftype.value, facility.level, Describe(ftype.value)));
      }
      i := i + 1;
    }
    assert values[..i] == values;
  }

  /** Some record of the run has type `t`. */
  predicate HasType(xs: seq<Facility>, t: string)
  {
    exists i :: 0 <= i < |xs| && xs[i].facilityType == Some(t)
  }

  lemma HasTypeSnoc(xs: seq<Facility>, t: string)
    requires |xs| > 0
    ensures HasType(xs, t) <==> HasType(xs[..|xs| - 1], t) || xs[|xs| - 1].facilityType == Some(t)
  {
    var p := xs[..|xs| - 1];
    if HasType(xs, t) && xs[|xs| - 1].facilityType != Some(t) {
      var i :| 0 <= i < |xs| && xs[i].facilityType == Some(t);
      assert p[i] == xs[i];
    }
    if HasType(p, t) {
      var i :| 0 <= i < |p| && p[i].facilityType == Some(t);
      assert xs[i] == p[i];
    }
  }

  /** The summary has one entry per type. */
  lemma {:induction false} TypesDistinct(xs: seq<Facility>)
    ensures KeysDistinct(TypesOf(xs))
  {
    if xs != [] {
      var p := xs[..|xs| - 1];
      var x := xs[|xs| - 1];
      TypesDistinct(p);
      if Given(x.facilityType) && !HasKey(TypesOf(p), x.facilityType.value) {
        PutKeepsKeysDistinct(TypesOf(p), x.facilityType.value, TypeInfo(x.facilityType.value, x.level, Describe(x.facilityType.value)));
      }
    }
  }

  /** The summary's keys are exactly the non-empty types of the records. */
  lemma {:induction false} TypesKeys(xs: seq<Facility>, t: string)
    ensures HasKey(TypesOf(xs), t) <==> t != "" && HasType(xs, t)
  {
    if xs != [] {
      var p := xs[..|xs| - 1];
      var x := xs[|xs| - 1];
      var types := TypesOf(p);
      TypesKeys(p, t);
      HasTypeSnoc(xs, t);
      if Given(x.facilityType) && !HasKey(types, x.facilityType.value) {
        HasKeyPut(types, x.facilityType.value, TypeInfo(x.facilityType.value, x.level, Describe(x.facilityType.value)), t);
      }
    }
  }

  /** Each entry is built from the first record of its type: its level and
      its description. */
  lemma {:induction false} TypesFirstSeen(xs: seq<Facility>, i: int)
    requires 0 <= i < |xs| && Given(xs[i].facilityType)
    requires forall j :: 0 <= j < i ==> xs[j].facilityType != xs[i].facilityType
    ensures var t := xs[i].facilityType.value;
      Get(TypesOf(xs), t) == Some(TypeInfo(t, xs[i].level, Describe(t)))
  {
    var t := xs[i].facilityType.value;
    var p := xs[..|xs| - 1];
    var x := xs[|xs| - 1];
    if i < |xs| - 1 {
      assert p[i] == xs[i];
      TypesFirstSeen(p, i);
      GetSomeIffHasKey(TypesOf(p), t);
      if Given(x.facilityType) && !HasKey(TypesOf(p), x.facilityType.value) {
        GetPut(TypesOf(p), x.facilityType.value, TypeInfo(x.facilityType.value, x.level, Describe(x.facilityType.value)), t);
      }
    } else {
      TypesKeys(p, t);
      forall j | 0 <= j < |p| ensures p[j].facilityType != Some(t) {
        assert p[j] == xs[j];
      }
      assert !HasType(p, t);
      GetPut(TypesOf(p), t, TypeInfo(t, x.level, Describe(t)), t);
    }
  }

  // ---------------------------------------------------------------------
  // Regions and totals

  /** `list_regions`. */
  function ListRegions(rs: seq<Region>): (r: RegionList)
    ensures |r.regions| == |rs| && r.total == |rs|
    ensures forall k :: 0 <= k < |rs| ==>
      r.regions[k] == RegionSummary(rs[k].regionId, rs[k].name, |rs[k].facilities|)
  {
    var regions := seq(|rs|, k requires 0 <= k < |rs| => RegionSummary(rs[k].regionId, rs[k].name, |rs[k].facilities|));
    RegionList(regions, |regions|)
  }

  function SumCounts(ss: seq<RegionSummary>): nat
  {
    if ss == [] then 0 else SumCounts(ss[..|ss| - 1]) + ss[|ss| - 1].facilityCount
  }

  /** The per-region counts add up to the number of facilities in the
      registry. */
  lemma {:induction false} RegionCountsAddUp(rs: seq<Region>)
    ensures SumCounts(ListRegions(rs).regions) == |Flatten(rs)|
  {
    if rs != [] {
      var p := rs[..|rs| - 1];
      RegionCountsAddUp(p);
      assert ListRegions(rs).regions[..|rs| - 1] == ListRegions(p).regions;
    }
  }

  /** `len(facilities_db) // 2`, the count the root and health endpoints
      report, as written. */
  function TotalFacilitiesAsWritten(db: Dict<Facility>): (n: nat)
    ensures 2 * n <= |db| < 2 * n + 2
  {
    |db| / 2
  }

  /** The number of keys the facilities write: two, or one when the
      facility has no short code or its short code is its identifier. */
  function KeyCount(es: seq<(RawFacility, Region)>): nat
  {
    if es == [] then 0
    else
      var f := es[|es| - 1].0;
      KeyCount(es[..|es| - 1]) + (if f.shortCode.Some? && f.shortCode.value != f.id then 2 else 1)
  }

  /** Without collisions the index holds exactly the keys the facilities
      write. */
  lemma {:induction false} IndexSize(es: seq<(RawFacility, Region)>)
    requires NoCollisions(es)
    ensures |FlatIndex(es)| == KeyCount(es)
  {
    if es != [] {
      var p := es[..|es| - 1];
      var x := es[|es| - 1];
      assert NoCollisions(p) by {
        forall a, b, key | 0 <= a < b < |p| && Claims(p[a].0, key) ensures !Claims(p[b].0, key) {
          assert p[a] == es[a] && p[b] == es[b];
        }
      }
      IndexSize(p);
      var db := FlatIndex(p);
      var rec := RecordOf(x.0, x.1);
      NotClaimedBefore(es, x.0.id);
      PutLength(db, x.0.id, rec);
      if x.0.shortCode.Some? {
        var sc := x.0.shortCode.value;
        NotClaimedBefore(es, sc);
        GetPut(db, x.0.id, rec, sc);
        GetSomeIffHasKey(Put(db, x.0.id, rec), sc);
        PutLength(Put(db, x.0.id, rec), sc, rec);
      }
    }
  }

  /** Without collisions the keys of the last facility are not in the index
      of the ones before it. */
  lemma NotClaimedBefore(es: seq<(RawFacility, Region)>, k: string)
    requires NoCollisions(es) && |es| > 0 && Claims(es[|es| - 1].0, k)
    ensures !HasKey(FlatIndex(es[..|es| - 1]), k)
    ensures Get(FlatIndex(es[..|es| - 1]), k).None?
  {
    var p := es[..|es| - 1];
    IndexIsLastWriter(p, k);
    GetSomeIffHasKey(FlatIndex(p), k);
    forall j | 0 <= j < |p| ensures !Claims(p[j].0, k) {
      assert p[j] == es[j];
    }
  }

  /** The halved count is right only when every facility writes two keys
      and no two facilities collide. */
  lemma AsWrittenRightWithShortCodes(es: seq<(RawFacility, Region)>)
    requires NoCollisions(es)
    requires forall i :: 0 <= i < |es| ==> es[i].0.shortCode.Some? && es[i].0.shortCode.value != es[i].0.id
    ensures TotalFacilitiesAsWritten(FlatIndex(es)) == |es|
  {
    IndexSize(es);
    KeyCountAllPairs(es);
  }

  lemma {:induction false} KeyCountAllPairs(es: seq<(RawFacility, Region)>)
    requires forall i :: 0 <= i < |es| ==> es[i].0.shortCode.Some? && es[i].0.shortCode.value != es[i].0.id
    ensures KeyCount(es) == 2 * |es|
  {
    if es != [] {
      var p := es[..|es| - 1];
      assert forall i :: 0 <= i < |p| ==> p[i] == es[i];
      KeyCountAllPairs(p);
    }
  }

  /** A registry of one region with one facility that has no short code:
      the halved count reports no facility, the corrected count one. */
  lemma AsWrittenMiscounts(country: Option<string>, r: Region)
    requires |r.facilities| == 1 && r.facilities[0].shortCode.None?
    ensures |Flatten([r])| == 1
    ensures TotalFacilitiesAsWritten(Index([r])) == 0
    ensures TotalFacilities(Index([r])) == 1
    ensures RootAsWritten(country, [r]).totalFacilities == 0 && Root(country, [r]).totalFacilities == 1
  {
    var f := r.facilities[0];
    var rec := RecordOf(f, r);
    assert [r][..0] == [];
    assert Flatten([r][..0]) == [];
    assert Placed(r, r.facilities) == [(f, r)];
    var es := Flatten([r]);
    assert es == [(f, r)];
    assert es[..0] == [];
    assert FlatIndex(es[..0]) == [];
    assert IndexOne([], f, r) == [(f.id, rec)];
    assert Index([r]) == [(f.id, rec)];
    var vs := Values(Index([r]));
    assert vs == [rec];
    DedupSnoc([], rec);
    assert [] + [rec] == vs;
    FilterListingSnoc([], rec, None, None, None);
  }

  /** The number of distinct facilities in the index: the count of the
      unfiltered listing. */
  function TotalFacilities(db: Dict<Facility>): (n: nat)
    ensures n <= |db|
  {
    |Listing(db, None, None, None)|
  }

  /** The corrected total counts every identifier in the index once. */
  lemma TotalFacilitiesCountsIds(db: Dict<Facility>)
    ensures TotalFacilities(db) == |IdSet(Values(db))|
  {
    var d := Dedup(Values(db));
    DedupProperties(Values(db));
    assert FilterListing(d, None, None, None) == d by {
      FilterAllListing(d);
    }
    DistinctIdCount(d);
  }

  lemma {:induction false} FilterAllListing(xs: seq<Facility>)
    ensures FilterListing(xs, None, None, None) == xs
  {
    if xs != [] {
      FilterAllListing(xs[..|xs| - 1]);
      assert xs[..|xs| - 1] + [xs[|xs| - 1]] == xs;
    }
  }

  /** A run with distinct identifiers holds as many records as identifiers. */
  lemma {:induction false} DistinctIdCount(xs: seq<Facility>)
    requires IdsDistinct(xs)
    ensures |IdSet(xs)| == |xs|
  {
    if xs != [] {
      var p := xs[..|xs| - 1];
      assert IdsDistinct(p) by {
        forall i, j | 0 <= i < j < |p| ensures p[i].id != p[j].id {
          assert p[i] == xs[i] && p[j] == xs[j];
        }
      }
      DistinctIdCount(p);
      IdSetMembers(p);
      forall i | 0 <= i < |p| ensures p[i].id != xs[|xs| - 1].id {
        assert p[i] == xs[i];
      }
    }
  }

  /** The root endpoint as written: the file's `country`, the number of
      regions, and the halved key count of the index built from them. */
  function RootAsWritten(country: Option<string>, rs: seq<Region>): (info: RootInfo)
    ensures info.country == country && info.totalRegions == ListRegions(rs).total
    ensures 2 * info.totalFacilities <= |Index(rs)| < 2 * info.totalFacilities + 2
  {
    RootInfo(country, |rs|, TotalFacilitiesAsWritten(Index(rs)))
  }

  /** The root endpoint with the corrected count: the number of distinct
      facility identifiers in the index built from the regions. */
  function Root(country: Option<string>, rs: seq<Region>): (info: RootInfo)
    ensures info.country == country && info.totalRegions == ListRegions(rs).total
    ensures info.totalFacilities == |IdSet(Values(Index(rs)))|
  {
    TotalFacilitiesCountsIds(Index(rs));
    RootInfo(country, |rs|, TotalFacilities(Index(rs)))
  }

  /** The identifiers of the facilities `es`. */
  function FacilityIds(es: seq<(RawFacility, Region)>): set<string>
  {
    if es == [] then {} else FacilityIds(es[..|es| - 1]) + {es[|es| - 1].0.id}
  }

  lemma {:induction false} FacilityIdsMembers(es: seq<(RawFacility, Region)>)
    ensures forall id :: id in FacilityIds(es) <==> exists i :: 0 <= i < |es| && es[i].0.id == id
  {
    if es != [] {
      var p := es[..|es| - 1];
      FacilityIdsMembers(p);
      assert forall i :: 0 <= i < |p| ==> p[i] == es[i];
    }
  }

  /** Without collisions the index's records carry exactly the facilities'
      identifiers, one identifier per facility. */
  lemma {:induction false} IndexIds(es: seq<(RawFacility, Region)>)
    requires NoCollisions(es)
    ensures IdSet(Values(FlatIndex(es))) == FacilityIds(es)
    ensures |FacilityIds(es)| == |es|
  {
    if es != [] {
      var p := es[..|es| - 1];
      var x := es[|es| - 1];
      assert NoCollisions(p) by {
        forall a, b, key | 0 <= a < b < |p| && Claims(p[a].0, key) ensures !Claims(p[b].0, key) {
          assert p[a] == es[a] && p[b] == es[b];
        }
      }
      IndexIds(p);
      FacilityIdsMembers(p);
      assert x.0.id !in FacilityIds(p) by {
        forall i | 0 <= i < |p| ensures p[i].0.id != x.0.id {
          assert p[i] == es[i];
          assert !Claims(es[|es| - 1].0, p[i].0.id);
        }
      }
      NotClaimedBefore(es, x.0.id);
      if x.0.shortCode.Some? {
        NotClaimedBefore(es, x.0.shortCode.value);
      }
      IndexKeysDistinct(p);
      IndexOneIds(FlatIndex(p), x.0, x.1);
    }
  }

  /** Inserting a facility whose keys are new adds its identifier to the
      identifiers of the index's records. */
  lemma IndexOneIds(db: Dict<Facility>, f: RawFacility, r: Region)
    requires KeysDistinct(db) && !HasKey(db, f.id)
    requires f.shortCode.Some? ==> !HasKey(db, f.shortCode.value)
    ensures IdSet(Values(IndexOne(db, f, r))) == IdSet(Values(db)) + {f.id}
  {
    var rec := RecordOf(f, r);
    PutNewAppends(db, f.id, rec);
    var db1 := db + [(f.id, rec)];
    AppendValues(db, f.id, rec);
    IdSetSnoc(Values(db), rec);
    if f.shortCode.Some? {
      var sc := f.shortCode.value;
      if sc == f.id {
        PutKeepsKeysDistinct(db, f.id, rec);
        PutExistingInPlace(db1, |db|, rec);
        assert db1[|db| := (f.id, rec)] == db1;
      } else {
        assert !HasKey(db1, sc);
        PutNewAppends(db1, sc, rec);
        AppendValues(db1, sc, rec);
        IdSetSnoc(Values(db1), rec);
      }
    }
  }

  lemma AppendValues<V>(d: Dict<V>, k: string, v: V)
    ensures Values(d + [(k, v)]) == Values(d) + [v]
  {
  }

  /** Without collisions the corrected root counts every facility of the
      file once. */
  lemma RootCountsEveryFacility(country: Option<string>, rs: seq<Region>)
    requires NoCollisions(Flatten(rs))
    ensures Root(country, rs).totalFacilities == |Flatten(rs)|
  {
    IndexIds(Flatten(rs));
  }
}
