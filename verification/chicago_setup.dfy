/**
 * The Chicago City Council setup script: the alderperson entities and
 * ward districts derived from the city's aldermen records, and the random
 * status records seeded for every (alderperson, project) pair.
 *
 * The session is left out: the script's output is the list of rows it
 * adds. The `uuid4()` values and `random.choice` draws are parameters.
 */
module ChicagoSetup {
  import opened Wrappers
  import opened PyJson
  import opened Models

  // ---------------------------------------------------------------------
  // Per-record derivation

  /** The contact fields of one alderperson entity. */
  datatype Contact = Contact(email: Value, phone: Value, website: Value, address: string)

  /** `f"{street}, Chicago, IL {zipcode}"`. */
  function ChicagoAddress(street: Value, zipcode: Value): string {
    Show(street) + ", Chicago, IL " + Show(zipcode)
  }

  /** The ward phone unless it is empty, then the city-hall phone. */
  function PhoneOf(item: map<string, Value>): (r: Value)
    ensures Truthy(Get(item, "ward_phone", Null)) ==> r == item["ward_phone"]
    ensures !Truthy(Get(item, "ward_phone", Null)) ==> r == Get(item, "city_hall_phone", Str(""))
  {
    var wardPhone := Get(item, "ward_phone", Str(""));
    if Truthy(wardPhone) then wardPhone else Get(item, "city_hall_phone", Str(""))
  }

  /** The `url` of a `website` dict, and `None` when the website is anything else. */
  function WebsiteOf(item: map<string, Value>): (r: Value)
    ensures r != Null ==> "website" in item && item["website"].Obj? && "url" in item["website"].fields
  {
    if "website" in item && item["website"].Obj? then Get(item["website"].fields, "url", Null) else Null
  }

  /** The ward address with its zipcode unless it is empty, then the city-hall address and zipcode. */
  function AddressOf(item: map<string, Value>): (r: string)
    ensures Truthy(Get(item, "address", Null)) ==> r == ChicagoAddress(item["address"], Get(item, "zipcode", Str("")))
    ensures !Truthy(Get(item, "address", Null)) ==>
      r == ChicagoAddress(Get(item, "city_hall_address", Str("")), Get(item, "city_hall_zipcode", Str("")))
  {
    var wardAddress := Get(item, "address", Str(""));
    if Truthy(wardAddress) then ChicagoAddress(wardAddress, Get(item, "zipcode", Str("")))
    else ChicagoAddress(Get(item, "city_hall_address", Str("")), Get(item, "city_hall_zipcode", Str("")))
  }

  /** The contact fields the script stores with an alderperson. */
  function ContactOf(item: map<string, Value>): Contact {
    Contact(Get(item, "email", Str("")), PhoneOf(item), WebsiteOf(item), AddressOf(item))
  }

  /** `f"Ward {ward}"`: the district an alderperson record belongs to. */
  function WardName(item: map<string, Value>): string {
    "Ward " + Show(Get(item, "ward", Str("")))
  }

  // ---------------------------------------------------------------------
  // create_aldermen_entities

  datatype NewDistrict = NewDistrict(id: Value, name: string, code: Value, jurisdictionId: Value)

  datatype NewAlderperson = NewAlderperson(
    id: Value, name: Value, title: string, entityType: string, districtId: Value, contact: Contact, jurisdictionId: Value)

  /** Every row is a dict (anything else makes the script raise at `.get`). */
  predicate AllDicts(items: seq<Value>) {
    forall i :: 0 <= i < |items| ==> items[i].Obj?
  }

  /**
   * Some dict row holds `"alderman": null`. Its entity gets a NULL name,
   * which the NOT NULL `name` column refuses when the script commits.
   */
  predicate Nameless(items: seq<Value>) {
    exists i :: 0 <= i < |items| && items[i].Obj? && Get(items[i].fields, "alderman", Str("")) == Null
  }

  /** The ward name of every row, in order. */
  function WardNames(items: seq<Value>): (r: seq<string>)
    requires AllDicts(items)
    ensures |r| == |items| && forall i :: 0 <= i < |items| ==> r[i] == WardName(items[i].fields)
  {
    seq(|items|, i requires 0 <= i < |items| && items[i].Obj? => WardName(items[i].fields))
  }

  /** The names seen, each once, in the order they first appear. */
  function Dedupe(names: seq<string>): (r: seq<string>)
    ensures forall x :: x in r <==> x in names
    ensures forall a, b :: 0 <= a < b < |r| ==> r[a] != r[b]
  {
    if |names| == 0 then []
    else
      var n := |names| - 1;
      var prev := Dedupe(names[..n]);
      assert names == names[..n] + [names[n]];
      if names[n] in prev then prev else prev + [names[n]]
  }

  /** The position of `x` in `s`. */
  function IndexOf(s: seq<string>, x: string): (k: nat)
    requires x in s
    ensures k < |s| && s[k] == x
  {
    if s[0] == x then 0 else 1 + IndexOf(s[1..], x)
  }

  /** The `ward` value of the first row whose ward name is `name`: the code its district is created with. */
  function WardCode(items: seq<Value>, name: string): (r: Value)
    requires AllDicts(items)
    ensures (exists i :: 0 <= i < |items| && WardName(items[i].fields) == name) ==>
      exists i :: 0 <= i < |items| && WardName(items[i].fields) == name && r == Get(items[i].fields, "ward", Str(""))
  {
    if |items| == 0 then Str("")
    else if WardName(items[0].fields) == name then Get(items[0].fields, "ward", Str(""))
    else
      var r := WardCode(items[1..], name);
      assert forall i :: 1 <= i < |items| ==> items[1..][i - 1] == items[i];
      r
  }

  /** No two districts share a name. */
  predicate DistinctNames(ds: seq<NewDistrict>) {
    forall a, b :: 0 <= a < b < |ds| ==> ds[a].name != ds[b].name
  }

  /** The entity row `i` gives, linked to the district with the given id. */
  function AlderpersonOf(item: map<string, Value>, id: Value, districtId: Value, jurisdictionId: Value): NewAlderperson {
    NewAlderperson(id, Get(item, "alderman", Str("")), "Alderperson", "alderman", districtId, ContactOf(item), jurisdictionId)
  }

  /** Some record's ward is called `name`. */
  predicate FromSomeRecord(items: seq<Value>, name: string) {
    exists i :: 0 <= i < |items| && items[i].Obj? && name == WardName(items[i].fields)
  }

  /** The districts the loop creates: one per distinct ward name, numbered in order of creation. */
  function Districts(items: seq<Value>, jurisdictionId: Value, districtIds: nat -> Value): (ds: seq<NewDistrict>)
    requires AllDicts(items)
    ensures DistinctNames(ds)
    ensures forall k :: 0 <= k < |ds| ==> ds[k].jurisdictionId == jurisdictionId && ds[k].id == districtIds(k)
    ensures forall k :: 0 <= k < |ds| ==> FromSomeRecord(items, ds[k].name)
  {
    var names := WardNames(items);
    var wards := Dedupe(names);
    var ds := seq(|wards|, k requires 0 <= k < |wards| =>
      NewDistrict(districtIds(k), wards[k], WardCode(items, wards[k]), jurisdictionId));
    assert forall k :: 0 <= k < |ds| ==> FromSomeRecord(items, ds[k].name) by {
      forall k | 0 <= k < |ds|
        ensures FromSomeRecord(items, ds[k].name)
      {
        assert wards[k] in names;
        var i :| 0 <= i < |names| && names[i] == wards[k];
        assert items[i].Obj? && ds[k].name == WardName(items[i].fields);
      }
    }
    ds
  }

  /**
   * The loop over the records: one entity per record, and one district per
   * distinct ward name, created the first time the name is seen and reused
   * after that; `districtIds(k)` is the id the `k`-th new district gets.
   * A record that is not a dict raises inside the loop; a record whose
   * `alderman` is null gets through the loop and fails the commit.
   */
  function CreateAldermen(items: seq<Value>, jurisdictionId: Value, districtIds: nat -> Value, entityIds: nat -> Value)
    : (r: Result<(seq<NewDistrict>, seq<NewAlderperson>), Error>)
    ensures r.Ok? <==> AllDicts(items) && !Nameless(items)
    ensures !AllDicts(items) ==> r == Err(AttributeError("get"))
    ensures AllDicts(items) && Nameless(items) ==> r == Err(IntegrityError("name"))
    ensures r.Ok? ==> forall i :: 0 <= i < |r.value.1| ==> r.value.1[i].name != Null
    ensures r.Ok? ==> |r.value.1| == |items|
    ensures r.Ok? ==> forall i :: 0 <= i < |items| ==>
      r.value.1[i] == AlderpersonOf(items[i].fields, entityIds(i), r.value.1[i].districtId, jurisdictionId)
    ensures r.Ok? ==> r.value.0 == Districts(items, jurisdictionId, districtIds)
  {
    if !AllDicts(items) then Err(AttributeError("get"))
    else if Nameless(items) then Err(IntegrityError("name"))
    else
      var wards := Dedupe(WardNames(items));
      var es := seq(|items|, i requires 0 <= i < |items| && items[i].Obj? =>
        AlderpersonOf(items[i].fields, entityIds(i), districtIds(IndexOf(wards, WardNames(items)[i])), jurisdictionId));
      Ok((Districts(items, jurisdictionId, districtIds), es))
  }

  /** A record `{"alderman": null, ...}` anywhere in a list of dicts makes the whole commit fail, so nothing is created. */
  lemma NamelessAldermanFails(items: seq<Value>, jurisdictionId: Value, districtIds: nat -> Value, entityIds: nat -> Value, i: nat)
    requires AllDicts(items) && i < |items|
    requires "alderman" in items[i].fields && items[i].fields["alderman"] == Null
    ensures CreateAldermen(items, jurisdictionId, districtIds, entityIds) == Err(IntegrityError("name"))
  {
    assert Get(items[i].fields, "alderman", Str("")) == Null;
  }

  /**
   * Every entity is linked to the district named after its ward, so two
   * records of the same ward share a district, and every ward name of the
   * records has a district.
   */
  lemma AldermenLinkedToWards(items: seq<Value>, jurisdictionId: Value, districtIds: nat -> Value, entityIds: nat -> Value, i: nat)
    requires AllDicts(items) && !Nameless(items) && i < |items|
    ensures var r := CreateAldermen(items, jurisdictionId, districtIds, entityIds).value;
      exists k :: 0 <= k < |r.0| && r.0[k].name == WardName(items[i].fields) && r.1[i].districtId == r.0[k].id
  {
    var wards := Dedupe(WardNames(items));
    var r := CreateAldermen(items, jurisdictionId, districtIds, entityIds).value;
    assert WardNames(items)[i] in WardNames(items);
    var k := IndexOf(wards, WardNames(items)[i]);
    assert r.0[k].name == wards[k];
  }

  /** Two records of the same ward get the same district. */
  lemma SameWardSameDistrict(items: seq<Value>, jurisdictionId: Value, districtIds: nat -> Value, entityIds: nat -> Value, i: nat, j: nat)
    requires AllDicts(items) && !Nameless(items) && i < |items| && j < |items|
    requires WardName(items[i].fields) == WardName(items[j].fields)
    ensures var r := CreateAldermen(items, jurisdictionId, districtIds, entityIds).value;
      r.1[i].districtId == r.1[j].districtId
  {
    var r := CreateAldermen(items, jurisdictionId, districtIds, entityIds).value;
    AldermenLinkedToWards(items, jurisdictionId, districtIds, entityIds, i);
    AldermenLinkedToWards(items, jurisdictionId, districtIds, entityIds, j);
  }

  // ---------------------------------------------------------------------
  // create_random_status_records

  /** `status_options`. */
  const StatusOptions: seq<string> := ["solid_approval", "leaning_approval", "neutral", "leaning_disapproval", "solid_disapproval"]

  /** A project as the script sees it: its id and title. */
  datatype ProjectRef = ProjectRef(id: Value, title: string)

  /**
   * An `EntityStatusRecord` the script adds (`updated_by` "admin"): the drawn
   * status and the project title determine the stored status and notes.
   */
  datatype SeedRecord = SeedRecord(entityId: Value, projectId: Value, draw: EntityStatus, projectTitle: string)

  /** The notes written for a drawn status. */
  function Notes(status: EntityStatus, title: string): string {
    match status
    case SolidApproval => "Strongly supports the " + title + " initiative and has expressed willingness to advocate for it."
    case LeaningApproval => "Generally supportive of " + title + " but has some questions about implementation details."
    case Neutral => "Has not taken a clear position on " + title + " and has requested more information."
    case LeaningDisapproval => "Has expressed some concerns about " + title + " and its potential impacts."
    case SolidDisapproval => "Opposes the " + title + " initiative and has publicly stated concerns."
  }

  /** The `status` column of a record. */
  function StatusText(r: SeedRecord): string {
    EntityStatusValue(r.draw)
  }

  /** The `notes` column of a record. */
  function NotesText(r: SeedRecord): string {
    Notes(r.draw, r.projectTitle)
  }

  /** The record for entity `e` and project `p` with the `k`-th random draw. */
  function SeedRecordOf(e: Value, p: ProjectRef, draw: EntityStatus): SeedRecord {
    SeedRecord(e, p.id, draw, p.title)
  }

  /** Every status the script writes is one of its five options, and each option can be drawn. */
  lemma DrawnStatusIsAnOption(r: SeedRecord)
    ensures StatusText(r) in StatusOptions
  {
    match r.draw
    case SolidApproval => assert StatusOptions[0] == "solid_approval";
    case LeaningApproval => assert StatusOptions[1] == "leaning_approval";
    case Neutral => assert StatusOptions[2] == "neutral";
    case LeaningDisapproval => assert StatusOptions[3] == "leaning_disapproval";
    case SolidDisapproval => assert StatusOptions[4] == "solid_disapproval";
  }

  /** Where the block of entity `i` starts: `i` blocks of `p` records, that is `i * p` (`OffsetIsProduct`). */
  function Offset(i: nat, p: nat): nat {
    if i == 0 then 0 else Offset(i - 1, p) + p
  }

  lemma {:induction false} OffsetIsProduct(i: nat, p: nat)
    ensures Offset(i, p) == i * p
  {
    if i > 0 {
      OffsetIsProduct(i - 1, p);
      assert (i - 1) * p + p == i * p;
    }
  }

  /** An earlier entity's block ends no later than a later entity's block starts. */
  lemma {:induction false} OffsetMonotone(a: nat, i: nat, p: nat)
    requires a < i
    ensures Offset(a, p) + p <= Offset(i, p)
    decreases i
  {
    if a < i - 1 {
      OffsetMonotone(a, i - 1, p);
    }
  }

  /** Record `Offset(i, |projects|) + j` exists and pairs entity `i` with project `j`, using the draw of its own position. */
  predicate PairAt(records: seq<SeedRecord>, entityIds: seq<Value>, projects: seq<ProjectRef>, draws: nat -> EntityStatus, i: nat, j: nat)
    requires i < |entityIds| && j < |projects|
  {
    var k := Offset(i, |projects|) + j;
    k < |records| && records[k] == SeedRecordOf(entityIds[i], projects[j], draws(k))
  }

  /** In the script's own terms: entity `i` with project `j` is record `i * |projects| + j`. */
  lemma PairAtIndex(records: seq<SeedRecord>, entityIds: seq<Value>, projects: seq<ProjectRef>, draws: nat -> EntityStatus, i: nat, j: nat)
    requires i < |entityIds| && j < |projects|
    requires PairAt(records, entityIds, projects, draws, i, j)
    ensures i * |projects| + j < |records|
    ensures records[i * |projects| + j] == SeedRecordOf(entityIds[i], projects[j], draws(i * |projects| + j))
  {
    OffsetIsProduct(i, |projects|);
  }

  /** The inner loop: the records of one entity, one per project, appended after `before`. */
  method SeedEntity(before: seq<SeedRecord>, e: Value, projects: seq<ProjectRef>, draws: nat -> EntityStatus)
    returns (records: seq<SeedRecord>)
    ensures |records| == |before| + |projects| && records[..|before|] == before
    ensures forall b :: 0 <= b < |projects| ==> records[|before| + b] == SeedRecordOf(e, projects[b], draws(|before| + b))
  {
    records := before;
    var j := 0;
    while j < |projects|
      invariant 0 <= j <= |projects|
      invariant |records| == |before| + j && records[..|before|] == before
      invariant forall b :: 0 <= b < j ==> records[|before| + b] == SeedRecordOf(e, projects[b], draws(|before| + b))
    {
      var draw := draws(|records|);
      records := records + [SeedRecordOf(e, projects[j], draw)];
      j := j + 1;
    }
  }

  /**
   * The nested loop: one record per (entity, project) pair, entity-major,
   * the `k`-th record using the `k`-th draw of `random.choice`.
   */
  method CreateRandomStatusRecords(entityIds: seq<Value>, projects: seq<ProjectRef>, draws: nat -> EntityStatus)
    returns (records: seq<SeedRecord>)
    ensures |records| == |entityIds| * |projects|
    ensures forall i, j :: 0 <= i < |entityIds| && 0 <= j < |projects| ==> PairAt(records, entityIds, projects, draws, i, j)
  {
    var p := |projects|;
    records := [];
    var i := 0;
    while i < |entityIds|
      invariant 0 <= i <= |entityIds|
      invariant |records| == Offset(i, p)
      invariant forall a, b :: 0 <= a < i && 0 <= b < p ==> PairAt(records, entityIds, projects, draws, a, b)
    {
      var before := records;
      records := SeedEntity(records, entityIds[i], projects, draws);
      forall a, b | 0 <= a < i + 1 && 0 <= b < p
        ensures PairAt(records, entityIds, projects, draws, a, b)
      {
        if a < i {
          OffsetMonotone(a, i, p);
          assert PairAt(before, entityIds, projects, draws, a, b);
          assert records[Offset(a, p) + b] == before[Offset(a, p) + b];
        }
      }
      i := i + 1;
    }
    OffsetIsProduct(|entityIds|, p);
  }
}

/**
 * The Chicago setup script against the Chicago location configuration:
 * where the script and the entity importer derive the same contact fields.
 */
module ChicagoSetupAgreement {
  import opened Wrappers
  import opened PyJson
  import EntityImporter
  import Locations
  import opened ChicagoSetup

  /** The script's website rule agrees with the importer's `website.url` path in the Chicago location configuration. */
  lemma WebsiteAgreesWithImporter(item: map<string, Value>)
    ensures EntityImporter.ExtractValue(Obj(item), Locations.ChicagoWebsite) == Ok(WebsiteOf(item))
  {
    var site := Get(item, "website", Null);
    assert WebsiteOf(item) == (if site.Obj? && Truthy(site) then Get(site.fields, "url", Null) else Null);
    Locations.ChicagoWebsiteIsNested(Obj(item));
  }

  /**
   * The script's phone rule agrees with the importer's fallback list
   * `["ward_phone", "city_hall_phone"]` whenever one of the two phones is
   * non-empty; with both empty the script stores the city-hall value and
   * the importer stores `None`.
   */
  lemma PhoneAgreesWithImporter(item: map<string, Value>)
    requires Truthy(Get(item, "ward_phone", Null)) || Truthy(Get(item, "city_hall_phone", Null))
    ensures EntityImporter.ExtractValue(Obj(item), Locations.ChicagoPhone) == Ok(PhoneOf(item))
  {
    Locations.ChicagoPhoneFallback(Obj(item));
  }
}
