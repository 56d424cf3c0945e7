/**
 * The Illinois state legislators setup script: the check that both chamber
 * jurisdictions exist, the OpenStates fetch split into House and Senate,
 * and the upsert of one district and one entity per legislator.
 *
 * The session is the two tables the script reads and writes (`Session`);
 * the `uuid4()` values are parameters.
 */
module IllinoisLegislators {
  import opened Wrappers
  import opened PyJson
  import opened Models
  import OpenStatesSource

  /** `IL_HOUSE_ID`, e47ac10b-58cc-4372-a567-0e02b2c3d480. */
  const IlHouseId: Value := Uuid(0xe47ac10b_58cc_4372_a567_0e02b2c3d480)

  /** `IL_SENATE_ID`, f47ac10b-58cc-4372-a567-0e02b2c3d481. */
  const IlSenateId: Value := Uuid(0xf47ac10b_58cc_4372_a567_0e02b2c3d481)

  /** `verify_jurisdictions`: both ids when both jurisdictions exist, and `(None, None)` otherwise. */
  function VerifyJurisdictions(existing: set<Value>): (r: (Option<Value>, Option<Value>))
    ensures r.0.Some? <==> IlHouseId in existing && IlSenateId in existing
    ensures r.0.Some? <==> r.1.Some?
    ensures r.0.Some? ==> r == (Some(IlHouseId), Some(IlSenateId))
  {
    if IlHouseId !in existing then (None, None)
    else if IlSenateId !in existing then (None, None)
    else (Some(IlHouseId), Some(IlSenateId))
  }

  /**
   * `fetch_il_legislators`: the same page loop as the OpenStates data
   * source, legislators classified "lower" going to the House and "upper"
   * to the Senate; whatever stops the loop, the lists gathered so far are
   * returned.
   */
  function FetchIlLegislators(server: OpenStatesSource.Server, last: nat): (r: OpenStatesSource.Split)
    requires OpenStatesSource.StopsBy(server, 1, last, OpenStatesSource.NoLegislators)
    ensures OpenStatesSource.Classified(r)
  {
    OpenStatesSource.Pages(server, 1, last, OpenStatesSource.NoLegislators).0
  }

  // ---------------------------------------------------------------------
  // Records and the session

  datatype DistrictRow = DistrictRow(id: Value, name: string, code: string, jurisdictionId: Value)

  datatype Contact = Contact(email: Value, phone: Value, website: Value, address: Value)

  datatype EntityRow = EntityRow(
    id: Value, name: Value, title: string, entityType: string, jurisdictionId: Value, districtId: Value, contact: Contact)

  /** The rows of the `districts` and `entities` tables the script sees. */
  datatype Session = Session(districts: seq<DistrictRow>, entities: seq<EntityRow>)

  /** What differs between the House loop and the Senate loop. */
  datatype Chamber = Chamber(prefix: string, title: string, entityType: string, jurisdictionId: Value)

  function HouseChamber(jurisdictionId: Value): Chamber {
    Chamber("IL House District ", "State Representative", "state_representative", jurisdictionId)
  }

  function SenateChamber(jurisdictionId: Value): Chamber {
    Chamber("IL Senate District ", "State Senator", "state_senator", jurisdictionId)
  }

  /** The message `scalar_one_or_none` raises with when more than one row matches. */
  const MultipleRows := "Multiple rows were found when one or none was required"

  // ---------------------------------------------------------------------
  // Per-record derivation

  /** `rep.get("current_role", {}).get("district")`. */
  function DistrictNumber(rep: map<string, Value>): (r: Result<Value, Error>)
    ensures r.Ok? <==> Get(rep, "current_role", Obj(map[])).Obj?
    ensures r.Ok? ==> r.value == Get(Get(rep, "current_role", Obj(map[])).fields, "district", Null)
  {
    var role := Get(rep, "current_role", Obj(map[]));
    if role.Obj? then Ok(Get(role.fields, "district", Null)) else Err(AttributeError("get"))
  }

  /**
   * Iterating a value and calling `.get` on every element: a list of dicts,
   * or an empty string or dict, gives its dicts; an element that is not a
   * dict has no `.get`, and a value that cannot be iterated raises TypeError.
   */
  function Dicts(v: Value): (r: Result<seq<map<string, Value>>, Error>)
    ensures r.Ok? <==> Iterate(v).Some? && forall i :: 0 <= i < |Iterate(v).value| ==> Iterate(v).value[i].Obj?
    ensures r.Ok? ==> |r.value| == |Iterate(v).value| && forall i :: 0 <= i < |r.value| ==> Iterate(v).value[i] == Obj(r.value[i])
    ensures r.Ok? && !v.Arr? ==> r.value == []
    ensures r.Err? ==> r.error == (if Iterate(v).None? then TypeError("object is not iterable") else AttributeError("get"))
  {
    match Iterate(v)
    case None => Err(TypeError("object is not iterable"))
    case Some(items) =>
      if forall i :: 0 <= i < |items| ==> items[i].Obj? then
        Ok(seq(|items|, i requires 0 <= i < |items| && items[i].Obj? => items[i].fields))
      else Err(AttributeError("get"))
  }

  /** `office.get(key)` on an office that is a dict; anything else has no value here. */
  function Field(office: Value, key: string): Value {
    if office.Obj? then Get(office.fields, key, Null) else Null
  }

  /** The first truthy value of `key` among the offices, or `None`. */
  function FirstTruthy(offices: seq<Value>, key: string): (r: Value)
    ensures r != Null ==> exists i :: 0 <= i < |offices| && r == Field(offices[i], key) && Truthy(r)
    ensures r == Null <==> forall i :: 0 <= i < |offices| ==> !Truthy(Field(offices[i], key))
    ensures forall i :: 0 <= i < |offices| && Truthy(Field(offices[i], key)) ==>
      (forall j :: 0 <= j < i ==> !Truthy(Field(offices[j], key))) ==> r == Field(offices[i], key)
  {
    if |offices| == 0 then Null
    else if Truthy(Field(offices[0], key)) then Field(offices[0], key)
    else
      var r := FirstTruthy(offices[1..], key);
      assert forall i :: 1 <= i < |offices| ==> offices[1..][i - 1] == offices[i];
      r
  }

  /**
   * The offices loop from a given `(phone, address)` on. The test
   * `not phone and office.get("voice")` reads the office only while the
   * phone is falsy, and likewise for the address: an office that is not a
   * dict raises AttributeError only while one of the two is still missing.
   */
  function OfficeContact(offices: seq<Value>, phone: Value, address: Value): (r: Result<(Value, Value), Error>)
    ensures Truthy(phone) && Truthy(address) ==> r == Ok((phone, address))
    ensures r.Ok? && Truthy(phone) ==> r.value.0 == phone
    ensures r.Ok? && Truthy(address) ==> r.value.1 == address
    ensures r.Err? ==> r.error == AttributeError("get")
    ensures (forall i :: 0 <= i < |offices| ==> offices[i].Obj?) ==> r.Ok?
    ensures |offices| > 0 && !offices[0].Obj? && !(Truthy(phone) && Truthy(address)) ==> r == Err(AttributeError("get"))
    decreases |offices|
  {
    if |offices| == 0 then Ok((phone, address))
    else
      var o := offices[0];
      if !Truthy(phone) && !o.Obj? then Err(AttributeError("get"))
      else
        var phone' := if !Truthy(phone) && Truthy(Field(o, "voice")) then Field(o, "voice") else phone;
        if !Truthy(address) && !o.Obj? then Err(AttributeError("get"))
        else
          var address' := if !Truthy(address) && Truthy(Field(o, "address")) then Field(o, "address") else address;
          assert forall i :: 0 <= i < |offices| - 1 ==> offices[1..][i] == offices[i + 1];
          OfficeContact(offices[1..], phone', address')
  }

  /**
   * When every office is a dict, the loop ends with the first truthy voice
   * and the first truthy address (a value already held is kept).
   */
  lemma {:induction false} DictOfficesFirstTruthy(offices: seq<Value>, phone: Value, address: Value)
    requires forall i :: 0 <= i < |offices| ==> offices[i].Obj?
    requires (phone == Null || Truthy(phone)) && (address == Null || Truthy(address))
    ensures OfficeContact(offices, phone, address) ==
      Ok((if Truthy(phone) then phone else FirstTruthy(offices, "voice"),
          if Truthy(address) then address else FirstTruthy(offices, "address")))
    decreases |offices|
  {
    if |offices| > 0 {
      var o := offices[0];
      var phone' := if !Truthy(phone) && Truthy(Field(o, "voice")) then Field(o, "voice") else phone;
      var address' := if !Truthy(address) && Truthy(Field(o, "address")) then Field(o, "address") else address;
      assert forall i :: 0 <= i < |offices| - 1 ==> offices[1..][i] == offices[i + 1];
      DictOfficesFirstTruthy(offices[1..], phone', address');
    }
  }

  /** A link noted "homepage". */
  predicate Homepage(link: map<string, Value>) {
    Get(link, "note", Null) == Str("homepage")
  }

  /**
   * The links loop from a given `website` on: a homepage link always sets
   * the website to its url, any other link only while the website is
   * still falsy.
   */
  function LinkWebsite(links: seq<map<string, Value>>, website: Value): Value
    decreases |links|
  {
    if |links| == 0 then website
    else LinkWebsite(links[1..], if Homepage(links[0]) || !Truthy(website) then Get(links[0], "url", Null) else website)
  }

  /** With no homepage link, the website is the first truthy url, and the website already held when it is truthy. */
  lemma {:induction false} NoHomepageFirstUrl(links: seq<map<string, Value>>, website: Value, i: nat)
    requires forall k :: 0 <= k < |links| ==> !Homepage(links[k])
    requires !Truthy(website)
    requires i < |links| && Truthy(Get(links[i], "url", Null))
    requires forall k :: 0 <= k < i ==> !Truthy(Get(links[k], "url", Null))
    ensures LinkWebsite(links, website) == Get(links[i], "url", Null)
    decreases |links|
  {
    if i == 0 {
      KeepsTruthyWebsite(links[1..], Get(links[0], "url", Null));
    } else {
      assert forall k :: 0 <= k < |links| - 1 ==> links[1..][k] == links[k + 1];
      NoHomepageFirstUrl(links[1..], Get(links[0], "url", Null), i - 1);
    }
  }

  /** Without homepage links, a truthy website is never replaced. */
  lemma {:induction false} KeepsTruthyWebsite(links: seq<map<string, Value>>, website: Value)
    requires forall k :: 0 <= k < |links| ==> !Homepage(links[k])
    requires Truthy(website)
    ensures LinkWebsite(links, website) == website
    decreases |links|
  {
    if |links| > 0 {
      assert forall k :: 0 <= k < |links| - 1 ==> links[1..][k] == links[k + 1];
      KeepsTruthyWebsite(links[1..], website);
    }
  }

  /** The last homepage link decides the website when its url is truthy. */
  lemma {:induction false} LastHomepageWins(links: seq<map<string, Value>>, website: Value, h: nat)
    requires h < |links| && Homepage(links[h]) && Truthy(Get(links[h], "url", Null))
    requires forall k :: h < k < |links| ==> !Homepage(links[k])
    ensures LinkWebsite(links, website) == Get(links[h], "url", Null)
    decreases |links|
  {
    var next := if Homepage(links[0]) || !Truthy(website) then Get(links[0], "url", Null) else website;
    if h == 0 {
      assert forall k :: 0 <= k < |links| - 1 ==> links[1..][k] == links[k + 1];
      KeepsTruthyWebsite(links[1..], next);
    } else {
      assert forall k :: h - 1 < k < |links| - 1 ==> links[1..][k] == links[k + 1];
      LastHomepageWins(links[1..], next, h - 1);
    }
  }

  /**
   * The contact fields of one legislator: `email`; the phone and address
   * from the offices loop; the website from the links. The offices are
   * read before the links.
   */
  function ContactOf(rep: map<string, Value>): (r: Result<Contact, Error>)
    ensures var offices := Iterate(Get(rep, "offices", Arr([])));
      r.Ok? <==> offices.Some? && OfficeContact(offices.value, Null, Null).Ok? && Dicts(Get(rep, "links", Arr([]))).Ok?
    ensures r.Ok? ==> r.value.email == Get(rep, "email", Null)
    ensures r.Ok? ==> (r.value.phone, r.value.address) == OfficeContact(Iterate(Get(rep, "offices", Arr([]))).value, Null, Null).value
    ensures r.Ok? ==> r.value.website == LinkWebsite(Dicts(Get(rep, "links", Arr([]))).value, Null)
    ensures var offices := Iterate(Get(rep, "offices", Arr([])));
      offices.Some? && (forall i :: 0 <= i < |offices.value| ==> offices.value[i].Obj?) && r.Ok? ==>
        r.value.phone == FirstTruthy(offices.value, "voice") && r.value.address == FirstTruthy(offices.value, "address")
  {
    match Iterate(Get(rep, "offices", Arr([])))
    case None => Err(TypeError("object is not iterable"))
    case Some(offices) =>
      match OfficeContact(offices, Null, Null)
      case Err(e) => Err(e)
      case Ok((phone, address)) =>
        match Dicts(Get(rep, "links", Arr([])))
        case Err(e) => Err(e)
        case Ok(links) =>
          if forall i :: 0 <= i < |offices| ==> offices[i].Obj? then
            DictOfficesFirstTruthy(offices, Null, Null);
            Ok(Contact(Get(rep, "email", Null), phone, LinkWebsite(links, Null), address))
          else Ok(Contact(Get(rep, "email", Null), phone, LinkWebsite(links, Null), address))
  }

  // ---------------------------------------------------------------------
  // The upsert of one legislator

  /** The positions of the districts called `name` in the jurisdiction. */
  function DistrictMatches(ds: seq<DistrictRow>, name: string, jurisdictionId: Value): (r: seq<nat>)
    ensures forall k :: 0 <= k < |r| ==> r[k] < |ds| && ds[r[k]].name == name && ds[r[k]].jurisdictionId == jurisdictionId
    ensures forall i :: 0 <= i < |ds| && ds[i].name == name && ds[i].jurisdictionId == jurisdictionId ==> i in r
    decreases |ds|
  {
    if |ds| == 0 then []
    else
      var n := |ds| - 1;
      var prev := DistrictMatches(ds[..n], name, jurisdictionId);
      assert forall i :: 0 <= i < n ==> ds[..n][i] == ds[i];
      if ds[n].name == name && ds[n].jurisdictionId == jurisdictionId then prev + [n] else prev
  }

  /** The positions of the entities with the given name in the jurisdiction. */
  function EntityMatches(es: seq<EntityRow>, name: Value, jurisdictionId: Value): (r: seq<nat>)
    ensures forall k :: 0 <= k < |r| ==> r[k] < |es| && es[r[k]].name == name && es[r[k]].jurisdictionId == jurisdictionId
    ensures forall i :: 0 <= i < |es| && es[i].name == name && es[i].jurisdictionId == jurisdictionId ==> i in r
    decreases |es|
  {
    if |es| == 0 then []
    else
      var n := |es| - 1;
      var prev := EntityMatches(es[..n], name, jurisdictionId);
      assert forall i :: 0 <= i < n ==> es[..n][i] == es[i];
      if es[n].name == name && es[n].jurisdictionId == jurisdictionId then prev + [n] else prev
  }

  /** `f"{prefix}{district_num}"`. */
  function DistrictName(c: Chamber, number: Value): string {
    c.prefix + Show(number)
  }

  /**
   * The district of a legislator: the one row with its name in the
   * chamber's jurisdiction, or a new row with code `str(number)`.
   */
  function FindOrCreateDistrict(s: Session, c: Chamber, number: Value, freshId: Value): (r: Result<(Session, DistrictRow), Error>)
    ensures var m := DistrictMatches(s.districts, DistrictName(c, number), c.jurisdictionId);
      && (r.Err? <==> |m| > 1)
      && (r.Ok? && |m| == 1 ==> r.value == (s, s.districts[m[0]]))
      && (r.Ok? && |m| == 0 ==> r.value.1 == DistrictRow(freshId, DistrictName(c, number), Show(number), c.jurisdictionId)
                                 && r.value.0 == s.(districts := s.districts + [r.value.1]))
  {
    var name := DistrictName(c, number);
    var m := DistrictMatches(s.districts, name, c.jurisdictionId);
    if |m| > 1 then Err(Exception(MultipleRows))
    else if |m| == 1 then Ok((s, s.districts[m[0]]))
    else
      var d := DistrictRow(freshId, name, Show(number), c.jurisdictionId);
      Ok((s.(districts := s.districts + [d]), d))
  }

  /**
   * One iteration of a chamber loop. A legislator without a district number
   * is skipped. Otherwise its district is found or created; an entity with
   * the same name in the jurisdiction gets the chamber's title and the new
   * contact fields (its type and district stay as they were), and without
   * one a new entity is added. A legislator without a name matches no row
   * (`name == None` is `IS NULL`, and the column is NOT NULL), and the
   * entity created for it violates that constraint.
   */
  function UpsertLegislator(s: Session, c: Chamber, rep: Value, freshDistrictId: Value, freshEntityId: Value)
    : (r: Result<(Session, Option<EntityRow>), Error>)
    ensures !rep.Obj? ==> r.Err?
    ensures rep.Obj? && DistrictNumber(rep.fields).Ok? && !Truthy(DistrictNumber(rep.fields).value) ==> r == Ok((s, None))
    ensures r.Ok? && r.value.1.Some? ==> rep.Obj? && DistrictNumber(rep.fields).Ok? && Truthy(DistrictNumber(rep.fields).value)
    ensures r.Ok? && r.value.1.Some? ==>
      var e := r.value.1.value;
      && e.title == c.title && e.name == Get(rep.fields, "name", Null) && e.jurisdictionId == c.jurisdictionId
      && ContactOf(rep.fields) == Ok(e.contact)
      && e in r.value.0.entities && e.name != Null
    ensures r.Err? && r.error.IntegrityError? ==> rep.Obj? && Get(rep.fields, "name", Null) == Null
    ensures r.Ok? ==> |s.districts| <= |r.value.0.districts| <= |s.districts| + 1 && r.value.0.districts[..|s.districts|] == s.districts
    ensures r.Ok? ==> |r.value.0.entities| == |s.entities| || (r.value.1.Some? && r.value.0.entities == s.entities + [r.value.1.value])
  {
    if !rep.Obj? then Err(AttributeError("get"))
    else
      var number :- DistrictNumber(rep.fields);
      if !Truthy(number) then Ok((s, None))
      else
        var (s1, district) :- FindOrCreateDistrict(s, c, number, freshDistrictId);
        var contact :- ContactOf(rep.fields);
        var name := Get(rep.fields, "name", Null);
        if name == Null then Err(IntegrityError("name"))
        else
        var m := EntityMatches(s1.entities, name, c.jurisdictionId);
        if |m| > 1 then Err(Exception(MultipleRows))
        else if |m| == 1 then
          var e := s1.entities[m[0]].(title := c.title, contact := contact);
          assert s1.entities[m[0] := e][m[0]] == e;
          Ok((s1.(entities := s1.entities[m[0] := e]), Some(e)))
        else
          var e := EntityRow(freshEntityId, name, c.title, c.entityType, c.jurisdictionId, district.id, contact);
          Ok((s1.(entities := s1.entities + [e]), Some(e)))
  }

  /** A new entity is linked to the district named after its number, in the chamber's jurisdiction. */
  lemma NewEntityLinkedToDistrict(s: Session, c: Chamber, rep: Value, freshDistrictId: Value, freshEntityId: Value)
    requires UpsertLegislator(s, c, rep, freshDistrictId, freshEntityId).Ok?
    requires var r := UpsertLegislator(s, c, rep, freshDistrictId, freshEntityId).value;
      |r.0.entities| == |s.entities| + 1
    ensures var r := UpsertLegislator(s, c, rep, freshDistrictId, freshEntityId).value;
      var e := r.0.entities[|s.entities|];
      && r.1 == Some(e) && e.id == freshEntityId && e.entityType == c.entityType
      && exists d :: d in r.0.districts && d.id == e.districtId && d.jurisdictionId == c.jurisdictionId &&
                     d.name == DistrictName(c, DistrictNumber(rep.fields).value)
  {
    var number := DistrictNumber(rep.fields).value;
    var (s1, district) := FindOrCreateDistrict(s, c, number, freshDistrictId).value;
    assert s1.entities == s.entities;
    var contact := ContactOf(rep.fields).value;
    var name := Get(rep.fields, "name", Null);
    var em := EntityMatches(s1.entities, name, c.jurisdictionId);
    assert |em| == 0;
    var e := EntityRow(freshEntityId, name, c.title, c.entityType, c.jurisdictionId, district.id, contact);
    assert UpsertLegislator(s, c, rep, freshDistrictId, freshEntityId) == Ok((s1.(entities := s1.entities + [e]), Some(e)));
    var m := DistrictMatches(s.districts, DistrictName(c, number), c.jurisdictionId);
    if |m| == 1 {
      assert s.districts[m[0]] in s1.districts;
    } else {
      assert s1.districts[|s.districts|] == district;
    }
  }

  /**
   * A legislator with a district number but no name fails the whole run
   * once its district and contact fields have been read.
   */
  lemma NamelessLegislatorFails(s: Session, c: Chamber, rep: Value, freshDistrictId: Value, freshEntityId: Value)
    requires rep.Obj? && Get(rep.fields, "name", Null) == Null
    requires DistrictNumber(rep.fields).Ok? && Truthy(DistrictNumber(rep.fields).value)
    requires |DistrictMatches(s.districts, DistrictName(c, DistrictNumber(rep.fields).value), c.jurisdictionId)| <= 1
    requires ContactOf(rep.fields).Ok?
    ensures UpsertLegislator(s, c, rep, freshDistrictId, freshEntityId) == Err(IntegrityError("name"))
  {
    var number := DistrictNumber(rep.fields).value;
    assert FindOrCreateDistrict(s, c, number, freshDistrictId).Ok?;
  }

  /** An entity that already exists keeps its id, type and district, and no entity is added. */
  lemma ExistingEntityUpdatedInPlace(s: Session, c: Chamber, rep: Value, freshDistrictId: Value, freshEntityId: Value, k: nat)
    requires rep.Obj? && k < |s.entities|
    requires s.entities[k].name == Get(rep.fields, "name", Null) && s.entities[k].jurisdictionId == c.jurisdictionId
    requires forall j :: 0 <= j < |s.entities| && j != k ==>
      !(s.entities[j].name == Get(rep.fields, "name", Null) && s.entities[j].jurisdictionId == c.jurisdictionId)
    requires UpsertLegislator(s, c, rep, freshDistrictId, freshEntityId).Ok?
    requires UpsertLegislator(s, c, rep, freshDistrictId, freshEntityId).value.1.Some?
    ensures var r := UpsertLegislator(s, c, rep, freshDistrictId, freshEntityId).value;
      && |r.0.entities| == |s.entities|
      && r.0.entities[k] == s.entities[k].(title := c.title, contact := r.1.value.contact)
      && (forall j :: 0 <= j < |s.entities| && j != k ==> r.0.entities[j] == s.entities[j])
  {
    var m := EntityMatches(s.entities, Get(rep.fields, "name", Null), c.jurisdictionId);
    assert k in m;
    assert forall i :: 0 <= i < |m| ==> m[i] == k;
  }

  // ---------------------------------------------------------------------
  // create_legislator_entities

  /** The ids `uuid4()` gives the district and the entity of the `i`-th legislator, should they be created. */
  type FreshIds = nat -> (Value, Value)

  /** A legislator the loop would skip: a dict whose role has a falsy district number. */
  predicate Skipped(rep: Value) {
    rep.Obj? && DistrictNumber(rep.fields).Ok? && !Truthy(DistrictNumber(rep.fields).value)
  }

  /** Every entity has a name and carries the chamber's title and jurisdiction. */
  predicate OfChamber(es: seq<EntityRow>, c: Chamber) {
    forall k :: 0 <= k < |es| ==> es[k].name != Null && es[k].title == c.title && es[k].jurisdictionId == c.jurisdictionId
  }

  lemma OfChamberCons(c: Chamber, e: EntityRow, rest: seq<EntityRow>)
    requires e.name != Null && e.title == c.title && e.jurisdictionId == c.jurisdictionId && OfChamber(rest, c)
    ensures OfChamber([e] + rest, c)
  {
    forall k | 1 <= k < |rest| + 1
      ensures ([e] + rest)[k] == rest[k - 1]
    {
    }
  }

  /** The loop over one chamber's legislators from position `offset` of the id stream on. */
  function UpsertAll(s: Session, c: Chamber, reps: seq<Value>, ids: FreshIds, offset: nat)
    : (r: Result<(Session, seq<EntityRow>), Error>)
    ensures r.Ok? ==> |r.value.1| <= |reps|
    ensures r.Ok? ==> OfChamber(r.value.1, c)
    ensures r.Ok? ==> |s.districts| <= |r.value.0.districts| && r.value.0.districts[..|s.districts|] == s.districts
    decreases |reps|
  {
    if |reps| == 0 then Ok((s, []))
    else
      var (s1, e) :- UpsertLegislator(s, c, reps[0], ids(offset).0, ids(offset).1);
      var (s2, rest) :- UpsertAll(s1, c, reps[1..], ids, offset + 1);
      assert s2.districts[..|s.districts|] == s2.districts[..|s1.districts|][..|s.districts|];
      if e.Some? then
        OfChamberCons(c, e.value, rest);
        Ok((s2, [e.value] + rest))
      else Ok((s2, rest))
  }

  /** A chamber whose legislators all have a falsy district number changes nothing and yields no entity. */
  lemma {:induction false} AllSkippedChangesNothing(s: Session, c: Chamber, reps: seq<Value>, ids: FreshIds, offset: nat)
    requires forall i :: 0 <= i < |reps| ==> Skipped(reps[i])
    ensures UpsertAll(s, c, reps, ids, offset) == Ok((s, []))
    decreases |reps|
  {
    if |reps| > 0 {
      assert Skipped(reps[0]);
      assert UpsertLegislator(s, c, reps[0], ids(offset).0, ids(offset).1) == Ok((s, None));
      assert forall i :: 0 <= i < |reps| - 1 ==> reps[1..][i] == reps[i + 1];
      AllSkippedChangesNothing(s, c, reps[1..], ids, offset + 1);
    }
  }

  /**
   * The House loop, then the Senate loop. Any exception discards the
   * session (the database error is rolled back and re-raised, and the
   * others propagate); otherwise the session is committed and the
   * processed entities returned, the representatives first.
   */
  function CreateLegislatorEntities(s: Session, legislators: OpenStatesSource.Split, houseId: Value, senateId: Value, ids: FreshIds)
    : (r: Result<(Session, seq<EntityRow>), Error>)
    ensures r.Ok? ==> |r.value.1| <= |legislators.house| + |legislators.senate|
    ensures r.Ok? ==> forall k :: 0 <= k < |r.value.1| ==>
      && r.value.1[k].name != Null
      && ((r.value.1[k].title == "State Representative" && r.value.1[k].jurisdictionId == houseId) ||
          (r.value.1[k].title == "State Senator" && r.value.1[k].jurisdictionId == senateId))
    ensures r.Ok? ==> |s.districts| <= |r.value.0.districts| && r.value.0.districts[..|s.districts|] == s.districts
  {
    var (s1, house) :- UpsertAll(s, HouseChamber(houseId), legislators.house, ids, 0);
    var (s2, senate) :- UpsertAll(s1, SenateChamber(senateId), legislators.senate, ids, |legislators.house|);
    assert s2.districts[..|s.districts|] == s2.districts[..|s1.districts|][..|s.districts|];
    Ok((s2, house + senate))
  }
}
