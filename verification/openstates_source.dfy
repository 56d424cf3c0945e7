/**
 * The OpenStates legislators data source: construction, the paginated
 * `fetch_data` that sorts legislators into house and senate and caches the
 * outcome, `fetch_by_location` and the source description.
 *
 * HTTP is replaced by a server: a function from page number to the reply
 * the people endpoint gives for that page.
 */
module OpenStatesSource {
  import opened Wrappers
  import opened PyJson
  import opened Models

  const DefaultBaseUrl := "https://v3.openstates.org"
  const DefaultIncludeFields: seq<string> := ["other_names", "other_identifiers", "links", "sources", "offices"]
  const IllinoisJurisdiction := "ocd-jurisdiction/country:us/state:il/government"

  /** A data source; `cache` is `_cached_data`. */
  datatype Source = Source(
    apiKey: string, stateCode: string, baseUrl: string, peopleEndpoint: string, geoEndpoint: string,
    includeFields: seq<string>, jurisdictionId: string, cache: Option<Value>)

  /** The constructor, with the OCD jurisdiction id a subclass supplies. */
  function NewSource(apiKey: string, stateCode: string, baseUrl: string, includeFields: Option<seq<string>>, jurisdictionId: string)
    : (r: Source)
    ensures r.stateCode == Lower(stateCode)
    ensures r.peopleEndpoint == baseUrl + "/people" && r.geoEndpoint == baseUrl + "/people.geo"
    ensures r.includeFields == if includeFields.Some? && |includeFields.value| > 0 then includeFields.value else DefaultIncludeFields
    ensures r.cache.None?
  {
    Source(apiKey, Lower(stateCode), baseUrl, baseUrl + "/people", baseUrl + "/people.geo",
           if includeFields.Some? && |includeFields.value| > 0 then includeFields.value else DefaultIncludeFields,
           jurisdictionId, None)
  }

  /** `IllinoisLegislatorsDataSource`: state "il" and the Illinois OCD jurisdiction. */
  function NewIllinoisSource(apiKey: string, baseUrl: string, includeFields: Option<seq<string>>): (r: Source)
    ensures r.stateCode == "il" && r.jurisdictionId == IllinoisJurisdiction
    ensures r.peopleEndpoint == baseUrl + "/people"
    ensures r.cache.None?
  {
    NewSource(apiKey, "il", baseUrl, includeFields, IllinoisJurisdiction)
  }

  // ---------------------------------------------------------------------
  // Sorting legislators

  datatype Chamber = House | Senate

  /**
   * `legislator.get("current_role", {}).get("org_classification")`: "lower"
   * is the house, "upper" the senate, anything else neither. A legislator
   * or role that is not a dict raises.
   */
  function ChamberOf(legislator: Value): (r: Result<Option<Chamber>, Error>)
    ensures r.Ok? <==> legislator.Obj? && Get(legislator.fields, "current_role", Obj(map[])).Obj?
    ensures r == Ok(Some(House)) <==> r.Ok? && Get(Get(legislator.fields, "current_role", Obj(map[])).fields, "org_classification", Null) == Str("lower")
    ensures r == Ok(Some(Senate)) <==> r.Ok? && Get(Get(legislator.fields, "current_role", Obj(map[])).fields, "org_classification", Null) == Str("upper")
  {
    if !legislator.Obj? then Err(AttributeError("get"))
    else
      var role := Get(legislator.fields, "current_role", Obj(map[]));
      if !role.Obj? then Err(AttributeError("get"))
      else
        var oc := Get(role.fields, "org_classification", Null);
        if oc == Str("lower") then Ok(Some(House))
        else if oc == Str("upper") then Ok(Some(Senate))
        else Ok(None)
  }

  /** `{"house": [...], "senate": [...]}` as it fills up. */
  datatype Split = Split(house: seq<Value>, senate: seq<Value>)

  const NoLegislators := Split([], [])

  /** Every house entry was classified "lower" and every senate entry "upper". */
  predicate Classified(acc: Split) {
    && (forall i :: 0 <= i < |acc.house| ==> ChamberOf(acc.house[i]) == Ok(Some(House)))
    && (forall i :: 0 <= i < |acc.senate| ==> ChamberOf(acc.senate[i]) == Ok(Some(Senate)))
  }

  /**
   * The loop over one page's results: each legislator goes to its chamber
   * or is dropped, in order, until one raises; what was appended before
   * that stays.
   */
  function SortPage(acc: Split, items: seq<Value>): (r: (Split, Option<Error>))
    ensures Classified(acc) ==> Classified(r.0)
    ensures |acc.house| <= |r.0.house| && r.0.house[..|acc.house|] == acc.house
    ensures |acc.senate| <= |r.0.senate| && r.0.senate[..|acc.senate|] == acc.senate
    ensures r.1.None? ==> forall i :: 0 <= i < |items| ==> ChamberOf(items[i]).Ok?
    ensures r.1.None? ==> forall i :: 0 <= i < |items| && ChamberOf(items[i]) == Ok(Some(House)) ==> items[i] in r.0.house
    ensures r.1.None? ==> forall i :: 0 <= i < |items| && ChamberOf(items[i]) == Ok(Some(Senate)) ==> items[i] in r.0.senate
    ensures r.1.None? ==> |r.0.house| - |acc.house| + |r.0.senate| - |acc.senate| <= |items|
    decreases |items|
  {
    if |items| == 0 then (acc, None)
    else match ChamberOf(items[0])
      case Err(e) => (acc, Some(e))
      case Ok(c) =>
        var acc' := Place(acc, items[0], c);
        var r := SortPage(acc', items[1..]);
        assert forall i :: 1 <= i < |items| ==> items[i] == items[1..][i - 1];
        PrefixKeepsMembers(acc.house, acc'.house, r.0.house);
        PrefixKeepsMembers(acc.senate, acc'.senate, r.0.senate);
        r
  }

  /** One legislator appended to its chamber's list, or dropped. */
  function Place(acc: Split, item: Value, c: Option<Chamber>): (r: Split)
    ensures c == Some(House) ==> r == acc.(house := acc.house + [item]) && item in r.house
    ensures c == Some(Senate) ==> r == acc.(senate := acc.senate + [item]) && item in r.senate
    ensures c.None? ==> r == acc
    ensures Classified(acc) && ChamberOf(item) == Ok(c) ==> Classified(r)
  {
    match c
    case Some(House) => acc.(house := acc.house + [item])
    case Some(Senate) => acc.(senate := acc.senate + [item])
    case None => acc
  }

  /** Extending a list twice keeps the first list as a prefix, and the elements of the middle one. */
  lemma PrefixKeepsMembers(a: seq<Value>, b: seq<Value>, c: seq<Value>)
    requires |a| <= |b| && (b == a || b == a + [b[|b| - 1]])
    requires |b| <= |c| && c[..|b|] == b
    ensures c[..|a|] == a
    ensures forall x :: x in b ==> x in c
  {
    assert c[..|a|] == c[..|b|][..|a|];
    forall x | x in b
      ensures x in c
    {
      var k :| 0 <= k < |b| && b[k] == x;
      assert c[k] == x;
    }
  }

  // ---------------------------------------------------------------------
  // Pagination

  /** What `session.get` gives for one page: a status and the outcome of `response.json()`, or an exception. */
  datatype Response = Reply(status: int, body: Result<Value, Error>) | Raised(error: Error)

  /** The people endpoint: the reply for each page number. */
  type Server = nat -> Response

  /** A comparison `page >= max_page`: ints and bools compare, anything else raises. */
  function AsInt(v: Value): Option<int> {
    match v
    case Int(i) => Some(i)
    case Bool(b) => Some(if b then 1 else 0)
    case _ => None
  }

  /** How one page ends: go on to the next page, or leave the loop, keeping the result in the cache or not. */
  datatype PageOutcome = Next(acc: Split) | Stop(acc: Split, cached: bool)

  /**
   * One pass of the `while True` loop. A non-200 status, an empty results
   * page or `page >= max_page` breaks out of the loop, and what was
   * gathered is cached; an exception anywhere returns what was gathered
   * without caching it.
   */
  function PageStep(acc: Split, page: nat, reply: Response): (r: PageOutcome)
    ensures reply.Raised? ==> r == Stop(acc, false)
    ensures reply.Reply? && reply.status != 200 ==> r == Stop(acc, true)
    ensures (reply.Reply? && reply.status == 200 && reply.body.Ok? && reply.body.value.Obj? &&
             !Truthy(Get(reply.body.value.fields, "results", Arr([])))) ==> r == Stop(acc, true)
    ensures r.Next? ==> reply.Reply? && reply.status == 200 && reply.body.Ok? && reply.body.value.Obj?
    ensures r.Next? ==> var data := reply.body.value.fields;
      && Get(data, "results", Arr([])).Arr?
      && SortPage(acc, Get(data, "results", Arr([])).items) == (r.acc, None)
      && Get(data, "pagination", Obj(map[])).Obj?
      && AsInt(Get(Get(data, "pagination", Obj(map[])).fields, "max_page", Int(1))).Some?
      && page < AsInt(Get(Get(data, "pagination", Obj(map[])).fields, "max_page", Int(1))).value
    ensures Classified(acc) ==> Classified(r.acc)
    ensures r.Next? ==> !Final(reply)
  {
    match reply
    case Raised(_) => Stop(acc, false)
    case Reply(status, body) =>
      if status != 200 then Stop(acc, true)
      else match body
        case Err(_) => Stop(acc, false)
        case Ok(data) =>
          if !data.Obj? then Stop(acc, false)
          else
            var results := Get(data.fields, "results", Arr([]));
            if !Truthy(results) then Stop(acc, true)
            else if !results.Arr? then Stop(acc, false)
            else match SortPage(acc, results.items)
              case (acc', Some(_)) => Stop(acc', false)
              case (acc', None) =>
                var pagination := Get(data.fields, "pagination", Obj(map[]));
                if !pagination.Obj? then Stop(acc', false)
                else match AsInt(Get(pagination.fields, "max_page", Int(1)))
                  case None => Stop(acc', false)
                  case Some(maxPage) => if page >= maxPage then Stop(acc', true) else Next(acc')
  }

  /** A reply that ends the loop whatever it holds beyond this. */
  predicate Final(reply: Response) {
    || reply.Raised?
    || reply.status != 200
    || reply.body.Err?
    || !reply.body.value.Obj?
    || !Truthy(Get(reply.body.value.fields, "results", Arr([])))
  }

  /**
   * The loop started at `page` with `acc` leaves by page `last`: some page
   * up to `last` breaks out of it, whether by a final reply, by
   * `page >= max_page` or by an exception. A server for which no such page
   * exists would keep the source looping forever.
   */
  predicate StopsBy(server: Server, page: nat, last: nat, acc: Split)
    decreases if page <= last then last - page + 1 else 0
  {
    page <= last &&
    match PageStep(acc, page, server(page))
    case Stop(_, _) => true
    case Next(acc') => StopsBy(server, page + 1, last, acc')
  }

  /** The page loop from `page` on, up to the page that stops it. */
  function Pages(server: Server, page: nat, last: nat, acc: Split): (r: (Split, bool))
    requires StopsBy(server, page, last, acc)
    ensures Classified(acc) ==> Classified(r.0)
    decreases last - page
  {
    match PageStep(acc, page, server(page))
    case Stop(acc', cached) => (acc', cached)
    case Next(acc') => Pages(server, page + 1, last, acc')
  }

  /** A final reply at page `last` stops the loop by then, whatever was gathered. */
  lemma {:induction false} FinalReplyStops(server: Server, page: nat, last: nat, acc: Split)
    requires page <= last && Final(server(last))
    ensures StopsBy(server, page, last, acc)
    decreases last - page
  {
    match PageStep(acc, page, server(page))
    case Stop(_, _) =>
    case Next(acc') =>
      FinalReplyStops(server, page + 1, last, acc');
  }

  /** A page of legislators none of which raises is sorted without an error. */
  lemma {:induction false} SortPageSucceeds(acc: Split, items: seq<Value>)
    requires forall i :: 0 <= i < |items| ==> ChamberOf(items[i]).Ok?
    ensures SortPage(acc, items).1.None?
    decreases |items|
  {
    if |items| > 0 {
      var acc' := Place(acc, items[0], ChamberOf(items[0]).value);
      assert forall i :: 0 <= i < |items| - 1 ==> items[1..][i] == items[i + 1];
      SortPageSucceeds(acc', items[1..]);
    }
  }

  /** A 200 reply with a non-empty list of legislators none of which raises, and `max_page` equal to `m`. */
  predicate FullPage(reply: Response, m: int) {
    && reply.Reply? && reply.status == 200 && reply.body.Ok? && reply.body.value.Obj?
    && var data := reply.body.value.fields;
       var results := Get(data, "results", Arr([]));
       && results.Arr? && |results.items| > 0
       && (forall i :: 0 <= i < |results.items| ==> ChamberOf(results.items[i]).Ok?)
       && Get(data, "pagination", Obj(map[])) == Obj(map["max_page" := Int(m)])
  }

  /**
   * A server whose pages never end on their own still stops the loop at
   * `max_page`: with full pages from `page` to `m` the loop leaves by page
   * `m`.
   */
  lemma {:induction false} MaxPageEndsTheLoop(server: Server, page: nat, m: nat, acc: Split)
    requires 1 <= page <= m
    requires forall p :: page <= p <= m ==> FullPage(server(p), m)
    ensures StopsBy(server, page, m, acc)
    decreases m - page
  {
    var reply := server(page);
    SortPageSucceeds(acc, Get(reply.body.value.fields, "results", Arr([])).items);
    match PageStep(acc, page, reply)
    case Stop(_, _) =>
    case Next(acc') =>
      MaxPageEndsTheLoop(server, page + 1, m, acc');
  }

  /** `{"house": house, "senate": senate}`. */
  function LegislatorsValue(acc: Split): Value {
    Obj(map["house" := Arr(acc.house), "senate" := Arr(acc.senate)])
  }

  /**
   * `fetch_data`: the cached value when there is one, otherwise the pages
   * from page 1, whose result is cached only when the loop ended without an
   * exception.
   */
  function FetchData(src: Source, server: Server, last: nat): (r: (Source, Value))
    requires StopsBy(server, 1, last, NoLegislators)
    ensures src.cache.Some? ==> r == (src, src.cache.value)
    ensures src.cache.None? ==> r.1.Obj? && r.1.fields.Keys == {"house", "senate"}
    ensures src.cache.None? ==> r.1.fields["house"].Arr? && r.1.fields["senate"].Arr?
    ensures src.cache.None? ==> Classified(Split(r.1.fields["house"].items, r.1.fields["senate"].items))
    ensures src.cache.None? ==> r.0.cache.None? || r.0.cache == Some(r.1)
    ensures r.0 == src || r.0 == src.(cache := Some(r.1))
  {
    if src.cache.Some? then (src, src.cache.value)
    else
      var (acc, cached) := Pages(server, 1, last, NoLegislators);
      var v := LegislatorsValue(acc);
      (if cached then src.(cache := Some(v)) else src, v)
  }

  /** A second `fetch_data` after a cached first one returns the same value without asking any server. */
  lemma SecondFetchIsCached(src: Source, server: Server, last: nat, server2: Server, last2: nat)
    requires StopsBy(server, 1, last, NoLegislators)
    requires StopsBy(server2, 1, last2, NoLegislators)
    requires FetchData(src, server, last).0.cache.Some?
    ensures var (src1, v) := FetchData(src, server, last);
      FetchData(src1, server2, last2) == (src1, v)
  {
  }

  /** A failing first page gives empty lists, cached after a non-200 status and not cached after an exception. */
  lemma FirstPageFailure(src: Source, server: Server)
    requires src.cache.None?
    requires server(1).Raised? || (server(1).Reply? && server(1).status != 200)
    ensures FetchData(src, server, 1).1 == LegislatorsValue(NoLegislators)
    ensures FetchData(src, server, 1).0.cache.Some? <==> server(1).Reply?
  {
  }

  // ---------------------------------------------------------------------
  // fetch_by_location and get_source_info

  /**
   * `fetch_by_location`: `[]` on a non-200 status or an exception, otherwise
   * `results` as given. The log line calls `len(results)` inside the `try`,
   * so a `results` value without a length (None, a number, a boolean) raises
   * there and the handler returns `[]` as well.
   */
  function FetchByLocation(src: Source, reply: Response): (r: Value)
    ensures reply.Raised? || (reply.Reply? && reply.status != 200) ==> r == Arr([])
    ensures reply.Reply? && reply.status == 200 && reply.body.Err? ==> r == Arr([])
    ensures reply.Reply? && reply.status == 200 && reply.body.Ok? && !reply.body.value.Obj? ==> r == Arr([])
    ensures reply.Reply? && reply.status == 200 && reply.body.Ok? && reply.body.value.Obj? ==>
      var results := Get(reply.body.value.fields, "results", Arr([]));
      r == (if Sized(results) then results else Arr([]))
  {
    match reply
    case Raised(_) => Arr([])
    case Reply(status, body) =>
      if status != 200 then Arr([])
      else match body
        case Err(_) => Arr([])
        case Ok(data) =>
          if !data.Obj? then Arr([])
          else
            var results := Get(data.fields, "results", Arr([]));
            if Sized(results) then results else Arr([])
  }

  /** A successful reply whose body holds `results`. */
  predicate HasResults(reply: Response) {
    reply.Reply? && reply.status == 200 && reply.body.Ok? && reply.body.value.Obj?
    && "results" in reply.body.value.fields
  }

  /**
   * The documented "List of legislator data": the result is a list, unless
   * the server's `results` is a string or a dict, which comes back as it is.
   * A list in `results` is returned whole.
   */
  lemma FetchByLocationIsAList(src: Source, reply: Response)
    ensures var r := FetchByLocation(src, reply);
      r.Arr? || (HasResults(reply) && r == reply.body.value.fields["results"] && (r.Str? || r.Obj?))
    ensures HasResults(reply) && reply.body.value.fields["results"].Arr? ==>
      FetchByLocation(src, reply) == reply.body.value.fields["results"]
    ensures !HasResults(reply) ==> FetchByLocation(src, reply) == Arr([])
  {
  }

  /** `get_source_info`. */
  function SourceInfo(src: Source): (r: map<string, Value>)
    ensures r.Keys == {"name", "url", "type", "description"}
    ensures r["name"] == Str(Upper(src.stateCode) + " Legislators Data")
    ensures r["url"] == Str(src.baseUrl) && r["type"] == Str("OpenStates API")
  {
    map["name" := Str(Upper(src.stateCode) + " Legislators Data"),
        "url" := Str(src.baseUrl),
        "type" := Str("OpenStates API"),
        "description" := Str("OpenStates data on " + Upper(src.stateCode) + " state legislators")]
  }
}
