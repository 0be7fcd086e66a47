/** The Express routes of server.js. Each handler is a function of what reaches
    it (the parsed body or query string) and of what the datastore answered;
    its outcome is the HTTP response together with the statements it handed to
    `db.execute`, so "performs no insert" reads as "executes nothing". */
module Server {
  import opened Wrappers
  import opened JsSemantics
  import opened Sql

  /** A parsed JSON request body; a key it lacks reads as `undefined`. */
  type Body = map<string, JsValue>

  /** A row the datastore returns, kept opaque. */
  type Row = map<string, JsValue>

  /** What `await db.execute(...)` produced: its result, or a thrown error. */
  datatype DbReply<T> = Returned(value: T) | Threw

  datatype Response =
    | Failure(status: nat, message: string)              // { success: false, message }
    | Created(message: string, idKey: string, id: int)   // 201 { success: true, message, <idKey>: insertId }
    | Listing(listKey: string, count: nat, rows: seq<Row>) // 200 { success: true, count, <listKey>: rows }

  datatype Outcome = Outcome(response: Response, executed: seq<Statement>)

  const AllFieldsRequired := "All fields are required"
  const ServerError := "Server error. Please try again."

  /** Destructuring `const { k } = req.body`. */
  function Field(body: Body, key: string): JsValue
  {
    if key in body then body[key] else Undefined
  }

  /** The fields /register-donor requires, its INSERT columns and its bound values:
      the same names in the same order. */
  const DonorFields: seq<string> := ["name", "age", "gender", "blood_group", "city", "phone"]

  /** Likewise for /request-blood. */
  const RequestFields: seq<string> := ["name", "blood_group", "city", "reason", "phone"]

  const InsertDonorSql := InsertSql("donors", DonorFields)
  const InsertRequestSql := InsertSql("blood_requests", RequestFields)

  /** The guard `!body.k1 || !body.k2 || ...`: some required field is falsy. */
  function AnyFalsy(body: Body, keys: seq<string>): (r: bool)
    ensures r <==> exists i | 0 <= i < |keys| :: !Truthy(Field(body, keys[i]))
  {
    if keys == [] then false
    else !Truthy(Field(body, keys[0])) || AnyFalsy(body, keys[1..])
  }

  /** The values bound to an INSERT: the body's fields, in column order. */
  function Bound(body: Body, keys: seq<string>): seq<JsValue>
  {
    seq(|keys|, i requires 0 <= i < |keys| => Field(body, keys[i]))
  }

  /** Shape shared by the two INSERT routes: guard, insert, answer. */
  function InsertRoute(body: Body, fields: seq<string>, sql: string, created: string,
                       idKey: string, reply: DbReply<int>): Outcome
  {
    if AnyFalsy(body, fields) then Outcome(Failure(400, AllFieldsRequired), [])
    else
      var st := Statement(sql, Bound(body, fields));
      match reply
      case Threw => Outcome(Failure(500, ServerError), [st])
      case Returned(id) => Outcome(Created(created, idKey, id), [st])
  }

  /** POST /register-donor. */
  function RegisterDonor(body: Body, reply: DbReply<int>): (o: Outcome)
    ensures o.executed == [] <==> exists i | 0 <= i < |DonorFields| :: !Truthy(Field(body, DonorFields[i]))
    ensures o.executed == [] ==> o.response == Failure(400, AllFieldsRequired)
    ensures o.executed != [] ==> o.executed == [Statement(InsertDonorSql, Bound(body, DonorFields))]
    ensures o.response.Created? <==> o.executed != [] && reply.Returned?
    ensures o.response.Created? ==> o.response == Created("Donor registered successfully!", "donor_id", reply.value)
    ensures o.executed != [] && reply.Threw? ==> o.response == Failure(500, ServerError)
  {
    InsertRoute(body, DonorFields, InsertDonorSql, "Donor registered successfully!", "donor_id", reply)
  }

  /** POST /request-blood. */
  function RequestBlood(body: Body, reply: DbReply<int>): (o: Outcome)
    ensures o.executed == [] <==> exists i | 0 <= i < |RequestFields| :: !Truthy(Field(body, RequestFields[i]))
    ensures o.executed == [] ==> o.response == Failure(400, AllFieldsRequired)
    ensures o.executed != [] ==> o.executed == [Statement(InsertRequestSql, Bound(body, RequestFields))]
    ensures o.response.Created? <==> o.executed != [] && reply.Returned?
    ensures o.response.Created? ==> o.response == Created("Blood request submitted successfully!", "request_id", reply.value)
    ensures o.executed != [] && reply.Threw? ==> o.response == Failure(500, ServerError)
  {
    InsertRoute(body, RequestFields, InsertRequestSql, "Blood request submitted successfully!", "request_id", reply)
  }

  /** An age of 0 is as good as a missing one: the donor is refused and nothing
      is inserted. */
  lemma ZeroAgeIsMissing(body: Body, reply: DbReply<int>)
    requires "age" in body && body["age"] == Number(Num(0.0))
    ensures RegisterDonor(body, reply) == Outcome(Failure(400, AllFieldsRequired), [])
  {
    assert !Truthy(Field(body, DonorFields[1]));
  }

  /** The string "0", as a form field would send it, passes the guard: with it the
      donor is inserted exactly when every other required field is truthy. */
  lemma ZeroAgeStringPasses(body: Body, reply: DbReply<int>)
    requires "age" in body && body["age"] == Str("0")
    ensures RegisterDonor(body, reply).executed != []
            <==> forall i | 0 <= i < |DonorFields| && DonorFields[i] != "age" :: Truthy(Field(body, DonorFields[i]))
  {
    assert DonorFields[1] == "age" && Truthy(Field(body, "age"));
    assert forall i | 0 <= i < |DonorFields| && DonorFields[i] == "age" :: i == 1;
  }

  // ---------------------------------------------------------------------------
  // GET /search-donors

  /** The search text with no filter, `SELECT * FROM donors WHERE 1=1`: every
      donor. */
  const SearchBase := "SELECT * FROM " + "donors WHERE 1=1"
  /** ` AND blood_group = ?`, the clause a blood-group filter appends: an exact match. */
  const BloodGroupClause := " AND blood_group = " + "?"
  /** ` AND city LIKE ?`, the clause a city filter appends: a pattern match. */
  const CityClause := " AND city LIKE " + "?"

  /** `req.query.k`, for the string-valued query strings the dashboard sends. */
  function QueryValue(query: map<string, string>, key: string): Option<string>
  {
    if key in query then Some(query[key]) else None
  }

  /** `if (v)` on a query-string value: present and not empty. */
  predicate Present(v: Option<string>)
  {
    v.Some? && v.value != ""
  }

  /** The search text: which clauses it has depends on which filters are present,
      and on nothing else, so no value a client sends can reach it. */
  function SearchSql(byBloodGroup: bool, byCity: bool): string
  {
    SearchBase + (if byBloodGroup then BloodGroupClause else "") + (if byCity then CityClause else "")
  }

  /** `%${city}%`: the LIKE pattern for "contains city". */
  function ContainsPattern(city: string): string
  {
    "%" + city + "%"
  }

  /** The values bound to the search, one per clause and in clause order. */
  function SearchParams(bloodGroup: Option<string>, city: Option<string>): seq<JsValue>
  {
    (if Present(bloodGroup) then [Str(bloodGroup.value)] else [])
      + (if Present(city) then [Str(ContainsPattern(city.value))] else [])
  }

  /** A text with no slot, followed by optional one-slot clauses, has one slot
      per clause it carries. */
  lemma OptionalClauseSlots(base: string, first: string, second: string, withFirst: bool, withSecond: bool)
    requires Placeholders(base) == 0 && Placeholders(first) == 1 && Placeholders(second) == 1
    ensures Placeholders(base + (if withFirst then first else "") + (if withSecond then second else ""))
            == (if withFirst then 1 else 0) + (if withSecond then 1 else 0)
  {
    var x := if withFirst then first else "";
    var y := if withSecond then second else "";
    assert Placeholders(x) == (if withFirst then 1 else 0);
    assert Placeholders(y) == (if withSecond then 1 else 0);
    PlaceholdersAppend(base, x);
    PlaceholdersAppend(base + x, y);
  }

  /** Each clause the search adds brings exactly one slot. */
  lemma SearchSqlSlots(byBloodGroup: bool, byCity: bool)
    ensures Placeholders(SearchSql(byBloodGroup, byCity))
            == (if byBloodGroup then 1 else 0) + (if byCity then 1 else 0)
  {
    assert '?' !in "SELECT * FROM " && '?' !in "donors WHERE 1=1";
    PlaceholdersNone(SearchBase);
    TextThenSlots(" AND blood_group = ", "?");
    TextThenSlots(" AND city LIKE ", "?");
    OptionalClauseSlots(SearchBase, BloodGroupClause, CityClause, byBloodGroup, byCity);
  }

  /** The handler's building of `query` and `params`: start from the fixed text,
      then for each filter present append its clause and push its value. */
  method BuildSearchQuery(bloodGroup: Option<string>, city: Option<string>)
    returns (query: string, params: seq<JsValue>)
    ensures query == SearchSql(Present(bloodGroup), Present(city))
    ensures params == SearchParams(bloodGroup, city)
    ensures Placeholders(query) == |params|
  {
    query := SearchBase;
    params := [];
    if Present(bloodGroup) {
      query := query + BloodGroupClause;
      params := params + [Str(bloodGroup.value)];
    }
    if Present(city) {
      query := query + CityClause;
      params := params + [Str(ContainsPattern(city.value))];
    }
    SearchSqlSlots(Present(bloodGroup), Present(city));
  }

  /** GET /search-donors. */
  function SearchDonors(query: map<string, string>, reply: DbReply<seq<Row>>): (o: Outcome)
    ensures |o.executed| == 1
    ensures o.executed[0].text == SearchSql(Present(QueryValue(query, "blood_group")), Present(QueryValue(query, "city")))
    ensures o.executed[0].params == SearchParams(QueryValue(query, "blood_group"), QueryValue(query, "city"))
    ensures o.response.Listing? <==> reply.Returned?
    ensures o.response.Listing? ==> o.response.listKey == "donors" && o.response.rows == reply.value
    ensures o.response.Listing? ==> o.response.count == |o.response.rows|
    ensures reply.Threw? ==> o.response == Failure(500, ServerError)
  {
    var bloodGroup := QueryValue(query, "blood_group");
    var city := QueryValue(query, "city");
    var st := Statement(SearchSql(Present(bloodGroup), Present(city)), SearchParams(bloodGroup, city));
    match reply
    case Threw => Outcome(Failure(500, ServerError), [st])
    case Returned(rows) => Outcome(Listing("donors", |rows|, rows), [st])
  }

  /** With neither filter, every donor is asked for and nothing is bound. */
  lemma SearchWithoutFilters(query: map<string, string>, reply: DbReply<seq<Row>>)
    requires !Present(QueryValue(query, "blood_group")) && !Present(QueryValue(query, "city"))
    ensures SearchDonors(query, reply).executed == [Statement(SearchBase, [])]
  {
    assert SearchSql(false, false) == SearchBase;
  }

  /** With both filters, the blood-group clause comes first and so does its value;
      the blood group is bound as given, the city inside `%...%`. */
  lemma SearchWithBothFilters(query: map<string, string>, reply: DbReply<seq<Row>>)
    requires Present(QueryValue(query, "blood_group")) && Present(QueryValue(query, "city"))
    ensures SearchDonors(query, reply).executed ==
      [Statement(SearchBase + BloodGroupClause + CityClause,
                 [Str(query["blood_group"]), Str("%" + query["city"] + "%")])]
  {
    var bloodGroup := QueryValue(query, "blood_group");
    var city := QueryValue(query, "city");
    assert bloodGroup.value == query["blood_group"] && city.value == query["city"];
    assert SearchSql(true, true) == SearchBase + BloodGroupClause + CityClause;
    assert SearchParams(bloodGroup, city) == [Str(query["blood_group"]), Str("%" + query["city"] + "%")];
  }

  /** Two searches that use the same filters run the same text, whatever values
      they carry: user input only ever travels as a bound value. */
  lemma SearchTextIgnoresValues(q1: map<string, string>, q2: map<string, string>,
                                r1: DbReply<seq<Row>>, r2: DbReply<seq<Row>>)
    requires Present(QueryValue(q1, "blood_group")) == Present(QueryValue(q2, "blood_group"))
    requires Present(QueryValue(q1, "city")) == Present(QueryValue(q2, "city"))
    ensures SearchDonors(q1, r1).executed[0].text == SearchDonors(q2, r2).executed[0].text
  {
  }

  // ---------------------------------------------------------------------------
  // GET /get-requests

  /** `SELECT * FROM blood_requests ORDER BY req_id DESC`: every blood request,
      newest first. */
  const AllRequestsSql := "SELECT * FROM " + "blood_requests " + "ORDER BY req_id DESC"

  /** GET /get-requests. */
  function GetRequests(reply: DbReply<seq<Row>>): (o: Outcome)
    ensures o.executed == [Statement(AllRequestsSql, [])]
    ensures o.response.Listing? <==> reply.Returned?
    ensures o.response.Listing? ==> o.response.listKey == "requests" && o.response.rows == reply.value
    ensures o.response.Listing? ==> o.response.count == |o.response.rows|
    ensures reply.Threw? ==> o.response == Failure(500, ServerError)
  {
    var st := Statement(AllRequestsSql, []);
    match reply
    case Threw => Outcome(Failure(500, ServerError), [st])
    case Returned(rows) => Outcome(Listing("requests", |rows|, rows), [st])
  }

  // ---------------------------------------------------------------------------

  /** Whatever an INSERT route is given, a statement it executes binds one value
      per slot, provided its text has one slot per field. */
  lemma InsertRouteWellBound(body: Body, fields: seq<string>, sql: string, created: string,
                             idKey: string, reply: DbReply<int>)
    requires Placeholders(sql) == |fields|
    ensures forall st | st in InsertRoute(body, fields, sql, created, idKey, reply).executed :: WellBound(st)
  {
  }

  lemma AllRequestsSqlSlots()
    ensures Placeholders(AllRequestsSql) == 0
  {
    assert '?' !in "SELECT * FROM " && '?' !in "blood_requests " && '?' !in "ORDER BY req_id DESC";
    PlaceholdersNone(AllRequestsSql);
  }

  lemma InsertTextsSlots()
    ensures Placeholders(InsertDonorSql) == |DonorFields|
    ensures Placeholders(InsertRequestSql) == |RequestFields|
  {
    assert '?' !in "donors" && '?' !in "blood_requests";
    assert forall i | 0 <= i < |DonorFields| :: '?' !in DonorFields[i];
    assert forall i | 0 <= i < |RequestFields| :: '?' !in RequestFields[i];
    InsertSqlSlots("donors", DonorFields);
    InsertSqlSlots("blood_requests", RequestFields);
  }

  /** Every statement any route hands to the datastore binds exactly one value per
      `?` of its text. */
  lemma EveryStatementWellBound(body: Body, query: map<string, string>,
                                insertReply: DbReply<int>, selectReply: DbReply<seq<Row>>)
    ensures forall st | st in RegisterDonor(body, insertReply).executed :: WellBound(st)
    ensures forall st | st in RequestBlood(body, insertReply).executed :: WellBound(st)
    ensures forall st | st in SearchDonors(query, selectReply).executed :: WellBound(st)
    ensures forall st | st in GetRequests(selectReply).executed :: WellBound(st)
  {
    InsertTextsSlots();
    InsertRouteWellBound(body, DonorFields, InsertDonorSql, "Donor registered successfully!", "donor_id", insertReply);
    InsertRouteWellBound(body, RequestFields, InsertRequestSql, "Blood request submitted successfully!", "request_id", insertReply);
    SearchSqlSlots(Present(QueryValue(query, "blood_group")), Present(QueryValue(query, "city")));
    AllRequestsSqlSlots();
  }
}
