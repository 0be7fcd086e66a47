/** The decisions public/dashboard-script.js takes before it talks to the server:
    what each form sends once its fields are trimmed and parsed, which checks
    they must pass (every check runs, and each failure writes its own message
    under its own field), where a valid form is sent and with which method, and
    which filters a donor search puts in its query string. DOM reads become the
    raw strings of the inputs; DOM writes become the list of error messages. */
module Dashboard {
  import opened Wrappers
  import opened JsSemantics
  import opened Patterns
  import opened SharedValidators
  import Server

  /** A message written into the error element with id `target`. */
  datatype FieldError = FieldError(target: string, message: string)

  const DonorNameError := FieldError("donorNameError", "2-50 letters only")
  const DonorAgeError := FieldError("donorAgeError", "Age must be 18-65")
  const DonorPhoneError := FieldError("donorPhoneError", "Must be 10 digits")

  const RequestNameError := FieldError("reqNameError", "2-50 characters required")
  const RequestReasonError := FieldError("reqReasonError", "5-100 characters required")
  const RequestPhoneError := FieldError("reqPhoneError", "Must be 10 digits")

  const ProfileNameError := FieldError("profileFullNameError", "2-100 letters only")
  const ProfileEmailError := FieldError("profileEmailError", "Invalid email")
  const ProfilePhoneError := FieldError("profilePhoneError", "Must be 10 digits")

  /** One check: no message when it passes, its own message when it fails. */
  function Report(ok: bool, e: FieldError): seq<FieldError>
  {
    if ok then [] else [e]
  }

  /** No two messages of a list go to the same element. */
  predicate DistinctTargets(errors: seq<FieldError>)
  {
    forall i, j | 0 <= i < j < |errors| :: errors[i].target != errors[j].target
  }

  // ---------------------------------------------------------------------------
  // Donor form

  /** The object the donor form builds and submits. */
  datatype DonorForm = DonorForm(name: string, age: JsNumber, gender: string,
                                 bloodGroup: string, city: string, phone: string)

  /** `data.age < 18 || data.age > 65`. */
  predicate AgeOutOfRange(age: JsNumber)
  {
    LessThan(age, 18.0) || GreaterThan(age, 65.0)
  }

  /** The messages validateDonorForm writes. */
  function DonorFormErrors(data: DonorForm): (errors: seq<FieldError>)
    ensures DonorNameError in errors
            <==> !(2 <= |data.name| <= 50 && AllInClass(data.name, LetterOrSpace))
    ensures DonorAgeError in errors <==> data.age.Num? && !(18.0 <= data.age.value <= 65.0)
    ensures DonorPhoneError in errors <==> !ValidatePhone(data.phone)
    ensures forall e | e in errors :: e in {DonorNameError, DonorAgeError, DonorPhoneError}
    ensures DistinctTargets(errors)
  {
    Report(MatchesRun(data.name, LetterOrSpace, 2, 50), DonorNameError)
      + Report(!AgeOutOfRange(data.age), DonorAgeError)
      + Report(ValidatePhone(data.phone), DonorPhoneError)
  }

  /** validateDonorForm: true exactly when no message was written. */
  function ValidateDonorForm(data: DonorForm): (isValid: bool)
    ensures isValid <==>
      && 2 <= |data.name| <= 50 && AllInClass(data.name, LetterOrSpace)
      && (data.age.NaN? || 18.0 <= data.age.value <= 65.0)
      && ValidatePhone(data.phone)
  {
    DonorFormErrors(data) == []
  }

  /** On a number the form's age check agrees with validateAge; an age that
      parseInt could not read (NaN) passes the form although validateAge
      refuses it. */
  lemma DonorAgeCheckVersusValidateAge(age: JsNumber)
    ensures age.Num? ==> (!AgeOutOfRange(age) <==> ValidateAge(age))
    ensures age.NaN? ==> !AgeOutOfRange(age) && !ValidateAge(age)
  {
  }

  // ---------------------------------------------------------------------------
  // Blood-request form

  datatype RequestForm = RequestForm(name: string, bloodGroup: string, city: string,
                                     reason: string, phone: string, status: string)

  /** The messages validateRequestForm writes. */
  function RequestFormErrors(data: RequestForm): (errors: seq<FieldError>)
    ensures RequestNameError in errors
            <==> !(2 <= |data.name| <= 50 && AllInClass(data.name, AnyButNewline))
    ensures RequestReasonError in errors
            <==> !(5 <= |data.reason| <= 100 && AllInClass(data.reason, AnyButNewline))
    ensures RequestPhoneError in errors <==> !ValidatePhone(data.phone)
    ensures forall e | e in errors :: e in {RequestNameError, RequestReasonError, RequestPhoneError}
    ensures DistinctTargets(errors)
  {
    Report(MatchesRun(data.name, AnyButNewline, 2, 50), RequestNameError)
      + Report(MatchesRun(data.reason, AnyButNewline, 5, 100), RequestReasonError)
      + Report(ValidatePhone(data.phone), RequestPhoneError)
  }

  /** validateRequestForm: true exactly when no message was written. */
  function ValidateRequestForm(data: RequestForm): (isValid: bool)
    ensures isValid <==>
      && 2 <= |data.name| <= 50 && AllInClass(data.name, AnyButNewline)
      && 5 <= |data.reason| <= 100 && AllInClass(data.reason, AnyButNewline)
      && ValidatePhone(data.phone)
  {
    RequestFormErrors(data) == []
  }

  // ---------------------------------------------------------------------------
  // Profile form

  datatype ProfileForm = ProfileForm(fullName: string, email: string, phone: string)

  /** The messages the profile form's inline checks write. */
  function ProfileFormErrors(data: ProfileForm): (errors: seq<FieldError>)
    ensures ProfileNameError in errors
            <==> !(2 <= |data.fullName| <= 100 && AllInClass(data.fullName, LetterOrSpace))
    ensures ProfileEmailError in errors <==> !EmailMatches(data.email)
    ensures ProfilePhoneError in errors <==> !ValidatePhone(data.phone)
    ensures forall e | e in errors :: e in {ProfileNameError, ProfileEmailError, ProfilePhoneError}
    ensures DistinctTargets(errors)
  {
    EmailCheckMatchesPattern(data.email);
    Report(MatchesRun(data.fullName, LetterOrSpace, 2, 100), ProfileNameError)
      + Report(EmailCheck(data.email), ProfileEmailError)
      + Report(ValidatePhone(data.phone), ProfilePhoneError)
  }

  // ---------------------------------------------------------------------------
  // Where a valid form goes

  datatype HttpMethod = POST | PUT

  /** The REST collections the forms write to. */
  datatype Collection = Donors | Requests | Profile

  /** `http://localhost:3000/api`, the prefix of every URL the forms send to. */
  const ApiBase := "http://localhost:3000/api"

  function CollectionUrl(c: Collection): string
  {
    match c
    case Donors => ApiBase + "/donors"
    case Requests => ApiBase + "/requests"
    case Profile => ApiBase + "/profile"
  }

  /** Where a request goes: a method, a collection, and the id of the record
      it names, empty when it names none. */
  datatype Target = Target(verb: HttpMethod, collection: Collection, id: string)

  /** `${base}/${id}` for a record, `base` for the collection itself. */
  function Path(base: string, id: string): string
  {
    if id != "" then base + "/" + id else base
  }

  /** The URL handed to `fetch`. */
  function Url(t: Target): string
  {
    Path(CollectionUrl(t.collection), t.id)
  }

  /** `id ? PUT .../id : POST ...`, for the hidden id field of a form. */
  function Route(id: string, collection: Collection): (t: Target)
    ensures t.verb == PUT <==> id != ""
    ensures t.verb == PUT ==> Url(t) == CollectionUrl(collection) + "/" + id
    ensures t.verb == POST ==> Url(t) == CollectionUrl(collection)
  {
    if id != "" then Target(PUT, collection, id) else Target(POST, collection, "")
  }

  /** Two paths under one base are equal only for the same id: the id can be
      read back from the path. */
  lemma PathInjective(base: string, id1: string, id2: string)
    ensures Path(base, id1) == Path(base, id2) <==> id1 == id2
  {
    var u1, u2 := Path(base, id1), Path(base, id2);
    if u1 == u2 && id1 != "" && id2 != "" {
      assert u1[|base| + 1..] == id1;
      assert u2[|base| + 1..] == id2;
    }
  }

  /** A form that edits a record and one that creates a record never hand
      `fetch` the same URL string, and two edits hand it the same string only
      for the same record. */
  lemma RouteSeparatesRecords(id1: string, id2: string, collection: Collection)
    ensures Url(Route(id1, collection)) == Url(Route(id2, collection)) <==> id1 == id2
  {
    PathInjective(CollectionUrl(collection), id1, id2);
  }

  /** A request the dashboard sends: where to, and the JSON body. */
  datatype Payload =
    | DonorPayload(donor: DonorForm)
    | RequestPayload(request: RequestForm)
    | ProfilePayload(profile: ProfileForm)

  datatype Request = Request(target: Target, payload: Payload)

  /** What one submit does: the messages it writes, and the request it sends if any. */
  datatype Submission = Submission(errors: seq<FieldError>, sent: Option<Request>)

  // ---------------------------------------------------------------------------
  // Submitting the donor form

  /** The raw `.value` strings of the donor form's inputs. */
  datatype DonorInputs = DonorInputs(donorId: string, name: string, age: string, gender: string,
                                     bloodGroup: string, city: string, phone: string)

  /** The form object: name, city and phone trimmed, age through parseInt,
      gender and blood group as selected. */
  function DonorFormData(inputs: DonorInputs): (data: DonorForm)
  {
    DonorForm(Trim(inputs.name), ParseInt(inputs.age), inputs.gender, inputs.bloodGroup,
              Trim(inputs.city), Trim(inputs.phone))
  }

  /** The donor form's submit handler up to `fetch`. */
  function DonorSubmit(inputs: DonorInputs): (s: Submission)
    ensures s.errors == DonorFormErrors(DonorFormData(inputs))
    ensures s.sent.Some? <==> s.errors == []
    ensures s.sent.Some? ==> s.sent.value.payload == DonorPayload(DonorFormData(inputs))
    ensures s.sent.Some? ==> s.sent.value.target == Route(inputs.donorId, Donors)
  {
    var data := DonorFormData(inputs);
    var errors := DonorFormErrors(data);
    Submission(errors, if ValidateDonorForm(data) then Some(Request(Route(inputs.donorId, Donors), DonorPayload(data))) else None)
  }

  /** Every donor the dashboard sends has a 2-50 letter name, a 10-digit phone
      and an age that is 18-65 or unreadable. */
  lemma SentDonorIsValid(inputs: DonorInputs)
    requires DonorSubmit(inputs).sent.Some?
    ensures var d := DonorSubmit(inputs).sent.value.payload.donor;
      && 2 <= |d.name| <= 50 && AllInClass(d.name, LetterOrSpace)
      && (d.age.NaN? || 18.0 <= d.age.value <= 65.0)
      && ValidatePhone(d.phone)
  {
    assert ValidateDonorForm(DonorFormData(inputs));
  }

  /** An age field holding a whole number reaches the check as that number. */
  lemma DonorAgeField(inputs: DonorInputs, years: nat)
    requires inputs.age == DecimalString(years)
    ensures DonorFormData(inputs).age == Num(years as real)
    ensures DonorAgeError in DonorSubmit(inputs).errors <==> years < 18 || years > 65
  {
    assert DecimalString(years) + [] == DecimalString(years);
    ParseIntReadsNatural(years, []);
  }

  /** An empty or blank age field is read as NaN and raises no age message. */
  lemma BlankAgePasses(inputs: DonorInputs)
    requires AllWhiteSpace(inputs.age)
    ensures DonorFormData(inputs).age == NaN
    ensures DonorAgeError !in DonorSubmit(inputs).errors
  {
  }

  /** The typed fields reach the checks, and the server, with no white space
      at either end. */
  lemma DonorFieldsTrimmed(inputs: DonorInputs)
    ensures var data := DonorFormData(inputs);
      Trim(data.name) == data.name && Trim(data.city) == data.city && Trim(data.phone) == data.phone
  {
    TrimIdempotent(inputs.name);
    TrimIdempotent(inputs.city);
    TrimIdempotent(inputs.phone);
  }

  /** The donor submit sees the inputs only through the form object and the id. */
  lemma DonorSubmitSeesFormData(a: DonorInputs, b: DonorInputs)
    requires DonorFormData(a) == DonorFormData(b) && a.donorId == b.donorId
    ensures DonorSubmit(a) == DonorSubmit(b)
  {
  }

  /** White space typed around the name, city or phone changes nothing. */
  lemma DonorSubmitIgnoresPadding(inputs: DonorInputs, before: string, after: string)
    requires AllWhiteSpace(before) && AllWhiteSpace(after)
    ensures DonorSubmit(inputs.(name := before + inputs.name + after)) == DonorSubmit(inputs)
    ensures DonorSubmit(inputs.(city := before + inputs.city + after)) == DonorSubmit(inputs)
    ensures DonorSubmit(inputs.(phone := before + inputs.phone + after)) == DonorSubmit(inputs)
  {
    TrimIgnoresPadding(before, inputs.name, after);
    TrimIgnoresPadding(before, inputs.city, after);
    TrimIgnoresPadding(before, inputs.phone, after);
    DonorSubmitSeesFormData(inputs.(name := before + inputs.name + after), inputs);
    DonorSubmitSeesFormData(inputs.(city := before + inputs.city + after), inputs);
    DonorSubmitSeesFormData(inputs.(phone := before + inputs.phone + after), inputs);
  }

  // ---------------------------------------------------------------------------
  // Submitting the blood-request form

  datatype RequestInputs = RequestInputs(requestId: string, name: string, bloodGroup: string,
                                         city: string, reason: string, phone: string, status: string)

  /** The form object: name, city, reason and phone trimmed; blood group and
      status as selected. */
  function RequestFormData(inputs: RequestInputs): (data: RequestForm)
  {
    RequestForm(Trim(inputs.name), inputs.bloodGroup, Trim(inputs.city), Trim(inputs.reason),
                Trim(inputs.phone), inputs.status)
  }

  /** The request form's submit handler up to `fetch`. */
  function RequestSubmit(inputs: RequestInputs): (s: Submission)
    ensures s.errors == RequestFormErrors(RequestFormData(inputs))
    ensures s.sent.Some? <==> s.errors == []
    ensures s.sent.Some? ==> s.sent.value.payload == RequestPayload(RequestFormData(inputs))
    ensures s.sent.Some? ==> s.sent.value.target == Route(inputs.requestId, Requests)
  {
    var data := RequestFormData(inputs);
    var errors := RequestFormErrors(data);
    Submission(errors, if ValidateRequestForm(data) then Some(Request(Route(inputs.requestId, Requests), RequestPayload(data))) else None)
  }

  lemma RequestFieldsTrimmed(inputs: RequestInputs)
    ensures var data := RequestFormData(inputs);
      && Trim(data.name) == data.name && Trim(data.city) == data.city
      && Trim(data.reason) == data.reason && Trim(data.phone) == data.phone
  {
    TrimIdempotent(inputs.name);
    TrimIdempotent(inputs.city);
    TrimIdempotent(inputs.reason);
    TrimIdempotent(inputs.phone);
  }

  lemma RequestSubmitSeesFormData(a: RequestInputs, b: RequestInputs)
    requires RequestFormData(a) == RequestFormData(b) && a.requestId == b.requestId
    ensures RequestSubmit(a) == RequestSubmit(b)
  {
  }

  /** White space typed around the name, city, reason or phone changes nothing. */
  lemma RequestSubmitIgnoresPadding(inputs: RequestInputs, before: string, after: string)
    requires AllWhiteSpace(before) && AllWhiteSpace(after)
    ensures RequestSubmit(inputs.(name := before + inputs.name + after)) == RequestSubmit(inputs)
    ensures RequestSubmit(inputs.(city := before + inputs.city + after)) == RequestSubmit(inputs)
    ensures RequestSubmit(inputs.(reason := before + inputs.reason + after)) == RequestSubmit(inputs)
    ensures RequestSubmit(inputs.(phone := before + inputs.phone + after)) == RequestSubmit(inputs)
  {
    TrimIgnoresPadding(before, inputs.name, after);
    TrimIgnoresPadding(before, inputs.city, after);
    TrimIgnoresPadding(before, inputs.reason, after);
    TrimIgnoresPadding(before, inputs.phone, after);
    RequestSubmitSeesFormData(inputs.(name := before + inputs.name + after), inputs);
    RequestSubmitSeesFormData(inputs.(city := before + inputs.city + after), inputs);
    RequestSubmitSeesFormData(inputs.(reason := before + inputs.reason + after), inputs);
    RequestSubmitSeesFormData(inputs.(phone := before + inputs.phone + after), inputs);
  }

  /** Every blood request the dashboard sends has a 2-50 character name and a
      5-100 character reason, neither with a line break, and a 10-digit phone. */
  lemma SentRequestIsValid(inputs: RequestInputs)
    requires RequestSubmit(inputs).sent.Some?
    ensures var r := RequestSubmit(inputs).sent.value.payload.request;
      && 2 <= |r.name| <= 50 && AllInClass(r.name, AnyButNewline)
      && 5 <= |r.reason| <= 100 && AllInClass(r.reason, AnyButNewline)
      && ValidatePhone(r.phone)
  {
    assert ValidateRequestForm(RequestFormData(inputs));
  }

  // ---------------------------------------------------------------------------
  // Submitting the profile form

  datatype ProfileInputs = ProfileInputs(fullName: string, email: string, phone: string)

  /** The form object: all three fields trimmed. */
  function ProfileFormData(inputs: ProfileInputs): (data: ProfileForm)
  {
    ProfileForm(Trim(inputs.fullName), Trim(inputs.email), Trim(inputs.phone))
  }

  /** The profile form's submit handler up to `fetch`: always a PUT to the
      profile URL, and only when every check passed. */
  function ProfileSubmit(inputs: ProfileInputs): (s: Submission)
    ensures s.errors == ProfileFormErrors(ProfileFormData(inputs))
    ensures s.sent.Some? <==> s.errors == []
    ensures s.sent.Some? ==> s.sent.value == Request(Target(PUT, Profile, ""), ProfilePayload(ProfileFormData(inputs)))
  {
    var data := ProfileFormData(inputs);
    var errors := ProfileFormErrors(data);
    Submission(errors, if errors == [] then Some(Request(Target(PUT, Profile, ""), ProfilePayload(data))) else None)
  }

  lemma ProfileFieldsTrimmed(inputs: ProfileInputs)
    ensures var data := ProfileFormData(inputs);
      Trim(data.fullName) == data.fullName && Trim(data.email) == data.email && Trim(data.phone) == data.phone
  {
    TrimIdempotent(inputs.fullName);
    TrimIdempotent(inputs.email);
    TrimIdempotent(inputs.phone);
  }

  lemma ProfileSubmitSeesFormData(a: ProfileInputs, b: ProfileInputs)
    requires ProfileFormData(a) == ProfileFormData(b)
    ensures ProfileSubmit(a) == ProfileSubmit(b)
  {
  }

  /** White space typed around the name, email or phone changes nothing. */
  lemma ProfileSubmitIgnoresPadding(inputs: ProfileInputs, before: string, after: string)
    requires AllWhiteSpace(before) && AllWhiteSpace(after)
    ensures ProfileSubmit(inputs.(fullName := before + inputs.fullName + after)) == ProfileSubmit(inputs)
    ensures ProfileSubmit(inputs.(email := before + inputs.email + after)) == ProfileSubmit(inputs)
    ensures ProfileSubmit(inputs.(phone := before + inputs.phone + after)) == ProfileSubmit(inputs)
  {
    TrimIgnoresPadding(before, inputs.fullName, after);
    TrimIgnoresPadding(before, inputs.email, after);
    TrimIgnoresPadding(before, inputs.phone, after);
    ProfileSubmitSeesFormData(inputs.(fullName := before + inputs.fullName + after), inputs);
    ProfileSubmitSeesFormData(inputs.(email := before + inputs.email + after), inputs);
    ProfileSubmitSeesFormData(inputs.(phone := before + inputs.phone + after), inputs);
  }

  /** A profile is sent only with a 2-100 letter name, an address the email
      pattern matches and a 10-digit phone. */
  lemma SentProfileIsValid(inputs: ProfileInputs)
    requires ProfileSubmit(inputs).sent.Some?
    ensures var p := ProfileSubmit(inputs).sent.value.payload.profile;
      && 2 <= |p.fullName| <= 100 && AllInClass(p.fullName, LetterOrSpace)
      && EmailMatches(p.email)
      && ValidatePhone(p.phone)
  {
    var errors := ProfileSubmit(inputs).errors;
    assert ProfileNameError !in errors && ProfileEmailError !in errors && ProfilePhoneError !in errors;
  }

  // ---------------------------------------------------------------------------
  // The donor search's query string

  /** A `URLSearchParams` object: its name/value pairs in insertion order. */
  class UrlSearchParams {
    var entries: seq<(string, string)>

    constructor ()
      ensures entries == []
    {
      entries := [];
    }

    /** `params.append(name, value)`. */
    method Append(name: string, value: string)
      modifies this
      ensures entries == old(entries) + [(name, value)]
    {
      entries := entries + [(name, value)];
    }
  }

  /** The pairs searchDonors appends: each filter only when its field is not empty,
      blood group first. */
  function SearchEntries(bloodGroup: string, city: string): (entries: seq<(string, string)>)
    ensures ("blood_group", bloodGroup) in entries <==> bloodGroup != ""
    ensures ("city", city) in entries <==> city != ""
    ensures |entries| == (if bloodGroup != "" then 1 else 0) + (if city != "" then 1 else 0)
    ensures bloodGroup != "" ==> entries[0] == ("blood_group", bloodGroup)
  {
    (if bloodGroup != "" then [("blood_group", bloodGroup)] else [])
      + (if city != "" then [("city", city)] else [])
  }

  /** The building of the search's `URLSearchParams`. */
  method SearchDonorParams(bloodGroup: string, city: string) returns (params: UrlSearchParams)
    ensures fresh(params)
    ensures params.entries == SearchEntries(bloodGroup, city)
  {
    params := new UrlSearchParams();
    if bloodGroup != "" {
      params.Append("blood_group", bloodGroup);
    }
    if city != "" {
      params.Append("city", city);
    }
  }

  /** The query object the server reads from a query string of distinct names. */
  function QueryOf(entries: seq<(string, string)>): map<string, string>
  {
    if entries == [] then map[]
    else QueryOf(entries[..|entries| - 1])[entries[|entries| - 1].0 := entries[|entries| - 1].1]
  }

  lemma QueryOfOne(name: string, value: string)
    ensures QueryOf([(name, value)]) == map[name := value]
  {
    assert [(name, value)][..0] == [];
  }

  lemma QueryOfTwo(name1: string, value1: string, name2: string, value2: string)
    ensures QueryOf([(name1, value1), (name2, value2)]) == map[name1 := value1, name2 := value2]
  {
    assert [(name1, value1), (name2, value2)][..1] == [(name1, value1)];
    QueryOfOne(name1, value1);
  }

  /** The filters the server reads back from the query string. */
  lemma SearchQueryValues(bloodGroup: string, city: string)
    ensures var query := QueryOf(SearchEntries(bloodGroup, city));
      && Server.QueryValue(query, "blood_group") == (if bloodGroup != "" then Some(bloodGroup) else None)
      && Server.QueryValue(query, "city") == (if city != "" then Some(city) else None)
  {
    var entries := SearchEntries(bloodGroup, city);
    if bloodGroup != "" && city != "" {
      assert entries == [("blood_group", bloodGroup), ("city", city)];
      QueryOfTwo("blood_group", bloodGroup, "city", city);
    } else if bloodGroup != "" {
      assert entries == [("blood_group", bloodGroup)];
      QueryOfOne("blood_group", bloodGroup);
    } else if city != "" {
      assert entries == [("city", city)];
      QueryOfOne("city", city);
    }
  }

  /** A search from the dashboard reaches /search-donors with exactly the filters
      typed: the blood group bound as typed, the city inside `%...%`, and the
      query text chosen only by which of them were given. */
  lemma SearchReachesServer(bloodGroup: string, city: string, reply: Server.DbReply<seq<Server.Row>>)
    ensures var st := Server.SearchDonors(QueryOf(SearchEntries(bloodGroup, city)), reply).executed[0];
      && st.text == Server.SearchSql(bloodGroup != "", city != "")
      && st.params == (if bloodGroup != "" then [Str(bloodGroup)] else [])
                      + (if city != "" then [Str("%" + city + "%")] else [])
  {
    SearchQueryValues(bloodGroup, city);
  }
}
