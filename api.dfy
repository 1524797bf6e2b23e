/** The portal client (api.go): the session renewal counters, the location
    cache, form resolution and the registration protocol. The package
    globals become the fields of one `Session` object; HTTP transport and
    HTML parsing are abstract inputs (a `Response`, and the pieces the
    parser extracts). Times are nanoseconds on one clock, as `time.Time`
    and `time.Duration` count them. */
module Api {
  import opened Types
  import opened Helpers

  const Second: int := 1_000_000_000
  const Hour: int := 3600 * Second

  /** `requestCounter >= 10` forces a renewal. */
  const ReloadAfterRequests: nat := 10

  /** `lastReloadDiff >= 15*60` compares a `time.Duration` with an untyped
      constant, so the threshold is 900 nanoseconds, not 15 minutes. */
  const ReloadAfterDuration: int := 15 * 60

  /** The location cache lives for 8 hours. */
  const CacheLifetime: int := 8 * Hour

  /** `init` dates the last renewal a year back... */
  const InitialReloadAge: int := 365 * 24 * Hour

  /** ...and the cache expiry one second back. */
  const InitialExpiryAge: int := Second

  /** What an outbound request yields: a transport error, or a status and
      the body text. */
  datatype Response = TransportError | Response(status: int, body: string)

  /** A step that either completes with a value or stops the process (a
      panic or `log.Fatal`). */
  datatype Step<T> = Done(value: T) | Halted

  /** The request counter after n more counted requests, wrapping at 2^64
      as `uint` does. */
  function AfterRequests(requestCounter: Uint64, n: nat): Uint64 {
    (requestCounter + n) % U64
  }

  /** Whether `tryReload` renews the session. */
  predicate ReloadDue(requestCounter: nat, lastReload: int, now: int) {
    requestCounter >= ReloadAfterRequests || now - lastReload >= ReloadAfterDuration
  }

  // ---------------------------------------------------------------- location index

  /** `cachedLocationsMap` as the loop of `GetLocations` fills it: each
      location under its id, a later one replacing an earlier one. */
  function IndexById(locs: seq<Location>): map<nat, Location> {
    if locs == [] then map[]
    else IndexById(locs[..|locs| - 1])[locs[|locs| - 1].id := locs[|locs| - 1]]
  }

  /** The index has a key for exactly the ids that occur. */
  lemma {:induction false} IndexByIdKeys(locs: seq<Location>)
    ensures forall id :: id in IndexById(locs) <==> exists i :: 0 <= i < |locs| && locs[i].id == id
    decreases |locs|
  {
    if locs != [] {
      var init := locs[..|locs| - 1];
      IndexByIdKeys(init);
      forall id | exists i :: 0 <= i < |locs| && locs[i].id == id
        ensures id in IndexById(locs)
      {
        var i :| 0 <= i < |locs| && locs[i].id == id;
        if i < |locs| - 1 { assert init[i].id == id; }
      }
      forall id | id in IndexById(locs)
        ensures exists i :: 0 <= i < |locs| && locs[i].id == id
      {
        if id != locs[|locs| - 1].id {
          assert id in IndexById(init);
          var i :| 0 <= i < |init| && init[i].id == id;
          assert locs[i].id == id;
        }
      }
    }
  }

  /** Every id maps to its last occurrence. */
  lemma {:induction false} IndexByIdLast(locs: seq<Location>, i: nat)
    requires i < |locs|
    requires forall j :: i < j < |locs| ==> locs[j].id != locs[i].id
    ensures locs[i].id in IndexById(locs) && IndexById(locs)[locs[i].id] == locs[i]
    decreases |locs|
  {
    if i < |locs| - 1 {
      var init := locs[..|locs| - 1];
      assert forall j :: i < j < |init| ==> init[j].id != init[i].id;
      IndexByIdLast(init, i);
    }
  }

  /** The map-building loop of `GetLocations`. */
  method BuildIndex(locs: seq<Location>) returns (m: map<nat, Location>)
    ensures m == IndexById(locs)
  {
    m := map[];
    var i := 0;
    while i < |locs|
      invariant 0 <= i <= |locs|
      invariant m == IndexById(locs[..i])
    {
      assert locs[..i + 1][..i] == locs[..i];
      m := m[locs[i].id := locs[i]];
      i := i + 1;
    }
    assert locs[..i] == locs;
  }

  // ---------------------------------------------------------------- forms

  /** What the HTML parser extracts from a form fragment: whether the
      guest-code input is present, the `data-resident-profile-id` attribute
      of the "next" button, the visible fields and hidden input ids, the
      heading text and the text of the element after the heading. */
  datatype Page = Page(guestCodeInput: bool, residentProfileId: Option<string>, fields: seq<Field>,
                       hiddenInputs: seq<string>, title: string, addressText: string)

  /** A form fragment as goquery reads it. */
  datatype Document = Unparsable | Parsed(page: Page)

  datatype FormError = ParseFailed | GuestCodeInvalid | ResidentIdMissing

  /** `GetFormResult`; a nil `err` is `None`. */
  datatype FormResult = FormResult(propertyName: string, address: string, fields: seq<Field>,
                                   hiddenInputs: seq<string>, requireGuestCode: bool,
                                   residentProfileId: string, err: Option<FormError>)

  /** A zero `GetFormResult` with only the given flag and error. */
  function Bare(requireGuestCode: bool, err: Option<FormError>): FormResult {
    FormResult("", "", [], [], requireGuestCode, "", err)
  }

  predicate IsSpace(c: char) {
    c == ' ' || c == '\t' || c == '\n' || c == '\r' || c == 11 as char || c == 12 as char
  }

  /** Everything of s before index i and from index j on is white space. */
  ghost predicate SpaceOutside(s: string, i: int, j: int) {
    && 0 <= i <= j <= |s|
    && (forall k :: 0 <= k < i ==> IsSpace(s[k]))
    && (forall k :: j <= k < |s| ==> IsSpace(s[k]))
  }

  /** `strings.TrimSpace`, on the ASCII white space: what is left of s
      once the white space before its first and after its last other
      character is cut off. */
  function TrimSpace(s: string): (r: string)
    ensures |r| <= |s| && Contains(s, r)
    ensures r != [] ==> !IsSpace(r[0]) && !IsSpace(r[|r| - 1])
    ensures exists i, j :: SpaceOutside(s, i, j) && r == s[i..j]
    ensures s != [] && !IsSpace(s[0]) && !IsSpace(s[|s| - 1]) ==> r == s
    decreases |s|
  {
    if s == [] then
      assert SpaceOutside(s, 0, 0) && s == s[0..0];
      s
    else if IsSpace(s[0]) then
      var r := TrimSpace(s[1..]);
      ghost var i, j :| SpaceOutside(s[1..], i, j) && r == s[1..][i..j];
      SpaceOutsideFront(s, i, j);
      r
    else if IsSpace(s[|s| - 1]) then
      var r := TrimSpace(s[..|s| - 1]);
      ContainsInPrefix(s, |s| - 1, r);
      ghost var i, j :| SpaceOutside(s[..|s| - 1], i, j) && r == s[..|s| - 1][i..j];
      SpaceOutsideBack(s, i, j);
      r
    else
      assert HasPrefix(s, s);
      assert SpaceOutside(s, 0, |s|) && s == s[0..|s|];
      s
  }

  /** Putting a white-space character in front keeps the cut around the
      same characters. */
  lemma SpaceOutsideFront(s: string, i: int, j: int)
    requires s != [] && IsSpace(s[0]) && SpaceOutside(s[1..], i, j)
    ensures SpaceOutside(s, i + 1, j + 1) && s[1..][i..j] == s[i + 1..j + 1]
  {
    forall k | 0 <= k < i + 1 ensures IsSpace(s[k]) { if k > 0 { assert s[k] == s[1..][k - 1]; } }
    forall k | j + 1 <= k < |s| ensures IsSpace(s[k]) { assert s[k] == s[1..][k - 1]; }
  }

  /** Putting a white-space character at the end keeps the cut too. */
  lemma SpaceOutsideBack(s: string, i: int, j: int)
    requires s != [] && IsSpace(s[|s| - 1]) && SpaceOutside(s[..|s| - 1], i, j)
    ensures SpaceOutside(s, i, j) && s[..|s| - 1][i..j] == s[i..j]
  {
    forall k | 0 <= k < i ensures IsSpace(s[k]) { assert s[k] == s[..|s| - 1][k]; }
    forall k | j <= k < |s| ensures IsSpace(s[k]) { if k < |s| - 1 { assert s[k] == s[..|s| - 1][k]; } }
  }

  /** A substring of a prefix is a substring of the whole. */
  lemma {:induction false} ContainsInPrefix(s: string, n: nat, sub: string)
    requires n <= |s| && Contains(s[..n], sub)
    ensures Contains(s, sub)
    decreases n
  {
    if HasPrefix(s[..n], sub) {
      assert s[..|sub|] == s[..n][..|sub|];
    } else {
      assert s[..n][1..] == s[1..][..n - 1];
      ContainsInPrefix(s[1..], n - 1, sub);
    }
  }

  /** `GetForm`'s reading of the public form: a parse failure is an error;
      a page with the guest-code input says a code is required and carries
      nothing else; otherwise the page's pieces, with a missing profile id
      read as "". */
  function PublicFormResult(doc: Document): (r: FormResult)
    ensures doc.Unparsable? <==> r.err.Some?
    ensures r.err.Some? ==> r == Bare(false, Some(ParseFailed))
    ensures r.requireGuestCode <==> doc.Parsed? && doc.page.guestCodeInput
    ensures r.requireGuestCode ==> r == Bare(true, None)
    ensures doc.Parsed? && !doc.page.guestCodeInput ==>
              && r.fields == doc.page.fields
              && r.hiddenInputs == doc.page.hiddenInputs
              && r.propertyName == doc.page.title
              && r.address == TrimSpace(doc.page.addressText)
              && r.residentProfileId == doc.page.residentProfileId.GetOr("")
  {
    match doc
    case Unparsable => Bare(false, Some(ParseFailed))
    case Parsed(p) =>
      if p.guestCodeInput then Bare(true, None)
      else FormResult(p.title, TrimSpace(p.addressText), p.fields, p.hiddenInputs, false,
                      p.residentProfileId.GetOr(""), None)
  }

  /** `GetVipForm`'s reading of the guest-code form: the literal body
      "guest-code" means the code was rejected; a parse failure or a missing
      profile id is an error; otherwise the page's pieces. */
  function VipFormResult(body: string, doc: Document): (r: FormResult)
    ensures r.requireGuestCode <==> body == "guest-code"
    ensures body == "guest-code" ==> r == Bare(true, Some(GuestCodeInvalid))
    ensures r.err.None? <==> body != "guest-code" && doc.Parsed? && doc.page.residentProfileId.Some?
    ensures r.err.None? ==>
              && r.fields == doc.page.fields
              && r.hiddenInputs == doc.page.hiddenInputs
              && r.propertyName == doc.page.title
              && r.address == TrimSpace(doc.page.addressText)
              && r.residentProfileId == doc.page.residentProfileId.value
    ensures body != "guest-code" && doc.Unparsable? ==> r == Bare(false, Some(ParseFailed))
    ensures body != "guest-code" && doc.Parsed? && doc.page.residentProfileId.None? ==>
              r == Bare(false, Some(ResidentIdMissing))
  {
    if body == "guest-code" then Bare(true, Some(GuestCodeInvalid))
    else match doc
      case Unparsable => Bare(false, Some(ParseFailed))
      case Parsed(p) =>
        if p.residentProfileId.None? then Bare(false, Some(ResidentIdMissing))
        else FormResult(p.title, TrimSpace(p.addressText), p.fields, p.hiddenInputs, false,
                        p.residentProfileId.value, None)
  }

  /** A rejected guest code (VIP form) and a first-time "code required"
      (public form) are told apart by the error, and neither carries form
      data. */
  lemma GuestCodeOutcomesDistinct(body: string, vipDoc: Document, publicDoc: Document)
    ensures var v := VipFormResult(body, vipDoc);
            var p := PublicFormResult(publicDoc);
            v.requireGuestCode && p.requireGuestCode ==>
              (v != p && v.err.Some? && p.err.None?
               && v.fields == p.fields == [] && v.hiddenInputs == p.hiddenInputs == [])
  {
  }

  // ---------------------------------------------------------------- registration

  /** A calendar time as `time.Parse` returns it; the zero `time.Time` is
      January 1 of year 1. */
  datatype DateTime = DateTime(year: int, month: int, day: int, hour: int, minute: int)

  const ZeroTime: DateTime := DateTime(1, 1, 1, 0, 0)

  /** What the parser extracts from a registration result fragment: the
      `data-vehicle-id` capture, the text after the "Confirmation Code:"
      paragraph, and the parsed "Date/Time:" timestamp (None when the block,
      the pattern match or `time.Parse` failed). */
  datatype ResultPage = ResultPage(parseOk: bool, vehicleIdMatch: Option<string>,
                                   confirmationCode: Option<string>, timestamp: Option<DateTime>)

  datatype RegistrationResult = RegistrationResult(success: bool, timestamp: DateTime,
                                                   confirmationCode: string, vehicleId: string)

  datatype RegistrationError = UnexpectedResponse | ResultUnparsable

  /** `RegisterVehicle`'s reading of the portal's answer: "Approved"
      anywhere is success; otherwise "Denied" anywhere is a denial; neither
      is an error. The vehicle id and confirmation code are read only on
      success; the timestamp in both cases, zero when not found. */
  function ClassifyRegistration(html: string, page: ResultPage): (r: Result<RegistrationResult, RegistrationError>)
    ensures !Contains(html, "Approved") && !Contains(html, "Denied") ==> r == Failure(UnexpectedResponse)
    ensures (Contains(html, "Approved") || Contains(html, "Denied")) && !page.parseOk ==> r == Failure(ResultUnparsable)
    ensures r.Success? <==> (Contains(html, "Approved") || Contains(html, "Denied")) && page.parseOk
    ensures r.Success? ==> (r.value.success <==> Contains(html, "Approved"))
    ensures r.Success? && !r.value.success ==> r.value.vehicleId == "" && r.value.confirmationCode == ""
    ensures r.Success? && r.value.success ==>
              (r.value.vehicleId == page.vehicleIdMatch.GetOr("")
               && r.value.confirmationCode == page.confirmationCode.GetOr(""))
    ensures r.Success? ==> r.value.timestamp == page.timestamp.GetOr(ZeroTime)
  {
    var success := Contains(html, "Approved");
    if !success && !Contains(html, "Denied") then Failure(UnexpectedResponse)
    else if !page.parseOk then Failure(ResultUnparsable)
    else
      var vehicleId := if success then page.vehicleIdMatch.GetOr("") else "";
      var confirmationCode := if success then page.confirmationCode.GetOr("") else "";
      Success(RegistrationResult(success, page.timestamp.GetOr(ZeroTime), confirmationCode, vehicleId))
  }

  /** The fixed protocol fields of a registration body. */
  function FixedFields(propertyId: Uint64, residentProfileId: Uint64): map<string, string> {
    map["propertySource" := "parking-snap",
        "propertyIdSelected" := NatDigits(propertyId),
        "residentProfileId" := NatDigits(residentProfileId)]
  }

  /** The precedence of the registration body: a caller's field beats a
      hidden field (sent empty), which beats a fixed field. */
  ghost predicate IsRegistrationBody(body: map<string, string>, formParams: map<string, string>,
                                     propertyId: Uint64, residentProfileId: Uint64, hiddenParams: seq<string>)
  {
    var fixed := FixedFields(propertyId, residentProfileId);
    && body.Keys == fixed.Keys + (set h | h in hiddenParams) + formParams.Keys
    && (forall k :: k in formParams ==> body[k] == formParams[k])
    && (forall k :: k !in formParams && k in hiddenParams ==> body[k] == "")
    && (forall k :: k !in formParams && k !in hiddenParams && k in fixed ==> body[k] == fixed[k])
  }

  /** The two `Set` loops that fill the registration body. */
  method RegistrationBody(formParams: map<string, string>, propertyId: Uint64, residentProfileId: Uint64,
                          hiddenParams: seq<string>) returns (body: map<string, string>)
    ensures IsRegistrationBody(body, formParams, propertyId, residentProfileId, hiddenParams)
  {
    body := FixedFields(propertyId, residentProfileId);
    var i := 0;
    while i < |hiddenParams|
      invariant 0 <= i <= |hiddenParams|
      invariant body.Keys == FixedFields(propertyId, residentProfileId).Keys + (set h | h in hiddenParams[..i])
      invariant forall k :: k in hiddenParams[..i] ==> body[k] == ""
      invariant forall k :: k !in hiddenParams[..i] && k in body ==> body[k] == FixedFields(propertyId, residentProfileId)[k]
    {
      assert hiddenParams[..i + 1] == hiddenParams[..i] + [hiddenParams[i]];
      body := body[hiddenParams[i] := ""];
      i := i + 1;
    }
    assert hiddenParams[..i] == hiddenParams;
    ghost var base := body;
    var keys := formParams.Keys;
    while keys != {}
      invariant keys <= formParams.Keys
      invariant body.Keys == base.Keys + (formParams.Keys - keys)
      invariant forall k :: k in formParams.Keys - keys ==> body[k] == formParams[k]
      invariant forall k :: k in body && k !in formParams.Keys - keys ==> body[k] == base[k]
      decreases keys
    {
      var key :| key in keys;
      body := body[key := formParams[key]];
      keys := keys - {key};
    }
  }

  /** `RegisterEmailConfirmation`'s reading of the answer: only status 200
      with the body "ok" is success. */
  function ConfirmationOutcome(status: int, body: string): (ok: bool)
    ensures ok <==> status == 200 && body == "ok"
  {
    if status != 200 then false else body == "ok"
  }

  /** The parameters of the confirmation request. */
  function ConfirmationParams(email: string, vehicleId: string, propertyId: string): seq<(string, string)> {
    [("email", email), ("vehicleId", vehicleId), ("propertyId", propertyId), ("propertySource", "parking-snap")]
  }

  /** Printable ASCII other than `#`: text that leaves `url.Parse` alone. */
  predicate Plain(s: string) {
    forall i :: 0 <= i < |s| ==> ' ' < s[i] <= '~' && s[i] != '#'
  }

  lemma PlainKeys()
    ensures Plain("email") && Plain("vehicleId") && Plain("propertyId")
    ensures Plain("propertySource") && Plain("parking-snap")
  {
  }

  /** With a plain key, a `#` or a control byte in `key=value` is in the
      value. */
  lemma PlainPairChar(p: (string, string), x: char)
    requires Plain(p.0)
    requires x == '#' || IsControl(x)
    ensures x in PairText(p) <==> x in p.1
  {
  }

  const ConfirmationPath: string := "/register-vehicle-confirmation-process"

  /** The confirmation URL, its parameters in the order `visit` gives them;
      their values are not escaped. */
  function ConfirmationUrl(visit: seq<(string, string)>): string {
    RequestUrl(ConfirmationPath, visit)
  }

  /** The portal's confirmation address holds neither a `#` nor a control
      byte. */
  lemma ConfirmationTargetPlain()
    ensures forall c :: c in Target(ConfirmationPath) ==> c != '#' && !IsControl(c)
  {
    PlainBaseUrl();
    PlainConfirmationPath();
    assert !HasPrefix(ConfirmationPath, "http") by {
      assert ConfirmationPath[..4][0] == ConfirmationPath[0] == '/';
    }
    assert Target(ConfirmationPath) == BaseUrl + ConfirmationPath;
    forall c | c in BaseUrl + ConfirmationPath
      ensures c != '#' && !IsControl(c)
    {
      var i :| 0 <= i < |BaseUrl + ConfirmationPath| && (BaseUrl + ConfirmationPath)[i] == c;
      if i < |BaseUrl| {
        assert BaseUrl[i] == c;
      } else {
        assert ConfirmationPath[i - |BaseUrl|] == c;
      }
    }
  }

  lemma PlainBaseUrl()
    ensures Plain(BaseUrl)
  {
  }

  lemma PlainConfirmationPath()
    ensures Plain(ConfirmationPath)
  {
  }

  /** A `#` or a control byte occurs in the confirmation URL exactly when it
      occurs in one of the caller's three values: the fixed text around them
      has neither. */
  lemma ConfirmationUrlChars(email: string, vehicleId: string, propertyId: string,
                             visit: seq<(string, string)>, x: char)
    requires multiset(visit) == multiset(ConfirmationParams(email, vehicleId, propertyId))
    requires x == '#' || IsControl(x)
    ensures x in ConfirmationUrl(visit) <==> x in email || x in vehicleId || x in propertyId
  {
    var params := ConfirmationParams(email, vehicleId, propertyId);
    assert |visit| == 4 by {
      assert |multiset(visit)| == |visit|;
    }
    ConfirmationTargetPlain();
    JoinPairs(visit, x);
    forall p ensures p in visit <==> p in params {
      assert p in visit <==> p in multiset(visit);
    }
    ConfirmationPairChars(email, vehicleId, propertyId, x);
  }

  /** Some parameter's `key=value` text holds the character. */
  predicate InSomePair(x: char, params: seq<(string, string)>) {
    exists p :: p in params && x in PairText(p)
  }

  /** A character of the joined parameter texts other than the separator
      comes from one of the parameters. */
  lemma JoinPairs(params: seq<(string, string)>, x: char)
    requires x != '&'
    ensures x in Join(PairTexts(params), "&") <==> InSomePair(x, params)
  {
    var texts := PairTexts(params);
    JoinMembers(texts, "&", x);
    forall t | t in texts
      ensures exists p :: p in params && t == PairText(p)
    {
      var i :| 0 <= i < |texts| && texts[i] == t;
      assert params[i] in params;
    }
    forall p | p in params
      ensures PairText(p) in texts
    {
      var i :| 0 <= i < |params| && params[i] == p;
      assert texts[i] == PairText(p);
    }
  }

  /** In the confirmation parameters, a `#` or a control byte can only come
      from one of the caller's three values. */
  lemma ConfirmationPairChars(email: string, vehicleId: string, propertyId: string, x: char)
    requires x == '#' || IsControl(x)
    ensures InSomePair(x, ConfirmationParams(email, vehicleId, propertyId))
            <==> x in email || x in vehicleId || x in propertyId
  {
    var params := ConfirmationParams(email, vehicleId, propertyId);
    PlainKeys();
    if InSomePair(x, params) {
      var p :| p in params && x in PairText(p);
      assert x in p.1 by {
        PlainPairChar(p, x);
      }
    }
    if x in email {
      assert params[0] in params && x in PairText(params[0]);
    } else if x in vehicleId {
      assert params[1] in params && x in PairText(params[1]);
    } else if x in propertyId {
      assert params[2] in params && x in PairText(params[2]);
    }
  }

  /** `url.Parse` refuses the confirmation URL exactly when one of the three
      values holds a control byte, provided none holds a `#` (which would
      move the rest of the URL into a fragment). */
  lemma ConfirmationUrlRejected(email: string, vehicleId: string, propertyId: string,
                                visit: seq<(string, string)>)
    requires multiset(visit) == multiset(ConfirmationParams(email, vehicleId, propertyId))
    requires '#' !in email && '#' !in vehicleId && '#' !in propertyId
    ensures UrlRejected(ConfirmationUrl(visit))
            <==> exists c :: (c in email || c in vehicleId || c in propertyId) && IsControl(c)
  {
    var url := ConfirmationUrl(visit);
    ConfirmationUrlChars(email, vehicleId, propertyId, visit, '#');
    assert FragmentStart(url) == |url|;
    forall c | IsControl(c)
      ensures c in url <==> c in email || c in vehicleId || c in propertyId
    {
      ConfirmationUrlChars(email, vehicleId, propertyId, visit, c);
    }
  }

  // ---------------------------------------------------------------- the session

  /** The package state of api.go: the renewal counters and the location
      cache (the HTTP client and its cookie jar are not modelled). */
  class Session {
    var requestCounter: Uint64
    var lastReload: int
    var cachedLocations: seq<Location>
    var cachedLocationsMap: map<nat, Location>
    var cacheExpiry: int

    /** The id index always matches the cached list. */
    ghost predicate Valid()
      reads this
    {
      cachedLocationsMap == IndexById(cachedLocations)
    }

    /** `init`: nothing cached, a renewal and a refetch due at once. */
    constructor(now: int)
      ensures Valid()
      ensures requestCounter == 0 && cachedLocations == []
      ensures lastReload == now - InitialReloadAge && cacheExpiry == now - InitialExpiryAge
      ensures forall t :: t >= now ==> ReloadDue(requestCounter, lastReload, t) && !(t < cacheExpiry)
    {
      requestCounter := 0;
      lastReload := now - InitialReloadAge;
      cachedLocations := [];
      cachedLocationsMap := map[];
      cacheExpiry := now - InitialExpiryAge;
    }

    /** `onRequest`: one more request; `uint` wraps at 2^64. */
    method OnRequest()
      modifies this
      ensures requestCounter == (old(requestCounter) + 1) % U64
      ensures lastReload == old(lastReload) && cacheExpiry == old(cacheExpiry)
      ensures cachedLocations == old(cachedLocations) && cachedLocationsMap == old(cachedLocationsMap)
    {
      requestCounter := (requestCounter + 1) % U64;
    }

    /** `doRequest`: counts the request; on a transport error the response
        is nil and `onResponse` dereferences it, which panics. */
    method DoRequest(response: Response) returns (alive: bool)
      modifies this
      ensures alive <==> response.Response?
      ensures requestCounter == (old(requestCounter) + 1) % U64
      ensures lastReload == old(lastReload) && cacheExpiry == old(cacheExpiry)
      ensures cachedLocations == old(cachedLocations) && cachedLocationsMap == old(cachedLocationsMap)
    {
      OnRequest();
      alive := response.Response?;
    }

    /** `reload`, opaquely: its two doorbell requests are counted, and it
        either finds the session cookie or panics. `sessionCookieFound`
        being false also stands for a doorbell request that failed in
        transport, since `onResponse(nil)` panics too; the counter after a
        panic is never read again. */
    method Reload(sessionCookieFound: bool) returns (alive: bool)
      modifies this
      ensures alive <==> sessionCookieFound
      ensures requestCounter == (old(requestCounter) + 2) % U64
      ensures lastReload == old(lastReload) && cacheExpiry == old(cacheExpiry)
      ensures cachedLocations == old(cachedLocations) && cachedLocationsMap == old(cachedLocationsMap)
    {
      OnRequest();
      OnRequest();
      alive := sessionCookieFound;
    }

    /** `tryReload` at time `now`: renews when 10 requests were made or 900
        ns passed since the last renewal; a renewal resets the counter and
        dates itself `now`, the time read on entry. */
    method TryReload(now: int, sessionCookieFound: bool) returns (r: Step<bool>)
      modifies this
      ensures r == Done(false) <==> !ReloadDue(old(requestCounter), old(lastReload), now)
      ensures r == Done(false) ==> requestCounter == old(requestCounter) && lastReload == old(lastReload)
      ensures r == Done(true) <==> ReloadDue(old(requestCounter), old(lastReload), now) && sessionCookieFound
      ensures r == Done(true) ==> requestCounter == 0 && lastReload == now
      ensures r == Halted <==> ReloadDue(old(requestCounter), old(lastReload), now) && !sessionCookieFound
      ensures r == Halted ==> lastReload == old(lastReload)
      ensures cacheExpiry == old(cacheExpiry)
      ensures cachedLocations == old(cachedLocations) && cachedLocationsMap == old(cachedLocationsMap)
    {
      var currentTime := now;
      var lastReloadDiff := currentTime - lastReload;
      if requestCounter >= ReloadAfterRequests {
      } else if lastReloadDiff >= ReloadAfterDuration {
      } else {
        return Done(false);
      }
      var alive := Reload(sessionCookieFound);
      if !alive {
        return Halted;
      }
      lastReload := currentTime;
      requestCounter := 0;
      r := Done(true);
    }

    /** `GetLocations` at time `now`: the cached list while the cache is
        fresh; otherwise a renewal check, the listing request, and (when the
        listing parses) a rebuilt list, index and expiry. A listing that does
        not parse yields nil and leaves the cache as it was. */
    method GetLocations(now: int, sessionCookieFound: bool, listing: Response, parsed: Option<seq<Location>>)
      returns (r: Step<seq<Location>>)
      requires Valid()
      modifies this
      ensures Valid()
      ensures now < old(cacheExpiry) ==>
                && r == Done(old(cachedLocations))
                && requestCounter == old(requestCounter) && lastReload == old(lastReload)
                && cachedLocations == old(cachedLocations) && cacheExpiry == old(cacheExpiry)
      ensures now >= old(cacheExpiry) ==>
                (r == Halted <==> (ReloadDue(old(requestCounter), old(lastReload), now) && !sessionCookieFound)
                                  || listing.TransportError?)
      ensures now >= old(cacheExpiry) && r.Done? && parsed.None? ==>
                r == Done([]) && cachedLocations == old(cachedLocations) && cacheExpiry == old(cacheExpiry)
      ensures now >= old(cacheExpiry) && r.Done? && parsed.Some? ==>
                && r == Done(parsed.value)
                && cachedLocations == parsed.value
                && cachedLocationsMap == IndexById(parsed.value)
                && cacheExpiry == now + CacheLifetime
      ensures now >= old(cacheExpiry) && r.Done? ==>
                && lastReload == (if ReloadDue(old(requestCounter), old(lastReload), now) then now else old(lastReload))
                && requestCounter == (if ReloadDue(old(requestCounter), old(lastReload), now) then 1
                                      else (old(requestCounter) + 1) % U64)
    {
      if now < cacheExpiry {
        return Done(cachedLocations);
      }
      var reloaded := TryReload(now, sessionCookieFound);
      if reloaded == Halted {
        return Halted;
      }
      var alive := DoRequest(listing);
      if !alive {
        return Halted;
      }
      if parsed.None? {
        return Done([]);
      }
      var locations := parsed.value;
      var index := BuildIndex(locations);
      cachedLocations := locations;
      cachedLocationsMap := index;
      cacheExpiry := now + CacheLifetime;
      r := Done(cachedLocations);
    }

    /** `GetForm`: one counted request, then the public-form reading of
        what the portal sent back. */
    method GetForm(response: Response, doc: Document) returns (r: Step<FormResult>)
      modifies this
      ensures r == (if response.TransportError? then Halted else Done(PublicFormResult(doc)))
      ensures requestCounter == (old(requestCounter) + 1) % U64
      ensures lastReload == old(lastReload) && cacheExpiry == old(cacheExpiry)
      ensures cachedLocations == old(cachedLocations) && cachedLocationsMap == old(cachedLocationsMap)
    {
      var alive := DoRequest(response);
      if !alive {
        return Halted;
      }
      r := Done(PublicFormResult(doc));
    }

    /** `GetVipForm`: one counted request, then the guest-code reading of
        the body the portal sent back. */
    method GetVipForm(response: Response, doc: Document) returns (r: Step<FormResult>)
      modifies this
      ensures r == (if response.TransportError? then Halted else Done(VipFormResult(response.body, doc)))
      ensures requestCounter == (old(requestCounter) + 1) % U64
      ensures lastReload == old(lastReload) && cacheExpiry == old(cacheExpiry)
      ensures cachedLocations == old(cachedLocations) && cachedLocationsMap == old(cachedLocationsMap)
    {
      var alive := DoRequest(response);
      if !alive {
        return Halted;
      }
      r := Done(VipFormResult(response.body, doc));
    }

    /** `RegisterVehicle`: the body it sends, one counted request, and the
        classification of the answer. */
    method RegisterVehicle(formParams: map<string, string>, propertyId: Uint64, residentProfileId: Uint64,
                           hiddenParams: seq<string>, response: Response, page: ResultPage)
      returns (body: map<string, string>, r: Step<Result<RegistrationResult, RegistrationError>>)
      modifies this
      ensures IsRegistrationBody(body, formParams, propertyId, residentProfileId, hiddenParams)
      ensures r == (if response.TransportError? then Halted else Done(ClassifyRegistration(response.body, page)))
      ensures requestCounter == (old(requestCounter) + 1) % U64
      ensures lastReload == old(lastReload) && cacheExpiry == old(cacheExpiry)
      ensures cachedLocations == old(cachedLocations) && cachedLocationsMap == old(cachedLocationsMap)
    {
      body := RegistrationBody(formParams, propertyId, residentProfileId, hiddenParams);
      var alive := DoRequest(response);
      if !alive {
        return body, Halted;
      }
      r := Done(ClassifyRegistration(response.body, page));
    }

    /** `RegisterEmailConfirmation`: the confirmation URL, whose four
        parameters appear in whatever order Go's map iteration visits them
        (`visit`), one counted request, and success only for status 200
        with body "ok". A URL that `url.Parse` rejects panics before any
        request is made. */
    method RegisterEmailConfirmation(email: string, vehicleId: string, propertyId: string,
                                     visit: seq<(string, string)>, response: Response)
      returns (url: string, r: Step<bool>)
      requires multiset(visit) == multiset(ConfirmationParams(email, vehicleId, propertyId))
      modifies this
      ensures url == ConfirmationUrl(visit)
      ensures UrlRejected(url) ==> r == Halted
      ensures !UrlRejected(url) ==> r == (if response.TransportError? then Halted
                                          else Done(response.status == 200 && response.body == "ok"))
      ensures UrlRejected(url) ==> requestCounter == old(requestCounter)
      ensures !UrlRejected(url) ==> requestCounter == AfterRequests(old(requestCounter), 1)
      ensures lastReload == old(lastReload) && cacheExpiry == old(cacheExpiry)
      ensures cachedLocations == old(cachedLocations) && cachedLocationsMap == old(cachedLocationsMap)
    {
      url := ConfirmationUrl(visit);
      var request := BuildRequest("GET", ConfirmationPath, visit);
      if request.None? {
        return url, Halted;
      }
      var alive := DoRequest(response);
      if !alive {
        return url, Halted;
      }
      r := Done(ConfirmationOutcome(response.status, response.body));
    }
  }
}
