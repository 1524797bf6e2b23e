/** The slash-command logic of commands.go: the `/code` command that
    stores a guest code, the guest-code decision of `/register` that picks
    and fetches a form and opens the registration modal, and the location
    autocomplete. Discord interactions become their option values and the
    reply the bot sends. */
module Commands {
  import opened Types
  import opened Helpers
  import opened Api
  import opened Data
  import opened Form

  // ---------------------------------------------------------------- options and replies

  /** One option of a command interaction: its name, its string value, and
      whether the user is typing in it (autocomplete). */
  datatype CommandOption = CommandOption(name: string, value: string, focused: bool)

  /** What the bot answers: an error embed (`HandleError`) or a message. */
  datatype Reply = Rejected(message: string) | Confirmed(message: string)

  const UnknownLocationMessage: string := "The location provided does not exist."
  const InvalidCodeMessage: string := "The code provided contains invalid characters."
  const GuestCodeRequiredMessage: string := ":x: This location requires a guest code."
  const StoredCodeInvalidMessage: string :=
    ":x: This location requires a guest code and the one stored was not valid (and subsequently deleted)."
  const ProvidedCodeInvalidMessage: string :=
    ":x: This location requires a guest code and the one provided was not valid."

  /** An id parsed with `strconv.Atoi`, keeping the value Go returns even
      when the error is ignored. */
  function ParsedId(s: string): Int64 {
    Atoi(s).value
  }

  // ---------------------------------------------------------------- /code

  predicate IsAsciiAlnum(c: char) {
    'a' <= c <= 'z' || 'A' <= c <= 'Z' || '0' <= c <= '9'
  }

  /** `codePattern`, `^[a-zA-Z0-9]{4,12}$`. */
  predicate ValidCode(code: string) {
    4 <= |code| <= 12 && forall i :: 0 <= i < |code| ==> IsAsciiAlnum(code[i])
  }

  /** The confirmation text of `/code`. */
  function CodeConfirmation(locationName: string, alreadySet: bool): string {
    "Your guest code at \"" + locationName + "\" has been " + (if alreadySet then "updated." else "set.")
  }

  /** The `/code` command: reject an unknown location, then an invalid
      code, both before anything is stored; otherwise store the code and
      say whether it was set or updated. Parse errors of the ids are
      ignored, as in the source. */
  method CodeCommand(session: Session, store: Store, options: seq<CommandOption>, userIdText: string)
    returns (r: Step<Reply>)
    requires session.Valid()
    modifies store
    ensures |options| < 2 ==> r == Halted && store.kv == old(store.kv)
    ensures |options| >= 2 && !LocationExists(session, ParsedId(options[0].value)) ==>
              r == Done(Rejected(UnknownLocationMessage)) && store.kv == old(store.kv)
    ensures |options| >= 2 && LocationExists(session, ParsedId(options[0].value)) && !ValidCode(options[1].value) ==>
              r == Done(Rejected(InvalidCodeMessage)) && store.kv == old(store.kv)
    ensures |options| >= 2 && LocationExists(session, ParsedId(options[0].value)) && ValidCode(options[1].value) ==>
              var key := CodeKey(ParsedId(options[0].value), ParsedId(userIdText));
              && store.kv == old(store.kv)[key := options[1].value]
              && ToUint(ParsedId(options[0].value)) in session.cachedLocationsMap
              && r == Done(Confirmed(CodeConfirmation(session.cachedLocationsMap[ToUint(ParsedId(options[0].value))].name,
                                                      key in old(store.kv))))
  {
    if |options| < 2 {
      return Halted;
    }
    var locationId := ParsedId(options[0].value);
    var code := options[1].value;
    var userId := ParsedId(userIdText);
    if !LocationExists(session, locationId) {
      return Done(Rejected(UnknownLocationMessage));
    }
    if !ValidCode(code) {
      return Done(Rejected(InvalidCodeMessage));
    }
    var alreadySet := store.StoreCode(code, locationId, userId);
    IndexByIdKeys(session.cachedLocations);
    var location := session.cachedLocationsMap[ToUint(locationId)];
    r := Done(Confirmed(CodeConfirmation(location.name, alreadySet)));
  }

  // ---------------------------------------------------------------- /register: the decision

  /** The outcome of the `lo.Find` scan for the "code" option. */
  datatype CodeScan = CodeScan(code: string, provided: bool)

  /** `lo.Find` over the options with the closure that assigns each visited
      option's value to `code` before testing its name: the first "code"
      option is found, and without one the last option's value is left in
      `code`. */
  function CodeOption(options: seq<CommandOption>): (r: CodeScan)
    ensures r.provided <==> exists i :: 0 <= i < |options| && options[i].name == "code"
    ensures r.provided ==> exists i :: && 0 <= i < |options| && options[i].name == "code"
                                       && r.code == options[i].value
                                       && forall j :: 0 <= j < i ==> options[j].name != "code"
    ensures !r.provided ==> r.code == (if options == [] then "" else options[|options| - 1].value)
    decreases |options|
  {
    if options == [] then CodeScan("", false)
    else if options[0].name == "code" then CodeScan(options[0].value, true)
    else if |options| == 1 then CodeScan(options[0].value, false)
    else
      var r := CodeOption(options[1..]);
      if r.provided then
        ghost var i :| 0 <= i < |options[1..]| && options[1..][i].name == "code" && r.code == options[1..][i].value
                       && forall j :: 0 <= j < i ==> options[1..][j].name != "code";
        assert options[i + 1].name == "code" && r.code == options[i + 1].value;
        assert forall j :: 0 <= j < i + 1 ==> options[j].name != "code" by {
          forall j | 0 <= j < i + 1 ensures options[j].name != "code" {
            if j > 0 { assert options[j] == options[1..][j - 1]; }
          }
        }
        r
      else
        assert forall i :: 0 <= i < |options| ==> options[i].name != "code" by {
          forall i | 0 <= i < |options| ensures options[i].name != "code" {
            if i > 0 { assert options[i] == options[1..][i - 1]; }
          }
        }
        r
  }

  /** Which way `RegisterCommandHandler` goes before fetching a form. */
  datatype Route =
    | BadLocationId                                  // the location option is not an integer
    | BadUserId                                      // the user id is not an integer
    | CodeDemanded                                   // no code given, none required, GetCode's flag false
    | ViaVipForm(code: string, usingStoredCode: bool) // fetch the guest-code form with `code`
    | ViaPublicForm(condition: CodeRequirement)      // fetch the public form

  /** The decision as written. `GetCode`'s flag is true when no code is
      stored, and the stored code it returns is bound to a new variable, so
      the "use the stored code" branch runs when nothing is stored and
      sends the outer `code`. */
  function RouteOf(options: seq<CommandOption>, userIdText: string, kv: map<string, string>): (r: Route)
    requires options != []
    ensures r == BadLocationId <==> Atoi(options[0].value).err != NoError
    ensures r == BadUserId <==> Atoi(options[0].value).err == NoError && Atoi(userIdText).err != NoError
    ensures r.ViaVipForm? ==> r.code == CodeOption(options).code
    ensures r.ViaVipForm? && !r.usingStoredCode <==>
              Atoi(options[0].value).err == NoError && Atoi(userIdText).err == NoError && CodeOption(options).provided
    ensures r.ViaVipForm? && r.usingStoredCode ==>
              && !CodeOption(options).provided
              && RequirementIn(kv, ParsedId(options[0].value)) == GuestCodeNotRequired
              && CodeKey(ParsedId(options[0].value), ParsedId(userIdText)) !in kv
    ensures r == CodeDemanded ==>
              && !CodeOption(options).provided
              && RequirementIn(kv, ParsedId(options[0].value)) == GuestCodeNotRequired
              && CodeKey(ParsedId(options[0].value), ParsedId(userIdText)) in kv
    ensures r.ViaPublicForm? ==>
              && !CodeOption(options).provided
              && r.condition == RequirementIn(kv, ParsedId(options[0].value)) != GuestCodeNotRequired
  {
    if Atoi(options[0].value).err != NoError then BadLocationId
    else
      var scan := CodeOption(options);
      if Atoi(userIdText).err != NoError then BadUserId
      else
        var locationId, userId := ParsedId(options[0].value), ParsedId(userIdText);
        var condition := RequirementIn(kv, locationId);
        if !scan.provided && condition == GuestCodeNotRequired then
          var absent := CodeKey(locationId, userId) !in kv;
          if !absent then CodeDemanded else ViaVipForm(scan.code, true)
        else if scan.provided then ViaVipForm(scan.code, false)
        else ViaPublicForm(condition)
  }

  /** With a stored code being "used", the code sent to the portal is the
      last option's value (the location id, when it is the only option). */
  lemma StoredCodeIsLastOption(options: seq<CommandOption>, userIdText: string, kv: map<string, string>)
    requires options != []
    ensures RouteOf(options, userIdText, kv).ViaVipForm? && RouteOf(options, userIdText, kv).usingStoredCode ==>
              RouteOf(options, userIdText, kv).code == options[|options| - 1].value
  {
  }

  // ---------------------------------------------------------------- /register: the modal

  /** `RegisterContext`, what the modal submission will need. */
  datatype RegisterContext = RegisterContext(hiddenKeys: seq<string>, propertyId: Uint64,
                                             requiredFormKeys: seq<string>, residentId: Uint64)

  /** A context with the time it expires. */
  datatype TimedContext = TimedContext(context: RegisterContext, expires: int)

  /** `SubmissionContexts`, keyed by interaction id (expiry is only
      recorded, never acted on). */
  class SubmissionContexts {
    var entries: map<Uint64, TimedContext>

    constructor()
      ensures entries == map[]
    {
      entries := map[];
    }

    /** `timedmap.Set` with a time to live. */
    method Set(key: Uint64, context: RegisterContext, now: int, ttl: int)
      modifies this
      ensures entries == old(entries)[key := TimedContext(context, now + ttl)]
    {
      entries := entries[key := TimedContext(context, now + ttl)];
    }
  }

  /** The extra row asking for an email address. */
  const EmailRow: ActionsRow :=
    ActionsRow([TextInput("email", "Email Address (for confirmation)", "", TextInputShort, false, 1, 0)])

  function FieldIds(fields: seq<Field>): (ids: seq<string>)
    ensures |ids| == |fields| && forall i :: 0 <= i < |fields| ==> ids[i] == fields[i].id
  {
    seq(|fields|, i requires 0 <= i < |fields| => fields[i].id)
  }

  /** The modal: a row per form field, then the email row. */
  function ModalRows(fields: seq<Field>): (rows: seq<ActionsRow>)
    ensures |rows| == |fields| + 1 && rows[|fields|] == EmailRow
    ensures forall i :: 0 <= i < |fields| ==> rows[i] == ActionsRow([ComponentFor(fields[i])])
  {
    seq(|fields|, i requires 0 <= i < |fields| => ActionsRow([ComponentFor(fields[i])])) + [EmailRow]
  }

  /** How `/register` ends without halting: an error embed without an
      error value, or the registration modal with its custom id and rows. */
  datatype RegisterOutcome =
    | Refused(message: string)
    | Presented(modalId: string, rows: seq<ActionsRow>)

  /** Everything `/register` leaves behind: the outcome, the code sent with
      a guest-code form request (None when none was sent), the number of
      requests made to the portal, and the new store and context map. */
  datatype Registration = Registration(outcome: Step<RegisterOutcome>, vipCode: Option<string>, requests: nat,
                                       kv: map<string, string>, entries: map<Uint64, TimedContext>)

  /** Presenting a form: the interaction id and the resident profile id
      are parsed first, and a parse error goes to `HandleError` with a
      non-nil error, which panics; otherwise the modal opens and its
      context is stored for one hour under the interaction id. */
  function Present(form: FormResult, locationId: Int64, interactionId: string, now: int, vipCode: Option<string>,
                   requests: nat, kv: map<string, string>, entries: map<Uint64, TimedContext>): Registration
  {
    var registerIdentifier, residentProfileId := ParseUint(interactionId), ParseUint(form.residentProfileId);
    if registerIdentifier.err != NoError || residentProfileId.err != NoError then
      Registration(Halted, vipCode, requests, kv, entries)
    else
      var context := RegisterContext(form.hiddenInputs, ToUint(locationId), FieldIds(form.fields),
                                     residentProfileId.value);
      Registration(Done(Presented("register:" + interactionId, ModalRows(form.fields))),
                   vipCode, requests, kv, entries[registerIdentifier.value := TimedContext(context, now + Hour)])
  }

  /** After fetching the guest-code form with `code`: a form that still
      asks for a code is an error, and the stored code, when it was the one
      used, is deleted; otherwise the modal opens. */
  function VipFlow(code: string, usingStoredCode: bool, locationId: Int64, userId: Int64, interactionId: string,
                   now: int, kv: map<string, string>, entries: map<Uint64, TimedContext>,
                   vipResponse: Response, vipDoc: Document): Registration
  {
    if vipResponse.TransportError? then Registration(Halted, Some(code), 1, kv, entries)
    else
      var form := VipFormResult(vipResponse.body, vipDoc);
      if !form.requireGuestCode then Present(form, locationId, interactionId, now, Some(code), 1, kv, entries)
      else if usingStoredCode then
        Registration(Done(Refused(StoredCodeInvalidMessage)), Some(code), 1, kv - {CodeKey(locationId, userId)}, entries)
      else Registration(Done(Refused(ProvidedCodeInvalidMessage)), Some(code), 1, kv, entries)
  }

  /** After fetching the public form: a form that asks for a code is an
      error, and a location whose requirement was unknown is marked as
      requiring one; otherwise the modal opens. */
  function PublicFlow(condition: CodeRequirement, locationId: Int64, interactionId: string, now: int,
                      encode: bool -> string, kv: map<string, string>, entries: map<Uint64, TimedContext>,
                      publicResponse: Response, publicDoc: Document): Registration
  {
    if publicResponse.TransportError? then Registration(Halted, None, 1, kv, entries)
    else
      var form := PublicFormResult(publicDoc);
      if !form.requireGuestCode then Present(form, locationId, interactionId, now, None, 1, kv, entries)
      else
        var kv' := if condition == Unknown then kv[RequirementKey(locationId) := encode(true)] else kv;
        Registration(Done(Refused(GuestCodeRequiredMessage)), None, 1, kv', entries)
  }

  /** The application-command branch of `RegisterCommandHandler`, given
      the store and context map before it, the two possible form responses,
      and `encode`, the text the Redis client writes for a Go `bool`. A
      location or user id that is not an integer goes to `HandleError`
      with the parse error, which panics. */
  function RegisterFlow(options: seq<CommandOption>, userIdText: string, interactionId: string, now: int,
                        encode: bool -> string, kv: map<string, string>, entries: map<Uint64, TimedContext>,
                        vipResponse: Response, vipDoc: Document, publicResponse: Response, publicDoc: Document)
    : Registration
  {
    if options == [] then Registration(Halted, None, 0, kv, entries)
    else
      RouteFlow(RouteOf(options, userIdText, kv), ParsedId(options[0].value), ParsedId(userIdText), interactionId,
                now, encode, kv, entries, vipResponse, vipDoc, publicResponse, publicDoc)
  }

  /** The handler once its route is decided. */
  function RouteFlow(route: Route, locationId: Int64, userId: Int64, interactionId: string, now: int,
                     encode: bool -> string, kv: map<string, string>, entries: map<Uint64, TimedContext>,
                     vipResponse: Response, vipDoc: Document, publicResponse: Response, publicDoc: Document)
    : Registration
  {
    match route
    case BadLocationId => Registration(Halted, None, 0, kv, entries)
    case BadUserId => Registration(Halted, None, 0, kv, entries)
    case CodeDemanded => Registration(Done(Refused(GuestCodeRequiredMessage)), None, 0, kv, entries)
    case ViaVipForm(code, usingStoredCode) =>
      VipFlow(code, usingStoredCode, locationId, userId, interactionId, now, kv, entries, vipResponse, vipDoc)
    case ViaPublicForm(condition) =>
      PublicFlow(condition, locationId, interactionId, now, encode, kv, entries, publicResponse, publicDoc)
  }

  /** `RegisterCommandHandler` for an application command. The session
      makes one counted request exactly when the route fetches a form. */
  method RegisterCommand(session: Session, store: Store, contexts: SubmissionContexts,
                         options: seq<CommandOption>, userIdText: string, interactionId: string, now: int,
                         encode: bool -> string,
                         vipResponse: Response, vipDoc: Document, publicResponse: Response, publicDoc: Document)
    returns (r: Step<RegisterOutcome>, vipCode: Option<string>)
    modifies session, store, contexts
    ensures var flow := RegisterFlow(options, userIdText, interactionId, now, encode, old(store.kv), old(contexts.entries),
                                     vipResponse, vipDoc, publicResponse, publicDoc);
            && r == flow.outcome && vipCode == flow.vipCode && store.kv == flow.kv && contexts.entries == flow.entries
            && session.requestCounter == AfterRequests(old(session.requestCounter), flow.requests)
    ensures session.lastReload == old(session.lastReload) && session.cacheExpiry == old(session.cacheExpiry)
    ensures session.cachedLocations == old(session.cachedLocations)
    ensures session.cachedLocationsMap == old(session.cachedLocationsMap)
  {
    if options == [] {
      return Halted, None;
    }
    var route := Decide(store, options, userIdText);
    assert RegisterFlow(options, userIdText, interactionId, now, encode, store.kv, contexts.entries,
                        vipResponse, vipDoc, publicResponse, publicDoc)
        == RouteFlow(route, ParsedId(options[0].value), ParsedId(userIdText), interactionId, now, encode,
                     store.kv, contexts.entries, vipResponse, vipDoc, publicResponse, publicDoc);
    r, vipCode := TakeRoute(session, store, contexts, route, ParsedId(options[0].value), ParsedId(userIdText),
                            interactionId, now, encode, vipResponse, vipDoc, publicResponse, publicDoc);
  }

  /** Whether the handler gets as far as requesting a form. */
  predicate FetchesForm(options: seq<CommandOption>, userIdText: string, kv: map<string, string>) {
    options != [] && (RouteOf(options, userIdText, kv).ViaVipForm? || RouteOf(options, userIdText, kv).ViaPublicForm?)
  }

  /** The handler after the decision: halt on an id that did not parse,
      refuse when a code is demanded, or take the guest-code or public form
      branch. */
  method TakeRoute(session: Session, store: Store, contexts: SubmissionContexts, route: Route,
                   locationId: Int64, userId: Int64, interactionId: string, now: int, encode: bool -> string,
                   vipResponse: Response, vipDoc: Document, publicResponse: Response, publicDoc: Document)
    returns (r: Step<RegisterOutcome>, vipCode: Option<string>)
    modifies session, store, contexts
    ensures var flow := RouteFlow(route, locationId, userId, interactionId, now, encode, old(store.kv),
                                  old(contexts.entries), vipResponse, vipDoc, publicResponse, publicDoc);
            && r == flow.outcome && vipCode == flow.vipCode && store.kv == flow.kv && contexts.entries == flow.entries
            && session.requestCounter == AfterRequests(old(session.requestCounter), flow.requests)
    ensures session.lastReload == old(session.lastReload) && session.cacheExpiry == old(session.cacheExpiry)
    ensures session.cachedLocations == old(session.cachedLocations)
    ensures session.cachedLocationsMap == old(session.cachedLocationsMap)
  {
    match route
    case BadLocationId =>
      return Halted, None;
    case BadUserId =>
      return Halted, None;
    case CodeDemanded =>
      return Done(Refused(GuestCodeRequiredMessage)), None;
    case ViaVipForm(code, usingStoredCode) =>
      VipFlowFacts(code, usingStoredCode, locationId, userId, interactionId, now, store.kv, contexts.entries,
                   vipResponse, vipDoc);
      r := VipBranch(session, store, contexts, code, usingStoredCode, locationId, userId, interactionId, now,
                     vipResponse, vipDoc);
      vipCode := Some(code);
    case ViaPublicForm(condition) =>
      PublicFlowFacts(condition, locationId, interactionId, now, encode, store.kv, contexts.entries,
                      publicResponse, publicDoc);
      r := PublicBranch(session, store, contexts, condition, locationId, interactionId, now, encode,
                        publicResponse, publicDoc);
      vipCode := None;
  }

  /** The checks of the handler before any form is fetched: the two id
      parses, the option scan, the requirement lookup and, with no code given
      and none required, the stored-code lookup. */
  method Decide(store: Store, options: seq<CommandOption>, userIdText: string) returns (route: Route)
    requires options != []
    ensures route == RouteOf(options, userIdText, store.kv)
  {
    var location := Atoi(options[0].value);
    if location.err != NoError {
      return BadLocationId;
    }
    var locationId: Int64 := location.value;
    var scan := CodeOption(options);
    var code, guestCodeProvided := scan.code, scan.provided;
    var useStoredCode := false;
    var user := Atoi(userIdText);
    if user.err != NoError {
      return BadUserId;
    }
    var userId: Int64 := user.value;
    var condition := store.GetCodeRequirement(locationId);
    if !guestCodeProvided && condition == GuestCodeNotRequired {
      var storedCode, ok := store.GetCode(locationId, userId);
      if !ok {
        return CodeDemanded;
      }
      guestCodeProvided := true;
      useStoredCode := true;
    }
    if guestCodeProvided {
      return ViaVipForm(code, useStoredCode);
    }
    return ViaPublicForm(condition);
  }

  /** The guest-code form branch of the handler. */
  method VipBranch(session: Session, store: Store, contexts: SubmissionContexts, code: string, usingStoredCode: bool,
                   locationId: Int64, userId: Int64, interactionId: string, now: int,
                   vipResponse: Response, vipDoc: Document)
    returns (r: Step<RegisterOutcome>)
    modifies session, store, contexts
    ensures var flow := VipFlow(code, usingStoredCode, locationId, userId, interactionId, now,
                                old(store.kv), old(contexts.entries), vipResponse, vipDoc);
            r == flow.outcome && store.kv == flow.kv && contexts.entries == flow.entries
    ensures session.requestCounter == AfterRequests(old(session.requestCounter), 1)
    ensures session.lastReload == old(session.lastReload) && session.cacheExpiry == old(session.cacheExpiry)
    ensures session.cachedLocations == old(session.cachedLocations)
    ensures session.cachedLocationsMap == old(session.cachedLocationsMap)
  {
    var fetched := session.GetVipForm(vipResponse, vipDoc);
    if fetched == Halted {
      return Halted;
    }
    var form := fetched.value;
    if form.requireGuestCode {
      if usingStoredCode {
        store.RemoveCode(locationId, userId);
        return Done(Refused(StoredCodeInvalidMessage));
      }
      return Done(Refused(ProvidedCodeInvalidMessage));
    }
    r := OpenModal(contexts, form, locationId, interactionId, now);
  }

  /** The public form branch of the handler. */
  method PublicBranch(session: Session, store: Store, contexts: SubmissionContexts, condition: CodeRequirement,
                      locationId: Int64, interactionId: string, now: int, encode: bool -> string,
                      publicResponse: Response, publicDoc: Document)
    returns (r: Step<RegisterOutcome>)
    modifies session, store, contexts
    ensures var flow := PublicFlow(condition, locationId, interactionId, now, encode,
                                   old(store.kv), old(contexts.entries), publicResponse, publicDoc);
            r == flow.outcome && store.kv == flow.kv && contexts.entries == flow.entries
    ensures session.requestCounter == AfterRequests(old(session.requestCounter), 1)
    ensures session.lastReload == old(session.lastReload) && session.cacheExpiry == old(session.cacheExpiry)
    ensures session.cachedLocations == old(session.cachedLocations)
    ensures session.cachedLocationsMap == old(session.cachedLocationsMap)
  {
    var fetched := session.GetForm(publicResponse, publicDoc);
    if fetched == Halted {
      return Halted;
    }
    var form := fetched.value;
    if form.requireGuestCode {
      if condition == Unknown {
        store.SetCodeRequirement(locationId, true, encode);
      }
      return Done(Refused(GuestCodeRequiredMessage));
    }
    r := OpenModal(contexts, form, locationId, interactionId, now);
  }

  /** The end of the handler once a form is in hand: the modal rows, the
      two id parses (either error panics in `HandleError`), and the stored
      context. */
  method OpenModal(contexts: SubmissionContexts, form: FormResult, locationId: Int64, interactionId: string, now: int)
    returns (r: Step<RegisterOutcome>)
    modifies contexts
    ensures var flow := Present(form, locationId, interactionId, now, None, 0, map[], old(contexts.entries));
            r == flow.outcome && contexts.entries == flow.entries
  {
    var rows := FormToComponents(form.fields);
    var registerIdentifier := ParseUint(interactionId);
    if registerIdentifier.err != NoError {
      return Halted;
    }
    var residentProfileId := ParseUint(form.residentProfileId);
    if residentProfileId.err != NoError {
      return Halted;
    }
    contexts.Set(registerIdentifier.value,
                 RegisterContext(form.hiddenInputs, ToUint(locationId), FieldIds(form.fields), residentProfileId.value),
                 now, Hour);
    rows := rows + [EmailRow];
    assert rows == ModalRows(form.fields);
    r := Done(Presented("register:" + interactionId, rows));
  }

  // ---------------------------------------------------------------- /register: properties

  /** As written, `/register` never changes a guest code: the only removal
      hits a key that the route guarantees is absent, and marking a
      location touches only its requirement flag. */
  lemma RegisterKeepsCodes(options: seq<CommandOption>, userIdText: string, interactionId: string, now: int,
                           encode: bool -> string, kv: map<string, string>, entries: map<Uint64, TimedContext>,
                           vipResponse: Response, vipDoc: Document, publicResponse: Response, publicDoc: Document,
                           location: Int64, member: Int64)
    ensures var flow := RegisterFlow(options, userIdText, interactionId, now, encode, kv, entries,
                                     vipResponse, vipDoc, publicResponse, publicDoc);
            && (CodeKey(location, member) in flow.kv <==> CodeKey(location, member) in kv)
            && (CodeKey(location, member) in kv ==> flow.kv[CodeKey(location, member)] == kv[CodeKey(location, member)])
  {
    if options != [] {
      var route := RouteOf(options, userIdText, kv);
      var locationId, userId := ParsedId(options[0].value), ParsedId(userIdText);
      var flow := RegisterFlow(options, userIdText, interactionId, now, encode, kv, entries,
                               vipResponse, vipDoc, publicResponse, publicDoc);
      match route {
        case ViaVipForm(code, usingStoredCode) =>
          assert flow == VipFlow(code, usingStoredCode, locationId, userId, interactionId, now, kv, entries,
                                 vipResponse, vipDoc);
          VipFlowFacts(code, usingStoredCode, locationId, userId, interactionId, now, kv, entries, vipResponse, vipDoc);
          if usingStoredCode {
            assert kv - {CodeKey(locationId, userId)} == kv;
          }
        case ViaPublicForm(condition) =>
          assert flow == PublicFlow(condition, locationId, interactionId, now, encode, kv, entries,
                                    publicResponse, publicDoc);
          PublicFlowFacts(condition, locationId, interactionId, now, encode, kv, entries, publicResponse, publicDoc);
          KeysDisjoint(location, member, locationId);
        case _ =>
      }
    }
  }

  /** What the guest-code branch can do to the store and the contexts. */
  lemma VipFlowFacts(code: string, usingStoredCode: bool, locationId: Int64, userId: Int64, interactionId: string,
                     now: int, kv: map<string, string>, entries: map<Uint64, TimedContext>,
                     vipResponse: Response, vipDoc: Document)
    ensures var flow := VipFlow(code, usingStoredCode, locationId, userId, interactionId, now, kv, entries,
                                vipResponse, vipDoc);
            && flow.vipCode == Some(code) && flow.requests == 1
            && (flow.kv == kv || (usingStoredCode && flow.kv == kv - {CodeKey(locationId, userId)}))
            && (flow.outcome.Done? && flow.outcome.value.Presented? ==>
                  && vipResponse.Response? && !VipFormResult(vipResponse.body, vipDoc).requireGuestCode
                  && flow == Present(VipFormResult(vipResponse.body, vipDoc), locationId, interactionId, now,
                                     Some(code), 1, kv, entries))
            && (!(flow.outcome.Done? && flow.outcome.value.Presented?) ==> flow.entries == entries)
  {
  }

  /** What the public-form branch can do to the store and the contexts. */
  lemma PublicFlowFacts(condition: CodeRequirement, locationId: Int64, interactionId: string, now: int,
                        encode: bool -> string, kv: map<string, string>, entries: map<Uint64, TimedContext>,
                        publicResponse: Response, publicDoc: Document)
    ensures var flow := PublicFlow(condition, locationId, interactionId, now, encode, kv, entries,
                                   publicResponse, publicDoc);
            && flow.vipCode == None && flow.requests == 1
            && (flow.kv == kv || (condition == Unknown && flow.kv == kv[RequirementKey(locationId) := encode(true)]))
            && (flow.outcome.Done? && flow.outcome.value.Presented? ==>
                  && publicResponse.Response? && !PublicFormResult(publicDoc).requireGuestCode
                  && flow == Present(PublicFormResult(publicDoc), locationId, interactionId, now, None, 1, kv, entries))
            && (!(flow.outcome.Done? && flow.outcome.value.Presented?) ==> flow.entries == entries)
  {
  }

  /** A guest-code form that still asks for a code: the stored code is
      removed exactly when it was the one being used, never a code the user
      typed, and the message says which. */
  lemma VipRejection(options: seq<CommandOption>, userIdText: string, interactionId: string, now: int,
                     encode: bool -> string, kv: map<string, string>, entries: map<Uint64, TimedContext>,
                     vipBody: string, vipDoc: Document, publicResponse: Response, publicDoc: Document)
    requires options != [] && RouteOf(options, userIdText, kv).ViaVipForm?
    requires VipFormResult(vipBody, vipDoc).requireGuestCode
    ensures var route := RouteOf(options, userIdText, kv);
            var flow := RegisterFlow(options, userIdText, interactionId, now, encode, kv, entries,
                                     Response(200, vipBody), vipDoc, publicResponse, publicDoc);
            && flow.entries == entries
            && flow.vipCode == Some(CodeOption(options).code)
            && flow.outcome == Done(Refused(if route.usingStoredCode then StoredCodeInvalidMessage
                                            else ProvidedCodeInvalidMessage))
            && flow.kv == (if route.usingStoredCode then kv - {CodeKey(ParsedId(options[0].value), ParsedId(userIdText))}
                           else kv)
  {
  }

  /** A public form that turns out to need a code: the location is marked
      as requiring one exactly when its requirement was unknown, and no
      other location's flag changes. */
  lemma PublicRejection(options: seq<CommandOption>, userIdText: string, interactionId: string, now: int,
                        encode: bool -> string, kv: map<string, string>, entries: map<Uint64, TimedContext>,
                        vipResponse: Response, vipDoc: Document, publicBody: string, publicDoc: Document,
                        other: Int64)
    requires options != [] && RouteOf(options, userIdText, kv).ViaPublicForm?
    requires PublicFormResult(publicDoc).requireGuestCode
    requires other != ParsedId(options[0].value)
    ensures var location := ParsedId(options[0].value);
            var flow := RegisterFlow(options, userIdText, interactionId, now, encode, kv, entries,
                                     vipResponse, vipDoc, Response(200, publicBody), publicDoc);
            && flow.outcome == Done(Refused(GuestCodeRequiredMessage))
            && flow.entries == entries
            && (RequirementIn(kv, location) == Unknown ==>
                  flow.kv == kv[RequirementKey(location) := encode(true)]
                  && RequirementIn(flow.kv, location)
                     == (if encode(true) == "true" then GuestCodeRequired else GuestCodeNotRequired))
            && (RequirementIn(kv, location) != Unknown ==> flow.kv == kv)
            && RequirementIn(flow.kv, other) == RequirementIn(kv, other)
  {
    var location := ParsedId(options[0].value);
    SetRequirementEffect(kv, location, encode(true));
  }

  /** Only a presented modal stores a context. The modal is presented
      only when all four ids parsed, and the context holds exactly the
      form's field ids and hidden inputs, the location, the parsed resident
      profile id and a one-hour lifetime; the modal has a row per field plus
      the email row. */
  lemma PresentedContext(options: seq<CommandOption>, userIdText: string, interactionId: string, now: int,
                         encode: bool -> string, kv: map<string, string>, entries: map<Uint64, TimedContext>,
                         vipResponse: Response, vipDoc: Document, publicResponse: Response, publicDoc: Document)
    ensures var flow := RegisterFlow(options, userIdText, interactionId, now, encode, kv, entries,
                                     vipResponse, vipDoc, publicResponse, publicDoc);
            && (flow.outcome.Done? && flow.outcome.value.Presented? ==>
                  && options != []
                  && flow.kv == kv
                  && var form := if RouteOf(options, userIdText, kv).ViaVipForm?
                                 then VipFormResult(vipResponse.body, vipDoc) else PublicFormResult(publicDoc);
                     var key := ParseUint(interactionId).value;
                     && !form.requireGuestCode
                     && Atoi(options[0].value).err == NoError && Atoi(userIdText).err == NoError
                     && ParseUint(interactionId).err == NoError && ParseUint(form.residentProfileId).err == NoError
                     && flow.entries.Keys == entries.Keys + {key}
                     && flow.entries[key].expires == now + Hour
                     && flow.entries[key].context.requiredFormKeys == FieldIds(form.fields)
                     && flow.entries[key].context.hiddenKeys == form.hiddenInputs
                     && flow.entries[key].context.propertyId == ToUint(ParsedId(options[0].value))
                     && flow.entries[key].context.residentId == ParseUint(form.residentProfileId).value
                     && flow.outcome.value.rows == ModalRows(form.fields))
            && (!(flow.outcome.Done? && flow.outcome.value.Presented?) ==> flow.entries == entries)
  {
    if options != [] {
      var route := RouteOf(options, userIdText, kv);
      var locationId, userId := ParsedId(options[0].value), ParsedId(userIdText);
      var flow := RegisterFlow(options, userIdText, interactionId, now, encode, kv, entries,
                               vipResponse, vipDoc, publicResponse, publicDoc);
      match route {
        case ViaVipForm(code, usingStoredCode) =>
          assert flow == VipFlow(code, usingStoredCode, locationId, userId, interactionId, now, kv, entries,
                                 vipResponse, vipDoc);
          VipFlowFacts(code, usingStoredCode, locationId, userId, interactionId, now, kv, entries, vipResponse, vipDoc);
          if vipResponse.Response? {
            PresentFacts(VipFormResult(vipResponse.body, vipDoc), locationId, interactionId, now, Some(code), 1, kv, entries);
          }
        case ViaPublicForm(condition) =>
          assert flow == PublicFlow(condition, locationId, interactionId, now, encode, kv, entries,
                                    publicResponse, publicDoc);
          PublicFlowFacts(condition, locationId, interactionId, now, encode, kv, entries, publicResponse, publicDoc);
          PresentFacts(PublicFormResult(publicDoc), locationId, interactionId, now, None, 1, kv, entries);
        case _ =>
      }
    }
  }

  /** What presenting a form records: it halts, storing nothing, exactly
      when one of the two ids does not parse; otherwise it presents the
      modal and adds the one context. */
  lemma PresentFacts(form: FormResult, locationId: Int64, interactionId: string, now: int, vipCode: Option<string>,
                     requests: nat,
                     kv: map<string, string>, entries: map<Uint64, TimedContext>)
    ensures var flow := Present(form, locationId, interactionId, now, vipCode, requests, kv, entries);
            var key := ParseUint(interactionId).value;
            var idsParse := ParseUint(interactionId).err == NoError && ParseUint(form.residentProfileId).err == NoError;
            && flow.kv == kv && flow.vipCode == vipCode && flow.requests == requests
            && (flow.outcome == Halted <==> !idsParse)
            && (!idsParse ==> flow.entries == entries)
            && (idsParse ==>
                  && flow.outcome.Done? && flow.outcome.value.Presented?
                  && flow.entries.Keys == entries.Keys + {key}
                  && flow.entries[key].expires == now + Hour
                  && flow.entries[key].context.requiredFormKeys == FieldIds(form.fields)
                  && flow.entries[key].context.hiddenKeys == form.hiddenInputs
                  && flow.entries[key].context.propertyId == ToUint(locationId)
                  && flow.entries[key].context.residentId == ParseUint(form.residentProfileId).value
                  && flow.outcome.value.rows == ModalRows(form.fields))
  {
  }

  /** `/register` makes one request to the portal, for the form, when its
      route fetches a form, and none otherwise. */
  lemma RegisterRequests(options: seq<CommandOption>, userIdText: string, interactionId: string, now: int,
                         encode: bool -> string, kv: map<string, string>, entries: map<Uint64, TimedContext>,
                         vipResponse: Response, vipDoc: Document, publicResponse: Response, publicDoc: Document)
    ensures var flow := RegisterFlow(options, userIdText, interactionId, now, encode, kv, entries,
                                     vipResponse, vipDoc, publicResponse, publicDoc);
            flow.requests == if FetchesForm(options, userIdText, kv) then 1 else 0
  {
    if options != [] {
      var route := RouteOf(options, userIdText, kv);
      var locationId, userId := ParsedId(options[0].value), ParsedId(userIdText);
      var flow := RegisterFlow(options, userIdText, interactionId, now, encode, kv, entries,
                               vipResponse, vipDoc, publicResponse, publicDoc);
      assert flow == RouteFlow(route, locationId, userId, interactionId, now, encode, kv, entries,
                               vipResponse, vipDoc, publicResponse, publicDoc);
      match route {
        case ViaVipForm(code, usingStoredCode) =>
          VipFlowFacts(code, usingStoredCode, locationId, userId, interactionId, now, kv, entries, vipResponse, vipDoc);
        case ViaPublicForm(condition) =>
          PublicFlowFacts(condition, locationId, interactionId, now, encode, kv, entries, publicResponse, publicDoc);
        case _ =>
      }
    }
  }

  /** A location or user id that `strconv.Atoi` rejects stops `/register`
      in `HandleError` before any form is fetched or anything stored. */
  lemma OptionIdErrorHalts(options: seq<CommandOption>, userIdText: string, interactionId: string, now: int,
                           encode: bool -> string, kv: map<string, string>, entries: map<Uint64, TimedContext>,
                           vipResponse: Response, vipDoc: Document, publicResponse: Response, publicDoc: Document)
    requires options != []
    requires Atoi(options[0].value).err != NoError || Atoi(userIdText).err != NoError
    ensures var flow := RegisterFlow(options, userIdText, interactionId, now, encode, kv, entries,
                                     vipResponse, vipDoc, publicResponse, publicDoc);
            flow == Registration(Halted, None, 0, kv, entries)
  {
  }

  /** A public form whose "next" button has no `data-resident-profile-id`
      is read with the id "", which `strconv.ParseUint` rejects, so the
      handler halts instead of presenting the modal. */
  lemma MissingProfileIdHalts(options: seq<CommandOption>, userIdText: string, interactionId: string, now: int,
                              encode: bool -> string, kv: map<string, string>, entries: map<Uint64, TimedContext>,
                              vipResponse: Response, vipDoc: Document, publicBody: string, page: Page)
    requires options != [] && RouteOf(options, userIdText, kv).ViaPublicForm?
    requires !page.guestCodeInput && page.residentProfileId.None?
    ensures var flow := RegisterFlow(options, userIdText, interactionId, now, encode, kv, entries,
                                     vipResponse, vipDoc, Response(200, publicBody), Parsed(page));
            flow == Registration(Halted, None, 1, kv, entries)
  {
    var form := PublicFormResult(Parsed(page));
    assert form.residentProfileId == "" && ParseUint(form.residentProfileId).err == ErrSyntax;
    var locationId := ParsedId(options[0].value);
    assert RegisterFlow(options, userIdText, interactionId, now, encode, kv, entries,
                        vipResponse, vipDoc, Response(200, publicBody), Parsed(page))
        == Present(form, locationId, interactionId, now, None, 1, kv, entries);
  }

  // ---------------------------------------------------------------- autocomplete

  /** At most 25 locations are offered. */
  const ChoiceLimit: int := 25

  /** An autocomplete choice: the location name, and its id as text. */
  datatype Choice = Choice(name: string, value: string)

  /** The seed as written, `int64(userId) + (time.Now().Unix() / 15 * 60)`:
      the product binds first, so it grows by 60 every 15 seconds. */
  function SeedAsWritten(userId: Int64, unix: Int64): (s: Int64)
    ensures (s - (userId + GoDiv(unix, 15) * 60)) % U64 == 0
    ensures MinInt64 <= userId + GoDiv(unix, 15) * 60 <= MaxInt64 ==> s == userId + GoDiv(unix, 15) * 60
  {
    var product := WrapInt64(GoDiv(unix, 15) * 60);
    var s := AddInt64(userId, product);
    CongruentInt64Equal(s, userId + GoDiv(unix, 15) * 60);
    s
  }

  /** The seed the comment describes, "the user ID + a 15 minute interval":
      the user id plus the number of the current 15-minute window. */
  function Seed(userId: Int64, unix: Int64): (s: Int64)
    ensures (s - (userId + GoDiv(unix, 15 * 60))) % U64 == 0
  {
    AddInt64(userId, GoDiv(unix, 15 * 60))
  }

  /** Two `int64` values congruent to x modulo 2^64 are equal when x is
      in range. */
  lemma CongruentInt64Equal(a: Int64, x: int)
    requires (a - x) % U64 == 0 || !(MinInt64 <= x <= MaxInt64)
    ensures MinInt64 <= x <= MaxInt64 ==> a == x
  {
  }

  /** The intended seed stays the same throughout a 15-minute window... */
  lemma SeedConstantPerWindow(userId: Int64, t: Int64, t': Int64)
    requires 0 <= t && 0 <= t' && t / 900 == t' / 900
    ensures Seed(userId, t) == Seed(userId, t')
  {
  }

  /** ...and moves on from one window to the next. */
  lemma SeedChangesPerWindow(userId: Int64, t: Int64)
    requires 0 <= t <= MaxInt64 - 900
    ensures Seed(userId, t + 900) != Seed(userId, t)
  {
    var a, b := Seed(userId, t + 900), Seed(userId, t);
    assert (t + 900) / 900 == t / 900 + 1;
    assert ((a - b) - 1) % U64 == 0;
  }

  /** The seed as written differs 15 seconds apart inside one 15-minute
      window. */
  lemma SeedAsWrittenVariesWithinWindow(userId: Int64)
    ensures 0 / 900 == 15 / 900
    ensures SeedAsWritten(userId, 15) != SeedAsWritten(userId, 0)
  {
    assert GoDiv(15, 15) * 60 == 60 && GoDiv(0, 15) * 60 == 0;
    assert ((SeedAsWritten(userId, 15) - SeedAsWritten(userId, 0)) - 60) % U64 == 0;
  }

  /** The generator draws like `Intn` for every seed and every bound. */
  ghost predicate IsIntn(g: Generator) {
    forall s: int, n: nat, k: nat :: n > 0 ==> g(s, n, k) < n
  }

  /** The autocomplete branch for the location option: the (possibly
      cached) location list, filtered by the typed text with at most 25
      results and the 15-minute seed, as name / id-text choices. A fatal
      filter error halts. `locations` is None when fetching the list
      halted. */
  method LocationChoices(session: Session, now: int, sessionCookieFound: bool, listing: Response,
                         parsed: Option<seq<Location>>, query: string, userIdText: string, unix: Int64,
                         g: Generator, fuel: nat)
    returns (r: Step<seq<Choice>>, locations: Option<seq<Location>>, shown: seq<Location>)
    requires session.Valid() && IsIntn(g)
    modifies session
    ensures session.Valid()
    ensures now < old(session.cacheExpiry) ==>
              locations == Some(old(session.cachedLocations)) && session.requestCounter == old(session.requestCounter)
    ensures now >= old(session.cacheExpiry) ==>
              (locations.None? <==> (ReloadDue(old(session.requestCounter), old(session.lastReload), now)
                                     && !sessionCookieFound)
                                    || listing.TransportError?)
    ensures now >= old(session.cacheExpiry) && locations.Some? ==>
              && locations.value == parsed.GetOr([])
              && session.requestCounter == (if ReloadDue(old(session.requestCounter), old(session.lastReload), now)
                                            then 1 else (old(session.requestCounter) + 1) % U64)
              && (parsed.Some? ==> session.cachedLocations == parsed.value
                                   && session.cacheExpiry == now + CacheLifetime)
    ensures locations.None? ==> r == Halted
    ensures r.Done? ==> |r.value| == |shown|
                        && forall i :: 0 <= i < |shown| ==> r.value[i] == Choice(shown[i].name, Decimal(shown[i].id))
    ensures locations.Some? && query != [] ==>
              var m := MatchesOf(locations.value, query);
              r.Done? && shown == (if |m| <= ChoiceLimit then m else m[..ChoiceLimit])
    ensures locations.Some? && query == [] ==>
              var picked := RandomItems(locations.value, ChoiceLimit, Seed(ParsedId(userIdText), unix), g, fuel);
              (r.Done? <==> picked.Success?) && (picked.Success? ==> shown == picked.value)
  {
    shown := [];
    var listed := session.GetLocations(now, sessionCookieFound, listing, parsed);
    if listed == Halted {
      return Halted, None, [];
    }
    locations := Some(listed.value);
    var seedValue := Seed(ParsedId(userIdText), unix);
    assert |listed.value| > 0 ==> InRange(g, seedValue, |listed.value|);
    var filtered := FilterLocations(listed.value, query, ChoiceLimit, seedValue, g, fuel);
    if filtered.Fatal? {
      return Halted, locations, [];
    }
    shown := filtered.locations;
    var choices := ChoicesOf(shown);
    r := Done(choices);
  }

  /** The loop that turns the shown locations into choices: the name, and
      the id printed with `strconv.Itoa`, one per location in order. */
  method ChoicesOf(shown: seq<Location>) returns (choices: seq<Choice>)
    ensures |choices| == |shown|
    ensures forall i :: 0 <= i < |shown| ==> choices[i] == Choice(shown[i].name, Decimal(shown[i].id))
  {
    choices := [];
    for i := 0 to |shown|
      invariant |choices| == i
      invariant forall j :: 0 <= j < i ==> choices[j] == Choice(shown[j].name, Decimal(shown[j].id))
    {
      choices := choices + [Choice(shown[i].name, Decimal(shown[i].id))];
    }
  }
}
