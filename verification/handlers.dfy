// The HTTP handlers' decisions (handler/handlers.go): the call-notification
// webhook and the call-log table it appends to, the page-size clamp of the call-log
// listing, the cookies and redirects of the login callback and of logout, and the
// display-name merge of an update.
//
// The database is the CallDirectory object (phone-number table and call-log table);
// HTTP requests and responses are values.

module Handlers {
  import opened Wrappers
  import opened JsonValue
  import opened Models
  import Util
  import Strconv
  import Config
  import Auth
  import Strings
  import UrlQuery
  import Utf8
  import Bytes

  // ---------------------------------------------------------------- call-notification webhook

  /** The webhook's answer: a JSON body and a status, or a panic (answered 500 by the recovery middleware). */
  datatype Reply = Reply(body: Json, status: int) | Panic

  /**
   * Binding the request body into a map: an object binds, `null` binds as the
   * empty map, anything else (no body, an array, a string, a number) is an error.
   */
  function BindObject(body: Option<Json>): (request: Option<map<string, Json>>)
    ensures request.Some? <==> body == Some(JNull) || (body.Some? && body.value.JObject?)
  {
    match body
    case Some(JObject(fields)) => Some(fields)
    case Some(JNull) => Some(map[])
    case _ => None
  }

  /** A member of a decoded object; a missing member reads as null, like a nil interface. */
  function Member(fields: map<string, Json>, key: string): Json
  {
    if key in fields then fields[key] else JNull
  }

  /** A member holding a non-empty string. */
  predicate NonEmptyString(v: Json)
  {
    v.JString? && v.s != ""
  }

  /** The body binds and the network and service are allowed: the structural checks are reached. */
  predicate Admitted(body: Option<Json>, networkID: string, serviceID: string)
  {
    BindObject(body).Some? && Util.ValidNetworkAndService(networkID, serviceID)
  }

  /** The callEventNotification member of a bound body (null when the body does not bind). */
  function Notification(body: Option<Json>): Json
  {
    if BindObject(body).Some? then Member(BindObject(body).value, "callEventNotification") else JNull
  }

  /** The eventDescription member of the notification (null when there is no notification object). */
  function Description(body: Option<Json>): Json
  {
    if Notification(body).JObject? then Member(Notification(body).fields, "eventDescription") else JNull
  }

  /** The callEvent member of the event description (null when there is no description object). */
  function CallEvent(body: Option<Json>): Json
  {
    if Description(body).JObject? then Member(Description(body).fields, "callEvent") else JNull
  }

  /** A participant member of the notification (null when there is no notification object). */
  function Participant(body: Option<Json>, key: string): Json
  {
    if Notification(body).JObject? then Member(Notification(body).fields, key) else JNull
  }

  /** How the structural checks end. */
  datatype Check =
    | Rejected(detail: string)
    | Crashed
    | Accepted(callingParticipant: string, calledParticipant: string)

  /**
   * A notification with a callEventNotification object holding an eventDescription
   * object with a non-empty callEvent string, and the given non-empty calling and
   * called participants.
   */
  predicate WellFormedNotification(request: map<string, Json>, calling: string, called: string)
  {
    && Member(request, "callEventNotification").JObject?
    && var cen := Member(request, "callEventNotification").fields;
    && Member(cen, "eventDescription").JObject?
    && NonEmptyString(Member(Member(cen, "eventDescription").fields, "callEvent"))
    && calling != "" && Member(cen, "callingParticipant") == JString(calling)
    && called != "" && Member(cen, "calledParticipant") == JString(called)
  }

  /**
   * The webhook's checks in their order: the body must bind, the network and
   * service must be allowed, and then the notification's structure is checked
   * member by member. An eventDescription that is not an object crashes the check
   * (an unchecked type assertion).
   */
  function CheckNotification(body: Option<Json>, networkID: string, serviceID: string): (c: Check)
    ensures BindObject(body).None? ==> c == Rejected("Error binding JSON")
    ensures BindObject(body).Some? && !Util.ValidNetworkAndService(networkID, serviceID) ==>
      c == Rejected("Invalid network or service ID")
    ensures Admitted(body, networkID, serviceID) && !Notification(body).JObject? ==>
      c == Rejected("Invalid 'callEventNotification' structure")
    ensures (Admitted(body, networkID, serviceID) && Description(body).JObject?
             && !NonEmptyString(CallEvent(body))) ==>
      c == Rejected("'callEvent' is missing or invalid")
    ensures (Admitted(body, networkID, serviceID) && Description(body).JObject? && NonEmptyString(CallEvent(body))
             && !NonEmptyString(Participant(body, "callingParticipant"))) ==>
      c == Rejected("Missing 'callingParticipant'")
    ensures (Admitted(body, networkID, serviceID) && Description(body).JObject? && NonEmptyString(CallEvent(body))
             && NonEmptyString(Participant(body, "callingParticipant"))
             && !NonEmptyString(Participant(body, "calledParticipant"))) ==>
      c == Rejected("Missing 'calledParticipant'")
    ensures c.Accepted? ==>
      && Util.ValidNetworkAndService(networkID, serviceID)
      && WellFormedNotification(BindObject(body).value, c.callingParticipant, c.calledParticipant)
    ensures forall calling, called ::
      (&& BindObject(body).Some? && Util.ValidNetworkAndService(networkID, serviceID)
       && WellFormedNotification(BindObject(body).value, calling, called)) ==> c == Accepted(calling, called)
    ensures c == Crashed <==>
      && BindObject(body).Some? && Util.ValidNetworkAndService(networkID, serviceID)
      && Member(BindObject(body).value, "callEventNotification").JObject?
      && !Member(Member(BindObject(body).value, "callEventNotification").fields, "eventDescription").JObject?
  {
    var request := BindObject(body);
    if request.None? then Rejected("Error binding JSON")
    else if !Util.ValidNetworkAndService(networkID, serviceID) then Rejected("Invalid network or service ID")
    else
      var cen := Member(request.value, "callEventNotification");
      if !cen.JObject? then Rejected("Invalid 'callEventNotification' structure")
      else
        var description := Member(cen.fields, "eventDescription");
        if !description.JObject? then Crashed
        else if !NonEmptyString(Member(description.fields, "callEvent")) then Rejected("'callEvent' is missing or invalid")
        else
          var calling := Member(cen.fields, "callingParticipant");
          if !NonEmptyString(calling) then Rejected("Missing 'callingParticipant'")
          else
            var called := Member(cen.fields, "calledParticipant");
            if !NonEmptyString(called) then Rejected("Missing 'calledParticipant'")
            else Accepted(calling.s, called.s)
  }

  function ErrorReply(status: int, title: string, detail: string): Reply
  {
    var (body, code) := Util.CustomErrorResponse(status, title, detail);
    Reply(body, code)
  }

  /** The success body: continue the call, showing the caller's display name. */
  function ContinueBody(displayName: string): Json
  {
    JObject(map["action" := JObject(map["actionToPerform" := JString("Continue"), "displayName" := JString(displayName)])])
  }

  /**
   * The phone-number table, keyed by its unique phone-number column, and the
   * call-log table in insertion order.
   */
  class CallDirectory {
    var phoneNumbers: map<string, PhoneNumber>
    var callLogs: seq<CallLog>

    /** Each call log refers to a registered phone number's id. */
    ghost predicate Registered(id: nat)
      reads this`phoneNumbers
    {
      exists number | number in phoneNumbers :: phoneNumbers[number].id == id
    }

    ghost predicate Valid()
      reads this
    {
      && (forall number | number in phoneNumbers :: phoneNumbers[number].phoneNumber == number)
      && (forall i | 0 <= i < |callLogs| :: Registered(callLogs[i].phoneNumberId))
    }

    constructor(phoneNumbers: map<string, PhoneNumber>)
      requires forall number | number in phoneNumbers :: phoneNumbers[number].phoneNumber == number
      ensures Valid()
      ensures this.phoneNumbers == phoneNumbers && callLogs == []
    {
      this.phoneNumbers := phoneNumbers;
      callLogs := [];
    }

    /**
     * The webhook: the checks in order, then the caller's lookup, then the append of
     * one call log. `createFails` stands for the database refusing the insert.
     */
    method MockCPPResponse(body: Option<Json>, networkID: string, serviceID: string, createFails: bool)
      returns (reply: Reply)
      requires Valid()
      modifies this`callLogs
      ensures Valid()
      ensures var check := CheckNotification(body, networkID, serviceID);
        && (check.Rejected? ==> reply == ErrorReply(400, "Bad Request", check.detail) && callLogs == old(callLogs))
        && (check.Crashed? ==> reply == Panic && callLogs == old(callLogs))
        && (check.Accepted? && check.callingParticipant !in phoneNumbers ==>
              reply == ErrorReply(404, "Not Found", "Phone number not found") && callLogs == old(callLogs))
        && (check.Accepted? && check.callingParticipant in phoneNumbers && createFails ==>
              reply == ErrorReply(502, "Generic Error", "Unexpected status code 502") && callLogs == old(callLogs))
        && (check.Accepted? && check.callingParticipant in phoneNumbers && !createFails ==>
              var caller := phoneNumbers[check.callingParticipant];
              && reply == Reply(ContinueBody(caller.displayName), 200)
              && callLogs == old(callLogs) + [CallLog(caller.id, check.calledParticipant)])
      ensures reply.Reply? && reply.status == 200 <==> |callLogs| == |old(callLogs)| + 1
      ensures callLogs == old(callLogs) || (reply.Reply? && reply.status == 200)
    {
      var request := BindObject(body);
      if request.None? {
        return ErrorReply(400, "Bad Request", "Error binding JSON");
      }
      var allowed := Util.IsValidNetworkAndService(networkID, serviceID);
      if !allowed {
        return ErrorReply(400, "Bad Request", "Invalid network or service ID");
      }
      var cen := Member(request.value, "callEventNotification");
      if !cen.JObject? {
        return ErrorReply(400, "Bad Request", "Invalid 'callEventNotification' structure");
      }
      var description := Member(cen.fields, "eventDescription");
      if !description.JObject? {
        return Panic;
      }
      var callEvent := Member(description.fields, "callEvent");
      if !callEvent.JString? || callEvent.s == "" {
        return ErrorReply(400, "Bad Request", "'callEvent' is missing or invalid");
      }
      var calling := Member(cen.fields, "callingParticipant");
      if !calling.JString? || calling.s == "" {
        return ErrorReply(400, "Bad Request", "Missing 'callingParticipant'");
      }
      var called := Member(cen.fields, "calledParticipant");
      if !called.JString? || called.s == "" {
        return ErrorReply(400, "Bad Request", "Missing 'calledParticipant'");
      }
      if calling.s !in phoneNumbers {
        return ErrorReply(404, "Not Found", "Phone number not found");
      }
      var phoneNumber := phoneNumbers[calling.s];
      if createFails {
        var (errorBody, status) := Util.Custom502Error();
        return Reply(errorBody, status);
      }
      assert Registered(phoneNumber.id);
      ghost var before := callLogs;
      callLogs := callLogs + [CallLog(phoneNumber.id, called.s)];
      forall i | 0 <= i < |callLogs| ensures Registered(callLogs[i].phoneNumberId) {
        if i < |before| {
          assert callLogs[i] == before[i];
        }
      }
      return Reply(ContinueBody(phoneNumber.displayName), 200);
    }
  }

  // ---------------------------------------------------------------- call-log listing

  const DefaultPageSize := 100
  const MaxPageSize := 1000

  /** The requested page size when it parses and lies in [1, 1000], else 100. */
  function PageSize(sizeStr: string): (size: int)
    ensures 1 <= size <= MaxPageSize
    ensures Strconv.Atoi(sizeStr).Success? && 1 <= Strconv.Atoi(sizeStr).value <= MaxPageSize ==>
      size == Strconv.Atoi(sizeStr).value
    ensures size != DefaultPageSize ==> Strconv.Atoi(sizeStr) == Success(size)
  {
    var parsed := Strconv.Atoi(sizeStr);
    if parsed.Failure? || parsed.value < 1 || parsed.value > MaxPageSize then DefaultPageSize else parsed.value
  }

  /**
   * The row limit of a listing: 100 without a filter, the clamped `size` parameter
   * (100 when absent) with one.
   */
  function ResultLimit(filter: Option<string>, size: Option<string>): (limit: int)
    ensures 1 <= limit <= MaxPageSize
    ensures filter.None? || filter == Some("") ==> limit == DefaultPageSize
    ensures size.None? ==> limit == DefaultPageSize
    ensures filter.Some? && filter.value != "" && size.Some? ==> limit == PageSize(size.value)
  {
    var filterStr := if filter.Some? then filter.value else "";
    var sizeStr := if size.Some? then size.value else "100";
    DefaultSizeParses();
    if filterStr == "" then DefaultPageSize else PageSize(sizeStr)
  }

  /** The default `size` text stands for the default page size. */
  lemma DefaultSizeParses()
    ensures PageSize("100") == DefaultPageSize
  {
    PageSizeOfDecimal(100);
    assert Strconv.NatDigits(1) == ['1'];
    assert Strconv.NatDigits(10) == ['1', '0'];
    assert Strconv.Itoa(100) == ['1', '0', '0'];
  }

  /** Any size in range, written as the browser writes it, is taken as is. */
  lemma PageSizeOfDecimal(n: int)
    requires 1 <= n <= MaxPageSize
    ensures PageSize(Strconv.Itoa(n)) == n
  {
    Strconv.AtoiItoa(n);
  }

  /** A size outside [1, 1000] falls back to 100. */
  lemma PageSizeOutOfRange(n: int)
    requires -Bytes.TwoTo63 <= n < Bytes.TwoTo63 && (n < 1 || n > MaxPageSize)
    ensures PageSize(Strconv.Itoa(n)) == DefaultPageSize
  {
    Strconv.AtoiItoa(n);
  }

  /** A joined call-log row as the query returns it; the timestamp is kept abstract. */
  datatype CallLogRow = CallLogRow(phoneNumber: string, displayName: string, calledPhoneNumber: string, timestamp: int)

  datatype FormattedCallLog = FormattedCallLog(
    phoneNumber: string,
    displayName: string,
    calledPhoneNumber: string,
    formattedTimestamp: string)

  /** The listed form of a row: the text fields copied, the timestamp formatted. */
  function FormatRow(row: CallLogRow, formatTimestamp: int -> string): (f: FormattedCallLog)
  {
    FormattedCallLog(row.phoneNumber, row.displayName, row.calledPhoneNumber, formatTimestamp(row.timestamp))
  }

  /** The listing's formatting loop: one formatted entry per row, in row order. */
  method FormatCallLogs(results: seq<CallLogRow>, formatTimestamp: int -> string)
    returns (formatted: array<FormattedCallLog>)
    ensures fresh(formatted)
    ensures formatted.Length == |results|
    ensures forall i :: 0 <= i < |results| ==> formatted[i] == FormatRow(results[i], formatTimestamp)
  {
    formatted := new FormattedCallLog[|results|];
    for i := 0 to |results|
      invariant forall j :: 0 <= j < i ==> formatted[j] == FormatRow(results[j], formatTimestamp)
    {
      formatted[i] := FormatRow(results[i], formatTimestamp);
    }
  }

  // ---------------------------------------------------------------- login callback and logout

  /** When a cookie expires: a number of hours after the response, or at the Unix epoch (already past). */
  datatype Expiry = ExpiresIn(hours: nat) | ExpiredAtEpoch

  datatype SetCookie = SetCookie(name: string, value: string, path: string, expires: Expiry, maxAge: int, httpOnly: bool)

  /** A handler's response: its status, the redirect target if any, and the cookies it sets, in order. */
  datatype Response = Response(status: int, location: Option<string>, cookies: seq<SetCookie>)

  const StatusFound := 302
  const StatusInternalServerError := 500

  /** The token the code exchange returns: the access token and the raw `id_token` extra, if present. */
  datatype OAuthToken = OAuthToken(accessToken: string, idTokenExtra: Option<Json>)

  function SessionCookie(name: string, value: string): SetCookie
  {
    SetCookie(name, value, "/", ExpiresIn(24), 0, false)
  }

  /**
   * The login callback, given the outcome of the code exchange: a failed exchange
   * is a 500 without cookies; otherwise the access token goes into `jwt`, the ID
   * token into `id_token` when it is a string, and the browser is sent to /list.
   */
  function CallbackHandler(exchange: Result<OAuthToken, string>): (r: Response)
    ensures exchange.Failure? ==> r.status == StatusInternalServerError && r.location.None? && r.cookies == []
    ensures exchange.Success? ==>
      && r.status == StatusFound && r.location == Some("/list")
      && 1 <= |r.cookies| <= 2
      && r.cookies[0] == SessionCookie("jwt", exchange.value.accessToken)
      && (|r.cookies| == 2 <==> exchange.value.idTokenExtra.Some? && exchange.value.idTokenExtra.value.JString?)
      && (|r.cookies| == 2 ==> r.cookies[1] == SessionCookie("id_token", exchange.value.idTokenExtra.value.s))
  {
    match exchange
    case Failure(_) => Response(StatusInternalServerError, None, [])
    case Success(token) =>
      var jwt := SessionCookie("jwt", token.accessToken);
      match token.idTokenExtra
      case Some(JString(idToken)) => Response(StatusFound, Some("/list"), [jwt, SessionCookie("id_token", idToken)])
      case _ => Response(StatusFound, Some("/list"), [jwt])
  }

  /** The cookie that deletes `jwt`: empty, expired at the epoch, negative max-age, HTTP only. */
  const ClearJwtCookie := SetCookie("jwt", "", "/", ExpiredAtEpoch, -1, true)

  /** A query parameter: the key, '=', and the query-escaped value. */
  function QueryParameter(key: string, value: string): string
  {
    key + "=" + UrlQuery.QueryEscape(value)
  }

  /** The query part of the end-session URL: the ID token hint and the page to come back to. */
  function LogoutQuery(cfg: Config.Config, idToken: string): string
  {
    QueryParameter("id_token_hint", idToken) + "&" + QueryParameter("post_logout_redirect_uri", cfg.cppHost + "/login")
  }

  /** Keycloak's end-session URL for the realm, with the logout query. */
  function LogoutURL(cfg: Config.Config, idToken: string): string
  {
    Auth.OpenIdConnectURL(cfg.keycloakURL, cfg.keycloakRealm, "logout") + "?" + LogoutQuery(cfg, idToken)
  }

  /**
   * When neither the Keycloak URL nor the realm holds a '?', the end-session URL
   * reads back as the realm's logout endpoint and the logout query.
   */
  lemma LogoutURLParts(cfg: Config.Config, idToken: string)
    requires '?' !in cfg.keycloakURL && '?' !in cfg.keycloakRealm
    ensures Strings.Cut(LogoutURL(cfg, idToken), '?') ==
      (Auth.OpenIdConnectURL(cfg.keycloakURL, cfg.keycloakRealm, "logout"), LogoutQuery(cfg, idToken), true)
  {
    var base := Auth.OpenIdConnectURL(cfg.keycloakURL, cfg.keycloakRealm, "logout");
    NoQuestionMarkInEndpoint(cfg.keycloakURL, cfg.keycloakRealm);
    Strings.CutAtFirst(base, '?', LogoutQuery(cfg, idToken));
  }

  lemma NoQuestionMarkInEndpoint(keycloakURL: string, realm: string)
    requires '?' !in keycloakURL && '?' !in realm
    ensures '?' !in Auth.OpenIdConnectURL(keycloakURL, realm, "logout")
  {
    assert '?' !in "/auth/realms/";
    assert '?' !in "/protocol/openid-connect/";
    assert '?' !in "logout";
  }

  /**
   * Logout: without an `id_token` cookie the browser is sent to /login and nothing
   * is cleared; otherwise `jwt` is deleted and the browser is sent to Keycloak's
   * end-session endpoint.
   */
  function LogoutHandler(cfg: Config.Config, idTokenCookie: Option<string>): (r: Response)
    ensures idTokenCookie.None? ==> r == Response(StatusFound, Some("/login"), [])
    ensures idTokenCookie.Some? ==>
      && r.status == StatusFound && r.cookies == [ClearJwtCookie]
      && r.location == Some(LogoutURL(cfg, idTokenCookie.value))
  {
    match idTokenCookie
    case None => Response(StatusFound, Some("/login"), [])
    case Some(idToken) => Response(StatusFound, Some(LogoutURL(cfg, idToken)), [ClearJwtCookie])
  }

  /**
   * The end-session query reads back as exactly two parameters: the ID token and
   * the service's /login page, byte for byte, whatever characters they contain.
   */
  lemma LogoutQueryReadsBack(cfg: Config.Config, idToken: string)
    ensures var pairs := UrlQuery.QueryPairs(LogoutQuery(cfg, idToken));
      && |pairs| == 2
      && pairs[0] == (Success(Utf8.Encode("id_token_hint")), Success(Utf8.Encode(idToken)))
      && pairs[1] == (Success(Utf8.Encode("post_logout_redirect_uri")), Success(Utf8.Encode(cfg.cppHost + "/login")))
  {
    var hint := QueryParameter("id_token_hint", idToken);
    var back := QueryParameter("post_logout_redirect_uri", cfg.cppHost + "/login");
    PlainKey("id_token_hint");
    PlainKey("post_logout_redirect_uri");
    TwoParameterSplit("id_token_hint", idToken, "post_logout_redirect_uri", cfg.cppHost + "/login");
    TwoPartQuery(LogoutQuery(cfg, idToken), hint, back);
    ReadQueryParameter("id_token_hint", idToken);
    ReadQueryParameter("post_logout_redirect_uri", cfg.cppHost + "/login");
  }

  lemma TwoPartQuery(query: string, first: string, second: string)
    requires Strings.Split(query, '&') == [first, second]
    ensures var pairs := UrlQuery.QueryPairs(query);
      |pairs| == 2 && pairs[0] == UrlQuery.KeyValue(first) && pairs[1] == UrlQuery.KeyValue(second)
  {
  }

  lemma TwoParameterSplit(key1: string, value1: string, key2: string, value2: string)
    requires '&' !in key1 && '&' !in key2
    ensures Strings.Split(QueryParameter(key1, value1) + "&" + QueryParameter(key2, value2), '&') ==
      [QueryParameter(key1, value1), QueryParameter(key2, value2)]
  {
    var first := QueryParameter(key1, value1);
    var second := QueryParameter(key2, value2);
    assert [first, second][1..] == [second];
    assert Strings.Join([first, second], '&') == first + "&" + second;
    Strings.SplitJoin([first, second], '&');
  }

  lemma PlainKey(key: string)
    requires key == "id_token_hint" || key == "post_logout_redirect_uri"
    ensures '=' !in key && '%' !in key && '+' !in key && '&' !in key
  {
    PlainLetters(key);
  }

  /** Lower-case letters and '_' only, as both logout keys are. */
  predicate LowerSnake(key: string)
  {
    forall i | 0 <= i < |key| :: 'a' <= key[i] <= 'z' || key[i] == '_'
  }

  lemma PlainLetters(key: string)
    requires LowerSnake(key)
    ensures '=' !in key && '%' !in key && '+' !in key && '&' !in key
  {
  }

  /** A key=escaped-value parameter reads back as the key's and the value's bytes. */
  lemma ReadQueryParameter(key: string, value: string)
    requires '=' !in key && '%' !in key && '+' !in key
    ensures UrlQuery.KeyValue(QueryParameter(key, value)) == (Success(Utf8.Encode(key)), Success(Utf8.Encode(value)))
  {
    assert QueryParameter(key, value) == key + ['='] + UrlQuery.QueryEscape(value);
    Strings.CutAtFirst(key, '=', UrlQuery.QueryEscape(value));
    UrlQuery.UnescapePlain(key);
    UrlQuery.QueryUnescapeEscape(value);
  }

  // ---------------------------------------------------------------- phone-number update

  /** The submitted display name replaces the stored one only when it is non-empty. */
  function MergeDisplayName(current: PhoneNumber, submitted: string): (merged: PhoneNumber)
    ensures merged.id == current.id && merged.phoneNumber == current.phoneNumber
    ensures submitted == "" ==> merged == current
    ensures submitted != "" ==> merged.displayName == submitted
  {
    if submitted != "" then current.(displayName := submitted) else current
  }

  /** Submitting the same form twice changes nothing the second time. */
  lemma MergeDisplayNameIdempotent(current: PhoneNumber, submitted: string)
    ensures MergeDisplayName(MergeDisplayName(current, submitted), submitted) == MergeDisplayName(current, submitted)
  {
  }
}
