/** The request gateway (src/services/api.js): every backend call goes through
    `apiCall`, which builds the URL and the headers, sends exactly one request,
    classifies the reply and, on a 401, tears the stored session down. */
module Gateway {
  import opened Wrappers
  import opened JsStrings
  import opened Storage
  import Session

  const DefaultBaseUrl := "http://localhost:3001"
  const ContentType := "Content-Type"
  const Authorization := "Authorization"
  const Json := "application/json"
  const BearerPrefix := "Bearer "
  const ErrorPreviewLength := 100

  /** `process.env.REACT_APP_API_URL || 'http://localhost:3001'`. */
  function BaseUrl(env: Option<string>): (b: string)
    ensures Truthy(env) ==> b == env.value
    ensures !Truthy(env) ==> b == DefaultBaseUrl
    ensures b != ""
  {
    if Truthy(env) then env.value else DefaultBaseUrl
  }

  /** What a caller may pass as `options`; `headers` is `{}` when not given. */
  datatype Options = Options(verb: Option<string>, body: Option<string>, headers: map<string, string>)

  const NoOptions := Options(None, None, map[])

  /** The request handed to `fetch`. */
  datatype Request = Request(url: string, verb: Option<string>, body: Option<string>,
                             headers: map<string, string>)

  /** The default headers: always the JSON content type, and a bearer credential
      exactly when the stored token is truthy. */
  function DefaultHeaders(token: Option<string>): (h: map<string, string>)
    ensures h.Keys == {ContentType} + (if Truthy(token) then {Authorization} else {})
    ensures h[ContentType] == Json
    ensures Truthy(token) ==> h[Authorization] == BearerPrefix + token.value
  {
    var h := map[ContentType := Json];
    if Truthy(token) then h[Authorization := BearerPrefix + token.value] else h
  }

  /** `{...defaults, ...caller}`: every name either supplies is present, and the
      caller's value wins on a shared name. */
  function MergeHeaders(defaults: map<string, string>, caller: map<string, string>): (h: map<string, string>)
    ensures h.Keys == defaults.Keys + caller.Keys
    ensures forall k :: k in caller ==> h[k] == caller[k]
    ensures forall k :: k in defaults && k !in caller ==> h[k] == defaults[k]
  {
    defaults + caller
  }

  /** The single request `apiCall(endpoint, options)` sends when the store holds `token`. */
  function Configure(base: string, token: Option<string>, endpoint: string, options: Options): (r: Request)
    ensures r.verb == options.verb && r.body == options.body
    ensures ContentType in r.headers && options.headers.Keys <= r.headers.Keys
  {
    Request(base + endpoint, options.verb, options.body,
            MergeHeaders(DefaultHeaders(token), options.headers))
  }

  /** The URL is the base followed by the endpoint, method and body pass through, the
      JSON content type is sent unless the caller overrides it, and the bearer header
      is sent exactly when the token is truthy or the caller supplies one. */
  lemma ConfigureShape(base: string, token: Option<string>, endpoint: string, options: Options)
    ensures var r := Configure(base, token, endpoint, options);
      r.url[..|base|] == base && r.url[|base|..] == endpoint &&
      r.verb == options.verb && r.body == options.body &&
      ContentType in r.headers &&
      (ContentType !in options.headers ==> r.headers[ContentType] == Json) &&
      (Authorization in r.headers <==> Truthy(token) || Authorization in options.headers) &&
      (Truthy(token) && Authorization !in options.headers ==>
        r.headers[Authorization] == BearerPrefix + token.value) &&
      (forall k :: k in options.headers ==> r.headers[k] == options.headers[k])
  {
    var r := Configure(base, token, endpoint, options);
    assert r.url == base + endpoint;
  }

  /** What `fetch` delivers: a transport failure, or a status with the full body text. */
  datatype Reply = NetworkFailure(message: string) | Response(status: nat, text: string)

  /** The error `apiCall` throws; `message` is the thrown `Error`'s message. */
  datatype ApiError =
    | HttpError(status: nat, message: string)
    | InvalidJson(message: string)
    | Transport(message: string)

  datatype ApiResult<V> = Returned(value: V) | Threw(error: ApiError)

  /** `response.ok`. */
  predicate IsOk(status: nat) {
    200 <= status <= 299
  }

  /** The only reply that tears the session down. */
  predicate Unauthorized(reply: Reply) {
    reply.Response? && reply.status == 401
  }

  /** `HTTP error! status: S, message: T`. */
  function HttpMessage(status: nat, text: string): (m: string)
    ensures |m| >= |"HTTP error! status: "| && m[..|"HTTP error! status: "|] == "HTTP error! status: "
  {
    "HTTP error! status: " + DecimalString(status) + ", message: " + text
  }

  /** `Invalid JSON response: ` and the body cut to its first 100 UTF-16 code units. */
  function JsonMessage(text: string): (m: string)
    ensures |m| >= |"Invalid JSON response: "| && m[..|"Invalid JSON response: "|] == "Invalid JSON response: "
  {
    "Invalid JSON response: " + Utf16Prefix(text, ErrorPreviewLength)
  }

  /** The exit `apiCall` takes for a reply, `parse` standing for `JSON.parse`
      (`None`: it throws). */
  function Classify<V>(reply: Reply, parse: string -> Option<V>): (r: ApiResult<V>)
    ensures reply.NetworkFailure? ==> r == Threw(Transport(reply.message))
    ensures reply.Response? && !IsOk(reply.status) ==>
      r == Threw(HttpError(reply.status, HttpMessage(reply.status, reply.text)))
    ensures reply.Response? && IsOk(reply.status) ==>
      (r.Returned? <==> parse(reply.text).Some?) &&
      (r.Returned? ==> Some(r.value) == parse(reply.text)) &&
      (r.Threw? ==> r.error == InvalidJson(JsonMessage(reply.text)))
  {
    match reply
    case NetworkFailure(m) => Threw(Transport(m))
    case Response(status, text) =>
      if !IsOk(status) then Threw(HttpError(status, HttpMessage(status, text)))
      else match parse(text)
        case Some(v) => Returned(v)
        case None => Threw(InvalidJson(JsonMessage(text)))
  }

  /** The HTTP error message carries the status, recoverable from its digits, and
      the whole body text; it can never be mistaken for the invalid-JSON message. */
  lemma ErrorMessagesDistinct(status: nat, text: string, other: string)
    ensures var m := HttpMessage(status, text);
      var p := |"HTTP error! status: "|;
      var d := DecimalString(status);
      m[p..p + |d|] == d && DecimalValue(m[p..p + |d|]) == status &&
      m[|m| - |text|..] == text &&
      m != JsonMessage(other)
  {
    var m := HttpMessage(status, text);
    var d := DecimalString(status);
    var p := |"HTTP error! status: "|;
    assert m == "HTTP error! status: " + d + ", message: " + text;
    assert m[p..p + |d|] == d;
    DecimalRoundTrip(status);
    assert m[0] == 'H' && JsonMessage(other)[0] == 'I';
  }

  /** The invalid-JSON message carries a prefix of the body of at most 100 UTF-16 code
      units, the whole body when it fits, and otherwise stops only where the next
      character would pass the limit. */
  lemma JsonMessagePreview(text: string)
    ensures var preview := JsonMessage(text)[|"Invalid JSON response: "|..];
      preview <= text && Utf16Length(preview) <= ErrorPreviewLength &&
      (Utf16Length(text) <= ErrorPreviewLength ==> preview == text) &&
      (preview != text ==> Utf16Length(preview) + CodeUnits(text[|preview|]) > ErrorPreviewLength)
  {
    var m := JsonMessage(text);
    assert m[|"Invalid JSON response: "|..] == Utf16Prefix(text, ErrorPreviewLength);
  }

  /** `apiCall(endpoint, options)`. `server` stands for the backend: it is asked
      exactly once, with the configured request, and nothing retries. On a 401 the
      store loses both session items and the page is sent to `/login` before the
      error is thrown; any other reply leaves the store alone. */
  method ApiCall<V>(env: Option<string>, storage: LocalStorage, endpoint: string, options: Options,
                    server: Request -> Reply, parse: string -> Option<V>)
    returns (sent: Request, result: ApiResult<V>, redirect: Option<string>)
    modifies storage
    ensures sent == Configure(BaseUrl(env), old(storage.GetItem(Session.TokenKey)), endpoint, options)
    ensures result == Classify(server(sent), parse)
    ensures Unauthorized(server(sent)) ==>
      storage.items == old(storage.items) - {Session.TokenKey, Session.UserKey} && redirect == Some(Session.LoginPath)
    ensures !Unauthorized(server(sent)) ==>
      storage.items == old(storage.items) && redirect == None
  {
    var url := BaseUrl(env) + endpoint;
    var token := storage.GetItem(Session.TokenKey);
    var defaultHeaders := map[ContentType := Json];
    if Truthy(token) {
      defaultHeaders := defaultHeaders[Authorization := BearerPrefix + token.value];
    }
    sent := Request(url, options.verb, options.body, defaultHeaders + options.headers);
    var reply := server(sent);
    redirect := None;
    match reply {
      case NetworkFailure(m) =>
        result := Threw(Transport(m));
      case Response(status, text) =>
        if !IsOk(status) {
          if status == 401 {
            storage.RemoveItem(Session.TokenKey);
            storage.RemoveItem(Session.UserKey);
            redirect := Some(Session.LoginPath);
          }
          result := Threw(HttpError(status, HttpMessage(status, text)));
        } else {
          var data := parse(text);
          if data.Some? {
            result := Returned(data.value);
          } else {
            result := Threw(InvalidJson(JsonMessage(text)));
          }
        }
    }
  }

  /** One entry of the `api` table: the endpoint and the options it passes. */
  datatype Call = Call(endpoint: string, options: Options)

  function UserPath(id: string): string {
    "/users/" + id
  }

  function GetUsers(): Call { Call("/users", NoOptions) }
  function GetUser(id: string): Call { Call(UserPath(id), NoOptions) }
  function CreateUser(body: string): Call { Call("/users", Options(Some("POST"), Some(body), map[])) }
  function UpdateUser(id: string, body: string): Call { Call(UserPath(id), Options(Some("PUT"), Some(body), map[])) }
  function DeleteUser(id: string): Call { Call(UserPath(id), Options(Some("DELETE"), None, map[])) }
  function GetDashboardStats(): Call { Call("/dashboard", NoOptions) }
  function GetCommissionLogs(): Call { Call("/commission-logs", NoOptions) }
  /** The code is interpolated as it is, without URL encoding. */
  function ValidateReferralCode(code: string): Call { Call("/auth/check-referral-valid?ref=" + code, NoOptions) }

  /** The three single-user calls address the same resource, which determines the id,
      and differ only in their method; listing and creating share the collection path. */
  lemma UserEndpoints(id: string, id': string, body: string)
    ensures GetUser(id).endpoint == UpdateUser(id, body).endpoint == DeleteUser(id).endpoint
    ensures GetUser(id).options.verb == None
    ensures UpdateUser(id, body).options == Options(Some("PUT"), Some(body), map[])
    ensures DeleteUser(id).options == Options(Some("DELETE"), None, map[])
    ensures GetUser(id).endpoint == GetUser(id').endpoint ==> id == id'
    ensures GetUsers().endpoint == CreateUser(body).endpoint == "/users"
    ensures CreateUser(body).options.verb == Some("POST") && CreateUser(body).options.body == Some(body)
  {
    if UserPath(id) == UserPath(id') {
      assert id == UserPath(id)[7..];
      assert id' == UserPath(id')[7..];
    }
  }

  /** The collection endpoints of the table pass no options, and none of them is the
      path of a single user, whatever the id. */
  lemma CollectionEndpoints(id: string)
    ensures GetUsers() == Call("/users", NoOptions)
    ensures GetDashboardStats() == Call("/dashboard", NoOptions)
    ensures GetCommissionLogs() == Call("/commission-logs", NoOptions)
    ensures UserPath(id) != GetUsers().endpoint
    ensures UserPath(id) != GetDashboardStats().endpoint
    ensures UserPath(id) != GetCommissionLogs().endpoint
  {
    assert UserPath(id)[1] == 'u' && |UserPath(id)| >= 7;
    assert "/dashboard"[1] == 'd' && "/commission-logs"[1] == 'c';
  }

  /** The referral code is the whole query value after `?ref=`, taken verbatim: the
      code can be read back from the endpoint, so distinct codes hit distinct URLs. */
  lemma ReferralEndpoint(code: string, code': string)
    ensures var e := ValidateReferralCode(code).endpoint;
      var p := |"/auth/check-referral-valid?ref="|;
      e[..p] == "/auth/check-referral-valid?ref=" && e[p..] == code
    ensures ValidateReferralCode(code).endpoint == ValidateReferralCode(code').endpoint ==> code == code'
    ensures ValidateReferralCode(code).options == NoOptions
  {
    var p := |"/auth/check-referral-valid?ref="|;
    assert ValidateReferralCode(code).endpoint[p..] == code;
    assert ValidateReferralCode(code').endpoint[p..] == code';
  }

  /** A call answered with 401 tears the stored session down, so the page load that
      the redirect to `/login` causes starts with an empty session, whichever screen
      issued the call. */
  method UnauthorizedThenReload<V>(env: Option<string>, p: Session.AuthProvider, endpoint: string,
                                   options: Options, server: Request -> Reply, parse: string -> Option<V>)
    returns (result: ApiResult<V>, redirect: Option<string>, q: Session.AuthProvider)
    modifies p.storage
    ensures redirect == Some(Session.LoginPath) <==>
      result.Threw? && result.error.HttpError? && result.error.status == 401
    ensures redirect == Some(Session.LoginPath) ==>
      q.token == None && q.user == None && !q.loading && !q.IsAuthenticated() && !q.IsAdmin()
  {
    var sent;
    sent, result, redirect := ApiCall(env, p.storage, endpoint, options, server, parse);
    Session.ClearedStoreRestoresNothing(old(p.storage.items), p.decode);
    q := new Session.AuthProvider(p.storage, p.encode, p.decode);
    var ok := q.Init();
  }
}
