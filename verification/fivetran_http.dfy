/**
  The HTTP side of the Fivetran connector: what a fetch returns, the status
  classification of `makeCallToApi_`, the `Authorization` and `Accept` header
  values, and the URLs the connector requests.

  `UrlFetchApp.fetch` is not modelled: its outcome is a value of type `Fetch`
  handed in by the caller, with the JSON body already decoded into a `Page`.
*/
module FivetranHttp {
  import opened Wrappers
  import opened FivetranFilters

  /** The JavaScript value of `data.next_cursor`. */
  datatype Cursor = Null | Undefined | Token(text: string)

  /** One decoded listing: `data.items` in order and `data.next_cursor`. */
  datatype Page = Page(items: seq<Item>, nextCursor: Cursor)

  /** What the `data` field of a decoded JSON body holds. */
  datatype Body =
    | NoData           // no `data`: reading `data.next_cursor` throws
    | NoItems          // `data` without `items` (or with null): `Object.values(data.items)` throws
    | Listing(page: Page)

  /** What `JSON.parse` makes of the content text. */
  datatype Parsed =
    | Malformed   // not JSON: `JSON.parse` throws
    | NullValue   // the text `null`: reading `.message` of it throws
    | Value       // any other JSON value

  /**
    What `UrlFetchApp.fetch` hands back: the status code, the content text,
    what `JSON.parse` makes of that text, and what its `data` field holds.
  */
  datatype HttpResponse = HttpResponse(code: nat, contentText: string, parsed: Parsed, body: Body)

  /** The outcome of one fetch: a response, or an exception raised by the fetch itself. */
  datatype Fetch = Received(response: HttpResponse) | FetchThrew

  /** What `makeCallToApi_` and the decoding after it can throw. */
  datatype ApiError =
    | ResponseError(code: nat, contentText: string)  // the `throw` of line 54
    | FetchFailed                                     // `UrlFetchApp.fetch` itself threw
    | NotJson                                         // `JSON.parse` of line 46 threw
    | NullResponse                                    // line 47 read `message` of the parsed `null`
    | NotAListing                                     // no `data`: `data.next_cursor` throws
    | ItemsMissing                                    // `Object.values` of a missing `data.items` throws

  /** A status classifier: accepts a response from its status code and the mute flag. */
  type Classifier = (nat, bool) -> bool

  function DigitChar(d: nat): (c: char)
    requires d < 10
    ensures '0' <= c <= '9'
  {
    (48 + d) as char
  }

  /** `Number.prototype.toString()` of a non-negative integer. */
  function DecimalString(n: nat): (s: string)
    ensures |s| >= 1
  {
    if n < 10 then [DigitChar(n)] else DecimalString(n / 10) + [DigitChar(n % 10)]
  }

  /** `${n}` of an integer, negative ones with a leading minus sign. */
  function IntText(n: int): string {
    if n < 0 then "-" + DecimalString(-n) else DecimalString(n)
  }

  /** An arithmetic reference definition: some decimal digit of `n` is 2. */
  predicate HasDigitTwo(n: nat) {
    n % 10 == 2 || (n >= 10 && HasDigitTwo(n / 10))
  }

  /**
    The condition of `makeCallToApi_` for returning normally: the status
    code's text matches the regular expression `2.*` (it contains the
    character 2 anywhere) and the response is not muted.
  */
  function Accepted(code: nat, mute: bool): (accepted: bool)
    ensures accepted <==> HasDigitTwo(code) && !mute
  {
    DecimalHasTwoIff(code);
    '2' in DecimalString(code) && !mute
  }

  /** The text test of the classifier agrees with the arithmetic digit test. */
  lemma {:induction false} DecimalHasTwoIff(n: nat)
    ensures '2' in DecimalString(n) <==> HasDigitTwo(n)
  {
    if n >= 10 {
      DecimalHasTwoIff(n / 10);
      var digit := DigitChar(n % 10);
      assert DecimalString(n) == DecimalString(n / 10) + [digit];
      assert (digit == '2') <==> (n % 10 == 2);
    } else {
      assert DecimalString(n) == [DigitChar(n)];
    }
  }

  /** Every 2xx code is accepted when not muted. */
  lemma SuccessCodesAccepted(code: nat)
    requires 200 <= code <= 299
    ensures Accepted(code, false)
  {
    assert HasDigitTwo((code / 10) / 10);
    assert HasDigitTwo(code / 10);
  }

  /** The classifier also accepts codes such as 502 and rejects 404 and 301. */
  lemma ClassifierExamples()
    ensures Accepted(502, false)
    ensures !Accepted(404, false) && !Accepted(301, false)
    ensures !Accepted(200, true)
  {
  }

  /**
    `makeCallToApi_`: the fetched response when the classifier accepts its
    code and the mute flag and the body parses to a JSON value other than
    `null` (line 46 parses it and line 47 reads its `message`); otherwise
    the error it throws.
  */
  function MakeCallToApi(fetched: Fetch, muteHttpResponse: bool, accept: Classifier): (r: Result<HttpResponse, ApiError>)
    ensures r.Ok? <==> fetched.Received? && accept(fetched.response.code, muteHttpResponse) && fetched.response.parsed.Value?
    ensures r.Ok? ==> r.value == fetched.response
    ensures fetched.Received? && !accept(fetched.response.code, muteHttpResponse) ==>
              r == Err(ResponseError(fetched.response.code, fetched.response.contentText))
    ensures fetched.FetchThrew? ==> r == Err(FetchFailed)
    ensures fetched.Received? && accept(fetched.response.code, muteHttpResponse) ==>
              (fetched.response.parsed.Malformed? <==> r == Err(NotJson))
              && (fetched.response.parsed.NullValue? <==> r == Err(NullResponse))
  {
    match fetched
    case FetchThrew => Err(FetchFailed)
    case Received(response) =>
      if !accept(response.code, muteHttpResponse) then Err(ResponseError(response.code, response.contentText))
      else if response.parsed.Malformed? then Err(NotJson)
      else if response.parsed.NullValue? then Err(NullResponse)
      else Ok(response)
  }

  /** With the real classifier, a muted call always throws, whatever the response. */
  lemma MutedCallAlwaysThrows(fetched: Fetch)
    ensures MakeCallToApi(fetched, true, Accepted).Err?
  {
  }

  /**
    With the real classifier and mute off, the call succeeds iff the code has
    a digit 2 and the body parses to a JSON value other than `null`.
  */
  lemma UnmutedCallIff(fetched: Fetch)
    ensures MakeCallToApi(fetched, false, Accepted).Ok?
        <==> fetched.Received? && HasDigitTwo(fetched.response.code) && fetched.response.parsed.Value?
  {
  }

  /** A 2xx response whose body is the text `null` throws even though its code is accepted. */
  lemma NullBodyThrows(code: nat, contentText: string, body: Body)
    requires 200 <= code <= 299
    ensures MakeCallToApi(Received(HttpResponse(code, contentText, NullValue, body)), false, Accepted) == Err(NullResponse)
  {
    SuccessCodesAccepted(code);
  }

  /** The user-pass string of section 2 of RFC 7617: the user id, a colon, the password. */
  function UserPass(apiKey: string, apiSecret: string): string {
    apiKey + ":" + apiSecret
  }

  /** Splits a user-pass string at its first colon, as a server reading it does. */
  function SplitUserPass(s: string): (r: Option<(string, string)>)
    ensures r.Some? ==> s == r.value.0 + ":" + r.value.1 && ':' !in r.value.0
  {
    if s == [] then None
    else if s[0] == ':' then Some(([], s[1..]))
    else match SplitUserPass(s[1..])
      case None => None
      case Some((user, pass)) => Some(([s[0]] + user, pass))
  }

  /** A key without a colon is recovered, with the secret, from the user-pass string. */
  lemma {:induction false} UserPassRoundTrip(apiKey: string, apiSecret: string)
    requires ':' !in apiKey
    ensures SplitUserPass(UserPass(apiKey, apiSecret)) == Some((apiKey, apiSecret))
  {
    if apiKey == [] {
      assert UserPass(apiKey, apiSecret) == [':'] + apiSecret;
    } else {
      assert apiKey[0] in apiKey;
      UserPassRoundTrip(apiKey[1..], apiSecret);
      var s := UserPass(apiKey, apiSecret);
      assert s[0] == apiKey[0] && s[1..] == UserPass(apiKey[1..], apiSecret);
      assert [apiKey[0]] + apiKey[1..] == apiKey;
    }
  }

  /**
    `authenticator_`: the header object `{"Authorization": "Basic " + base64(key:secret)}`;
    `base64` stands for `Utilities.base64Encode`.
  */
  function Authenticator(apiKey: string, apiSecret: string, base64: string -> string): (h: map<string, string>)
    ensures h.Keys == {"Authorization"}
    ensures |h["Authorization"]| >= 6
    ensures h["Authorization"][..6] == "Basic "
    ensures h["Authorization"][6..] == base64(UserPass(apiKey, apiSecret))
  {
    map["Authorization" := "Basic " + base64(UserPass(apiKey, apiSecret))]
  }

  /** The `Accept` header value `application/json;version=<apiVersion>`. */
  function AcceptValue(apiVersion: int): (v: string)
    ensures |v| > 25
    ensures v[..25] == "application/json;version="
    ensures v[25..] == IntText(apiVersion)
  {
    "application/json;version=" + IntText(apiVersion)
  }

  /** The constructor's `apiVersion || 1` for a number argument (None: undefined or null). */
  function DefaultVersion(apiVersion: Option<int>): (v: int)
    ensures v != 0
    ensures apiVersion.Some? && apiVersion.value != 0 ==> v == apiVersion.value
    ensures apiVersion.None? || apiVersion.value == 0 ==> v == 1
  {
    match apiVersion
    case Some(n) => if n != 0 then n else 1
    case None => 1
  }

  const BaseUrl: string := "https://api.fivetran.com/v1"

  /** The JavaScript text of a cursor inside a template string. */
  function CursorText(c: Cursor): string {
    match c
    case Null => "null"
    case Undefined => "undefined"
    case Token(t) => t
  }

  /** The continuation URL `${url}?cursor=${apiCursor}&limit=1000`. */
  function CursorUrl(url: string, c: Cursor): (u: string)
    ensures |u| == |url| + 8 + |CursorText(c)| + 11
    ensures u[..|url|] == url
    ensures u[|url|..|url| + 8] == "?cursor="
    ensures u[|url| + 8..|u| - 11] == CursorText(c)
    ensures u[|u| - 11..] == "&limit=1000"
  {
    url + "?cursor=" + CursorText(c) + "&limit=1000"
  }

  /** The text of `group.id` in a template string; a missing field reads `undefined`. */
  function FieldText(item: Item, key: string): string {
    if key in item then item[key] else "undefined"
  }

  function GroupsUrl(baseUrl: string): string { baseUrl + "/groups" }

  function TeamsUrl(baseUrl: string): string { baseUrl + "/teams" }

  function UsersUrl(baseUrl: string): string { baseUrl + "/users" }

  function GroupConnectorsUrl(baseUrl: string, groupId: string): string {
    baseUrl + "/groups/" + groupId + "/connectors"
  }

  function ConnectorUrl(baseUrl: string, connectorId: string): string {
    baseUrl + "/connectors/" + connectorId
  }
}
