/**
  The `FivetranConnector` class: its state, the request parameters it
  builds, the listing queries over the Fivetran REST API and the pause call.

  The network is a `Server`: for each URL, the outcomes of the fetches made
  to it (the first request, then the continuation requests in order). A URL
  the server does not know fails to fetch.
*/
module FivetranConnector {
  import opened Wrappers
  import opened FivetranFilters
  import opened FivetranHttp
  import opened FivetranPager

  type Server = map<string, Oracle>

  /** The fetch outcomes for requests to `url`. */
  function Lookup(server: Server, url: string): Oracle {
    if url in server then server[url] else Oracle(FetchThrew, [])
  }

  /** The HTTP methods `buildHttpParams_` is called with. */
  datatype HttpMethod = Get | Patch | Delete | Post

  /** The JSON values a request payload holds. */
  datatype JsonValue = JBool(b: bool) | JText(s: string)

  type Payload = map<string, JsonValue>

  /**
    A JavaScript header object. The connector keeps one for its lifetime and
    every request's parameters share it, so writing a header into the
    parameters writes it into the connector.
  */
  class Headers {
    var entries: map<string, string>

    constructor (entries: map<string, string>)
      ensures this.entries == entries
    {
      this.entries := entries;
    }
  }

  /**
    The advanced parameters of `UrlFetchApp.fetch`. `payload` is the object
    `JSON.stringify` serialises, when the method carries one.
  */
  datatype HttpParams = HttpParams(httpMethod: HttpMethod, headers: Headers, muteHttpExceptions: bool,
                                   contentType: string, payload: Option<Payload>)

  /** The error `pauseConnector` throws when the pause call fails. */
  function PauseFailedMessage(connectorId: string): (m: string)
    ensures |m| == 44 + |connectorId| + 1
    ensures m[..44] == "pauseConnector: Pause Failed, connector_id='"
    ensures m[44..|m| - 1] == connectorId && m[|m| - 1] == '\''
  {
    "pauseConnector: Pause Failed, connector_id='" + connectorId + "'"
  }

  /** Different connector ids give different failure messages. */
  lemma PauseFailedMessageInjective(a: string, b: string)
    requires PauseFailedMessage(a) == PauseFailedMessage(b)
    ensures a == b
  {
    var m := PauseFailedMessage(a);
    assert a == m[44..|m| - 1];
  }

  /**
    What `getConnectors` collects from `groups` (a list it pops from its end)
    with the caller's filter specs `specs`: for each group, the connectors
    its listing returns, until a listing throws. Also the specs left in the
    caller's list: the first listing that reaches `buildFilterConditions_`
    empties it (even when it throws later, at a missing `data.items`), so
    every later group is listed with no filter.
  */
  function ConnectorsFrom(baseUrl: string, groups: seq<Item>, specs: seq<Spec>, exitOnTrue: bool,
                          server: Server): (r: (seq<Item>, seq<Spec>))
    ensures r.1 == specs || r.1 == []
    decreases |groups|
  {
    if groups == [] then ([], specs)
    else
      var group := groups[|groups| - 1];
      var url := GroupConnectorsUrl(baseUrl, FieldText(group, "id"));
      match Query(specs, exitOnTrue, Lookup(server, url), Accepted)
      case Err(_) => ([], if FiltersConsumed(Lookup(server, url).first, Accepted) then [] else specs)
      case Ok(items) =>
        var rest := ConnectorsFrom(baseUrl, groups[..|groups| - 1], [], exitOnTrue, server);
        (items + rest.0, [])
  }

  /**
    The first page of every group's connectors listing, group after group
    from the end of the list, until a listing throws: a reference
    definition with no filter in it.
  */
  function FirstPages(baseUrl: string, groups: seq<Item>, server: Server): seq<Item>
    decreases |groups|
  {
    if groups == [] then []
    else
      var url := GroupConnectorsUrl(baseUrl, FieldText(groups[|groups| - 1], "id"));
      match FirstPage(Lookup(server, url).first, Accepted)
      case Err(_) => []
      case Ok(page) => page.items + FirstPages(baseUrl, groups[..|groups| - 1], server)
  }

  /**
    With an empty filter list the query returns every item of the first
    page, whatever `exitOnTrue` says, and fails exactly when the first fetch
    does.
  */
  lemma UnfilteredQuery(exitOnTrue: bool, oracle: Oracle)
    ensures Query([], exitOnTrue, oracle, Accepted).Ok? <==> FirstPage(oracle.first, Accepted).Ok?
    ensures Query([], exitOnTrue, oracle, Accepted).Ok? ==>
              Query([], exitOnTrue, oracle, Accepted).value == FirstPage(oracle.first, Accepted).value.items
  {
    RealQueryFirstPageOnly([], exitOnTrue, oracle);
  }

  /**
    The default filter list `[{}]` holds one empty spec, which filters
    nothing: `getGroups()` returns every group of the first page.
  */
  lemma DefaultFiltersKeepAll(exitOnTrue: bool, oracle: Oracle)
    ensures Query([map[]], exitOnTrue, oracle, Accepted).Ok? <==> FirstPage(oracle.first, Accepted).Ok?
    ensures Query([map[]], exitOnTrue, oracle, Accepted).Ok? ==>
              Query([map[]], exitOnTrue, oracle, Accepted).value == FirstPage(oracle.first, Accepted).value.items
  {
    RealQueryFirstPageOnly([map[]], exitOnTrue, oracle);
  }

  /**
    Once the shared filter list is empty, `getConnectors` applies no filter:
    it returns the first page of every group's listing, in pop order.
  */
  lemma {:induction false} ConnectorsFromUnfiltered(baseUrl: string, groups: seq<Item>, exitOnTrue: bool,
                                                    server: Server)
    ensures ConnectorsFrom(baseUrl, groups, [], exitOnTrue, server).0 == FirstPages(baseUrl, groups, server)
    decreases |groups|
  {
    if groups != [] {
      var url := GroupConnectorsUrl(baseUrl, FieldText(groups[|groups| - 1], "id"));
      UnfilteredQuery(exitOnTrue, Lookup(server, url));
      ConnectorsFromUnfiltered(baseUrl, groups[..|groups| - 1], exitOnTrue, server);
    }
  }

  /**
    Only the group popped first is filtered: with a filter required, its
    connectors are what the filter selects from its first page (every
    accepted item, or only the first one under `exitOnTrue`), and the
    remaining groups contribute their first pages unfiltered.
  */
  lemma OnlyFirstGroupFiltered(baseUrl: string, groups: seq<Item>, specs: seq<Spec>, exitOnTrue: bool,
                               server: Server)
    requires groups != [] && HasNonEmpty(specs)
    requires FirstPage(Lookup(server, GroupConnectorsUrl(baseUrl, FieldText(groups[|groups| - 1], "id"))).first,
                       Accepted).Ok?
    ensures var url := GroupConnectorsUrl(baseUrl, FieldText(groups[|groups| - 1], "id"));
            var page := FirstPage(Lookup(server, url).first, Accepted).value;
            ConnectorsFrom(baseUrl, groups, specs, exitOnTrue, server).0
            == Selected(page.items, true, Compile(specs).condition, exitOnTrue)
               + FirstPages(baseUrl, groups[..|groups| - 1], server)
  {
    var url := GroupConnectorsUrl(baseUrl, FieldText(groups[|groups| - 1], "id"));
    RealQueryFirstPageOnly(specs, exitOnTrue, Lookup(server, url));
    ConnectorsFromUnfiltered(baseUrl, groups[..|groups| - 1], exitOnTrue, server);
  }

  /** One step of `ConnectorsFrom`: the last group's listing, then the others without filter. */
  lemma ConnectorsFromStep(baseUrl: string, groups: seq<Item>, specs: seq<Spec>, exitOnTrue: bool, server: Server)
    requires groups != []
    ensures var url := GroupConnectorsUrl(baseUrl, FieldText(groups[|groups| - 1], "id"));
            var q := Query(specs, exitOnTrue, Lookup(server, url), Accepted);
            ConnectorsFrom(baseUrl, groups, specs, exitOnTrue, server)
            == if q.Err? then ([], if FiltersConsumed(Lookup(server, url).first, Accepted) then [] else specs)
               else (q.value + ConnectorsFrom(baseUrl, groups[..|groups| - 1], [], exitOnTrue, server).0, [])
  {
  }

  lemma ConnectorsAppend(done: seq<Item>, found: seq<Item>, rest: seq<Item>)
    ensures done + (found + rest) == (done + found) + rest
  {
  }

  /**
    What `getConnectors` returns, and the specs it leaves in the caller's
    filter list: the error of the groups listing, which it does not catch,
    or the connectors collected from the groups.
  */
  function GetConnectorsOutcome(baseUrl: string, specs: seq<Spec>, exitOnTrue: bool, server: Server)
    : (r: (Result<seq<Item>, ApiError>, seq<Spec>))
    ensures r.1 == specs || r.1 == []
  {
    match Query([map[]], true, Lookup(server, GroupsUrl(baseUrl)), Accepted)
    case Err(e) => (Err(e), specs)
    case Ok(groups) =>
      var collected := ConnectorsFrom(baseUrl, groups, specs, exitOnTrue, server);
      (Ok(collected.0), collected.1)
  }

  /** The connector: credentials, API version, base URL and its shared header object. */
  class Connector {
    const apiKey: string
    const apiSecret: string
    const apiVersion: int
    const baseUrl: string
    /** `_authHeader`, shared with the parameters of every request. */
    const authHeader: Headers
    /** The `Authorization` value the constructor computed. */
    ghost const authorization: string

    /**
      The header object holds the `Authorization` value of the credentials
      and, once a request has been prepared, the `Accept` value of the API
      version; nothing else.
    */
    ghost predicate Valid()
      reads authHeader
    {
      ValidEntries(authHeader.entries)
    }

    ghost predicate ValidEntries(entries: map<string, string>) {
      && entries.Keys <= {"Authorization", "Accept"}
      && "Authorization" in entries
      && entries["Authorization"] == authorization
      && ("Accept" in entries ==> entries["Accept"] == AcceptValue(apiVersion))
    }

    /** Writing the `Accept` header of the connector's version keeps the header object valid. */
    lemma AcceptKeepsValid(entries: map<string, string>)
      ensures ValidEntries(entries) ==> ValidEntries(entries["Accept" := AcceptValue(apiVersion)])
    {
    }

    /** Writing the `Accept` header a second time changes nothing. */
    lemma AcceptTwice(entries: map<string, string>)
      ensures var once := entries["Accept" := AcceptValue(apiVersion)];
              once["Accept" := AcceptValue(apiVersion)] == once
    {
    }

    /**
      The constructor: `apiVersion || 1` for the version, the fixed base URL,
      and the `Authorization` header of `authenticator_`; `base64` stands for
      `Utilities.base64Encode`.
    */
    constructor (apiKey: string, apiSecret: string, apiVersion: Option<int>, base64: string -> string)
      ensures this.apiKey == apiKey && this.apiSecret == apiSecret
      ensures this.apiVersion == DefaultVersion(apiVersion) && this.baseUrl == BaseUrl
      ensures fresh(authHeader)
      ensures authHeader.entries == Authenticator(apiKey, apiSecret, base64)
      ensures authorization == "Basic " + base64(UserPass(apiKey, apiSecret))
      ensures Valid()
    {
      this.apiKey := apiKey;
      this.apiSecret := apiSecret;
      this.apiVersion := DefaultVersion(apiVersion);
      this.baseUrl := BaseUrl;
      var header := Authenticator(apiKey, apiSecret, base64);
      this.authorization := header["Authorization"];
      this.authHeader := new Headers(header);
    }

    /**
      `buildHttpParams_`: the parameters share the connector's header
      object, into which it writes the `Accept` header; only `patch` and
      `post` carry the payload.
    */
    method BuildHttpParams(httpMethod: HttpMethod, httpPayload: Payload) returns (params: HttpParams)
      modifies authHeader
      ensures params.headers == authHeader
      ensures authHeader.entries == old(authHeader.entries)["Accept" := AcceptValue(apiVersion)]
      ensures params.httpMethod == httpMethod && params.muteHttpExceptions && params.contentType == "application/json"
      ensures params.payload == if httpMethod == Patch || httpMethod == Post then Some(httpPayload) else None
      ensures old(Valid()) ==> Valid()
    {
      params := HttpParams(httpMethod, authHeader, true, "application/json", None);
      authHeader.entries := authHeader.entries["Accept" := AcceptValue(apiVersion)];
      if httpMethod == Patch || httpMethod == Post {
        params := params.(payload := Some(httpPayload));
      }
    }

    /**
      `queryApiCursors_`: the first call, unmuted, and the read of
      `data.next_cursor`; then the filter list is compiled (and emptied);
      then the cursor loop, whose first turn reads `data.items`. The filter
      list is left as it was only when the query throws before line 131.
    */
    method QueryApiCursors(url: string, queryTexts: FilterList, exitOnTrue: bool, server: Server)
      returns (r: Result<seq<Item>, ApiError>)
      modifies authHeader, queryTexts
      ensures r == Query(old(queryTexts.specs), exitOnTrue, Lookup(server, url), Accepted)
      ensures queryTexts.specs == if FiltersConsumed(Lookup(server, url).first, Accepted) then [] else old(queryTexts.specs)
      ensures authHeader.entries == old(authHeader.entries)["Accept" := AcceptValue(apiVersion)]
      ensures old(Valid()) ==> Valid()
    {
      var params := BuildHttpParams(Get, map[]);
      var oracle := Lookup(server, url);
      var queryResponse := MakeCallToApi(oracle.first, false, Accepted);
      if queryResponse.Err? {
        return Err(queryResponse.error);
      }
      var responseContext := queryResponse.value.body;
      if responseContext.NoData? {
        return Err(NotAListing);
      }
      var isFilterRequired, filterConditions := BuildFilterConditions(queryTexts);
      if responseContext.NoItems? {
        return Err(ItemsMissing);
      }
      var apiItems, pageTurns, requested := CursorLoop(responseContext.page, oracle.continuations, isFilterRequired,
                                                       filterConditions, exitOnTrue, Accepted);
      r := Ok(apiItems);
    }

    /** `getConnectorsInGroup`: the listing of one group's connectors. */
    method GetConnectorsInGroup(groupId: string, filters: FilterList, exitOnTrue: bool, server: Server)
      returns (r: Result<seq<Item>, ApiError>)
      modifies authHeader, filters
      ensures r == Query(old(filters.specs), exitOnTrue, Lookup(server, GroupConnectorsUrl(baseUrl, groupId)), Accepted)
      ensures filters.specs == if FiltersConsumed(Lookup(server, GroupConnectorsUrl(baseUrl, groupId)).first, Accepted) then [] else old(filters.specs)
      ensures authHeader.entries == old(authHeader.entries)["Accept" := AcceptValue(apiVersion)]
      ensures old(Valid()) ==> Valid()
    {
      r := QueryApiCursors(GroupConnectorsUrl(baseUrl, groupId), filters, exitOnTrue, server);
    }

    /** `getGroups`: the listing of the account's groups. */
    method GetGroups(filters: FilterList, exitOnTrue: bool, server: Server) returns (r: Result<seq<Item>, ApiError>)
      modifies authHeader, filters
      ensures r == Query(old(filters.specs), exitOnTrue, Lookup(server, GroupsUrl(baseUrl)), Accepted)
      ensures filters.specs == if FiltersConsumed(Lookup(server, GroupsUrl(baseUrl)).first, Accepted) then [] else old(filters.specs)
      ensures authHeader.entries == old(authHeader.entries)["Accept" := AcceptValue(apiVersion)]
      ensures old(Valid()) ==> Valid()
    {
      r := QueryApiCursors(GroupsUrl(baseUrl), filters, exitOnTrue, server);
    }

    /** `getTeams`: the listing of the account's teams. */
    method GetTeams(filters: FilterList, exitOnTrue: bool, server: Server) returns (r: Result<seq<Item>, ApiError>)
      modifies authHeader, filters
      ensures r == Query(old(filters.specs), exitOnTrue, Lookup(server, TeamsUrl(baseUrl)), Accepted)
      ensures filters.specs == if FiltersConsumed(Lookup(server, TeamsUrl(baseUrl)).first, Accepted) then [] else old(filters.specs)
      ensures authHeader.entries == old(authHeader.entries)["Accept" := AcceptValue(apiVersion)]
      ensures old(Valid()) ==> Valid()
    {
      r := QueryApiCursors(TeamsUrl(baseUrl), filters, exitOnTrue, server);
    }

    /** `getUsers`: the listing of the account's users. */
    method GetUsers(filters: FilterList, exitOnTrue: bool, server: Server) returns (r: Result<seq<Item>, ApiError>)
      modifies authHeader, filters
      ensures r == Query(old(filters.specs), exitOnTrue, Lookup(server, UsersUrl(baseUrl)), Accepted)
      ensures filters.specs == if FiltersConsumed(Lookup(server, UsersUrl(baseUrl)).first, Accepted) then [] else old(filters.specs)
      ensures authHeader.entries == old(authHeader.entries)["Accept" := AcceptValue(apiVersion)]
      ensures old(Valid()) ==> Valid()
    {
      r := QueryApiCursors(UsersUrl(baseUrl), filters, exitOnTrue, server);
    }

    /**
      `getConnectors`: lists the groups with the default arguments (a fresh
      `[{}]`, `exitOnTrue` true), then pops them one by one and appends each
      group's connectors, passing the caller's filter list to every group;
      a group whose listing throws ends the walk.
    */
    method GetConnectors(filters: FilterList, exitOnTrue: bool, server: Server)
      returns (r: Result<seq<Item>, ApiError>)
      modifies authHeader, filters
      ensures (r, filters.specs) == GetConnectorsOutcome(baseUrl, old(filters.specs), exitOnTrue, server)
      ensures authHeader.entries == old(authHeader.entries)["Accept" := AcceptValue(apiVersion)]
      ensures old(Valid()) ==> Valid()
    {
      var defaultFilters := new FilterList([map[]]);
      var groupsResult := GetGroups(defaultFilters, true, server);
      ghost var entries := authHeader.entries;
      AcceptKeepsValid(old(authHeader.entries));
      assert groupsResult == Query([map[]], true, Lookup(server, GroupsUrl(baseUrl)), Accepted);
      if groupsResult.Err? {
        assert filters.specs == old(filters.specs);
        assert GetConnectorsOutcome(baseUrl, old(filters.specs), exitOnTrue, server) == (Err(groupsResult.error), old(filters.specs));
        return Err(groupsResult.error);
      }
      var groups := groupsResult.value;
      ghost var allGroups := groups;
      ghost var specs0 := filters.specs;
      var connectors: seq<Item> := [];
      assert [] + ConnectorsFrom(baseUrl, groups, specs0, exitOnTrue, server).0
          == ConnectorsFrom(baseUrl, groups, specs0, exitOnTrue, server).0;
      while |groups| > 0
        invariant |groups| <= |allGroups|
        invariant ConnectorsFrom(baseUrl, allGroups, specs0, exitOnTrue, server).0
                  == connectors + ConnectorsFrom(baseUrl, groups, filters.specs, exitOnTrue, server).0
        invariant ConnectorsFrom(baseUrl, allGroups, specs0, exitOnTrue, server).1
                  == ConnectorsFrom(baseUrl, groups, filters.specs, exitOnTrue, server).1
        invariant authHeader.entries == entries
        decreases |groups|
      {
        ghost var before, specsBefore := groups, filters.specs;
        var group := groups[|groups| - 1];
        groups := groups[..|groups| - 1];
        var connectorsInGroup := GetConnectorsInGroup(FieldText(group, "id"), filters, exitOnTrue, server);
        AcceptTwice(old(authHeader.entries));
        assert authHeader.entries == entries;
        ConnectorsFromStep(baseUrl, before, specsBefore, exitOnTrue, server);
        if connectorsInGroup.Err? {
          assert connectors + [] == connectors;
          break;
        }
        ConnectorsAppend(connectors, connectorsInGroup.value,
                         ConnectorsFrom(baseUrl, groups, [], exitOnTrue, server).0);
        connectors := connectors + connectorsInGroup.value;
      }
      assert connectors + [] == connectors;
      assert ConnectorsFrom(baseUrl, allGroups, specs0, exitOnTrue, server) == (connectors, filters.specs);
      r := Ok(connectors);
    }

    /**
      `pauseConnector`: a `patch` of `{"paused": true}` to the connector's
      URL; a failed call becomes the failure message. `params` are the
      parameters the call is made with.
    */
    method PauseConnector(connectorId: string, server: Server) returns (r: Result<(), string>, ghost params: HttpParams)
      modifies authHeader
      ensures params.httpMethod == Patch && params.payload == Some(map["paused" := JBool(true)])
      ensures params.headers == authHeader && params.muteHttpExceptions && params.contentType == "application/json"
      ensures r.Ok? <==> MakeCallToApi(Lookup(server, ConnectorUrl(baseUrl, connectorId)).first, false, Accepted).Ok?
      ensures r.Err? ==> r.error == PauseFailedMessage(connectorId)
      ensures authHeader.entries == old(authHeader.entries)["Accept" := AcceptValue(apiVersion)]
      ensures old(Valid()) ==> Valid()
    {
      params := BuildHttpParams(Patch, map["paused" := JBool(true)]);
      var queryResponse := MakeCallToApi(Lookup(server, ConnectorUrl(baseUrl, connectorId)).first, false, Accepted);
      if queryResponse.Err? {
        r := Err(PauseFailedMessage(connectorId));
      } else {
        r := Ok(());
      }
    }
  }
}
