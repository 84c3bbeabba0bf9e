/** The REST side of ingestion and the admin endpoints (`TRM_REST`): the
    token check of the public collector endpoint, the guard chain and row
    normalisation of `collect`, the filter extraction shared by `logs` and
    `stats`, the role written into a row and the status of the manual
    report. WordPress itself (nonces, the current user, `json_decode`,
    `sanitize_text_field`, `intval`) is passed in. */
module Gateway {
  import opened Php
  import opened LogStore
  import opened Stats
  import opened Config
  import opened Tracking
  import opened Reports

  // -----------------------------------------------------------------------
  // requests and responses

  /** What `json_decode($body, true)` yields when it is an array: None for
      a key that is not set (or is null). Numbers arrive already converted
      (`floatval`, the `Y-m-d H:i:s` timestamp as seconds). */
  datatype Payload = Payload(
    eventTime: Option<int>,
    url: Option<string>,
    serverTime: Option<real>,
    ttfb: Option<real>,
    lcp: Option<real>,
    totalLoad: Option<real>,
    memoryPeak: Option<int>,
    device: Option<string>,
    net: Option<string>,
    country: Option<string>,
    sessionId: Option<string>)

  /** A POST to `/collect`: the `X-TRM-Nonce` header, the `trm_token` query
      parameter and the raw body. */
  datatype Request = Request(header: Option<string>, token: Option<string>, body: string)

  /** Who is asking, and from where: the roles of the logged-in user (None
      when logged out), the request path and the `wp_rand(0, 1000)` draw. */
  datatype Visit = Visit(user: Option<seq<string>>, path: string, draw: int)

  /** The host functions: `sanitize_text_field`, `wp_verify_nonce(..,
      'trm_collect')` and `json_decode` (None when the result is not an
      array). */
  datatype Host = Host(sanitize: string -> string, verify: string -> bool, decode: string -> Option<Payload>)

  /** A `WP_Error` with its code and HTTP status, or a `WP_REST_Response`
      with its status, its `status` field and an optional `message`. */
  datatype Response =
    | Fault(code: string, status: int)
    | Reply(status: int, state: string, message: Option<string>)

  // -----------------------------------------------------------------------
  // verify_custom_nonce

  /** The token a request presents: the header when it is set, otherwise
      the query parameter, each sanitized. */
  function PresentedNonce(header: Option<string>, token: Option<string>, sanitize: string -> string): Option<string> {
    if header.Some? then Some(sanitize(header.value))
    else if token.Some? then Some(sanitize(token.value))
    else None
  }

  /** `verify_custom_nonce()`: the header wins over the query parameter; no
      token, or a falsy one, fails; otherwise the nonce check decides. */
  function VerifyCustomNonce(header: Option<string>, token: Option<string>,
                             sanitize: string -> string, verify: string -> bool): (r: bool)
    ensures header.Some? ==>
      (r <==> !Falsy(sanitize(header.value)) && verify(sanitize(header.value)))
    ensures header.None? && token.Some? ==>
      (r <==> !Falsy(sanitize(token.value)) && verify(sanitize(token.value)))
    ensures header.None? && token.None? ==> !r
  {
    var nonce := PresentedNonce(header, token, sanitize);
    nonce.Some? && !Falsy(nonce.value) && verify(nonce.value)
  }

  /** Once the header is set, the query parameter is never looked at. */
  lemma HeaderOverridesToken(header: string, token1: Option<string>, token2: Option<string>,
                             sanitize: string -> string, verify: string -> bool)
    ensures VerifyCustomNonce(Some(header), token1, sanitize, verify) ==
            VerifyCustomNonce(Some(header), token2, sanitize, verify)
  {
  }

  // -----------------------------------------------------------------------
  // get_user_role and the normalised row

  /** `get_user_role()`: '' when logged out, else the first role, or '' for
      a user without roles. */
  function GetUserRole(user: Option<seq<string>>, sanitize: string -> string): (r: string)
    ensures user.None? ==> r == ""
    ensures user.Some? && user.value != [] ==> r == sanitize(user.value[0])
    ensures user.Some? && user.value == [] ==> r == ""
  {
    match user
    case None => ""
    case Some(roles) => if |roles| > 0 then sanitize(roles[0]) else ""
  }

  /** `wp_json_encode(array())`, the meta `collect` stores. */
  const EmptyJsonArray: string := "[]"

  function TextOr(v: Option<string>, sanitize: string -> string): string {
    if v.Some? then sanitize(v.value) else ""
  }

  /** Every key of the array handed to `insert` is set. */
  predicate Complete(row: RowInput) {
    && row.eventTime.Some? && row.url.Some? && row.serverTime.Some? && row.ttfb.Some?
    && row.lcp.Some? && row.totalLoad.Some? && row.memoryPeak.Some? && row.device.Some?
    && row.net.Some? && row.country.Some? && row.sessionId.Some? && row.userRole.Some?
    && row.meta.Some?
  }

  /** The `$row` array of `collect`: every key is set; missing strings
      become '', missing numbers 0, a missing `event_time` the current time;
      `memory_peak` goes through `absint`; the role is the current user's,
      whatever the payload says, and meta is an empty array. */
  function NormaliseRow(p: Payload, role: string, now: int, sanitize: string -> string): (r: RowInput)
    ensures Complete(r)
    ensures r.userRole == Some(role) && r.meta == Some(EmptyJsonArray)
    ensures r.eventTime == Some(if p.eventTime.Some? then p.eventTime.value else now)
    ensures p.serverTime.None? ==> r.serverTime == Some(0.0)
    ensures p.serverTime.Some? ==> r.serverTime == p.serverTime
    ensures p.ttfb.None? ==> r.ttfb == Some(0.0)
    ensures p.ttfb.Some? ==> r.ttfb == p.ttfb
    ensures p.lcp.None? ==> r.lcp == Some(0.0)
    ensures p.lcp.Some? ==> r.lcp == p.lcp
    ensures p.totalLoad.None? ==> r.totalLoad == Some(0.0)
    ensures p.totalLoad.Some? ==> r.totalLoad == p.totalLoad
    ensures p.memoryPeak.None? ==> r.memoryPeak == Some(0)
    ensures p.memoryPeak.Some? ==> r.memoryPeak == Some(Absint(p.memoryPeak.value))
    ensures p.url.None? ==> r.url == Some("")
    ensures p.url.Some? ==> r.url == Some(sanitize(p.url.value))
    ensures p.device.None? ==> r.device == Some("")
    ensures p.device.Some? ==> r.device == Some(sanitize(p.device.value))
    ensures p.net.None? ==> r.net == Some("")
    ensures p.net.Some? ==> r.net == Some(sanitize(p.net.value))
    ensures p.country.None? ==> r.country == Some("")
    ensures p.country.Some? ==> r.country == Some(sanitize(p.country.value))
    ensures p.sessionId.None? ==> r.sessionId == Some("")
    ensures p.sessionId.Some? ==> r.sessionId == Some(sanitize(p.sessionId.value))
  {
    RowInput(
      Some(p.eventTime.GetOr(now)),
      Some(TextOr(p.url, sanitize)),
      Some(p.serverTime.GetOr(0.0)),
      Some(p.ttfb.GetOr(0.0)),
      Some(p.lcp.GetOr(0.0)),
      Some(p.totalLoad.GetOr(0.0)),
      Some(Absint(p.memoryPeak.GetOr(0))),
      Some(TextOr(p.device, sanitize)),
      Some(TextOr(p.net, sanitize)),
      Some(TextOr(p.country, sanitize)),
      Some(TextOr(p.sessionId, sanitize)),
      Some(role),
      Some(EmptyJsonArray))
  }

  /** The row `insert` stores for a payload: since every key is set, the
      store's own clock and defaults never apply; text is sanitized twice
      (`collect`, then `sanitize_row`); the stored role is the current
      user's and the meta is "[]". */
  lemma StoredRow(p: Payload, user: Option<seq<string>>, now: int, insertNow: int, sanitize: string -> string)
    requires sanitize("") == ""
    ensures var stored := SanitizeRow(NormaliseRow(p, GetUserRole(user, sanitize), now, sanitize), insertNow, sanitize);
      && stored.0.eventTime == p.eventTime.GetOr(now)
      && stored.0.serverTime == p.serverTime.GetOr(0.0)
      && stored.0.ttfb == p.ttfb.GetOr(0.0)
      && stored.0.lcp == p.lcp.GetOr(0.0)
      && stored.0.totalLoad == p.totalLoad.GetOr(0.0)
      && stored.0.memoryPeak == Absint(p.memoryPeak.GetOr(0))
      && (p.url.None? ==> stored.0.url == "")
      && (p.url.Some? ==> stored.0.url == sanitize(sanitize(p.url.value)))
      && (p.device.None? ==> stored.0.device == "")
      && (p.device.Some? ==> stored.0.device == sanitize(sanitize(p.device.value)))
      && (p.net.None? ==> stored.0.net == "")
      && (p.net.Some? ==> stored.0.net == sanitize(sanitize(p.net.value)))
      && (p.country.None? ==> stored.0.country == "")
      && (p.country.Some? ==> stored.0.country == sanitize(sanitize(p.country.value)))
      && (p.sessionId.None? ==> stored.0.sessionId == "")
      && (p.sessionId.Some? ==> stored.0.sessionId == sanitize(sanitize(p.sessionId.value)))
      && stored.0.userRole == sanitize(GetUserRole(user, sanitize))
      && stored.1 == Some(EmptyJsonArray)
  {
  }

  // -----------------------------------------------------------------------
  // collect

  /** The early returns of `collect`, in their order: a bad token (403),
      an ineligible visit (202 'skipped'), an empty body (400), a body that
      is not a JSON array (400). None when the request gets through to the
      store. */
  function Gate(req: Request, s: Settings, visit: Visit, host: Host): (r: Option<Response>)
    requires 0 <= visit.draw <= 1000
    ensures !VerifyCustomNonce(req.header, req.token, host.sanitize, host.verify) ==>
      r == Some(Fault("trm_forbidden", 403))
    ensures VerifyCustomNonce(req.header, req.token, host.sanitize, host.verify)
            && !ShouldTrack(s, visit.user, visit.path, visit.draw) ==>
      r == Some(Reply(202, "skipped", None))
    ensures r.None? <==>
      && VerifyCustomNonce(req.header, req.token, host.sanitize, host.verify)
      && ShouldTrack(s, visit.user, visit.path, visit.draw)
      && !Falsy(req.body) && host.decode(req.body).Some?
    ensures VerifyCustomNonce(req.header, req.token, host.sanitize, host.verify)
            && ShouldTrack(s, visit.user, visit.path, visit.draw) && Falsy(req.body) ==>
      r == Some(Fault("trm_empty", 400))
    ensures VerifyCustomNonce(req.header, req.token, host.sanitize, host.verify)
            && ShouldTrack(s, visit.user, visit.path, visit.draw)
            && !Falsy(req.body) && host.decode(req.body).None? ==>
      r == Some(Fault("trm_json_error", 400))
  {
    if !VerifyCustomNonce(req.header, req.token, host.sanitize, host.verify) then
      Some(Fault("trm_forbidden", 403))
    else if !ShouldTrack(s, visit.user, visit.path, visit.draw) then
      Some(Reply(202, "skipped", None))
    else if Falsy(req.body) then
      Some(Fault("trm_empty", 400))
    else if host.decode(req.body).None? then
      Some(Fault("trm_json_error", 400))
    else
      None
  }

  /** The token is checked first: with a bad token the answer is 403
      whoever visits and whatever the body holds. */
  lemma TokenCheckedFirst(req: Request, body: string, s: Settings, visit: Visit, other: Visit, host: Host)
    requires 0 <= visit.draw <= 1000 && 0 <= other.draw <= 1000
    requires !VerifyCustomNonce(req.header, req.token, host.sanitize, host.verify)
    ensures Gate(req, s, visit, host) == Gate(req.(body := body), s, other, host) == Some(Fault("trm_forbidden", 403))
  {
  }

  /** Eligibility is checked before the body: a visit that is not eligible, with a
      good token is skipped even when the body is empty or broken. */
  lemma EligibilityBeforeBody(req: Request, body: string, s: Settings, visit: Visit, host: Host)
    requires 0 <= visit.draw <= 1000
    requires VerifyCustomNonce(req.header, req.token, host.sanitize, host.verify)
    requires !ShouldTrack(s, visit.user, visit.path, visit.draw)
    ensures Gate(req.(body := body), s, visit, host) == Some(Reply(202, "skipped", None))
  {
  }

  /** The row `collect` builds from a request that got through: every key
      set, the role of whoever is logged in and an empty meta, whatever the
      body says about them. */
  function RowOf(req: Request, visit: Visit, host: Host, now: int): (r: RowInput)
    requires host.decode(req.body).Some?
    ensures Complete(r)
    ensures r.userRole == Some(GetUserRole(visit.user, host.sanitize)) && r.meta == Some(EmptyJsonArray)
  {
    NormaliseRow(host.decode(req.body).value, GetUserRole(visit.user, host.sanitize), now, host.sanitize)
  }

  /** The table after `insert`: the sanitized row appended under the next
      id, or unchanged when the database refused it. */
  function Inserted(rows: seq<Record>, nextId: nat, row: RowInput, now: int,
                    sanitize: string -> string, accepted: bool): (r: seq<Record>)
    ensures accepted ==> |r| == |rows| + 1 && r[..|rows|] == rows && r[|rows|].id == nextId
    ensures !accepted ==> r == rows
  {
    if accepted then rows + [Record(nextId, SanitizeRow(row, now, sanitize).0, SanitizeRow(row, now, sanitize).1)]
    else rows
  }

  /** `collect($request)`: an early return leaves the table alone; a
      request that gets through is inserted, then rows older than the
      retention are purged, then the count cap is enforced, and the answer
      is 201 whether or not the insert succeeded. */
  method Collect(store: Store, req: Request, s: Settings, visit: Visit, host: Host, now: int, accepted: bool)
    returns (resp: Response)
    requires store.Valid() && 0 <= visit.draw <= 1000
    modifies store
    ensures store.Valid()
    ensures Gate(req, s, visit, host).Some? ==>
      && resp == Gate(req, s, visit, host).value
      && store.rows == old(store.rows) && store.nextId == old(store.nextId)
    ensures Gate(req, s, visit, host).None? ==>
      && resp == Reply(201, "ok", None)
      && store.nextId == old(store.nextId) + (if accepted then 1 else 0)
      && Evicted(Purged(Inserted(old(store.rows), old(store.nextId), RowOf(req, visit, host, now), now, host.sanitize, accepted),
                        Absint(s.retentionDays), now),
                 store.rows, Absint(s.limit))
  {
    if !VerifyCustomNonce(req.header, req.token, host.sanitize, host.verify) {
      return Fault("trm_forbidden", 403);
    }
    if !ShouldTrack(s, visit.user, visit.path, visit.draw) {
      return Reply(202, "skipped", None);
    }
    if Falsy(req.body) {
      return Fault("trm_empty", 400);
    }
    var payload := host.decode(req.body);
    if payload.None? {
      return Fault("trm_json_error", 400);
    }
    var row := NormaliseRow(payload.value, GetUserRole(visit.user, host.sanitize), now, host.sanitize);
    var id := store.Insert(row, now, host.sanitize, accepted);
    store.PurgeOlderThan(s.retentionDays, now);
    store.EnforceLimit(s.limit);
    resp := Reply(201, "ok", None);
  }

  // -----------------------------------------------------------------------
  // get_filter_params

  /** The eight parameters `get_filter_params` asks for. */
  datatype FilterKey = Page | PerPage | Order | OrderBy | SessionId | Url | Device | Net

  /** The parameter's name in the request. */
  function Name(k: FilterKey): string {
    match k
    case Page => "page"
    case PerPage => "per_page"
    case Order => "order"
    case OrderBy => "order_by"
    case SessionId => "session_id"
    case Url => "url"
    case Device => "device"
    case Net => "net"
  }

  const FilterKeys: seq<FilterKey> := [Page, PerPage, Order, OrderBy, SessionId, Url, Device, Net]

  /** The filters whose empty string is unset afterwards. */
  predicate DroppedWhenEmpty(k: FilterKey) {
    k == Url || k == Device || k == Net
  }

  /** The listed parameters the request sets (a name that is absent is a
      null parameter). */
  function Selected(params: map<string, string>): map<FilterKey, string> {
    map k | k in FilterKeys && Name(k) in params :: params[Name(k)]
  }

  /** What `get_filter_params` returns: the listed parameters that are set,
      without an empty url, device or net. */
  function KeptParams(params: map<string, string>): map<FilterKey, string> {
    map k | k in FilterKeys && Name(k) in params && !(DroppedWhenEmpty(k) && params[Name(k)] == "") :: params[Name(k)]
  }

  /** `get_filter_params($request)`: the `foreach` over the eight names,
      then the three `unset`s. */
  method GetFilterParams(params: map<string, string>) returns (r: map<FilterKey, string>)
    ensures r == KeptParams(params)
  {
    r := map[];
    for i := 0 to |FilterKeys|
      invariant forall k :: k in r <==> k in FilterKeys[..i] && Name(k) in params
      invariant forall k :: k in r ==> r[k] == params[Name(k)]
    {
      var key := FilterKeys[i];
      var val := if Name(key) in params then Some(params[Name(key)]) else None;
      if val.Some? {
        r := r[key := val.value];
      }
      assert FilterKeys[..i + 1] == FilterKeys[..i] + [key];
    }
    assert FilterKeys[..|FilterKeys|] == FilterKeys;
    ghost var selected := Selected(params);
    forall k ensures (k in r <==> k in selected) && (k in r ==> r[k] == selected[k]) {
      Listed(k);
    }
    assert r.Keys == selected.Keys;
    assert r == selected;
    ghost var s0 := r;
    if Url in r && r[Url] == "" {
      r := r - {Url};
    }
    assert r == Unset(s0, Url);
    ghost var s1 := r;
    if Device in r && r[Device] == "" {
      r := r - {Device};
    }
    assert r == Unset(s1, Device);
    ghost var s2 := r;
    if Net in r && r[Net] == "" {
      r := r - {Net};
    }
    assert r == Unset(s2, Net);
    KeptIsUnset(params);
  }

  /** `if (isset($m[k]) && $m[k] === '') unset($m[k])`. */
  function Unset(m: map<FilterKey, string>, k: FilterKey): map<FilterKey, string> {
    if k in m && m[k] == "" then m - {k} else m
  }

  /** The kept parameters are the selected ones after the three `unset`s. */
  lemma KeptIsUnset(params: map<string, string>)
    ensures KeptParams(params) == Unset(Unset(Unset(Selected(params), Url), Device), Net)
  {
    var kept := KeptParams(params);
    var u := Unset(Unset(Unset(Selected(params), Url), Device), Net);
    forall k ensures (k in kept <==> k in u) && (k in kept ==> kept[k] == u[k]) {
      Listed(k);
    }
    assert kept.Keys == u.Keys;
  }

  /** Every parameter is among the eight. */
  lemma Listed(k: FilterKey)
    ensures k in FilterKeys
  {
    match k
    case Page => assert FilterKeys[0] == k;
    case PerPage => assert FilterKeys[1] == k;
    case Order => assert FilterKeys[2] == k;
    case OrderBy => assert FilterKeys[3] == k;
    case SessionId => assert FilterKeys[4] == k;
    case Url => assert FilterKeys[5] == k;
    case Device => assert FilterKeys[6] == k;
    case Net => assert FilterKeys[7] == k;
  }

  /** Only parameters the request sets are kept, with their values, and
      no kept url, device or net is empty. */
  lemma KeptParamsShape(params: map<string, string>)
    ensures forall k :: k in KeptParams(params) ==>
      Name(k) in params && KeptParams(params)[k] == params[Name(k)]
    ensures forall k :: k in KeptParams(params) && DroppedWhenEmpty(k) ==> KeptParams(params)[k] != ""
  {
  }

  /** An optional parameter. */
  function Param(m: map<FilterKey, string>, k: FilterKey): (r: Option<string>)
    ensures r.Some? <==> k in m
  {
    if k in m then Some(m[k]) else None
  }

  /** The query arguments the kept parameters stand for; page and per_page
      go through `intval`. */
  function ArgsOf(m: map<FilterKey, string>, intval: string -> int): QueryArgs {
    var page := Param(m, Page);
    var perPage := Param(m, PerPage);
    QueryArgs(
      if page.Some? then Some(intval(page.value)) else None,
      if perPage.Some? then Some(intval(perPage.value)) else None,
      Param(m, Order), Param(m, OrderBy), Param(m, SessionId),
      Param(m, Url), Param(m, Device), Param(m, Net))
  }

  /** The listing and the statistics read their arguments only through the
      filters and the paging plan. */
  lemma SameQuery(rows: seq<Record>, a: QueryArgs, b: QueryArgs, sanitize: string -> string)
    requires CriteriaOf(a, sanitize) == CriteriaOf(b, sanitize) && PlanOf(a, sanitize) == PlanOf(b, sanitize)
    ensures QueryLogs(rows, a, sanitize) == QueryLogs(rows, b, sanitize)
    ensures GetStats(rows, a, sanitize) == GetStats(rows, b, sanitize)
  {
  }

  /** What the kept and the selected parameters say about one key: the
      same, except that an empty url, device or net is not kept. */
  lemma KeptKey(params: map<string, string>, k: FilterKey)
    ensures Param(Selected(params), k) == if Name(k) in params then Some(params[Name(k)]) else None
    ensures Param(KeptParams(params), k) ==
      if Name(k) in params && !(DroppedWhenEmpty(k) && params[Name(k)] == "") then Some(params[Name(k)]) else None
  {
    Listed(k);
  }

  /** The query arguments of the kept parameters: the selected ones, with
      an empty url, device or net turned into an absent one. */
  lemma KeptArgs(params: map<string, string>, intval: string -> int)
    ensures var kept := ArgsOf(KeptParams(params), intval);
            var all := ArgsOf(Selected(params), intval);
      && kept.page == all.page && kept.perPage == all.perPage && kept.order == all.order
      && kept.orderBy == all.orderBy && kept.sessionId == all.sessionId
      && kept.url == (if all.url == Some("") then None else all.url)
      && kept.device == (if all.device == Some("") then None else all.device)
      && kept.net == (if all.net == Some("") then None else all.net)
  {
    KeptKey(params, Page);
    KeptKey(params, PerPage);
    KeptKey(params, Order);
    KeptKey(params, OrderBy);
    KeptKey(params, SessionId);
    KeptKey(params, Url);
    KeptKey(params, Device);
    KeptKey(params, Net);
  }

  /** The `unset`s change nothing downstream: `query_logs` and `get_stats`
      already ignore an empty filter, so the listing and the statistics are
      the same with the empty url, device and net left in. */
  lemma EmptyFiltersIgnored(rows: seq<Record>, params: map<string, string>, intval: string -> int,
                            sanitize: string -> string)
    ensures QueryLogs(rows, ArgsOf(KeptParams(params), intval), sanitize) ==
            QueryLogs(rows, ArgsOf(Selected(params), intval), sanitize)
    ensures GetStats(rows, ArgsOf(KeptParams(params), intval), sanitize) ==
            GetStats(rows, ArgsOf(Selected(params), intval), sanitize)
  {
    var kept := ArgsOf(KeptParams(params), intval);
    var all := ArgsOf(Selected(params), intval);
    KeptArgs(params, intval);
    EmptyIsAbsent(kept, all, sanitize);
    SameQuery(rows, kept, all, sanitize);
  }

  /** Arguments that differ only in an empty url, device or net being
      absent give the same filters and the same paging plan. */
  lemma EmptyIsAbsent(kept: QueryArgs, all: QueryArgs, sanitize: string -> string)
    requires && kept.page == all.page && kept.perPage == all.perPage && kept.order == all.order
             && kept.orderBy == all.orderBy && kept.sessionId == all.sessionId
             && kept.url == (if all.url == Some("") then None else all.url)
             && kept.device == (if all.device == Some("") then None else all.device)
             && kept.net == (if all.net == Some("") then None else all.net)
    ensures CriteriaOf(kept, sanitize) == CriteriaOf(all, sanitize)
    ensures PlanOf(kept, sanitize) == PlanOf(all, sanitize)
  {
    assert Falsy("");
  }

  /** The defaults the `/logs` route registers: a parameter the request
      sets keeps its value, and the four paging and sorting parameters are
      always there. */
  function WithLogDefaults(params: map<string, string>): (r: map<string, string>)
    ensures forall k :: k in params ==> k in r && r[k] == params[k]
    ensures "page" in r && "per_page" in r && "order" in r && "order_by" in r
    ensures "page" !in params ==> r["page"] == "1"
    ensures "per_page" !in params ==> r["per_page"] == "50"
    ensures "order" !in params ==> r["order"] == "desc"
    ensures "order_by" !in params ==> r["order_by"] == "event_time"
    ensures forall k :: k in r ==> k in params || k in {"page", "per_page", "order", "order_by"}
  {
    map["page" := "1", "per_page" := "50", "order" := "desc", "order_by" := "event_time"] + params
  }

  /** The default the `/logs` route registers for a parameter. */
  function DefaultOf(k: FilterKey): Option<string> {
    match k
    case Page => Some("1")
    case PerPage => Some("50")
    case Order => Some("desc")
    case OrderBy => Some("event_time")
    case _ => None
  }

  /** With the defaults merged in, a parameter the request sets is kept as
      before, and one it does not set takes the route's default. */
  lemma MergedParam(params: map<string, string>, k: FilterKey)
    ensures Param(KeptParams(WithLogDefaults(params)), k) ==
      if Param(KeptParams(params), k).Some? then Param(KeptParams(params), k) else DefaultOf(k)
  {
    var dm := WithLogDefaults(params);
    KeptKey(dm, k);
    KeptKey(params, k);
    DefaultLookup(params, k);
  }

  /** A parameter of the merged map: the request's value, else the route's
      default; only parameters that are never dropped have one. */
  lemma DefaultLookup(params: map<string, string>, k: FilterKey)
    ensures Name(k) in WithLogDefaults(params) <==> Name(k) in params || DefaultOf(k).Some?
    ensures Name(k) in params ==> WithLogDefaults(params)[Name(k)] == params[Name(k)]
    ensures Name(k) !in params && DefaultOf(k).Some? ==> WithLogDefaults(params)[Name(k)] == DefaultOf(k).value
    ensures DefaultOf(k).Some? ==> !DroppedWhenEmpty(k)
  {
    var dm := WithLogDefaults(params);
    if Name(k) !in params {
      match k
      case Page => assert dm["page"] == "1";
      case PerPage => assert dm["per_page"] == "50";
      case Order => assert dm["order"] == "desc";
      case OrderBy => assert dm["order_by"] == "event_time";
      case SessionId => assert "session_id" !in dm;
      case Url => assert "url" !in dm;
      case Device => assert "device" !in dm;
      case Net => assert "net" !in dm;
    }
  }

  /** The query arguments of parameters with defaults filled in. */
  lemma FilledArgs(dk: map<FilterKey, string>, pk: map<FilterKey, string>, intval: string -> int)
    requires forall k :: Param(dk, k) == if Param(pk, k).Some? then Param(pk, k) else DefaultOf(k)
    ensures var d := ArgsOf(dk, intval);
            var p := ArgsOf(pk, intval);
      && d.page == (if p.page.Some? then p.page else Some(intval("1")))
      && d.perPage == (if p.perPage.Some? then p.perPage else Some(intval("50")))
      && d.order == (if p.order.Some? then p.order else Some("desc"))
      && d.orderBy == (if p.orderBy.Some? then p.orderBy else Some("event_time"))
      && d.sessionId == p.sessionId && d.url == p.url && d.device == p.device && d.net == p.net
  {
    assert Param(dk, Page) == if Param(pk, Page).Some? then Param(pk, Page) else Some("1");
    assert Param(dk, PerPage) == if Param(pk, PerPage).Some? then Param(pk, PerPage) else Some("50");
    assert Param(dk, SessionId) == Param(pk, SessionId);
    assert Param(dk, Url) == Param(pk, Url);
    assert Param(dk, Device) == Param(pk, Device);
    assert Param(dk, Net) == Param(pk, Net);
  }

  /** The paging and sorting arguments with the route's defaults filled in. */
  lemma DefaultArgs(params: map<string, string>, intval: string -> int)
    ensures var d := ArgsOf(KeptParams(WithLogDefaults(params)), intval);
            var p := ArgsOf(KeptParams(params), intval);
      && d.page == (if p.page.Some? then p.page else Some(intval("1")))
      && d.perPage == (if p.perPage.Some? then p.perPage else Some(intval("50")))
      && d.order == (if p.order.Some? then p.order else Some("desc"))
      && d.orderBy == (if p.orderBy.Some? then p.orderBy else Some("event_time"))
      && d.sessionId == p.sessionId && d.url == p.url && d.device == p.device && d.net == p.net
  {
    var dk := KeptParams(WithLogDefaults(params));
    var pk := KeptParams(params);
    forall k ensures Param(dk, k) == if Param(pk, k).Some? then Param(pk, k) else DefaultOf(k) {
      MergedParam(params, k);
    }
    FilledArgs(dk, pk, intval);
  }

  /** Page 1, 50 per page, 'desc' and event_time are what `query_logs`
      assumes for missing arguments anyway. */
  lemma DefaultsSamePlan(d: QueryArgs, p: QueryArgs, sanitize: string -> string)
    requires sanitize("event_time") == "event_time"
    requires d.page == (if p.page.Some? then p.page else Some(1))
    requires d.perPage == (if p.perPage.Some? then p.perPage else Some(50))
    requires d.order == (if p.order.Some? then p.order else Some("desc"))
    requires d.orderBy == (if p.orderBy.Some? then p.orderBy else Some("event_time"))
    requires d.sessionId == p.sessionId && d.url == p.url && d.device == p.device && d.net == p.net
    ensures CriteriaOf(d, sanitize) == CriteriaOf(p, sanitize)
    ensures PlanOf(d, sanitize) == PlanOf(p, sanitize)
  {
    assert Lower("desc") != "asc" by {
      assert Lower("desc")[0] == 'd';
    }
    assert PageOf(d.page) == PageOf(p.page);
    assert PerPageOf(d.perPage) == PerPageOf(p.perPage);
    assert OrderByOf(d.orderBy, sanitize) == OrderByOf(p.orderBy, sanitize);
  }

  /** The route's defaults agree with those `query_logs` applies itself:
      a listing without paging or sorting parameters is the same either
      way. */
  lemma LogDefaultsAgree(rows: seq<Record>, params: map<string, string>, intval: string -> int,
                         sanitize: string -> string)
    requires intval("1") == 1 && intval("50") == 50 && sanitize("event_time") == "event_time"
    ensures QueryLogs(rows, ArgsOf(KeptParams(WithLogDefaults(params)), intval), sanitize) ==
            QueryLogs(rows, ArgsOf(KeptParams(params), intval), sanitize)
  {
    var d := ArgsOf(KeptParams(WithLogDefaults(params)), intval);
    var p := ArgsOf(KeptParams(params), intval);
    DefaultArgs(params, intval);
    DefaultsSamePlan(d, p, sanitize);
    SameQuery(rows, d, p, sanitize);
  }

  // -----------------------------------------------------------------------
  // send_report

  const ReportFailedMessage: string := "Check mail settings or recipient"

  /** The endpoint's answer: 200 'sent' exactly when the report went out,
      otherwise 500 'failed' with a hint. */
  function SendReportResponse(sent: bool): (r: Response)
    ensures r.Reply?
    ensures r.status == 200 <==> sent
    ensures r.status == 200 ==> r.state == "sent" && r.message.None?
    ensures r.status != 200 ==> r == Reply(500, "failed", Some(ReportFailedMessage))
  {
    if sent then Reply(200, "sent", None) else Reply(500, "failed", Some(ReportFailedMessage))
  }

  /** `send_report($request)`: runs the report and answers with its
      outcome; a missing or invalid recipient is a 500 without any mail. */
  method SendReportEndpoint(reporter: Reporter, s: Settings, rows: seq<Record>, isEmail: string -> bool, delivered: bool)
    returns (resp: Response)
    modifies reporter
    ensures resp == SendReportResponse(ReportMails(s, rows, isEmail) != [] && delivered)
    ensures reporter.outbox == old(reporter.outbox) + ReportMails(s, rows, isEmail)
    ensures reporter.lastAlertTs == old(reporter.lastAlertTs) && reporter.lastInterval == old(reporter.lastInterval)
    ensures reporter.next == old(reporter.next)
  {
    var sent := reporter.SendReport(s, rows, isEmail, delivered);
    resp := SendReportResponse(sent);
  }
}
