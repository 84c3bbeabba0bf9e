/** The browser collector (`assets/js/trm-collector.js`): when it starts at
    all, the session id it keeps in `sessionStorage`, the LCP value the
    observer keeps overwriting, the navigation timings, the device and
    connection labels, the stale server-time test and the choice of
    transport for the payload. The browser is an input: what the page's
    APIs report is passed in as values. */
module Collector {
  import opened Php
  import opened Gateway

  // -----------------------------------------------------------------------
  // configuration and start-up

  /** `TRMCollectorSettings.server`: the server render time, the peak
      memory and the country the page was generated with. */
  datatype ServerInfo = ServerInfo(time: Option<real>, memoryPeak: Option<int>, country: Option<string>)

  /** `window.TRMCollectorSettings`; None is a property that is not set. */
  datatype CollectorSettings = CollectorSettings(
    restUrl: Option<string>,
    nonce: Option<string>,
    sessionKey: Option<string>,
    timestamp: Option<int>,
    server: Option<ServerInfo>)

  /** A JavaScript string value that is truthy: set and not "". */
  predicate Truthy(v: Option<string>) {
    v.Some? && v.value != ""
  }

  /** The script goes on past its first lines only when `sendBeacon` is a
      function and both the endpoint and the nonce are set: a page without
      a beacon stops there even where `fetch` would have worked. */
  function Starts(hasBeacon: bool, cfg: CollectorSettings): (r: bool)
    ensures r <==> hasBeacon && cfg.restUrl.Some? && cfg.restUrl.value != "" && cfg.nonce.Some? && cfg.nonce.value != ""
  {
    hasBeacon && Truthy(cfg.restUrl) && Truthy(cfg.nonce)
  }

  /** `cfg.sessionKey || 'trm_session_id'`. */
  function SessionKey(cfg: CollectorSettings): (r: string)
    ensures Truthy(cfg.sessionKey) ==> r == cfg.sessionKey.value
    ensures !Truthy(cfg.sessionKey) ==> r == "trm_session_id"
  {
    if Truthy(cfg.sessionKey) then cfg.sessionKey.value else "trm_session_id"
  }

  // -----------------------------------------------------------------------
  // ensureSession

  /** The session id `ensureSession` returns and the storage it leaves:
      a stored truthy id is kept; otherwise the generated id is stored and
      returned; when the storage throws, the generated id is returned and
      nothing is stored. */
  function SessionOf(items: map<string, string>, available: bool, key: string, generated: string): (r: (string, map<string, string>))
    ensures !available ==> r == (generated, items)
    ensures available && key in items && items[key] != "" ==> r == (items[key], items)
    ensures available && !(key in items && items[key] != "") ==> r == (generated, items[key := generated])
  {
    if !available then (generated, items)
    else if key in items && items[key] != "" then (items[key], items)
    else (generated, items[key := generated])
  }

  /** Once the storage works and holds an id, every later page view of the
      session reports that same id, whatever id it would have made. */
  lemma SessionStable(items: map<string, string>, key: string, generated: string, later: string)
    requires generated != ""
    ensures var (id, after) := SessionOf(items, true, key, generated);
      SessionOf(after, true, key, later) == (id, after)
  {
  }

  /** `sessionStorage`: its items, and whether using it throws (storage
      disabled or full). */
  class SessionStorage {
    var items: map<string, string>
    const available: bool

    constructor (items: map<string, string>, available: bool)
      ensures this.items == items && this.available == available
    {
      this.items := items;
      this.available := available;
    }

    /** `ensureSession()` with `generated` the id `generateId()` makes. */
    method EnsureSession(key: string, generated: string) returns (id: string)
      modifies this
      ensures (id, items) == SessionOf(old(items), available, key, generated)
    {
      if !available {
        return generated;
      }
      if !(key in items && items[key] != "") {
        items := items[key := generated];
      }
      id := items[key];
    }
  }

  /** The script's first lines on a page: it returns before touching the
      session storage unless it `Starts`; otherwise `ensureSession` runs
      and its id is the one every payload of the page carries. None is the
      early return, after which no observer and no listener exist. */
  method Start(hasBeacon: bool, cfg: CollectorSettings, storage: SessionStorage, generated: string)
    returns (sessionId: Option<string>)
    modifies storage
    ensures !Starts(hasBeacon, cfg) ==> sessionId.None? && storage.items == old(storage.items)
    ensures Starts(hasBeacon, cfg) ==>
      sessionId.Some? && (sessionId.value, storage.items) == SessionOf(old(storage.items), storage.available, SessionKey(cfg), generated)
  {
    if !hasBeacon {
      return None;
    }
    if !Truthy(cfg.restUrl) || !Truthy(cfg.nonce) {
      return None;
    }
    var id := storage.EnsureSession(SessionKey(cfg), generated);
    sessionId := Some(id);
  }

  // -----------------------------------------------------------------------
  // the LCP observer

  /** A `largest-contentful-paint` entry, times in milliseconds. */
  datatype LcpEntry = LcpEntry(renderTime: real, loadTime: real, startTime: real)

  /** `(renderTime || loadTime || startTime) / 1000`: the first non-zero of
      the three, in seconds. */
  function EntrySeconds(e: LcpEntry): (r: real)
    ensures e.renderTime != 0.0 ==> r == e.renderTime / 1000.0
    ensures e.renderTime == 0.0 && e.loadTime != 0.0 ==> r == e.loadTime / 1000.0
    ensures e.renderTime == 0.0 && e.loadTime == 0.0 ==> r == e.startTime / 1000.0
  {
    (if e.renderTime != 0.0 then e.renderTime else if e.loadTime != 0.0 then e.loadTime else e.startTime) / 1000.0
  }

  /** `lcpTime` after the observer has been called with each batch in turn. */
  function LcpAfter(start: Option<real>, batches: seq<seq<LcpEntry>>): Option<real>
    decreases |batches|
  {
    if batches == [] then start
    else
      var last := batches[|batches| - 1];
      var before := LcpAfter(start, batches[..|batches| - 1]);
      if last == [] then before else Some(EntrySeconds(last[|last| - 1]))
  }

  /** All entries of the batches, in the order they were reported. */
  function Flatten(batches: seq<seq<LcpEntry>>): seq<LcpEntry>
    decreases |batches|
  {
    if batches == [] then [] else Flatten(batches[..|batches| - 1]) + batches[|batches| - 1]
  }

  /** The last entry wins: after any number of batches `lcpTime` is the
      value of the very last entry reported, or unset if none was. */
  lemma {:induction false} LastEntryWins(batches: seq<seq<LcpEntry>>)
    ensures var all := Flatten(batches);
      LcpAfter(None, batches) == if all == [] then None else Some(EntrySeconds(all[|all| - 1]))
    decreases |batches|
  {
    if batches != [] {
      LastEntryWins(batches[..|batches| - 1]);
    }
  }

  /** `Number(lcpTime || 0)`: 0 when no entry was ever reported. */
  function PayloadLcp(lcpTime: Option<real>): (r: real)
    ensures lcpTime.None? ==> r == 0.0
    ensures lcpTime.Some? ==> r == lcpTime.value
  {
    if lcpTime.Some? && lcpTime.value != 0.0 then lcpTime.value else 0.0
  }

  /** The `PerformanceObserver` callback and the variable it writes. */
  class LcpObserver {
    var lcpTime: Option<real>

    /** `let lcpTime = null`. */
    constructor ()
      ensures lcpTime.None?
    {
      lcpTime := None;
    }

    /** The callback on one batch of entries: the last entry of a
        non-empty batch overwrites `lcpTime`. */
    method OnEntries(entries: seq<LcpEntry>)
      modifies this
      ensures lcpTime == LcpAfter(old(lcpTime), [entries])
    {
      if |entries| > 0 {
        var last := entries[|entries| - 1];
        lcpTime := Some(EntrySeconds(last));
      }
      assert [entries][..0] == [];
    }
  }

  // -----------------------------------------------------------------------
  // timings, device, connection

  /** The timestamps of a navigation entry, or of the legacy
      `performance.timing`, in milliseconds. */
  datatype NavTiming = NavTiming(requestStart: real, responseStart: real, responseEnd: real, loadEventEnd: real)

  datatype Timings = Timings(ttfb: real, load: real)

  /** `getNavigationTimings()`: time to first byte and full load in
      seconds, both from the request start, taken from the navigation
      entry when there is one and from the legacy timing otherwise. */
  function GetNavigationTimings(nav: Option<NavTiming>, legacy: NavTiming): (r: Timings)
    ensures var t := if nav.Some? then nav.value else legacy;
      r.ttfb == (t.responseStart - t.requestStart) / 1000.0 && r.load == (t.loadEventEnd - t.requestStart) / 1000.0
  {
    var t := if nav.Some? then nav.value else legacy;
    Timings((t.responseStart - t.requestStart) / 1000.0, (t.loadEventEnd - t.requestStart) / 1000.0)
  }

  /** A page that finishes loading after its first byte has a load time
      no smaller than its time to first byte. */
  lemma TtfbWithinLoad(nav: Option<NavTiming>, legacy: NavTiming)
    requires var t := if nav.Some? then nav.value else legacy; t.responseStart <= t.loadEventEnd
    ensures GetNavigationTimings(nav, legacy).ttfb <= GetNavigationTimings(nav, legacy).load
  {
  }

  /** `/Mobi|Android/i.test(userAgent)`: the pattern is ASCII, so the test
      is a substring test on the ASCII lower-cased agent. */
  predicate MobileAgent(ua: string) {
    Contains(Lower(ua), "mobi") || Contains(Lower(ua), "android")
  }

  /** `deviceType()`: 'mob' for a mobile agent, 'desk' otherwise. */
  function DeviceType(ua: string): (r: string)
    ensures r == "mob" <==> MobileAgent(ua)
    ensures r == "mob" || r == "desk"
  {
    if MobileAgent(ua) then "mob" else "desk"
  }

  /** The Network Information API object. */
  datatype Connection = Connection(effectiveType: Option<string>, saveData: bool)

  /** `navigator.connection`, and the prefixed `mozConnection` /
      `webkitConnection` it falls back to. */
  datatype Navigator = Navigator(connection: Option<Connection>, prefixed: Option<Connection>, userAgent: string)

  /** `connectionType()`: the effective type of the first connection object
      there is, or ''. */
  function ConnectionType(n: Navigator): (r: string)
    ensures n.connection.Some? && n.connection.value.effectiveType.Some? ==> r == n.connection.value.effectiveType.value
    ensures n.connection.Some? && n.connection.value.effectiveType.None? ==> r == ""
    ensures n.connection.None? && n.prefixed.Some? && n.prefixed.value.effectiveType.Some? ==>
      r == n.prefixed.value.effectiveType.value
    ensures n.connection.None? && n.prefixed.Some? && n.prefixed.value.effectiveType.None? ==> r == ""
    ensures (n.connection.None? && n.prefixed.None?) ==> r == ""
  {
    var conn := if n.connection.Some? then n.connection else n.prefixed;
    if conn.Some? && Truthy(conn.value.effectiveType) then conn.value.effectiveType.value else ""
  }

  /** Once `navigator.connection` exists it alone decides: the prefixed
      objects are not consulted, even when it has no effective type. */
  lemma ConnectionNoFallback(n: Navigator, other: Option<Connection>)
    requires n.connection.Some?
    ensures ConnectionType(n) == ConnectionType(n.(prefixed := other))
  {
  }

  /** Data saver is read from `navigator.connection` only, never from the
      prefixed objects. */
  function SaveData(n: Navigator): (r: bool)
    ensures r <==> n.connection.Some? && n.connection.value.saveData
  {
    n.connection.Some? && n.connection.value.saveData
  }

  // -----------------------------------------------------------------------
  // the stale server time

  /** `Number(cfg.server && cfg.server.time ? cfg.server.time : 0)`: the
      render time PHP reported, or 0. */
  function ReportedServerTime(cfg: CollectorSettings): (r: real)
    ensures cfg.server.Some? && cfg.server.value.time.Some? ==> r == cfg.server.value.time.value
    ensures !(cfg.server.Some? && cfg.server.value.time.Some?) ==> r == 0.0
  {
    if cfg.server.Some? && cfg.server.value.time.Some? then cfg.server.value.time.value else 0.0
  }

  /** A reported render time longer than the whole document fetch (plus
      50 ms) belongs to a cached copy of the page. */
  function Stale(serverTime: real, perf: NavTiming): (r: bool)
    ensures r <==> serverTime - 0.05 > (perf.responseEnd - perf.requestStart) / 1000.0
    ensures serverTime <= (perf.responseEnd - perf.requestStart) / 1000.0 ==> !r
  {
    serverTime > (perf.responseEnd - perf.requestStart) / 1000.0 + 0.05
  }

  /** The render time sent: zeroed when a navigation entry shows it to be
      stale, the reported one otherwise. */
  function SentServerTime(serverTime: real, perf: Option<NavTiming>): (r: real)
    ensures perf.Some? && Stale(serverTime, perf.value) ==> r == 0.0
    ensures perf.Some? && !Stale(serverTime, perf.value) ==> r == serverTime
    ensures perf.None? ==> r == serverTime
  {
    if perf.Some? && Stale(serverTime, perf.value) then 0.0 else serverTime
  }

  /** A render time that fits in the document fetch is never zeroed, and a
      non-negative one never grows. */
  lemma SentServerTimeBounds(serverTime: real, perf: Option<NavTiming>)
    requires serverTime >= 0.0
    ensures 0.0 <= SentServerTime(serverTime, perf) <= serverTime
    ensures perf.Some? && serverTime <= (perf.value.responseEnd - perf.value.requestStart) / 1000.0 ==>
      SentServerTime(serverTime, perf) == serverTime
  {
  }

  // -----------------------------------------------------------------------
  // sendPayload

  /** What the page's APIs report when the payload is built. */
  datatype Browser = Browser(
    hasFetch: bool,
    hasBeacon: bool,
    navigator: Navigator,
    nav: Option<NavTiming>,
    legacy: NavTiming,
    href: string)

  /** `fetch(restUrl)` with the nonce in the `X-TRM-Nonce` header, or
      `sendBeacon` to the endpoint with the nonce as `trm_token`. */
  datatype Transmission =
    | Fetch(url: string, nonceHeader: string, payload: Payload)
    | Beacon(url: string, token: string, payload: Payload)

  /** The payload object, as `collect` decodes it: every key is set except
      `event_time` when the page carries no timestamp. */
  function PayloadOf(cfg: CollectorSettings, b: Browser, sessionId: string, lcpTime: Option<real>, serverTime: real)
    : (p: Payload)
    ensures p.eventTime == cfg.timestamp
    ensures p.url == Some(b.href) && p.serverTime == Some(serverTime)
    ensures p.ttfb == Some(GetNavigationTimings(b.nav, b.legacy).ttfb)
    ensures p.totalLoad == Some(GetNavigationTimings(b.nav, b.legacy).load)
    ensures p.lcp == Some(PayloadLcp(lcpTime)) && p.sessionId == Some(sessionId)
    ensures cfg.server.Some? && cfg.server.value.memoryPeak.Some? ==> p.memoryPeak == cfg.server.value.memoryPeak
    ensures !(cfg.server.Some? && cfg.server.value.memoryPeak.Some?) ==> p.memoryPeak == Some(0)
    ensures p.device == Some(DeviceType(b.navigator.userAgent)) && p.net == Some(ConnectionType(b.navigator))
    ensures cfg.server.Some? && Truthy(cfg.server.value.country) ==> p.country == cfg.server.value.country
    ensures !(cfg.server.Some? && Truthy(cfg.server.value.country)) ==> p.country == Some("")
  {
    var timings := GetNavigationTimings(b.nav, b.legacy);
    var server := if cfg.server.Some? then cfg.server.value else ServerInfo(None, None, None);
    Payload(
      cfg.timestamp,
      Some(b.href),
      Some(serverTime),
      Some(timings.ttfb),
      Some(PayloadLcp(lcpTime)),
      Some(timings.load),
      Some(server.memoryPeak.GetOr(0)),
      Some(DeviceType(b.navigator.userAgent)),
      Some(ConnectionType(b.navigator)),
      Some(if Truthy(server.country) then server.country.value else ""),
      Some(sessionId))
  }

  /** `sendPayload()`: nothing under data saver; otherwise the payload
      with the stale render time zeroed goes out by exactly one transport,
      fetch when there is one, else the beacon. */
  method SendPayload(cfg: CollectorSettings, b: Browser, sessionId: string, lcpTime: Option<real>)
    returns (out: Option<Transmission>)
    requires Starts(b.hasBeacon, cfg)
    ensures SaveData(b.navigator) ==> out.None?
    ensures !SaveData(b.navigator) ==> out.Some?
    ensures out.Some? ==>
      out.value.payload == PayloadOf(cfg, b, sessionId, lcpTime, SentServerTime(ReportedServerTime(cfg), b.nav))
    ensures out.Some? && b.hasFetch ==> out.value == Fetch(cfg.restUrl.value, cfg.nonce.value, out.value.payload)
    ensures out.Some? && !b.hasFetch ==> out.value == Beacon(cfg.restUrl.value, cfg.nonce.value, out.value.payload)
  {
    if SaveData(b.navigator) {
      return None;
    }
    var serverTime := ReportedServerTime(cfg);
    var perf := b.nav;
    if perf.Some? {
      var docDuration := (perf.value.responseEnd - perf.value.requestStart) / 1000.0;
      if serverTime > docDuration + 0.05 {
        serverTime := 0.0;
      }
    }
    var payload := PayloadOf(cfg, b, sessionId, lcpTime, serverTime);
    if b.hasFetch {
      out := Some(Fetch(cfg.restUrl.value, cfg.nonce.value, payload));
    } else if b.hasBeacon {
      out := Some(Beacon(cfg.restUrl.value, cfg.nonce.value, payload));
    } else {
      out := None;
    }
  }

  /** The `visibilitychange` listener: a payload goes out only when the
      page becomes hidden. */
  method OnVisibilityChange(state: string, cfg: CollectorSettings, b: Browser, sessionId: string, lcpTime: Option<real>)
    returns (out: Option<Transmission>)
    requires Starts(b.hasBeacon, cfg)
    ensures state != "hidden" ==> out.None?
    ensures state == "hidden" ==> (out.Some? <==> !SaveData(b.navigator))
  {
    out := None;
    if state == "hidden" {
      out := SendPayload(cfg, b, sessionId, lcpTime);
    }
  }

  // -----------------------------------------------------------------------
  // what the server receives

  /** The request a transmission makes: fetch sends the header, the beacon
      the query parameter. */
  function RequestOf(t: Transmission, body: string): (r: Request)
    ensures t.Fetch? ==> r.header == Some(t.nonceHeader) && r.token.None?
    ensures t.Beacon? ==> r.header.None? && r.token == Some(t.token)
  {
    match t
    case Fetch(_, nonce, _) => Request(Some(nonce), None, body)
    case Beacon(_, token, _) => Request(None, Some(token), body)
  }

  /** Whichever transport the collector picks, the server checks the page's
      own nonce. */
  lemma TransportCarriesNonce(cfg: CollectorSettings, b: Browser, t: Transmission, body: string,
                              sanitize: string -> string, verify: string -> bool)
    requires Starts(b.hasBeacon, cfg)
    requires t == Fetch(cfg.restUrl.value, cfg.nonce.value, t.payload) ||
             t == Beacon(cfg.restUrl.value, cfg.nonce.value, t.payload)
    ensures var req := RequestOf(t, body);
      VerifyCustomNonce(req.header, req.token, sanitize, verify) <==>
        !Falsy(sanitize(cfg.nonce.value)) && verify(sanitize(cfg.nonce.value))
  {
  }

  /** Every measure the collector sends is stored as sent: the server's
      defaults only ever fill in a missing `event_time`, the peak memory goes
      through `absint`, and each label is sanitized twice. */
  lemma SentMeasuresStored(cfg: CollectorSettings, b: Browser, sessionId: string, lcpTime: Option<real>,
                           serverTime: real, user: Option<seq<string>>, now: int, sanitize: string -> string)
    requires sanitize("") == ""
    ensures var p := PayloadOf(cfg, b, sessionId, lcpTime, serverTime);
            var stored := LogStore.SanitizeRow(NormaliseRow(p, GetUserRole(user, sanitize), now, sanitize), now, sanitize).0;
      && stored.ttfb == GetNavigationTimings(b.nav, b.legacy).ttfb
      && stored.totalLoad == GetNavigationTimings(b.nav, b.legacy).load
      && stored.lcp == PayloadLcp(lcpTime)
      && stored.serverTime == serverTime
      && stored.eventTime == (if cfg.timestamp.Some? then cfg.timestamp.value else now)
      && stored.memoryPeak == Absint(p.memoryPeak.value)
      && stored.url == sanitize(sanitize(b.href))
      && stored.device == sanitize(sanitize(DeviceType(b.navigator.userAgent)))
      && stored.net == sanitize(sanitize(ConnectionType(b.navigator)))
      && stored.country == sanitize(sanitize(p.country.value))
      && stored.sessionId == sanitize(sanitize(sessionId))
  {
    var p := PayloadOf(cfg, b, sessionId, lcpTime, serverTime);
    StoredRow(p, user, now, now, sanitize);
  }
}
