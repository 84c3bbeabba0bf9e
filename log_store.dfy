/** The log table of the plugin (`TRM_DB`): one record per page view, an
    auto-increment id, insertion with defaulting, the FIFO count cap, the
    age purge and the filtered, sorted, paginated listing. The table is a
    list of records in storage (id) order; every SQL statement is given its
    meaning as an operation on that list. */
module LogStore {
  import opened Php
  import opened Lists

  const DaySeconds: int := 86400

  /** The measured columns of a row. `eventTime` is the `Y-m-d H:i:s`
      timestamp as seconds; those strings have a fixed width, so their
      order is the order of the seconds. */
  datatype Fields = Fields(
    eventTime: int,
    url: string,
    serverTime: real,
    ttfb: real,
    lcp: real,
    totalLoad: real,
    memoryPeak: nat,
    device: string,
    net: string,
    country: string,
    sessionId: string,
    userRole: string)

  /** A stored row. `meta` holds the JSON text of the attachment, or None
      for SQL NULL. */
  datatype Record = Record(id: nat, fields: Fields, meta: Option<string>)

  /** A row of the log listing, which selects every column except meta. */
  datatype Entry = Entry(id: nat, fields: Fields)

  function EntryOf(r: Record): Entry {
    Entry(r.id, r.fields)
  }

  /** The associative array handed to `insert`: None is a key that is not
      set. `meta` is carried as the JSON text `wp_json_encode` makes of it. */
  datatype RowInput = RowInput(
    eventTime: Option<int>,
    url: Option<string>,
    serverTime: Option<real>,
    ttfb: Option<real>,
    lcp: Option<real>,
    totalLoad: Option<real>,
    memoryPeak: Option<int>,
    device: Option<string>,
    net: Option<string>,
    country: Option<string>,
    sessionId: Option<string>,
    userRole: Option<string>,
    meta: Option<string>)

  function Text(v: Option<string>, sanitize: string -> string): string {
    match v
    case Some(s) => sanitize(s)
    case None => ""
  }

  /** `sanitize_row`: every string key that is set is passed through
      `sanitize_text_field`, every missing one becomes ""; missing numbers
      become 0, `memory_peak` goes through `absint`; a missing `event_time`
      becomes the current time; meta stays NULL unless it is set. */
  function SanitizeRow(row: RowInput, now: int, sanitize: string -> string): (r: (Fields, Option<string>))
    ensures r.0.eventTime == if row.eventTime.Some? then row.eventTime.value else now
    ensures row.serverTime.None? ==> r.0.serverTime == 0.0
    ensures row.serverTime.Some? ==> r.0.serverTime == row.serverTime.value
    ensures row.ttfb.None? ==> r.0.ttfb == 0.0
    ensures row.ttfb.Some? ==> r.0.ttfb == row.ttfb.value
    ensures row.lcp.None? ==> r.0.lcp == 0.0
    ensures row.lcp.Some? ==> r.0.lcp == row.lcp.value
    ensures row.totalLoad.None? ==> r.0.totalLoad == 0.0
    ensures row.totalLoad.Some? ==> r.0.totalLoad == row.totalLoad.value
    ensures row.memoryPeak.None? ==> r.0.memoryPeak == 0
    ensures row.memoryPeak.Some? ==> r.0.memoryPeak == row.memoryPeak.value || r.0.memoryPeak == -row.memoryPeak.value
    ensures row.url.None? ==> r.0.url == ""
    ensures row.url.Some? ==> r.0.url == sanitize(row.url.value)
    ensures row.device.None? ==> r.0.device == ""
    ensures row.device.Some? ==> r.0.device == sanitize(row.device.value)
    ensures row.net.None? ==> r.0.net == ""
    ensures row.net.Some? ==> r.0.net == sanitize(row.net.value)
    ensures row.country.None? ==> r.0.country == ""
    ensures row.country.Some? ==> r.0.country == sanitize(row.country.value)
    ensures row.sessionId.None? ==> r.0.sessionId == ""
    ensures row.sessionId.Some? ==> r.0.sessionId == sanitize(row.sessionId.value)
    ensures row.userRole.None? ==> r.0.userRole == ""
    ensures row.userRole.Some? ==> r.0.userRole == sanitize(row.userRole.value)
    ensures r.1 == row.meta
  {
    (Fields(
       row.eventTime.GetOr(now),
       Text(row.url, sanitize),
       row.serverTime.GetOr(0.0),
       row.ttfb.GetOr(0.0),
       row.lcp.GetOr(0.0),
       row.totalLoad.GetOr(0.0),
       Absint(row.memoryPeak.GetOr(0)),
       Text(row.device, sanitize),
       Text(row.net, sanitize),
       Text(row.country, sanitize),
       Text(row.sessionId, sanitize),
       Text(row.userRole, sanitize)),
     row.meta)
  }

  /** The input that sets every key of `f` to its value. */
  function InputOf(f: Fields, meta: Option<string>): RowInput {
    RowInput(Some(f.eventTime), Some(f.url), Some(f.serverTime), Some(f.ttfb), Some(f.lcp),
             Some(f.totalLoad), Some(f.memoryPeak), Some(f.device), Some(f.net), Some(f.country),
             Some(f.sessionId), Some(f.userRole), meta)
  }

  predicate Clean(f: Fields, sanitize: string -> string) {
    && sanitize(f.url) == f.url && sanitize(f.device) == f.device && sanitize(f.net) == f.net
    && sanitize(f.country) == f.country && sanitize(f.sessionId) == f.sessionId
    && sanitize(f.userRole) == f.userRole
  }

  /** Round trip: a row whose strings are already sanitized is stored with
      exactly the values it was given, whatever the clock says. */
  lemma SanitizeKeepsCleanRow(f: Fields, meta: Option<string>, now: int, sanitize: string -> string)
    requires Clean(f, sanitize)
    ensures SanitizeRow(InputOf(f, meta), now, sanitize) == (f, meta)
  {
  }

  // -----------------------------------------------------------------------
  // ids

  ghost predicate IdsIncreasing(rows: seq<Record>) {
    forall i, j :: 0 <= i < j < |rows| ==> rows[i].id < rows[j].id
  }

  ghost predicate IdsBelow(rows: seq<Record>, next: nat) {
    forall i :: 0 <= i < |rows| ==> rows[i].id < next
  }

  ghost function IdSet(rows: seq<Record>): (r: set<nat>)
    ensures forall i :: 0 <= i < |rows| ==> rows[i].id in r
  {
    if rows == [] then {} else {rows[0].id} + IdSet(rows[1..])
  }

  /** Every id in the set belongs to a row. */
  lemma {:induction false} IdSetHas(rows: seq<Record>, i: nat) returns (x: Record)
    requires i in IdSet(rows)
    ensures x in rows && x.id == i
  {
    if rows[0].id == i {
      x := rows[0];
    } else {
      x := IdSetHas(rows[1..], i);
    }
  }

  /** The rows after the first have larger ids than it, and are increasing
      among themselves. */
  lemma IncreasingTail(rows: seq<Record>)
    requires rows != [] && IdsIncreasing(rows)
    ensures IdsIncreasing(rows[1..])
    ensures forall x :: x in rows[1..] ==> rows[0].id < x.id
    ensures rows[0].id !in IdSet(rows[1..])
  {
    var t := rows[1..];
    forall i, j | 0 <= i < j < |t| ensures t[i].id < t[j].id {
      assert t[i] == rows[i + 1] && t[j] == rows[j + 1];
    }
    forall x | x in t ensures rows[0].id < x.id {
      var k :| 0 <= k < |t| && t[k] == x;
      assert rows[k + 1] == x;
    }
    if rows[0].id in IdSet(t) {
      var x := IdSetHas(t, rows[0].id);
      assert false;
    }
  }

  lemma {:induction false} IdSetSize(rows: seq<Record>)
    requires IdsIncreasing(rows)
    ensures |IdSet(rows)| == |rows|
  {
    if rows != [] {
      IncreasingTail(rows);
      IdSetSize(rows[1..]);
    }
  }

  /** A row placed before rows with larger ids keeps the ids increasing. */
  lemma ConsIncreasing(h: Record, t: seq<Record>)
    requires IdsIncreasing(t)
    requires forall k :: 0 <= k < |t| ==> h.id < t[k].id
    ensures IdsIncreasing([h] + t)
  {
    var r := [h] + t;
    forall i, j | 0 <= i < j < |r| ensures r[i].id < r[j].id {
      assert r[j] == t[j - 1];
      if i > 0 {
        assert r[i] == t[i - 1];
      }
    }
  }

  /** Filtering keeps the ids increasing. */
  lemma {:induction false} FilterIdsIncreasing(rows: seq<Record>, p: Record -> bool)
    requires IdsIncreasing(rows)
    ensures IdsIncreasing(Filter(rows, p))
  {
    if rows != [] {
      var h, t := rows[0], rows[1..];
      IncreasingTail(rows);
      FilterIdsIncreasing(t, p);
      var ft := Filter(t, p);
      assert Filter(rows, p) == (if p(h) then [h] else []) + ft;
      if p(h) {
        assert forall k :: 0 <= k < |ft| ==> h.id < ft[k].id by {
          forall k | 0 <= k < |ft| ensures h.id < ft[k].id {
            assert ft[k] in t;
          }
        }
        ConsIncreasing(h, ft);
      } else {
        assert Filter(rows, p) == ft;
      }
    }
  }

  // -----------------------------------------------------------------------
  // DELETE ... WHERE id IN (...)

  /** The test `id NOT IN ids`. */
  function OutOf(ids: set<nat>): Record -> bool {
    (r: Record) => r.id !in ids
  }

  /** The rows left after deleting those whose id is in `ids`. */
  function Without(rows: seq<Record>, ids: set<nat>): seq<Record> {
    Filter(rows, OutOf(ids))
  }

  /** Deleting the first row or not, by its id. */
  lemma WithoutUnfold(rows: seq<Record>, ids: set<nat>)
    requires rows != []
    ensures Without(rows, ids) ==
      (if rows[0].id in ids then [] else [rows[0]]) + Without(rows[1..], ids)
  {
    assert OutOf(ids)(rows[0]) == (rows[0].id !in ids);
  }

  lemma {:induction false} WithoutCompose(rows: seq<Record>, a: set<nat>, b: set<nat>)
    ensures Without(Without(rows, a), b) == Without(rows, a + b)
  {
    if rows != [] {
      var h, t := rows[0], rows[1..];
      WithoutCompose(t, a, b);
      WithoutUnfold(rows, a);
      WithoutUnfold(rows, a + b);
      var w := Without(rows, a);
      if h.id !in a {
        assert w == [h] + Without(t, a);
        assert w[0] == h && w[1..] == Without(t, a);
        WithoutUnfold(w, b);
        assert Without(w, b) == (if h.id in b then [] else [h]) + Without(Without(t, a), b);
        assert (h.id in a + b) == (h.id in b);
      } else {
        assert w == Without(t, a);
        assert Without(rows, a + b) == Without(t, a + b);
      }
    }
  }

  lemma {:induction false} WithoutSize(rows: seq<Record>, ids: set<nat>)
    requires IdsIncreasing(rows)
    ensures |Without(rows, ids)| == |IdSet(rows) - ids|
  {
    if rows != [] {
      IncreasingTail(rows);
      WithoutSize(rows[1..], ids);
      WithoutSizeStep(rows, ids);
    }
  }

  /** The induction step of `WithoutSize`: a first row whose id is new adds
      one to both sides or to neither. */
  lemma WithoutSizeStep(rows: seq<Record>, ids: set<nat>)
    requires rows != [] && rows[0].id !in IdSet(rows[1..])
    requires |Without(rows[1..], ids)| == |IdSet(rows[1..]) - ids|
    ensures |Without(rows, ids)| == |IdSet(rows) - ids|
  {
    var h, t := rows[0], rows[1..];
    WithoutUnfold(rows, ids);
    assert IdSet(rows) == {h.id} + IdSet(t);
    AddOneLess(h.id, IdSet(t), ids);
  }

  /** Adding an element that was not there adds one to a difference that
      does not take it away. */
  lemma AddOneLess(x: nat, a: set<nat>, ids: set<nat>)
    requires x !in a
    ensures |({x} + a) - ids| == |a - ids| + (if x in ids then 0 else 1)
  {
    if x in ids {
      assert ({x} + a) - ids == a - ids;
    } else {
      assert ({x} + a) - ids == {x} + (a - ids);
    }
  }

  /** Deleting a set of ids that are all present removes exactly that many
      rows. */
  lemma DeleteCount(rows: seq<Record>, ids: set<nat>)
    requires IdsIncreasing(rows) && ids <= IdSet(rows)
    ensures |Without(rows, ids)| == |rows| - |ids|
  {
    WithoutSize(rows, ids);
    IdSetSize(rows);
    var all := IdSet(rows);
    assert all == (all - ids) + ids;
    assert |all| == |all - ids| + |ids|;
  }

  // -----------------------------------------------------------------------
  // enforce_limit: SELECT id ... ORDER BY event_time ASC LIMIT k, then delete

  /** `ids` are k rows that come first in some ascending `event_time` order:
      nothing they leave behind is older than any of them. */
  ghost predicate OldestFirst(rows: seq<Record>, ids: set<nat>) {
    forall a, b :: a in rows && b in rows && a.id in ids && b.id !in ids ==>
      a.fields.eventTime <= b.fields.eventTime
  }

  /** What `enforce_limit($limit)` may leave behind, for any order the
      database picks among rows with equal `event_time`. */
  ghost predicate Evicted(before: seq<Record>, after: seq<Record>, limit: nat) {
    if limit < 1 || |before| <= limit then after == before
    else exists ids :: ids <= IdSet(before) && |ids| == |before| - limit &&
                       OldestFirst(before, ids) && after == Without(before, ids)
  }

  /** The index of a row with the earliest `event_time`. */
  method Earliest(pool: seq<Record>) returns (j: nat)
    requires pool != []
    ensures j < |pool|
    ensures forall b :: b in pool ==> pool[j].fields.eventTime <= b.fields.eventTime
  {
    j := 0;
    var i := 1;
    while i < |pool|
      invariant 1 <= i <= |pool| && j < i
      invariant forall t :: 0 <= t < i ==> pool[j].fields.eventTime <= pool[t].fields.eventTime
    {
      if pool[i].fields.eventTime < pool[j].fields.eventTime {
        j := i;
      }
      i := i + 1;
    }
  }

  /** Two rows of a table with increasing ids that share an id are the
      same row. */
  lemma IdsUnique(rows: seq<Record>, a: Record, b: Record)
    requires IdsIncreasing(rows) && a in rows && b in rows && a.id == b.id
    ensures a == b
  {
    var i :| 0 <= i < |rows| && rows[i] == a;
    var j :| 0 <= j < |rows| && rows[j] == b;
    assert !(i < j) && !(j < i);
  }

  /** The loop step of `OldestIds`: choosing an earliest row still in the
      pool keeps every chosen row no newer than every row left. */
  lemma OldestStep(rows: seq<Record>, ids: set<nat>, x: Record)
    requires IdsIncreasing(rows)
    requires forall a, b :: a in rows && a.id in ids && b in Without(rows, ids) ==>
      a.fields.eventTime <= b.fields.eventTime
    requires x in Without(rows, ids)
    requires forall b :: b in Without(rows, ids) ==> x.fields.eventTime <= b.fields.eventTime
    ensures forall a, b :: a in rows && a.id in ids + {x.id} && b in Without(rows, ids + {x.id}) ==>
      a.fields.eventTime <= b.fields.eventTime
  {
    assert x in rows;
    forall a, b | a in rows && a.id in ids + {x.id} && b in Without(rows, ids + {x.id})
      ensures a.fields.eventTime <= b.fields.eventTime
    {
      assert b in rows && OutOf(ids + {x.id})(b);
      assert OutOf(ids)(b);
      assert b in Without(rows, ids);
      if a.id !in ids {
        IdsUnique(rows, a, x);
      }
    }
  }

  /** `SELECT id ... ORDER BY event_time ASC LIMIT k`: the ids of k rows none
      of which is newer than a row left out. */
  method OldestIds(rows: seq<Record>, k: nat) returns (ids: set<nat>)
    requires IdsIncreasing(rows) && k <= |rows|
    ensures ids <= IdSet(rows) && |ids| == k
    ensures OldestFirst(rows, ids)
  {
    IdSetSize(rows);
    ids := {};
    var pool := rows;
    FilterAll(rows, OutOf(ids));
    while |ids| < k
      invariant |ids| <= k
      invariant ids <= IdSet(rows)
      invariant pool == Without(rows, ids)
      invariant forall a, b :: a in rows && a.id in ids && b in pool ==>
        a.fields.eventTime <= b.fields.eventTime
      decreases k - |ids|
    {
      ghost var all := IdSet(rows);
      assert all - ids != {};
      ghost var y :| y in all - ids;
      ghost var w := IdSetHas(rows, y);
      assert w in pool;
      var j := Earliest(pool);
      var x := pool[j];
      assert OutOf(ids)(x);
      WithoutCompose(rows, ids, {x.id});
      OldestStep(rows, ids, x);
      ids := ids + {x.id};
      pool := Without(pool, {x.id});
    }
    forall a, b | a in rows && b in rows && a.id in ids && b.id !in ids
      ensures a.fields.eventTime <= b.fields.eventTime
    {
      assert b in pool;
    }
  }

  /** After the cap, the table holds `limit` rows (or fewer, if it never
      held more), every one of them an unchanged row from before, in the
      same order. */
  lemma EvictionSize(before: seq<Record>, after: seq<Record>, limit: nat)
    requires IdsIncreasing(before) && Evicted(before, after, limit)
    ensures limit >= 1 ==> |after| == Min(|before|, limit)
    ensures exists ids :: after == Without(before, ids)
    ensures IdsIncreasing(after)
  {
    if limit < 1 || |before| <= limit {
      assert after == Without(before, {}) by {
        FilterAll(before, OutOf({}));
      }
    } else {
      var ids :| ids <= IdSet(before) && |ids| == |before| - limit &&
                 OldestFirst(before, ids) && after == Without(before, ids);
      DeleteCount(before, ids);
      FilterIdsIncreasing(before, OutOf(ids));
    }
  }

  /** No evicted row is newer than a row that was kept. */
  lemma EvictedAreOldest(before: seq<Record>, after: seq<Record>, limit: nat, x: Record, y: Record)
    requires Evicted(before, after, limit)
    requires x in before && x !in after && y in after
    ensures x.fields.eventTime <= y.fields.eventTime
  {
    if !(limit < 1 || |before| <= limit) {
      var ids :| ids <= IdSet(before) && |ids| == |before| - limit &&
                 OldestFirst(before, ids) && after == Without(before, ids);
      assert x.id in ids;
      assert y in before && y.id !in ids;
    }
  }

  /** Running the cap a second time deletes nothing. */
  lemma EvictionIdempotent(before: seq<Record>, mid: seq<Record>, after: seq<Record>, limit: nat)
    requires IdsIncreasing(before)
    requires Evicted(before, mid, limit) && Evicted(mid, after, limit)
    ensures after == mid
  {
    EvictionSize(before, mid, limit);
  }

  // -----------------------------------------------------------------------
  // purge_older_than: DELETE ... WHERE event_time < cutoff

  /** `strtotime('-N days')` in UTC. */
  function PurgeCutoff(days: nat, now: int): (r: int)
    ensures now - r == days * DaySeconds
    ensures days >= 1 ==> r <= now - DaySeconds
  {
    now - days * DaySeconds
  }

  /** The table after `purge_older_than($days)` with `absint($days)` = `days`:
      nothing at all for days < 1, otherwise exactly the rows whose
      `event_time` is before the cutoff go, and the rest stay as they were,
      in the same order. */
  function Purged(rows: seq<Record>, days: nat, now: int): (r: seq<Record>)
    ensures days < 1 ==> r == rows
    ensures forall x :: x in r <==> x in rows && (days < 1 || x.fields.eventTime >= PurgeCutoff(days, now))
    ensures |r| <= |rows|
  {
    if days < 1 then rows
    else Filter(rows, (x: Record) => x.fields.eventTime >= PurgeCutoff(days, now))
  }

  /** Purging again with the same cutoff deletes nothing. */
  lemma PurgeIdempotent(rows: seq<Record>, days: nat, now: int)
    ensures Purged(Purged(rows, days, now), days, now) == Purged(rows, days, now)
  {
    if days >= 1 {
      FilterIdempotent(rows, (x: Record) => x.fields.eventTime >= PurgeCutoff(days, now));
    }
  }

  /** The number of rows a purge deletes is the number of rows older than
      the cutoff. */
  lemma PurgeCount(rows: seq<Record>, days: nat, now: int)
    requires days >= 1
    ensures |Purged(rows, days, now)| ==
            |rows| - |Filter(rows, (x: Record) => x.fields.eventTime < PurgeCutoff(days, now))|
  {
    FilterSplit(rows, (x: Record) => x.fields.eventTime >= PurgeCutoff(days, now),
                (x: Record) => x.fields.eventTime < PurgeCutoff(days, now));
  }

  // -----------------------------------------------------------------------
  // the table

  class Store {
    var rows: seq<Record>
    var nextId: nat

    ghost predicate Valid()
      reads this
    {
      nextId >= 1 && IdsIncreasing(rows) && IdsBelow(rows, nextId)
    }

    /** An empty table whose auto-increment starts at 1. */
    constructor ()
      ensures Valid() && rows == [] && nextId == 1
    {
      rows := [];
      nextId := 1;
    }

    /** `insert($row)`: the sanitized row is appended under the next id,
        which is returned; when the database reports an error (`accepted`
        false) nothing is stored and the result is false (None). */
    method Insert(row: RowInput, now: int, sanitize: string -> string, accepted: bool)
      returns (id: Option<nat>)
      requires Valid()
      modifies this
      ensures Valid()
      ensures accepted ==>
        && id == Some(old(nextId)) && nextId == old(nextId) + 1
        && rows == old(rows) + [Record(old(nextId), SanitizeRow(row, now, sanitize).0, SanitizeRow(row, now, sanitize).1)]
      ensures !accepted ==> id == None && rows == old(rows) && nextId == old(nextId)
    {
      var (fields, meta) := SanitizeRow(row, now, sanitize);
      if !accepted {
        return None;
      }
      rows := rows + [Record(nextId, fields, meta)];
      id := Some(nextId);
      nextId := nextId + 1;
    }

    /** `enforce_limit($limit)`. */
    method EnforceLimit(limit: int)
      requires Valid()
      modifies this
      ensures Valid() && nextId == old(nextId)
      ensures Evicted(old(rows), rows, Absint(limit))
    {
      var cap := Absint(limit);
      if cap < 1 {
        return;
      }
      var total := |rows|;
      if total <= cap {
        return;
      }
      var offset := total - cap;
      var ids := OldestIds(rows, offset);
      if ids != {} {
        FilterIdsIncreasing(rows, OutOf(ids));
        rows := Without(rows, ids);
      }
    }

    /** `purge_older_than($days)` at time `now`. */
    method PurgeOlderThan(days: int, now: int)
      requires Valid()
      modifies this
      ensures Valid() && nextId == old(nextId)
      ensures rows == Purged(old(rows), Absint(days), now)
    {
      var keep := Absint(days);
      if keep < 1 {
        return;
      }
      var cutoff := PurgeCutoff(keep, now);
      FilterIdsIncreasing(rows, (x: Record) => x.fields.eventTime >= cutoff);
      rows := Filter(rows, (x: Record) => x.fields.eventTime >= cutoff);
    }
  }

  // -----------------------------------------------------------------------
  // query_logs

  datatype OrderKey = EventTime | Ttfb | Lcp | TotalLoad

  /** The allow-list of sortable columns. */
  function ParseOrderKey(s: string): (r: Option<OrderKey>)
    ensures r.Some? <==> s == "event_time" || s == "ttfb" || s == "lcp" || s == "total_load"
  {
    if s == "event_time" then Some(EventTime)
    else if s == "ttfb" then Some(Ttfb)
    else if s == "lcp" then Some(Lcp)
    else if s == "total_load" then Some(TotalLoad)
    else None
  }

  function KeyValue(k: OrderKey, f: Fields): real {
    match k
    case EventTime => f.eventTime as real
    case Ttfb => f.ttfb
    case Lcp => f.lcp
    case TotalLoad => f.totalLoad
  }

  /** The request arguments `query_logs` and `get_stats` read. */
  datatype QueryArgs = QueryArgs(
    page: Option<int>,
    perPage: Option<int>,
    order: Option<string>,
    orderBy: Option<string>,
    sessionId: Option<string>,
    url: Option<string>,
    device: Option<string>,
    net: Option<string>)

  datatype Plan = Plan(page: nat, perPage: nat, offset: nat, orderBy: OrderKey, asc: bool)

  /** `max(1, absint($args['page']))`, 1 when absent. */
  function PageOf(page: Option<int>): (r: nat)
    ensures r >= 1
    ensures page.None? ==> r == 1
    ensures page.Some? && page.value >= 1 ==> r == page.value
    ensures page.Some? && page.value <= -1 ==> r == -page.value
    ensures page.Some? && page.value == 0 ==> r == 1
  {
    Max(1, Absint(page.GetOr(1)))
  }

  /** `max(1, min(200, absint($args['per_page'])))`, 50 when absent. */
  function PerPageOf(perPage: Option<int>): (r: nat)
    ensures 1 <= r <= 200
    ensures perPage.None? ==> r == 50
    ensures perPage.Some? && 1 <= perPage.value <= 200 ==> r == perPage.value
    ensures perPage.Some? && -200 <= perPage.value <= -1 ==> r == -perPage.value
    ensures perPage.Some? && perPage.value == 0 ==> r == 1
    ensures perPage.Some? && Absint(perPage.value) > 200 ==> r == 200
  {
    Max(1, Min(200, Absint(perPage.GetOr(50))))
  }

  /** The sort column: the sanitized `orderby` when it is on the allow-list,
      else `event_time`. */
  function OrderByOf(orderBy: Option<string>, sanitize: string -> string): (r: OrderKey)
    ensures orderBy.Some? && ParseOrderKey(sanitize(orderBy.value)).Some? ==>
      r == ParseOrderKey(sanitize(orderBy.value)).value
    ensures r != EventTime ==> orderBy.Some? && ParseOrderKey(sanitize(orderBy.value)) == Some(r)
  {
    var requested := if orderBy.Some? then sanitize(orderBy.value) else "event_time";
    ParseOrderKey(requested).GetOr(EventTime)
  }

  /** The normalised paging and sorting arguments. */
  function PlanOf(args: QueryArgs, sanitize: string -> string): (p: Plan)
    ensures p.page >= 1 && 1 <= p.perPage <= 200 && p.offset == (p.page - 1) * p.perPage
    ensures args.page.None? ==> p.page == 1
    ensures args.page.Some? && args.page.value >= 1 ==> p.page == args.page.value
    ensures args.perPage.None? ==> p.perPage == 50
    ensures args.perPage.Some? && 1 <= args.perPage.value <= 200 ==> p.perPage == args.perPage.value
    ensures args.perPage.Some? && Absint(args.perPage.value) > 200 ==> p.perPage == 200
    ensures p.asc <==> args.order.Some? && Lower(args.order.value) == "asc"
    ensures args.orderBy.Some? && ParseOrderKey(sanitize(args.orderBy.value)).Some? ==>
      p.orderBy == ParseOrderKey(sanitize(args.orderBy.value)).value
    ensures p.orderBy != EventTime ==>
      args.orderBy.Some? && ParseOrderKey(sanitize(args.orderBy.value)) == Some(p.orderBy)
  {
    var page := PageOf(args.page);
    var perPage := PerPageOf(args.perPage);
    var asc := args.order.Some? && Lower(args.order.value) == "asc";
    Plan(page, perPage, PageOffset(page, perPage), OrderByOf(args.orderBy, sanitize), asc)
  }

  /** `($page - 1) * $per_page`. */
  function PageOffset(page: nat, perPage: nat): nat
    requires page >= 1
  {
    (page - 1) * perPage
  }

  /** The active filters: a key that is missing or falsy adds no condition. */
  datatype Criteria = Criteria(
    sessionId: Option<string>,
    url: Option<string>,
    device: Option<string>,
    net: Option<string>)

  /** `! empty( $args[key] )` guarding `sanitize_text_field( $args[key] )`. */
  function Criterion(v: Option<string>, sanitize: string -> string): (r: Option<string>)
    ensures r.None? <==> v.None? || Falsy(v.value)
    ensures r.Some? ==> r.value == sanitize(v.value)
  {
    if v.Some? && !Falsy(v.value) then Some(sanitize(v.value)) else None
  }

  /** The four guarded filters of `query_logs` and `get_stats`. */
  function CriteriaOf(args: QueryArgs, sanitize: string -> string): (c: Criteria)
    ensures c.sessionId.None? <==> args.sessionId.None? || Falsy(args.sessionId.value)
    ensures c.url.None? <==> args.url.None? || Falsy(args.url.value)
    ensures c.device.None? <==> args.device.None? || Falsy(args.device.value)
    ensures c.net.None? <==> args.net.None? || Falsy(args.net.value)
    ensures c.sessionId.Some? ==> c.sessionId.value == sanitize(args.sessionId.value)
    ensures c.url.Some? ==> c.url.value == sanitize(args.url.value)
    ensures c.device.Some? ==> c.device.value == sanitize(args.device.value)
    ensures c.net.Some? ==> c.net.value == sanitize(args.net.value)
  {
    Criteria(Criterion(args.sessionId, sanitize), Criterion(args.url, sanitize),
             Criterion(args.device, sanitize), Criterion(args.net, sanitize))
  }

  /** The WHERE clause: each active filter ANDed in; session, device and net
      compare equal, url is a literal substring match. */
  predicate Matches(f: Fields, c: Criteria) {
    && (c.sessionId.Some? ==> f.sessionId == c.sessionId.value)
    && (c.url.Some? ==> Contains(f.url, c.url.value))
    && (c.device.Some? ==> f.device == c.device.value)
    && (c.net.Some? ==> f.net == c.net.value)
  }

  function Matching(rows: seq<Record>, c: Criteria): (r: seq<Record>)
    ensures forall x :: x in r <==> x in rows && Matches(x.fields, c)
  {
    Filter(rows, (x: Record) => Matches(x.fields, c))
  }

  /** With no filter argument the WHERE clause is empty and every row
      matches. */
  lemma NoFilterMatchesAll(rows: seq<Record>, args: QueryArgs, sanitize: string -> string)
    requires args.sessionId.None? && args.url.None? && args.device.None? && args.net.None?
    ensures Matching(rows, CriteriaOf(args, sanitize)) == rows
  {
    FilterAll(rows, (x: Record) => Matches(x.fields, CriteriaOf(args, sanitize)));
  }

  function Project(s: seq<Record>): (r: seq<Entry>)
    ensures |r| == |s| && forall i :: 0 <= i < |s| ==> r[i] == EntryOf(s[i])
  {
    if s == [] then [] else [EntryOf(s[0])] + Project(s[1..])
  }

  /** `LIMIT n OFFSET offset`. */
  function Window<T>(s: seq<T>, offset: nat, n: nat): (r: seq<T>)
    ensures |r| == Min(n, Max(0, |s| - offset))
    ensures forall i :: 0 <= i < |r| ==> r[i] == s[offset + i]
  {
    if offset >= |s| then [] else Take(s[offset..], n)
  }

  datatype LogPage = LogPage(data: seq<Entry>, total: nat)

  /** The sort key of a column. */
  function SortKey(k: OrderKey): Record -> real {
    (x: Record) => KeyValue(k, x.fields)
  }

  /** A window of a sequence sorted on a column is ordered on that column. */
  lemma WindowOrdered(sorted: seq<Record>, k: OrderKey, asc: bool, offset: nat, n: nat)
    requires SortedBy(sorted, SortKey(k), asc)
    ensures forall i, j :: 0 <= i < j < |Window(sorted, offset, n)| ==>
      InOrder(KeyValue(k, Window(sorted, offset, n)[i].fields), KeyValue(k, Window(sorted, offset, n)[j].fields), asc)
  {
    var w := Window(sorted, offset, n);
    forall i, j | 0 <= i < j < |w|
      ensures InOrder(KeyValue(k, w[i].fields), KeyValue(k, w[j].fields), asc)
    {
      assert InOrder(SortKey(k)(sorted[offset + i]), SortKey(k)(sorted[offset + j]), asc);
    }
  }

  /** `ORDER BY <column> <direction> LIMIT per_page OFFSET offset` over the
      matching rows. */
  function PageSlice(matching: seq<Record>, plan: Plan): (r: seq<Record>)
    ensures |r| == Min(plan.perPage, Max(0, |matching| - plan.offset))
    ensures forall i :: 0 <= i < |r| ==> r[i] in matching
    ensures forall i, j :: 0 <= i < j < |r| ==>
      InOrder(KeyValue(plan.orderBy, r[i].fields), KeyValue(plan.orderBy, r[j].fields), plan.asc)
  {
    var sorted := Sort(matching, SortKey(plan.orderBy), plan.asc);
    SortMembers(matching, SortKey(plan.orderBy), plan.asc);
    WindowOrdered(sorted, plan.orderBy, plan.asc, plan.offset, plan.perPage);
    var page := Window(sorted, plan.offset, plan.perPage);
    page
  }

  /** The entries of rows taken from `matching` in column order come from
      `matching` and keep that order. */
  lemma ProjectPage(page: seq<Record>, matching: seq<Record>, k: OrderKey, asc: bool)
    requires forall i :: 0 <= i < |page| ==> page[i] in matching
    requires forall i, j :: 0 <= i < j < |page| ==>
      InOrder(KeyValue(k, page[i].fields), KeyValue(k, page[j].fields), asc)
    ensures forall i :: 0 <= i < |Project(page)| ==>
      exists x :: x in matching && Project(page)[i] == EntryOf(x)
    ensures forall i, j :: 0 <= i < j < |Project(page)| ==>
      InOrder(KeyValue(k, Project(page)[i].fields), KeyValue(k, Project(page)[j].fields), asc)
  {
    var data := Project(page);
    forall i | 0 <= i < |data| ensures exists x :: x in matching && data[i] == EntryOf(x) {
      assert page[i] in matching && data[i] == EntryOf(page[i]);
    }
    forall i, j | 0 <= i < j < |data|
      ensures InOrder(KeyValue(k, data[i].fields), KeyValue(k, data[j].fields), asc)
    {
      assert data[i].fields == page[i].fields && data[j].fields == page[j].fields;
    }
  }

  /** `query_logs($args)`: `total` counts the matching rows whatever the
      page; `data` is the requested page of the matching rows in the
      requested order, so it is `per_page` long except on the last page. */
  function QueryLogs(rows: seq<Record>, args: QueryArgs, sanitize: string -> string): (r: LogPage)
    ensures r.total == |Matching(rows, CriteriaOf(args, sanitize))|
    ensures |r.data| == Min(PlanOf(args, sanitize).perPage, Max(0, r.total - PlanOf(args, sanitize).offset))
    ensures forall i :: 0 <= i < |r.data| ==>
      exists x :: x in Matching(rows, CriteriaOf(args, sanitize)) && r.data[i] == EntryOf(x)
    ensures forall i, j :: 0 <= i < j < |r.data| ==>
      InOrder(KeyValue(PlanOf(args, sanitize).orderBy, r.data[i].fields),
              KeyValue(PlanOf(args, sanitize).orderBy, r.data[j].fields), PlanOf(args, sanitize).asc)
  {
    var matching := Matching(rows, CriteriaOf(args, sanitize));
    var plan := PlanOf(args, sanitize);
    var page := PageSlice(matching, plan);
    ProjectPage(page, matching, plan.orderBy, plan.asc);
    LogPage(Project(page), |matching|)
  }

  /** The page is a window of an ordering of the matching rows: there is an
      ordered permutation of them whose `[offset, offset + per_page)` slice
      is exactly `data`. */
  lemma QueryLogsIsWindow(rows: seq<Record>, args: QueryArgs, sanitize: string -> string)
    ensures exists sorted: seq<Record> ::
      && multiset(sorted) == multiset(Matching(rows, CriteriaOf(args, sanitize)))
      && SortedBy(sorted, SortKey(PlanOf(args, sanitize).orderBy), PlanOf(args, sanitize).asc)
      && QueryLogs(rows, args, sanitize).data ==
         Project(Window(sorted, PlanOf(args, sanitize).offset, PlanOf(args, sanitize).perPage))
  {
    var plan := PlanOf(args, sanitize);
    var sorted := Sort(Matching(rows, CriteriaOf(args, sanitize)), SortKey(plan.orderBy), plan.asc);
    assert QueryLogs(rows, args, sanitize).data == Project(Window(sorted, plan.offset, plan.perPage));
  }

  /** `total` does not depend on paging or sorting. */
  lemma TotalIgnoresPaging(rows: seq<Record>, args: QueryArgs, page: Option<int>, perPage: Option<int>,
                           order: Option<string>, orderBy: Option<string>, sanitize: string -> string)
    ensures QueryLogs(rows, args, sanitize).total ==
            QueryLogs(rows, args.(page := page, perPage := perPage, order := order, orderBy := orderBy), sanitize).total
  {
    var other := args.(page := page, perPage := perPage, order := order, orderBy := orderBy);
    assert CriteriaOf(other, sanitize) == CriteriaOf(args, sanitize);
  }
}
