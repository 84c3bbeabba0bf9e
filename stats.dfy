/** The aggregates over the log table: the dashboard statistics of
    `get_stats` (count, averages that skip zeros, the 75th percentile of
    LCP, the slowest URLs) and the figures of the summary report (plain
    averages, the worst pages seen at least twice, visits per device). */
module Stats {
  import opened Php
  import opened Lists
  import opened LogStore

  datatype Metric = MetricServer | MetricTtfb | MetricLcp | MetricLoad

  function Measure(m: Metric, f: Fields): real {
    match m
    case MetricServer => f.serverTime
    case MetricTtfb => f.ttfb
    case MetricLcp => f.lcp
    case MetricLoad => f.totalLoad
  }

  /** One column of the selected rows, in row order. */
  function Column(rows: seq<Record>, m: Metric): (r: seq<real>)
    ensures |r| == |rows|
    ensures forall i :: 0 <= i < |rows| ==> r[i] == Measure(m, rows[i].fields)
  {
    if rows == [] then [] else [Measure(m, rows[0].fields)] + Column(rows[1..], m)
  }

  // -----------------------------------------------------------------------
  // AVG

  function Sum(xs: seq<real>): real {
    if xs == [] then 0.0 else xs[0] + Sum(xs[1..])
  }

  lemma {:induction false} SumConcat(a: seq<real>, b: seq<real>)
    ensures Sum(a + b) == Sum(a) + Sum(b)
  {
    if a == [] {
      assert a + b == b;
    } else {
      assert (a + b)[0] == a[0] && (a + b)[1..] == a[1..] + b;
      SumConcat(a[1..], b);
    }
  }

  lemma {:induction false} SumBounds(xs: seq<real>, lo: real, hi: real)
    requires forall i :: 0 <= i < |xs| ==> lo <= xs[i] <= hi
    ensures (|xs| as real) * lo <= Sum(xs) <= (|xs| as real) * hi
  {
    if xs != [] {
      assert forall i :: 0 <= i < |xs| - 1 ==> xs[1..][i] == xs[i + 1];
      SumBounds(xs[1..], lo, hi);
    }
  }

  /** SQL `AVG` of a column; the average of no rows is NULL, which the
      plugin reads back as 0. */
  function Mean(xs: seq<real>): (r: real)
    ensures xs == [] ==> r == 0.0
    ensures xs != [] ==> r * (|xs| as real) == Sum(xs)
  {
    if xs == [] then 0.0 else Sum(xs) / (|xs| as real)
  }

  /** A plain average counts a zero: appending one to values with a
      positive average lowers it. */
  lemma ZeroCounted(xs: seq<real>)
    requires xs != [] && Mean(xs) > 0.0
    ensures Mean(xs + [0.0]) < Mean(xs)
  {
    SumConcat(xs, [0.0]);
    assert Sum([0.0]) == 0.0;
    var n := |xs| as real;
    assert Mean(xs + [0.0]) * (n + 1.0) == Sum(xs) == Mean(xs) * n;
  }

  /** An average lies between the smallest and the largest value. */
  lemma MeanBetween(xs: seq<real>, lo: real, hi: real)
    requires xs != []
    requires forall i :: 0 <= i < |xs| ==> lo <= xs[i] <= hi
    ensures lo <= Mean(xs) <= hi
  {
    SumBounds(xs, lo, hi);
    var n := |xs| as real;
    assert Mean(xs) * n == Sum(xs);
  }

  function IsNonZero(x: real): bool {
    x != 0.0
  }

  /** `AVG(NULLIF(col, 0))`: zeros are NULL and do not take part; with no
      non-zero value the result is NULL, read back as 0. */
  function AvgNonZero(xs: seq<real>): (r: real)
    ensures (forall i :: 0 <= i < |xs| ==> xs[i] == 0.0) ==> r == 0.0
  {
    Mean(Filter(xs, IsNonZero))
  }

  lemma DropZero(a: seq<real>, b: seq<real>)
    ensures Filter(a + [0.0] + b, IsNonZero) == Filter(a + b, IsNonZero)
  {
    var z: seq<real> := [0.0];
    assert !IsNonZero(z[0]);
    assert Filter(z, IsNonZero) == [];
    FilterConcat(a + z, b, IsNonZero);
    FilterConcat(a, z, IsNonZero);
    FilterConcat(a, b, IsNonZero);
  }

  /** A zero anywhere in the column does not move the average. */
  lemma ZeroIgnored(a: seq<real>, b: seq<real>)
    ensures AvgNonZero(a + [0.0] + b) == AvgNonZero(a + b)
  {
    DropZero(a, b);
  }

  /** The average of the non-zero values lies between any bounds on them. */
  lemma AvgNonZeroBetween(xs: seq<real>, lo: real, hi: real, k: nat)
    requires k < |xs| && xs[k] != 0.0
    requires forall i :: 0 <= i < |xs| ==> xs[i] == 0.0 || lo <= xs[i] <= hi
    ensures lo <= AvgNonZero(xs) <= hi
  {
    var nz := Filter(xs, IsNonZero);
    assert xs[k] in xs && IsNonZero(xs[k]);
    assert nz != [];
    forall i | 0 <= i < |nz| ensures lo <= nz[i] <= hi {
      assert nz[i] in xs && IsNonZero(nz[i]);
    }
    MeanBetween(nz, lo, hi);
  }

  // -----------------------------------------------------------------------
  // P75: ORDER BY lcp ASC LIMIT 1 OFFSET floor(count * 0.75)

  function RealKey(x: real): real {
    x
  }

  /** `floor($count * 0.75)`. */
  function P75Index(n: nat): (r: nat)
    ensures 4 * r <= 3 * n < 4 * r + 4
    ensures n > 0 ==> r < n
  {
    n * 3 / 4
  }

  function Below(r: real): real -> bool {
    (x: real) => x < r
  }

  function AtMost(r: real): real -> bool {
    (x: real) => x <= r
  }

  /** The 75th percentile as the plugin takes it: 0 for no rows, otherwise
      one of the values. */
  function P75(xs: seq<real>): (r: real)
    ensures xs == [] ==> r == 0.0
    ensures xs != [] ==> r in xs
  {
    if xs == [] then 0.0
    else
      var sorted := Sort(xs, RealKey, true);
      assert sorted[P75Index(|xs|)] in multiset(sorted);
      sorted[P75Index(|xs|)]
  }

  /** In an ascending list, no more than m values are below the one at
      index m. */
  lemma SortedBelow(s: seq<real>, m: nat)
    requires SortedBy(s, RealKey, true) && m < |s|
    ensures |Filter(s, Below(s[m]))| <= m
  {
    var r := s[m];
    assert s == s[..m] + s[m..];
    FilterConcat(s[..m], s[m..], Below(r));
    forall i | 0 <= i < |s[m..]| ensures !Below(r)(s[m..][i]) {
      assert s[m..][i] == s[m + i];
      if i > 0 {
        assert InOrder(RealKey(s[m]), RealKey(s[m + i]), true);
      }
    }
    FilterNone(s[m..], Below(r));
  }

  /** In an ascending list, more than m values are at or below the one at
      index m. */
  lemma SortedAtMost(s: seq<real>, m: nat)
    requires SortedBy(s, RealKey, true) && m < |s|
    ensures m < |Filter(s, AtMost(s[m]))|
  {
    var r := s[m];
    assert s == s[..m + 1] + s[m + 1..];
    FilterConcat(s[..m + 1], s[m + 1..], AtMost(r));
    forall x | x in s[..m + 1] ensures AtMost(r)(x) {
      var k :| 0 <= k <= m && s[k] == x;
      if k < m {
        assert InOrder(RealKey(s[k]), RealKey(s[m]), true);
      }
    }
    FilterAll(s[..m + 1], AtMost(r));
  }

  /** The rank of the percentile: at most floor(0.75 n) values are below
      it, and more than floor(0.75 n) are at or below it, whatever order the
      rows are stored in. */
  lemma P75Rank(xs: seq<real>)
    requires xs != []
    ensures P75Index(|xs|) < |xs|
    ensures |Filter(xs, Below(P75(xs)))| <= P75Index(|xs|)
    ensures P75Index(|xs|) < |Filter(xs, AtMost(P75(xs)))|
  {
    var s := Sort(xs, RealKey, true);
    var m := P75Index(|xs|);
    SortedBelow(s, m);
    SortedAtMost(s, m);
    FilterCountPermutation(xs, s, Below(s[m]));
    FilterCountPermutation(xs, s, AtMost(s[m]));
  }

  // -----------------------------------------------------------------------
  // GROUP BY

  function UrlOf(x: Record): string {
    x.fields.url
  }

  function DeviceOf(x: Record): string {
    x.fields.device
  }

  function HasKey(key: Record -> string, v: string): Record -> bool {
    (x: Record) => key(x) == v
  }

  /** The rows of one group. */
  function With(rows: seq<Record>, key: Record -> string, v: string): seq<Record> {
    Filter(rows, HasKey(key, v))
  }

  /** The distinct values of a column: the groups of `GROUP BY`. */
  function Keys(rows: seq<Record>, key: Record -> string): (r: seq<string>)
    ensures NoDup(r)
    ensures forall x :: x in rows ==> key(x) in r
    ensures forall v :: v in r ==> exists x :: x in rows && key(x) == v
  {
    if rows == [] then []
    else
      var t := Keys(rows[1..], key);
      if key(rows[0]) in t then t
      else
        var r := [key(rows[0])] + t;
        assert forall j :: 0 < j < |r| ==> r[j] == t[j - 1];
        r
  }

  /** The sizes of the given groups added up. */
  function TotalOver(rows: seq<Record>, key: Record -> string, vs: seq<string>): nat {
    if vs == [] then 0 else |With(rows, key, vs[0])| + TotalOver(rows, key, vs[1..])
  }

  lemma WithCons(h: Record, t: seq<Record>, key: Record -> string, v: string)
    ensures |With([h] + t, key, v)| == (if key(h) == v then 1 else 0) + |With(t, key, v)|
  {
    assert ([h] + t)[0] == h && ([h] + t)[1..] == t;
    assert HasKey(key, v)(h) == (key(h) == v);
  }

  lemma {:induction false} TotalOverCons(h: Record, t: seq<Record>, key: Record -> string, vs: seq<string>)
    requires NoDup(vs)
    ensures TotalOver([h] + t, key, vs) == TotalOver(t, key, vs) + (if key(h) in vs then 1 else 0)
  {
    if vs != [] {
      WithCons(h, t, key, vs[0]);
      assert NoDup(vs[1..]) by {
        forall i, j | 0 <= i < j < |vs| - 1 ensures vs[1..][i] != vs[1..][j] {
          assert vs[i + 1] != vs[j + 1];
        }
      }
      TotalOverCons(h, t, key, vs[1..]);
      assert vs == [vs[0]] + vs[1..];
      if key(h) == vs[0] {
        forall k | 0 <= k < |vs| - 1 ensures vs[1..][k] != key(h) {
          assert vs[k + 1] != vs[0];
        }
      }
    }
  }

  /** A value that no row has forms no group. */
  lemma AbsentGroupEmpty(rows: seq<Record>, key: Record -> string, v: string)
    requires v !in Keys(rows, key)
    ensures |With(rows, key, v)| == 0
  {
    forall i | 0 <= i < |rows| ensures !HasKey(key, v)(rows[i]) {
      assert rows[i] in rows;
    }
    FilterNone(rows, HasKey(key, v));
  }

  /** A row belongs to the group of its own value. */
  lemma InOwnGroup(rows: seq<Record>, key: Record -> string, x: Record)
    requires x in rows
    ensures x in With(rows, key, key(x))
  {
    assert HasKey(key, key(x))(x);
  }

  /** The groups partition the rows: their sizes add up to the row count. */
  lemma {:induction false} GroupsPartition(rows: seq<Record>, key: Record -> string)
    ensures TotalOver(rows, key, Keys(rows, key)) == |rows|
  {
    if rows != [] {
      var h, t := rows[0], rows[1..];
      assert rows == [h] + t;
      GroupsPartition(t, key);
      var ks := Keys(rows, key);
      TotalOverCons(h, t, key, ks);
      if key(h) !in Keys(t, key) {
        AbsentGroupEmpty(t, key, key(h));
      }
    }
  }

  // -----------------------------------------------------------------------
  // per-URL groups

  datatype UrlGroup = UrlGroup(url: string, hits: nat, avgLcp: real, avgServer: real, avgTtfb: real)

  /** One row of `GROUP BY url`: the count and the plain averages (zeros
      included) of the rows with that URL. */
  function GroupOf(rows: seq<Record>, u: string): (g: UrlGroup)
    ensures g.url == u && g.hits == |With(rows, UrlOf, u)|
    ensures g.avgLcp == Mean(Column(With(rows, UrlOf, u), MetricLcp))
    ensures g.avgServer == Mean(Column(With(rows, UrlOf, u), MetricServer))
    ensures g.avgTtfb == Mean(Column(With(rows, UrlOf, u), MetricTtfb))
  {
    var at := With(rows, UrlOf, u);
    UrlGroup(u, |at|, Mean(Column(at, MetricLcp)), Mean(Column(at, MetricServer)), Mean(Column(at, MetricTtfb)))
  }

  function GroupsOver(rows: seq<Record>, urls: seq<string>): (r: seq<UrlGroup>)
    ensures |r| == |urls|
    ensures forall i :: 0 <= i < |urls| ==> r[i] == GroupOf(rows, urls[i])
  {
    if urls == [] then [] else [GroupOf(rows, urls[0])] + GroupsOver(rows, urls[1..])
  }

  /** Each group comes from a URL some row has, so it holds at least one
      row. */
  lemma GroupsNonEmpty(rows: seq<Record>, urls: seq<string>, i: nat)
    requires forall v :: v in urls ==> exists x :: x in rows && UrlOf(x) == v
    requires i < |urls|
    ensures GroupsOver(rows, urls)[i].hits >= 1
  {
    assert urls[i] in urls;
    var x :| x in rows && UrlOf(x) == urls[i];
    InOwnGroup(rows, UrlOf, x);
  }

  /** Distinct URLs give distinct groups. */
  lemma GroupsDistinct(rows: seq<Record>, urls: seq<string>)
    requires NoDup(urls)
    ensures NoDup(GroupsOver(rows, urls))
  {
    var r := GroupsOver(rows, urls);
    forall i, j | 0 <= i < j < |r| ensures r[i] != r[j] {
      assert r[i].url == urls[i] && r[j].url == urls[j];
    }
  }

  /** `GROUP BY url`: one group per distinct URL, each the group of its URL
      and holding at least one row. */
  function Groups(rows: seq<Record>): (r: seq<UrlGroup>)
    ensures NoDup(r)
    ensures forall i :: 0 <= i < |r| ==> r[i] == GroupOf(rows, r[i].url) && r[i].hits >= 1
    ensures forall x :: x in rows ==> GroupOf(rows, x.fields.url) in r
  {
    var urls := Keys(rows, UrlOf);
    GroupsDistinct(rows, urls);
    GroupsHits(rows, urls);
    GroupsCover(rows, urls);
    GroupsOver(rows, urls)
  }

  /** Every group over URLs that rows have holds at least one row. */
  lemma GroupsHits(rows: seq<Record>, urls: seq<string>)
    requires forall v :: v in urls ==> exists x :: x in rows && UrlOf(x) == v
    ensures forall i :: 0 <= i < |GroupsOver(rows, urls)| ==> GroupsOver(rows, urls)[i].hits >= 1
  {
    forall i | 0 <= i < |GroupsOver(rows, urls)| ensures GroupsOver(rows, urls)[i].hits >= 1 {
      GroupsNonEmpty(rows, urls, i);
    }
  }

  /** Over URLs that include every row's URL, every row's group is listed. */
  lemma GroupsCover(rows: seq<Record>, urls: seq<string>)
    requires forall x :: x in rows ==> UrlOf(x) in urls
    ensures forall x :: x in rows ==> GroupOf(rows, x.fields.url) in GroupsOver(rows, urls)
  {
    var r := GroupsOver(rows, urls);
    forall x | x in rows ensures GroupOf(rows, x.fields.url) in r {
      assert UrlOf(x) in urls;
      var i :| 0 <= i < |urls| && urls[i] == UrlOf(x);
      assert r[i] == GroupOf(rows, x.fields.url);
    }
  }

  /** `HAVING count > n`. */
  function HitsAbove(n: nat): UrlGroup -> bool {
    (g: UrlGroup) => g.hits > n
  }

  function AvgLcpKey(g: UrlGroup): real {
    g.avgLcp
  }

  function AvgServerKey(g: UrlGroup): real {
    g.avgServer
  }

  /** A group of the table is the group of its URL. */
  lemma GroupMember(rows: seq<Record>, g: UrlGroup)
    requires g in Groups(rows)
    ensures g == GroupOf(rows, g.url) && g.hits >= 1
  {
    var groups := Groups(rows);
    var k :| 0 <= k < |groups| && groups[k] == g;
  }

  /** `GROUP BY url HAVING count > n ORDER BY key DESC LIMIT limit`: at
      most `limit` distinct groups, each the group of its URL with more than
      n rows, highest key first. */
  function TopUrls(rows: seq<Record>, key: UrlGroup -> real, n: nat, limit: nat): (r: seq<UrlGroup>)
    ensures |r| == Min(limit, |Filter(Groups(rows), HitsAbove(n))|)
    ensures forall i, j :: 0 <= i < j < |r| ==> key(r[j]) <= key(r[i])
    ensures forall i :: 0 <= i < |r| ==> r[i].hits > n && r[i] == GroupOf(rows, r[i].url)
    ensures NoDup(r)
  {
    TopByNoDup(Groups(rows), HitsAbove(n), key, limit);
    TopGroups(rows, key, n, limit);
    TopBy(Groups(rows), HitsAbove(n), key, limit)
  }

  /** The groups `TopBy` keeps are groups of their URL with more than n
      rows. */
  lemma TopGroups(rows: seq<Record>, key: UrlGroup -> real, n: nat, limit: nat)
    ensures forall i :: 0 <= i < |TopBy(Groups(rows), HitsAbove(n), key, limit)| ==>
      TopBy(Groups(rows), HitsAbove(n), key, limit)[i].hits > n &&
      TopBy(Groups(rows), HitsAbove(n), key, limit)[i] == GroupOf(rows, TopBy(Groups(rows), HitsAbove(n), key, limit)[i].url)
  {
    var r := TopBy(Groups(rows), HitsAbove(n), key, limit);
    forall i | 0 <= i < |r| ensures r[i].hits > n && r[i] == GroupOf(rows, r[i].url) {
      assert HitsAbove(n)(r[i]);
      GroupMember(rows, r[i]);
    }
  }

  /** No URL is listed twice. */
  lemma TopUrlsDistinct(rows: seq<Record>, key: UrlGroup -> real, n: nat, limit: nat)
    ensures forall i, j :: 0 <= i < j < |TopUrls(rows, key, n, limit)| ==>
      TopUrls(rows, key, n, limit)[i].url != TopUrls(rows, key, n, limit)[j].url
  {
    var r := TopUrls(rows, key, n, limit);
    forall i, j | 0 <= i < j < |r| ensures r[i].url != r[j].url {
      assert r[i] != r[j];
    }
  }

  /** A URL with more than n rows that is left out ranks no higher than
      any URL listed. */
  lemma TopUrlsDominate(rows: seq<Record>, key: UrlGroup -> real, n: nat, limit: nat, x: Record)
    requires x in rows
    requires GroupOf(rows, x.fields.url).hits > n
    requires GroupOf(rows, x.fields.url) !in TopUrls(rows, key, n, limit)
    ensures forall i :: 0 <= i < |TopUrls(rows, key, n, limit)| ==>
      key(GroupOf(rows, x.fields.url)) <= key(TopUrls(rows, key, n, limit)[i])
  {
    var g := GroupOf(rows, x.fields.url);
    assert HitsAbove(n)(g);
    TopByDominates(Groups(rows), HitsAbove(n), key, limit, g);
  }

  /** When no more than `limit` URLs have more than n rows, every one of
      them is listed. */
  lemma TopUrlsComplete(rows: seq<Record>, key: UrlGroup -> real, n: nat, limit: nat, x: Record)
    requires x in rows
    requires GroupOf(rows, x.fields.url).hits > n
    requires |Filter(Groups(rows), HitsAbove(n))| <= limit
    ensures GroupOf(rows, x.fields.url) in TopUrls(rows, key, n, limit)
  {
    var g := GroupOf(rows, x.fields.url);
    assert HitsAbove(n)(g);
    TopByComplete(Groups(rows), HitsAbove(n), key, limit, g);
  }

  /** `HAVING count >= 1` removes no group. */
  lemma HavingOneKeepsAll(rows: seq<Record>)
    ensures Filter(Groups(rows), HitsAbove(0)) == Groups(rows)
  {
    FilterAll(Groups(rows), HitsAbove(0));
  }

  // -----------------------------------------------------------------------
  // get_stats

  datatype Summary = Summary(
    count: nat,
    avgTtfb: real,
    avgLcp: real,
    avgServer: real,
    avgLoad: real,
    p75Lcp: real,
    slowestLcp: seq<UrlGroup>,
    slowestServer: seq<UrlGroup>)

  /** `get_stats($args)` before rounding: the same filters as the listing,
      so `count` is the listing's `total`; with no matching row every figure
      is 0 and both rankings are empty; the rankings list at most five URLs,
      each with the figures of its own group, slowest first. */
  function GetStats(rows: seq<Record>, args: QueryArgs, sanitize: string -> string): (r: Summary)
    ensures r.count == QueryLogs(rows, args, sanitize).total
    ensures r.count == 0 ==> r == Summary(0, 0.0, 0.0, 0.0, 0.0, 0.0, [], [])
    ensures r.count > 0 ==> r.p75Lcp in Column(Matching(rows, CriteriaOf(args, sanitize)), MetricLcp)
    ensures |r.slowestLcp| <= 5 && |r.slowestServer| <= 5
    ensures forall i :: 0 <= i < |r.slowestLcp| ==>
      r.slowestLcp[i].hits >= 1 && r.slowestLcp[i] == GroupOf(Matching(rows, CriteriaOf(args, sanitize)), r.slowestLcp[i].url)
    ensures forall i :: 0 <= i < |r.slowestServer| ==>
      r.slowestServer[i].hits >= 1 && r.slowestServer[i] == GroupOf(Matching(rows, CriteriaOf(args, sanitize)), r.slowestServer[i].url)
    ensures forall i, j :: 0 <= i < j < |r.slowestLcp| ==> r.slowestLcp[j].avgLcp <= r.slowestLcp[i].avgLcp
    ensures forall i, j :: 0 <= i < j < |r.slowestServer| ==> r.slowestServer[j].avgServer <= r.slowestServer[i].avgServer
  {
    var m := Matching(rows, CriteriaOf(args, sanitize));
    if m == [] then
      assert Keys(m, UrlOf) == [];
      Summary(0, 0.0, 0.0, 0.0, 0.0, 0.0, [], [])
    else
      var slowestLcp := TopUrls(m, AvgLcpKey, 0, 5);
      var slowestServer := TopUrls(m, AvgServerKey, 0, 5);
      assert |slowestLcp| <= 5 && |slowestServer| <= 5;
      Summary(|m|,
              AvgNonZero(Column(m, MetricTtfb)),
              AvgNonZero(Column(m, MetricLcp)),
              AvgNonZero(Column(m, MetricServer)),
              AvgNonZero(Column(m, MetricLoad)),
              P75(Column(m, MetricLcp)),
              slowestLcp,
              slowestServer)
  }

  /** The figures of `get_stats` when some row matches: the four averages
      skip zeros (`AVG(NULLIF(col, 0))`), the percentile is the nearest-rank
      LCP of `P75Rank`, and each ranking lists the five slowest URLs, or
      every URL when fewer are there (`HAVING count >= 1` keeps them all). */
  lemma GetStatsFigures(rows: seq<Record>, args: QueryArgs, sanitize: string -> string)
    ensures var m := Matching(rows, CriteriaOf(args, sanitize));
            var r := GetStats(rows, args, sanitize);
      m != [] ==>
        && r.avgTtfb == AvgNonZero(Column(m, MetricTtfb))
        && r.avgLcp == AvgNonZero(Column(m, MetricLcp))
        && r.avgServer == AvgNonZero(Column(m, MetricServer))
        && r.avgLoad == AvgNonZero(Column(m, MetricLoad))
        && r.p75Lcp == P75(Column(m, MetricLcp))
        && r.slowestLcp == TopUrls(m, AvgLcpKey, 0, 5)
        && r.slowestServer == TopUrls(m, AvgServerKey, 0, 5)
        && |r.slowestLcp| == |r.slowestServer| == Min(5, |Groups(m)|)
  {
    var m := Matching(rows, CriteriaOf(args, sanitize));
    HavingOneKeepsAll(m);
  }

  // -----------------------------------------------------------------------
  // the summary report

  datatype DeviceCount = DeviceCount(device: string, hits: nat)

  /** `$row['device'] ?: 'unknown'`. */
  function DeviceLabel(d: string): (r: string)
    ensures Falsy(d) ==> r == "unknown"
    ensures !Falsy(d) ==> r == d
  {
    if Falsy(d) then "unknown" else d
  }

  function UsageOver(rows: seq<Record>, ds: seq<string>): (r: seq<DeviceCount>)
    ensures |r| == |ds|
    ensures forall i :: 0 <= i < |ds| ==> r[i] == DeviceCount(DeviceLabel(ds[i]), |With(rows, DeviceOf, ds[i])|)
  {
    if ds == [] then []
    else [DeviceCount(DeviceLabel(ds[0]), |With(rows, DeviceOf, ds[0])|)] + UsageOver(rows, ds[1..])
  }

  function SumHits(cs: seq<DeviceCount>): nat {
    if cs == [] then 0 else cs[0].hits + SumHits(cs[1..])
  }

  lemma {:induction false} UsageOverTotal(rows: seq<Record>, ds: seq<string>)
    ensures SumHits(UsageOver(rows, ds)) == TotalOver(rows, DeviceOf, ds)
  {
    if ds != [] {
      UsageOverTotal(rows, ds[1..]);
    }
  }

  /** `SELECT device, COUNT(*) ... GROUP BY device`, each device printed
      as `DeviceLabel`: one entry per distinct device of the table, with
      the number of rows that have it. */
  function DeviceUsage(rows: seq<Record>): (r: seq<DeviceCount>)
    ensures |r| == |Keys(rows, DeviceOf)|
    ensures forall i :: 0 <= i < |r| ==>
      r[i] == DeviceCount(DeviceLabel(Keys(rows, DeviceOf)[i]), |With(rows, DeviceOf, Keys(rows, DeviceOf)[i])|)
  {
    UsageOver(rows, Keys(rows, DeviceOf))
  }

  /** Every row is counted under exactly one device. */
  lemma DeviceUsageTotal(rows: seq<Record>)
    ensures SumHits(DeviceUsage(rows)) == |rows|
  {
    UsageOverTotal(rows, Keys(rows, DeviceOf));
    GroupsPartition(rows, DeviceOf);
  }

  datatype ReportFigures = ReportFigures(
    avgLcp: real,
    avgTtfb: real,
    avgTotal: real,
    topPages: seq<UrlGroup>,
    devices: seq<DeviceCount>)

  /** What the summary report states about the whole table: plain averages
      (`AVG(col)`, zeros included, 0 on an empty table), the ten worst pages
      by LCP among those seen at least twice (all of them when fewer), and a
      device breakdown that accounts for every row. */
  function ReportOf(rows: seq<Record>): (r: ReportFigures)
    ensures rows == [] ==> r.avgLcp == 0.0 && r.avgTtfb == 0.0 && r.avgTotal == 0.0
    ensures r.avgLcp == Mean(Column(rows, MetricLcp))
    ensures r.avgTtfb == Mean(Column(rows, MetricTtfb))
    ensures r.avgTotal == Mean(Column(rows, MetricLoad))
    ensures r.topPages == TopUrls(rows, AvgLcpKey, 1, 10)
    ensures |r.topPages| == Min(10, |Filter(Groups(rows), HitsAbove(1))|)
    ensures r.devices == DeviceUsage(rows)
    ensures forall i :: 0 <= i < |r.topPages| ==>
      r.topPages[i].hits >= 2 && r.topPages[i] == GroupOf(rows, r.topPages[i].url)
    ensures forall i, j :: 0 <= i < j < |r.topPages| ==> r.topPages[j].avgLcp <= r.topPages[i].avgLcp
    ensures SumHits(r.devices) == |rows|
  {
    DeviceUsageTotal(rows);
    ReportFigures(Mean(Column(rows, MetricLcp)), Mean(Column(rows, MetricTtfb)), Mean(Column(rows, MetricLoad)),
                  TopUrls(rows, AvgLcpKey, 1, 10), DeviceUsage(rows))
  }
}
