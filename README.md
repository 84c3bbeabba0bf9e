# True RUM Monitor — a Dafny model

True RUM Monitor is a WordPress plugin for real-user monitoring. It has two halves:

- A script on each public page measures the visit: time to first byte, Largest Contentful Paint, full load time, the server's render time, the device and the connection. When the page is hidden, the script posts these figures to a REST endpoint.
- The endpoint checks a nonce and decides whether the visit is tracked. Tracking depends on the visitor's roles, a path blacklist and a sampling rate. A tracked visit goes into a capped, time-limited log table.

Administrators use three more endpoints: a paged, filtered listing of the table, aggregate statistics, and a manual summary report. A cron job mails that report on a schedule and sends a TTFB alert when recent requests keep breaching a threshold.

The model covers the core of that system, one module per source file:

| module | file | models |
|---|---|---|
| `Php` | php.dfy | the PHP built-ins the core relies on: `absint`, `empty()` on strings, `strtolower`, `trim`, `strpos`, `explode`/`implode`, `str_replace` |
| `Lists` | lists.dfy | `array_filter`, SQL `ORDER BY` (a sort on a real-valued key) and the `ORDER BY … LIMIT n` ranking |
| `LogStore` | log_store.dfy | `TRM_DB`: row sanitising; the table as a class with `insert`, `enforce_limit` and `purge_older_than`; `query_logs` |
| `Stats` | stats.dfy | `TRM_DB::get_stats`, and the figures of the summary report |
| `Config` | settings.dfy | `TRM_Settings`: defaults, `all()`, `update()` |
| `Tracking` | tracking.dfy | `TRM_Plugin::should_track_request` and `get_server_time` |
| `Reports` | reports.dfy | `TRM_Reports`: cron reconciliation, `send_report`, `check_alerts`, `run_cron` |
| `Gateway` | gateway.dfy | `TRM_REST`: the token check, `collect`, `get_filter_params`, the `/logs` defaults, `send_report`, `get_user_role` |
| `Collector` | collector.dfy | `trm-collector.js`: start-up guards, session id, LCP observer, timings, device and connection labels, stale server time, transport |

Each piece of state the source changes in place is a class with fields and `modifies` clauses:

- `LogStore.Store`: the table, and the next auto-increment id.
- `Config.SettingsStore`: the stored option.
- `Reports.Reporter`: the `trm_last_interval` and `trm_last_alert_ts` options, the next cron event, and the mails handed to `wp_mail`.
- `Collector.SessionStorage`: `sessionStorage`.
- `Collector.LcpObserver`: the `lcpTime` variable.

Each such method states its new state in terms of a pure function. The properties are proved about those functions.

WordPress and browser services are parameters:

- functions: `sanitize_text_field`, `sanitize_email`, `is_email`, `wp_verify_nonce`, `json_decode`, `intval`;
- the clock;
- the `wp_rand(0, 1000)` draw;
- whether the database accepted an insert;
- whether `wp_mail` delivered;
- what the browser's performance, navigator and storage APIs report.

Where the code departs from its comments or its documentation, the model follows the code:

- The device labels are `mob` and `desk`.
- Both "slowest URL" rankings keep every URL (`HAVING count >= 1`), although a comment asks for two samples.
- All figures in the summary report include zero values. The dashboard averages skip them (`NULLIF`).
- The blacklist text is split on the two-character marker backslash-n, and backslash-r is removed. These are single-quoted PHP literals, so a blacklist typed one path per line stays one entry. `Config.LineBreaksDoNotSplit` states this.
- `collect` answers 201 even when the insert fails.

## Model

| member | source | states |
|---|---|---|
| Php.Absint | includes/class-trm-db.php:94 | `absint` is the magnitude: a natural number equal to x or to −x |
| Php.Falsy | includes/class-trm-db.php:203 | PHP `empty()` on a string: true only for '' and '0', so a falsy string has at most one character |
| Php.Lower | includes/class-trm-db.php:142 | `strtolower` keeps the length and lower-cases each character, ASCII letters only |
| Php.LowerIsAsc | includes/class-trm-db.php:142 | an `order` value lower-cases to "asc" exactly when its three characters are a, s, c in any case |
| Php.TrimLeft | includes/class-trm-settings.php:91 | the left trim is a suffix of the input; it starts with a non-space, and everything cut off is whitespace |
| Php.TrimRight | includes/class-trm-settings.php:91 | the right trim is a prefix of the input; it ends with a non-space, and everything cut off is whitespace |
| Php.Trim | includes/class-trm-settings.php:91 | `trim` never lengthens, and a non-empty result has non-whitespace at both ends |
| Php.TrimShape | includes/class-trm-settings.php:91 | `trim` returns a contiguous slice of its input that is empty or has non-whitespace at both ends |
| Php.TrimIdempotent | includes/class-trm-settings.php:97 | trimming twice is trimming once |
| Php.IndexFrom | includes/class-trm-settings.php:90 | `strpos` from an offset finds the first occurrence at or after it, and none is skipped |
| Php.Explode | includes/class-trm-settings.php:90 | `explode` always yields at least one piece; Php.ExplodeJoin gives its round trip |
| Php.ExplodeFrom | includes/class-trm-settings.php:90 | exploding always yields at least one piece |
| Php.ExplodeFromJoin | includes/class-trm-settings.php:90 | joining the pieces of any suffix gives that suffix back, and no piece holds the separator |
| Php.JoinLength | includes/class-trm-settings.php:90 | `implode` of some pieces is as long as the pieces together plus one separator between each two; Php.ExplodeJoin gives its round trip with `explode` |
| Php.ExplodeJoin | includes/class-trm-settings.php:90 | `implode(sep, explode(sep, s)) == s`, and no piece holds the separator |
| Php.ExplodeAbsent | includes/class-trm-settings.php:96 | a string without the separator explodes to itself alone |
| Php.RemoveAll | includes/class-trm-settings.php:96 | `str_replace(pat, '', s)` equals imploding the pieces of `explode(pat, s)` with '' as glue, and never lengthens the string |
| Php.RemoveSkip | includes/class-trm-settings.php:96 | a stretch holding no occurrence of the pattern is copied through unchanged |
| Php.RemoveFromJoin | includes/class-trm-settings.php:96 | from any offset on, removing the pattern equals gluing the exploded pieces with '' |
| Php.RemoveAllAbsent | includes/class-trm-settings.php:96 | removing a pattern that does not occur changes nothing |
| Lists.Filter | includes/class-trm-settings.php:92 | `array_filter` keeps exactly the elements that pass, and no others |
| Lists.FilterConcat | includes/class-trm-settings.php:92 | filtering distributes over concatenation |
| Lists.FilterIdempotent | includes/class-trm-db.php:126 | filtering a second time with the same test removes nothing more |
| Lists.FilterSplit | includes/class-trm-db.php:126 | a test and its negation split a list into two parts whose sizes add up to the whole |
| Lists.FilterCountPermutation | includes/class-trm-db.php:175-176 | the number of rows passing a filter does not depend on their order |
| Lists.InsertSorted | includes/class-trm-db.php:178 | inserting into a sorted list keeps it sorted and adds exactly that element |
| Lists.Sort | includes/class-trm-db.php:178 | `ORDER BY key ASC/DESC` returns a sorted permutation of its input |
| Lists.Take | includes/class-trm-db.php:261 | `LIMIT n` is the prefix of length min(n, size) |
| Lists.TakeSubMultiset | includes/class-trm-reports.php:170 | `LIMIT n` keeps no row more often than the table holds it |
| Lists.NoDupCounts | includes/class-trm-db.php:261 | a list has no repeats exactly when every element occurs at most once in its multiset |
| Lists.TopBy | includes/class-trm-db.php:261 | `HAVING … ORDER BY key DESC LIMIT n` lists exactly min(n, number qualifying) elements, each from the input and passing the test, worst first |
| Lists.TopByNoDup | includes/class-trm-db.php:261 | ranking a list without repeats lists nothing twice |
| Lists.TopByDominates | includes/class-trm-db.php:261 | a qualifying element that is not listed ranks no higher than any listed one |
| Lists.TopByComplete | includes/class-trm-db.php:261 | when at most n elements qualify, every one of them is listed |
| LogStore.SanitizeRow | includes/class-trm-db.php:279-297 | each unset key takes its default: 0 for numbers, '' for text, the current time for `event_time`; each set text key is sanitized and each set number kept; `memory_peak` is passed through `absint`; meta is passed on as given |
| LogStore.SanitizeKeepsCleanRow | includes/class-trm-db.php:279-297 | a row whose text is already sanitized is stored exactly as given |
| LogStore.IdSetSize | includes/class-trm-db.php:54-84 | auto-increment ids are distinct, so a table of n rows holds n ids |
| LogStore.FilterIdsIncreasing | includes/class-trm-db.php:108 | deleting rows keeps the ids of the remaining rows increasing |
| LogStore.WithoutCompose | includes/class-trm-db.php:108 | deleting one id set and then another is deleting their union |
| LogStore.WithoutSize | includes/class-trm-db.php:108 | deleting an id set leaves as many rows as the table has ids outside that set |
| LogStore.DeleteCount | includes/class-trm-db.php:108 | deleting k ids that are all present removes exactly k rows |
| LogStore.Earliest | includes/class-trm-db.php:105 | finds a row whose `event_time` is no later than any other's |
| LogStore.OldestIds | includes/class-trm-db.php:104-105 | `ORDER BY event_time ASC LIMIT offset` picks exactly `offset` ids of the table, none newer than any row left |
| LogStore.EvictionSize | includes/class-trm-db.php:91-110 | after the cap the table holds min(total, limit) rows (all rows when the limit is below 1), a sub-sequence of the old rows with increasing ids |
| LogStore.EvictedAreOldest | includes/class-trm-db.php:105-108 | no evicted row is newer than a kept row |
| LogStore.EvictionIdempotent | includes/class-trm-db.php:99-102 | a second cap with the same limit deletes nothing |
| LogStore.Purged | includes/class-trm-db.php:117-127 | no-op for days below 1; otherwise exactly the rows older than now − days·86400 go |
| LogStore.PurgeIdempotent | includes/class-trm-db.php:125-126 | purging twice with the same cutoff is purging once |
| LogStore.PurgeCount | includes/class-trm-db.php:126 | a purge deletes exactly the number of rows older than the cutoff |
| LogStore.Store.constructor | includes/class-trm-db.php:17 | a new table is empty and its next id is 1 |
| LogStore.Store.Insert | includes/class-trm-db.php:54-84 | an accepted row is appended, sanitized, under the next id, which is returned; a refused insert returns false and changes nothing |
| LogStore.Store.EnforceLimit | includes/class-trm-db.php:91-110 | the new table is the old one minus `total − absint(limit)` of its oldest rows, or unchanged when the limit is below 1 or not exceeded |
| LogStore.Store.PurgeOlderThan | includes/class-trm-db.php:117-127 | the new table is `Purged(old table, absint(days), now)` |
| LogStore.PurgeCutoff | includes/class-trm-db.php:125 | `strtotime('-N days')`: the cutoff lies exactly N days before now |
| LogStore.ParseOrderKey | includes/class-trm-db.php:144-147 | only event_time, ttfb, lcp and total_load are allowed sort columns |
| LogStore.PageOf | includes/class-trm-db.php:138 | the page is at least 1; 1 when absent or 0; a positive page is kept and a negative one becomes its magnitude |
| LogStore.PerPageOf | includes/class-trm-db.php:139 | per_page is between 1 and 200; 50 when absent; 1 for 0; an in-range value is kept, a negative one in range becomes its magnitude, a larger magnitude becomes 200 |
| LogStore.OrderByOf | includes/class-trm-db.php:141-147 | the sanitized `order_by` if it is allowed, `event_time` otherwise |
| LogStore.PlanOf | includes/class-trm-db.php:138-147 | the page, per-page, offset = (page − 1)·per_page, column and direction; ascending exactly when `order` lower-cases to "asc" |
| LogStore.Criterion | includes/class-trm-db.php:153-168 | a filter is active exactly when its argument is set and not falsy, and then compares with the sanitized argument |
| LogStore.CriteriaOf | includes/class-trm-db.php:149-168 | each of session_id, url, device and net is active exactly when set and not empty, with its sanitized value; the same guards as includes/class-trm-db.php:203-218 |
| LogStore.Matching | includes/class-trm-db.php:149-173 | exactly the rows that pass every active filter: equal session, device and net, and url as a substring |
| LogStore.NoFilterMatchesAll | includes/class-trm-db.php:170-173 | with no active filter every row matches |
| LogStore.Project | includes/class-trm-db.php:178 | the listing's columns of each row, in order (no meta) |
| LogStore.Window | includes/class-trm-db.php:178-183 | `LIMIT n OFFSET k` is the slice starting at k with min(n, size − k) elements |
| LogStore.WindowOrdered | includes/class-trm-db.php:178 | any window of a sorted list is sorted |
| LogStore.PageSlice | includes/class-trm-db.php:178-183 | the page holds matching rows in the requested order, and its length is that of the window |
| LogStore.ProjectPage | includes/class-trm-db.php:178-183 | each projected entry comes from a matching row, and the projection keeps the order |
| LogStore.QueryLogs | includes/class-trm-db.php:135-189 | `total` counts the matching rows; `data` has the window's length, comes from matching rows and is in the requested order |
| LogStore.QueryLogsIsWindow | includes/class-trm-db.php:178-183 | `data` is exactly the window of some sorted permutation of the matching rows |
| LogStore.TotalIgnoresPaging | includes/class-trm-db.php:175-176 | `total` depends on neither paging nor sorting |
| Stats.Column | includes/class-trm-db.php:226-232 | one metric of each selected row, in row order |
| Stats.SumConcat | includes/class-trm-db.php:226-232 | sums add up over concatenation |
| Stats.SumBounds | includes/class-trm-db.php:226-232 | a sum of n values within bounds lies between n·lo and n·hi |
| Stats.Mean | includes/class-trm-reports.php:122-126 | `AVG` including zeros: the mean times the count is the sum; 0 for an empty table |
| Stats.ZeroCounted | includes/class-trm-reports.php:122 | a zero sample lowers a positive plain average, where the dashboard average ignores it |
| Stats.MeanBetween | includes/class-trm-reports.php:122-126 | an average lies between the smallest and the largest possible value |
| Stats.AvgNonZero | includes/class-trm-db.php:228-231 | `AVG(NULLIF(x, 0))` is 0 when every value is 0 |
| Stats.DropZero | includes/class-trm-db.php:228-231 | `NULLIF` discards a zero wherever it stands |
| Stats.ZeroIgnored | includes/class-trm-db.php:228-231 | adding a zero sample does not move the dashboard average |
| Stats.AvgNonZeroBetween | includes/class-trm-db.php:228-231 | the dashboard average lies between bounds on the non-zero samples |
| Stats.P75 | includes/class-trm-db.php:242-249 | 0 without rows; otherwise one of the LCP values |
| Stats.P75Index | includes/class-trm-db.php:244 | `floor(count·0.75)`: the largest r with 4r ≤ 3·count, below count when count is positive |
| Stats.SortedBelow | includes/class-trm-db.php:245 | in a sorted list, at most m values lie below the m-th |
| Stats.SortedAtMost | includes/class-trm-db.php:245 | in a sorted list, more than m values are at most the m-th |
| Stats.P75Rank | includes/class-trm-db.php:244-245 | the value at offset floor(0.75·count) has at most that many values below it and more than that many at or below it |
| Stats.Keys | includes/class-trm-db.php:261 | `GROUP BY` keys: one per distinct value, each found in some row, and no repeats |
| Stats.WithCons | includes/class-trm-db.php:261 | a group's size counts the head row when the head has that key |
| Stats.TotalOverCons | includes/class-trm-db.php:261 | the group sizes over distinct keys count the head row once when its key is listed |
| Stats.AbsentGroupEmpty | includes/class-trm-db.php:261 | a key no row has names an empty group |
| Stats.InOwnGroup | includes/class-trm-db.php:261 | every row lies in the group of its own key |
| Stats.GroupsPartition | includes/class-trm-reports.php:130 | the group sizes add up to the number of rows |
| Stats.GroupsOver | includes/class-trm-db.php:261 | the groups of the listed URLs, in that order |
| Stats.GroupOf | includes/class-trm-db.php:261-267 | one `GROUP BY url` row: the URL, its number of rows, and the plain averages of LCP, render time and TTFB over them; also includes/class-trm-reports.php:128 |
| Stats.GroupsNonEmpty | includes/class-trm-db.php:261 | the group of a URL that occurs holds at least one row |
| Stats.GroupsDistinct | includes/class-trm-db.php:261 | groups of distinct URLs are distinct |
| Stats.Groups | includes/class-trm-db.php:261 | one non-empty group per URL, with its own figures, no repeats, covering every row |
| Stats.GroupsHits | includes/class-trm-db.php:261 | each group over URLs that occur holds at least one row |
| Stats.GroupsCover | includes/class-trm-db.php:261 | every row's group is among the groups of the table's URLs |
| Stats.GroupMember | includes/class-trm-db.php:261 | a listed group is the group of its URL and is not empty |
| Stats.TopUrls | includes/class-trm-db.php:261-268 | exactly min(`limit`, qualifying) URL groups with more than n hits, each its URL's own group, slowest first, no repeats |
| Stats.TopGroups | includes/class-trm-db.php:261 | each ranked group is its URL's own group and clears the HAVING bound |
| Stats.TopUrlsDistinct | includes/class-trm-db.php:261 | no URL is listed twice |
| Stats.TopUrlsDominate | includes/class-trm-db.php:261 | a qualifying URL that is left out is no slower than any listed one |
| Stats.TopUrlsComplete | includes/class-trm-db.php:261 | with at most `limit` qualifying URLs, every one is listed |
| Stats.HavingOneKeepsAll | includes/class-trm-db.php:261 | `HAVING count >= 1` keeps every group |
| Stats.GetStats | includes/class-trm-db.php:197-271 | `count` equals the listing's `total` for the same filters; with no match everything is 0 or empty; p75 is a matching LCP; both rankings have at most 5 URL groups of the matching rows, slowest first |
| Stats.GetStatsFigures | includes/class-trm-db.php:226-268 | with matching rows: each average is `AVG(NULLIF(col, 0))` over them, p75 is the nearest-rank LCP, and the two rankings are the five URL groups with the highest average LCP and render time, all groups when fewer |
| Stats.UsageOver | includes/class-trm-reports.php:130 | one entry per listed device, with its printed label and the number of rows that have it |
| Stats.DeviceLabel | includes/class-trm-reports.php:149 | `$row['device'] ?: 'unknown'`: a falsy device prints as 'unknown', any other as itself |
| Stats.DeviceUsage | includes/class-trm-reports.php:130 | `GROUP BY device`: one entry per distinct device of the table, labelled, with the number of rows that have that device |
| Stats.UsageOverTotal | includes/class-trm-reports.php:130 | the listed device counts add up to the rows with those devices |
| Stats.DeviceUsageTotal | includes/class-trm-reports.php:130 | the device breakdown counts every row exactly once |
| Stats.ReportOf | includes/class-trm-reports.php:122-130 | the three plain averages of the whole table, 0 on an empty one; exactly min(10, pages with 2 or more hits) pages, worst LCP first, as `TopUrls` ranks them; the device breakdown, summing to the table size |
| Config.DefaultsValid | includes/class-trm-settings.php:26-37 | the defaults lie in the ranges `update` enforces |
| Config.All | includes/class-trm-settings.php:44-53 | each stored key overrides its default; an empty recipient becomes the admin email |
| Config.Persist | includes/class-trm-settings.php:124-126 | the array `update_option` saves holds every key, each with the setting's value |
| Config.ReadBack | includes/class-trm-settings.php:44-53 | the complete array `update` saves reads back unchanged, except an empty recipient |
| Config.FreshSiteUsesDefaults | includes/class-trm-settings.php:45-50 | with nothing stored, `all()` is the defaults with the admin email as recipient |
| Config.LineBreaksDoNotSplit | includes/class-trm-settings.php:96 | a blacklist text without the backslash-r and backslash-n markers becomes a single entry, whatever line breaks it holds |
| Config.CleanEach | includes/class-trm-settings.php:91 | each entry is trimmed and then sanitized, one for one |
| Config.CleanList | includes/class-trm-settings.php:91-92 | the kept entries are the cleaned entries that are not falsy, in their order (`array_filter` of the cleaned list), each cleaned entry that is not falsy among them |
| Config.CleanListKeepsClean | includes/class-trm-settings.php:91-92 | an already clean list is kept as it is |
| Config.ClampCount | includes/class-trm-settings.php:77 | `max(lo, absint(v))` |
| Config.ClampRate | includes/class-trm-settings.php:84-87 | the rate is clamped into [0, 1] |
| Config.ClampThreshold | includes/class-trm-settings.php:105-107 | a negative threshold becomes 0; otherwise it is kept |
| Config.CountField | includes/class-trm-settings.php:76-82 | an unset field is kept; a set one is clamped |
| Config.RateField | includes/class-trm-settings.php:84-87 | an unset rate is kept; a set one is clamped |
| Config.ThresholdField | includes/class-trm-settings.php:105-107 | an unset threshold is kept; a set one is clamped at 0 |
| Config.RolesField | includes/class-trm-settings.php:89-93 | an unset role list is kept; a set one is split on commas if it is text, then cleaned |
| Config.BlacklistField | includes/class-trm-settings.php:95-99 | an unset blacklist is kept; a set one is split by its markers if it is text, then cleaned |
| Config.ScheduleField | includes/class-trm-settings.php:101-103 | only 'daily' and 'weekly' replace the schedule |
| Config.RecipientField | includes/class-trm-settings.php:117-122 | the sanitized address replaces the recipient only if it is an email |
| Config.Apply | includes/class-trm-settings.php:76-122 | each submitted field is clamped or validated under its own guard; unset fields keep their current value |
| Config.ApplyKeepsValid | includes/class-trm-settings.php:76-122 | valid settings stay valid whatever is submitted |
| Config.ApplyIdempotent | includes/class-trm-settings.php:76-122 | submitting the same form twice saves what submitting it once saves |
| Config.ResaveUnchanged | includes/class-trm-settings.php:73-127 | saving valid, clean settings as they are returns exactly them |
| Config.SettingsStore.constructor | includes/class-trm-settings.php:44-45 | the store holds the given option and admin email |
| Config.SettingsStore.Update | includes/class-trm-settings.php:73-127 | returns `Apply(all(), data)` and persists it, so `all()` then reads it back |
| Config.SavedRecipientNeverEmpty | includes/class-trm-settings.php:48-50 | once any settings are saved, the recipient is never empty |
| Tracking.Intersects | includes/class-trm-plugin.php:145 | `array_intersect` is non-empty exactly when some excluded role is one of the user's |
| Tracking.PrefixBlocks | includes/class-trm-plugin.php:150-156 | the loop rejects exactly when some truthy blacklist entry is a prefix of the path |
| Tracking.ShouldTrack | includes/class-trm-plugin.php:140-164 | a visit is tracked exactly when no role check, blacklist prefix or sampling draw rejects it |
| Tracking.SamplingRule | includes/class-trm-plugin.php:158-161 | a rate of at least 1 keeps every draw; below 1, a draw is dropped exactly when draw/1000 exceeds the rate; a higher rate keeps more |
| Tracking.FalsyPrefixesNeverBlock | includes/class-trm-plugin.php:153 | entries '' and '0' never block |
| Tracking.TrackingIgnoresOtherSettings | includes/class-trm-plugin.php:140-164 | only the roles, the blacklist and the rate decide |
| Tracking.DefaultsTracking | includes/class-trm-plugin.php:140-164 | under the defaults, visitors who are not logged in are tracked and administrators are not |
| Tracking.ServerStart | includes/class-trm-plugin.php:192-200 | REQUEST_TIME_FLOAT, else a non-empty `$timestart`, else now |
| Tracking.ServerTime | includes/class-trm-plugin.php:188-205 | the elapsed time since the baseline, floored at 0 |
| Tracking.ServerTimeCases | includes/class-trm-plugin.php:188-205 | 0 without a baseline; exactly the time elapsed since a past REQUEST_TIME_FLOAT |
| Reports.IntervalSeconds | includes/class-trm-reports.php:94-97 | a day exactly for 'daily'; otherwise a week |
| Reports.Reconcile | includes/class-trm-reports.php:71-87 | a schedule already at the interval is kept; otherwise a new event a minute from now, with the interval recorded |
| Reports.ReconcileIdempotent | includes/class-trm-reports.php:71-87 | a second reconciliation at the same interval changes nothing |
| Reports.ScheduleChangeReschedules | includes/class-trm-reports.php:74-82 | a changed schedule always replaces the pending event |
| Reports.NewestFirst | includes/class-trm-reports.php:170 | `ORDER BY event_time DESC LIMIT n`: min(n, size) table rows, a sub-multiset of the table, newest first |
| Reports.NewestDominate | includes/class-trm-reports.php:170 | a row left out is no newer than any fetched row |
| Reports.Fetched | includes/class-trm-reports.php:170 | the TTFB of each of the max(20, `alert_consecutive`) newest rows, newest first, or of every row of a smaller table |
| Reports.BreachStreak | includes/class-trm-reports.php:172-179 | the length of the longest prefix above the threshold |
| Reports.CountStreak | includes/class-trm-reports.php:172-179 | the loop computes exactly that streak |
| Reports.StreakReaches | includes/class-trm-reports.php:172-183 | the streak reaches c exactly when the first c fetched values all exceed the threshold |
| Reports.AlertDue | includes/class-trm-reports.php:166-189 | due exactly when the threshold is positive, a recipient is set, the newest `alert_consecutive` rows all breached the threshold and the cooldown has passed |
| Reports.AlertMails | includes/class-trm-reports.php:158-196 | one alert to the recipient exactly when alerting is on, the streak reaches `alert_consecutive` and the cooldown has passed |
| Reports.AlertsOff | includes/class-trm-reports.php:166-168 | with no positive threshold or no recipient, no alert is sent |
| Reports.StreakBound | includes/class-trm-reports.php:170-179 | the streak is at most max(20, consecutive) and at most the table size |
| Reports.AlertMeansRecentBreaches | includes/class-trm-reports.php:170-183 | an alert means the newest `alert_consecutive` rows all breached the threshold |
| Reports.Cooldown | includes/class-trm-reports.php:185-189 | no second alert within `alert_min_interval` |
| Reports.ReportMails | includes/class-trm-reports.php:112-153 | no mail when the recipient is empty or not an email; otherwise the report on the whole table |
| Reports.Reporter.constructor | includes/class-trm-reports.php:73 | the options are absent (read as 0), nothing is scheduled and nothing is sent |
| Reports.Reporter.EnsureScheduled | includes/class-trm-reports.php:71-87 | the schedule becomes `Reconcile(old schedule, interval, now)`; nothing else changes |
| Reports.Reporter.SendReport | includes/class-trm-reports.php:112-153 | the report mail, if any, is appended; the result is true exactly when a mail was due and delivered |
| Reports.Reporter.CheckAlerts | includes/class-trm-reports.php:158-196 | the alert, if due, is appended and the last-alert time set to now; otherwise nothing changes |
| Reports.Reporter.RunCron | includes/class-trm-reports.php:102-105 | the report is sent before the alert is checked |
| Gateway.VerifyCustomNonce | includes/class-trm-rest.php:111-125 | the header wins over `trm_token`; no token or a falsy one fails; otherwise `wp_verify_nonce` decides |
| Gateway.HeaderOverridesToken | includes/class-trm-rest.php:114-118 | once the header is set, the query parameter is never read |
| Gateway.GetUserRole | includes/class-trm-rest.php:248-255 | '' when logged out or without roles; otherwise the sanitized first role |
| Gateway.NormaliseRow | includes/class-trm-rest.php:155-169 | every key is set: a set number is kept, `memory_peak` through `absint`, a set text sanitized, a missing value defaulted; the current user's role whatever the payload says, and meta "[]" |
| Gateway.StoredRow | includes/class-trm-rest.php:155-171 | what `insert` stores for a payload: its values, text sanitized twice, the current user's role |
| Gateway.Gate | includes/class-trm-rest.php:135-151 | 403 for a bad token; 202 'skipped' for a visit that is not tracked; 400 `trm_empty` for an empty body; 400 `trm_json_error` for a body that does not decode to an array; passes exactly when all four checks pass |
| Gateway.RowOf | includes/class-trm-rest.php:155-169 | the row `collect` builds has every key set, the logged-in role and an empty meta |
| Gateway.TokenCheckedFirst | includes/class-trm-rest.php:135-137 | a bad token gets 403 whoever visits and whatever the body |
| Gateway.EligibilityBeforeBody | includes/class-trm-rest.php:139-141 | with a good token, an ineligible visit is skipped before the body is read |
| Gateway.Inserted | includes/class-trm-rest.php:171 | an accepted insert appends one row under the next id; a refused one changes nothing |
| Gateway.Collect | includes/class-trm-rest.php:133-176 | an early return leaves the table and the next id alone; otherwise insert, purge, cap, in that order, then 201, with the next id advanced exactly when the insert was accepted |
| Gateway.GetFilterParams | includes/class-trm-rest.php:224-241 | exactly the set parameters among the eight, with their values, minus an empty url, device or net |
| Gateway.KeptIsUnset | includes/class-trm-rest.php:236-238 | the three `unset`s remove exactly the empty url, device and net |
| Gateway.Listed | includes/class-trm-rest.php:227 | every filter key is among the eight asked for |
| Gateway.KeptParamsShape | includes/class-trm-rest.php:228-238 | only set parameters are kept, with their values, and no kept url, device or net is empty |
| Gateway.Param | includes/class-trm-rest.php:229-231 | a parameter is present exactly when it was kept |
| Gateway.KeptKey | includes/class-trm-rest.php:228-238 | per key, the kept value is the request's value, except that an empty url, device or net is dropped |
| Gateway.KeptArgs | includes/class-trm-rest.php:236-238 | the kept arguments equal the selected ones, with an empty url, device or net made absent |
| Gateway.EmptyIsAbsent | includes/class-trm-db.php:153-168 | an empty filter and an absent one give the same criteria and paging |
| Gateway.EmptyFiltersIgnored | includes/class-trm-rest.php:236-238 | the `unset`s change neither the listing nor the statistics |
| Gateway.SameQuery | includes/class-trm-rest.php:184-202 | `logs` and `stats` read their arguments only through the filters and the paging plan |
| Gateway.MergedParam | includes/class-trm-rest.php:66-72 | with the route defaults merged in, a set parameter keeps its value and an unset one takes its default |
| Gateway.DefaultLookup | includes/class-trm-rest.php:66-72 | the merged map holds the request's value, or else the route's default |
| Gateway.WithLogDefaults | includes/class-trm-rest.php:66-72 | request parameters are kept; page, per_page, order and order_by are always present, '1', '50', 'desc' and 'event_time' when not sent; no other key is added |
| Gateway.FilledArgs | includes/class-trm-rest.php:66-72 | default-filled parameters give arguments with page 1, per_page 50, 'desc' and event_time filled in |
| Gateway.DefaultArgs | includes/class-trm-rest.php:66-72 | the `/logs` defaults fill only page, per_page, order and order_by |
| Gateway.DefaultsSamePlan | includes/class-trm-db.php:138-147 | those defaults are what `query_logs` assumes anyway |
| Gateway.LogDefaultsAgree | includes/class-trm-rest.php:184-189 | `/logs` returns the same page with or without the route's defaults |
| Gateway.SendReportResponse | includes/class-trm-rest.php:210-216 | 200 'sent' exactly when the report went out; otherwise 500 'failed' with the message |
| Gateway.SendReportEndpoint | includes/class-trm-rest.php:210-216 | runs `send_report` and answers from its result |
| Collector.SessionKey | assets/js/trm-collector.js:13 | the configured key if truthy, else 'trm_session_id' |
| Collector.Starts | assets/js/trm-collector.js:4-11 | the script runs on only when `sendBeacon` exists and both the endpoint and the nonce are set |
| Collector.Start | assets/js/trm-collector.js:4-14 | an early return touches no storage and yields no session; otherwise `ensureSession` runs |
| Collector.SessionOf | assets/js/trm-collector.js:30-40 | a stored truthy id is kept; otherwise the new id is stored and returned; if storage throws, the new id is returned and nothing is stored |
| Collector.SessionStable | assets/js/trm-collector.js:30-40 | once an id is stored, later page views report that same id |
| Collector.SessionStorage.constructor | assets/js/trm-collector.js:30-40 | the storage holds the given items |
| Collector.SessionStorage.EnsureSession | assets/js/trm-collector.js:30-40 | the returned id and the new storage are `SessionOf(old storage, …)` |
| Collector.EntrySeconds | assets/js/trm-collector.js:22 | the first non-zero of renderTime, loadTime, startTime, in seconds |
| Collector.LastEntryWins | assets/js/trm-collector.js:18-24 | after any batches, `lcpTime` is the value of the last entry reported, or unset |
| Collector.PayloadLcp | assets/js/trm-collector.js:101 | 0 when no LCP was observed |
| Collector.LcpObserver.constructor | assets/js/trm-collector.js:16 | `lcpTime` starts unset |
| Collector.LcpObserver.OnEntries | assets/js/trm-collector.js:18-24 | the last entry of a non-empty batch overwrites `lcpTime`; an empty batch changes nothing |
| Collector.GetNavigationTimings | assets/js/trm-collector.js:49-62 | ttfb and load in seconds from requestStart, from the navigation entry, else from the legacy timing |
| Collector.TtfbWithinLoad | assets/js/trm-collector.js:49-62 | a page that loads after its first byte has ttfb ≤ load |
| Collector.DeviceType | assets/js/trm-collector.js:64-66 | 'mob' exactly for a mobile user agent, else 'desk' |
| Collector.ConnectionType | assets/js/trm-collector.js:68-71 | the effective type of the first connection object present, or ''; a present `navigator.connection` without one gives '' and the prefixed objects are not consulted |
| Collector.ConnectionNoFallback | assets/js/trm-collector.js:69-70 | once `navigator.connection` exists the prefixed objects never change the label |
| Collector.SaveData | assets/js/trm-collector.js:74 | data saver is on exactly when `navigator.connection` exists and says so |
| Collector.Stale | assets/js/trm-collector.js:88-91 | a render time is stale exactly when it exceeds the document fetch time by more than 50 ms; one within the fetch time never is |
| Collector.ReportedServerTime | assets/js/trm-collector.js:83 | the render time PHP reported when the page carries one, else 0 |
| Collector.SentServerTime | assets/js/trm-collector.js:83-94 | the render time is zeroed exactly when a navigation entry shows it to be longer than the fetch plus 50 ms |
| Collector.SentServerTimeBounds | assets/js/trm-collector.js:83-94 | the sent render time is between 0 and the reported one, and unchanged if it fits in the fetch |
| Collector.PayloadOf | assets/js/trm-collector.js:96-108 | each key holds its measure: the page's timestamp, the href, the render time given, ttfb and load from the navigation timings, the LCP or 0, the reported memory peak or 0, device and connection labels, the truthy country or '', the session id |
| Collector.SendPayload | assets/js/trm-collector.js:73-130 | nothing under data saver; otherwise exactly one transmission: fetch with the nonce header if fetch exists, else a beacon with `trm_token` |
| Collector.OnVisibilityChange | assets/js/trm-collector.js:133-138 | sends only when the page becomes hidden |
| Collector.RequestOf | assets/js/trm-collector.js:111-129 | fetch carries the nonce as header, the beacon as query parameter |
| Collector.TransportCarriesNonce | assets/js/trm-collector.js:111-129 | with either transport, the server checks the page's own nonce |
| Collector.SentMeasuresStored | assets/js/trm-collector.js:96-108 | every measure sent is stored: the numbers as sent, `memory_peak` through `absint`, each text field sanitized twice; a server default only fills in a missing `event_time` |

## Left out

- Host services are parameters, not models: `sanitize_text_field`, `sanitize_email`, `is_email`, `wp_verify_nonce`, `json_decode`, `intval`/`floatval` coercion of request values, `wp_unslash`, `wp_parse_url`, `wp_mail` delivery, `get_bloginfo`. Properties hold for every such function, or under the small assumptions their lemmas state, such as `sanitize("") == ""`.
- Time is whole seconds. `event_time` is a number, not a `Y-m-d H:i:s` string. The collector's `timestamp` and the payload's `event_time` are taken as already converted. `strtotime('-N days')` is `now − N·86400`.
- Floating point and `round(…, 3/4)` are left out. Figures are exact reals before rounding, and NaN does not arise. Collector.GetNavigationTimings, Collector.PayloadLcp and Collector.SentServerTime are stated on reals.
- MySQL behaviour beyond the query's meaning is left out:
  - collation, so comparisons are exact character equality;
  - `esc_like`, so the url filter is a literal substring test;
  - DECIMAL/INT column widths.
  - the order of ties under `ORDER BY` and `GROUP BY`. MySQL promises none. The model's sort is stable, so the members defined through it fix one order among equal keys: storage (id) order for rows, and for URL groups the order of each URL's last appearance in storage order (`Stats.Keys` keeps the last one).
  - Reports.NewestFirst, Reports.Fetched, Reports.AlertDue, Reports.AlertMails, Reports.Reporter.CheckAlerts and Reports.Reporter.RunCron therefore state the streak for rows with equal `event_time` taken in storage order. Cached pages can share a timestamp, and MySQL may return them in another order and so count another streak.
  - Lists.TopBy ranks elements with equal keys in the order of its input. Stats.TopUrls, Stats.GetStatsFigures and Stats.ReportOf therefore rank URL groups with equal averages by the last appearance of their URL. LogStore.QueryLogs and LogStore.QueryLogsIsWindow state sortedness and membership only.
- The schema (`create_table`, DDL) is left out. LogStore.Store.constructor starts from an empty table with next id 1.
- Cron is left out: `add_cron_interval`, WP-Cron execution, and the recurrence of `wp_schedule_event`. The model keeps only the next event time.
- Reports.ReportMails: the mail is represented by the table it reports on, not by its text. Stats.ReportOf gives that table's figures. The sprintf layout, subject line and site name are not modelled.
- Reports.Reporter.constructor: `trm_last_interval` and `trm_last_alert_ts` start as 0, which is what `get_option(…, 0)` reads when they are absent.
- Collector.SessionOf: a storage that fails after `setItem` succeeded, or `getItem` returning something other than what was stored, is not modelled. The storage either works entirely or throws at once. `generateId` is a parameter.
- Collector.LcpObserver: the browser's delivery of entries, `buffered: true` and the absence of `PerformanceObserver` are not modelled. Without an observer no `OnEntries` call happens and lcp is sent as 0.
- Browser APIs are values given to the model: `navigator`, `performance`, `location`, the user agent, `fetch`/`sendBeacon` availability, the request bodies (`JSON.stringify` is not modelled). The `/Mobi|Android/i` test is modelled as an ASCII case-insensitive substring test.
- PHP integer width is left out: integers are unbounded. In PHP, `(page − 1)·per_page` and `absint` of a huge value overflow to float; LogStore.PlanOf does not model that.
- Tracking.ShouldTrack takes one `wp_rand` draw per call. A tracked view calls `should_track_request` three times (includes/class-trm-collector.php:46 and :71, includes/class-trm-rest.php:139), so with a rate p below 1 a view is stored with probability about p³. The model states each call on its own draw; the enqueueing calls in class-trm-collector.php are not part of this model.
- Concurrency and the plugin singleton are left out, and so are hook wiring (`add_action`, `register_rest_route` plumbing, permission callbacks), the admin UI and assets, activation, and uninstall.
