/** The scheduled summary report and the TTFB alert (`TRM_Reports`): the
    cron reconciliation that keeps one event at the configured interval,
    the recipient guard of the report, the breach streak and cooldown of
    the alert, and the order `run_cron` runs them in. The options
    `trm_last_interval` and `trm_last_alert_ts`, the next cron event and the
    mails handed to `wp_mail` are the fields of a `Reporter`. */
module Reports {
  import opened Php
  import opened Lists
  import opened LogStore
  import opened Stats
  import opened Config

  const MinuteSeconds: int := 60
  const WeekSeconds: int := 604800

  /** `get_interval_seconds()`: a day for 'daily', a week for anything
      else. */
  function IntervalSeconds(s: Settings): (r: int)
    ensures r == DaySeconds <==> s.reportSchedule == "daily"
    ensures r == WeekSeconds <==> s.reportSchedule != "daily"
  {
    if s.reportSchedule == "daily" then DaySeconds else WeekSeconds
  }

  // -----------------------------------------------------------------------
  // ensure_scheduled

  /** The stored interval and the next event of the cron hook. */
  datatype Schedule = Schedule(lastInterval: int, next: Option<int>)

  /** What reconciliation leaves behind: a schedule that already runs at
      the current interval is kept; otherwise a fresh event starts a minute
      from now and the current interval is recorded. */
  function Reconcile(sch: Schedule, interval: int, now: int): (r: Schedule)
    ensures r.lastInterval == interval && r.next.Some?
    ensures sch.lastInterval == interval && sch.next.Some? ==> r == sch
    ensures sch.lastInterval != interval ==> r.next == Some(now + MinuteSeconds)
  {
    if sch.lastInterval == interval && sch.next.Some? then sch
    else Schedule(interval, Some(now + MinuteSeconds))
  }

  /** A second reconciliation with the same interval changes nothing, at
      whatever time it runs. */
  lemma ReconcileIdempotent(sch: Schedule, interval: int, now: int, later: int)
    ensures Reconcile(Reconcile(sch, interval, now), interval, later) == Reconcile(sch, interval, now)
  {
  }

  /** A changed schedule setting always replaces the pending event. */
  lemma ScheduleChangeReschedules(sch: Schedule, s: Settings, t: Settings, now: int, later: int)
    requires sch.lastInterval == IntervalSeconds(s)
    requires (s.reportSchedule == "daily") != (t.reportSchedule == "daily")
    ensures Reconcile(Reconcile(sch, IntervalSeconds(s), now), IntervalSeconds(t), later).next
            == Some(later + MinuteSeconds)
  {
  }

  // -----------------------------------------------------------------------
  // check_alerts

  function EventTimeKey(x: Record): real {
    x.fields.eventTime as real
  }

  /** `ORDER BY event_time DESC LIMIT n`. */
  function NewestFirst(rows: seq<Record>, n: nat): (r: seq<Record>)
    ensures |r| == Min(n, |rows|)
    ensures multiset(r) <= multiset(rows)
    ensures forall i :: 0 <= i < |r| ==> r[i] in rows
    ensures forall i, j :: 0 <= i < j < |r| ==> r[j].fields.eventTime <= r[i].fields.eventTime
  {
    var sorted := Sort(rows, EventTimeKey, false);
    var r := Take(sorted, n);
    TakeSubMultiset(sorted, n);
    assert forall i :: 0 <= i < |r| ==> r[i] in rows by {
      forall i | 0 <= i < |r| ensures r[i] in rows {
        assert r[i] == sorted[i];
        assert sorted[i] in multiset(rows);
      }
    }
    assert forall i, j :: 0 <= i < j < |r| ==> r[j].fields.eventTime <= r[i].fields.eventTime by {
      forall i, j | 0 <= i < j < |r| ensures r[j].fields.eventTime <= r[i].fields.eventTime {
        assert r[i] == sorted[i] && r[j] == sorted[j];
        assert InOrder(EventTimeKey(sorted[i]), EventTimeKey(sorted[j]), false);
      }
    }
    r
  }

  /** A row left out of the fetch is no newer than any fetched row. */
  lemma NewestDominate(rows: seq<Record>, n: nat, x: Record)
    requires x in rows && x !in NewestFirst(rows, n)
    ensures forall i :: 0 <= i < |NewestFirst(rows, n)| ==>
      x.fields.eventTime <= NewestFirst(rows, n)[i].fields.eventTime
  {
    var sorted := Sort(rows, EventTimeKey, false);
    assert x in multiset(sorted);
    PrefixDominates(sorted, EventTimeKey, false, n, x);
    forall i | 0 <= i < |NewestFirst(rows, n)|
      ensures x.fields.eventTime <= NewestFirst(rows, n)[i].fields.eventTime
    {
      assert NewestFirst(rows, n)[i] == sorted[i];
      assert InOrder(EventTimeKey(sorted[i]), EventTimeKey(x), false);
    }
  }

  /** The length of the longest prefix of `xs` whose values all exceed the
      threshold. */
  function BreachStreak(xs: seq<real>, threshold: real): (r: nat)
    ensures r <= |xs|
    ensures forall i :: 0 <= i < r ==> xs[i] > threshold
    ensures r < |xs| ==> xs[r] <= threshold
  {
    if xs == [] || xs[0] <= threshold then 0
    else 1 + BreachStreak(xs[1..], threshold)
  }

  /** The `foreach` over the fetched TTFB values: count while the value
      exceeds the threshold, stop at the first that does not. */
  method CountStreak(xs: seq<real>, threshold: real) returns (streak: nat)
    ensures streak == BreachStreak(xs, threshold)
  {
    streak := 0;
    while streak < |xs|
      invariant streak <= |xs|
      invariant forall i :: 0 <= i < streak ==> xs[i] > threshold
    {
      if xs[streak] > threshold {
        streak := streak + 1;
      } else {
        break;
      }
    }
  }

  /** The TTFB values `check_alerts` examines, newest first: the TTFB of
      each of the `max(20, alert_consecutive)` newest rows, or of every row
      of a smaller table. */
  function Fetched(s: Settings, rows: seq<Record>): (r: seq<real>)
    ensures |r| == Min(Max(20, Absint(s.alertConsecutive)), |rows|)
    ensures forall i :: 0 <= i < |r| ==> r[i] == NewestFirst(rows, Max(20, Absint(s.alertConsecutive)))[i].fields.ttfb
  {
    Column(NewestFirst(rows, Max(20, Absint(s.alertConsecutive))), MetricTtfb)
  }

  /** An alert goes out when alerting is configured (a positive threshold
      and a recipient), the newest `alert_consecutive` requests all breached
      the threshold, and the cooldown since the last alert has passed. */
  function AlertDue(s: Settings, rows: seq<Record>, lastAlert: int, now: int): (r: bool)
    ensures r <==>
      && s.alertTtfbThreshold > 0.0
      && !Falsy(s.alertRecipient)
      && Absint(s.alertConsecutive) <= |Fetched(s, rows)|
      && (forall i :: 0 <= i < Absint(s.alertConsecutive) ==> Fetched(s, rows)[i] > s.alertTtfbThreshold)
      && now - lastAlert >= Absint(s.alertMinInterval)
  {
    StreakReaches(Fetched(s, rows), s.alertTtfbThreshold, Absint(s.alertConsecutive));
    && s.alertTtfbThreshold > 0.0
    && !Falsy(s.alertRecipient)
    && BreachStreak(Fetched(s, rows), s.alertTtfbThreshold) >= Absint(s.alertConsecutive)
    && now - lastAlert >= Absint(s.alertMinInterval)
  }

  /** The streak reaches c exactly when the first c values all exceed the
      threshold. */
  lemma StreakReaches(xs: seq<real>, threshold: real, c: nat)
    ensures BreachStreak(xs, threshold) >= c <==> c <= |xs| && forall i :: 0 <= i < c ==> xs[i] > threshold
  {
    var k := BreachStreak(xs, threshold);
    if k < c && c <= |xs| {
      assert xs[k] <= threshold;
    }
  }

  /** What a mail reports: the summary report on a table (its figures are
      `ReportOf(table)`), or a TTFB alert with its streak and threshold. */
  datatype MailContent =
    | ReportMail(table: seq<Record>)
    | AlertMail(streak: nat, threshold: real)

  datatype Mail = Mail(to: string, content: MailContent)

  /** The mails one run of `check_alerts` sends. */
  function AlertMails(s: Settings, rows: seq<Record>, lastAlert: int, now: int): (r: seq<Mail>)
    ensures |r| <= 1
    ensures r != [] <==> AlertDue(s, rows, lastAlert, now)
    ensures r != [] ==> r[0].to == s.alertRecipient && r[0].content.AlertMail?
  {
    if AlertDue(s, rows, lastAlert, now) then
      [Mail(s.alertRecipient, AlertMail(BreachStreak(Fetched(s, rows), s.alertTtfbThreshold),
                                        s.alertTtfbThreshold))]
    else []
  }

  /** Without a positive threshold or a recipient nothing is examined and
      nothing is sent. */
  lemma AlertsOff(s: Settings, rows: seq<Record>, lastAlert: int, now: int)
    requires s.alertTtfbThreshold <= 0.0 || Falsy(s.alertRecipient)
    ensures AlertMails(s, rows, lastAlert, now) == []
  {
  }

  /** The streak never exceeds the number of fetched rows, which is at most
      `max(20, alert_consecutive)` and at most the table size. */
  lemma StreakBound(s: Settings, rows: seq<Record>)
    ensures BreachStreak(Fetched(s, rows), s.alertTtfbThreshold) <= |Fetched(s, rows)|
    ensures |Fetched(s, rows)| <= Max(20, Absint(s.alertConsecutive))
    ensures |Fetched(s, rows)| <= |rows|
  {
  }

  /** An alert means the table holds at least `alert_consecutive` rows and
      the newest that many fetched TTFB values all exceed the threshold. */
  lemma AlertMeansRecentBreaches(s: Settings, rows: seq<Record>, lastAlert: int, now: int)
    requires AlertDue(s, rows, lastAlert, now)
    ensures |rows| >= Absint(s.alertConsecutive)
    ensures forall i :: 0 <= i < Absint(s.alertConsecutive) ==>
      Fetched(s, rows)[i] > s.alertTtfbThreshold
  {
    var xs := Fetched(s, rows);
    var streak := BreachStreak(xs, s.alertTtfbThreshold);
    assert streak <= |xs| <= |rows|;
  }

  /** Within `alert_min_interval` seconds of an alert no second alert is
      sent, however bad the new requests are. */
  lemma Cooldown(s: Settings, rows: seq<Record>, alertedAt: int, now: int)
    requires now - alertedAt < Absint(s.alertMinInterval)
    ensures AlertMails(s, rows, alertedAt, now) == []
  {
  }

  // -----------------------------------------------------------------------
  // send_report

  /** The mails one run of `send_report` hands over: none when the
      recipient is empty or not an email address, else the report on the
      whole table. */
  function ReportMails(s: Settings, rows: seq<Record>, isEmail: string -> bool): (r: seq<Mail>)
    ensures |r| <= 1
    ensures r == [] <==> Falsy(s.alertRecipient) || !isEmail(s.alertRecipient)
    ensures r != [] ==> r[0] == Mail(s.alertRecipient, ReportMail(rows))
  {
    if Falsy(s.alertRecipient) || !isEmail(s.alertRecipient) then []
    else [Mail(s.alertRecipient, ReportMail(rows))]
  }

  class Reporter {
    var lastAlertTs: int
    var lastInterval: int
    var next: Option<int>
    var outbox: seq<Mail>

    /** A fresh site: both options read as their default 0, no event is
        scheduled and no mail has been sent. */
    constructor ()
      ensures lastAlertTs == 0 && lastInterval == 0 && next == None && outbox == []
    {
      lastAlertTs := 0;
      lastInterval := 0;
      next := None;
      outbox := [];
    }

    function ScheduleState(): Schedule
      reads this
    {
      Schedule(lastInterval, next)
    }

    /** `ensure_scheduled()`: clear the hook when the interval changed,
        schedule an event a minute from now when none is pending, and
        record the new interval. */
    method EnsureScheduled(s: Settings, now: int)
      modifies this
      ensures ScheduleState() == Reconcile(old(ScheduleState()), IntervalSeconds(s), now)
      ensures lastAlertTs == old(lastAlertTs) && outbox == old(outbox)
    {
      var interval := IntervalSeconds(s);
      var needsReschedule := lastInterval != interval;
      if needsReschedule {
        next := None;
      }
      if next.None? {
        next := Some(now + MinuteSeconds);
      }
      if needsReschedule {
        lastInterval := interval;
      }
    }

    /** `send_report()`: refused before any query when the recipient is
        empty or invalid; otherwise the report is mailed and the result is
        what `wp_mail` answered (`delivered`). */
    method SendReport(s: Settings, rows: seq<Record>, isEmail: string -> bool, delivered: bool)
      returns (sent: bool)
      modifies this
      ensures outbox == old(outbox) + ReportMails(s, rows, isEmail)
      ensures sent <==> ReportMails(s, rows, isEmail) != [] && delivered
      ensures lastAlertTs == old(lastAlertTs) && lastInterval == old(lastInterval) && next == old(next)
    {
      var recipient := s.alertRecipient;
      if Falsy(recipient) || !isEmail(recipient) {
        sent := false;
      } else {
        outbox := outbox + [Mail(recipient, ReportMail(rows))];
        sent := delivered;
      }
    }

    /** `check_alerts()`: the configuration guard, the streak over the
        newest TTFB values, the streak guard, the cooldown guard, then the
        mail and the new last-alert time. */
    method CheckAlerts(s: Settings, rows: seq<Record>, now: int)
      modifies this
      ensures outbox == old(outbox) + AlertMails(s, rows, old(lastAlertTs), now)
      ensures lastAlertTs == if AlertDue(s, rows, old(lastAlertTs), now) then now else old(lastAlertTs)
      ensures lastInterval == old(lastInterval) && next == old(next)
    {
      var threshold := s.alertTtfbThreshold;
      var consecutive := Absint(s.alertConsecutive);
      var recipient := s.alertRecipient;
      if threshold <= 0.0 || Falsy(recipient) {
        return;
      }
      var ttfbs := Fetched(s, rows);
      var streak := CountStreak(ttfbs, threshold);
      if streak < consecutive {
        return;
      }
      if now - lastAlertTs < Absint(s.alertMinInterval) {
        return;
      }
      outbox := outbox + [Mail(recipient, AlertMail(streak, threshold))];
      lastAlertTs := now;
    }

    /** `run_cron()`: the report, then the alert check, whatever the report
        returned. */
    method RunCron(s: Settings, rows: seq<Record>, now: int, isEmail: string -> bool, delivered: bool)
      modifies this
      ensures outbox == old(outbox) + ReportMails(s, rows, isEmail) + AlertMails(s, rows, old(lastAlertTs), now)
      ensures lastAlertTs == if AlertDue(s, rows, old(lastAlertTs), now) then now else old(lastAlertTs)
      ensures lastInterval == old(lastInterval) && next == old(next)
    {
      var _ := SendReport(s, rows, isEmail, delivered);
      CheckAlerts(s, rows, now);
    }
  }
}
