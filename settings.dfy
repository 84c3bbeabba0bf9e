/** The plugin settings (`TRM_Settings`): the defaults, the key-by-key
    merge of the stored option over them, and `update`, which clamps and
    validates each submitted field under its own guard and persists the
    result. */
module Config {
  import opened Php
  import opened Lists

  datatype Settings = Settings(
    limit: int,
    retentionDays: int,
    sampleRate: real,
    excludedRoles: seq<string>,
    blacklist: seq<string>,
    reportSchedule: string,
    alertTtfbThreshold: real,
    alertConsecutive: int,
    alertMinInterval: int,
    alertRecipient: string)

  const Defaults: Settings :=
    Settings(1000, 30, 1.0, ["administrator", "editor"], [], "daily", 2.0, 5, 3600, "")

  predicate NoFalsyEntry(xs: seq<string>) {
    forall i :: 0 <= i < |xs| ==> !Falsy(xs[i])
  }

  /** The ranges `update` keeps every field in. */
  predicate Valid(s: Settings) {
    && s.limit >= 1
    && s.retentionDays >= 1
    && 0.0 <= s.sampleRate <= 1.0
    && NoFalsyEntry(s.excludedRoles)
    && NoFalsyEntry(s.blacklist)
    && KnownSchedule(s.reportSchedule)
    && s.alertTtfbThreshold >= 0.0
    && s.alertConsecutive >= 1
    && s.alertMinInterval >= 300
  }

  lemma DefaultsValid()
    ensures Valid(Defaults)
  {
  }

  // -----------------------------------------------------------------------
  // all()

  /** The stored option: None is a key the stored array does not have. */
  datatype Stored = Stored(
    limit: Option<int>,
    retentionDays: Option<int>,
    sampleRate: Option<real>,
    excludedRoles: Option<seq<string>>,
    blacklist: Option<seq<string>>,
    reportSchedule: Option<string>,
    alertTtfbThreshold: Option<real>,
    alertConsecutive: Option<int>,
    alertMinInterval: Option<int>,
    alertRecipient: Option<string>)

  /** `get_option(..., array())` when nothing was ever saved. */
  const NothingStored: Stored := Stored(None, None, None, None, None, None, None, None, None, None)

  /** `all()`: every stored key overrides its default; a recipient that is
      empty after the merge is replaced by the site's admin email. */
  function All(stored: Stored, adminEmail: string): (s: Settings)
    ensures stored.limit.Some? ==> s.limit == stored.limit.value
    ensures stored.limit.None? ==> s.limit == Defaults.limit
    ensures stored.retentionDays.Some? ==> s.retentionDays == stored.retentionDays.value
    ensures stored.retentionDays.None? ==> s.retentionDays == Defaults.retentionDays
    ensures stored.sampleRate.Some? ==> s.sampleRate == stored.sampleRate.value
    ensures stored.sampleRate.None? ==> s.sampleRate == Defaults.sampleRate
    ensures stored.excludedRoles.Some? ==> s.excludedRoles == stored.excludedRoles.value
    ensures stored.excludedRoles.None? ==> s.excludedRoles == Defaults.excludedRoles
    ensures stored.blacklist.Some? ==> s.blacklist == stored.blacklist.value
    ensures stored.blacklist.None? ==> s.blacklist == Defaults.blacklist
    ensures stored.reportSchedule.Some? ==> s.reportSchedule == stored.reportSchedule.value
    ensures stored.reportSchedule.None? ==> s.reportSchedule == Defaults.reportSchedule
    ensures stored.alertTtfbThreshold.Some? ==> s.alertTtfbThreshold == stored.alertTtfbThreshold.value
    ensures stored.alertTtfbThreshold.None? ==> s.alertTtfbThreshold == Defaults.alertTtfbThreshold
    ensures stored.alertConsecutive.Some? ==> s.alertConsecutive == stored.alertConsecutive.value
    ensures stored.alertConsecutive.None? ==> s.alertConsecutive == Defaults.alertConsecutive
    ensures stored.alertMinInterval.Some? ==> s.alertMinInterval == stored.alertMinInterval.value
    ensures stored.alertMinInterval.None? ==> s.alertMinInterval == Defaults.alertMinInterval
    ensures stored.alertRecipient.Some? && !Falsy(stored.alertRecipient.value) ==>
      s.alertRecipient == stored.alertRecipient.value
    ensures stored.alertRecipient.None? || Falsy(stored.alertRecipient.value) ==> s.alertRecipient == adminEmail
  {
    var recipient := stored.alertRecipient.GetOr(Defaults.alertRecipient);
    Settings(
      stored.limit.GetOr(Defaults.limit),
      stored.retentionDays.GetOr(Defaults.retentionDays),
      stored.sampleRate.GetOr(Defaults.sampleRate),
      stored.excludedRoles.GetOr(Defaults.excludedRoles),
      stored.blacklist.GetOr(Defaults.blacklist),
      stored.reportSchedule.GetOr(Defaults.reportSchedule),
      stored.alertTtfbThreshold.GetOr(Defaults.alertTtfbThreshold),
      stored.alertConsecutive.GetOr(Defaults.alertConsecutive),
      stored.alertMinInterval.GetOr(Defaults.alertMinInterval),
      if Falsy(recipient) then adminEmail else recipient)
  }

  /** `update_option(OPTION_KEY, $settings)` with a complete array. */
  function Persist(s: Settings): (r: Stored)
    ensures r.limit == Some(s.limit) && r.retentionDays == Some(s.retentionDays) && r.sampleRate == Some(s.sampleRate)
    ensures r.excludedRoles == Some(s.excludedRoles) && r.blacklist == Some(s.blacklist)
    ensures r.reportSchedule == Some(s.reportSchedule) && r.alertTtfbThreshold == Some(s.alertTtfbThreshold)
    ensures r.alertConsecutive == Some(s.alertConsecutive) && r.alertMinInterval == Some(s.alertMinInterval)
    ensures r.alertRecipient == Some(s.alertRecipient)
  {
    Stored(Some(s.limit), Some(s.retentionDays), Some(s.sampleRate), Some(s.excludedRoles),
           Some(s.blacklist), Some(s.reportSchedule), Some(s.alertTtfbThreshold),
           Some(s.alertConsecutive), Some(s.alertMinInterval), Some(s.alertRecipient))
  }

  /** What `update` persists is what `all()` reads back, except that an
      empty recipient reads back as the admin email. */
  lemma ReadBack(s: Settings, adminEmail: string)
    ensures !Falsy(s.alertRecipient) ==> All(Persist(s), adminEmail) == s
    ensures Falsy(s.alertRecipient) ==> All(Persist(s), adminEmail) == s.(alertRecipient := adminEmail)
  {
  }

  /** A site that never saved its settings runs on the defaults, with the
      admin email as recipient. */
  lemma FreshSiteUsesDefaults(adminEmail: string)
    ensures All(NothingStored, adminEmail) == Defaults.(alertRecipient := adminEmail)
  {
  }

  // -----------------------------------------------------------------------
  // update()

  /** A list field as submitted: an array, or one string to be split. */
  datatype ListInput = Items(items: seq<string>) | Text(text: string)

  /** The submitted data: None is a key that is not set. A number field
      holds the value PHP reads from the submitted text; `absint` on it is
      modelled below (Absint), the text-to-number parse is not. */
  datatype Input = Input(
    limit: Option<int>,
    retentionDays: Option<int>,
    sampleRate: Option<real>,
    excludedRoles: Option<ListInput>,
    blacklist: Option<ListInput>,
    reportSchedule: Option<string>,
    alertTtfbThreshold: Option<real>,
    alertConsecutive: Option<int>,
    alertMinInterval: Option<int>,
    alertRecipient: Option<string>)

  /** `explode(',', $roles)` for a string. */
  function RoleItems(l: ListInput): seq<string> {
    match l
    case Items(xs) => xs
    case Text(t) => Explode(t, ",")
  }

  /** `explode('\n', str_replace('\r', '', $blacklist))` for a string: the
      quotes are single, so the markers are the two-character sequences
      backslash-r and backslash-n, not line breaks. */
  function BlacklistItems(l: ListInput): seq<string> {
    match l
    case Items(xs) => xs
    case Text(t) => Explode(RemoveAll(t, "\\r"), "\\n")
  }

  /** A blacklist typed one prefix per line holds no backslash-n marker, so
      it is kept as one single entry. */
  lemma LineBreaksDoNotSplit(t: string)
    requires forall j :: !OccursAt(t, "\\r", j) && !OccursAt(t, "\\n", j)
    ensures BlacklistItems(Text(t)) == [t]
  {
    RemoveAllAbsent(t, "\\r");
    ExplodeAbsent(t, "\\n");
  }

  function NotFalsy(s: string): bool {
    !Falsy(s)
  }

  /** `array_map('sanitize_text_field', array_map('trim', $items))`. */
  function CleanEach(items: seq<string>, sanitize: string -> string): (r: seq<string>)
    ensures |r| == |items|
    ensures forall i {:trigger r[i]} :: 0 <= i < |items| ==> r[i] == sanitize(Trim(items[i]))
  {
    if items == [] then []
    else
      var rest := CleanEach(items[1..], sanitize);
      CleanCons(items, rest, sanitize);
      [sanitize(Trim(items[0]))] + rest
  }

  lemma CleanCons(items: seq<string>, rest: seq<string>, sanitize: string -> string)
    requires items != [] && |rest| == |items| - 1
    requires forall i :: 0 <= i < |rest| ==> rest[i] == sanitize(Trim(items[1..][i]))
    ensures forall i :: 0 <= i < |items| ==> ([sanitize(Trim(items[0]))] + rest)[i] == sanitize(Trim(items[i]))
  {
    forall i | 1 <= i < |items| ensures rest[i - 1] == sanitize(Trim(items[i])) {
      assert items[1..][i - 1] == items[i];
    }
  }

  /** ... followed by `array_filter`: every entry kept is a cleaned input
      entry that is not empty, and every cleaned entry that is not empty is
      kept. */
  function CleanList(items: seq<string>, sanitize: string -> string): (r: seq<string>)
    ensures NoFalsyEntry(r)
    ensures r == Filter(CleanEach(items, sanitize), NotFalsy)
    ensures forall i :: 0 <= i < |r| ==> r[i] in CleanEach(items, sanitize)
    ensures forall j :: 0 <= j < |items| && !Falsy(sanitize(Trim(items[j]))) ==>
      sanitize(Trim(items[j])) in r
  {
    var cleaned := CleanEach(items, sanitize);
    var r := Filter(cleaned, NotFalsy);
    assert forall j :: 0 <= j < |items| && !Falsy(sanitize(Trim(items[j]))) ==> sanitize(Trim(items[j])) in r by {
      forall j | 0 <= j < |items| && !Falsy(sanitize(Trim(items[j])))
        ensures sanitize(Trim(items[j])) in r
      {
        assert cleaned[j] in cleaned && NotFalsy(cleaned[j]);
      }
    }
    r
  }

  /** `max(lo, absint(v))`, stated by its cases. */
  predicate AbsAtLeast(v: int, lo: int, r: int) {
    && r >= lo
    && (Absint(v) >= lo ==> r == Absint(v))
    && (Absint(v) < lo ==> r == lo)
  }

  /** `max(lo, absint(v))`. */
  function ClampCount(v: int, lo: int): (r: int)
    ensures AbsAtLeast(v, lo, r)
  {
    Max(lo, Absint(v))
  }

  /** `max(0, min(1, $rate))`. */
  function ClampRate(v: real): (r: real)
    ensures 0.0 <= r <= 1.0
    ensures 0.0 <= v <= 1.0 ==> r == v
    ensures v > 1.0 ==> r == 1.0
    ensures v < 0.0 ==> r == 0.0
  {
    MaxReal(0.0, MinReal(1.0, v))
  }

  /** `max(0, floatval(...))`. */
  function ClampThreshold(v: real): (r: real)
    ensures r >= 0.0
    ensures v >= 0.0 ==> r == v
    ensures v < 0.0 ==> r == 0.0
  {
    MaxReal(0.0, v)
  }

  predicate KnownSchedule(v: string) {
    v == "daily" || v == "weekly"
  }

  /** One integer field under its `isset` guard. */
  function CountField(v: Option<int>, lo: int, cur: int): (r: int)
    ensures v.None? ==> r == cur
    ensures v.Some? ==> AbsAtLeast(v.value, lo, r)
  {
    if v.Some? then ClampCount(v.value, lo) else cur
  }

  function RateField(v: Option<real>, cur: real): (r: real)
    ensures v.None? ==> r == cur
    ensures v.Some? ==> r == ClampRate(v.value)
  {
    if v.Some? then ClampRate(v.value) else cur
  }

  function ThresholdField(v: Option<real>, cur: real): (r: real)
    ensures v.None? ==> r == cur
    ensures v.Some? ==> r == ClampThreshold(v.value)
  {
    if v.Some? then ClampThreshold(v.value) else cur
  }

  function RolesField(v: Option<ListInput>, cur: seq<string>, sanitize: string -> string): (r: seq<string>)
    ensures v.None? ==> r == cur
    ensures v.Some? ==> r == CleanList(RoleItems(v.value), sanitize)
  {
    if v.Some? then CleanList(RoleItems(v.value), sanitize) else cur
  }

  function BlacklistField(v: Option<ListInput>, cur: seq<string>, sanitize: string -> string): (r: seq<string>)
    ensures v.None? ==> r == cur
    ensures v.Some? ==> r == CleanList(BlacklistItems(v.value), sanitize)
  {
    if v.Some? then CleanList(BlacklistItems(v.value), sanitize) else cur
  }

  /** `report_schedule` is taken only when it is exactly 'daily' or
      'weekly'. */
  function ScheduleField(v: Option<string>, cur: string): (r: string)
    ensures v.Some? && KnownSchedule(v.value) ==> r == v.value
    ensures v.None? || !KnownSchedule(v.value) ==> r == cur
  {
    if v.Some? && KnownSchedule(v.value) then v.value else cur
  }

  /** `alert_recipient` is replaced only by a sanitized value that passes
      the email check. */
  function RecipientField(v: Option<string>, cur: string, sanitizeEmail: string -> string,
                          isEmail: string -> bool): (r: string)
    ensures r == cur || (v.Some? && r == sanitizeEmail(v.value) && isEmail(r))
    ensures v.Some? && isEmail(sanitizeEmail(v.value)) ==> r == sanitizeEmail(v.value)
  {
    if v.Some? && isEmail(sanitizeEmail(v.value)) then sanitizeEmail(v.value) else cur
  }

  /** `update($data)` applied to the current settings `cur`: each key that
      is set is clamped or validated on its own, each key that is not set
      keeps its value. */
  function Apply(cur: Settings, data: Input, sanitize: string -> string,
                 sanitizeEmail: string -> string, isEmail: string -> bool): (s: Settings)
    ensures data.limit.None? ==> s.limit == cur.limit
    ensures data.limit.Some? ==> AbsAtLeast(data.limit.value, 1, s.limit)
    ensures data.retentionDays.None? ==> s.retentionDays == cur.retentionDays
    ensures data.retentionDays.Some? ==> AbsAtLeast(data.retentionDays.value, 1, s.retentionDays)
    ensures data.sampleRate.None? ==> s.sampleRate == cur.sampleRate
    ensures data.sampleRate.Some? ==>
      && 0.0 <= s.sampleRate <= 1.0
      && (0.0 <= data.sampleRate.value <= 1.0 ==> s.sampleRate == data.sampleRate.value)
      && (data.sampleRate.value > 1.0 ==> s.sampleRate == 1.0)
      && (data.sampleRate.value < 0.0 ==> s.sampleRate == 0.0)
    ensures data.excludedRoles.None? ==> s.excludedRoles == cur.excludedRoles
    ensures data.excludedRoles.Some? ==>
      s.excludedRoles == CleanList(RoleItems(data.excludedRoles.value), sanitize)
    ensures data.blacklist.None? ==> s.blacklist == cur.blacklist
    ensures data.blacklist.Some? ==>
      s.blacklist == CleanList(BlacklistItems(data.blacklist.value), sanitize)
    ensures data.reportSchedule.Some? && KnownSchedule(data.reportSchedule.value) ==>
      s.reportSchedule == data.reportSchedule.value
    ensures data.reportSchedule.None? || !KnownSchedule(data.reportSchedule.value) ==>
      s.reportSchedule == cur.reportSchedule
    ensures data.alertTtfbThreshold.None? ==> s.alertTtfbThreshold == cur.alertTtfbThreshold
    ensures data.alertTtfbThreshold.Some? ==>
      && s.alertTtfbThreshold >= 0.0
      && (data.alertTtfbThreshold.value >= 0.0 ==> s.alertTtfbThreshold == data.alertTtfbThreshold.value)
      && (data.alertTtfbThreshold.value < 0.0 ==> s.alertTtfbThreshold == 0.0)
    ensures data.alertConsecutive.None? ==> s.alertConsecutive == cur.alertConsecutive
    ensures data.alertConsecutive.Some? ==> AbsAtLeast(data.alertConsecutive.value, 1, s.alertConsecutive)
    ensures data.alertMinInterval.None? ==> s.alertMinInterval == cur.alertMinInterval
    ensures data.alertMinInterval.Some? ==> AbsAtLeast(data.alertMinInterval.value, 300, s.alertMinInterval)
    ensures s.alertRecipient == cur.alertRecipient ||
      (data.alertRecipient.Some? && s.alertRecipient == sanitizeEmail(data.alertRecipient.value)
       && isEmail(s.alertRecipient))
    ensures data.alertRecipient.Some? && isEmail(sanitizeEmail(data.alertRecipient.value)) ==>
      s.alertRecipient == sanitizeEmail(data.alertRecipient.value)
  {
    Settings(
      CountField(data.limit, 1, cur.limit),
      CountField(data.retentionDays, 1, cur.retentionDays),
      RateField(data.sampleRate, cur.sampleRate),
      RolesField(data.excludedRoles, cur.excludedRoles, sanitize),
      BlacklistField(data.blacklist, cur.blacklist, sanitize),
      ScheduleField(data.reportSchedule, cur.reportSchedule),
      ThresholdField(data.alertTtfbThreshold, cur.alertTtfbThreshold),
      CountField(data.alertConsecutive, 1, cur.alertConsecutive),
      CountField(data.alertMinInterval, 300, cur.alertMinInterval),
      RecipientField(data.alertRecipient, cur.alertRecipient, sanitizeEmail, isEmail))
  }

  /** Whatever was submitted, valid settings stay valid. */
  lemma ApplyKeepsValid(cur: Settings, data: Input, sanitize: string -> string,
                        sanitizeEmail: string -> string, isEmail: string -> bool)
    requires Valid(cur)
    ensures Valid(Apply(cur, data, sanitize, sanitizeEmail, isEmail))
  {
  }

  /** Submitting the same data twice saves the same settings as once. */
  lemma ApplyIdempotent(cur: Settings, data: Input, sanitize: string -> string,
                        sanitizeEmail: string -> string, isEmail: string -> bool)
    ensures Apply(Apply(cur, data, sanitize, sanitizeEmail, isEmail), data, sanitize, sanitizeEmail, isEmail)
         == Apply(cur, data, sanitize, sanitizeEmail, isEmail)
  {
  }

  /** A list whose entries are already trimmed, sanitized and non-empty
      comes out of the cleaning unchanged. */
  lemma CleanListKeepsClean(items: seq<string>, sanitize: string -> string)
    requires NoFalsyEntry(items)
    requires forall i :: 0 <= i < |items| ==> sanitize(Trim(items[i])) == items[i]
    ensures CleanList(items, sanitize) == items
  {
    var cleaned := CleanEach(items, sanitize);
    assert cleaned == items;
    FilterAll(cleaned, NotFalsy);
  }

  /** The form that submits every field of `s` as it is. */
  function FormOf(s: Settings): Input {
    Input(Some(s.limit), Some(s.retentionDays), Some(s.sampleRate), Some(Items(s.excludedRoles)),
          Some(Items(s.blacklist)), Some(s.reportSchedule), Some(s.alertTtfbThreshold),
          Some(s.alertConsecutive), Some(s.alertMinInterval), Some(s.alertRecipient))
  }

  /** The clamps are idempotent: saving already-valid settings, with clean
      list entries and a recipient that passes the email checks, returns
      exactly those settings, whatever was stored before. */
  lemma ResaveUnchanged(cur: Settings, s: Settings, sanitize: string -> string,
                        sanitizeEmail: string -> string, isEmail: string -> bool)
    requires Valid(s)
    requires forall i :: 0 <= i < |s.excludedRoles| ==> sanitize(Trim(s.excludedRoles[i])) == s.excludedRoles[i]
    requires forall i :: 0 <= i < |s.blacklist| ==> sanitize(Trim(s.blacklist[i])) == s.blacklist[i]
    requires sanitizeEmail(s.alertRecipient) == s.alertRecipient && isEmail(s.alertRecipient)
    ensures Apply(cur, FormOf(s), sanitize, sanitizeEmail, isEmail) == s
  {
    CleanListKeepsClean(s.excludedRoles, sanitize);
    CleanListKeepsClean(s.blacklist, sanitize);
  }

  // -----------------------------------------------------------------------
  // the option store

  class SettingsStore {
    var stored: Stored
    var adminEmail: string

    constructor (stored: Stored, adminEmail: string)
      ensures this.stored == stored && this.adminEmail == adminEmail
    {
      this.stored := stored;
      this.adminEmail := adminEmail;
    }

    /** `all()` on the current option. */
    function Current(): Settings
      reads this
    {
      All(stored, adminEmail)
    }

    /** `update($data)`: start from `all()`, overwrite the fields one by one
        (each helper keeps the field when its key is not set), persist the
        complete array and return it. */
    method Update(data: Input, sanitize: string -> string,
                  sanitizeEmail: string -> string, isEmail: string -> bool)
      returns (saved: Settings)
      modifies this
      ensures saved == Apply(old(Current()), data, sanitize, sanitizeEmail, isEmail)
      ensures stored == Persist(saved) && adminEmail == old(adminEmail)
      ensures !Falsy(saved.alertRecipient) ==> Current() == saved
    {
      var settings := All(stored, adminEmail);
      settings := settings.(limit := CountField(data.limit, 1, settings.limit));
      settings := settings.(retentionDays := CountField(data.retentionDays, 1, settings.retentionDays));
      settings := settings.(sampleRate := RateField(data.sampleRate, settings.sampleRate));
      settings := settings.(excludedRoles := RolesField(data.excludedRoles, settings.excludedRoles, sanitize));
      settings := settings.(blacklist := BlacklistField(data.blacklist, settings.blacklist, sanitize));
      settings := settings.(reportSchedule := ScheduleField(data.reportSchedule, settings.reportSchedule));
      settings := settings.(alertTtfbThreshold := ThresholdField(data.alertTtfbThreshold, settings.alertTtfbThreshold));
      settings := settings.(alertConsecutive := CountField(data.alertConsecutive, 1, settings.alertConsecutive));
      settings := settings.(alertMinInterval := CountField(data.alertMinInterval, 300, settings.alertMinInterval));
      settings := settings.(alertRecipient :=
        RecipientField(data.alertRecipient, settings.alertRecipient, sanitizeEmail, isEmail));
      stored := Persist(settings);
      saved := settings;
      ReadBack(saved, adminEmail);
    }
  }

  /** `update` starts from `all()`, so a recipient that was empty is saved
      as the admin email once any settings are saved. */
  lemma SavedRecipientNeverEmpty(stored: Stored, adminEmail: string, data: Input, sanitize: string -> string,
                                 sanitizeEmail: string -> string, isEmail: string -> bool)
    requires !Falsy(adminEmail)
    requires forall e :: isEmail(e) ==> !Falsy(e)
    ensures !Falsy(Apply(All(stored, adminEmail), data, sanitize, sanitizeEmail, isEmail).alertRecipient)
  {
  }
}
