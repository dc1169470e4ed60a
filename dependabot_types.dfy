// The pydantic models of a `.github/dependabot.yml` file and their field
// validators (github_linter/tests/dependabot/types.py), over a loaded YAML
// document, as pydantic 2 validates them (the repository's tests call
// `DependabotSchedule.model_validate`):
// an `Optional` field without a default is required and may be null, a
// field with a default may be left out, and a validator runs on every value
// given, null included.
module DependabotTypes {
  import opened Wrappers
  import opened Text
  import opened Config
  import opened DependabotConstants

  /** Why a validator refused a value. */
  datatype Problem =
    | NotAMapping(field: string)
    | Missing(field: string)
    | MissingAmong(fields: set<string>)
    | NotAString(field: string)
    | NotAnInteger(field: string)
    | NotAList(field: string)
    | BadInterval(value: string)
    | BadTimezone(value: string)
    | BadDay(value: string)
    | BadInclude
    | BadEcosystem(value: string)
    | BadRebaseStrategy
    | BadExecutionPermissions

  type Checked<T> = Result<T, Problem>

  /**
   * A short label for a refusal. pydantic reports a refusal as its own
   * multi-line text (and an unknown interval as the `TypeError` of the
   * validator's `ValidationError(str, cls)` call), which is not modelled:
   * the loaders promise only the prefix they put before this label.
   */
  function Describe(p: Problem): string
  {
    match p
    case NotAMapping(field) => field + ": value is not a valid dict"
    case Missing(field) => field + ": field required"
    case MissingAmong(_) => "updates: field required"
    case NotAString(field) => field + ": str type expected"
    case NotAnInteger(field) => field + ": value is not a valid integer"
    case NotAList(field) => field + ": value is not a valid list"
    case BadInterval(value) => "interval needs to be in " + Join(ScheduleIntervals, ",") + ", got '" + value + "'"
    case BadTimezone(value) => "Invalid timezone: " + value
    case BadDay(value) => "Invalid day: " + value
    case BadInclude => "Only 'scope' can be specified in 'include' field."
    case BadEcosystem(value) => "invalid value for package_ecosystem '" + value + "'"
    case BadRebaseStrategy => "rebase-strategy needs to be either 'auto' or 'disabled'."
    case BadExecutionPermissions => "insecure-external-code-execution needs to be either 'allow' or 'deny'."
  }

  /** A validated schedule. The timezone validator refuses null, so an accepted schedule always names one. */
  datatype Schedule = Schedule(interval: string, day: Option<string>, time: Option<string>, timezone: string)

  datatype CommitMessageConfig = CommitMessageConfig(prefix: Option<string>, prefixDevelopment: Option<string>,
                                                     includeScope: Option<string>)

  /**
   * One entry of `updates`. `directory` is None where it was not given (the
   * model then reads "/"); `others` holds the remaining model fields, by
   * their YAML names, as loaded, null ones left out.
   */
  datatype UpdateConfig = UpdateConfig(packageEcosystem: Option<string>, directory: Option<string>, schedule: Schedule,
                                       commitMessage: Option<CommitMessageConfig>, rebaseStrategy: Option<string>,
                                       insecureExternalCodeExecution: Option<string>, others: map<string, Value>)

  datatype ConfigFile = ConfigFile(version: int, updates: seq<UpdateConfig>)

  /** The fields of an update config that carry no validator of their own; none has a default. */
  const OtherFields: set<string> := {"allow", "assignees", "ignore", "labels", "milestone", "open-pull-requests-limit",
                                     "registries", "reviewers", "target-branch", "vendor", "versioning-strategy"}

  /** The field `directory` holds when the file does not set it. */
  const DefaultDirectory := "/"

  function Directory(u: UpdateConfig): string
  {
    u.directory.GetOr(DefaultDirectory)
  }

  // Reading fields of a mapping.

  /** An `Optional[str]` field without a default: it must be given, and null reads as None. */
  function NullableString(entries: map<string, Value>, key: string): Checked<Option<string>>
  {
    if key !in entries then Failure(Missing(key))
    else if entries[key].Null? then Success(None)
    else if entries[key].Str? then Success(Some(entries[key].s))
    else Failure(NotAString(key))
  }

  /** A `str` field with a default: left out it reads as None (the default); null is not a string. */
  function DefaultedString(entries: map<string, Value>, key: string): Checked<Option<string>>
  {
    if key !in entries then Success(None)
    else if entries[key].Str? then Success(Some(entries[key].s))
    else Failure(NotAString(key))
  }

  /** A required `str` field. */
  function RequiredString(entries: map<string, Value>, key: string): Checked<string>
  {
    if key !in entries then Failure(Missing(key))
    else if entries[key].Str? then Success(entries[key].s)
    else Failure(NotAString(key))
  }

  /** The value a given string-or-null field reads as. */
  function StringOrNone(v: Value): Option<string>
  {
    if v.Str? then Some(v.s) else None
  }

  /** A field that `NullableString` accepts: given, and a string or null. */
  predicate NullableStringAt(entries: map<string, Value>, key: string)
  {
    key in entries && (entries[key].Null? || entries[key].Str?)
  }

  lemma NullableStringWhen(entries: map<string, Value>, key: string)
    ensures NullableString(entries, key).Success? <==> NullableStringAt(entries, key)
    ensures NullableStringAt(entries, key) ==> NullableString(entries, key).value == StringOrNone(entries[key])
  {
  }

  // The validators of `DependabotSchedule`.

  /** `validate_interval`: one of the schedule intervals. */
  function ValidateInterval(value: string): Checked<string>
  {
    if value in ScheduleIntervals then Success(value)
    else Failure(BadInterval(value))
  }

  /**
   * `validate_timezone`, which also runs on a null timezone: only a member
   * of `zones` (pytz's `all_timezones`) passes, so null is refused as
   * "Invalid timezone: None".
   */
  function TimezoneAsWritten(value: Option<string>, zones: set<string>): Checked<string>
  {
    if value.Some? && value.value in zones then Success(value.value)
    else Failure(BadTimezone(if value.Some? then value.value else "None"))
  }

  /**
   * `validate_day_value` as written: it looks the day up among the fields
   * validated before it, where "day" never is, and compares it with a list
   * whose seven names the missing commas join into one string.
   */
  function DayAsWritten(value: Option<string>, values: map<string, string>): Checked<Option<string>>
  {
    if "day" in values && values["day"] != "" && "interval" in values &&
       values["day"] !in ["mondaytuesdaywednesdaythursdayfridaysaturdaysunday"]
    then Failure(BadDay(values["day"]))
    else Success(value)
  }

  /** The fields validated before `day`: the interval. */
  function FieldsBeforeDay(interval: string): map<string, string>
  {
    map["interval" := interval]
  }

  /** As written the day validator accepts every value, "funday" included. */
  lemma DayAsWrittenAcceptsAnything(value: Option<string>, interval: string)
    ensures DayAsWritten(value, FieldsBeforeDay(interval)) == Success(value)
    ensures DayAsWritten(Some("funday"), FieldsBeforeDay("weekly")).Success?
  {
  }

  const Weekdays: seq<string> := ["monday", "tuesday", "wednesday", "thursday", "friday", "saturday", "sunday"]

  /** The intended day validator: a non-empty day must name a day of the week. */
  function ValidateDay(value: string): Checked<string>
  {
    if value != "" && value !in Weekdays then Failure(BadDay(value)) else Success(value)
  }

  lemma ValidateDayWhen(value: string)
    ensures ValidateDay(value).Success? <==> value == "" || value in Weekdays
    ensures ValidateDay(value).Success? ==> ValidateDay(value).value == value
    ensures ValidateDay("funday").Failure? && ValidateDay("monday").Success?
  {
    assert "funday" !in Weekdays by {
      assert forall k :: 0 <= k < |Weekdays| ==> Weekdays[k][0] != 'f' || Weekdays[k][1] != 'u';
    }
  }

  /** `DependabotSchedule.model_validate`: the four fields in order, each with its validator. */
  function ValidateSchedule(v: Value, zones: set<string>): Checked<Schedule>
  {
    if !v.Dict? then Failure(NotAMapping("schedule"))
    else
      var interval :- RequiredString(v.entries, "interval");
      var interval' :- ValidateInterval(interval);
      var day :- NullableString(v.entries, "day");
      var day' :- DayAsWritten(day, FieldsBeforeDay(interval'));
      var time :- NullableString(v.entries, "time");
      var timezone :- NullableString(v.entries, "timezone");
      var timezone' :- TimezoneAsWritten(timezone, zones);
      Success(Schedule(interval', day', time, timezone'))
  }

  // The validators of `DependabotCommitMessage` and `DependabotUpdateConfig`.

  /** `validate_include`, which also runs on a null include: only "scope" passes. */
  function IncludeAsWritten(value: Option<string>): Checked<Option<string>>
  {
    if value == Some("scope") then Success(value) else Failure(BadInclude)
  }

  function ValidateCommitMessage(v: Value): Checked<CommitMessageConfig>
  {
    if !v.Dict? then Failure(NotAMapping("commit-message"))
    else
      var prefix :- NullableString(v.entries, "prefix");
      var development :- NullableString(v.entries, "prefix-development");
      var scope :- NullableString(v.entries, "include");
      var scope' :- IncludeAsWritten(scope);
      Success(CommitMessageConfig(prefix, development, scope'))
  }

  /** `validate_package_ecosystem`: a key of the ecosystem table. */
  function ValidatePackageEcosystem(value: string): Checked<string>
  {
    if IsEcosystem(value) then Success(value) else Failure(BadEcosystem(value))
  }

  const RebaseStrategies: seq<string> := ["disabled", "auto"]
  const ExecutionPermissions: seq<string> := ["deny", "allow"]

  /**
   * `rebase_strategy` as written: both `validate_rebase_strategy` and
   * `validate_execution_permissions` are attached to it, in that order, the
   * second receives what the first returned, and both run on null.
   */
  function RebaseStrategyAsWritten(value: Option<string>): Checked<Option<string>>
  {
    var first :- if value.Some? && value.value in RebaseStrategies then Success(value.value)
                 else Failure(BadRebaseStrategy);
    if first in ExecutionPermissions then Success(Some(first))
    else Failure(BadExecutionPermissions)
  }

  /** The two allowed sets are disjoint, so as written every rebase strategy is refused, "auto" and null included. */
  lemma RebaseStrategyAlwaysRejected(value: Option<string>)
    ensures RebaseStrategyAsWritten(value).Failure?
    ensures RebaseStrategyAsWritten(Some("auto")).Failure?
    ensures RebaseStrategyAsWritten(value).error ==
      if value.Some? && value.value in RebaseStrategies then BadExecutionPermissions else BadRebaseStrategy
  {
  }

  /** The intended `validate_rebase_strategy`, on `rebase-strategy` alone. */
  function ValidateRebaseStrategy(value: string): Checked<string>
  {
    if value in RebaseStrategies then Success(value)
    else Failure(BadRebaseStrategy)
  }

  /** The intended `validate_execution_permissions`, on `insecure-external-code-execution`. */
  function ValidateExecutionPermissions(value: string): Checked<string>
  {
    if value in ExecutionPermissions then Success(value)
    else Failure(BadExecutionPermissions)
  }

  lemma IntendedStrategiesAccepted(rebase: string, execution: string)
    ensures ValidateRebaseStrategy(rebase).Success? <==> rebase == "disabled" || rebase == "auto"
    ensures ValidateExecutionPermissions(execution).Success? <==> execution == "deny" || execution == "allow"
    ensures ValidateRebaseStrategy("auto") == Success("auto")
  {
  }

  /** The fields without validators: each must be given; their element types are not checked. */
  function OtherFieldsGiven(entries: map<string, Value>): Checked<map<string, Value>>
  {
    var missing := OtherFields - entries.Keys;
    if missing != {} then Failure(MissingAmong(missing))
    else Success(map k | k in entries && k in OtherFields && !entries[k].Null? :: entries[k])
  }

  function EcosystemField(entries: map<string, Value>): Checked<Option<string>>
  {
    var ecosystem :- RequiredString(entries, "package-ecosystem");
    var ecosystem' :- ValidatePackageEcosystem(ecosystem);
    Success(Some(ecosystem'))
  }

  function ScheduleField(entries: map<string, Value>, zones: set<string>): Checked<Schedule>
  {
    if "schedule" in entries then ValidateSchedule(entries["schedule"], zones) else Failure(Missing("schedule"))
  }

  /** `commit-message` defaults to None, and a default is not validated. */
  function CommitMessageField(entries: map<string, Value>): Checked<Option<CommitMessageConfig>>
  {
    if "commit-message" !in entries || entries["commit-message"].Null? then Success(None)
    else
      var c :- ValidateCommitMessage(entries["commit-message"]);
      Success(Some(c))
  }

  /** `DependabotUpdateConfig.model_validate`. */
  function ValidateUpdate(v: Value, zones: set<string>): Checked<UpdateConfig>
  {
    if !v.Dict? then Failure(NotAMapping("updates"))
    else
      var ecosystem :- EcosystemField(v.entries);
      var directory :- DefaultedString(v.entries, "directory");
      var schedule :- ScheduleField(v.entries, zones);
      var others :- OtherFieldsGiven(v.entries);
      var commitMessage :- CommitMessageField(v.entries);
      var execution :- NullableString(v.entries, "insecure-external-code-execution");
      var rebase :- NullableString(v.entries, "rebase-strategy");
      var rebase' :- RebaseStrategyAsWritten(rebase);
      Success(UpdateConfig(ecosystem, directory, schedule, commitMessage, rebase', execution, others))
  }

  /** Each entry in order; the first one refused refuses the list. */
  function ValidateUpdates(items: seq<Value>, zones: set<string>): Checked<seq<UpdateConfig>>
    decreases |items|
  {
    if items == [] then Success([])
    else
      var first := ValidateUpdate(items[0], zones);
      var rest := ValidateUpdates(items[1..], zones);
      if first.Failure? then Failure(first.error)
      else if rest.Failure? then Failure(rest.error)
      else Success([first.value] + rest.value)
  }

  /** `DependabotConfigFile.model_validate`: an integer `version` and a list of `updates`, both required. */
  function ValidateConfigFile(v: Value, zones: set<string>): Checked<ConfigFile>
  {
    if !v.Dict? then Failure(NotAMapping("__root__"))
    else if "version" !in v.entries then Failure(Missing("version"))
    else if !v.entries["version"].Int? then Failure(NotAnInteger("version"))
    else if "updates" !in v.entries then Failure(Missing("updates"))
    else if !v.entries["updates"].List? then Failure(NotAList("updates"))
    else
      var updates :- ValidateUpdates(v.entries["updates"].items, zones);
      Success(ConfigFile(v.entries["version"].i, updates))
  }

  // What each validator lets through.

  /**
   * A schedule is accepted exactly when it is a mapping that gives all four
   * fields, with a known interval, a day and a time that are strings or
   * null, and a timezone among `zones`; the day is never checked. The
   * accepted schedule holds the values as given.
   */
  lemma ScheduleFields(v: Value, zones: set<string>)
    ensures ValidateSchedule(v, zones).Success? <==>
      v.Dict? && "interval" in v.entries && v.entries["interval"].Str? && v.entries["interval"].s in ScheduleIntervals &&
      NullableStringAt(v.entries, "day") && NullableStringAt(v.entries, "time") &&
      "timezone" in v.entries && v.entries["timezone"].Str? && v.entries["timezone"].s in zones
    ensures ValidateSchedule(v, zones).Success? ==>
      ValidateSchedule(v, zones).value ==
        Schedule(v.entries["interval"].s, StringOrNone(v.entries["day"]), StringOrNone(v.entries["time"]),
                 v.entries["timezone"].s)
  {
    if v.Dict? {
      NullableStringWhen(v.entries, "day");
      NullableStringWhen(v.entries, "time");
      NullableStringWhen(v.entries, "timezone");
    }
  }

  /**
   * A schedule that leaves out its day, time or timezone is refused, so
   * none of the four schedules the tests validate loads as written.
   */
  lemma ScheduleNeedsEveryField(entries: map<string, Value>, zones: set<string>)
    requires "day" !in entries || "time" !in entries || "timezone" !in entries
    ensures ValidateSchedule(Dict(entries), zones).Failure?
    ensures ValidateSchedule(Dict(map["interval" := Str("monthly")]), zones).Failure?
    ensures ValidateSchedule(Dict(map["interval" := Str("daily")]), zones).Failure?
    ensures ValidateSchedule(Dict(map["interval" := Str("weekly"), "day" := Str("monday")]), zones).Failure?
    ensures ValidateSchedule(Dict(map["interval" := Str("weekly")]), zones).Failure?
  {
    ScheduleFields(Dict(entries), zones);
    ScheduleFields(Dict(map["interval" := Str("monthly")]), zones);
    ScheduleFields(Dict(map["interval" := Str("daily")]), zones);
    ScheduleFields(Dict(map["interval" := Str("weekly"), "day" := Str("monday")]), zones);
    ScheduleFields(Dict(map["interval" := Str("weekly")]), zones);
  }

  // The schedule the repository's own tests expect (tests/test_dependabot.py):
  // `day`, `time` and `timezone` default to None, and a day or timezone that
  // is given is checked.

  /** A schedule whose optional fields may be left out. */
  datatype IntendedSchedule = IntendedSchedule(interval: string, day: Option<string>, time: Option<string>,
                                               timezone: Option<string>)

  /** An `Optional[str] = None` field: left out or null it reads as None. */
  function OptionalString(entries: map<string, Value>, key: string): Checked<Option<string>>
  {
    if key !in entries || entries[key].Null? then Success(None)
    else if entries[key].Str? then Success(Some(entries[key].s))
    else Failure(NotAString(key))
  }

  /** The intended timezone check: a given timezone must be one of `zones`. */
  function ValidateTimezone(value: Option<string>, zones: set<string>): Checked<Option<string>>
  {
    if value.Some? && value.value !in zones then Failure(BadTimezone(value.value)) else Success(value)
  }

  /** The intended `DependabotSchedule`: defaults for the optional fields, the weekday check on a given day. */
  function ValidateScheduleIntended(v: Value, zones: set<string>): Checked<IntendedSchedule>
  {
    if !v.Dict? then Failure(NotAMapping("schedule"))
    else
      var interval :- RequiredString(v.entries, "interval");
      var interval' :- ValidateInterval(interval);
      var day :- OptionalString(v.entries, "day");
      var day' :- if day.Some? then (var d :- ValidateDay(day.value); Success(Some(d))) else Success(None);
      var time :- OptionalString(v.entries, "time");
      var timezone :- OptionalString(v.entries, "timezone");
      var timezone' :- ValidateTimezone(timezone, zones);
      Success(IntendedSchedule(interval', day', time, timezone'))
  }

  /** With the defaults, a known interval alone is a whole schedule. */
  lemma IntendedIntervalAlone(interval: string, zones: set<string>)
    requires interval in ScheduleIntervals
    ensures ValidateScheduleIntended(Dict(map["interval" := Str(interval)]), zones) ==
      Success(IntendedSchedule(interval, None, None, None))
  {
  }

  /** A given day that is not a weekday refuses the intended schedule. */
  lemma IntendedBadDayRejected(v: Value, zones: set<string>)
    requires v.Dict? && "day" in v.entries && v.entries["day"].Str?
    requires v.entries["day"].s != "" && v.entries["day"].s !in Weekdays
    ensures ValidateScheduleIntended(v, zones).Failure?
  {
  }

  /**
   * The four schedules the tests validate are accepted by the intended
   * schedule, and `{interval: monthly, day: lol}` is refused.
   */
  lemma IntendedScheduleTests(zones: set<string>)
    ensures ValidateScheduleIntended(Dict(map["interval" := Str("monthly")]), zones).Success?
    ensures ValidateScheduleIntended(Dict(map["interval" := Str("daily")]), zones).Success?
    ensures ValidateScheduleIntended(Dict(map["interval" := Str("weekly"), "day" := Str("monday")]), zones).Success?
    ensures ValidateScheduleIntended(Dict(map["interval" := Str("weekly")]), zones).Success?
    ensures ValidateScheduleIntended(Dict(map["interval" := Str("monthly"), "day" := Str("lol")]), zones).Failure?
  {
    IntendedIntervalAlone("monthly", zones);
    IntendedIntervalAlone("daily", zones);
    IntendedIntervalAlone("weekly", zones);
    ValidateDayWhen("monday");
    assert "lol" !in Weekdays by {
      assert forall k :: 0 <= k < |Weekdays| ==> Weekdays[k][0] != 'l';
    }
    IntendedBadDayRejected(Dict(map["interval" := Str("monthly"), "day" := Str("lol")]), zones);
  }

  /** An interval outside the table refuses the schedule. */
  lemma UnknownIntervalRejected(v: Value, zones: set<string>)
    requires v.Dict? && "interval" in v.entries && v.entries["interval"].Str?
    requires v.entries["interval"].s !in ScheduleIntervals
    ensures ValidateSchedule(v, zones).Failure?
  {
  }

  /**
   * A commit message is accepted exactly when it gives `prefix` and
   * `prefix-development` as strings or null and `include: scope`.
   */
  lemma CommitMessageInclude(v: Value)
    ensures ValidateCommitMessage(v).Success? <==>
      v.Dict? && NullableStringAt(v.entries, "prefix") && NullableStringAt(v.entries, "prefix-development") &&
      "include" in v.entries && v.entries["include"] == Str("scope")
    ensures ValidateCommitMessage(v).Success? ==> ValidateCommitMessage(v).value.includeScope == Some("scope")
  {
    if v.Dict? {
      NullableStringWhen(v.entries, "prefix");
      NullableStringWhen(v.entries, "prefix-development");
      NullableStringWhen(v.entries, "include");
    }
  }

  /**
   * No entry of `updates` is ever accepted. An entry whose other fields all
   * pass is refused for its `rebase-strategy`: as missing when it is left
   * out, by the execution-permission check for "disabled" or "auto", and by
   * the rebase check for null or any other string.
   */
  lemma UpdateFields(v: Value, zones: set<string>)
    ensures ValidateUpdate(v, zones).Failure?
    ensures v.Dict? && EcosystemField(v.entries).Success? && DefaultedString(v.entries, "directory").Success? &&
            ScheduleField(v.entries, zones).Success? && OtherFieldsGiven(v.entries).Success? &&
            CommitMessageField(v.entries).Success? && NullableString(v.entries, "insecure-external-code-execution").Success? ==>
      var e := ValidateUpdate(v, zones).error;
      var key := "rebase-strategy";
      (key !in v.entries ==> e == Missing(key)) &&
      (key in v.entries && v.entries[key].Str? && v.entries[key].s in RebaseStrategies ==> e == BadExecutionPermissions) &&
      (key in v.entries && (v.entries[key].Null? || (v.entries[key].Str? && v.entries[key].s !in RebaseStrategies)) ==>
         e == BadRebaseStrategy)
  {
    if v.Dict? {
      var rebase := NullableString(v.entries, "rebase-strategy");
      if rebase.Success? {
        RebaseStrategyAlwaysRejected(rebase.value);
      }
    }
  }

  /** An ecosystem outside the table refuses the update. */
  lemma UnknownEcosystemRejected(v: Value, zones: set<string>)
    requires v.Dict? && "package-ecosystem" in v.entries && v.entries["package-ecosystem"].Str?
    requires !IsEcosystem(v.entries["package-ecosystem"].s)
    ensures ValidateUpdate(v, zones).Failure?
  {
  }

  /** A list of updates is accepted exactly when it is empty. */
  lemma {:induction false} UpdatesAcceptedOnlyEmpty(items: seq<Value>, zones: set<string>)
    ensures ValidateUpdates(items, zones).Success? <==> items == []
    ensures ValidateUpdates(items, zones).Success? ==> ValidateUpdates(items, zones).value == []
  {
    if items != [] {
      UpdateFields(items[0], zones);
    }
  }

  /** A list is refused as soon as one of its entries is. */
  lemma {:induction false} UpdatesRefused(items: seq<Value>, zones: set<string>, i: int)
    requires 0 <= i < |items| && ValidateUpdate(items[i], zones).Failure?
    ensures ValidateUpdates(items, zones).Failure?
  {
    if i > 0 {
      UpdatesRefused(items[1..], zones, i - 1);
    }
  }

  /**
   * A config file is accepted exactly when it is a mapping with an integer
   * version and an empty list of updates, and it then holds that version
   * and no update.
   */
  lemma ConfigFileFields(v: Value, zones: set<string>)
    ensures ValidateConfigFile(v, zones).Success? <==>
      v.Dict? && "version" in v.entries && v.entries["version"].Int? &&
      "updates" in v.entries && v.entries["updates"] == List([])
    ensures ValidateConfigFile(v, zones).Success? ==>
      ValidateConfigFile(v, zones).value == ConfigFile(v.entries["version"].i, [])
  {
    if v.Dict? && "updates" in v.entries && v.entries["updates"].List? {
      UpdatesAcceptedOnlyEmpty(v.entries["updates"].items, zones);
    }
  }

  // `model_dump(by_alias=True, exclude_unset=True, exclude_none=True)`.

  function OptionalField(key: string, value: Option<string>): map<string, Value>
  {
    if value.Some? then map[key := Str(value.value)] else map[]
  }

  function DumpSchedule(s: Schedule): Value
  {
    Dict(map["interval" := Str(s.interval)] + OptionalField("day", s.day) + OptionalField("time", s.time) +
         map["timezone" := Str(s.timezone)])
  }

  function DumpCommitMessage(c: CommitMessageConfig): Value
  {
    Dict(OptionalField("prefix", c.prefix) + OptionalField("prefix-development", c.prefixDevelopment) +
         OptionalField("include", c.includeScope))
  }

  function DumpUpdate(u: UpdateConfig): Value
  {
    Dict(u.others + OptionalField("package-ecosystem", u.packageEcosystem) + OptionalField("directory", u.directory) +
         map["schedule" := DumpSchedule(u.schedule)] +
         (if u.commitMessage.Some? then map["commit-message" := DumpCommitMessage(u.commitMessage.value)] else map[]) +
         OptionalField("rebase-strategy", u.rebaseStrategy) +
         OptionalField("insecure-external-code-execution", u.insecureExternalCodeExecution))
  }

  function DumpUpdates(updates: seq<UpdateConfig>): (r: seq<Value>)
    ensures |r| == |updates|
    ensures forall i :: 0 <= i < |updates| ==> r[i] == DumpUpdate(updates[i])
  {
    seq(|updates|, i requires 0 <= i < |updates| => DumpUpdate(updates[i]))
  }

  function DumpConfigFile(f: ConfigFile): Value
  {
    Dict(map["version" := Int(f.version), "updates" := List(DumpUpdates(f.updates))])
  }

  // Dumping leaves out null fields, which pydantic 2 then finds missing.

  /** A dumped schedule validates again exactly when it had a day and a time, and then gives back the same schedule. */
  lemma ScheduleRoundTrip(v: Value, zones: set<string>)
    requires ValidateSchedule(v, zones).Success?
    ensures var s := ValidateSchedule(v, zones).value;
      ValidateSchedule(DumpSchedule(s), zones).Success? <==> s.day.Some? && s.time.Some?
    ensures var s := ValidateSchedule(v, zones).value;
      s.day.Some? && s.time.Some? ==> ValidateSchedule(DumpSchedule(s), zones) == ValidateSchedule(v, zones)
  {
    var s := ValidateSchedule(v, zones).value;
    ScheduleFields(v, zones);
    ScheduleFields(DumpSchedule(s), zones);
    var e := DumpSchedule(s).entries;
    assert e["interval"] == Str(s.interval);
    assert e["timezone"] == Str(s.timezone);
    assert s.day.Some? ==> e["day"] == Str(s.day.value);
    assert s.time.Some? ==> e["time"] == Str(s.time.value);
    assert s.day.None? ==> "day" !in e;
    assert s.time.None? ==> "time" !in e;
  }

  /** A dumped commit message validates again exactly when both prefixes were given, and then gives back the same message. */
  lemma CommitMessageRoundTrip(v: Value)
    requires ValidateCommitMessage(v).Success?
    ensures var c := ValidateCommitMessage(v).value;
      ValidateCommitMessage(DumpCommitMessage(c)).Success? <==> c.prefix.Some? && c.prefixDevelopment.Some?
    ensures var c := ValidateCommitMessage(v).value;
      c.prefix.Some? && c.prefixDevelopment.Some? ==> ValidateCommitMessage(DumpCommitMessage(c)) == ValidateCommitMessage(v)
  {
    var c := ValidateCommitMessage(v).value;
    CommitMessageInclude(v);
    CommitMessageInclude(DumpCommitMessage(c));
    var e := DumpCommitMessage(c).entries;
    assert e["include"] == Str("scope");
    assert c.prefix.Some? ==> e["prefix"] == Str(c.prefix.value);
    assert c.prefixDevelopment.Some? ==> e["prefix-development"] == Str(c.prefixDevelopment.value);
    assert c.prefix.None? ==> "prefix" !in e;
    assert c.prefixDevelopment.None? ==> "prefix-development" !in e;
  }
}
