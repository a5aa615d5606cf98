/** The execution harness that runs a compiled rule script
    (src/lib/powston-harness.py): the global namespace the script starts from,
    the decision logger the script writes to, and the result that is read
    back once the script has run. The script itself is an oracle. */
module Harness {
  import opened Wrappers
  import opened Values

  /** Input keys the harness never copies into the namespace. */
  const Reserved: set<string> := {"interval_time", "decisions"}

  /** The default settings the namespace starts with, other than the five
      that `Defaults` states. */
  function Settings(): Object {
    map[
      "buy_price" := Float(20.0),
      "sell_price" := Float(10.0),
      "solar_power" := Int(0),
      "buy_forecast" := List([]),
      "sell_forecast" := List([]),
      "hourly_gti_forecast" := List([]),
      "history_sell_prices" := List([]),
      "runtime_params" := Dict(map[]),
      "feed_in_power_limitation" := Null,
      "optimal_discharging" := Int(5000),
      "import_soc" := Null,
      "always_export_rrp" := Null,
      "mqtt_topic_push_mining_1" := Str("Off"),
      "cheap_power_available" := Bool(false)
    ]
  }

  /** The default namespace for interval time `t`; `decisions` is the
      harness's fresh logger. */
  function Defaults(t: DateTime): (d: Object)
    ensures "interval_time" in d && d["interval_time"] == Time(t)
    ensures "decisions" in d && d["decisions"] == Logger
    ensures "action" in d && d["action"] == Str("auto")
    ensures "battery_soc" in d && d["battery_soc"] == Float(50.0)
    ensures "optimal_charging" in d && d["optimal_charging"] == Int(5000)
  {
    Settings() + map[
      "optimal_charging" := Int(5000),
      "action" := Str("auto"),
      "battery_soc" := Float(50.0),
      "interval_time" := Time(t),
      "decisions" := Logger
    ]
  }

  /** A clock reading has an hour and a minute in range. */
  predicate ValidClock(now: DateTime) {
    0 <= now.hour <= 23 && 0 <= now.minute <= 59
  }

  /** An `hour=` or `minute=` argument of `datetime.replace`: an integer
      (a `bool` is one in Python) in `0..max`; anything else raises. */
  function TimeField(v: Value, max: int): (r: Option<int>)
    requires max >= 1
    ensures r.Some? ==> 0 <= r.value <= max
    ensures v.Int? ==> (r.Some? <==> 0 <= v.i <= max)
    ensures v.Int? && r.Some? ==> r.value == v.i
    ensures v.Bool? ==> r == Some(if v.b then 1 else 0)
    ensures !v.Int? && !v.Bool? ==> r.None?
  {
    match v
    case Int(i) => if 0 <= i <= max then Some(i) else None
    case Bool(b) => Some(if b then 1 else 0)
    case _ => None
  }

  /** The interval time the namespace starts with. `now` is the clock reading
      and `fromIso` is `datetime.fromisoformat` (`None` where it raises). A
      dict replaces only the hour and minute, each defaulting to the current
      one, and zeroes the seconds and microseconds; any other value keeps
      `now`. `None` means the harness raises before the script runs. */
  function IntervalTime(input: Object, now: DateTime, fromIso: string -> Option<DateTime>): Option<DateTime>
    requires ValidClock(now)
  {
    if "interval_time" !in input then Some(now)
    else
      match input["interval_time"]
      case Str(s) => fromIso(s)
      case Dict(it) =>
        var h := TimeField(Get(it, "hour", Int(now.hour)), 23);
        var m := TimeField(Get(it, "minute", Int(now.minute)), 59);
        if h.Some? && m.Some? then
          Some(now.(hour := h.value, minute := m.value, second := 0, microsecond := 0))
        else None
      case _ => Some(now)
  }

  /** The interval time by the shape of the input's `interval_time`. */
  lemma IntervalTimeCases(input: Object, now: DateTime, fromIso: string -> Option<DateTime>)
    requires ValidClock(now)
    ensures "interval_time" !in input ==> IntervalTime(input, now, fromIso) == Some(now)
    ensures "interval_time" in input && input["interval_time"].Str? ==>
      IntervalTime(input, now, fromIso) == fromIso(input["interval_time"].s)
    ensures "interval_time" in input && input["interval_time"].Dict? ==>
      var r := IntervalTime(input, now, fromIso);
      var it := input["interval_time"].entries;
      var h := if "hour" in it then TimeField(it["hour"], 23) else Some(now.hour);
      var m := if "minute" in it then TimeField(it["minute"], 59) else Some(now.minute);
      (r.Some? <==> h.Some? && m.Some?) &&
      (r.Some? ==> r.value.hour == h.value && r.value.minute == m.value &&
                   r.value.second == 0 && r.value.microsecond == 0 &&
                   r.value.year == now.year && r.value.month == now.month &&
                   r.value.day == now.day)
    ensures "interval_time" in input && !input["interval_time"].Str? && !input["interval_time"].Dict? ==>
      IntervalTime(input, now, fromIso) == Some(now)
  {
  }

  /** The input keys copied over the defaults, in any order. */
  function Copied(input: Object, keys: set<string>): map<string, Value>
    requires keys <= input.Keys
  {
    map k | k in keys && k !in Reserved :: input[k]
  }

  /** Whether the `soc` alias applies. */
  predicate SocAlias(input: Object) {
    "soc" in input && "battery_soc" !in input
  }

  /** A base namespace with every input key except the reserved ones on
      top, then the `soc` alias. */
  function Overlay(base: Object, input: Object): Object {
    var merged := base + (input - Reserved);
    if SocAlias(input) then merged["battery_soc" := input["soc"]] else merged
  }

  /** The global namespace for interval time `t`. */
  function Namespace(input: Object, t: DateTime): Object {
    Overlay(Defaults(t), input)
  }

  /** Over a base holding the reserved keys and `battery_soc`, the overlay
      holds the base's keys and every input key. */
  lemma OverlayKeys(base: Object, input: Object)
    requires Reserved <= base.Keys && "battery_soc" in base
    ensures Overlay(base, input).Keys == base.Keys + input.Keys
  {
    var ns := Overlay(base, input);
    forall k | k in input ensures k in ns {
      if k in Reserved {
        assert k in base;
      }
    }
  }

  /** Every input key other than the reserved ones is copied as it is, and
      `battery_soc` comes from the input, or else from its `soc` alias. */
  lemma OverlayInput(base: Object, input: Object)
    ensures forall k :: k in input && k !in Reserved ==> Overlay(base, input)[k] == input[k]
    ensures SocAlias(input) ==> Overlay(base, input)["battery_soc"] == input["soc"]
    ensures "battery_soc" in input ==> Overlay(base, input)["battery_soc"] == input["battery_soc"]
  {
  }

  /** The reserved keys keep the base's values, and so does every key the
      input does not override (directly or through the alias). */
  lemma OverlayBase(base: Object, input: Object)
    ensures forall k :: k in base && (k in Reserved || k !in input) && !(k == "battery_soc" && SocAlias(input)) ==>
      Overlay(base, input)[k] == base[k]
  {
  }

  /** The namespace holds the default keys and every input key. */
  lemma NamespaceKeys(input: Object, t: DateTime)
    ensures Namespace(input, t).Keys == Defaults(t).Keys + input.Keys
  {
    OverlayKeys(Defaults(t), input);
  }

  /** Every input key other than the reserved ones is copied as it is, and
      `battery_soc` comes from the input, or else from its `soc` alias. */
  lemma NamespaceInput(input: Object, t: DateTime)
    ensures forall k :: k in input && k !in Reserved ==> Namespace(input, t)[k] == input[k]
    ensures SocAlias(input) ==> Namespace(input, t)["battery_soc"] == input["soc"]
    ensures "battery_soc" in input ==> Namespace(input, t)["battery_soc"] == input["battery_soc"]
  {
    OverlayInput(Defaults(t), input);
  }

  /** The reserved keys are always the harness's own, and a default the
      input does not override (directly or through the alias) survives. */
  lemma NamespaceDefaults(input: Object, t: DateTime)
    ensures Namespace(input, t)["decisions"] == Logger && Namespace(input, t)["interval_time"] == Time(t)
    ensures forall k :: k in Defaults(t) && k !in input && !(k == "battery_soc" && SocAlias(input)) ==>
      Namespace(input, t)[k] == Defaults(t)[k]
  {
    OverlayBase(Defaults(t), input);
  }

  /** `build_globals`: `None` where it raises (a bad `interval_time`). */
  function Globals(input: Object, now: DateTime, fromIso: string -> Option<DateTime>): (r: Option<Object>)
    requires ValidClock(now)
    ensures r.Some? <==> IntervalTime(input, now, fromIso).Some?
    ensures r.Some? ==> r.value == Namespace(input, IntervalTime(input, now, fromIso).value)
  {
    match IntervalTime(input, now, fromIso)
    case None => None
    case Some(t) => Some(Namespace(input, t))
  }

  /** `build_globals` as the harness runs it: copy the defaults, then walk
      the input keys, skipping the reserved ones, then apply the alias. */
  method BuildGlobals(input: Object, now: DateTime, fromIso: string -> Option<DateTime>)
    returns (r: Option<Object>)
    requires ValidClock(now)
    ensures r == Globals(input, now, fromIso)
  {
    var t := IntervalTime(input, now, fromIso);
    if t.None? {
      return None;
    }
    var ns := CopyInput(Defaults(t.value), input);
    if "soc" in input && "battery_soc" !in input {
      ns := ns["battery_soc" := input["soc"]];
    }
    return Some(ns);
  }

  /** The copying loop of `build_globals`: walk the input keys in any
      order, skipping the reserved ones. */
  method CopyInput(base: Object, input: Object) returns (ns: Object)
    ensures ns == base + (input - Reserved)
  {
    ns := base;
    var todo := input.Keys;
    while todo != {}
      invariant todo <= input.Keys
      invariant ns == base + Copied(input, input.Keys - todo)
      decreases todo
    {
      var key :| key in todo;
      CopiedStep(base, input, input.Keys - todo, key);
      if key !in Reserved {
        ns := ns[key := input[key]];
      }
      assert input.Keys - (todo - {key}) == (input.Keys - todo) + {key};
      todo := todo - {key};
    }
    assert input.Keys - todo == input.Keys;
    assert Copied(input, input.Keys) == input - Reserved;
  }

  /** Copying one more input key. */
  lemma CopiedStep(base: Object, input: Object, done: set<string>, key: string)
    requires done <= input.Keys && key in input && key !in done
    ensures key in Reserved ==> base + Copied(input, done + {key}) == base + Copied(input, done)
    ensures key !in Reserved ==>
      base + Copied(input, done + {key}) == (base + Copied(input, done))[key := input[key]]
  {
  }

  /** Keys the script never set keep the documented defaults. */
  lemma UntouchedDefaults(input: Object, t: DateTime)
    requires "action" !in input && "optimal_charging" !in input
    requires "battery_soc" !in input && "soc" !in input
    ensures Namespace(input, t)["action"] == Str("auto")
    ensures Namespace(input, t)["battery_soc"] == Float(50.0)
    ensures Namespace(input, t)["optimal_charging"] == Int(5000)
  {
    NamespaceDefaults(input, t);
  }

  /** One logged decision: `action`, `description` and the extra keyword
      arguments. */
  type Entry = map<string, Value>

  /** The entry `reason(action, description, **extra)` logs. */
  function ReasonEntry(action: Value, description: Value, extra: Object): (e: Entry)
    requires "action" !in extra && "description" !in extra
    ensures e.Keys == extra.Keys + {"action", "description"}
    ensures e["action"] == action && e["description"] == description
    ensures forall k :: k in extra ==> e[k] == extra[k]
  {
    map["action" := action, "description" := description] + extra
  }

  /** `DecisionLogger`: an append-only list of entries and the last action. */
  class DecisionLogger {
    var reasons: seq<Entry>
    var lastAction: Value

    constructor ()
      ensures reasons == [] && lastAction == Null
    {
      reasons := [];
      lastAction := Null;
    }

    /** `reason(action, description, **extra)`. Python refuses a keyword
        argument that repeats a named parameter. */
    method Reason(action: Value, description: Value, extra: Object) returns (r: Value)
      requires "self" !in extra && "action" !in extra && "description" !in extra
      modifies this
      ensures reasons == old(reasons) + [ReasonEntry(action, description, extra)]
      ensures lastAction == action
      ensures r == action
    {
      reasons := reasons + [ReasonEntry(action, description, extra)];
      lastAction := action;
      r := action;
    }

    /** `to_dict()`. */
    function ToDict(): (d: Object)
      reads this
      ensures d.Keys == {"reasons"}
      ensures d["reasons"].List? && |d["reasons"].items| == |reasons|
      ensures forall i :: 0 <= i < |reasons| ==> d["reasons"].items[i] == Dict(reasons[i])
    {
      map["reasons" := List(seq(|reasons|, i requires 0 <= i < |reasons| reads this => Dict(reasons[i])))]
    }
  }

  /** What `exec` of the script does to the namespace: it raises an
      `Exception` (with the formatted traceback), it raises something that
      is not an `Exception` (`SystemExit`, `KeyboardInterrupt`), which the
      harness does not catch, or it finishes with a final namespace and the
      entries the harness's logger then holds. */
  datatype ExecOutcome =
    | Raised(trace: string)
    | Exited
    | Finished(ns: Object, logged: seq<Entry>)

  /** The dictionary `run_template` returns. */
  datatype RunOutput =
    | Failed(error: string)
    | Succeeded(
        action: Value,
        description: Value,
        reasons: seq<Entry>,
        feedInPowerLimitation: Value,
        optimalCharging: Value,
        cheapPowerAvailable: Value)
  {
    function Success(): bool { Succeeded? }
    /** `action`, `description` and `decisions.reasons` as read from the
        dictionary, for either shape. */
    function ActionField(): Value { if Failed? then Null else action }
    function DescriptionField(): Value { if Failed? then Null else description }
    function ReasonsField(): seq<Entry> { if Failed? then [] else reasons }
  }

  /** `last_reason["description"] if last_reason else None`: `Some(Null)`
      when nothing was logged or the last entry is an empty (falsy) dict,
      `Some` of its description otherwise, and `None` when a non-empty last
      entry has no "description" key, where Python raises `KeyError`. */
  function LastDescription(logged: seq<Entry>): (d: Option<Value>)
    ensures logged == [] ==> d == Some(Null)
    ensures logged != [] && logged[|logged| - 1] == map[] ==> d == Some(Null)
    ensures logged != [] && "description" in logged[|logged| - 1] ==>
      d == Some(logged[|logged| - 1]["description"])
    ensures d.None? <==>
      logged != [] && logged[|logged| - 1] != map[] && "description" !in logged[|logged| - 1]
  {
    if logged == [] then Some(Null)
    else
      var last := logged[|logged| - 1];
      if last == map[] then Some(Null)
      else if "description" in last then Some(last["description"])
      else None
  }

  /** `run_template`. `None` means an exception escaped the harness: a bad
      `interval_time`, a script that raised something other than an
      `Exception`, a script that rebound `decisions` to something
      without `.reasons`, or a last entry without a "description" key. A
      script that deleted `decisions` reads as an empty logger. */
  function RunTemplate(code: string, input: Object, now: DateTime,
                       fromIso: string -> Option<DateTime>,
                       exec: (string, Object) -> ExecOutcome): Option<RunOutput>
    requires ValidClock(now)
  {
    match Globals(input, now, fromIso)
    case None => None
    case Some(ns0) =>
      match exec(code, ns0)
      case Raised(trace) => Some(Failed(trace))
      case Exited => None
      case Finished(ns, logged) =>
        if "decisions" in ns && ns["decisions"] != Logger then None
        else
          var reasons := if "decisions" in ns then logged else [];
          match LastDescription(reasons)
          case None => None
          case Some(description) =>
          Some(Succeeded(
            Get(ns, "action", Str("auto")),
            description,
            reasons,
            Get(ns, "feed_in_power_limitation", Null),
            Get(ns, "optimal_charging", Null),
            Get(ns, "cheap_power_available", Bool(false))))
  }

  /** What `run_template` reports: an escaped exception when the namespace
      cannot be built, when the script raises something other than an
      `Exception`, when the script rebinds `decisions`, or when the last
      entry lacks a description; the traceback when the script raises; and
      otherwise the script's action (default "auto"), the logged entries
      while `decisions` is still bound, and the last entry's description. */
  lemma RunTemplateOutcome(code: string, input: Object, now: DateTime,
                           fromIso: string -> Option<DateTime>,
                           exec: (string, Object) -> ExecOutcome)
    requires ValidClock(now)
    ensures var r := RunTemplate(code, input, now, fromIso, exec);
      Globals(input, now, fromIso).None? ==> r.None?
    ensures var r := RunTemplate(code, input, now, fromIso, exec);
      Globals(input, now, fromIso).Some? && exec(code, Globals(input, now, fromIso).value).Raised? ==>
        r == Some(Failed(exec(code, Globals(input, now, fromIso).value).trace))
    ensures var r := RunTemplate(code, input, now, fromIso, exec);
      Globals(input, now, fromIso).Some? && exec(code, Globals(input, now, fromIso).value).Exited? ==>
        r.None?
    ensures var r := RunTemplate(code, input, now, fromIso, exec);
      Globals(input, now, fromIso).Some? && exec(code, Globals(input, now, fromIso).value).Finished? ==>
        var out := exec(code, Globals(input, now, fromIso).value);
        var reasons := if "decisions" in out.ns then out.logged else [];
        (r.None? <==>
          ("decisions" in out.ns && out.ns["decisions"] != Logger) || LastDescription(reasons).None?)
    ensures var r := RunTemplate(code, input, now, fromIso, exec);
      r.Some? && r.value.Failed? ==>
        !r.value.Success() && r.value.ActionField() == Null &&
        r.value.DescriptionField() == Null && r.value.ReasonsField() == []
    ensures var r := RunTemplate(code, input, now, fromIso, exec);
      r.Some? && r.value.Succeeded? ==>
        var out := exec(code, Globals(input, now, fromIso).value);
        out.Finished? &&
        r.value.action == Get(out.ns, "action", Str("auto")) &&
        r.value.reasons == (if "decisions" in out.ns then out.logged else []) &&
        LastDescription(r.value.reasons) == Some(r.value.description)
  {
  }

  /** The namespace's `action`: the input's, or "auto". */
  lemma NamespaceAction(input: Object, t: DateTime)
    ensures Namespace(input, t)["action"] == if "action" in input then input["action"] else Str("auto")
  {
    NamespaceInput(input, t);
    NamespaceDefaults(input, t);
    assert "action" !in Reserved;
  }

  /** A script that leaves `action` alone (and does not rebind `decisions`)
      reports the input's `action`, or "auto" when the input has none. */
  lemma ReportedAction(code: string, input: Object, now: DateTime,
                       fromIso: string -> Option<DateTime>,
                       exec: (string, Object) -> ExecOutcome, t: DateTime)
    requires ValidClock(now) && IntervalTime(input, now, fromIso) == Some(t)
    requires var out := exec(code, Namespace(input, t));
      out.Finished? && "action" in out.ns && out.ns["action"] == Namespace(input, t)["action"] &&
      ("decisions" in out.ns ==> out.ns["decisions"] == Logger) &&
      LastDescription(if "decisions" in out.ns then out.logged else []).Some?
    ensures var r := RunTemplate(code, input, now, fromIso, exec);
      r.Some? && r.value.Succeeded? &&
      r.value.action == (if "action" in input then input["action"] else Str("auto"))
  {
    NamespaceAction(input, t);
  }
}
