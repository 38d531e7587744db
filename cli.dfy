/**
 * The command-line layer: resolving feature, monitor and value arguments against the
 * configuration, rendering monitor and value labels, and running a get, set or toggle across
 * several monitors with a pause between consecutive ones.
 */
module Cli {
  import opened Wrappers
  import opened Text
  import opened Vcp
  import opened VcpDummy
  import opened Session

  /** The parts of the configuration the command-line layer reads: three name-to-id dictionaries. */
  datatype Config = Config(monitorNames: Dict, inputSourceNames: Dict, featureAliases: Dict)

  /** `get_vcp_com(code)` over the known commands, listed in `VCPCodes` order: the first with that code. */
  function FindCommand(registry: seq<VcpCommand>, code: int): (r: Option<VcpCommand>)
    ensures r.Some? <==> exists i :: 0 <= i < |registry| && registry[i].code == code
    ensures r.Some? ==> r.value.code == code && r.value in registry
  {
    if registry == [] then None
    else if registry[0].code == code then Some(registry[0])
    else FindCommand(registry[1..], code)
  }

  /**
   * `_check_feature`: a digit string names the known command with that code; any other string
   * is looked up among the feature aliases. `Success(None)` is an alias whose code no command has.
   */
  function CheckFeature(feature: string, cfg: Config, registry: seq<VcpCommand>): (r: Result<Option<VcpCommand>, CommandError>)
    ensures r.Failure? ==> r.error == InvalidFeature(feature)
    ensures r.Success? && IsDigits(feature) ==> r.value.Some? && r.value.value in registry
  {
    if IsDigits(feature) then
      match FindCommand(registry, DigitsValue(feature))
      case Some(com) => Success(Some(com))
      case None => Failure(InvalidFeature(feature))
    else
      match DictGet(cfg.featureAliases, feature)
      case Some(code) => Success(FindCommand(registry, code))
      case None => Failure(InvalidFeature(feature))
  }

  /** A decimal feature code is accepted exactly when some known command has it. */
  lemma CheckFeatureByCode(code: nat, cfg: Config, registry: seq<VcpCommand>)
    ensures CheckFeature(NatToString(code), cfg, registry).Success? <==> exists i :: 0 <= i < |registry| && registry[i].code == code
    ensures CheckFeature(NatToString(code), cfg, registry).Success? ==>
      CheckFeature(NatToString(code), cfg, registry).value == Some(FindCommand(registry, code).value)
  {
    DigitsOfNat(code);
  }

  /**
   * Every digit string, leading zeros included, names the command whose code is its decimal
   * value: `"016"` resolves to the same command as `"16"`.
   */
  lemma CheckFeatureByDigits(feature: string, cfg: Config, registry: seq<VcpCommand>)
    requires IsDigits(feature)
    ensures CheckFeature(feature, cfg, registry).Success? <==> FindCommand(registry, DigitsValue(feature)).Some?
    ensures CheckFeature(feature, cfg, registry).Success? ==>
      CheckFeature(feature, cfg, registry).value == Some(FindCommand(registry, DigitsValue(feature)).value)
    ensures CheckFeature("016", cfg, registry).Success? == CheckFeature("16", cfg, registry).Success?
    ensures CheckFeature("016", cfg, registry).Success? ==>
      CheckFeature("016", cfg, registry) == CheckFeature("16", cfg, registry)
  {
    assert IsDigits("016") && IsDigits("16");
    assert "016"[..2] == "01" && "01"[..1] == "0" && "0"[..0] == "" && "16"[..1] == "1" && "1"[..0] == "";
    assert DigitsValue("016") == 16 == DigitsValue("16");
    assert FindCommand(registry, DigitsValue("016")) == FindCommand(registry, DigitsValue("16"));
  }

  /** A string that is not a digit string is accepted exactly when it is a feature alias. */
  lemma CheckFeatureByAlias(feature: string, cfg: Config, registry: seq<VcpCommand>)
    requires !IsDigits(feature)
    ensures CheckFeature(feature, cfg, registry).Success? <==> exists i :: 0 <= i < |cfg.featureAliases| && cfg.featureAliases[i].0 == feature
  {
  }

  /**
   * `_check_mon`: a monitor alias names its id; otherwise the text must be an integer, and
   * anything else is "not a valid monitor".
   */
  function CheckMon(mon: string, cfg: Config): (r: Result<int, CommandError>)
    ensures r.Failure? ==> r.error == InvalidMonitor(mon)
  {
    match DictGet(cfg.monitorNames, mon)
    case Some(id) => Success(id)
    case None =>
      match ParseInt(mon)
      case Some(n) => Success(n)
      case None => Failure(InvalidMonitor(mon))
  }

  /** An alias resolves to its id, and the text of any integer that is not an alias to that integer. */
  lemma CheckMonResolves(mon: string, cfg: Config, n: int)
    ensures (exists i :: 0 <= i < |cfg.monitorNames| && cfg.monitorNames[i] == (mon, n)) ==> CheckMon(mon, cfg) == Success(n)
    ensures mon == IntToString(n) && DictGet(cfg.monitorNames, mon).None? ==> CheckMon(mon, cfg) == Success(n)
  {
    if exists i :: 0 <= i < |cfg.monitorNames| && cfg.monitorNames[i] == (mon, n) {
      var i :| 0 <= i < |cfg.monitorNames| && cfg.monitorNames[i] == (mon, n);
      var j :| 0 <= j < |cfg.monitorNames| && cfg.monitorNames[j] == (mon, DictGet(cfg.monitorNames, mon).value);
      assert i == j;
    }
    ParseIntOfString(n);
  }

  /** `CheckMon` fails exactly on text that is neither an alias nor an integer. */
  lemma CheckMonFails(mon: string, cfg: Config)
    ensures CheckMon(mon, cfg).Failure? <==> DictGet(cfg.monitorNames, mon).None? && ParseInt(mon).None?
    ensures CheckMon(mon, cfg).Failure? ==> CheckMon(mon, cfg).error == InvalidMonitor(mon)
  {
  }

  /** An integer or the value of a known name, looked up in `names` first. */
  function NamedOrInt(names: Dict, val: string): Option<int>
  {
    match DictGet(names, val)
    case Some(v) => Some(v)
    case None => ParseInt(val)
  }

  /**
   * `_check_val`: input sources try the configured names, then the command's own parameter
   * names, then an integer; contrast and luminance take any integer; power mode and colour
   * preset try the parameter names, then an integer. Any other code falls through the match and
   * yields no value (`Success(None)`).
   */
  function CheckVal(com: VcpCommand, val: string, cfg: Config): (r: Result<Option<int>, CommandError>)
    ensures r.Failure? ==> r.error == InvalidValue(val)
    ensures r == Success(None) <==>
      com.code != InputSource && com.code != ImageContrast && com.code != ImageLuminance
      && com.code != DisplayPowerMode && com.code != ImageColorPreset
  {
    if com.code == InputSource then
      match DictGet(cfg.inputSourceNames, val)
      case Some(v) => Success(Some(v))
      case None =>
        match NamedOrInt(com.paramNames, val)
        case Some(v) => Success(Some(v))
        case None => Failure(InvalidValue(val))
    else if com.code == ImageContrast || com.code == ImageLuminance then
      match ParseInt(val)
      case Some(v) => Success(Some(v))
      case None => Failure(InvalidValue(val))
    else if com.code == DisplayPowerMode || com.code == ImageColorPreset then
      match NamedOrInt(com.paramNames, val)
      case Some(v) => Success(Some(v))
      case None => Failure(InvalidValue(val))
    else
      Success(None)
  }

  /** Contrast and luminance accept the text of every integer, with no range check. */
  lemma CheckValAnyInteger(com: VcpCommand, n: int, cfg: Config)
    requires com.code == ImageContrast || com.code == ImageLuminance
    ensures CheckVal(com, IntToString(n), cfg) == Success(Some(n))
  {
    ParseIntOfString(n);
  }

  /**
   * For an input source a configured name wins over a parameter name of the same text, which
   * wins over reading the text as an integer; the value fails only when all three do.
   */
  lemma CheckValInputPriority(com: VcpCommand, val: string, cfg: Config)
    requires com.code == InputSource
    ensures DictGet(cfg.inputSourceNames, val).Some? ==> CheckVal(com, val, cfg) == Success(Some(DictGet(cfg.inputSourceNames, val).value))
    ensures DictGet(cfg.inputSourceNames, val).None? && DictGet(com.paramNames, val).Some? ==>
      CheckVal(com, val, cfg) == Success(Some(DictGet(com.paramNames, val).value))
    ensures CheckVal(com, val, cfg).Failure? <==>
      DictGet(cfg.inputSourceNames, val).None? && DictGet(com.paramNames, val).None? && ParseInt(val).None?
  {
  }

  /** The names in `names` whose id is `id`, in dictionary order. */
  function NamesOf(names: seq<(string, int)>, id: int): (r: seq<string>)
    ensures |r| <= |names|
  {
    if names == [] then []
    else NamesOf(names[..|names| - 1], id) + (if names[|names| - 1].1 == id then [names[|names| - 1].0] else [])
  }

  /** `NamesOf` holds exactly the names mapped to `id`. */
  lemma {:induction false} NamesOfMembers(names: seq<(string, int)>, id: int, x: string)
    ensures x in NamesOf(names, id) <==> (x, id) in names
  {
    if names != [] {
      NamesOfMembers(names[..|names| - 1], id, x);
      assert names == names[..|names| - 1] + [names[|names| - 1]];
    }
  }

  /** `"monitor #N"`, followed by `" (a, b)"` when some aliases name monitor N. */
  function MonitorLabel(mon: int, cfg: Config): string
  {
    var aliases := NamesOf(cfg.monitorNames, mon);
    if aliases == [] then "monitor #" + IntToString(mon)
    else "monitor #" + IntToString(mon) + " (" + Join(aliases, ", ") + ")"
  }

  /** A monitor label starts with `"monitor #N"` and ends in neither a space nor a comma. */
  lemma MonitorLabelShape(mon: int, cfg: Config)
    ensures var s := MonitorLabel(mon, cfg);
      && |s| > 9 + |IntToString(mon)| - 1
      && s[..9 + |IntToString(mon)|] == "monitor #" + IntToString(mon)
      && s[|s| - 1] != ' ' && s[|s| - 1] != ','
  {
    var n := IntToString(mon);
    var s := MonitorLabel(mon, cfg);
    if NamesOf(cfg.monitorNames, mon) == [] {
      assert s[|s| - 1] == n[|n| - 1];
    }
  }

  /** The alias loop of `_monitor_str` and `_value_str`: each name mapped to `id`, followed by `", "`. */
  method CollectAliases(names: seq<(string, int)>, id: int) returns (aliases: string)
    ensures aliases == Terminated(NamesOf(names, id), ", ")
  {
    aliases := "";
    for i := 0 to |names|
      invariant aliases == Terminated(NamesOf(names[..i], id), ", ")
    {
      assert names[..i + 1][..i] == names[..i];
      assert NamesOf(names[..i + 1], id) == NamesOf(names[..i], id) + (if names[i].1 == id then [names[i].0] else []);
      if names[i].1 == id {
        TerminatedSnoc(NamesOf(names[..i], id), names[i].0, ", ");
        aliases := aliases + names[i].0 + ", ";
      } else {
        assert NamesOf(names[..i + 1], id) == NamesOf(names[..i], id);
      }
    }
    assert names[..|names|] == names;
  }

  /** The terminated alias list is empty exactly when there are no aliases, and otherwise ends in the join. */
  lemma TrimAliases(xs: seq<string>, aliases: string)
    requires aliases == Terminated(xs, ", ")
    ensures aliases == "" <==> xs == []
    ensures xs != [] ==> |aliases| >= 2 && aliases[..|aliases| - 2] == Join(xs, ", ")
  {
    if xs != [] {
      TerminatedIsJoin(xs, ", ");
    }
  }

  /** `_monitor_str`: the label of monitor `mon`, built alias by alias. */
  method MonitorStr(mon: int, cfg: Config) returns (s: string)
    ensures s == MonitorLabel(mon, cfg)
  {
    var monstr := "monitor #" + IntToString(mon) + " ";
    var aliases := CollectAliases(cfg.monitorNames, mon);
    ghost var found := NamesOf(cfg.monitorNames, mon);
    ghost var head := "monitor #" + IntToString(mon);
    TrimAliases(found, aliases);
    if aliases != "" {
      monstr := monstr + "(" + aliases[..|aliases| - 2] + ")";
      assert monstr == head + " (" + Join(found, ", ") + ")";
      StripUnchanged(monstr);
    } else {
      StripTrailingSpace(head);
    }
    s := Strip(monstr);
  }

  /** The last name in `names` mapped to `id`, if any. */
  function LastName(names: seq<(string, int)>, id: int): Option<string>
  {
    if names == [] then None
    else if names[|names| - 1].1 == id then Some(names[|names| - 1].0)
    else LastName(names[..|names| - 1], id)
  }

  /** `LastName` finds a name mapped to `id` after which no entry is mapped to `id`, and fails only when none is. */
  lemma {:induction false} LastNameIsLast(names: seq<(string, int)>, id: int)
    ensures LastName(names, id).None? <==> forall k :: 0 <= k < |names| ==> names[k].1 != id
    ensures LastName(names, id).Some? ==>
      exists j :: 0 <= j < |names| && names[j] == (LastName(names, id).value, id) && (forall k :: j < k < |names| ==> names[k].1 != id)
  {
    if names != [] {
      var init, last := names[..|names| - 1], names[|names| - 1];
      if last.1 == id {
        assert names[|names| - 1] == (LastName(names, id).value, id);
      } else {
        LastNameIsLast(init, id);
        assert forall k :: 0 <= k < |init| ==> init[k] == names[k];
        if LastName(init, id).Some? {
          var j :| 0 <= j < |init| && init[j] == (LastName(init, id).value, id) && (forall k :: j < k < |init| ==> init[k].1 != id);
          assert names[j] == (LastName(names, id).value, id);
        }
      }
    }
  }

  /** The parameter part of a value label: the last parameter name of `value`, `""` when none. */
  function ParamName(params: seq<(string, int)>, value: int): string
  {
    match LastName(params, value)
    case Some(x) => x
    case None => ""
  }

  /** The alias part of a value label: the input-source names of `value`, for input sources only. */
  function InputAliases(com: VcpCommand, value: int, cfg: Config): string
  {
    if com.code == InputSource then Join(NamesOf(cfg.inputSourceNames, value), ", ") else ""
  }

  /** `"V"`, followed by `" (param | aliases)"`, `" (param)"` or `" (aliases)"` for the parts that are non-empty. */
  function ValueLabel(com: VcpCommand, value: int, cfg: Config): string
  {
    var param := ParamName(com.paramNames, value);
    var aliases := InputAliases(com, value, cfg);
    if param != "" || aliases != "" then
      IntToString(value) + " (" + param + (if param != "" && aliases != "" then " | " else "") + aliases + ")"
    else IntToString(value)
  }

  /** A value label starts with the decimal text of the value, which reads back as the value. */
  lemma ValueLabelStartsWithValue(com: VcpCommand, value: int, cfg: Config)
    ensures var v := IntToString(value);
      var s := ValueLabel(com, value, cfg);
      |s| >= |v| && s[..|v|] == v && ParseInt(s[..|v|]) == Some(value)
  {
    ParseIntOfString(value);
  }

  /** Outside input sources no alias is shown: the label is the value and, if any, its parameter name. */
  lemma ValueLabelWithoutAliases(com: VcpCommand, value: int, cfg: Config)
    requires com.code != InputSource
    ensures var param := ParamName(com.paramNames, value);
      ValueLabel(com, value, cfg) == IntToString(value) + (if param != "" then " (" + param + ")" else "")
  {
  }

  /** An input source with both parts shows the parameter name, then `" | "`, then the joined aliases. */
  lemma ValueLabelBothParts(com: VcpCommand, value: int, cfg: Config, x: string)
    requires com.code == InputSource && x != ""
    requires (x, value) in com.paramNames && forall k :: 0 <= k < |com.paramNames| ==> com.paramNames[k].1 == value ==> com.paramNames[k].0 == x
    requires var names := NamesOf(cfg.inputSourceNames, value); names != [] && Join(names, ", ") != ""
    ensures ValueLabel(com, value, cfg)
      == IntToString(value) + " (" + x + " | " + Join(NamesOf(cfg.inputSourceNames, value), ", ") + ")"
  {
    LastNameIsLast(com.paramNames, value);
    var j :| 0 <= j < |com.paramNames| && com.paramNames[j] == (x, value);
    assert com.paramNames[j].1 == value;
  }

  /** `_value_str(com, value)` for a command: the parameter loop, then the alias loop for input sources. */
  method ValueStr(com: VcpCommand, value: int, cfg: Config) returns (s: string)
    ensures s == ValueLabel(com, value, cfg)
  {
    var valstr := IntToString(value);
    var param := "";
    var params := com.paramNames;
    for i := 0 to |params|
      invariant param == ParamName(params[..i], value)
    {
      assert params[..i + 1][..i] == params[..i];
      if params[i].1 == value {
        param := params[i].0;
      }
    }
    assert params[..|params|] == params;
    var aliases := "";
    if com.code == InputSource {
      aliases := CollectAliases(cfg.inputSourceNames, value);
      TrimAliases(NamesOf(cfg.inputSourceNames, value), aliases);
    }
    if aliases != "" {
      aliases := aliases[..|aliases| - 2];
    }
    assert aliases == InputAliases(com, value, cfg);
    if param != "" || aliases != "" {
      valstr := valstr + " (" + param + (if param != "" && aliases != "" then " | " else "") + aliases + ")";
    }
    s := valstr;
  }

  /** The first argument of `_value_str`: a command, or a bare feature code. */
  datatype FeatureRef = Command(com: VcpCommand) | Code(code: int)

  /**
   * `_value_str` as written: a code no known command has is rendered as `str(com)`, the code,
   * and the value is dropped.
   */
  function ValueStrAsWritten(ref: FeatureRef, value: int, cfg: Config, registry: seq<VcpCommand>): string
  {
    match ref
    case Command(c) => ValueLabel(c, value, cfg)
    case Code(code) =>
      match FindCommand(registry, code)
      case Some(c) => ValueLabel(c, value, cfg)
      case None => IntToString(code)
  }

  /** As written, an unknown code with any other value is displayed as a label that reads back as the code. */
  lemma ValueStrShowsCode(code: int, value: int, cfg: Config, registry: seq<VcpCommand>)
    requires FindCommand(registry, code).None? && code != value
    ensures ParseInt(ValueStrAsWritten(Code(code), value, cfg, registry)) == Some(code)
    ensures ValueStrAsWritten(Code(0x99), 5, cfg, []) == "153"
  {
    ParseIntOfString(code);
  }

  /** `_value_str` as intended: an unknown code still renders the value, with no names. */
  function ValueStrCorrected(ref: FeatureRef, value: int, cfg: Config, registry: seq<VcpCommand>): string
  {
    match ref
    case Command(c) => ValueLabel(c, value, cfg)
    case Code(code) =>
      match FindCommand(registry, code)
      case Some(c) => ValueLabel(c, value, cfg)
      case None => IntToString(value)
  }

  /** Corrected, every label starts with the value's text, and it agrees with the code whenever a command is found. */
  lemma ValueStrCorrectedShowsValue(ref: FeatureRef, value: int, cfg: Config, registry: seq<VcpCommand>)
    ensures var v := IntToString(value);
      var s := ValueStrCorrected(ref, value, cfg, registry);
      |s| >= |v| && ParseInt(s[..|v|]) == Some(value)
    ensures ref.Command? || FindCommand(registry, ref.code).Some? ==>
      ValueStrCorrected(ref, value, cfg, registry) == ValueStrAsWritten(ref, value, cfg, registry)
  {
    ParseIntOfString(value);
    match ref
    case Command(c) => ValueLabelStartsWithValue(c, value, cfg);
    case Code(code) =>
      if FindCommand(registry, code).Some? {
        ValueLabelStartsWithValue(FindCommand(registry, code).value, value, cfg);
      } else {
        assert IntToString(value)[..|IntToString(value)|] == IntToString(value);
      }
  }

  /** What the multi-monitor commands do, in order: a session call on a monitor, or a pause. */
  datatype CliEvent = Call(mon: int) | Sleep

  /** One reading of `_get_attr`: the current value, and the maximum unless the feature is discrete. */
  datatype Reading = Reading(value: int, max: Option<int>)

  /** One session call: its result, the monitor's current values after it, and the requests it sent. */
  datatype Step<T> = Step(result: Result<T, CommandError>, values: map<int, int>, requests: seq<Request>)

  /**
   * The outcome of the first calls of a multi-monitor command: the results so far or the error
   * that stopped it, the events, the monitor's current values, and the requests it received.
   */
  datatype Run<T> = Run(result: Result<seq<T>, CommandError>, events: seq<CliEvent>, values: map<int, int>, requests: seq<Request>)

  /** The pause after the `n`-th of the monitors: there is one unless it was the last. */
  function Pause(mons: seq<int>, n: nat): seq<CliEvent>
  {
    if n < |mons| then [Sleep] else []
  }

  /**
   * The loop the multi-monitor commands share, over the first `n` monitors: a call on each in
   * turn, with a pause after each successful call but the last when `paced`; the first error
   * propagates and ends the loop.
   */
  function Loop<T>(step: (map<int, int>, int) -> Step<T>, values: map<int, int>, mons: seq<int>, paced: bool, n: nat): Run<T>
    requires n <= |mons|
  {
    if n == 0 then Run(Success([]), [], values, [])
    else
      var prev := Loop(step, values, mons, paced, n - 1);
      var m := mons[n - 1];
      if prev.result.Failure? then prev
      else
        var call := step(prev.values, m);
        var requests := prev.requests + call.requests;
        match call.result
        case Failure(e) => Run(Failure(e), prev.events + [Call(m)], call.values, requests)
        case Success(x) =>
          Run(Success(prev.result.value + [x]), prev.events + [Call(m)] + (if paced then Pause(mons, n) else []), call.values, requests)
  }

  /** Once the loop has failed, later monitors change nothing. */
  lemma {:induction false} LoopStops<T>(step: (map<int, int>, int) -> Step<T>, values: map<int, int>, mons: seq<int>, paced: bool, n: nat, k: nat)
    requires n <= k <= |mons| && Loop(step, values, mons, paced, n).result.Failure?
    ensures Loop(step, values, mons, paced, k) == Loop(step, values, mons, paced, n)
    decreases k
  {
    if k > n {
      LoopStops(step, values, mons, paced, n, k - 1);
    }
  }

  /** One more monitor in an unfinished loop. */
  lemma LoopStep<T>(step: (map<int, int>, int) -> Step<T>, values: map<int, int>, mons: seq<int>, paced: bool, i: nat)
    requires i < |mons| && Loop(step, values, mons, paced, i).result.Success?
    ensures var prev := Loop(step, values, mons, paced, i);
      var next := Loop(step, values, mons, paced, i + 1);
      var call := step(prev.values, mons[i]);
      && next.values == call.values && next.requests == prev.requests + call.requests
      && (call.result.Failure? ==> next.result == Failure(call.result.error) && next.events == prev.events + [Call(mons[i])])
      && (call.result.Success? ==>
            && next.result == Success(prev.result.value + [call.result.value])
            && next.events == prev.events + [Call(mons[i])] + (if paced then Pause(mons, i + 1) else []))
  {
  }

  /** Reference pacing: a call on every monitor in order, with a pause between consecutive calls only. */
  function Paced(mons: seq<int>): seq<CliEvent>
  {
    if mons == [] then []
    else if |mons| == 1 then [Call(mons[0])]
    else [Call(mons[0]), Sleep] + Paced(mons[1..])
  }

  /** A paced trace starts and ends with a call and has one pause fewer than calls. */
  lemma {:induction false} PacedShape(mons: seq<int>)
    requires mons != []
    ensures |Paced(mons)| == 2 * |mons| - 1
    ensures Paced(mons)[0] == Call(mons[0]) && Paced(mons)[|Paced(mons)| - 1] == Call(mons[|mons| - 1])
    decreases |mons|
  {
    if |mons| > 1 {
      PacedShape(mons[1..]);
    }
  }

  /** Pacing one more monitor adds a pause and its call. */
  lemma {:induction false} PacedSnoc(mons: seq<int>, m: int)
    requires mons != []
    ensures Paced(mons + [m]) == Paced(mons) + [Sleep, Call(m)]
    decreases |mons|
  {
    if |mons| == 1 {
      assert (mons + [m])[1..] == [m];
    } else {
      assert (mons + [m])[1..] == mons[1..] + [m];
      PacedSnoc(mons[1..], m);
    }
  }

  /** A call event for each monitor, with no pauses. */
  function Calls(mons: seq<int>): seq<CliEvent>
  {
    seq(|mons|, k requires 0 <= k < |mons| => Call(mons[k]))
  }

  lemma CallsSnoc(mons: seq<int>, n: nat)
    requires n < |mons|
    ensures Calls(mons[..n]) + [Call(mons[n])] == Calls(mons[..n + 1])
  {
  }

  /** The events after `n` successful calls: paced, a pause follows unless all are done. */
  function EventsAfter(mons: seq<int>, paced: bool, n: nat): seq<CliEvent>
    requires n <= |mons|
  {
    if !paced then Calls(mons[..n]) else if n == 0 then [] else Paced(mons[..n]) + Pause(mons, n)
  }

  lemma EventsExtend(mons: seq<int>, paced: bool, n: nat)
    requires n < |mons|
    ensures EventsAfter(mons, paced, n) + [Call(mons[n])] + (if paced then Pause(mons, n + 1) else []) == EventsAfter(mons, paced, n + 1)
  {
    if !paced {
      CallsSnoc(mons, n);
    } else if n > 0 {
      assert mons[..n + 1] == mons[..n] + [mons[n]];
      PacedSnoc(mons[..n], mons[n]);
    }
  }

  /** After successful calls on the first `n` monitors, the events are those calls, paced when `paced`. */
  lemma {:induction false} LoopEventsOnSuccess<T>(step: (map<int, int>, int) -> Step<T>, values: map<int, int>, mons: seq<int>, paced: bool, n: nat)
    requires n <= |mons|
    ensures var run := Loop(step, values, mons, paced, n);
      run.result.Success? ==> run.events == EventsAfter(mons, paced, n)
    decreases n
  {
    if n > 0 {
      var prev := Loop(step, values, mons, paced, n - 1);
      LoopEventsOnSuccess(step, values, mons, paced, n - 1);
      if prev.result.Success? {
        var call := step(prev.values, mons[n - 1]);
        if call.result.Success? {
          assert Loop(step, values, mons, paced, n).events == prev.events + [Call(mons[n - 1])] + (if paced then Pause(mons, n) else []);
          EventsExtend(mons, paced, n - 1);
        }
      }
    }
  }

  /** When a call fails, that call is the last event and the calls before it all succeeded. */
  lemma {:induction false} LoopEventsOnFailure<T>(step: (map<int, int>, int) -> Step<T>, values: map<int, int>, mons: seq<int>, paced: bool, n: nat)
    requires n <= |mons|
    ensures var run := Loop(step, values, mons, paced, n);
      run.result.Failure? ==> exists k :: 0 <= k < n && run.events == EventsAfter(mons, paced, k) + [Call(mons[k])]
    decreases n
  {
    if n > 0 {
      var prev := Loop(step, values, mons, paced, n - 1);
      if prev.result.Failure? {
        LoopEventsOnFailure(step, values, mons, paced, n - 1);
        var k :| 0 <= k < n - 1 && prev.events == EventsAfter(mons, paced, k) + [Call(mons[k])];
        assert Loop(step, values, mons, paced, n) == prev;
      } else {
        LoopEventsOnSuccess(step, values, mons, paced, n - 1);
        var call := step(prev.values, mons[n - 1]);
        if call.result.Failure? {
          assert Loop(step, values, mons, paced, n).events == EventsAfter(mons, paced, n - 1) + [Call(mons[n - 1])];
        }
      }
    }
  }

  /**
   * The multi-monitor commands pause between consecutive monitors and never after the last;
   * when a call fails, that call is the last event and the calls before it were all paced.
   */
  lemma LoopPacing<T>(step: (map<int, int>, int) -> Step<T>, values: map<int, int>, mons: seq<int>, paced: bool, n: nat)
    requires n <= |mons|
    ensures var run := Loop(step, values, mons, paced, n);
      && (run.result.Success? ==> run.events == EventsAfter(mons, paced, n))
      && (run.result.Failure? ==> exists k :: 0 <= k < n && run.events == EventsAfter(mons, paced, k) + [Call(mons[k])])
      && (paced && n == |mons| && run.result.Success? ==> run.events == Paced(mons))
  {
    LoopEventsOnSuccess(step, values, mons, paced, n);
    LoopEventsOnFailure(step, values, mons, paced, n);
    if n == |mons| && n > 0 {
      assert mons[..n] == mons;
    }
  }

  /** The requests `get_attribute(mon, com)` sends to the monitor. */
  function GetRequests(mon: int, com: VcpCommand): seq<Request>
  {
    if PyIndex(MonitorCount, mon).Some? then [GetRequest(com.code)] else []
  }

  /** The requests `set_attribute(mon, com, val)` sends to the monitor. */
  function SetRequests(mon: int, com: VcpCommand, val: int): seq<Request>
  {
    if PyIndex(MonitorCount, mon).Some? then [SetRequest(com.code, val)] else []
  }

  /** The requests `toggle_attribute(mon, com, val1, val2)` sends: a read, then a write if the read succeeded. */
  function ToggleRequests(values: map<int, int>, mon: int, com: VcpCommand, val1: int, val2: int): seq<Request>
  {
    match GetAttributeResult(values, mon, com)
    case Success(cur) => [GetRequest(com.code), SetRequest(com.code, ToggleTarget(cur.value, val1, val2))]
    case Failure(_) => GetRequests(mon, com)
  }

  /** The call of `_get_attr`'s loop: `get_attribute`, keeping the maximum only for a continuous feature. */
  function GetCall(com: VcpCommand, values: map<int, int>, mon: int): Step<Reading>
  {
    var result := match GetAttributeResult(values, mon, com)
      case Failure(e) => Failure(e)
      case Success(ret) => Success(Reading(ret.value, if com.discrete then None else Some(ret.max)));
    Step(result, values, GetRequests(mon, com))
  }

  function GetStep(com: VcpCommand): (map<int, int>, int) -> Step<Reading>
  {
    (values, mon) => GetCall(com, values, mon)
  }

  /** The call of `_set_attr`'s loops: `set_attribute`. */
  function SetCall(com: VcpCommand, val: int, values: map<int, int>, mon: int): Step<int>
  {
    Step(SetAttributeResult(mon, com, val), SetAttributeValues(values, mon, com, val), SetRequests(mon, com, val))
  }

  function SetStep(com: VcpCommand, val: int): (map<int, int>, int) -> Step<int>
  {
    (values, mon) => SetCall(com, val, values, mon)
  }

  /** The call of `_tog_attr`'s loop: `toggle_attribute`. */
  function TogCall(com: VcpCommand, val1: int, val2: int, values: map<int, int>, mon: int): Step<ToggledAttribute>
  {
    var (r, after) := ToggleResult(values, mon, com, val1, val2);
    Step(r, after, ToggleRequests(values, mon, com, val1, val2))
  }

  function TogStep(com: VcpCommand, val1: int, val2: int): (map<int, int>, int) -> Step<ToggledAttribute>
  {
    (values, mon) => TogCall(com, val1, val2, values, mon)
  }

  /** `_get_attr` over the first `n` monitors. */
  function GetRun(values: map<int, int>, com: VcpCommand, mons: seq<int>, n: nat): Run<Reading>
    requires n <= |mons|
  {
    Loop(GetStep(com), values, mons, true, n)
  }

  /** One pass of `set_attribute` over the first `n` monitors, pausing between them when `paced`. */
  function SetPass(values: map<int, int>, com: VcpCommand, mons: seq<int>, val: int, paced: bool, n: nat): Run<int>
    requires n <= |mons|
  {
    Loop(SetStep(com, val), values, mons, paced, n)
  }

  /**
   * `_set_attr`: the paced loop, then, if it finished, the list comprehension that sets every
   * monitor again without pauses and whose results are the ones reported.
   */
  function SetRun(values: map<int, int>, com: VcpCommand, mons: seq<int>, val: int): Run<int>
  {
    var first := SetPass(values, com, mons, val, true, |mons|);
    if first.result.Failure? then first
    else
      var second := SetPass(first.values, com, mons, val, false, |mons|);
      Run(second.result, first.events + second.events, second.values, first.requests + second.requests)
  }

  /** `_tog_attr` over the first `n` monitors. */
  function TogRun(values: map<int, int>, com: VcpCommand, mons: seq<int>, val1: int, val2: int, n: nat): Run<ToggledAttribute>
    requires n <= |mons|
  {
    Loop(TogStep(com, val1, val2), values, mons, true, n)
  }

  /** A loop that has not failed after the results `results`, with `requests0` the requests sent before it. */
  predicate Reached<T(==)>(run: Run<T>, results: seq<T>, events: seq<CliEvent>, values: map<int, int>, requests0: seq<Request>, requests: seq<Request>)
  {
    run.result == Success(results) && run.events == events && run.values == values && requests == requests0 + run.requests
  }

  /** A loop that has ended, with `requests0` the requests sent before it. */
  predicate Finished<T(==)>(run: Run<T>, r: Result<seq<T>, CommandError>, events: seq<CliEvent>, values: map<int, int>, requests0: seq<Request>, requests: seq<Request>)
  {
    r == run.result && run.events == events && run.values == values && requests == requests0 + run.requests
  }

  /** One iteration of `_get_attr`'s loop: the read on monitor `i`, then the pause unless it was the last. */
  method GetOne(state: DummyState, com: VcpCommand, mons: seq<int>, i: nat, readings: seq<Reading>, events: seq<CliEvent>,
                ghost values0: map<int, int>, ghost requests0: seq<Request>)
    returns (failure: Option<CommandError>, readings': seq<Reading>, events': seq<CliEvent>)
    requires i < |mons| && Reached(GetRun(values0, com, mons, i), readings, events, state.currentValues, requests0, state.requests)
    modifies state
    ensures failure.None? ==> Reached(GetRun(values0, com, mons, i + 1), readings', events', state.currentValues, requests0, state.requests)
    ensures failure.Some? ==>
      Finished(GetRun(values0, com, mons, i + 1), Failure(failure.value), events', state.currentValues, requests0, state.requests)
  {
    LoopStep(GetStep(com), values0, mons, true, i);
    assert GetStep(com)(state.currentValues, mons[i]) == GetCall(com, state.currentValues, mons[i]);
    var ret := GetAttribute(state, mons[i], com);
    events' := events + [Call(mons[i])];
    readings' := readings;
    if ret.Failure? {
      return Some(ret.error), readings', events';
    }
    readings' := readings + [Reading(ret.value.value, if com.discrete then None else Some(ret.value.max))];
    if i + 1 < |mons| {
      events' := events' + [Sleep];
    }
    failure := None;
  }

  /** The loop of `_get_attr`: read the feature on each monitor in turn, pausing between monitors. */
  method GetAttr(state: DummyState, com: VcpCommand, mons: seq<int>) returns (r: Result<seq<Reading>, CommandError>, events: seq<CliEvent>)
    modifies state
    ensures Finished(GetRun(old(state.currentValues), com, mons, |mons|), r, events, state.currentValues, old(state.requests), state.requests)
  {
    ghost var values0 := state.currentValues;
    ghost var requests0 := state.requests;
    var readings: seq<Reading> := [];
    events := [];
    for i := 0 to |mons|
      invariant Reached(GetRun(values0, com, mons, i), readings, events, state.currentValues, requests0, state.requests)
    {
      var failure;
      failure, readings, events := GetOne(state, com, mons, i, readings, events, values0, requests0);
      if failure.Some? {
        LoopStops(GetStep(com), values0, mons, true, i + 1, |mons|);
        return Failure(failure.value), events;
      }
    }
    r := Success(readings);
  }

  /** One iteration of a pass of sets: the set on monitor `i`, then the pause when paced and it was not the last. */
  method SetOne(state: DummyState, com: VcpCommand, mons: seq<int>, val: int, paced: bool, i: nat, written: seq<int>, events: seq<CliEvent>,
                ghost values0: map<int, int>, ghost requests0: seq<Request>)
    returns (failure: Option<CommandError>, written': seq<int>, events': seq<CliEvent>)
    requires i < |mons| && Reached(SetPass(values0, com, mons, val, paced, i), written, events, state.currentValues, requests0, state.requests)
    modifies state
    ensures failure.None? ==> Reached(SetPass(values0, com, mons, val, paced, i + 1), written', events', state.currentValues, requests0, state.requests)
    ensures failure.Some? ==>
      Finished(SetPass(values0, com, mons, val, paced, i + 1), Failure(failure.value), events', state.currentValues, requests0, state.requests)
  {
    LoopStep(SetStep(com, val), values0, mons, paced, i);
    assert SetStep(com, val)(state.currentValues, mons[i]) == SetCall(com, val, state.currentValues, mons[i]);
    var ret := SetAttribute(state, mons[i], com, val);
    events' := events + [Call(mons[i])];
    written' := written;
    if ret.Failure? {
      return Some(ret.error), written', events';
    }
    written' := written + [ret.value];
    if paced && i + 1 < |mons| {
      events' := events' + [Sleep];
    }
    failure := None;
  }

  /** One pass of `set_attribute` calls over the monitors, pausing between monitors when `paced`. */
  method SetEach(state: DummyState, com: VcpCommand, mons: seq<int>, val: int, paced: bool)
    returns (r: Result<seq<int>, CommandError>, events: seq<CliEvent>)
    modifies state
    ensures Finished(SetPass(old(state.currentValues), com, mons, val, paced, |mons|), r, events, state.currentValues, old(state.requests), state.requests)
  {
    ghost var values0 := state.currentValues;
    ghost var requests0 := state.requests;
    var written: seq<int> := [];
    events := [];
    for i := 0 to |mons|
      invariant Reached(SetPass(values0, com, mons, val, paced, i), written, events, state.currentValues, requests0, state.requests)
    {
      var failure;
      failure, written, events := SetOne(state, com, mons, val, paced, i, written, events, values0, requests0);
      if failure.Some? {
        LoopStops(SetStep(com, val), values0, mons, paced, i + 1, |mons|);
        return Failure(failure.value), events;
      }
    }
    r := Success(written);
  }

  /** `_set_attr` after its arguments are checked: the paced loop, then every set again; the second results count. */
  method SetAttr(state: DummyState, com: VcpCommand, mons: seq<int>, val: int) returns (r: Result<seq<int>, CommandError>, events: seq<CliEvent>)
    modifies state
    ensures Finished(SetRun(old(state.currentValues), com, mons, val), r, events, state.currentValues, old(state.requests), state.requests)
  {
    var first, firstEvents := SetEach(state, com, mons, val, true);
    if first.Failure? {
      return first, firstEvents;
    }
    var second, secondEvents := SetEach(state, com, mons, val, false);
    r := second;
    events := firstEvents + secondEvents;
  }

  /** One iteration of `_tog_attr`'s loop: the toggle on monitor `i`, then the pause unless it was the last. */
  method TogOne(state: DummyState, com: VcpCommand, mons: seq<int>, val1: int, val2: int, i: nat, toggled: seq<ToggledAttribute>,
                events: seq<CliEvent>, ghost values0: map<int, int>, ghost requests0: seq<Request>)
    returns (failure: Option<CommandError>, toggled': seq<ToggledAttribute>, events': seq<CliEvent>)
    requires i < |mons| && Reached(TogRun(values0, com, mons, val1, val2, i), toggled, events, state.currentValues, requests0, state.requests)
    modifies state
    ensures failure.None? ==> Reached(TogRun(values0, com, mons, val1, val2, i + 1), toggled', events', state.currentValues, requests0, state.requests)
    ensures failure.Some? ==>
      Finished(TogRun(values0, com, mons, val1, val2, i + 1), Failure(failure.value), events', state.currentValues, requests0, state.requests)
  {
    LoopStep(TogStep(com, val1, val2), values0, mons, true, i);
    assert TogStep(com, val1, val2)(state.currentValues, mons[i]) == TogCall(com, val1, val2, state.currentValues, mons[i]);
    var ret := ToggleAttribute(state, mons[i], com, val1, val2);
    events' := events + [Call(mons[i])];
    toggled' := toggled;
    if ret.Failure? {
      return Some(ret.error), toggled', events';
    }
    toggled' := toggled + [ret.value];
    if i + 1 < |mons| {
      events' := events' + [Sleep];
    }
    failure := None;
  }

  /** The loop of `_tog_attr`: toggle the feature on each monitor in turn, pausing between monitors. */
  method TogAttr(state: DummyState, com: VcpCommand, mons: seq<int>, val1: int, val2: int)
    returns (r: Result<seq<ToggledAttribute>, CommandError>, events: seq<CliEvent>)
    modifies state
    ensures Finished(TogRun(old(state.currentValues), com, mons, val1, val2, |mons|), r, events, state.currentValues, old(state.requests), state.requests)
  {
    ghost var values0 := state.currentValues;
    ghost var requests0 := state.requests;
    var toggled: seq<ToggledAttribute> := [];
    events := [];
    for i := 0 to |mons|
      invariant Reached(TogRun(values0, com, mons, val1, val2, i), toggled, events, state.currentValues, requests0, state.requests)
    {
      var failure;
      failure, toggled, events := TogOne(state, com, mons, val1, val2, i, toggled, events, values0, requests0);
      if failure.Some? {
        LoopStops(TogStep(com, val1, val2), values0, mons, true, i + 1, |mons|);
        return Failure(failure.value), events;
      }
    }
    r := Success(toggled);
  }

  /** The reading every monitor reports for `com`: they share one table of current values. */
  function SharedReading(values: map<int, int>, com: VcpCommand): Reading
    requires GetResult(values, com).Success?
  {
    var ret := GetResult(values, com).value;
    Reading(ret.value, if com.discrete then None else Some(ret.max))
  }

  /**
   * `_get_attr` succeeds exactly when every monitor index is valid and the feature is readable;
   * it then reports the same reading for every monitor, with no maximum for a discrete feature,
   * and leaves the values as they were.
   */
  lemma {:induction false} GetRunReadings(values: map<int, int>, com: VcpCommand, mons: seq<int>, n: nat)
    requires n <= |mons|
    ensures var run := GetRun(values, com, mons, n);
      && run.values == values
      && (run.result.Success? <==> (forall k :: 0 <= k < n ==> -3 <= mons[k] <= 2) && (n == 0 || GetResult(values, com).Success?))
      && (run.result.Success? ==> |run.result.value| == n)
      && (run.result.Success? && n > 0 ==>
            GetResult(values, com).Success? && forall k :: 0 <= k < n ==> run.result.value[k] == SharedReading(values, com))
    decreases n
  {
    if n > 0 {
      var prev := GetRun(values, com, mons, n - 1);
      GetRunReadings(values, com, mons, n - 1);
      MonitorIndexRange(mons[n - 1]);
      if prev.result.Success? {
        assert GetStep(com)(values, mons[n - 1]) == GetCall(com, values, mons[n - 1]);
      } else {
        assert GetRun(values, com, mons, n) == prev;
      }
    }
  }

  /** `n` copies of `x`. */
  function Copies<T>(n: nat, x: T): (r: seq<T>)
    ensures |r| == n && forall k :: 0 <= k < n ==> r[k] == x
  {
    seq(n, _ => x)
  }

  /** One pass of sets succeeds exactly when every monitor index is valid and the monitor accepts the value. */
  lemma {:induction false} SetPassSucceeds(values: map<int, int>, com: VcpCommand, mons: seq<int>, val: int, paced: bool, n: nat)
    requires n <= |mons|
    ensures SetPass(values, com, mons, val, paced, n).result.Success? <==>
      (forall k :: 0 <= k < n ==> -3 <= mons[k] <= 2) && (n == 0 || SetFailure(com.code, val).None?)
    decreases n
  {
    if n > 0 {
      var prev := SetPass(values, com, mons, val, paced, n - 1);
      SetPassSucceeds(values, com, mons, val, paced, n - 1);
      MonitorIndexRange(mons[n - 1]);
      if prev.result.Success? {
        assert SetStep(com, val)(prev.values, mons[n - 1]) == SetCall(com, val, prev.values, mons[n - 1]);
      } else {
        assert SetPass(values, com, mons, val, paced, n) == prev;
      }
    }
  }

  /**
   * A pass of sets that succeeds echoes the value for each monitor, sends one set per monitor
   * and leaves the feature at the value.
   */
  lemma {:induction false} SetPassEffect(values: map<int, int>, com: VcpCommand, mons: seq<int>, val: int, paced: bool, n: nat)
    requires n <= |mons| && SetPass(values, com, mons, val, paced, n).result.Success?
    ensures var run := SetPass(values, com, mons, val, paced, n);
      && run.result.value == Copies(n, val)
      && run.requests == Copies(n, SetRequest(com.code, val))
      && run.values == (if n == 0 then values else values[com.code := val])
    decreases n
  {
    if n > 0 {
      var prev := SetPass(values, com, mons, val, paced, n - 1);
      assert prev.result.Success?;
      SetPassEffect(values, com, mons, val, paced, n - 1);
      assert SetStep(com, val)(prev.values, mons[n - 1]) == SetCall(com, val, prev.values, mons[n - 1]);
      MonitorIndexRange(mons[n - 1]);
      assert Copies(n - 1, val) + [val] == Copies(n, val);
      assert Copies(n - 1, SetRequest(com.code, val)) + [SetRequest(com.code, val)] == Copies(n, SetRequest(com.code, val));
      if n > 1 {
        assert values[com.code := val][com.code := val] == values[com.code := val];
      }
    }
  }

  /** `_set_attr` succeeds exactly when every monitor index is valid and the monitor accepts the value. */
  lemma SetRunSucceeds(values: map<int, int>, com: VcpCommand, mons: seq<int>, val: int)
    ensures SetRun(values, com, mons, val).result.Success? <==>
      (forall k :: 0 <= k < |mons| ==> -3 <= mons[k] <= 2) && (mons == [] || SetFailure(com.code, val).None?)
  {
    var first := SetPass(values, com, mons, val, true, |mons|);
    SetPassSucceeds(values, com, mons, val, true, |mons|);
    if first.result.Success? {
      SetPassSucceeds(first.values, com, mons, val, false, |mons|);
    }
  }

  /**
   * `_set_attr` issues every set twice, first paced and then back to back, and reports the second
   * results: the value once per monitor, two identical sets per monitor, the feature left at the
   * value.
   */
  lemma SetRunSetsTwice(values: map<int, int>, com: VcpCommand, mons: seq<int>, val: int)
    requires SetRun(values, com, mons, val).result.Success?
    ensures var run := SetRun(values, com, mons, val);
      && run.result.value == Copies(|mons|, val)
      && run.requests == Copies(2 * |mons|, SetRequest(com.code, val))
      && run.values == (if mons == [] then values else values[com.code := val])
  {
    var first := SetPass(values, com, mons, val, true, |mons|);
    SetPassEffect(values, com, mons, val, true, |mons|);
    SetPassEffect(first.values, com, mons, val, false, |mons|);
    assert Copies(|mons|, SetRequest(com.code, val)) + Copies(|mons|, SetRequest(com.code, val)) == Copies(2 * |mons|, SetRequest(com.code, val));
    if mons != [] {
      assert values[com.code := val][com.code := val] == values[com.code := val];
    }
  }

  /** A successful `_set_attr` paces its first pass and runs its second back to back. */
  lemma SetRunEvents(values: map<int, int>, com: VcpCommand, mons: seq<int>, val: int)
    requires SetRun(values, com, mons, val).result.Success?
    ensures SetRun(values, com, mons, val).events == Paced(mons) + Calls(mons)
  {
    var first := SetPass(values, com, mons, val, true, |mons|);
    LoopPacing(SetStep(com, val), values, mons, true, |mons|);
    LoopPacing(SetStep(com, val), first.values, mons, false, |mons|);
    assert mons[..|mons|] == mons;
  }

  /** On a valid monitor, toggling a feature that holds one of two accepted values reads it and writes the other. */
  lemma ToggleBetween(values: map<int, int>, mon: int, com: VcpCommand, a: int, b: int, cur: int)
    requires -3 <= mon <= 2 && a != b && (cur == a || cur == b)
    requires SetFailure(com.code, a).None? && SetFailure(com.code, b).None?
    requires com.discrete || com.code in UnknownMaxValues
    ensures var other := if cur == a then b else a;
      var call := TogCall(com, a, b, values[com.code := cur], mon);
      call.result == Success(ToggledAttribute(cur, other)) && call.values == values[com.code := other]
  {
    MonitorIndexRange(mon);
    var other := if cur == a then b else a;
    assert values[com.code := cur][com.code := other] == values[com.code := other];
  }

  /** The value after `k` toggles between `a` and `b` starting from `a`. */
  function Alternate(k: nat, a: int, b: int): int
  {
    if k == 0 then a else if Alternate(k - 1, a, b) == a then b else a
  }

  /** With `a != b`, the value after `k` toggles is `a` for even `k` and `b` for odd `k`. */
  lemma {:induction false} AlternateParity(k: nat, a: int, b: int)
    requires a != b
    ensures Alternate(k, a, b) == if k % 2 == 0 then a else b
    decreases k
  {
    if k > 0 {
      AlternateParity(k - 1, a, b);
    }
  }

  /** The `k`-th toggle of `_tog_attr`'s loop moves the shared value from `Alternate(k)` to `Alternate(k + 1)`. */
  lemma TogStepAlternates(values: map<int, int>, com: VcpCommand, mon: int, a: int, b: int, k: nat)
    requires -3 <= mon <= 2
    requires a != b && SetFailure(com.code, a).None? && SetFailure(com.code, b).None?
    requires com.discrete || com.code in UnknownMaxValues
    ensures var call := TogStep(com, a, b)(values[com.code := Alternate(k, a, b)], mon);
      && call.result == Success(ToggledAttribute(Alternate(k, a, b), Alternate(k + 1, a, b)))
      && call.values == values[com.code := Alternate(k + 1, a, b)]
  {
    AlternateParity(k, a, b);
    ToggleBetween(values, mon, com, a, b, Alternate(k, a, b));
  }

  /**
   * All monitors share one current value, so `_tog_attr` over several monitors toggles that
   * value once per monitor: starting at `a`, the `k`-th toggle goes from the value after `k`
   * toggles to the next one, and the feature is left at the value after `n` toggles. With
   * `AlternateParity`: `a -> b` and `b -> a` alternate, and an even number of monitors leaves the
   * value where it started.
   */
  lemma TogRunAlternates(values: map<int, int>, com: VcpCommand, mons: seq<int>, a: int, b: int)
    requires forall k :: 0 <= k < |mons| ==> -3 <= mons[k] <= 2
    requires a != b && SetFailure(com.code, a).None? && SetFailure(com.code, b).None?
    requires com.discrete || com.code in UnknownMaxValues
    requires com.code in values && values[com.code] == a
    ensures var run := TogRun(values, com, mons, a, b, |mons|);
      && run.result == Success(seq(|mons|, (k: nat) => ToggledAttribute(Alternate(k, a, b), Alternate(k + 1, a, b))))
      && run.values == values[com.code := Alternate(|mons|, a, b)]
  {
    var states := (k: nat) => values[com.code := Alternate(k, a, b)];
    var outs := seq(|mons|, (k: nat) => ToggledAttribute(Alternate(k, a, b), Alternate(k + 1, a, b)));
    assert states(0) == values && outs[..|mons|] == outs;
    TogStepsAlternate(values, com, mons, a, b);
    LoopFollows(TogStep(com, a, b), values, mons, true, |mons|, states, outs);
  }

  /** Every toggle of `_tog_attr`'s loop, taken from the value after `k` toggles, gives the next one. */
  lemma TogStepsAlternate(values: map<int, int>, com: VcpCommand, mons: seq<int>, a: int, b: int)
    requires forall k :: 0 <= k < |mons| ==> -3 <= mons[k] <= 2
    requires a != b && SetFailure(com.code, a).None? && SetFailure(com.code, b).None?
    requires com.discrete || com.code in UnknownMaxValues
    ensures forall k: nat :: k < |mons| ==>
      var call := TogStep(com, a, b)(values[com.code := Alternate(k, a, b)], mons[k]);
      && call.result == Success(ToggledAttribute(Alternate(k, a, b), Alternate(k + 1, a, b)))
      && call.values == values[com.code := Alternate(k + 1, a, b)]
  {
    forall k: nat | k < |mons|
      ensures var call := TogStep(com, a, b)(values[com.code := Alternate(k, a, b)], mons[k]);
        && call.result == Success(ToggledAttribute(Alternate(k, a, b), Alternate(k + 1, a, b)))
        && call.values == values[com.code := Alternate(k + 1, a, b)]
    {
      TogStepAlternates(values, com, mons[k], a, b, k);
    }
  }

  /**
   * A loop whose every call succeeds, the `k`-th moving the values from `states(k)` to
   * `states(k + 1)` with result `outs[k]`, ends with those results and the last state.
   */
  lemma {:induction false} LoopFollows<T>(step: (map<int, int>, int) -> Step<T>, values: map<int, int>, mons: seq<int>, paced: bool, n: nat,
                                         states: nat -> map<int, int>, outs: seq<T>)
    requires n <= |mons| && n <= |outs| && states(0) == values
    requires forall k: nat :: k < n ==> step(states(k), mons[k]).result == Success(outs[k]) && step(states(k), mons[k]).values == states(k + 1)
    ensures Loop(step, values, mons, paced, n).result == Success(outs[..n]) && Loop(step, values, mons, paced, n).values == states(n)
    decreases n
  {
    if n > 0 {
      LoopFollows(step, values, mons, paced, n - 1, states, outs);
      var prev := Loop(step, values, mons, paced, n - 1);
      var call := step(prev.values, mons[n - 1]);
      assert call == step(states(n - 1), mons[n - 1]);
      assert call.result == Success(outs[n - 1]);
      assert outs[..n - 1] + [outs[n - 1]] == outs[..n];
    }
  }
}
