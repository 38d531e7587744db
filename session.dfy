/**
 * The monitor session operations: list the monitors, pick one by index, and read, write and
 * toggle a feature on it, mapping the monitor's failures to the tool's own errors. The
 * monitors are the simulated ones, whose shared state is the `DummyState` passed in.
 */
module Session {
  import opened Wrappers
  import opened Vcp
  import opened VcpDummy

  /**
   * How a call ends when it does not return: a `MonitorBossError`, by the message it carries, or
   * an exception the code does not catch (`Unhandled`).
   */
  datatype CommandError =
    | NoSuchMonitor(mon: int)
    | CouldNotGet(mon: int)
    | NotReadable
    | CouldNotSet(mon: int, val: int)
    | NotWriteable
    | AboveMax(val: int)
    | Unhandled(failure: VcpFailure)
    | InvalidFeature(text: string)
    | InvalidMonitor(text: string)
    | InvalidValue(text: string)

  /** `ToggledAttribute`: the value read before the toggle and the value written. */
  datatype ToggledAttribute = ToggledAttribute(oldValue: int, newValue: int)

  /** How many monitors `get_vcps` reports. */
  const MonitorCount: nat := 3

  /** Python's `monitors[i]` on a list of `length` items: negative positions count from the end. */
  function PyIndex(length: nat, i: int): (r: Option<nat>)
    ensures r.Some? <==> -(length as int) <= i < length
    ensures r.Some? ==> r.value < length && (if i >= 0 then r.value == i else r.value == length + i)
  {
    if 0 <= i < length then Some(i) else if -(length as int) <= i < 0 then Some(length + i) else None
  }

  /** The error `get_attribute` reports for a failed read. */
  function GetError(mon: int, f: VcpFailure): CommandError
  {
    match f
    case VcpError => CouldNotGet(mon)
    case TypeError => NotReadable
    case _ => Unhandled(f)
  }

  /** The error `set_attribute` reports for a failed write. */
  function SetError(mon: int, val: int, f: VcpFailure): CommandError
  {
    match f
    case VcpError => CouldNotSet(mon, val)
    case TypeError => NotWriteable
    case ValueError => AboveMax(val)
    case _ => Unhandled(f)
  }

  /** `get_attribute(mon, com)` against the current values. */
  function GetAttributeResult(values: map<int, int>, mon: int, com: VcpCommand): Result<FeatureReturn, CommandError>
  {
    if PyIndex(MonitorCount, mon).None? then Failure(NoSuchMonitor(mon))
    else match GetResult(values, com)
      case Success(v) => Success(v)
      case Failure(f) => Failure(GetError(mon, f))
  }

  /** `set_attribute(mon, com, val)`: the requested value on success, never a re-read one. */
  function SetAttributeResult(mon: int, com: VcpCommand, val: int): Result<int, CommandError>
  {
    if PyIndex(MonitorCount, mon).None? then Failure(NoSuchMonitor(mon))
    else match SetFailure(com.code, val)
      case None => Success(val)
      case Some(f) => Failure(SetError(mon, val, f))
  }

  /** The current values after `set_attribute(mon, com, val)`. */
  function SetAttributeValues(values: map<int, int>, mon: int, com: VcpCommand, val: int): map<int, int>
  {
    if PyIndex(MonitorCount, mon).None? then values else SetValues(values, com.code, val)
  }

  /** The value `toggle_attribute` writes when it reads `cur`. */
  function ToggleTarget(cur: int, val1: int, val2: int): int
  {
    if cur == val1 then val2 else val1
  }

  /** `toggle_attribute(mon, com, val1, val2)`: its result and the current values after it. */
  function ToggleResult(values: map<int, int>, mon: int, com: VcpCommand, val1: int, val2: int)
    : (Result<ToggledAttribute, CommandError>, map<int, int>)
  {
    match GetAttributeResult(values, mon, com)
    case Failure(e) => (Failure(e), values)
    case Success(cur) =>
      var target := ToggleTarget(cur.value, val1, val2);
      match SetAttributeResult(mon, com, target)
      case Failure(e) => (Failure(e), SetAttributeValues(values, mon, com, target))
      case Success(_) => (Success(ToggledAttribute(cur.value, target)), SetAttributeValues(values, mon, com, target))
  }

  /** Exactly the positions -3 to 2 name a monitor. */
  lemma MonitorIndexRange(mon: int)
    ensures PyIndex(MonitorCount, mon).Some? <==> -3 <= mon <= 2
    ensures mon == -1 ==> PyIndex(MonitorCount, mon) == Some(2)
  {
  }

  /** A successful `set_attribute` returns exactly the value it was asked to write. */
  lemma SetAttributeEchoes(mon: int, com: VcpCommand, val: int)
    ensures SetAttributeResult(mon, com, val).Success? ==> SetAttributeResult(mon, com, val).value == val
    ensures SetAttributeResult(mon, com, val).Success? <==> -3 <= mon <= 2 && SetFailure(com.code, val).None?
  {
  }

  /** Setting a continuous feature above its maximum is reported as "above the max". */
  lemma AboveMaxReported(mon: int, com: VcpCommand, val: int)
    requires -3 <= mon <= 2 && com.code in UnknownMaxValues && val > UnknownMaxValues[com.code]
    ensures SetAttributeResult(mon, com, val) == Failure(AboveMax(val))
  {
    SetFailureKinds(com.code, val);
  }

  /**
   * A toggle reads first and writes `val2` when it read `val1`, `val1` otherwise, reporting the
   * value read and the value written; a failed read reports that failure and writes nothing.
   */
  lemma ToggleWritesOtherValue(values: map<int, int>, mon: int, com: VcpCommand, val1: int, val2: int)
    ensures var (r, after) := ToggleResult(values, mon, com, val1, val2);
      && (GetAttributeResult(values, mon, com).Failure? ==> r == Failure(GetAttributeResult(values, mon, com).error) && after == values)
      && (r.Success? ==>
            var cur := GetAttributeResult(values, mon, com).value.value;
            && r.value.oldValue == cur
            && r.value.newValue == (if cur == val1 then val2 else val1)
            && after == values[com.code := r.value.newValue])
  {
  }

  /** With `val1 == val2` a toggle always writes that value; from 75, "75 75" toggles 75 to 75. */
  lemma ToggleSameValues(values: map<int, int>, mon: int, com: VcpCommand, val: int)
    ensures var (r, _) := ToggleResult(values, mon, com, val, val);
      r.Success? ==> r.value.newValue == val
    ensures ToggleResult(InitialValues, 1, VcpCommand(ImageLuminance, false, []), 75, 75)
      == (Success(ToggledAttribute(75, 75)), InitialValues)
  {
    var lum := VcpCommand(ImageLuminance, false, []);
    assert GetResult(InitialValues, lum) == Success(FeatureReturn(75, 80));
    assert InitialValues[ImageLuminance := 75] == InitialValues;
  }

  /** Toggling twice between two different values a feature holds one of returns it there. */
  lemma {:induction false} ToggleTwice(values: map<int, int>, mon: int, com: VcpCommand, a: int, b: int)
    requires -3 <= mon <= 2 && a != b
    requires com.discrete || com.code in UnknownMaxValues
    requires SetFailure(com.code, a).None? && SetFailure(com.code, b).None?
    requires com.code in values && values[com.code] == a
    ensures var (r1, after1) := ToggleResult(values, mon, com, a, b);
      var (r2, after2) := ToggleResult(after1, mon, com, a, b);
      && r1 == Success(ToggledAttribute(a, b))
      && r2 == Success(ToggledAttribute(b, a))
      && after2 == values
  {
    var after1 := SetValues(values, com.code, b);
    GetAfterSet(values, com, b);
    GetAfterSet(after1, com, a);
    assert after1[com.code := a] == values;
  }

  /** `list_monitors`: the monitor handles `get_vcps` returns. */
  method ListMonitors(state: DummyState) returns (monitors: seq<DummyVcp>)
    ensures |monitors| == MonitorCount
    ensures forall i :: 0 <= i < |monitors| ==> fresh(monitors[i]) && monitors[i].state == state
  {
    monitors := GetVcps(state);
  }

  /** `_get_monitor`: the monitor at Python index `mon`, or "monitor #mon does not exist". */
  method GetMonitor(state: DummyState, mon: int) returns (r: Result<DummyVcp, CommandError>)
    ensures r.Success? <==> PyIndex(MonitorCount, mon).Some?
    ensures r.Success? ==> fresh(r.value) && r.value.state == state
    ensures r.Failure? ==> r.error == NoSuchMonitor(mon)
  {
    var monitors := ListMonitors(state);
    var index := PyIndex(|monitors|, mon);
    if index.None? {
      return Failure(NoSuchMonitor(mon));
    }
    r := Success(monitors[index.value]);
  }

  /** `get_attribute`: read feature `com` on monitor `mon`. */
  method GetAttribute(state: DummyState, mon: int, com: VcpCommand) returns (r: Result<FeatureReturn, CommandError>)
    modifies state
    ensures r == GetAttributeResult(old(state.currentValues), mon, com)
    ensures state.currentValues == old(state.currentValues)
    ensures state.requests == old(state.requests) + (if PyIndex(MonitorCount, mon).Some? then [GetRequest(com.code)] else [])
  {
    var monitor := GetMonitor(state, mon);
    if monitor.Failure? {
      return Failure(monitor.error);
    }
    var val := monitor.value.GetVcpFeature(com);
    if val.Failure? {
      return Failure(GetError(mon, val.error));
    }
    r := Success(val.value);
  }

  /** `set_attribute`: write `val` to feature `com` on monitor `mon` and echo `val`. */
  method SetAttribute(state: DummyState, mon: int, com: VcpCommand, val: int) returns (r: Result<int, CommandError>)
    modifies state
    ensures r == SetAttributeResult(mon, com, val)
    ensures state.currentValues == SetAttributeValues(old(state.currentValues), mon, com, val)
    ensures state.requests == old(state.requests) + (if PyIndex(MonitorCount, mon).Some? then [SetRequest(com.code, val)] else [])
  {
    var monitor := GetMonitor(state, mon);
    if monitor.Failure? {
      return Failure(monitor.error);
    }
    var failure := monitor.value.SetVcpFeature(com, val);
    if failure.Some? {
      return Failure(SetError(mon, val, failure.value));
    }
    r := Success(val);
  }

  /**
   * `toggle_attribute`: read the feature, then write `val2` if it held `val1` and `val1`
   * otherwise. The read is issued before the write, and a failed read issues no write.
   */
  method ToggleAttribute(state: DummyState, mon: int, com: VcpCommand, val1: int, val2: int)
    returns (r: Result<ToggledAttribute, CommandError>)
    modifies state
    ensures (r, state.currentValues) == ToggleResult(old(state.currentValues), mon, com, val1, val2)
    ensures PyIndex(MonitorCount, mon).None? ==> state.requests == old(state.requests)
    ensures PyIndex(MonitorCount, mon).Some? && GetAttributeResult(old(state.currentValues), mon, com).Failure? ==>
      state.requests == old(state.requests) + [GetRequest(com.code)]
    ensures GetAttributeResult(old(state.currentValues), mon, com).Success? ==>
      var cur := GetAttributeResult(old(state.currentValues), mon, com).value.value;
      state.requests == old(state.requests) + [GetRequest(com.code), SetRequest(com.code, ToggleTarget(cur, val1, val2))]
  {
    var cur := GetAttribute(state, mon, com);
    if cur.Failure? {
      return Failure(cur.error);
    }
    var newVal := if cur.value.value == val1 then val2 else val1;
    var written := SetAttribute(state, mon, com, newVal);
    if written.Failure? {
      return Failure(written.error);
    }
    r := Success(ToggledAttribute(cur.value.value, newVal));
  }
}
