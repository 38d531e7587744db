/**
 * The simulated monitor the tests run against: fixed tables of supported codes and maxima, and
 * one table of current values that every handle shares and that a successful set updates.
 */
module VcpDummy {
  import opened Wrappers
  import opened Vcp

  /**
   * `supported_codes`: `None` marks a continuous feature, bounded by `unknown_max_values`; a list
   * gives the only values a discrete feature accepts. Code 4 (factory reset) accepts none.
   */
  const SupportedCodes: map<int, Option<seq<int>>> :=
    map[4 := Some([]), 16 := None, 18 := None, 96 := Some([27, 15, 17]), 170 := Some([1, 2, 4])]

  /** `current_values` when the module is loaded. */
  const InitialValues: map<int, int> := map[16 := 75, 18 := 75, 96 := 27, 170 := 2]

  /** `unknown_max_values`: the maxima of the continuous features. */
  const UnknownMaxValues: map<int, int> := map[16 := 80, 18 := 100]

  /** A call the monitor received, in the order received. */
  datatype Request = GetRequest(code: int) | SetRequest(code: int, value: int)

  /** What `_set_vcp_feature(code, value)` raises, or `None` when it stores the value. */
  function SetFailure(code: int, value: int): Option<VcpFailure>
  {
    if code !in SupportedCodes then Some(OsError)
    else match SupportedCodes[code]
      case None =>
        if code !in UnknownMaxValues then Some(KeyError)
        else if value > UnknownMaxValues[code] then Some(ValueError)
        else None
      case Some(allowed) => if value in allowed then None else Some(OsError)
  }

  /** The current values after `_set_vcp_feature(code, value)`: updated only when it succeeds. */
  function SetValues(values: map<int, int>, code: int, value: int): map<int, int>
  {
    if SetFailure(code, value).None? then values[code := value] else values
  }

  /** What `_get_vcp_feature(com)` returns or raises given the current values. */
  function GetResult(values: map<int, int>, com: VcpCommand): Result<FeatureReturn, VcpFailure>
  {
    if com.code !in SupportedCodes then Failure(OsError)
    else if !com.discrete && com.code !in UnknownMaxValues then Failure(KeyError)
    else if com.code !in values then Failure(KeyError)
    else Success(FeatureReturn(values[com.code], if com.discrete then 0 else UnknownMaxValues[com.code]))
  }

  /** Exactly these (code, value) pairs are stored; every other set raises. */
  lemma SetAcceptance(code: int, value: int)
    ensures SetFailure(code, value).None? <==>
      || (code == 16 && value <= 80)
      || (code == 18 && value <= 100)
      || (code == 96 && (value == 27 || value == 15 || value == 17))
      || (code == 170 && (value == 1 || value == 2 || value == 4))
  {
    if code == 96 {
      assert SupportedCodes[code] == Some([27, 15, 17]);
    } else if code == 170 {
      assert SupportedCodes[code] == Some([1, 2, 4]);
    } else if code == 4 {
      assert SupportedCodes[code] == Some([]);
    }
  }

  /**
   * Which exception a rejected set raises: ValueError exactly when a continuous feature is set
   * above its maximum, OSError for an unsupported code or a value outside a discrete list, and
   * never KeyError.
   */
  lemma SetFailureKinds(code: int, value: int)
    ensures SetFailure(code, value) == Some(ValueError) <==> (code == 16 && value > 80) || (code == 18 && value > 100)
    ensures SetFailure(code, value) != Some(KeyError)
    ensures SetFailure(code, value).Some? && SetFailure(code, value) != Some(ValueError) ==> SetFailure(code, value) == Some(OsError)
  {
    if code == 96 {
      assert SupportedCodes[code] == Some([27, 15, 17]);
    } else if code == 170 {
      assert SupportedCodes[code] == Some([1, 2, 4]);
    } else if code == 4 {
      assert SupportedCodes[code] == Some([]);
    }
  }

  /** A set on code 4 always raises, whatever the value. */
  lemma FactoryResetAlwaysRejected(value: int)
    ensures SetFailure(4, value) == Some(OsError)
  {
    assert SupportedCodes[4] == Some([]);
  }

  /** A continuous feature accepts its maximum itself. */
  lemma MaximumAccepted(code: int)
    requires code in UnknownMaxValues
    ensures SetFailure(code, UnknownMaxValues[code]).None?
  {
  }

  /** A successful set changes the value of its own code, and only that one. */
  lemma SetChangesOnlyItsCode(values: map<int, int>, code: int, value: int, other: int)
    requires SetFailure(code, value).None? && other != code
    ensures code in SetValues(values, code, value) && SetValues(values, code, value)[code] == value
    ensures other in SetValues(values, code, value) <==> other in values
    ensures other in values ==> SetValues(values, code, value)[other] == values[other]
  {
  }

  /** A read after a successful set of `value` on the same code reports `value`. */
  lemma GetAfterSet(values: map<int, int>, com: VcpCommand, value: int)
    requires SetFailure(com.code, value).None?
    requires com.discrete || com.code in UnknownMaxValues
    ensures GetResult(SetValues(values, com.code, value), com).Success?
    ensures GetResult(SetValues(values, com.code, value), com).value.value == value
  {
  }

  /**
   * The values table holds only codes the monitor supports, each with a value it would accept
   * on a set; code 4 therefore never has a current value.
   */
  predicate ValuesAcceptable(values: map<int, int>)
  {
    forall c :: c in values ==> SetFailure(c, values[c]).None?
  }

  lemma InitialValuesAcceptable()
    ensures ValuesAcceptable(InitialValues)
  {
    assert SupportedCodes[96] == Some([27, 15, 17]);
    assert SupportedCodes[170] == Some([1, 2, 4]);
  }

  lemma SetKeepsValuesAcceptable(values: map<int, int>, code: int, value: int)
    requires ValuesAcceptable(values)
    ensures ValuesAcceptable(SetValues(values, code, value))
  {
  }

  /** With acceptable values, reading code 4 raises KeyError: it has no current value. */
  lemma FactoryResetUnreadable(values: map<int, int>, com: VcpCommand)
    requires ValuesAcceptable(values) && com.code == 4
    ensures GetResult(values, com) == Failure(KeyError)
  {
    if 4 in values {
      FactoryResetAlwaysRejected(values[4]);
    }
  }

  /** The module-level `current_values` table and the calls the monitor received. */
  class DummyState {
    var currentValues: map<int, int>
    ghost var requests: seq<Request>

    constructor ()
      ensures currentValues == InitialValues && requests == []
    {
      currentValues := InitialValues;
      requests := [];
    }
  }

  /** `DummyVCP`: one handle on the simulated monitor; all handles share one `DummyState`. */
  class DummyVcp {
    const state: DummyState

    constructor (state: DummyState)
      ensures this.state == state
    {
      this.state := state;
    }

    /** `_set_vcp_feature`: validate against the tables, then store the value. */
    method SetVcpFeature(com: VcpCommand, value: int) returns (failure: Option<VcpFailure>)
      modifies state
      ensures failure == SetFailure(com.code, value)
      ensures state.currentValues == SetValues(old(state.currentValues), com.code, value)
      ensures state.requests == old(state.requests) + [SetRequest(com.code, value)]
    {
      state.requests := state.requests + [SetRequest(com.code, value)];
      var code := com.code;
      if code !in SupportedCodes {
        return Some(OsError);
      }
      var allowed := SupportedCodes[code];
      if allowed.None? {
        if code !in UnknownMaxValues {
          return Some(KeyError);
        }
        if value > UnknownMaxValues[code] {
          return Some(ValueError);
        }
        state.currentValues := state.currentValues[code := value];
      } else {
        if value in allowed.value {
          state.currentValues := state.currentValues[code := value];
        } else {
          return Some(OsError);
        }
      }
      failure := None;
    }

    /** `_get_vcp_feature`: the current value, with the maximum for a continuous feature and 0 otherwise. */
    method GetVcpFeature(com: VcpCommand) returns (r: Result<FeatureReturn, VcpFailure>)
      modifies state
      ensures r == GetResult(old(state.currentValues), com)
      ensures state.currentValues == old(state.currentValues)
      ensures state.requests == old(state.requests) + [GetRequest(com.code)]
    {
      state.requests := state.requests + [GetRequest(com.code)];
      var code := com.code;
      if code !in SupportedCodes {
        return Failure(OsError);
      }
      var maxv := 0;
      if !com.discrete {
        if code !in UnknownMaxValues {
          return Failure(KeyError);
        }
        maxv := UnknownMaxValues[code];
      }
      if code !in state.currentValues {
        return Failure(KeyError);
      }
      r := Success(FeatureReturn(state.currentValues[code], maxv));
    }
  }

  /** `get_vcps`: three new handles, all on the same simulated monitor. */
  method GetVcps(state: DummyState) returns (vcps: seq<DummyVcp>)
    ensures |vcps| == 3
    ensures forall i :: 0 <= i < 3 ==> fresh(vcps[i]) && vcps[i].state == state
    ensures vcps[0] != vcps[1] && vcps[1] != vcps[2] && vcps[0] != vcps[2]
  {
    var a := new DummyVcp(state);
    var b := new DummyVcp(state);
    var c := new DummyVcp(state);
    vcps := [a, b, c];
  }
}
