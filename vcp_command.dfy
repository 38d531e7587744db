/**
 * The VCP vocabulary shared by the monitor back ends and the session layer: a command
 * descriptor, the reply of a feature read and the failures a monitor call can raise.
 */
module Vcp {
  import opened Wrappers

  /** A Python dictionary from names to integers: its items in insertion order, keys distinct. */
  predicate UniqueKeys(d: seq<(string, int)>)
  {
    forall i, j :: 0 <= i < j < |d| ==> d[i].0 != d[j].0
  }

  type Dict = d: seq<(string, int)> | UniqueKeys(d) witness []

  /** `d.get(k)`: the value stored under `k`, if any. */
  function DictGet(d: Dict, k: string): (r: Option<int>)
    ensures r.Some? <==> exists i :: 0 <= i < |d| && d[i].0 == k
    ensures r.Some? ==> exists i :: 0 <= i < |d| && d[i] == (k, r.value)
  {
    if d == [] then None
    else if d[0].0 == k then Some(d[0].1)
    else
      var rest: Dict := d[1..];
      var r := DictGet(rest, k);
      assert forall i :: 1 <= i < |d| ==> d[i] == rest[i - 1];
      r
  }

  /** MCCS feature codes the session and command-line layers treat specially. */
  const ImageLuminance: int := 0x10
  const ImageContrast: int := 0x12
  const ImageColorPreset: int := 0x14
  const InputSource: int := 0x60
  const DisplayPowerMode: int := 0xD6

  /**
   * A VCP command: its feature code, whether its values are discrete, and the named parameter
   * values it knows, in declaration order (the `param_names` dictionary).
   */
  datatype VcpCommand = VcpCommand(code: int, discrete: bool, paramNames: Dict)

  /** `VCPFeatureReturn`: the current value of a feature and its maximum. */
  datatype FeatureReturn = FeatureReturn(value: int, max: int)

  /**
   * The exceptions a monitor call can raise: the library's own VCPError and the Python
   * exceptions its back ends let through.
   */
  datatype VcpFailure = VcpError | TypeError | ValueError | OsError | KeyError
}
