/** The monitoring service's parameter groups: key lookup, validation and the legacy reward factor. */
module Params {
  import opened Wrappers

  datatype Param = Param(key: string, value: string)

  /** A `ParamGroup`; a nil slice behaves as an empty one everywhere it is used. */
  type ParamGroup = seq<Param>

  datatype AllParams = AllParams(app: ParamGroup, auth: ParamGroup, gov: ParamGroup, node: ParamGroup, pocket: ParamGroup)

  type Uint8 = b: int | 0 <= b < 256

  /** The parsed parameters the service keeps; the float parameters not read here are left out. */
  datatype Params = Params(
    relaysToTokensMultiplier: real,
    daoAllocation: Uint8,
    proposerPercentage: Uint8,
    claimExpirationBlocks: nat)

  /** `ParamGroup.Get`: the value of the first param with key k, or ("", false). */
  function Get(g: ParamGroup, k: string): (r: (string, bool))
    ensures r.1 <==> exists i :: 0 <= i < |g| && g[i].key == k
    ensures r.1 ==> exists i :: 0 <= i < |g| && g[i].key == k && g[i].value == r.0 && forall j :: 0 <= j < i ==> g[j].key != k
    ensures !r.1 ==> r.0 == ""
    decreases |g|
  {
    if |g| == 0 then ("", false)
    else if g[0].key == k then (g[0].value, true)
    else
      var r := Get(g[1..], k);
      assert forall i :: 0 <= i < |g| - 1 ==> g[1..][i] == g[i + 1];
      r
  }

  /** The groups in the order `Validate` checks them, with their names. */
  function Groups(a: AllParams): seq<ParamGroup> {
    [a.app, a.auth, a.gov, a.node, a.pocket]
  }

  const GroupNames: seq<string> := ["app", "auth", "gov", "node", "pocket"]

  /** The message for an empty group, e.g. "app_params is empty". */
  function EmptyError(name: string): string {
    name + "_params is empty"
  }

  /** `AllParams.Validate`: an error naming the first empty group, or none. */
  function Validate(a: AllParams): (err: Option<string>)
    ensures err.None? <==> forall i :: 0 <= i < 5 ==> |Groups(a)[i]| > 0
  {
    if |a.app| == 0 then assert |Groups(a)[0]| == 0; Some(EmptyError("app"))
    else if |a.auth| == 0 then assert |Groups(a)[1]| == 0; Some(EmptyError("auth"))
    else if |a.gov| == 0 then assert |Groups(a)[2]| == 0; Some(EmptyError("gov"))
    else if |a.node| == 0 then assert |Groups(a)[3]| == 0; Some(EmptyError("node"))
    else if |a.pocket| == 0 then assert |Groups(a)[4]| == 0; Some(EmptyError("pocket"))
    else None
  }

  /** The error names the first empty group, in the order app, auth, gov, node, pocket. */
  lemma ValidateNamesFirstEmpty(a: AllParams, i: nat)
    requires i < 5 && |Groups(a)[i]| == 0
    requires forall j :: 0 <= j < i ==> |Groups(a)[j]| > 0
    ensures Validate(a) == Some(EmptyError(GroupNames[i]))
  {
    var gs := Groups(a);
    if i == 0 {
      assert GroupNames[0] == "app";
    } else if i == 1 {
      assert |gs[0]| > 0 && GroupNames[1] == "auth";
    } else if i == 2 {
      assert |gs[0]| > 0 && |gs[1]| > 0 && GroupNames[2] == "gov";
    } else if i == 3 {
      assert |gs[0]| > 0 && |gs[1]| > 0 && |gs[2]| > 0 && GroupNames[3] == "node";
    } else {
      assert |gs[0]| > 0 && |gs[1]| > 0 && |gs[2]| > 0 && |gs[3]| > 0 && GroupNames[4] == "pocket";
    }
  }

  /** Go's `uint8(x)` conversion: the value modulo 256. */
  function ToUint8(x: int): (b: Uint8)
    ensures 0 <= x < 256 ==> b == x
    ensures (x - b) % 256 == 0
  {
    x % 256
  }

  /**
   * `100 - DaoAllocation - ProposerPercentage` evaluated in uint8, as in
   * `LegacyPoktPerRelay`: it wraps once the two exceed 100.
   */
  function LegacyFactor(p: Params): (f: Uint8)
    ensures var s := p.daoAllocation + p.proposerPercentage;
      f == (if s <= 100 then 100 - s else if s <= 356 then 356 - s else 612 - s)
  {
    ToUint8(ToUint8(100 - p.daoAllocation) - p.proposerPercentage)
  }

  /** A DAO share of 90 and a proposer share of 20 give a factor of 246, not -10. */
  lemma LegacyFactorWraps()
    ensures LegacyFactor(Params(0.0, 90, 20, 0)) == 246
  {
  }
}
