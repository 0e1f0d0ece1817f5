/**
 * The bridge resolver of the rollup sequencer: gas figures for DeFi bridges, looked
 * up by bridge call data in the configured bridge list, with the blockchain's own
 * figures as the fallback for bridges that are not configured.
 */
module BridgeResolver {
  import opened Wrappers

  type pos = x: nat | x > 0 witness 1

  datatype BridgeConfig = BridgeConfig(bridgeCallData: nat, numTxs: pos, gas: nat, rollupFrequency: nat)

  /** What the resolver asks of the blockchain: its gas figure for a bridge and its status flag. */
  datatype Blockchain = Blockchain(bridgeGas: nat, allowThirdPartyContracts: bool)

  datatype Resolver = Resolver(configs: seq<BridgeConfig>, blockchain: Blockchain, defaultDeFiBatchSize: pos)

  const UNRECOGNISED_BRIDGE: string := "Cannot get gas. Unrecognised DeFi-bridge"

  predicate Configured(configs: seq<BridgeConfig>, c: nat) {
    exists i :: 0 <= i < |configs| && configs[i].bridgeCallData == c
  }

  /** The index of the first configured entry for `c`, if any. */
  function FindIndex(configs: seq<BridgeConfig>, c: nat): (r: Option<nat>)
    ensures r.None? <==> !Configured(configs, c)
    ensures r.Some? ==>
      r.value < |configs| && configs[r.value].bridgeCallData == c && forall j :: 0 <= j < r.value ==> configs[j].bridgeCallData != c
  {
    if configs == [] then None
    else if configs[0].bridgeCallData == c then Some(0)
    else
      match FindIndex(configs[1..], c)
      case None =>
        assert forall i :: 1 <= i < |configs| ==> configs[i] == configs[1..][i - 1];
        None
      case Some(k) =>
        assert forall j :: 1 <= j < k + 1 ==> configs[j] == configs[1..][j - 1];
        Some(k + 1)
  }

  /** `getBridgeConfig`: the configured entry for the given bridge call data. */
  function GetBridgeConfig(r: Resolver, c: nat): (res: Option<BridgeConfig>)
    ensures res.None? <==> !Configured(r.configs, c)
    ensures res.Some? ==> res.value in r.configs && res.value.bridgeCallData == c
  {
    match FindIndex(r.configs, c)
    case None => None
    case Some(i) => Some(r.configs[i])
  }

  predicate DistinctKeys(configs: seq<BridgeConfig>) {
    forall i, j :: 0 <= i < j < |configs| ==> configs[i].bridgeCallData != configs[j].bridgeCallData
  }

  /** With distinct keys, looking up an entry's own key returns that entry. */
  lemma GetBridgeConfigOfEntry(r: Resolver, i: nat)
    requires DistinctKeys(r.configs) && i < |r.configs|
    ensures GetBridgeConfig(r, r.configs[i].bridgeCallData) == Some(r.configs[i])
  {
    var k := FindIndex(r.configs, r.configs[i].bridgeCallData);
    assert k.Some?;
  }

  /** `getBridgeConfigs`: the configured list, unchanged and in order. */
  function GetBridgeConfigs(r: Resolver): (res: seq<BridgeConfig>)
    ensures |res| == |r.configs| && forall i :: 0 <= i < |res| ==> res[i] == r.configs[i]
  {
    r.configs
  }

  /** `getFullBridgeGas`: the configured gas, else the blockchain's figure; never an error. */
  function GetFullBridgeGas(r: Resolver, c: nat): (gas: nat)
    ensures Configured(r.configs, c) ==> gas == GetBridgeConfig(r, c).value.gas
    ensures !Configured(r.configs, c) ==> gas == r.blockchain.bridgeGas
  {
    match GetBridgeConfig(r, c)
    case Some(config) => config.gas
    case None => r.blockchain.bridgeGas
  }

  /** `Math.ceil(a / b)` on non-negative integers: the least q with q * b >= a. */
  function CeilDiv(a: nat, b: pos): (q: nat)
    ensures q * b >= a
    ensures q == 0 || (q - 1) * b < a
  {
    CeilDivBounds(a, b);
    (a + b - 1) / b
  }

  lemma CeilDivBounds(a: nat, b: pos)
    ensures ((a + b - 1) / b) * b >= a
    ensures (a + b - 1) / b == 0 || ((a + b - 1) / b - 1) * b < a
  {
    var q := (a + b - 1) / b;
    var m := (a + b - 1) % b;
    assert q * b + m == a + b - 1;
    assert 0 <= m < b;
    assert q * b >= a;
    assert (q - 1) * b == q * b - b;
  }

  /**
   * `getMinBridgeTxGas`: a configured bridge's gas shared across the transactions of
   * its batch, rounded up; for an unconfigured bridge, the blockchain's figure shared
   * across the default DeFi batch when third-party contracts are allowed, and an
   * error otherwise.
   */
  function GetMinBridgeTxGas(r: Resolver, c: nat): (res: Result<nat, string>)
    ensures Configured(r.configs, c) ==>
      var config := GetBridgeConfig(r, c).value;
      res.Ok? && res.value * config.numTxs >= config.gas && (res.value == 0 || (res.value - 1) * config.numTxs < config.gas)
    ensures !Configured(r.configs, c) && !r.blockchain.allowThirdPartyContracts ==> res == Err(UNRECOGNISED_BRIDGE)
    ensures !Configured(r.configs, c) && r.blockchain.allowThirdPartyContracts ==>
      var g, n := r.blockchain.bridgeGas, r.defaultDeFiBatchSize;
      res.Ok? && res.value * n >= g && (res.value == 0 || (res.value - 1) * n < g)
  {
    match GetBridgeConfig(r, c)
    case Some(config) => Ok(CeilDiv(config.gas, config.numTxs))
    case None =>
      if r.blockchain.allowThirdPartyContracts then Ok(CeilDiv(r.blockchain.bridgeGas, r.defaultDeFiBatchSize))
      else Err(UNRECOGNISED_BRIDGE)
  }

  /** When the division is exact, rounding up changes nothing. */
  lemma CeilDivExact(a: nat, b: pos)
    requires a % b == 0
    ensures CeilDiv(a, b) == a / b
  {
    var q := a / b;
    assert a == q * b;
    assert a + b - 1 == q * b + (b - 1);
    DivOfMulPlus(q, b, b - 1);
  }

  lemma DivOfMulPlus(q: nat, b: pos, m: nat)
    requires m < b
    ensures (q * b + m) / b == q
  {
    var x := q * b + m;
    var d, r := x / b, x % b;
    assert d * b + r == x && 0 <= r < b;
    assert (q + 1) * b == q * b + b && (d + 1) * b == d * b + b;
    LtCancel(d, q + 1, b);
    LtCancel(q, d + 1, b);
  }

  lemma MulMono(a: nat, b: nat, n: pos)
    requires a <= b
    ensures a * n <= b * n
  {
  }

  lemma LtCancel(a: nat, c: nat, b: pos)
    ensures a * b < c * b ==> a < c
  {
    if a >= c {
      MulMono(c, a, b);
    }
  }

  /** For an unconfigured bridge the tests pin, the gas divides exactly and the plain quotient is returned. */
  lemma MinBridgeTxGasExact(r: Resolver, c: nat)
    requires !Configured(r.configs, c) && r.blockchain.allowThirdPartyContracts
    requires r.blockchain.bridgeGas % r.defaultDeFiBatchSize == 0
    ensures GetMinBridgeTxGas(r, c) == Ok(r.blockchain.bridgeGas / r.defaultDeFiBatchSize)
  {
    CeilDivExact(r.blockchain.bridgeGas, r.defaultDeFiBatchSize);
  }

  /** A configured bridge with no gas needs no gas per transaction. */
  lemma MinBridgeTxGasOfZero(r: Resolver, c: nat)
    requires Configured(r.configs, c) && GetBridgeConfig(r, c).value.gas == 0
    ensures GetMinBridgeTxGas(r, c) == Ok(0)
  {
    CeilDivExact(0, GetBridgeConfig(r, c).value.numTxs);
  }

  /** The bridge list of the resolver's tests. */
  const TEST_CONFIGS: seq<BridgeConfig> := [
    BridgeConfig(1, 5, 500000, 2),
    BridgeConfig(2, 10, 0, 4),
    BridgeConfig(3, 40, 500000, 2),
    BridgeConfig(4, 40, 250000, 4),
    BridgeConfig(5, 3, 100000, 4)]

  function TestResolver(bridgeGas: nat, allowThirdParty: bool): Resolver {
    Resolver(TEST_CONFIGS, Blockchain(bridgeGas, allowThirdParty), 10)
  }

  /** The test list's keys are 1 to 5, so they are distinct. */
  lemma TestKeysDistinct()
    ensures DistinctKeys(TEST_CONFIGS)
  {
    assert forall i :: 0 <= i < |TEST_CONFIGS| ==> TEST_CONFIGS[i].bridgeCallData == i + 1;
  }

  /** Each lookup of a test key returns its own entry. */
  lemma TestLookups(bridgeGas: nat, allowThirdParty: bool)
    ensures var r := TestResolver(bridgeGas, allowThirdParty);
      GetBridgeConfig(r, 1) == Some(TEST_CONFIGS[0]) && GetBridgeConfig(r, 2) == Some(TEST_CONFIGS[1]) &&
      GetBridgeConfig(r, 3) == Some(TEST_CONFIGS[2]) && GetBridgeConfig(r, 4) == Some(TEST_CONFIGS[3]) &&
      GetBridgeConfig(r, 5) == Some(TEST_CONFIGS[4])
  {
    var r := TestResolver(bridgeGas, allowThirdParty);
    TestKeysDistinct();
    GetBridgeConfigOfEntry(r, 0);
    GetBridgeConfigOfEntry(r, 1);
    GetBridgeConfigOfEntry(r, 2);
    GetBridgeConfigOfEntry(r, 3);
    GetBridgeConfigOfEntry(r, 4);
  }

  /** The per-transaction figures the tests expect for the configured bridges. */
  lemma TestMinGas(bridgeGas: nat, allowThirdParty: bool)
    ensures var r := TestResolver(bridgeGas, allowThirdParty);
      GetMinBridgeTxGas(r, 1) == Ok(100000) && GetMinBridgeTxGas(r, 2) == Ok(0) && GetMinBridgeTxGas(r, 3) == Ok(12500)
      && GetMinBridgeTxGas(r, 4) == Ok(6250) && GetMinBridgeTxGas(r, 5) == Ok(33334)
  {
    TestLookups(bridgeGas, allowThirdParty);
    assert CeilDiv(500000, 5) == 100000 && CeilDiv(0, 10) == 0 && CeilDiv(500000, 40) == 12500;
    assert CeilDiv(250000, 40) == 6250 && CeilDiv(100000, 3) == 33334;
  }

  /** The figures the tests expect for the unconfigured bridge 123 (and 6). */
  lemma TestThirdParty()
    ensures GetFullBridgeGas(TestResolver(200000, false), 123) == 200000
    ensures GetMinBridgeTxGas(TestResolver(200000, false), 6) == Err(UNRECOGNISED_BRIDGE)
    ensures GetMinBridgeTxGas(TestResolver(100000, true), 123) == Ok(10000)
  {
    assert !Configured(TEST_CONFIGS, 123) && !Configured(TEST_CONFIGS, 6);
    MinBridgeTxGasExact(TestResolver(100000, true), 123);
  }
}
