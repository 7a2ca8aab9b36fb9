/**
 * The provider registry and the per-request provider selector: a weighted random pick
 * when every active provider has a configured weight, round robin over the list
 * otherwise, with `google` standing in for any name the registry does not know.
 */
module Registry {
  import opened Wrappers
  import opened AdTypes
  import AdsConfig

  /** The names the registry holds. */
  const RegisteredNames: set<string> := {"google", "affiliate", "minigame"}

  /** `getProviderByName`: the registry entry for the name, if any. */
  function GetProviderByName(name: string): (p: Option<Provider>)
    ensures p.Some? <==> name in RegisteredNames
    ensures p.Some? ==> p.value.Name() == name
  {
    match name
    case "google" => Some(GoogleProvider)
    case "affiliate" => Some(AffiliateProvider)
    case "minigame" => Some(MinigameProvider)
    case _ => None
  }

  /** Every provider is registered under its own name. */
  lemma LookupOfName(p: Provider)
    ensures GetProviderByName(p.Name()) == Some(p)
  {
  }

  /** `registry[name] || registry.google`. */
  function Resolve(name: string): (p: Provider)
    ensures name in RegisteredNames ==> p.Name() == name
    ensures name !in RegisteredNames ==> p == GoogleProvider
  {
    GetProviderByName(name).GetOr(GoogleProvider)
  }

  /** The configured providers, or `["google"]` when none are configured. */
  function ActiveProviders(configured: seq<string>): (ps: seq<string>)
    ensures |ps| >= 1
    ensures configured != [] ==> ps == configured
    ensures configured == [] ==> ps == ["google"]
  {
    if |configured| > 0 then configured else ["google"]
  }

  /** Every active provider has a weight (a parsed weight is always a number). */
  predicate AllWeighted(ps: seq<string>, w: map<string, real>) {
    forall i :: 0 <= i < |ps| ==> ps[i] in w
  }

  /** `weights[p] || 0`. */
  function WeightOf(w: map<string, real>, name: string): real {
    if name in w then w[name] else 0.0
  }

  /** The cumulative weight of the first `n` providers. */
  function PrefixSum(ps: seq<string>, w: map<string, real>, n: nat): real
    requires n <= |ps|
  {
    if n == 0 then 0.0 else PrefixSum(ps, w, n - 1) + WeightOf(w, ps[n - 1])
  }

  /** The cumulative weight up to and including index `k`: the loop's `acc` after provider `k`. */
  function Reach(ps: seq<string>, w: map<string, real>, k: nat): real
    requires k < |ps|
  {
    PrefixSum(ps, w, k + 1)
  }

  /** The `reduce` total of the active providers' weights. */
  function Total(ps: seq<string>, w: map<string, real>): real {
    PrefixSum(ps, w, |ps|)
  }

  predicate NonNegative(ps: seq<string>, w: map<string, real>) {
    forall i :: 0 <= i < |ps| ==> WeightOf(w, ps[i]) >= 0.0
  }

  /**
   * The first index at or after `i` whose cumulative weight reaches `r`, or `None` when
   * no prefix does.
   */
  function FirstCovering(ps: seq<string>, w: map<string, real>, r: real, i: nat): (j: Option<nat>)
    requires i <= |ps|
    ensures j.Some? ==>
      i <= j.value < |ps| && r <= Reach(ps, w, j.value) &&
      forall k :: i <= k < j.value ==> r > Reach(ps, w, k)
    ensures j.None? ==> forall k :: i <= k < |ps| ==> r > Reach(ps, w, k)
    decreases |ps| - i
  {
    if i == |ps| then None
    else if r <= Reach(ps, w, i) then Some(i)
    else FirstCovering(ps, w, r, i + 1)
  }

  /** The weighted pick for draw `r`: the first covering provider, or google when none covers. */
  function WeightedChoice(ps: seq<string>, w: map<string, real>, r: real): Provider {
    match FirstCovering(ps, w, r, 0)
    case None => GoogleProvider
    case Some(j) => Resolve(ps[j])
  }

  /** The weighted loop of `selectProvider`: accumulate weights in list order, stop at the first `r <= acc`. */
  method WeightedWalk(ps: seq<string>, w: map<string, real>, r: real) returns (p: Provider)
    ensures p == WeightedChoice(ps, w, r)
  {
    var acc := 0.0;
    for i := 0 to |ps|
      invariant acc == PrefixSum(ps, w, i)
      invariant FirstCovering(ps, w, r, 0) == FirstCovering(ps, w, r, i)
    {
      acc := acc + WeightOf(w, ps[i]);
      if r <= acc {
        return Resolve(ps[i]);
      }
    }
    return GoogleProvider;
  }

  /** Cumulative weights never decrease when every weight is non-negative. */
  lemma {:induction false} PrefixMonotone(ps: seq<string>, w: map<string, real>, m: nat, n: nat)
    requires NonNegative(ps, w) && m <= n <= |ps|
    ensures PrefixSum(ps, w, m) <= PrefixSum(ps, w, n)
    decreases n
  {
    if m < n {
      PrefixMonotone(ps, w, m, n - 1);
      assert WeightOf(w, ps[n - 1]) >= 0.0;
    }
  }

  /**
   * With non-negative weights, index `j` is picked exactly when `r` lies in its slice
   * `(Reach(j - 1), Reach(j)]` of the cumulative weights (the first slice also takes
   * every `r` at or below its upper end).
   */
  lemma ChosenSlice(ps: seq<string>, w: map<string, real>, r: real, j: nat)
    requires NonNegative(ps, w)
    ensures FirstCovering(ps, w, r, 0) == Some(j) <==>
      j < |ps| && (j == 0 || Reach(ps, w, j - 1) < r) && r <= Reach(ps, w, j)
  {
    if j < |ps| && (j == 0 || Reach(ps, w, j - 1) < r) && r <= Reach(ps, w, j) {
      match FirstCovering(ps, w, r, 0)
      case None =>
      case Some(j') =>
        if j' < j {
          PrefixMonotone(ps, w, j' + 1, j);
        }
    }
  }

  /** A provider with weight 0 that is not first in the list is never picked. */
  lemma ZeroWeightNeverChosen(ps: seq<string>, w: map<string, real>, r: real, j: nat)
    requires NonNegative(ps, w)
    requires 0 < j < |ps| && WeightOf(w, ps[j]) == 0.0
    ensures FirstCovering(ps, w, r, 0) != Some(j)
  {
    ChosenSlice(ps, w, r, j);
  }

  /** The draw `r = 0` picks the first provider, whatever its weight. */
  lemma ZeroDrawPicksFirst(ps: seq<string>, w: map<string, real>)
    requires NonNegative(ps, w) && |ps| >= 1
    ensures FirstCovering(ps, w, 0.0, 0) == Some(0)
  {
    assert PrefixSum(ps, w, 1) == PrefixSum(ps, w, 0) + WeightOf(w, ps[0]);
    assert WeightOf(w, ps[0]) >= 0.0;
    ChosenSlice(ps, w, 0.0, 0);
  }

  /** The walk falls through (to google) exactly when the draw exceeds the total weight. */
  lemma FallThroughIffAboveTotal(ps: seq<string>, w: map<string, real>, r: real)
    requires NonNegative(ps, w)
    ensures FirstCovering(ps, w, r, 0).None? <==> |ps| == 0 || r > Total(ps, w)
  {
    if |ps| > 0 {
      match FirstCovering(ps, w, r, 0)
      case Some(j) =>
        PrefixMonotone(ps, w, j + 1, |ps|);
      case None =>
        assert r > Reach(ps, w, |ps| - 1);
    }
  }

  /** A draw `u` in `[0, 1)` scaled by the total never falls through when weights are non-negative. */
  lemma ScaledDrawCovered(ps: seq<string>, w: map<string, real>, u: real)
    requires NonNegative(ps, w) && |ps| >= 1 && 0.0 <= u < 1.0
    ensures FirstCovering(ps, w, u * Total(ps, w), 0).Some?
  {
    ScaledBelowTotal(ps, w, u);
    CoveredUpToTotal(ps, w, u * Total(ps, w));
  }

  lemma ScaledBelowTotal(ps: seq<string>, w: map<string, real>, u: real)
    requires NonNegative(ps, w) && 0.0 <= u < 1.0
    ensures u * Total(ps, w) <= Total(ps, w)
  {
    TotalNonNegative(ps, w);
    ScaleBelow(u, Total(ps, w));
  }

  lemma TotalNonNegative(ps: seq<string>, w: map<string, real>)
    requires NonNegative(ps, w)
    ensures Total(ps, w) >= 0.0
  {
    PrefixMonotone(ps, w, 0, |ps|);
  }

  lemma CoveredUpToTotal(ps: seq<string>, w: map<string, real>, r: real)
    requires NonNegative(ps, w) && |ps| >= 1 && r <= Total(ps, w)
    ensures FirstCovering(ps, w, r, 0).Some?
  {
    FallThroughIffAboveTotal(ps, w, r);
  }

  lemma ScaleBelow(u: real, t: real)
    requires 0.0 <= u < 1.0 && t >= 0.0
    ensures u * t <= t
  {
    MulNonNegative(1.0 - u, t);
    assert (1.0 - u) * t == t - u * t;
  }

  lemma MulNonNegative(a: real, b: real)
    requires a >= 0.0 && b >= 0.0
    ensures a * b >= 0.0
  {
  }

  /** The round-robin choice `providers[rrIndex % len] || 'google'`. */
  function RoundRobinName(ps: seq<string>, rr: nat): (name: string)
    requires |ps| >= 1
    ensures ps[rr % |ps|] != "" ==> name == ps[rr % |ps|]
    ensures ps[rr % |ps|] == "" ==> name == "google"
  {
    var x := ps[rr % |ps|];
    if x != "" then x else "google"
  }

  /** Round robin repeats with period `|ps|`. */
  lemma RoundRobinPeriodic(ps: seq<string>, rr: nat)
    requires |ps| >= 1
    ensures RoundRobinName(ps, rr + |ps|) == RoundRobinName(ps, rr)
  {
    AddPeriod(rr, |ps|);
  }

  /** Every provider's turn comes within `|ps|` consecutive selections from any counter value. */
  lemma RoundRobinReaches(ps: seq<string>, rr: nat, i: nat) returns (k: nat)
    requires i < |ps|
    ensures k < |ps| && (rr + k) % |ps| == i
    ensures RoundRobinName(ps, rr + k) == (if ps[i] != "" then ps[i] else "google")
  {
    var n := |ps|;
    var q, m := rr / n, rr % n;
    assert rr == q * n + m;
    if m <= i {
      k := i - m;
      assert rr + k == q * n + i;
      ModUnique(rr + k, n, q, i);
    } else {
      k := n - m + i;
      assert rr + k == (q + 1) * n + i;
      ModUnique(rr + k, n, q + 1, i);
    }
  }

  /** Euclidean division is unique: `a = q * n + m` with `0 <= m < n` fixes `a % n` as `m`. */
  lemma ModUnique(a: nat, n: nat, q: nat, m: nat)
    requires 0 <= m < n && a == q * n + m
    ensures a % n == m
  {
    var d, r := a / n, a % n;
    assert a == d * n + r;
    if q > d {
      MulAtLeast(q - d, n);
      assert false;
    } else if q < d {
      MulAtLeast(d - q, n);
      assert false;
    }
  }

  lemma MulAtLeast(e: nat, n: nat)
    requires e >= 1
    ensures e * n >= n
  {
    assert e * n == (e - 1) * n + n;
  }

  /** Adding the modulus does not change the remainder. */
  lemma AddPeriod(a: nat, n: nat)
    requires n > 0
    ensures (a + n) % n == a % n
  {
    var q := a / n;
    assert a == q * n + a % n;
    assert a + n == (q + 1) * n + a % n;
    ModUnique(a + n, n, q + 1, a % n);
  }

  /**
   * The provider `selectProvider` picks for the draw `u` with counter `rr`, and the counter
   * it leaves behind.
   */
  function Selection(configured: seq<string>, w: map<string, real>, rr: nat, u: real): (Provider, nat) {
    var ps := ActiveProviders(configured);
    if AllWeighted(ps, w) then (WeightedChoice(ps, w, u * Total(ps, w)), rr)
    else (Resolve(RoundRobinName(ps, rr)), rr + 1)
  }

  lemma SelectionCases(configured: seq<string>, w: map<string, real>, rr: nat, u: real)
    ensures var ps := ActiveProviders(configured);
      AllWeighted(ps, w) ==> Selection(configured, w, rr, u) == (WeightedChoice(ps, w, u * Total(ps, w)), rr)
    ensures var ps := ActiveProviders(configured);
      !AllWeighted(ps, w) ==> Selection(configured, w, rr, u) == (Resolve(RoundRobinName(ps, rr)), rr + 1)
  {
  }

  /**
   * The selector's state: the configured providers and weights, and the module-level
   * round-robin counter `rrIndex`.
   */
  class Selector {
    const providers: seq<string>
    const weights: map<string, real>
    var rrIndex: nat

    constructor(cfg: AdsConfig.AdConfig)
      ensures providers == cfg.providers && weights == cfg.providerWeights && rrIndex == 0
    {
      providers := cfg.providers;
      weights := cfg.providerWeights;
      rrIndex := 0;
    }

    /**
     * `selectProvider` for the draw `u = Math.random()`. When every active provider is
     * weighted, the pick is the weighted choice for `r = u * total` and the counter is
     * left alone; otherwise the pick is the round-robin choice and the counter advances
     * by exactly one.
     */
    method SelectProvider(u: real) returns (p: Provider)
      modifies this
      ensures AllWeighted(ActiveProviders(providers), weights) ==>
        var ps := ActiveProviders(providers);
        p == WeightedChoice(ps, weights, u * Total(ps, weights)) && rrIndex == old(rrIndex)
      ensures !AllWeighted(ActiveProviders(providers), weights) ==>
        p == Resolve(RoundRobinName(ActiveProviders(providers), old(rrIndex))) && rrIndex == old(rrIndex) + 1
      ensures (p, rrIndex) == Selection(providers, weights, old(rrIndex), u)
    {
      var ps := ActiveProviders(providers);
      SelectionCases(providers, weights, rrIndex, u);
      if AllWeighted(ps, weights) {
        var total := Total(ps, weights);
        p := WeightedWalk(ps, weights, u * total);
        assert (p, rrIndex) == Selection(providers, weights, old(rrIndex), u);
      } else {
        var pick := RoundRobinName(ps, rrIndex);
        rrIndex := rrIndex + 1;
        p := Resolve(pick);
        assert (p, rrIndex) == Selection(providers, weights, old(rrIndex), u);
      }
    }
  }
}
