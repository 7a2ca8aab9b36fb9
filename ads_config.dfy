/**
 * The service configuration read from the process environment at start-up
 * (`AD_CONFIG`, `GOOGLE_ADS_CONFIG`, `AFFILIATE_CONFIG`). The environment is a map from
 * variable name to value.
 */
module AdsConfig {
  import opened Wrappers
  import opened JsText
  import opened JsNumber

  type Env = map<string, string>

  /** `process.env.NAME || fallback`: an unset or empty variable gives the fallback. */
  function EnvOr(env: Env, name: string, fallback: string): (v: string)
    ensures v == fallback <== name !in env || env[name] == ""
    ensures name in env && env[name] != "" ==> v == env[name]
  {
    if name in env && env[name] != "" then env[name] else fallback
  }

  /** `process.env.NAME === 'true'`. */
  predicate EnvIsTrue(env: Env, name: string) {
    name in env && env[name] == "true"
  }

  /**
   * A configuration list entry: non-empty and neither starting nor ending with
   * whitespace, so that it is its own trim (`CleanIsTrimmed`).
   */
  predicate IsClean(x: string) {
    x != "" && !IsWhitespace(x[0]) && !IsWhitespace(x[|x| - 1])
  }

  lemma CleanIsTrimmed(x: string)
    requires IsClean(x)
    ensures Trim(x) == x
  {
    TrimmedIsFixpoint(x);
  }

  /** Trims every piece and drops the empty ones (`.map(x => x.trim()).filter(Boolean)`). */
  function CleanList(pieces: seq<string>): (r: seq<string>)
    ensures |r| <= |pieces|
    ensures forall i :: 0 <= i < |r| ==> IsClean(r[i])
  {
    if pieces == [] then []
    else
      var t := Trim(pieces[0]);
      var rest := CleanList(pieces[1..]);
      if t == "" then rest
      else
        CleanCons(t, rest);
        [t] + rest
  }

  lemma CleanCons(t: string, rest: seq<string>)
    requires IsClean(t) && forall i :: 0 <= i < |rest| ==> IsClean(rest[i])
    ensures forall i :: 0 <= i < |[t] + rest| ==> IsClean(([t] + rest)[i])
  {
  }

  /** `s.split(',').map(x => x.trim()).filter(Boolean)`. */
  function ParseList(s: string): (r: seq<string>)
    ensures forall i :: 0 <= i < |r| ==> IsClean(r[i]) && ',' !in r[i]
  {
    var pieces := Split(s, ',');
    var r := CleanList(pieces);
    assert forall i :: 0 <= i < |r| ==> ',' !in r[i] by {
      CleanListFrom(pieces, ',');
    }
    r
  }

  /** Every cleaned entry is the trim of some piece, so a character no piece holds is in no entry. */
  lemma {:induction false} CleanListFrom(pieces: seq<string>, c: char)
    requires forall i :: 0 <= i < |pieces| ==> c !in pieces[i]
    ensures forall i :: 0 <= i < |CleanList(pieces)| ==> c !in CleanList(pieces)[i]
  {
    if pieces != [] {
      CleanListFrom(pieces[1..], c);
      TrimSubsequence(pieces[0], c);
    }
  }

  lemma TrimSubsequence(s: string, c: char)
    requires c !in s
    ensures c !in Trim(s)
  {
    var a := TrimStart(s);
    NotInSlice(s, c, |s| - |a|, |s|);
    var b := TrimEnd(a);
    NotInSlice(a, c, 0, |b|);
  }

  lemma NotInSlice(s: string, c: char, i: nat, j: nat)
    requires c !in s && i <= j <= |s|
    ensures c !in s[i..j]
  {
    forall k | 0 <= k < j - i ensures s[i..j][k] != c {
      assert s[i..j][k] == s[i + k];
    }
  }

  /** A clean list (non-empty, trimmed, comma-free entries) survives a join and a re-parse. */
  lemma {:induction false} ParseListOfJoin(xs: seq<string>)
    requires forall i :: 0 <= i < |xs| ==> IsClean(xs[i]) && ',' !in xs[i]
    ensures ParseList(Join(xs, ',')) == xs
  {
    if xs == [] {
      assert Split("", ',') == [""];
    } else {
      SplitJoin(xs, ',');
      CleanListOfClean(xs);
    }
  }

  lemma {:induction false} CleanListOfClean(xs: seq<string>)
    requires forall i :: 0 <= i < |xs| ==> IsClean(xs[i])
    ensures CleanList(xs) == xs
  {
    if xs != [] {
      CleanIsTrimmed(xs[0]);
      CleanListOfClean(xs[1..]);
      assert xs == [xs[0]] + xs[1..];
    }
  }

  /** Cleaning works piece by piece: the cleaned concatenation is the concatenation of the cleaned parts. */
  lemma {:induction false} CleanListAppend(a: seq<string>, b: seq<string>)
    ensures CleanList(a + b) == CleanList(a) + CleanList(b)
  {
    if a == [] {
      assert a + b == b;
    } else {
      var h, t := a[0], a[1..];
      assert a == [h] + t;
      assert a + b == [h] + (t + b);
      calc {
        CleanList(a + b);
        { CleanListCons(h, t + b); }
        CleanList([h]) + CleanList(t + b);
        { CleanListAppend(t, b); }
        CleanList([h]) + CleanList(t) + CleanList(b);
        { CleanListCons(h, t); }
        CleanList(a) + CleanList(b);
      }
    }
  }

  /** Cleaning a list cleans its first piece, then the rest. */
  lemma CleanListCons(p: string, rest: seq<string>)
    ensures CleanList([p] + rest) == CleanList([p]) + CleanList(rest)
  {
    var ps := [p] + rest;
    assert ps[0] == p && ps[1..] == rest;
    CleanListSingle(p);
    var t := Trim(p);
    assert CleanList(ps) == (if t == "" then [] else [t]) + CleanList(rest);
  }

  /** One piece cleans to its trim, or to nothing when it is blank. */
  lemma CleanListSingle(p: string)
    ensures CleanList([p]) == if Trim(p) == "" then [] else [Trim(p)]
  {
    assert [p][1..] == [];
  }

  /** For comma-free pieces, parsing their comma join cleans exactly those pieces, in order. */
  lemma ParseListOfPieces(parts: seq<string>)
    requires |parts| >= 1
    requires forall i :: 0 <= i < |parts| ==> ',' !in parts[i]
    ensures ParseList(Join(parts, ',')) == CleanList(parts)
  {
    SplitJoin(parts, ',');
  }

  /** Each entry `xs[i]` with the whitespace `pre[i]` before it and `post[i]` after it. */
  function Padded(xs: seq<string>, pre: seq<string>, post: seq<string>): (ps: seq<string>)
    requires |pre| == |xs| && |post| == |xs|
    ensures |ps| == |xs| && forall i :: 0 <= i < |xs| ==> ps[i] == pre[i] + xs[i] + post[i]
  {
    if xs == [] then [] else [pre[0] + xs[0] + post[0]] + Padded(xs[1..], pre[1..], post[1..])
  }

  lemma {:induction false} CleanListPadded(xs: seq<string>, pre: seq<string>, post: seq<string>)
    requires |pre| == |xs| && |post| == |xs|
    requires forall i :: 0 <= i < |xs| ==> IsClean(xs[i]) && AllWhitespace(pre[i]) && AllWhitespace(post[i])
    ensures CleanList(Padded(xs, pre, post)) == xs
  {
    if xs != [] {
      var ps := Padded(xs, pre, post);
      assert ps[0] == pre[0] + xs[0] + post[0];
      TrimPadded(pre[0], xs[0], post[0]);
      assert ps[1..] == Padded(xs[1..], pre[1..], post[1..]);
      CleanListPadded(xs[1..], pre[1..], post[1..]);
      assert xs == [xs[0]] + xs[1..];
    }
  }

  /**
   * Whitespace around the entries is trimmed away: `" google , affiliate "` parses to
   * `["google", "affiliate"]`, and in general padded clean entries parse back to the
   * entries, in order.
   */
  lemma ParseListPadded(xs: seq<string>, pre: seq<string>, post: seq<string>)
    requires |xs| >= 1 && |pre| == |xs| && |post| == |xs|
    requires forall i :: 0 <= i < |xs| ==> IsClean(xs[i]) && ',' !in xs[i]
    requires forall i :: 0 <= i < |xs| ==> AllWhitespace(pre[i]) && AllWhitespace(post[i])
    ensures ParseList(Join(Padded(xs, pre, post), ',')) == xs
  {
    var ps := Padded(xs, pre, post);
    forall i | 0 <= i < |ps| ensures ',' !in ps[i] {
      assert !IsWhitespace(',');
      assert ',' !in pre[i] && ',' !in post[i];
      assert ps[i] == pre[i] + xs[i] + post[i];
    }
    ParseListOfPieces(ps);
    CleanListPadded(xs, pre, post);
  }

  /** `" google , affiliate "` parses to `["google", "affiliate"]`. */
  lemma PaddedProvidersExample()
    ensures ParseList(" google , affiliate ") == ["google", "affiliate"]
  {
    var g, f, sp := "google", "affiliate", " ";
    var xs, pads := [g, f], [sp, sp];
    assert IsClean(g) && IsClean(f) && ',' !in g && ',' !in f && AllWhitespace(sp);
    var ps := Padded(xs, pads, pads);
    assert ps == [sp + g + sp, sp + f + sp];
    assert Join(ps, ',') == " google , affiliate ";
    ParseListPadded(xs, pads, pads);
  }

  /**
   * One `PROVIDER_WEIGHTS` entry `k:v` (split on ':'; a third piece is ignored). It is
   * kept only when `k` and `v` are non-empty and `Number(v)` is not NaN.
   */
  function WeightEntry(kv: string): (e: Option<(string, real)>)
    ensures var parts := Split(kv, ':');
      e.Some? <==> |parts| >= 2 && parts[0] != "" && parts[1] != "" && ParseNumber(parts[1]).Some?
    ensures e.Some? ==>
      var parts := Split(kv, ':');
      e.value.0 == parts[0] && ParseNumber(parts[1]) == Some(e.value.1)
  {
    var parts := Split(kv, ':');
    if |parts| < 2 then None
    else
      var k := parts[0];
      var v := parts[1];
      if k != "" && v != "" && ParseNumber(v).Some? then Some((k, ParseNumber(v).value)) else None
  }

  /** The entry at `kv` sets key `k`. */
  predicate SetsKey(kv: string, k: string) {
    WeightEntry(kv).Some? && WeightEntry(kv).value.0 == k
  }

  /** The `reduce` step: `acc[k] = Number(v)` for a kept entry, `acc` unchanged otherwise. */
  function WeightStep(acc: map<string, real>, kv: string): map<string, real> {
    match WeightEntry(kv)
    case Some((k, v)) => acc[k := v]
    case None => acc
  }

  /** The left fold of `WeightStep` over the entries. */
  function FoldWeights(acc: map<string, real>, kvs: seq<string>): map<string, real>
    decreases |kvs|
  {
    if kvs == [] then acc else FoldWeights(WeightStep(acc, kvs[0]), kvs[1..])
  }

  /** `PROVIDER_WEIGHTS` parsed into the provider-weight table. */
  function ParseWeights(s: string): map<string, real> {
    FoldWeights(map[], ParseList(s))
  }

  /** A key is in the folded table iff it was already there or some entry sets it. */
  lemma {:induction false} FoldWeightsKeys(acc: map<string, real>, kvs: seq<string>, k: string)
    ensures k in FoldWeights(acc, kvs) <==> k in acc || exists i :: 0 <= i < |kvs| && SetsKey(kvs[i], k)
    decreases |kvs|
  {
    if kvs != [] {
      FoldWeightsKeys(WeightStep(acc, kvs[0]), kvs[1..], k);
      if exists i :: 0 <= i < |kvs[1..]| && SetsKey(kvs[1..][i], k) {
        var i :| 0 <= i < |kvs[1..]| && SetsKey(kvs[1..][i], k);
        assert SetsKey(kvs[i + 1], k);
      }
      if exists i :: 0 <= i < |kvs| && SetsKey(kvs[i], k) {
        var i :| 0 <= i < |kvs| && SetsKey(kvs[i], k);
        if i > 0 { assert SetsKey(kvs[1..][i - 1], k); }
      }
    }
  }

  /** The weight of a key is the value of the LAST entry that sets it: later entries win. */
  lemma {:induction false} FoldWeightsLastWins(acc: map<string, real>, kvs: seq<string>, k: string, i: nat)
    requires i < |kvs| && SetsKey(kvs[i], k)
    requires forall j :: i < j < |kvs| ==> !SetsKey(kvs[j], k)
    ensures k in FoldWeights(acc, kvs) && FoldWeights(acc, kvs)[k] == WeightEntry(kvs[i]).value.1
    decreases |kvs|
  {
    var next := WeightStep(acc, kvs[0]);
    assert FoldWeights(acc, kvs) == FoldWeights(next, kvs[1..]);
    TailHasNoSetter(kvs, k, i);
    if i == 0 {
      StepSetsKey(acc, kvs[0], k);
      FoldWeightsUntouched(next, kvs[1..], k);
    } else {
      assert kvs[1..][i - 1] == kvs[i];
      FoldWeightsLastWins(next, kvs[1..], k, i - 1);
    }
  }

  lemma TailHasNoSetter(kvs: seq<string>, k: string, i: nat)
    requires i < |kvs|
    requires forall j :: i < j < |kvs| ==> !SetsKey(kvs[j], k)
    ensures forall j :: i - 1 < j < |kvs| - 1 ==> !SetsKey(kvs[1..][j], k)
  {
    forall j | i - 1 < j < |kvs| - 1 ensures !SetsKey(kvs[1..][j], k) {
      assert kvs[1..][j] == kvs[j + 1];
    }
  }

  lemma StepSetsKey(acc: map<string, real>, kv: string, k: string)
    requires SetsKey(kv, k)
    ensures k in WeightStep(acc, kv) && WeightStep(acc, kv)[k] == WeightEntry(kv).value.1
  {
  }

  /** Entries that never set `k` leave its weight as it was. */
  lemma {:induction false} FoldWeightsUntouched(acc: map<string, real>, kvs: seq<string>, k: string)
    requires forall j :: 0 <= j < |kvs| ==> !SetsKey(kvs[j], k)
    ensures (k in FoldWeights(acc, kvs)) == (k in acc)
    ensures k in acc ==> FoldWeights(acc, kvs)[k] == acc[k]
    decreases |kvs|
  {
    if kvs != [] {
      assert !SetsKey(kvs[0], k);
      FoldWeightsUntouched(WeightStep(acc, kvs[0]), kvs[1..], k);
    }
  }

  datatype MockConfig = MockConfig(enabled: bool, scenario: string)

  /** The part of `AD_CONFIG` the core reads. `None` in a numeric field is NaN. */
  datatype AdConfig = AdConfig(
    mock: MockConfig,
    providers: seq<string>,
    providerWeights: map<string, real>,
    creditsOnClickEnabled: bool,
    featureFlags: seq<string>,
    minDisplayMs: Option<int>,
    clickDedupeWindowMs: Option<int>)

  datatype AdSenseSettings = AdSenseSettings(clientId: string, slotId: string)
  datatype AdMobSettings = AdMobSettings(appId: string, bannerUnitId: string)
  datatype GoogleAdsConfig = GoogleAdsConfig(enabled: bool, adsense: AdSenseSettings, admob: AdMobSettings)
  datatype AffiliateConfig = AffiliateConfig(apiKey: string, baseUrl: string)

  /** `AD_CONFIG`. */
  function LoadAdConfig(env: Env): AdConfig {
    AdConfig(
      mock := MockConfig(EnvIsTrue(env, "MOCK_ADS_MODE"), EnvOr(env, "MOCK_ADS_SCENARIO", "success")),
      providers := ParseList(EnvOr(env, "PROVIDER_LIST", "google")),
      providerWeights := ParseWeights(EnvOr(env, "PROVIDER_WEIGHTS", "")),
      creditsOnClickEnabled := EnvOr(env, "CREDITS_ON_CLICK_ENABLED", "false") == "true",
      featureFlags := ParseList(EnvOr(env, "ADS_FEATURE_FLAGS", "")),
      minDisplayMs := ParseInt(EnvOr(env, "AD_MIN_DISPLAY_MS", "5000")),
      clickDedupeWindowMs := ParseInt(EnvOr(env, "CLICK_DEDUPE_WINDOW_MS", "5000")))
  }

  /** `GOOGLE_ADS_CONFIG`. */
  function LoadGoogleAdsConfig(env: Env): GoogleAdsConfig {
    GoogleAdsConfig(
      EnvIsTrue(env, "GOOGLE_ADS_ENABLED"),
      AdSenseSettings(EnvOr(env, "ADSENSE_CLIENT_ID", ""), EnvOr(env, "ADSENSE_SLOT_ID", "")),
      AdMobSettings(EnvOr(env, "ADMOB_APP_ID", ""), EnvOr(env, "ADMOB_BANNER_UNIT_ID", "")))
  }

  /** `AFFILIATE_CONFIG`. */
  function LoadAffiliateConfig(env: Env): AffiliateConfig {
    AffiliateConfig(EnvOr(env, "AFFILIATE_API_KEY", ""), EnvOr(env, "AFFILIATE_BASE_URL", ""))
  }

  /** A variable read with an empty fallback is its value when set, and `""` otherwise. */
  lemma EnvOrEmpty(env: Env, name: string)
    ensures EnvOr(env, name, "") == if name in env then env[name] else ""
  {
  }

  /**
   * `GOOGLE_ADS_CONFIG` is enabled exactly for `GOOGLE_ADS_ENABLED=true`, and each id is
   * its variable's value, or `""` when the variable is unset.
   */
  lemma GoogleAdsConfigOfEnv(env: Env)
    ensures var c := LoadGoogleAdsConfig(env);
      (c.enabled <==> EnvIsTrue(env, "GOOGLE_ADS_ENABLED")) &&
      c.adsense.clientId == (if "ADSENSE_CLIENT_ID" in env then env["ADSENSE_CLIENT_ID"] else "") &&
      c.adsense.slotId == (if "ADSENSE_SLOT_ID" in env then env["ADSENSE_SLOT_ID"] else "") &&
      c.admob.appId == (if "ADMOB_APP_ID" in env then env["ADMOB_APP_ID"] else "") &&
      c.admob.bannerUnitId == (if "ADMOB_BANNER_UNIT_ID" in env then env["ADMOB_BANNER_UNIT_ID"] else "")
  {
    EnvOrEmpty(env, "ADSENSE_CLIENT_ID");
    EnvOrEmpty(env, "ADSENSE_SLOT_ID");
    EnvOrEmpty(env, "ADMOB_APP_ID");
    EnvOrEmpty(env, "ADMOB_BANNER_UNIT_ID");
  }

  /** `AFFILIATE_CONFIG` holds the key and base URL variables, or `""` for an unset one. */
  lemma AffiliateConfigOfEnv(env: Env)
    ensures var c := LoadAffiliateConfig(env);
      c.apiKey == (if "AFFILIATE_API_KEY" in env then env["AFFILIATE_API_KEY"] else "") &&
      c.baseUrl == (if "AFFILIATE_BASE_URL" in env then env["AFFILIATE_BASE_URL"] else "")
  {
    EnvOrEmpty(env, "AFFILIATE_API_KEY");
    EnvOrEmpty(env, "AFFILIATE_BASE_URL");
  }

  /** `creditsOnClickEnabled` is on exactly when its variable is the string "true". */
  lemma CreditsOnClickFlag(env: Env)
    ensures LoadAdConfig(env).creditsOnClickEnabled <==> EnvIsTrue(env, "CREDITS_ON_CLICK_ENABLED")
  {
    var name := "CREDITS_ON_CLICK_ENABLED";
    var v := EnvOr(env, name, "false");
    assert LoadAdConfig(env).creditsOnClickEnabled == (v == "true");
    assert "false" != "true" by { assert "false"[0] != "true"[0]; }
    assert "" != "true";
  }

  /** "5000", the default of both time windows, parses to 5000. */
  lemma DefaultWindowParses()
    ensures ParseInt("5000") == Some(5000)
  {
    assert Decimal(5000) == "5000" by {
      assert Decimal(5) == "5";
      assert Decimal(50) == Decimal(5) + "0";
      assert Decimal(500) == Decimal(50) + "0";
      assert Decimal(5000) == Decimal(500) + "0";
    }
    ParseIntOfDecimal(5000);
  }

  /** A single entry with no blank and no comma parses to itself. */
  lemma ParseListSingle(s: string)
    requires s != "" && NoWhitespace(s) && ',' !in s
    ensures ParseList(s) == [s]
  {
    ParseListOfJoin([s]);
  }

  lemma DefaultProviders()
    ensures ParseList("google") == ["google"]
  {
    var g := "google";
    assert NoWhitespace(g) && ',' !in g;
    ParseListSingle(g);
  }

  lemma DefaultEmptyList()
    ensures ParseList("") == []
  {
    assert Split("", ',') == [""];
    assert Trim("") == "";
    assert [""][1..] == [];
    assert CleanList([""]) == [];
  }

  /** The variables `AD_CONFIG` reads. */
  const AdConfigVariables: set<string> := {
    "MOCK_ADS_MODE", "MOCK_ADS_SCENARIO", "PROVIDER_LIST", "PROVIDER_WEIGHTS",
    "CREDITS_ON_CLICK_ENABLED", "ADS_FEATURE_FLAGS", "AD_MIN_DISPLAY_MS", "CLICK_DEDUPE_WINDOW_MS"}

  /**
   * With none of its variables set: provider "google", no weights, no flags, mock off with
   * scenario "success", credits on click off, and both time windows 5000 ms.
   */
  lemma DefaultAdConfig(env: Env)
    requires env.Keys !! AdConfigVariables
    ensures var c := LoadAdConfig(env);
      c.providers == ["google"] && c.providerWeights == map[] && c.featureFlags == [] &&
      !c.mock.enabled && c.mock.scenario == "success" && !c.creditsOnClickEnabled &&
      c.minDisplayMs == Some(5000) && c.clickDedupeWindowMs == Some(5000)
  {
    DefaultProviders();
    DefaultEmptyList();
    DefaultWindowParses();
    assert "PROVIDER_LIST" !in env && "PROVIDER_WEIGHTS" !in env && "ADS_FEATURE_FLAGS" !in env;
    assert "AD_MIN_DISPLAY_MS" !in env && "CLICK_DEDUPE_WINDOW_MS" !in env;
    assert "MOCK_ADS_MODE" !in env && "MOCK_ADS_SCENARIO" !in env && "CREDITS_ON_CLICK_ENABLED" !in env;
  }
}
