/**
 * The mock Google Ads manager used in development: its scenario is fixed when it is
 * built, and each request is answered according to it from a three-ad inventory.
 */
module MockGoogleAds {
  import opened Wrappers
  import opened JsNumber
  import opened AdTypes
  import GoogleAds

  /** The `success` inventory. */
  const MockSuccessAds: seq<MockAdContent> := [
    MockAdContent("Learn Programming Online",
                  "Master coding with our interactive courses. Start learning today!",
                  "www.example-edu.com", "https://example.com/programming",
                  Some("https://via.placeholder.com/300x250/4A90E2/ffffff?text=Ad+1")),
    MockAdContent("Cloud Hosting Solutions",
                  "Reliable and scalable cloud infrastructure for your business.",
                  "www.example-cloud.com", "https://example.com/cloud",
                  Some("https://via.placeholder.com/300x250/50E3C2/ffffff?text=Ad+2")),
    MockAdContent("Business Analytics Tools",
                  "Transform your data into insights. Free trial available.",
                  "www.example-analytics.com", "https://example.com/analytics",
                  Some("https://via.placeholder.com/300x250/F5A623/ffffff?text=Ad+3"))
  ]

  /** The click targets of the inventory. */
  const MockClickUrls: set<string> :=
    {"https://example.com/programming", "https://example.com/cloud", "https://example.com/analytics"}

  /** The card size used when the request names none. */
  const DefaultCardSize := Size(300, 250)

  /** The mock `getAdSenseConfig`: a fixed placeholder configuration. */
  const MockAdSenseConfig := GoogleAds.AdSenseClientConfig("ca-pub-0000000000000000", "0000000000", "mock://google-ads-script")

  /** `Math.floor(u * n)` for a draw `0 <= u < 1`: an index into a list of length `n`. */
  function PickIndex(u: real, n: nat): (i: nat)
    requires 0.0 <= u < 1.0 && n > 0
    ensures i < n
    ensures i as real <= u * n as real < i as real + 1.0
  {
    assert 0.0 <= u * n as real < n as real by {
      assert u * n as real < 1.0 * n as real;
    }
    (u * n as real).Floor
  }

  /** Every index is reachable: the draw `i / n` picks index `i`. */
  lemma PickIndexReaches(i: nat, n: nat)
    requires i < n
    ensures 0.0 <= i as real / n as real < 1.0
    ensures PickIndex(i as real / n as real, n) == i
  {
    var u := i as real / n as real;
    assert u * n as real == i as real;
    assert u < 1.0 by {
      assert u * n as real < n as real;
    }
  }

  /** The `mock_imp_<now>_<suffix>` impression identifier. */
  function MockImpressionId(now: nat, suffix: string): string {
    "mock_imp_" + Decimal(now) + "_" + suffix
  }

  datatype MockGoogleAdsManager = MockGoogleAdsManager(scenario: string) {
    /**
     * `requestAd`: `empty` answers success with no ad, `error` answers failure, and
     * `success` or any other scenario serves the inventory ad the draw picks.
     */
    function RequestAd(request: AdRequest, d: Draws): (r: AdResponse)
      requires d.Valid()
      ensures scenario == "empty" ==> r == AdResponse(true, None, None, None)
      ensures scenario == "error" ==> r == Failed("Mock error: Failed to fetch ad")
      ensures scenario != "empty" && scenario != "error" ==>
        r.success && r.ad.Some? && r.skipReason.None? && r.error.None? &&
        r.ad.value.id == "mock_ad_" + Decimal(d.now) &&
        r.ad.value.adType == request.format.Name() &&
        r.ad.value.clickUrl.Some? && r.ad.value.clickUrl.value in MockClickUrls &&
        "mock_imp_" <= r.ad.value.impressionId &&
        r.ad.value.provider.None? && r.ad.value.viewabilityToken.None?
    {
      match scenario
      case "empty" => AdResponse(true, None, None, None)
      case "error" => Failed("Mock error: Failed to fetch ad")
      case _ => SuccessResponse(request, d)
    }
  }

  /** The success builder: the picked ad as a card, sized by the request or 300x250. */
  function SuccessResponse(request: AdRequest, d: Draws): (r: AdResponse)
    requires d.Valid()
    ensures r.success && r.ad.Some?
    ensures r.ad.value.clickUrl.Some? && r.ad.value.clickUrl.value in MockClickUrls
    ensures "mock_imp_" <= r.ad.value.impressionId
  {
    var ad := MockSuccessAds[PickIndex(d.pick, |MockSuccessAds|)];
    var size := request.size.GetOr(DefaultCardSize);
    AdResponse(true, Some(AdObject("mock_ad_" + Decimal(d.now), request.format.Name(),
                                   MockCard(ad, size.width, size.height),
                                   Some(ad.clickUrl), MockImpressionId(d.now, d.suffix), None, None)),
               None, None)
  }

  /** Every inventory ad can be served: the draw `i / 3` serves the `i`-th one. */
  lemma EveryMockAdServable(m: MockGoogleAdsManager, request: AdRequest, d: Draws, i: nat)
    requires m.scenario != "empty" && m.scenario != "error"
    requires i < |MockSuccessAds| && d.pick == i as real / 3.0
    ensures d.Valid()
    ensures m.RequestAd(request, d).ad.value.clickUrl == Some(MockSuccessAds[i].clickUrl)
  {
    PickIndexReaches(i, 3);
  }
}
