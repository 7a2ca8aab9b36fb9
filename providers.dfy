/**
 * The three ad providers behind the common provider contract (`name`, `requestAd`,
 * `onClick`), one datatype variant each. A provider's `requestAd` may fail; the
 * failure is a `Result`.
 */
module Providers {
  import opened Wrappers
  import opened JsText
  import opened Encoding
  import opened AdTypes
  import AdsConfig
  import GoogleAds
  import MockGoogleAds

  /** The configuration the providers read: the mock switch and its manager, and the affiliate settings. */
  datatype ProviderSetup = ProviderSetup(
    mockEnabled: bool, mock: MockGoogleAds.MockGoogleAdsManager, affiliate: AdsConfig.AffiliateConfig)

  /** The request the google provider sends on: always a banner, with no size and no user. */
  function GoogleAdRequest(ctx: ProviderContext): (q: AdRequest)
    ensures q.format == Banner && q.size.None? && q.userId.None?
    ensures q.page == ctx.page && q.sessionId == ctx.sessionId && q.deviceType == ctx.deviceType
  {
    AdRequest(ctx.page, Banner, None, None, ctx.sessionId, ctx.deviceType)
  }

  /** A manager response that fails or carries no ad is `No ad`; otherwise the ad, marked `google`. */
  function FromManagerResponse(res: AdResponse): (r: Result<AdObject>)
    ensures r.Failure? <==> !res.success || res.ad.None?
    ensures r.Failure? ==> r.error == "No ad"
    ensures r.Success? ==> r.value == res.ad.value.(provider := Some("google"))
  {
    if !res.success || res.ad.None? then Failure("No ad")
    else Success(res.ad.value.(provider := Some("google")))
  }

  /**
   * `GoogleProvider.requestAd`: asks the mock manager when mock mode is on and the real
   * manager otherwise, and succeeds exactly when that manager serves an ad.
   */
  function GoogleRequestAd(setup: ProviderSetup, manager: GoogleAds.GoogleAdsManager, ctx: ProviderContext, d: Draws)
    : (r: Result<AdObject>)
    requires d.Valid()
    reads manager
    ensures r.Success? ==> r.value.provider == Some("google") && r.value.adType == "banner"
    ensures setup.mockEnabled ==>
      (r.Success? <==> setup.mock.scenario != "empty" && setup.mock.scenario != "error")
    ensures !setup.mockEnabled ==>
      (r.Success? <==> manager.enabled && manager.initialized && manager.config.adsense.clientId != "")
    ensures !setup.mockEnabled && r.Success? ==> r.value.id == manager.config.adsense.slotId
    ensures r.Failure? ==> r.error == "No ad"
  {
    var q := GoogleAdRequest(ctx);
    var res := if setup.mockEnabled then setup.mock.RequestAd(q, d) else manager.RequestAd(q, d.now, d.suffix);
    FromManagerResponse(res)
  }

  /** The affiliate landing page: the configured base URL, or the placeholder offer page. */
  function AffiliateBase(cfg: AdsConfig.AffiliateConfig): string {
    if cfg.baseUrl != "" then cfg.baseUrl else "https://example.com/offer"
  }

  /** The affiliate query string, every value URI-component encoded. */
  function AffiliateQuery(apiKey: string, sessionId: string, id: string): string {
    Param("affid", EncodeUriComponent(apiKey)) + "&" + Param("sid", EncodeUriComponent(sessionId)) + "&" +
    Param("pid", EncodeUriComponent(id))
  }

  /** One `name=value` query parameter. */
  function Param(name: string, value: string): string {
    name + "=" + value
  }

  function AffiliateClickUrl(cfg: AdsConfig.AffiliateConfig, sessionId: string, id: string): string {
    AffiliateBase(cfg) + "?" + AffiliateQuery(cfg.apiKey, sessionId, id)
  }

  /**
   * Whatever the key, session and ad id contain, the query splits on '&' into exactly
   * its three parameters, each a name, '=' and the encoded value.
   */
  lemma AffiliateQueryFields(apiKey: string, sessionId: string, id: string)
    ensures Split(AffiliateQuery(apiKey, sessionId, id), '&') ==
      [Param("affid", EncodeUriComponent(apiKey)), Param("sid", EncodeUriComponent(sessionId)),
       Param("pid", EncodeUriComponent(id))]
    ensures Split(Param("affid", EncodeUriComponent(apiKey)), '=') == ["affid", EncodeUriComponent(apiKey)]
    ensures Split(Param("sid", EncodeUriComponent(sessionId)), '=') == ["sid", EncodeUriComponent(sessionId)]
    ensures Split(Param("pid", EncodeUriComponent(id)), '=') == ["pid", EncodeUriComponent(id)]
  {
    EncodedHasNoDelimiters(apiKey);
    EncodedHasNoDelimiters(sessionId);
    EncodedHasNoDelimiters(id);
    QueryFields("affid", EncodeUriComponent(apiKey), "sid", EncodeUriComponent(sessionId),
                "pid", EncodeUriComponent(id));
  }

  /** A three-parameter query whose names and values hold neither '&' nor '=' splits back into them. */
  lemma QueryFields(n1: string, v1: string, n2: string, v2: string, n3: string, v3: string)
    requires '&' !in n1 && '&' !in v1 && '&' !in n2 && '&' !in v2 && '&' !in n3 && '&' !in v3
    requires '=' !in n1 && '=' !in v1 && '=' !in n2 && '=' !in v2 && '=' !in n3 && '=' !in v3
    ensures Split(Param(n1, v1) + "&" + Param(n2, v2) + "&" + Param(n3, v3), '&') ==
      [Param(n1, v1), Param(n2, v2), Param(n3, v3)]
    ensures Split(Param(n1, v1), '=') == [n1, v1]
    ensures Split(Param(n2, v2), '=') == [n2, v2]
    ensures Split(Param(n3, v3), '=') == [n3, v3]
  {
    var f1, f2, f3 := Param(n1, v1), Param(n2, v2), Param(n3, v3);
    assert '&' !in f1 && '&' !in f2 && '&' !in f3;
    assert f1 + "&" + f2 + "&" + f3 == f1 + ['&'] + f2 + ['&'] + f3;
    SplitThree(f1, f2, f3, '&');
    NameValue(n1, v1);
    NameValue(n2, v2);
    NameValue(n3, v3);
  }

  /** `name=value` splits on '=' back into its two halves when neither holds '='. */
  lemma NameValue(name: string, value: string)
    requires '=' !in name && '=' !in value
    ensures Split(Param(name, value), '=') == [name, value]
  {
    assert Param(name, value) == Join([name, value], '=') by {
      assert [name, value][1..] == [value];
    }
    SplitJoin([name, value], '=');
  }

  /** `AffiliateProvider.requestAd`: a redirect ad whose id, carried in the click URL, and impression id are two fresh UUIDs. */
  function AffiliateAd(cfg: AdsConfig.AffiliateConfig, ctx: ProviderContext, d: Draws): (ad: AdObject)
    ensures ad.id == d.uuid1 && ad.impressionId == d.uuid2
    ensures ad.adType == "redirect" && ad.content == Markup("Affiliate Offer") && ad.provider == Some("affiliate")
    ensures ad.clickUrl == Some(AffiliateClickUrl(cfg, ctx.sessionId, ad.id)) && ad.viewabilityToken.None?
  {
    AdObject(d.uuid1, "redirect", Markup("Affiliate Offer"),
             Some(AffiliateClickUrl(cfg, ctx.sessionId, d.uuid1)), d.uuid2, Some("affiliate"), None)
  }

  /** `MinigameProvider.requestAd`: an HTML ad with two fresh UUIDs and no click URL. */
  function MinigameAd(d: Draws): (ad: AdObject)
    ensures ad.id == d.uuid1 && ad.impressionId == d.uuid2
    ensures ad.adType == "html" && ad.provider == Some("minigame") && ad.clickUrl.None?
    ensures ad.content == Markup("<div>Play a quick game and earn rewards!</div>") && ad.viewabilityToken.None?
  {
    AdObject(d.uuid1, "html", Markup("<div>Play a quick game and earn rewards!</div>"), None, d.uuid2, Some("minigame"), None)
  }

  /**
   * `requestAd` of the provider contract. The affiliate and minigame providers never
   * fail, and every provider marks its ad with its own name.
   */
  function RequestAd(p: Provider, setup: ProviderSetup, manager: GoogleAds.GoogleAdsManager, ctx: ProviderContext, d: Draws)
    : (r: Result<AdObject>)
    requires d.Valid()
    reads manager
    ensures r.Success? ==> r.value.provider == Some(p.Name())
    ensures p != GoogleProvider ==> r.Success?
    ensures p == GoogleProvider ==> r == GoogleRequestAd(setup, manager, ctx, d)
  {
    match p
    case GoogleProvider => GoogleRequestAd(setup, manager, ctx, d)
    case AffiliateProvider => Success(AffiliateAd(setup.affiliate, ctx, d))
    case MinigameProvider => Success(MinigameAd(d))
  }

  /** `onClick` of the provider contract: every provider acknowledges every click. */
  function OnClick(p: Provider, ctx: ClickContext): (r: ClickResult)
    ensures r.success
  {
    ClickResult(true)
  }
}
