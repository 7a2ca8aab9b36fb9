/**
 * The Google Ads manager: a singleton that is enabled by configuration, becomes
 * initialized once `initialize` runs, and answers ad requests with an AdSense slot.
 */
module GoogleAds {
  import opened Wrappers
  import opened JsNumber
  import opened AdTypes
  import AdsConfig

  datatype AdSenseClientConfig = AdSenseClientConfig(clientId: string, slotId: string, scriptUrl: string)
  datatype AdMobClientConfig = AdMobClientConfig(appId: string, bannerUnitId: string)

  const AdSenseScript := "https://pagead2.googlesyndication.com/pagead/js/adsbygoogle.js?client="

  /** The slot size used when the request names none. */
  const DefaultSlotSize := Size(728, 90)

  /** The `imp_<now>_<suffix>` impression identifier. */
  function ImpressionId(now: nat, suffix: string): string {
    "imp_" + Decimal(now) + "_" + suffix
  }

  class GoogleAdsManager {
    const config: AdsConfig.GoogleAdsConfig
    const enabled: bool
    var initialized: bool

    /** A fresh manager takes `enabled` from configuration and is not initialized. */
    constructor(cfg: AdsConfig.GoogleAdsConfig)
      ensures config == cfg && enabled == cfg.enabled && !initialized
    {
      config := cfg;
      enabled := cfg.enabled;
      initialized := false;
    }

    /** `initialize`: an enabled manager becomes initialized; a disabled one is left as it is. */
    method Initialize()
      modifies this
      ensures initialized == (enabled || old(initialized))
    {
      if !enabled {
        return;
      }
      initialized := true;
    }

    /** `getAdSenseConfig`: `null` when disabled or without a client id. */
    function GetAdSenseConfig(): (r: Option<AdSenseClientConfig>)
      reads this
      ensures r.None? <==> !enabled || config.adsense.clientId == ""
      ensures r.Some? ==>
        r.value.clientId == config.adsense.clientId && r.value.slotId == config.adsense.slotId &&
        r.value.scriptUrl == AdSenseScript + config.adsense.clientId
    {
      if !enabled || config.adsense.clientId == "" then None
      else Some(AdSenseClientConfig(config.adsense.clientId, config.adsense.slotId,
                                    AdSenseScript + config.adsense.clientId))
    }

    /** `getAdMobConfig`: `null` when disabled or without an app id. */
    function GetAdMobConfig(): (r: Option<AdMobClientConfig>)
      reads this
      ensures r.None? <==> !enabled || config.admob.appId == ""
      ensures r.Some? ==> r.value == AdMobClientConfig(config.admob.appId, config.admob.bannerUnitId)
    {
      if !enabled || config.admob.appId == "" then None
      else Some(AdMobClientConfig(config.admob.appId, config.admob.bannerUnitId))
    }

    /**
     * `requestAd`: fails while disabled, then while not initialized, then while AdSense
     * has no client id; otherwise serves the configured slot in the requested size
     * (728x90 by default) under a fresh `imp_` impression id.
     */
    function RequestAd(request: AdRequest, now: nat, suffix: string): (r: AdResponse)
      reads this
      ensures !enabled ==> r == Failed("Google Ads is disabled")
      ensures enabled && !initialized ==> r == Failed("Google Ads not initialized")
      ensures enabled && initialized && config.adsense.clientId == "" ==> r == Failed("AdSense not configured")
      ensures r.success <==> enabled && initialized && config.adsense.clientId != ""
      ensures r.success ==>
        var size := request.size.GetOr(DefaultSlotSize);
        r.ad == Some(AdObject(config.adsense.slotId, request.format.Name(),
                              AdSenseSlot(config.adsense.clientId, config.adsense.slotId, size.width, size.height),
                              None, ImpressionId(now, suffix), None, None)) &&
        r.skipReason.None? && r.error.None?
    {
      if !enabled then Failed("Google Ads is disabled")
      else if !initialized then Failed("Google Ads not initialized")
      else
        match GetAdSenseConfig()
        case None => Failed("AdSense not configured")
        case Some(c) =>
          AdResponse(true, Some(AdObject(c.slotId, request.format.Name(), AdSenseHtml(c, request),
                                         None, ImpressionId(now, suffix), None, None)), None, None)
    }

    /** `checkHealth`: a disabled manager is healthy; an enabled one once initialized. */
    function CheckHealth(): (healthy: bool)
      reads this
    {
      if !enabled then true else initialized
    }
  }

  /** `generateAdSenseHTML`: the slot markup, sized by the request or 728x90. */
  function AdSenseHtml(c: AdSenseClientConfig, request: AdRequest): Creative {
    var size := request.size.GetOr(DefaultSlotSize);
    AdSenseSlot(c.clientId, c.slotId, size.width, size.height)
  }

  /**
   * A fresh manager is healthy exactly when it is disabled, and every manager is
   * healthy once `initialize` has run.
   */
  method HealthAfterInitialize(cfg: AdsConfig.GoogleAdsConfig) returns (before: bool, after: bool)
    ensures before <==> !cfg.enabled
    ensures after
  {
    var m := new GoogleAdsManager(cfg);
    before := m.CheckHealth();
    m.Initialize();
    after := m.CheckHealth();
  }

  /** An enabled manager that has been initialized serves every request once AdSense is configured. */
  method InitializedManagerServes(cfg: AdsConfig.GoogleAdsConfig, request: AdRequest, now: nat, suffix: string)
    returns (r: AdResponse)
    requires cfg.enabled && cfg.adsense.clientId != ""
    ensures r.success && r.ad.Some? && r.ad.value.id == cfg.adsense.slotId
  {
    var m := new GoogleAdsManager(cfg);
    m.Initialize();
    r := m.RequestAd(request, now, suffix);
  }
}
