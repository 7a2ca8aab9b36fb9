/**
 * The ad-request flow: an optional credits gate, provider selection, the provider call,
 * the viewability token, enrichment of the ad, and a best-effort impression write.
 */
module RequestAd {
  import opened Wrappers
  import opened AdTypes
  import Abuse
  import CreditsClient
  import Registry
  import Providers
  import GoogleAds
  import AdStore

  /**
   * The credits gate: consulted only when both a JWT and a user id are present; it skips
   * the ad exactly when the service reports that the user may skip ads, and names why.
   */
  function CreditsGate(userId: Option<string>, jwt: Option<string>, credits: CreditsClient.HttpOutcome)
    : (skipReason: Option<string>)
    ensures skipReason.Some? <==>
      Truthy(jwt) && Truthy(userId) && CreditsClient.GetCreditsStatus(credits).Some? &&
      CreditsClient.GetCreditsStatus(credits).value.canSkipAds
    ensures skipReason.Some? ==>
      skipReason.value == if CreditsClient.GetCreditsStatus(credits).value.isPremium then "premium_user" else "has_credits"
  {
    if Truthy(jwt) && Truthy(userId) then
      match CreditsClient.GetCreditsStatus(credits)
      case Some(status) =>
        if status.canSkipAds then Some(if status.isPremium then "premium_user" else "has_credits") else None
      case None => None
    else None
  }

  /** The provider context built from the request. */
  function ContextOf(request: AdRequest, userId: Option<string>): ProviderContext {
    ProviderContext(userId, request.sessionId, request.page, request.deviceType)
  }

  /**
   * The enriched ad: the provider's own name for itself when it gave one, else the
   * selected provider's name, and a viewability token for the ad's impression id.
   */
  function Enrich(ad: AdObject, selected: Provider, key: string, hmac: Abuse.Hmac, now: nat): AdObject {
    ad.(provider := Some(if Truthy(ad.provider) then ad.provider.value else selected.Name()),
        viewabilityToken := Some(Abuse.IssueViewabilityToken(key, hmac, ad.impressionId, now)))
  }

  /** The impression row for a served ad: keyed by its impression id, device type defaulting to desktop. */
  function ImpressionFor(ad: AdObject, userId: Option<string>, request: AdRequest): (rec: ImpressionRecord)
    ensures rec.id == ad.impressionId && rec.adUnitId == ad.id && rec.provider == OrEmpty(ad.provider)
    ensures rec.userId == userId && rec.sessionId == request.sessionId && rec.page == request.page
    ensures rec.deviceType == request.deviceType.GetOr(Desktop) && rec.userAgent == ""
  {
    ImpressionRecord(ad.impressionId, ad.id, OrEmpty(ad.provider), userId, request.sessionId, request.page,
                     request.deviceType.GetOr(Desktop), "")
  }

  /**
   * `handleAdRequest`. `credits` is what the status call answered, `u` the selector's draw,
   * `d` the provider's draws and `tokenNow` the clock reading the token is issued at.
   */
  method HandleAdRequest(
    request: AdRequest, userId: Option<string>, jwt: Option<string>, credits: CreditsClient.HttpOutcome,
    key: string, hmac: Abuse.Hmac, setup: Providers.ProviderSetup,
    selector: Registry.Selector, manager: GoogleAds.GoogleAdsManager, store: AdStore.AdStore,
    u: real, d: Draws, tokenNow: nat)
    returns (r: AdResponse)
    requires d.Valid()
    modifies selector, store
    ensures CreditsGate(userId, jwt, credits).Some? ==>
      r == AdResponse(true, None, CreditsGate(userId, jwt, credits), None) &&
      selector.rrIndex == old(selector.rrIndex) && store.impressions == old(store.impressions)
    ensures CreditsGate(userId, jwt, credits).None? ==>
      var (p, rr) := Registry.Selection(selector.providers, selector.weights, old(selector.rrIndex), u);
      var res := Providers.RequestAd(p, setup, manager, ContextOf(request, userId), d);
      selector.rrIndex == rr &&
      (res.Failure? ==> r == Failed("Internal server error") && store.impressions == old(store.impressions)) &&
      (res.Success? ==>
        var ad := Enrich(res.value, p, key, hmac, tokenNow);
        r == AdResponse(true, Some(ad), None, None) &&
        store.impressions ==
          if old(store.available) && ad.impressionId !in old(store.impressions)
          then old(store.impressions)[ad.impressionId := AdStore.PersistedImpression(ImpressionFor(ad, userId, request))]
          else old(store.impressions))
    ensures store.clicks == old(store.clicks) && store.available == old(store.available)
    ensures old(store.Valid()) ==> store.Valid()
  {
    var skip := CreditsGate(userId, jwt, credits);
    if skip.Some? {
      return AdResponse(true, None, skip, None);
    }
    var p := selector.SelectProvider(u);
    var res := Providers.RequestAd(p, setup, manager, ContextOf(request, userId), d);
    if res.Failure? {
      return Failed("Internal server error");
    }
    var ad := Enrich(res.value, p, key, hmac, tokenNow);
    var _ := store.RecordImpression(ImpressionFor(ad, userId, request));
    r := AdResponse(true, Some(ad), None, None);
  }

  /** Without both a JWT and a user id the credits service is never consulted. */
  lemma GateNeedsJwtAndUser(userId: Option<string>, jwt: Option<string>, credits: CreditsClient.HttpOutcome)
    requires !Truthy(jwt) || !Truthy(userId)
    ensures CreditsGate(userId, jwt, credits).None?
  {
  }

  /** A status call that fails (any thrown, non-OK or unreadable answer) never skips the ad. */
  lemma FailedStatusServesAd(userId: Option<string>, jwt: Option<string>, credits: CreditsClient.HttpOutcome)
    requires !CreditsClient.Succeeded(credits)
    ensures CreditsGate(userId, jwt, credits).None?
  {
  }

  /**
   * Whatever provider is selected, a served ad carries that provider's name, and every
   * other field but the token is the provider's own.
   */
  lemma ServedAdNamesSelectedProvider(
    p: Provider, setup: Providers.ProviderSetup, manager: GoogleAds.GoogleAdsManager, ctx: ProviderContext,
    d: Draws, key: string, hmac: Abuse.Hmac, now: nat)
    requires d.Valid()
    requires Providers.RequestAd(p, setup, manager, ctx, d).Success?
    ensures
      var ad := Providers.RequestAd(p, setup, manager, ctx, d).value;
      var e := Enrich(ad, p, key, hmac, now);
      e.provider == Some(p.Name()) && e.(viewabilityToken := ad.viewabilityToken) == ad
  {
  }

  /**
   * The token on a served ad is issued for that ad's impression id: when the id holds no
   * '|', it validates at time `now` exactly when `now - tokenNow` reaches the minimum
   * display time.
   */
  lemma ServedTokenValidates(
    ad: AdObject, selected: Provider, key: string, hmac: Abuse.Hmac, tokenNow: nat, now: int, minDisplayMs: Option<int>)
    requires '|' !in ad.impressionId
    ensures
      var e := Enrich(ad, selected, key, hmac, tokenNow);
      e.impressionId == ad.impressionId &&
      (Abuse.ValidateViewabilityToken(key, hmac, e.viewabilityToken.value, now, minDisplayMs) <==>
       minDisplayMs.Some? && now - tokenNow >= minDisplayMs.value)
  {
    Abuse.ValidateIssued(key, hmac, ad.impressionId, tokenNow, now, minDisplayMs);
  }
}
