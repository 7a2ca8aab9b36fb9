/** The click flow: look the impression up, then append one click row for it. */
module TrackClick {
  import opened Wrappers
  import opened AdTypes
  import AdStore

  datatype ClickResponse = ClickResponse(success: bool, error: Option<string>)

  /** The click row for a stored impression: ad unit and session come from the impression, revenue is 0. */
  function ClickFor(clickId: string, impressionId: string, impression: ImpressionRecord, userId: Option<string>, clickUrl: string)
    : (c: ClickRecord)
    ensures c.id == clickId && c.impressionId == impressionId && c.userId == userId && c.clickUrl == clickUrl
    ensures c.adUnitId == impression.adUnitId && c.sessionId == impression.sessionId && c.revenue == 0.0
  {
    ClickRecord(clickId, impressionId, impression.adUnitId, userId, impression.sessionId, clickUrl, 0.0)
  }

  /**
   * `handleAdClick` with the fresh click id `clickId`. It performs no viewability or
   * dedupe check and does not call the provider's `onClick`.
   */
  method HandleAdClick(store: AdStore.AdStore, impressionId: string, clickUrl: string, userId: Option<string>, clickId: string)
    returns (r: ClickResponse)
    modifies store
    ensures !old(store.available) ==>
      r == ClickResponse(false, Some("Internal server error")) && store.clicks == old(store.clicks)
    ensures old(store.available) && impressionId !in old(store.impressions) ==>
      r == ClickResponse(false, Some("Impression not found")) && store.clicks == old(store.clicks)
    ensures old(store.available) && impressionId in old(store.impressions) ==>
      var c := ClickFor(clickId, impressionId, old(store.impressions)[impressionId], userId, clickUrl);
      if AdStore.ClickIdTaken(old(store.clicks), clickId) then
        r == ClickResponse(false, Some("Internal server error")) && store.clicks == old(store.clicks)
      else
        r == ClickResponse(true, None) && store.clicks == old(store.clicks) + [AdStore.PersistedClick(c)]
    ensures r.success ==> |store.clicks| == |old(store.clicks)| + 1
    ensures !r.success ==> store.clicks == old(store.clicks)
    ensures store.impressions == old(store.impressions) && store.available == old(store.available)
    ensures old(store.Valid()) ==> store.Valid()
  {
    var found := store.GetImpression(impressionId);
    if found.Failure? {
      return ClickResponse(false, Some("Internal server error"));
    }
    if found.value.None? {
      return ClickResponse(false, Some("Impression not found"));
    }
    var c := ClickFor(clickId, impressionId, found.value.value, userId, clickUrl);
    var ok := store.RecordClick(c);
    if !ok {
      return ClickResponse(false, Some("Internal server error"));
    }
    r := ClickResponse(true, None);
  }
}
