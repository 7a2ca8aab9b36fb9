/**
 * The service's records: the ad request and response shapes, the provider contract
 * types, and the persisted impression and click rows.
 */
module AdTypes {
  import opened Wrappers

  datatype DeviceType = Desktop | Mobile | Tablet

  datatype AdFormat = Banner | Video | Native {
    function Name(): string {
      match this
      case Banner => "banner"
      case Video => "video"
      case Native => "native"
    }
  }

  datatype Size = Size(width: int, height: int)

  /** An incoming ad request. */
  datatype AdRequest = AdRequest(
    page: string,
    format: AdFormat,
    size: Option<Size>,
    userId: Option<string>,
    sessionId: string,
    deviceType: Option<DeviceType>)

  /** One entry of the mock ad inventory. */
  datatype MockAdContent = MockAdContent(
    title: string, description: string, displayUrl: string, clickUrl: string, imageUrl: Option<string>)

  /**
   * An ad's renderable content. The HTML templates are opaque: the value records only
   * what the template is filled with.
   */
  datatype Creative =
    | AdSenseSlot(clientId: string, slotId: string, width: int, height: int)
    | MockCard(ad: MockAdContent, width: int, height: int)
    | Markup(text: string)

  /** An ad as a provider returns it and as the service hands it out. */
  datatype AdObject = AdObject(
    id: string,
    adType: string,
    content: Creative,
    clickUrl: Option<string>,
    impressionId: string,
    provider: Option<string>,
    viewabilityToken: Option<string>)

  /** `{ success, ad?, skipReason?, error? }`. */
  datatype AdResponse = AdResponse(
    success: bool, ad: Option<AdObject>, skipReason: Option<string>, error: Option<string>)

  function Failed(error: string): AdResponse {
    AdResponse(false, None, None, Some(error))
  }

  /** What a provider is told about the request. */
  datatype ProviderContext = ProviderContext(
    userId: Option<string>, sessionId: string, page: string, deviceType: Option<DeviceType>)

  datatype ClickContext = ClickContext(
    adId: string, impressionId: string, userId: Option<string>, clickUrl: Option<string>)

  datatype ClickResult = ClickResult(success: bool)

  /** The ad sources the registry knows, one variant per implementation of the provider contract. */
  datatype Provider = GoogleProvider | AffiliateProvider | MinigameProvider {
    function Name(): string {
      match this
      case GoogleProvider => "google"
      case AffiliateProvider => "affiliate"
      case MinigameProvider => "minigame"
    }
  }

  /**
   * The values a provider draws while building an ad: two `randomUUID()` results, a
   * `Date.now()` reading, a `Math.random().toString(36)` fragment and one further
   * `Math.random()` draw.
   */
  datatype Draws = Draws(uuid1: string, uuid2: string, now: nat, suffix: string, pick: real) {
    predicate Valid() {
      0.0 <= pick < 1.0
    }
  }

  /** The impression row the request handler hands to the store. */
  datatype ImpressionRecord = ImpressionRecord(
    id: string,
    adUnitId: string,
    provider: string,
    userId: Option<string>,
    sessionId: string,
    page: string,
    deviceType: DeviceType,
    userAgent: string)

  /** The click row the click handler hands to the store. */
  datatype ClickRecord = ClickRecord(
    id: string,
    impressionId: string,
    adUnitId: string,
    userId: Option<string>,
    sessionId: string,
    clickUrl: string,
    revenue: real)
}
