/**
 * The client of the external credits service. The HTTP exchange itself is an input:
 * each operation is given what the service answered (or that the call threw) and
 * normalises it into the result the rest of the service sees.
 */
module CreditsClient {
  import opened Wrappers
  import AdsConfig

  /** The fields a credits-service JSON body may carry; `None` is absent or null. */
  datatype Body = Body(
    userId: Option<string>,
    isPremium: Option<bool>,
    creditBalance: Option<real>,
    canSkipAds: Option<bool>,
    amountRewarded: Option<real>,
    amountDeducted: Option<real>,
    newBalance: Option<real>,
    reason: Option<string>,
    requestId: Option<string>,
    error: Option<string>,
    currentBalance: Option<real>,
    required: Option<real>)

  const EmptyBody := Body(None, None, None, None, None, None, None, None, None, None, None, None)

  /** `res.json()`: a parsed object, or the message of the error it throws. */
  datatype Json = Parsed(body: Body) | Unparseable(message: string)

  /**
   * What a `fetch` to the service came to: it threw (with the error's message when the
   * thrown value is an `Error`), or it answered with an `ok` flag and a body.
   */
  datatype HttpOutcome = Thrown(message: Option<string>) | Answered(ok: bool, json: Json)

  /** The request a credits call sends; `amount` and `reason` form the JSON body of a POST. */
  datatype HttpRequest = HttpRequest(
    verb: string, url: string, authorization: string, amount: Option<real>, reason: Option<string>)

  datatype CreditsStatus = CreditsStatus(
    userId: Option<string>, isPremium: bool, creditBalance: real, canSkipAds: bool, requestId: Option<string>)

  datatype OperationResult = OperationResult(
    success: bool,
    userId: Option<string>,
    amountRewarded: Option<real>,
    amountDeducted: Option<real>,
    newBalance: Option<real>,
    reason: Option<string>,
    requestId: Option<string>,
    error: Option<string>,
    currentBalance: Option<real>,
    required: Option<real>)

  /** `PAYMENT_SERVICE_BASE_URL || CREDITS_BASE_URL || 'http://localhost:8790'`. */
  function BaseUrl(env: AdsConfig.Env): string {
    AdsConfig.EnvOr(env, "PAYMENT_SERVICE_BASE_URL",
      AdsConfig.EnvOr(env, "CREDITS_BASE_URL", "http://localhost:8790"))
  }

  function StatusRequest(base: string, jwt: string): HttpRequest {
    HttpRequest("GET", base + "/api/credits/status", "Bearer " + jwt, None, None)
  }

  /** The reward request; the reason defaults to `ad_click_reward`. */
  function RewardRequest(base: string, jwt: string, amount: real, reason: Option<string>): (q: HttpRequest)
    ensures q.reason == Some(if Truthy(reason) then reason.value else "ad_click_reward")
    ensures q.amount == Some(amount) && q.authorization == "Bearer " + jwt
  {
    HttpRequest("POST", base + "/api/credits/reward", "Bearer " + jwt, Some(amount),
                Some(if Truthy(reason) then reason.value else "ad_click_reward"))
  }

  /** The deduct request; the reason defaults to `skip_ad`. */
  function DeductRequest(base: string, jwt: string, amount: real, reason: Option<string>): (q: HttpRequest)
    ensures q.reason == Some(if Truthy(reason) then reason.value else "skip_ad")
    ensures q.amount == Some(amount) && q.authorization == "Bearer " + jwt
  {
    HttpRequest("POST", base + "/api/credits/deduct", "Bearer " + jwt, Some(amount),
                Some(if Truthy(reason) then reason.value else "skip_ad"))
  }

  /** The answer was a success with a readable body. */
  predicate Succeeded(outcome: HttpOutcome) {
    outcome.Answered? && outcome.ok && outcome.json.Parsed?
  }

  /** JavaScript `x || fallback` on an optional number: absent and 0 both give the fallback. */
  function NumberOr(x: Option<real>, fallback: real): real {
    if x.Some? && x.value != 0.0 then x.value else fallback
  }

  /**
   * `getCreditsStatus`: `None` (fail open) unless the service answered OK with a readable
   * body. Then `isPremium` defaults to false and `creditBalance` to 0; an explicit
   * `canSkipAds` wins, otherwise a user may skip ads iff premium or holding credit.
   */
  function GetCreditsStatus(outcome: HttpOutcome): (r: Option<CreditsStatus>)
    ensures r.Some? <==> Succeeded(outcome)
    ensures r.Some? ==>
      var b := outcome.json.body;
      r.value.userId == b.userId &&
      r.value.isPremium == (b.isPremium == Some(true)) &&
      r.value.creditBalance == b.creditBalance.GetOr(0.0) &&
      (b.canSkipAds.Some? ==> r.value.canSkipAds == b.canSkipAds.value) &&
      (b.canSkipAds.None? ==> (r.value.canSkipAds <==> r.value.isPremium || r.value.creditBalance > 0.0))
  {
    if !Succeeded(outcome) then None
    else
      var b := outcome.json.body;
      var premium := b.isPremium.GetOr(false);
      var balance := NumberOr(b.creditBalance, 0.0);
      Some(CreditsStatus(b.userId, premium, balance, b.canSkipAds.GetOr(premium || balance > 0.0), b.requestId))
  }

  /** The body of a non-OK answer; an unreadable one counts as `{}`. */
  function ErrorBody(json: Json): Body {
    match json
    case Parsed(b) => b
    case Unparseable(_) => EmptyBody
  }

  /** The message a caught error leaves in `error`. */
  function CaughtMessage(message: Option<string>): string {
    message.GetOr("Network error")
  }

  /**
   * `rewardCredits`: success iff the service answered OK with a readable body, and then
   * `amountRewarded` falls back to the requested amount. A non-OK answer gives the body's
   * `error` or `Failed to reward credits`; a thrown error gives its message.
   */
  function RewardCredits(amount: real, outcome: HttpOutcome): (r: OperationResult)
    ensures r.success <==> Succeeded(outcome)
    ensures r.success ==>
      r.error.None? && r.amountRewarded == Some(NumberOr(outcome.json.body.amountRewarded, amount))
    ensures outcome.Answered? && !outcome.ok ==>
      r.error == Some(if Truthy(ErrorBody(outcome.json).error) then ErrorBody(outcome.json).error.value
                      else "Failed to reward credits")
    ensures !r.success ==> r.error.Some?
  {
    match outcome
    case Thrown(m) => Failure(CaughtMessage(m), None)
    case Answered(ok, json) =>
      if !ok then
        var e := ErrorBody(json);
        Failure(if Truthy(e.error) then e.error.value else "Failed to reward credits", e.requestId)
      else
        match json
        case Unparseable(m) => Failure(m, None)
        case Parsed(b) =>
          OperationResult(true, b.userId, Some(NumberOr(b.amountRewarded, amount)), None,
                          b.newBalance, b.reason, b.requestId, None, None, None)
  }

  /**
   * `deductCredits`: as `rewardCredits`, with `amountDeducted`, the default error
   * `Failed to deduct credits`, and the body's `currentBalance` and `required` carried
   * on a non-OK answer.
   */
  function DeductCredits(amount: real, outcome: HttpOutcome): (r: OperationResult)
    ensures r.success <==> Succeeded(outcome)
    ensures r.success ==>
      r.error.None? && r.amountDeducted == Some(NumberOr(outcome.json.body.amountDeducted, amount))
    ensures outcome.Answered? && !outcome.ok ==>
      r.error == Some(if Truthy(ErrorBody(outcome.json).error) then ErrorBody(outcome.json).error.value
                      else "Failed to deduct credits") &&
      r.currentBalance == ErrorBody(outcome.json).currentBalance &&
      r.required == ErrorBody(outcome.json).required
    ensures !r.success ==> r.error.Some?
  {
    match outcome
    case Thrown(m) => Failure(CaughtMessage(m), None)
    case Answered(ok, json) =>
      if !ok then
        var e := ErrorBody(json);
        OperationResult(false, None, None, None, None, None, e.requestId,
                        Some(if Truthy(e.error) then e.error.value else "Failed to deduct credits"),
                        e.currentBalance, e.required)
      else
        match json
        case Unparseable(m) => Failure(m, None)
        case Parsed(b) =>
          OperationResult(true, b.userId, None, Some(NumberOr(b.amountDeducted, amount)),
                          b.newBalance, b.reason, b.requestId, None, None, None)
  }

  function Failure(error: string, requestId: Option<string>): OperationResult {
    OperationResult(false, None, None, None, None, None, requestId, Some(error), None, None)
  }

  /** Fail open: a thrown call, a non-OK answer or an unreadable body never yields a status. */
  lemma StatusFailsOpen(outcome: HttpOutcome)
    requires outcome.Thrown? || (outcome.Answered? && (!outcome.ok || outcome.json.Unparseable?))
    ensures GetCreditsStatus(outcome).None?
  {
  }
}
