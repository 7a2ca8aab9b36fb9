/**
 * The persistence the handlers use, as an abstract store: the impression table as a map
 * from impression id to row, the click table as a sequence of rows. A write fails when
 * the database is unavailable or the primary key is already taken.
 */
module AdStore {
  import opened Wrappers
  import opened AdTypes

  /** `x || null`: an empty optional string is stored as NULL. */
  function NullIfEmpty(x: Option<string>): (r: Option<string>)
    ensures r.Some? <==> Truthy(x)
    ensures r.Some? ==> r == x
  {
    if Truthy(x) then x else None
  }

  /**
   * The impression row as `recordImpression` writes it. Its INSERT does not name the
   * `provider` column, so the row takes the column default `google`.
   */
  function PersistedImpression(rec: ImpressionRecord): (row: ImpressionRecord)
    ensures row.provider == "google"
    ensures row.(provider := rec.provider, userId := rec.userId) == rec
    ensures row.userId == NullIfEmpty(rec.userId)
  {
    rec.(provider := "google", userId := NullIfEmpty(rec.userId))
  }

  /** The click row as `recordClick` writes it. */
  function PersistedClick(c: ClickRecord): (row: ClickRecord)
    ensures row.(userId := c.userId) == c
    ensures row.userId == NullIfEmpty(c.userId)
  {
    c.(userId := NullIfEmpty(c.userId))
  }

  predicate ClickIdTaken(clicks: seq<ClickRecord>, id: string) {
    exists i :: 0 <= i < |clicks| && clicks[i].id == id
  }

  class AdStore {
    var available: bool
    var impressions: map<string, ImpressionRecord>
    var clicks: seq<ClickRecord>

    /** Every click row refers to a stored impression. */
    predicate Valid()
      reads this
    {
      forall i :: 0 <= i < |clicks| ==> clicks[i].impressionId in impressions
    }

    constructor(available: bool)
      ensures this.available == available && impressions == map[] && clicks == []
      ensures Valid()
    {
      this.available := available;
      impressions := map[];
      clicks := [];
    }

    /** `recordImpression`: inserts the row unless the store is down or the id is taken. */
    method RecordImpression(rec: ImpressionRecord) returns (ok: bool)
      modifies this
      ensures ok <==> old(available) && rec.id !in old(impressions)
      ensures impressions == if ok then old(impressions)[rec.id := PersistedImpression(rec)] else old(impressions)
      ensures clicks == old(clicks) && available == old(available)
      ensures old(Valid()) ==> Valid()
    {
      if !available || rec.id in impressions {
        return false;
      }
      impressions := impressions[rec.id := PersistedImpression(rec)];
      ok := true;
    }

    /** `SELECT * FROM ad_impressions WHERE id = ?`: fails when the store is down. */
    function GetImpression(id: string): (r: Result<Option<ImpressionRecord>>)
      reads this
      ensures r.Failure? <==> !available
      ensures r.Success? ==> (r.value.Some? <==> id in impressions)
      ensures r.Success? && r.value.Some? ==> r.value.value == impressions[id]
    {
      if !available then Failure("Database not initialized")
      else if id in impressions then Success(Some(impressions[id]))
      else Success(None)
    }

    /** `recordClick`: appends the row unless the store is down or the click id is taken. */
    method RecordClick(c: ClickRecord) returns (ok: bool)
      modifies this
      ensures ok <==> old(available) && !ClickIdTaken(old(clicks), c.id)
      ensures clicks == if ok then old(clicks) + [PersistedClick(c)] else old(clicks)
      ensures impressions == old(impressions) && available == old(available)
    {
      if !available || ClickIdTaken(clicks, c.id) {
        return false;
      }
      clicks := clicks + [PersistedClick(c)];
      ok := true;
    }
  }
}
