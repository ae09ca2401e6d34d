/** The client of the scrape function (src/cloud/useMenuScraper.ts): the reply of the
    function turned into the live menu, or into the error the query fails with. */
module MenuScraper {
  import opened MenuTypes

  /** `ScrapeResponse`: the function's reply. */
  datatype ScrapeResponse = ScrapeResponse(
    success: bool, mealPeriod: string, items: seq<ScrapedMenuItem>, scrapedAt: string,
    error: Option<string>)

  /** What invoking the function gives: the reply, if any, and the message of the error the
      invocation itself raised, if any. */
  datatype InvokeResult = InvokeResult(data: Option<ScrapeResponse>, error: Option<string>)

  const ScrapeFailed := "Scrape failed"

  /** `mapToMenuItem`: the three flags the app shows, calories the only nutrition known,
      confidence 0.85. */
  function MapToMenuItem(item: ScrapedMenuItem): (r: MenuItem)
    ensures r.id == item.id && r.name == item.name && r.station == item.station
    ensures r.dietary == DietaryInfo(item.dietary.vegetarian, item.dietary.vegan, item.dietary.glutenFree)
    ensures r.confidence == 0.85
    ensures r.nutrition == NutritionInfo(item.calories, 0, 0, 0, None, None, None, None)
    ensures (r.dietary.vegan ==> r.dietary.vegetarian) <==> (item.dietary.vegan ==> item.dietary.vegetarian)
  {
    MenuItem(item.id, item.name, item.station,
      DietaryInfo(item.dietary.vegetarian, item.dietary.vegan, item.dietary.glutenFree),
      NutritionInfo(item.calories, 0, 0, 0, None, None, None, None), 0.85)
  }

  /** Two scraped items map to the same `MenuItem` exactly when they agree on id, name,
      station, calories and the three shown flags: the other three badges and the
      description are dropped. */
  lemma MapToMenuItemKeeps(a: ScrapedMenuItem, b: ScrapedMenuItem)
    ensures MapToMenuItem(a) == MapToMenuItem(b) <==>
      && a.id == b.id && a.name == b.name && a.station == b.station && a.calories == b.calories
      && a.dietary.vegetarian == b.dietary.vegetarian
      && a.dietary.vegan == b.dietary.vegan
      && a.dietary.glutenFree == b.dietary.glutenFree
  {
    if MapToMenuItem(a) == MapToMenuItem(b) {
      assert MapToMenuItem(a).nutrition.calories == MapToMenuItem(b).nutrition.calories;
    }
  }

  /** The message of a failed reply: its own error when that is a non-empty string,
      "Scrape failed" otherwise. */
  function ReplyError(data: Option<ScrapeResponse>): (message: string)
    ensures message != ""
    ensures data.Some? && data.value.error.Some? && data.value.error.value != "" ==> message == data.value.error.value
    ensures !(data.Some? && data.value.error.Some? && data.value.error.value != "") ==> message == ScrapeFailed
  {
    if data.Some? && data.value.error.Some? && data.value.error.value != "" then data.value.error.value
    else ScrapeFailed
  }

  /** The query: an invocation error fails with its message; a missing or unsuccessful reply
      fails with the reply's error; a successful reply gives its meal period, its items
      mapped one by one in order, and its timestamp. */
  function FetchScrapedMenu(r: InvokeResult): (result: Result<LiveMenu>)
    ensures result.Success? <==> r.error.None? && r.data.Some? && r.data.value.success
    ensures r.error.Some? ==> result == Failure(r.error.value)
    ensures r.error.None? && result.Failure? ==> result.message == ReplyError(r.data) && result.message != ""
    ensures result.Success? ==>
      && result.value.mealPeriod == r.data.value.mealPeriod
      && result.value.scrapedAt == r.data.value.scrapedAt
      && |result.value.items| == |r.data.value.items|
      && forall k :: 0 <= k < |r.data.value.items| ==> result.value.items[k] == MapToMenuItem(r.data.value.items[k])
  {
    if r.error.Some? then Failure(r.error.value)
    else if r.data.None? || !r.data.value.success then Failure(ReplyError(r.data))
    else
      var data := r.data.value;
      Success(LiveMenu(data.mealPeriod, seq(|data.items|, k requires 0 <= k < |data.items| => MapToMenuItem(data.items[k])), data.scrapedAt))
  }

  /** A successful query keeps the scraped items' order and flags: item k of the live menu is
      vegan, vegetarian or gluten-free exactly when scraped item k is. */
  lemma LiveMenuKeepsItems(r: InvokeResult)
    requires FetchScrapedMenu(r).Success?
    ensures var items, scraped := FetchScrapedMenu(r).value.items, r.data.value.items;
      forall k :: 0 <= k < |scraped| ==>
        && items[k].id == scraped[k].id && items[k].name == scraped[k].name
        && items[k].station == scraped[k].station
        && items[k].nutrition.calories == scraped[k].calories
        && items[k].dietary.vegan == scraped[k].dietary.vegan
        && items[k].dietary.vegetarian == scraped[k].dietary.vegetarian
        && items[k].dietary.glutenFree == scraped[k].dietary.glutenFree
  {
  }
}
