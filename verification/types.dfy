/** The shared record types of the menu app (src/types/index.ts), the record the
    scrape edge function emits, and the small Option/Result wrappers the parsers use. */
module MenuTypes {

  datatype Option<+T> = None | Some(value: T)

  /** A value, or the message of the error the source would throw. */
  datatype Result<+T> = Success(value: T) | Failure(message: string)

  /** `MealType`: 'breakfast' | 'lunch' | 'dinner'. */
  datatype MealType = Breakfast | Lunch | Dinner

  /** `DietaryInfo`. */
  datatype DietaryInfo = DietaryInfo(vegetarian: bool, vegan: bool, glutenFree: bool)

  const NoDietary := DietaryInfo(false, false, false)

  /** `NutritionInfo`; the optional fields are absent on every item the parsers build. */
  datatype NutritionInfo = NutritionInfo(
    calories: int, protein: int, carbs: int, fat: int,
    fiber: Option<int>, sugar: Option<int>, sodium: Option<int>, servingSize: Option<string>)

  /** `MenuItem`: the canonical item every view consumes. */
  datatype MenuItem = MenuItem(
    id: int, name: string, station: string,
    dietary: DietaryInfo, nutrition: NutritionInfo, confidence: real)

  /** `DailyMenu`: `meals` is a record keyed by meal type, one field per key here. */
  datatype DailyMenu = DailyMenu(date: string, breakfast: seq<MenuItem>, lunch: seq<MenuItem>, dinner: seq<MenuItem>) {
    function Meal(m: MealType): seq<MenuItem> {
      match m
      case Breakfast => breakfast
      case Lunch => lunch
      case Dinner => dinner
    }

    /** `Object.values(meals).flat()`: the meal lists in the order breakfast, lunch, dinner. */
    function AllItems(): (r: seq<MenuItem>)
      ensures |r| == |breakfast| + |lunch| + |dinner|
      ensures forall x :: x in r <==> x in breakfast || x in lunch || x in dinner
    {
      breakfast + lunch + dinner
    }
  }

  /** The three meal periods in the order the menu records list them. */
  const MealOrder: seq<MealType> := [Breakfast, Lunch, Dinner]

  /** The six badges the markdown scraper recognises. */
  datatype ScrapedDietary = ScrapedDietary(
    vegetarian: bool, vegan: bool, glutenFree: bool,
    noDairy: bool, eatWell: bool, coolFood: bool)

  const NoBadges := ScrapedDietary(false, false, false, false, false, false)

  /** `ScrapedMenuItem` of the edge function, `ScrapedItem` of the client: the same shape. */
  datatype ScrapedMenuItem = ScrapedMenuItem(
    id: int, name: string, station: string, calories: nat,
    dietary: ScrapedDietary, description: Option<string>)

  /** What both live-menu hooks resolve to: `{ mealPeriod, items, scrapedAt }`. */
  datatype LiveMenu = LiveMenu(mealPeriod: string, items: seq<MenuItem>, scrapedAt: string)
}
