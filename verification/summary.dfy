/** The nutrition summary page (src/pages/Summary.tsx): per-meal and whole-day totals of the
    day's menu, the macronutrient energy pie, the calories-by-meal bars and the goal
    progress. */
module Summary {
  import opened MenuTypes
  import opened Nutrition

  /** `{ mealStats, totals }`: the sums of each meal and of the day. */
  datatype Stats = Stats(mealStats: map<MealType, Macros>, totals: Macros)

  /** The position of a meal in the menu record. */
  function MealIndex(m: MealType): (i: nat)
    ensures i < |MealOrder| && MealOrder[i] == m
  {
    match m
    case Breakfast => 0
    case Lunch => 1
    case Dinner => 2
  }

  /** The stats the page derives from a menu: each meal's totals, and the day's. */
  function StatsOf(menu: DailyMenu): Stats {
    Stats(map m: MealType | true :: Totals(menu.Meal(m)), Totals(menu.AllItems()))
  }

  /** The day's totals are the sum of the three meals' totals. */
  lemma DayIsSumOfMeals(menu: DailyMenu)
    ensures Totals(menu.AllItems()) ==
      Plus(Plus(Totals(menu.breakfast), Totals(menu.lunch)), Totals(menu.dinner))
  {
    TotalsOfConcat(menu.breakfast + menu.lunch, menu.dinner);
    TotalsOfConcat(menu.breakfast, menu.lunch);
  }

  /** `stats`: none without a menu; otherwise every meal's items are added into that meal's
      entry, field by field, and the day's totals are the entries added up from zero. */
  method ComputeStats(menu: Option<DailyMenu>) returns (stats: Option<Stats>)
    ensures menu.None? <==> stats.None?
    ensures stats.Some? ==>
      && (forall m :: m in stats.value.mealStats && stats.value.mealStats[m] == Totals(menu.value.Meal(m)))
      && stats.value.totals == Totals(menu.value.AllItems())
  {
    if menu.None? {
      return None;
    }
    var day := menu.value;
    var mealStats := ComputeMealStats(day);
    var totals := SumEntries(mealStats);
    assert mealStats[Breakfast] == Totals(day.breakfast);
    assert mealStats[Lunch] == Totals(day.lunch);
    assert mealStats[Dinner] == Totals(day.dinner);
    PlusNothing(Totals(day.breakfast));
    DayIsSumOfMeals(day);
    stats := Some(Stats(mealStats, totals));
  }

  /** `Object.values(mealStats).reduce(…)`: the entries added up from zero, field by field. */
  method SumEntries(mealStats: map<MealType, Macros>) returns (totals: Macros)
    requires forall m :: m in mealStats
    ensures totals == Plus(Plus(Plus(NoMacros, mealStats[Breakfast]), mealStats[Lunch]), mealStats[Dinner])
  {
    totals := NoMacros;
    for e := 0 to |MealOrder|
      invariant totals == SumOfMeals(mealStats, e)
    {
      var s := mealStats[MealOrder[e]];
      totals := Macros(totals.calories + s.calories, totals.protein + s.protein,
        totals.carbs + s.carbs, totals.fat + s.fat);
    }
    assert SumOfMeals(mealStats, 1) == Plus(NoMacros, mealStats[Breakfast]);
    assert SumOfMeals(mealStats, 2) == Plus(SumOfMeals(mealStats, 1), mealStats[Lunch]);
  }

  /** `Object.entries(menu.meals).forEach(…)`: every meal's entry starts at zero and takes
      in that meal's items. */
  method ComputeMealStats(day: DailyMenu) returns (mealStats: map<MealType, Macros>)
    ensures forall m :: m in mealStats && mealStats[m] == Totals(day.Meal(m))
  {
    mealStats := map[Breakfast := NoMacros, Lunch := NoMacros, Dinner := NoMacros];
    EntriesStartAtZero(day, mealStats);
    for e := 0 to |MealOrder|
      invariant forall m :: m in mealStats && mealStats[m] == MealEntry(day, m, e)
    {
      var meal := MealOrder[e];
      ghost var before := mealStats;
      mealStats := AddMealItems(mealStats, meal, day.Meal(meal));
      EntryTakesInMeal(day, e, before, mealStats);
    }
  }

  lemma EntriesStartAtZero(day: DailyMenu, mealStats: map<MealType, Macros>)
    requires mealStats == map[Breakfast := NoMacros, Lunch := NoMacros, Dinner := NoMacros]
    ensures forall m :: m in mealStats && mealStats[m] == MealEntry(day, m, 0)
  {
    forall m
      ensures m in mealStats && mealStats[m] == MealEntry(day, m, 0)
    {
      match m
      case Breakfast =>
      case Lunch =>
      case Dinner =>
    }
  }

  lemma EntryTakesInMeal(day: DailyMenu, e: nat, before: map<MealType, Macros>, after: map<MealType, Macros>)
    requires e < |MealOrder|
    requires forall m :: m in before && before[m] == MealEntry(day, m, e)
    requires after.Keys == before.Keys
    requires after[MealOrder[e]] == Plus(before[MealOrder[e]], Totals(day.Meal(MealOrder[e])))
    requires forall m :: m in before && m != MealOrder[e] ==> after[m] == before[m]
    ensures forall m :: m in after && after[m] == MealEntry(day, m, e + 1)
  {
    var meal := MealOrder[e];
    forall m
      ensures m in after && after[m] == MealEntry(day, m, e + 1)
    {
      MealEntryStep(day, m, e);
      if m == meal {
        PlusNothing(Totals(day.Meal(meal)));
      }
    }
  }

  /** Taking in meal e sets that meal's entry from zero to its totals and leaves the others. */
  lemma MealEntryStep(day: DailyMenu, m: MealType, e: nat)
    requires e < |MealOrder|
    ensures m == MealOrder[e] ==> MealEntry(day, m, e) == NoMacros && MealEntry(day, m, e + 1) == Totals(day.Meal(m))
    ensures m != MealOrder[e] ==> MealEntry(day, m, e + 1) == MealEntry(day, m, e)
  {
    if m != MealOrder[e] {
      assert MealIndex(m) != e;
    }
  }

  /** The entry of meal m once the first e meals have been taken in. */
  function MealEntry(day: DailyMenu, m: MealType, e: nat): Macros {
    if MealIndex(m) < e then Totals(day.Meal(m)) else NoMacros
  }

  /** `items.forEach(item => { mealStats[meal].calories += … })`: the meal's entry grows by
      the items' totals and no other entry changes. */
  method AddMealItems(mealStats0: map<MealType, Macros>, meal: MealType, items: seq<MenuItem>)
    returns (mealStats: map<MealType, Macros>)
    requires meal in mealStats0
    ensures mealStats.Keys == mealStats0.Keys
    ensures mealStats[meal] == Plus(mealStats0[meal], Totals(items))
    ensures forall m :: m in mealStats0 && m != meal ==> mealStats[m] == mealStats0[m]
  {
    mealStats := mealStats0;
    for i := 0 to |items|
      invariant mealStats.Keys == mealStats0.Keys
      invariant mealStats[meal] == Plus(mealStats0[meal], Totals(items[..i]))
      invariant forall m :: m in mealStats0 && m != meal ==> mealStats[m] == mealStats0[m]
    {
      var item := items[i];
      var s := mealStats[meal];
      mealStats := mealStats[meal := Macros(
        s.calories + item.nutrition.calories, s.protein + item.nutrition.protein,
        s.carbs + item.nutrition.carbs, s.fat + item.nutrition.fat)];
      assert items[..i + 1] == items[..i] + [item];
      TotalsOfSnoc(items[..i], item);
    }
    assert items[..|items|] == items;
  }

  lemma PlusNothing(t: Macros)
    ensures Plus(NoMacros, t) == t
  {
  }

  /** The entries of the first e meals added up from zero. */
  function SumOfMeals(mealStats: map<MealType, Macros>, e: nat): Macros
    requires e <= |MealOrder| && forall m :: m in mealStats
  {
    if e == 0 then NoMacros else Plus(SumOfMeals(mealStats, e - 1), mealStats[MealOrder[e - 1]])
  }

  /** What `ComputeStats` gives is `StatsOf` the menu. */
  lemma ComputedStatsAreStatsOf(menu: DailyMenu, stats: Stats)
    requires forall m :: m in stats.mealStats && stats.mealStats[m] == Totals(menu.Meal(m))
    requires stats.totals == Totals(menu.AllItems())
    ensures stats == StatsOf(menu)
  {
    assert stats.mealStats.Keys == StatsOf(menu).mealStats.Keys;
  }

  // ---------------------------------------------------------------------------
  // The charts and the goal
  // ---------------------------------------------------------------------------

  /** A named chart value: a pie slice in kcal, or a bar. */
  datatype Slice = Slice(name: string, value: int)

  /** `pieData`: the energy of protein and carbs at 4 kcal per gram, of fat at 9. */
  function PieData(totals: Macros): (r: seq<Slice>)
    ensures |r| == 3
    ensures r[0].name == "Protein" && r[1].name == "Carbs" && r[2].name == "Fat"
    ensures r[0].value == 4 * totals.protein && r[1].value == 4 * totals.carbs && r[2].value == 9 * totals.fat
  {
    [Slice("Protein", totals.protein * 4), Slice("Carbs", totals.carbs * 4), Slice("Fat", totals.fat * 9)]
  }

  /** The sum of the values of a chart. */
  function ChartSum(r: seq<Slice>): int {
    if r == [] then 0 else r[0].value + ChartSum(r[1..])
  }

  lemma ChartSumOfThree(r: seq<Slice>)
    requires |r| == 3
    ensures ChartSum(r) == r[0].value + r[1].value + r[2].value
  {
    var r1 := r[1..];
    var r2 := r1[1..];
    assert ChartSum(r2) == r2[0].value + ChartSum(r2[1..]);
    assert ChartSum(r1) == r1[0].value + ChartSum(r2);
  }

  /** The macronutrient energy of one item. */
  function MacroEnergy(item: MenuItem): int {
    4 * item.nutrition.protein + 4 * item.nutrition.carbs + 9 * item.nutrition.fat
  }

  /** The macronutrient energy of a list of items, item by item. */
  function EnergySum(items: seq<MenuItem>): int {
    if items == [] then 0 else MacroEnergy(items[0]) + EnergySum(items[1..])
  }

  /** The whole pie is the macronutrient energy of the items, added up item by item. */
  lemma {:induction false} PieIsItemEnergy(items: seq<MenuItem>)
    ensures ChartSum(PieData(Totals(items))) == EnergySum(items)
  {
    TotalsAreFieldSums(items);
    EnergyIsFieldSums(items);
    ChartSumOfThree(PieData(Totals(items)));
  }

  lemma {:induction false} EnergyIsFieldSums(items: seq<MenuItem>)
    ensures EnergySum(items) == 4 * FieldSum(items, Protein) + 4 * FieldSum(items, Carbs) + 9 * FieldSum(items, Fat)
  {
    if items != [] {
      EnergyIsFieldSums(items[1..]);
    }
  }

  /** `barData`: one bar per meal, breakfast, lunch, dinner, each with the meal's calories. */
  function BarData(mealStats: map<MealType, Macros>): (r: seq<Slice>)
    requires forall m :: m in mealStats
    ensures |r| == |MealOrder|
    ensures forall k :: 0 <= k < |r| ==> r[k].value == mealStats[MealOrder[k]].calories
    ensures r[0].name == "Breakfast" && r[1].name == "Lunch" && r[2].name == "Dinner"
  {
    [Slice("Breakfast", mealStats[Breakfast].calories),
     Slice("Lunch", mealStats[Lunch].calories),
     Slice("Dinner", mealStats[Dinner].calories)]
  }

  /** The bars add up to the day's calories. */
  lemma BarsAddUpToTheDay(menu: DailyMenu)
    ensures ChartSum(BarData(StatsOf(menu).mealStats)) == StatsOf(menu).totals.calories
  {
    var stats := StatsOf(menu);
    var bars := BarData(stats.mealStats);
    ChartSumOfThree(bars);
    StatsOfMeal(menu, Breakfast);
    StatsOfMeal(menu, Lunch);
    StatsOfMeal(menu, Dinner);
    assert bars[0].value == Totals(menu.breakfast).calories;
    assert bars[1].value == Totals(menu.lunch).calories;
    assert bars[2].value == Totals(menu.dinner).calories;
    DayCaloriesAreMealCalories(menu);
  }

  /** The day's calories are the three meals' calories added up. */
  lemma DayCaloriesAreMealCalories(menu: DailyMenu)
    ensures StatsOf(menu).totals.calories ==
      Totals(menu.breakfast).calories + Totals(menu.lunch).calories + Totals(menu.dinner).calories
  {
    DayIsSumOfMeals(menu);
  }

  /** The entry of a meal in the derived stats is that meal's totals. */
  lemma StatsOfMeal(menu: DailyMenu, m: MealType)
    ensures m in StatsOf(menu).mealStats && StatsOf(menu).mealStats[m] == Totals(menu.Meal(m))
  {
  }

  /** `progress`: the day's calories as a whole percentage of the 2000 kcal goal, halves
      rounded up. */
  function GoalProgress(totalCalories: int): (p: int)
    ensures p == Round((totalCalories as real / DailyGoal as real) * 100.0)
    ensures 20 * p - 10 <= totalCalories < 20 * p + 10
  {
    RoundedPercent(totalCalories);
    (totalCalories + 10) / 20
  }

  /** The width of the progress bar: the progress, capped at 100 percent. */
  function ProgressWidth(progress: int): (w: int)
    ensures w <= 100
    ensures w == progress || (w == 100 && progress > 100)
  {
    if progress < 100 then progress else 100
  }

  /** The width follows the calories up to the goal and is full from the goal on. */
  lemma ProgressWidthReachesFullAtGoal(totalCalories: int)
    ensures totalCalories >= DailyGoal - 10 ==> ProgressWidth(GoalProgress(totalCalories)) == 100
    ensures totalCalories < DailyGoal - 10 ==> ProgressWidth(GoalProgress(totalCalories)) < 100
  {
  }

  /** What the page shows: the totals, the pie, the bars, the percentage and the bar width. */
  datatype SummaryView = SummaryView(totals: Macros, pie: seq<Slice>, bars: seq<Slice>, progress: int, width: int)

  /** The page: nothing without stats; otherwise the day's totals, their energy pie, the
      calories-by-meal bars, the rounded progress and the capped bar width. */
  function SummaryPage(stats: Option<Stats>): (v: Option<SummaryView>)
    requires stats.Some? ==> forall m :: m in stats.value.mealStats
    ensures v.None? <==> stats.None?
    ensures v.Some? ==> v.value.width == ProgressWidth(v.value.progress) && v.value.width <= 100
    ensures v.Some? ==> v.value.progress == GoalProgress(stats.value.totals.calories)
    ensures v.Some? ==> v.value.totals == stats.value.totals
    ensures v.Some? ==> v.value.pie == PieData(stats.value.totals) && v.value.bars == BarData(stats.value.mealStats)
  {
    match stats
    case None => None
    case Some(s) =>
      var progress := GoalProgress(s.totals.calories);
      Some(SummaryView(s.totals, PieData(s.totals), BarData(s.mealStats), progress, ProgressWidth(progress)))
  }
}
