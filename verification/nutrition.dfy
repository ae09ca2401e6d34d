/** The nutrition summary bar of the daily view
    (src/components/nutrition/NutritionSummaryBar.tsx): the totals of the selected items,
    the capped calorie progress against the 2000 kcal goal, and the empty state. The
    totals and the rounding are shared with the summary page. */
module Nutrition {
  import opened MenuTypes

  /** The four summed fields: `{ calories, protein, carbs, fat }`. */
  datatype Macros = Macros(calories: int, protein: int, carbs: int, fat: int)

  const NoMacros := Macros(0, 0, 0, 0)

  /** The daily calorie goal. */
  const DailyGoal: int := 2000

  /** Field-wise sum. */
  function Plus(a: Macros, b: Macros): Macros {
    Macros(a.calories + b.calories, a.protein + b.protein, a.carbs + b.carbs, a.fat + b.fat)
  }

  /** The four summed fields of one item. */
  function MacrosOf(item: MenuItem): Macros {
    Macros(item.nutrition.calories, item.nutrition.protein, item.nutrition.carbs, item.nutrition.fat)
  }

  /** The `reduce` callback: the accumulator plus one item's fields. */
  function AddItem(acc: Macros, item: MenuItem): Macros {
    Plus(acc, MacrosOf(item))
  }

  /** `items.reduce(AddItem, { 0, 0, 0, 0 })`: a fold from the left. */
  function Totals(items: seq<MenuItem>): Macros {
    if items == [] then NoMacros else AddItem(Totals(items[..|items| - 1]), items[|items| - 1])
  }

  // ---------------------------------------------------------------------------
  // An independent description: the sum of each field
  // ---------------------------------------------------------------------------

  /** One of the four summed fields. */
  datatype Field = Calories | Protein | Carbs | Fat

  function Get(n: NutritionInfo, f: Field): int {
    match f
    case Calories => n.calories
    case Protein => n.protein
    case Carbs => n.carbs
    case Fat => n.fat
  }

  /** The sum of one field over the items, added up from the right. */
  function FieldSum(items: seq<MenuItem>, f: Field): int {
    if items == [] then 0 else Get(items[0].nutrition, f) + FieldSum(items[1..], f)
  }

  lemma {:induction false} FieldSumOfSnoc(items: seq<MenuItem>, item: MenuItem, f: Field)
    ensures FieldSum(items + [item], f) == FieldSum(items, f) + Get(item.nutrition, f)
  {
    if items != [] {
      assert (items + [item])[1..] == items[1..] + [item];
      FieldSumOfSnoc(items[1..], item, f);
    }
  }

  /** Each total is the sum of its field over the items. */
  lemma {:induction false} TotalsAreFieldSums(items: seq<MenuItem>)
    ensures Totals(items) == Macros(
      FieldSum(items, Calories), FieldSum(items, Protein), FieldSum(items, Carbs), FieldSum(items, Fat))
  {
    if items != [] {
      var init, last := items[..|items| - 1], items[|items| - 1];
      assert items == init + [last];
      TotalsAreFieldSums(init);
      FieldSumOfSnoc(init, last, Calories);
      FieldSumOfSnoc(init, last, Protein);
      FieldSumOfSnoc(init, last, Carbs);
      FieldSumOfSnoc(init, last, Fat);
    }
  }

  // ---------------------------------------------------------------------------
  // The algebra of the totals
  // ---------------------------------------------------------------------------

  /** Appending an item adds exactly its fields. */
  lemma TotalsOfSnoc(items: seq<MenuItem>, item: MenuItem)
    ensures Totals(items + [item]) == Plus(Totals(items), MacrosOf(item))
  {
    assert (items + [item])[..|items|] == items;
  }

  /** The totals of two lists together are the sum of their totals. */
  lemma {:induction false} TotalsOfConcat(a: seq<MenuItem>, b: seq<MenuItem>)
    ensures Totals(a + b) == Plus(Totals(a), Totals(b))
  {
    if b == [] {
      assert a + b == a;
    } else {
      var init, last := b[..|b| - 1], b[|b| - 1];
      assert a + b == (a + init) + [last];
      TotalsOfSnoc(a + init, last);
      TotalsOfConcat(a, init);
      TotalsOfSnoc(init, last);
    }
  }

  /** Taking one item out of the list takes its fields out of the totals. */
  lemma TotalsWithout(b: seq<MenuItem>, k: nat)
    requires k < |b|
    ensures Totals(b) == Plus(Totals(b[..k] + b[k + 1..]), MacrosOf(b[k]))
  {
    var pre, post, m := b[..k], b[k + 1..], MacrosOf(b[k]);
    var left := pre + [b[k]];
    SplitAround(b, k);
    calc {
      Totals(b);
      Totals(left + post);
      { TotalsOfConcat(left, post); }
      Plus(Totals(left), Totals(post));
      { TotalsOfSnoc(pre, b[k]); }
      Plus(Plus(Totals(pre), m), Totals(post));
      { PlusSwap(Totals(pre), m, Totals(post)); }
      Plus(Plus(Totals(pre), Totals(post)), m);
      { TotalsOfConcat(pre, post); }
      Plus(Totals(pre + post), m);
    }
  }

  /** A sequence is its part before k, its k-th element and its part after k. */
  lemma SplitAround<T>(b: seq<T>, k: nat)
    requires k < |b|
    ensures b == (b[..k] + [b[k]]) + b[k + 1..]
  {
  }

  /** Adding one item's fields before or after the rest gives the same sum. */
  lemma PlusSwap(x: Macros, m: Macros, y: Macros)
    ensures Plus(Plus(x, m), y) == Plus(Plus(x, y), m)
  {
  }

  /** The totals do not depend on the order of the items. */
  lemma {:induction false} TotalsArePermutationInvariant(a: seq<MenuItem>, b: seq<MenuItem>)
    requires multiset(a) == multiset(b)
    ensures Totals(a) == Totals(b)
    decreases |a|
  {
    if a != [] {
      var init, last := a[..|a| - 1], a[|a| - 1];
      assert a == init + [last];
      assert last in multiset(b);
      var k :| 0 <= k < |b| && b[k] == last;
      var rest := b[..k] + b[k + 1..];
      SplitAround(b, k);
      calc {
        multiset(init) + multiset{last};
        multiset(a);
        multiset(b);
        multiset(b[..k]) + multiset{last} + multiset(b[k + 1..]);
        multiset(rest) + multiset{last};
      }
      assert multiset(init) == multiset(init) + multiset{last} - multiset{last};
      assert multiset(rest) == multiset(rest) + multiset{last} - multiset{last};
      TotalsArePermutationInvariant(init, rest);
      TotalsWithout(b, k);
    }
  }

  // ---------------------------------------------------------------------------
  // Progress and rounding
  // ---------------------------------------------------------------------------

  function MinReal(a: real, b: real): real {
    if a < b then a else b
  }

  /** `Math.min((calories / 2000) * 100, 100)`, in exact arithmetic. */
  function CappedProgress(calories: int): (p: real)
    ensures p <= 100.0
    ensures calories >= 0 ==> p >= 0.0
  {
    MinReal((calories as real / DailyGoal as real) * 100.0, 100.0)
  }

  /** Below the goal the progress is the share of the goal in percent; from the goal on it
      is 100. */
  lemma CappedProgressIsShareOfGoal(calories: int)
    ensures calories <= DailyGoal ==> CappedProgress(calories) == calories as real / 20.0
    ensures calories >= DailyGoal ==> CappedProgress(calories) == 100.0
  {
  }

  /** `Math.round`: the nearest integer, halves rounded up. */
  function Round(x: real): (r: int)
    ensures r as real - 0.5 <= x < r as real + 0.5
  {
    (x + 0.5).Floor
  }

  /** Dividing by a positive integer and flooring is integer division. */
  lemma FloorOfQuotient(n: int, d: int)
    requires d > 0
    ensures (n as real / d as real).Floor == n / d
  {
    var q, r := n / d, n % d;
    assert n == q * d + r;
    assert n as real / d as real == q as real + r as real / d as real;
    assert 0.0 <= r as real / d as real < 1.0;
  }

  /** `Math.round((calories / 2000) * 100)` is the whole percentage, halves up. */
  lemma RoundedPercent(calories: int)
    ensures Round((calories as real / DailyGoal as real) * 100.0) == (calories + 10) / 20
  {
    assert (calories as real / DailyGoal as real) * 100.0 + 0.5 == (calories + 10) as real / 20 as real;
    FloorOfQuotient(calories + 10, 20);
  }

  // ---------------------------------------------------------------------------
  // The bar
  // ---------------------------------------------------------------------------

  /** What the bar shows: the prompt for an empty selection, or the item count, the totals,
      the progress bar width and the rounded percentage. */
  datatype BarView =
    | EmptyPrompt
    | Selection(count: nat, totals: Macros, width: real, percent: int)

  /** `NutritionSummaryBar`. */
  function SummaryBar(selectedItems: seq<MenuItem>): (v: BarView)
    ensures selectedItems == [] <==> v == EmptyPrompt
    ensures v.Selection? ==>
      && v.count == |selectedItems|
      && v.totals == Totals(selectedItems)
      && v.width == CappedProgress(Totals(selectedItems).calories)
      && v.percent == Round(v.width)
  {
    var totals := Totals(selectedItems);
    var progress := CappedProgress(totals.calories);
    if |selectedItems| == 0 then EmptyPrompt
    else Selection(|selectedItems|, totals, progress, Round(progress))
  }

  /** The bar never shows more than 100 percent, and for items with non-negative calories
      never less than 0. */
  lemma SummaryBarIsCapped(selectedItems: seq<MenuItem>)
    requires forall x :: x in selectedItems ==> x.nutrition.calories >= 0
    ensures SummaryBar(selectedItems).Selection? ==>
      0.0 <= SummaryBar(selectedItems).width <= 100.0 && 0 <= SummaryBar(selectedItems).percent <= 100
  {
    if selectedItems != [] {
      TotalsAreFieldSums(selectedItems);
      FieldSumOfNonNegative(selectedItems, Calories);
    }
  }

  /** A field that is never negative sums to a non-negative total. */
  lemma {:induction false} FieldSumOfNonNegative(items: seq<MenuItem>, f: Field)
    requires forall x :: x in items ==> Get(x.nutrition, f) >= 0
    ensures FieldSum(items, f) >= 0
  {
    if items != [] {
      assert items[0] in items;
      FieldSumOfNonNegative(items[1..], f);
    }
  }
}
