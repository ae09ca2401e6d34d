/** The selection logic of the daily view (src/pages/DailyView.tsx): the day's items, the
    items whose ids are selected, the toggle that selects or deselects an item, and the
    meals the active tab shows. */
module DailyView {
  import opened MenuTypes

  /** `allItems`: every item of the day, breakfast, lunch then dinner; none without a menu. */
  function AllItems(menu: Option<DailyMenu>): (r: seq<MenuItem>)
    ensures menu.None? ==> r == []
    ensures menu.Some? ==> |r| == |menu.value.breakfast| + |menu.value.lunch| + |menu.value.dinner|
    ensures menu.Some? ==> forall m: MealType, x :: x in menu.value.Meal(m) ==> x in r
    ensures menu.Some? ==> forall x :: x in r ==> exists m: MealType :: x in menu.value.Meal(m)
    ensures menu.Some? ==> r == menu.value.breakfast + menu.value.lunch + menu.value.dinner
  {
    match menu
    case None => []
    case Some(day) =>
      forall x | x in day.AllItems()
        ensures exists m: MealType :: x in day.Meal(m)
      {
        if x in day.breakfast {
          assert x in day.Meal(Breakfast);
        } else if x in day.lunch {
          assert x in day.Meal(Lunch);
        } else {
          assert x in day.Meal(Dinner);
        }
      }
      day.AllItems()
  }

  // ---------------------------------------------------------------------------
  // Selected items
  // ---------------------------------------------------------------------------

  /** `allItems.filter(item => selectedIds.includes(item.id))`. */
  function SelectedItems(allItems: seq<MenuItem>, selectedIds: seq<int>): (r: seq<MenuItem>)
    ensures |r| <= |allItems|
    ensures forall x :: x in r ==> x in allItems && x.id in selectedIds
  {
    if allItems == [] then []
    else
      var rest := SelectedItems(allItems[1..], selectedIds);
      if allItems[0].id in selectedIds then [allItems[0]] + rest else rest
  }

  /** `xs` is `ys` with some entries left out, the others kept in order. */
  predicate IsSubsequence<T(==)>(xs: seq<T>, ys: seq<T>)
    decreases |xs| + |ys|
  {
    if xs == [] then true
    else if ys == [] then false
    else if xs[0] == ys[0] then IsSubsequence(xs[1..], ys[1..])
    else IsSubsequence(xs, ys[1..])
  }

  /** The selection keeps the day's order. */
  lemma {:induction false} SelectedItemsAreInOrder(allItems: seq<MenuItem>, selectedIds: seq<int>)
    ensures IsSubsequence(SelectedItems(allItems, selectedIds), allItems)
  {
    if allItems != [] {
      SelectedItemsAreInOrder(allItems[1..], selectedIds);
      var rest := SelectedItems(allItems[1..], selectedIds);
      if allItems[0].id !in selectedIds {
        SubsequenceOfTail(rest, allItems);
      }
    }
  }

  /** One more entry in front of the longer list keeps a subsequence a subsequence. */
  lemma {:induction false} SubsequenceOfTail<T>(xs: seq<T>, ys: seq<T>)
    requires ys != [] && IsSubsequence(xs, ys[1..])
    ensures IsSubsequence(xs, ys)
    decreases |ys|, 0
  {
    if xs != [] && xs[0] == ys[0] {
      SubsequenceDropHead(xs, ys[1..]);
    }
  }

  /** Leaving out the first entry of a subsequence keeps it a subsequence. */
  lemma {:induction false} SubsequenceDropHead<T>(xs: seq<T>, ys: seq<T>)
    requires xs != [] && IsSubsequence(xs, ys)
    ensures IsSubsequence(xs[1..], ys)
    decreases |ys|, 1
  {
    if xs[0] == ys[0] {
      SubsequenceOfTail(xs[1..], ys);
    } else {
      SubsequenceDropHead(xs, ys[1..]);
      SubsequenceOfTail(xs[1..], ys);
    }
  }

  /** Every item of the day whose id is selected is in the selection, as often as in the
      day: the filter loses nothing. */
  lemma {:induction false} SelectedItemsAreComplete(allItems: seq<MenuItem>, selectedIds: seq<int>)
    ensures forall x: MenuItem :: x.id in selectedIds ==>
      multiset(SelectedItems(allItems, selectedIds))[x] == multiset(allItems)[x]
    ensures forall x: MenuItem :: x.id !in selectedIds ==> multiset(SelectedItems(allItems, selectedIds))[x] == 0
  {
    if allItems != [] {
      SelectedItemsAreComplete(allItems[1..], selectedIds);
      assert allItems == [allItems[0]] + allItems[1..];
    }
  }

  // ---------------------------------------------------------------------------
  // Toggling an id
  // ---------------------------------------------------------------------------

  /** `ids.filter(x => x !== id)`. */
  function Without(ids: seq<int>, id: int): (r: seq<int>)
    ensures id !in r
    ensures forall x :: x != id ==> (x in r <==> x in ids)
    ensures |r| <= |ids|
  {
    if ids == [] then []
    else
      var rest := Without(ids[1..], id);
      if ids[0] != id then [ids[0]] + rest else rest
  }

  /** `toggleItem`: a selected id is removed everywhere; any other id is appended. */
  function Toggle(selectedIds: seq<int>, id: int): (r: seq<int>)
    ensures id in r <==> id !in selectedIds
    ensures forall x :: x != id ==> (x in r <==> x in selectedIds)
  {
    if id in selectedIds then Without(selectedIds, id) else selectedIds + [id]
  }

  lemma {:induction false} WithoutOfAbsent(ids: seq<int>, id: int)
    requires id !in ids
    ensures Without(ids, id) == ids
  {
    if ids != [] {
      WithoutOfAbsent(ids[1..], id);
    }
  }

  lemma {:induction false} WithoutOfSnoc(ids: seq<int>, x: int, id: int)
    ensures Without(ids + [x], id) == Without(ids, id) + (if x != id then [x] else [])
  {
    if ids != [] {
      assert (ids + [x])[1..] == ids[1..] + [x];
      WithoutOfSnoc(ids[1..], x, id);
    } else {
      assert ids + [x] == [x];
    }
  }

  lemma {:induction false} WithoutIsIdempotent(ids: seq<int>, id: int)
    ensures Without(Without(ids, id), id) == Without(ids, id)
  {
    WithoutOfAbsent(Without(ids, id), id);
  }

  /** The other ids keep their order: with the toggled id taken out, the list is the same
      before and after. */
  lemma ToggleKeepsOthersInOrder(selectedIds: seq<int>, id: int)
    ensures Without(Toggle(selectedIds, id), id) == Without(selectedIds, id)
  {
    if id in selectedIds {
      WithoutIsIdempotent(selectedIds, id);
    } else {
      WithoutOfSnoc(selectedIds, id, id);
    }
  }

  /** Toggling an unselected id twice gives back the list. */
  lemma ToggleTwiceRestores(selectedIds: seq<int>, id: int)
    requires id !in selectedIds
    ensures Toggle(Toggle(selectedIds, id), id) == selectedIds
  {
    WithoutOfSnoc(selectedIds, id, id);
    WithoutOfAbsent(selectedIds, id);
  }

  /** No id occurs twice. */
  predicate Distinct(ids: seq<int>) {
    forall i, j :: 0 <= i < j < |ids| ==> ids[i] != ids[j]
  }

  lemma {:induction false} WithoutKeepsDistinct(ids: seq<int>, id: int)
    requires Distinct(ids)
    ensures Distinct(Without(ids, id))
  {
    if ids != [] {
      WithoutKeepsDistinct(ids[1..], id);
      assert ids[0] !in ids[1..];
    }
  }

  /** A toggle keeps a list without repeats without repeats. */
  lemma ToggleKeepsDistinct(selectedIds: seq<int>, id: int)
    requires Distinct(selectedIds)
    ensures Distinct(Toggle(selectedIds, id))
  {
    if id in selectedIds {
      WithoutKeepsDistinct(selectedIds, id);
    }
  }

  // ---------------------------------------------------------------------------
  // The meal tabs
  // ---------------------------------------------------------------------------

  /** The active tab: "all" or one meal. */
  datatype MealTab = All | Only(meal: MealType)

  /** The three meals are all the meals there are. */
  lemma EveryMealIsListed()
    ensures forall m: MealType :: m in MealOrder
  {
    forall m: MealType
      ensures m in MealOrder
    {
      match m
      case Breakfast => assert MealOrder[0] == m;
      case Lunch => assert MealOrder[1] == m;
      case Dinner => assert MealOrder[2] == m;
    }
  }

  /** `visibleMeals`. */
  function VisibleMeals(activeMeal: MealTab): (r: seq<MealType>)
    ensures forall m :: m in r <==> activeMeal.All? || activeMeal.meal == m
    ensures activeMeal == All ==> r == MealOrder
    ensures activeMeal.Only? ==> |r| == 1
  {
    match activeMeal
    case All => EveryMealIsListed(); MealOrder
    case Only(meal) => [meal]
  }
}
