/** The browser-side fetcher (src/hooks/useMenuFetcher.ts): the dietary flags read from the
    markup around an item, the plain-text fallback that runs when the structured pass over
    the page finds no item, the mapping to `MenuItem` and the meal period read off the page. */
module HtmlFetcher {
  import opened MenuTypes
  import opened Text

  /** `ParsedItem`: what the HTML parser builds before the mapping. */
  datatype ParsedItem = ParsedItem(id: int, name: string, station: string, calories: nat, dietary: DietaryInfo)

  /** The station every item gets until a station container names another. */
  const DefaultStation := "General"

  // ---------------------------------------------------------------------------
  // Dietary flags from the markup
  // ---------------------------------------------------------------------------

  /** `part` occurs somewhere in `context`. */
  predicate Mentions(context: string, part: string) {
    exists k :: 0 <= k <= |context| - |part| && OccursAt(context, part, k)
  }

  /** The flags a piece of lower-cased markup mentions. */
  function MentionedDietary(context: string): (d: DietaryInfo)
    ensures d.vegan ==> d.vegetarian
    ensures d.vegan <==> Mentions(context, "vegan")
    ensures d.vegetarian <==> Mentions(context, "vegetarian") || Mentions(context, "vegan")
    ensures d.glutenFree <==>
      Mentions(context, "no gluten") || Mentions(context, "gluten-free") || Mentions(context, "glutenfree")
  {
    ContainsIsOccurrence(context, "vegan");
    ContainsIsOccurrence(context, "vegetarian");
    ContainsIsOccurrence(context, "no gluten");
    ContainsIsOccurrence(context, "gluten-free");
    ContainsIsOccurrence(context, "glutenfree");
    DietaryInfo(
      Contains(context, "vegetarian") || Contains(context, "vegan"),
      Contains(context, "vegan"),
      Contains(context, "no gluten") || Contains(context, "gluten-free") || Contains(context, "glutenfree"))
  }

  /** The flags of an item: the lower-cased markup of the element followed by that of its
      parent, searched as one text. */
  function ContextDietary(elHtml: string, parentHtml: string): (d: DietaryInfo)
    ensures d == MentionedDietary(ToLower(elHtml + parentHtml))
    ensures d.vegan ==> d.vegetarian
  {
    ToLowerOfConcat(elHtml, parentHtml);
    MentionedDietary(ToLower(elHtml) + ToLower(parentHtml))
  }

  /** A part found in a text is still found once more text follows. */
  lemma ContainsInPrefix(a: string, b: string, part: string)
    requires Contains(a, part)
    ensures Contains(a + b, part)
  {
    ContainsIsOccurrence(a, part);
    var k :| 0 <= k <= |a| - |part| && OccursAt(a, part, k);
    assert (a + b)[k..k + |part|] == a[k..k + |part|];
    assert OccursAt(a + b, part, k);
    ContainsIsOccurrence(a + b, part);
  }

  /** The parent's markup only adds flags: whatever the element's own markup mentions is
      flagged. */
  lemma ParentNeverClearsFlags(elHtml: string, parentHtml: string)
    ensures var own := MentionedDietary(ToLower(elHtml));
      var d := ContextDietary(elHtml, parentHtml);
      && (own.vegetarian ==> d.vegetarian)
      && (own.vegan ==> d.vegan)
      && (own.glutenFree ==> d.glutenFree)
  {
    var a, b := ToLower(elHtml), ToLower(parentHtml);
    if Contains(a, "vegetarian") { ContainsInPrefix(a, b, "vegetarian"); }
    if Contains(a, "vegan") { ContainsInPrefix(a, b, "vegan"); }
    if Contains(a, "no gluten") { ContainsInPrefix(a, b, "no gluten"); }
    if Contains(a, "gluten-free") { ContainsInPrefix(a, b, "gluten-free"); }
    if Contains(a, "glutenfree") { ContainsInPrefix(a, b, "glutenfree"); }
  }

  /** Upper or lower case in the markup makes no difference. */
  lemma ContextDietaryIgnoresCase(elHtml: string, parentHtml: string)
    ensures ContextDietary(ToLower(elHtml), ToLower(parentHtml)) == ContextDietary(elHtml, parentHtml)
  {
    ToLowerIsIdempotent(elHtml);
    ToLowerIsIdempotent(parentHtml);
  }

  // ---------------------------------------------------------------------------
  // The text fallback
  // ---------------------------------------------------------------------------

  /** `.map(l => l.trim()).filter(Boolean)`. */
  function TrimmedLines(parts: seq<string>): (r: seq<string>)
    ensures |r| <= |parts|
    ensures forall k :: 0 <= k < |r| ==> r[k] != [] && IsTrimmed(r[k])
  {
    if parts == [] then []
    else
      var line := Trim(parts[0]);
      var rest := TrimmedLines(parts[1..]);
      TrimIsInfix(parts[0]);
      if line != [] then [line] + rest else rest
  }

  /** The fallback's lines are exactly the non-empty trimmed parts. */
  lemma {:induction false} TrimmedLinesAreTheTrimmedParts(parts: seq<string>)
    ensures forall x :: x in TrimmedLines(parts) <==> x != [] && exists p :: p in parts && Trim(p) == x
  {
    if parts != [] {
      TrimmedLinesAreTheTrimmedParts(parts[1..]);
      forall x | x != [] && exists p :: p in parts && Trim(p) == x
        ensures x in TrimmedLines(parts)
      {
        var p :| p in parts && Trim(p) == x;
        if p != parts[0] {
          assert p in parts[1..];
        }
      }
    }
  }

  /** The lines of the page's text, trimmed, the empty ones dropped. */
  function FallbackLines(bodyText: string): seq<string> {
    TrimmedLines(Split(bodyText, '\n'))
  }

  /** The heuristic for a line that looks like a food name: 4 to 79 characters, an upper-case
      ASCII letter first, no copyright sign or link, and no "Menu", "Location" or "Filter"
      at the start. */
  predicate LooksLikeItemName(line: string) {
    && 3 < |line| < 80
    && 'A' <= line[0] <= 'Z'
    && !Contains(line, "\U{00A9}")
    && !Contains(line, "http")
    && !StartsWith(line, "Menu")
    && !StartsWith(line, "Location")
    && !StartsWith(line, "Filter")
  }

  /** The calories the line after line i announces (`/(\d+)\s*Cal/i`), 0 when it has none
      or there is no next line. */
  function CaloriesAfter(lines: seq<string>, i: nat): (calories: nat)
    requires i < |lines|
    ensures i + 1 == |lines| ==> calories == 0
    ensures calories > 0 ==> i + 1 < |lines| && MatchNumberBeforeWord(lines[i + 1], "Cal", true) == Some(calories)
    ensures i + 1 < |lines| && MatchNumberBeforeWord(lines[i + 1], "Cal", true).Some? ==>
      calories == MatchNumberBeforeWord(lines[i + 1], "Cal", true).value
    ensures i + 1 < |lines| && MatchNumberBeforeWord(lines[i + 1], "Cal", true).None? ==> calories == 0
  {
    if i + 1 < |lines| then
      match MatchNumberBeforeWord(lines[i + 1], "Cal", true)
      case Some(v) => v
      case None => 0
    else 0
  }

  /** Line i becomes an item: it looks like a name and the next line announces calories. */
  predicate Accepts(lines: seq<string>, i: nat)
    requires i < |lines|
  {
    LooksLikeItemName(lines[i]) && CaloriesAfter(lines, i) > 0
  }

  /** The item line i yields under the number id. */
  function FallbackItemAt(lines: seq<string>, i: nat, id: int): ParsedItem
    requires i < |lines|
  {
    ParsedItem(id, lines[i], DefaultStation, CaloriesAfter(lines, i), NoDietary)
  }

  /** The items the fallback collects from lines 0 .. k-1, numbered from 1. */
  function FallbackItemsUpTo(lines: seq<string>, k: nat): seq<ParsedItem>
    requires k <= |lines|
  {
    if k == 0 then []
    else
      var prev := FallbackItemsUpTo(lines, k - 1);
      if Accepts(lines, k - 1) then prev + [FallbackItemAt(lines, k - 1, |prev| + 1)] else prev
  }

  /** The items the fallback collects from the page's text. */
  function FallbackItems(bodyText: string): seq<ParsedItem> {
    var lines := FallbackLines(bodyText);
    FallbackItemsUpTo(lines, |lines|)
  }

  /** The accepted lines among 0 .. k-1, in increasing order. */
  function AcceptedLines(lines: seq<string>, k: nat): seq<nat>
    requires k <= |lines|
  {
    if k == 0 then []
    else AcceptedLines(lines, k - 1) + (if Accepts(lines, k - 1) then [k - 1] else [])
  }

  /** The fallback's items are those of the accepted lines, numbered 1 .. N in line order. */
  lemma {:induction false} FallbackItemsAreAcceptedLines(lines: seq<string>, k: nat)
    requires k <= |lines|
    ensures var items, A := FallbackItemsUpTo(lines, k), AcceptedLines(lines, k);
      && |items| == |A|
      && (forall n :: 0 <= n < |A| ==> A[n] < |lines| && items[n] == FallbackItemAt(lines, A[n], n + 1))
  {
    if k > 0 {
      FallbackItemsAreAcceptedLines(lines, k - 1);
      var prev, A := FallbackItemsUpTo(lines, k - 1), AcceptedLines(lines, k - 1);
      var last := if Accepts(lines, k - 1) then [FallbackItemAt(lines, k - 1, |prev| + 1)] else [];
      var lastLine := if Accepts(lines, k - 1) then [k - 1] else [];
      var items, A' := FallbackItemsUpTo(lines, k), AcceptedLines(lines, k);
      assert items == prev + last;
      assert A' == A + lastLine;
      assert |items| == |A'|;
      forall n | 0 <= n < |A'|
        ensures A'[n] < |lines| && items[n] == FallbackItemAt(lines, A'[n], n + 1)
      {
        if n < |A| {
          assert items[n] == prev[n] && A'[n] == A[n];
        }
      }
    }
  }

  /** The accepted lines rise, each is accepted, and none is the last line. */
  lemma {:induction false} AcceptedLinesAreOrdered(lines: seq<string>, k: nat)
    requires k <= |lines|
    ensures forall n :: 0 <= n < |AcceptedLines(lines, k)| ==>
      var i := AcceptedLines(lines, k)[n]; i < k && i + 1 < |lines| && Accepts(lines, i)
    ensures forall m, n :: 0 <= m < n < |AcceptedLines(lines, k)| ==>
      AcceptedLines(lines, k)[m] < AcceptedLines(lines, k)[n]
  {
    if k > 0 {
      AcceptedLinesAreOrdered(lines, k - 1);
      var A := AcceptedLines(lines, k - 1);
      if Accepts(lines, k - 1) {
        assert AcceptedLines(lines, k) == A + [k - 1];
        AcceptedLineIsNotLast(lines, k - 1);
      } else {
        assert AcceptedLines(lines, k) == A;
      }
    }
  }

  /** The last line is never accepted: no line follows it to announce calories. */
  lemma AcceptedLineIsNotLast(lines: seq<string>, i: nat)
    requires i < |lines| && Accepts(lines, i)
    ensures i + 1 < |lines|
  {
  }

  /** Every accepted line is listed. */
  lemma {:induction false} AcceptedLinesAreComplete(lines: seq<string>, k: nat, i: nat)
    requires i < k <= |lines| && Accepts(lines, i)
    ensures i in AcceptedLines(lines, k)
  {
    if i < k - 1 {
      AcceptedLinesAreComplete(lines, k - 1, i);
    }
  }

  /** Every fallback item is numbered by its position, sits under "General", carries no
      flags, has positive calories and a trimmed name of 4 to 79 characters starting with
      an upper-case letter. */
  lemma FallbackItemsAreWellFormed(bodyText: string)
    ensures var items := FallbackItems(bodyText);
      forall n :: 0 <= n < |items| ==>
        && items[n].id == n + 1
        && items[n].station == DefaultStation
        && items[n].dietary == NoDietary
        && items[n].calories > 0
        && 3 < |items[n].name| < 80 && 'A' <= items[n].name[0] <= 'Z'
        && IsTrimmed(items[n].name)
  {
    var lines := FallbackLines(bodyText);
    FallbackItemsAreAcceptedLines(lines, |lines|);
    AcceptedLinesAreOrdered(lines, |lines|);
  }

  /** `parseMenuFromHtml`. The structured pass over the DOM is not part of this model:
      `domItems` are the items it built. The text fallback runs only when it built none, and
      then the station is still "General": the pass changes the station only for an element
      it turns into an item. */
  method ParseMenuFromHtml(domItems: seq<ParsedItem>, bodyText: string) returns (items: seq<ParsedItem>)
    ensures domItems != [] ==> items == domItems
    ensures domItems == [] ==> items == FallbackItems(bodyText)
  {
    items := domItems;
    var itemId := |domItems| + 1;
    var currentStation := DefaultStation;
    if |items| == 0 {
      var lines := FallbackLines(bodyText);
      for i := 0 to |lines|
        invariant items == FallbackItemsUpTo(lines, i)
        invariant itemId == |items| + 1
      {
        var line := lines[i];
        if LooksLikeItemName(line) {
          var calories := 0;
          if i + 1 < |lines| {
            var calMatch := MatchNumberBeforeWord(lines[i + 1], "Cal", true);
            if calMatch.Some? {
              calories := calMatch.value;
            }
          }
          if calories > 0 {
            items := items + [ParsedItem(itemId, line, currentStation, calories, NoDietary)];
            itemId := itemId + 1;
          }
        }
      }
    }
  }

  // ---------------------------------------------------------------------------
  // Mapping and the query
  // ---------------------------------------------------------------------------

  /** `mapToMenuItem`: fields copied, calories the only nutrition known, confidence 0.7. */
  function MapToMenuItem(item: ParsedItem): (r: MenuItem)
    ensures r.confidence == 0.7
    ensures r.nutrition == NutritionInfo(item.calories, 0, 0, 0, None, None, None, None)
    ensures (r.dietary.vegan ==> r.dietary.vegetarian) <==> (item.dietary.vegan ==> item.dietary.vegetarian)
    ensures ParsedOf(r) == item
  {
    MenuItem(item.id, item.name, item.station, item.dietary,
      NutritionInfo(item.calories, 0, 0, 0, None, None, None, None), 0.7)
  }

  /** The parsed item a mapped item came from. */
  function ParsedOf(m: MenuItem): ParsedItem {
    ParsedItem(m.id, m.name, m.station, if m.nutrition.calories < 0 then 0 else m.nutrition.calories, m.dietary)
  }

  /** The query: the page's items mapped to `MenuItem`s, and the meal period the lower-cased
      page mentions first in the order breakfast, lunch, else dinner. */
  method FetchMenu(domItems: seq<ParsedItem>, bodyText: string, html: string, scrapedAt: string)
    returns (menu: LiveMenu)
    ensures var parsed := if domItems != [] then domItems else FallbackItems(bodyText);
      && |menu.items| == |parsed|
      && (forall k :: 0 <= k < |parsed| ==> menu.items[k] == MapToMenuItem(parsed[k]))
    ensures Contains(ToLower(html), "breakfast") ==> menu.mealPeriod == "breakfast"
    ensures !Contains(ToLower(html), "breakfast") && Contains(ToLower(html), "lunch") ==> menu.mealPeriod == "lunch"
    ensures !Contains(ToLower(html), "breakfast") && !Contains(ToLower(html), "lunch") ==> menu.mealPeriod == "dinner"
    ensures menu.scrapedAt == scrapedAt
  {
    var parsed := ParseMenuFromHtml(domItems, bodyText);
    var mealPeriod := "dinner";
    var lowerHtml := ToLower(html);
    if Contains(lowerHtml, "breakfast") {
      mealPeriod := "breakfast";
    } else if Contains(lowerHtml, "lunch") {
      mealPeriod := "lunch";
    }
    menu := LiveMenu(mealPeriod, seq(|parsed|, k requires 0 <= k < |parsed| => MapToMenuItem(parsed[k])), scrapedAt);
  }
}
