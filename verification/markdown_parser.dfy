/** The markdown menu parser and the meal-period detection of the scrape edge
    function (supabase/functions/scrape-menu/index.ts).

    `ParseMenuFromMarkdown` is the imperative parser. It is proved equal to
    `MarkdownItems`, a left fold of `Step` over the content lines. The fold is then
    proved equal to a declarative description (`ItemLines`, `ItemAt`): one item per
    qualifying `### ` line, in line order. The lemmas in markdown_properties.dfy state
    the parser's promises in those terms. */
module MarkdownParser {
  import opened MenuTypes
  import opened Text

  /** The look-ahead loop runs while j < min(i + 20, line count). */
  const LookAhead: nat := 20

  /** The heading at which the page footer starts. */
  const FooterHeading := "## Menu Highlights"

  function Min(a: int, b: int): int {
    if a < b then a else b
  }

  // ---------------------------------------------------------------------------
  // One trimmed line
  // ---------------------------------------------------------------------------

  /** `## Station` (the second test is implied by the first, as in the source). */
  predicate IsStationHeading(line: string) {
    StartsWith(line, "## ") && !StartsWith(line, "### ")
  }

  /** `### Item`. */
  predicate IsItemHeading(line: string) {
    StartsWith(line, "### ")
  }

  /** A line at which the look-ahead stops. */
  predicate EndsWindow(line: string) {
    StartsWith(line, "## ") || StartsWith(line, "### ")
  }

  function StationName(line: string): string {
    Trim(ReplaceFirst(line, "## ", ""))
  }

  function ItemName(line: string): string {
    Trim(ReplaceFirst(line, "### ", ""))
  }

  /** `line.match(/(\d+)\s*Calories/i)`, with the captured number. */
  function CalorieMatch(line: string): Option<nat> {
    MatchNumberBeforeWord(line, "Calories", true)
  }

  /** A plain-text line that becomes the description: not an image, an action link, an
      "Also Available" marker, a calorie line (`/^\d+\s*Calories/`, case-sensitive),
      a bracketed link or a separator, and longer than five characters. */
  predicate IsDescriptionLine(line: string) {
    && !StartsWith(line, "!")
    && !StartsWith(line, "Add ")
    && !StartsWith(line, "Mark ")
    && !StartsWith(line, "Also Available")
    && NumberBeforeWordAt(line, 0, "Calories", false).None?
    && |line| > 5
    && !StartsWith(line, "[")
    && !StartsWith(line, "---")
  }

  // ---------------------------------------------------------------------------
  // The look-ahead after a `### ` heading
  // ---------------------------------------------------------------------------

  /** What the look-ahead collects for one item. */
  datatype Details = Details(calories: nat, dietary: ScrapedDietary, description: Option<string>)

  /** The badges after one window line: a badge is set once a line names it, and never cleared;
      "Vegan" sets the vegetarian badge too. */
  function AbsorbBadges(d: ScrapedDietary, line: string): ScrapedDietary {
    ScrapedDietary(
      vegetarian := d.vegetarian || Contains(line, "Vegetarian") || Contains(line, "Vegan"),
      vegan := d.vegan || Contains(line, "Vegan"),
      glutenFree := d.glutenFree || Contains(line, "No Gluten") || Contains(line, "GlutenFree"),
      noDairy := d.noDairy || Contains(line, "No Dairy") || Contains(line, "NoDairy"),
      eatWell := d.eatWell || Contains(line, "Eat Well") || Contains(line, "EatWell"),
      coolFood := d.coolFood || Contains(line, "CoolFood") || Contains(line, "Low Carbon"))
  }

  /** The calorie count after one window line: a match replaces it. */
  function AbsorbCalories(calories: nat, line: string): nat {
    match CalorieMatch(line)
    case Some(v) => v
    case None => calories
  }

  /** The description after one window line: a plain-text line replaces it. */
  function AbsorbDescription(description: Option<string>, line: string): Option<string> {
    if IsDescriptionLine(line) then Some(line) else description
  }

  /** The calorie count after window lines lo .. hi-1, taken in order from 0. */
  function ScanCalories(c: seq<string>, lo: nat, hi: nat): nat
    requires lo <= hi <= |c|
    decreases hi
  {
    if hi == lo then 0 else AbsorbCalories(ScanCalories(c, lo, hi - 1), Trim(c[hi - 1]))
  }

  /** The badges after window lines lo .. hi-1, taken in order from none. */
  function ScanBadges(c: seq<string>, lo: nat, hi: nat): ScrapedDietary
    requires lo <= hi <= |c|
    decreases hi
  {
    if hi == lo then NoBadges else AbsorbBadges(ScanBadges(c, lo, hi - 1), Trim(c[hi - 1]))
  }

  /** The description after window lines lo .. hi-1, taken in order from none. */
  function ScanDescription(c: seq<string>, lo: nat, hi: nat): Option<string>
    requires lo <= hi <= |c|
    decreases hi
  {
    if hi == lo then None else AbsorbDescription(ScanDescription(c, lo, hi - 1), Trim(c[hi - 1]))
  }

  /** Where the look-ahead after line i stops, searched from j. */
  function WindowEndFrom(c: seq<string>, i: nat, j: nat): (e: nat)
    requires i < |c| && i + 1 <= j <= Min(i + LookAhead, |c|)
    decreases Min(i + LookAhead, |c|) - j
    ensures j <= e <= Min(i + LookAhead, |c|)
  {
    if j == Min(i + LookAhead, |c|) || EndsWindow(Trim(c[j])) then j else WindowEndFrom(c, i, j + 1)
  }

  /** Where the look-ahead after line i stops: at the first `## `/`### ` line among
      i+1 .. min(i+19, |c|-1), or after the last of them. */
  function WindowEnd(c: seq<string>, i: nat): (e: nat)
    requires i < |c|
    ensures i + 1 <= e <= Min(i + LookAhead, |c|)
  {
    WindowEndFrom(c, i, i + 1)
  }

  lemma {:induction false} WindowEndFromIsFirstHeading(c: seq<string>, i: nat, j: nat)
    requires i < |c| && i + 1 <= j <= Min(i + LookAhead, |c|)
    decreases Min(i + LookAhead, |c|) - j
    ensures var e := WindowEndFrom(c, i, j);
      && (forall k :: j <= k < e ==> !EndsWindow(Trim(c[k])))
      && (e == Min(i + LookAhead, |c|) || EndsWindow(Trim(c[e])))
  {
    if j < Min(i + LookAhead, |c|) && !EndsWindow(Trim(c[j])) {
      WindowEndFromIsFirstHeading(c, i, j + 1);
    }
  }

  /** The window is cut by the first heading after line i, and by nothing else but the
      limit of 19 lines and the end of the content. */
  lemma WindowEndIsFirstHeading(c: seq<string>, i: nat)
    requires i < |c|
    ensures forall k :: i + 1 <= k < WindowEnd(c, i) ==> !EndsWindow(Trim(c[k]))
    ensures WindowEnd(c, i) == Min(i + LookAhead, |c|) || EndsWindow(Trim(c[WindowEnd(c, i)]))
  {
    WindowEndFromIsFirstHeading(c, i, i + 1);
  }

  /** The details of the item opened at line i. */
  function ItemDetails(c: seq<string>, i: nat): Details
    requires i < |c|
  {
    var e := WindowEnd(c, i);
    Details(ScanCalories(c, i + 1, e), ScanBadges(c, i + 1, e), ScanDescription(c, i + 1, e))
  }

  // ---------------------------------------------------------------------------
  // The outer loop as a fold
  // ---------------------------------------------------------------------------

  /** What the outer loop body reads from content line i: whether the trimmed line is a
      `## ` or a `### ` heading, the names those headings carry, and the details of the
      look-ahead window after it. */
  datatype LineView = LineView(
    isStation: bool, stationName: string,
    isItem: bool, itemName: string,
    details: Details)

  function ViewLine(c: seq<string>, i: nat): LineView
    requires i < |c|
  {
    var line := Trim(c[i]);
    LineView(IsStationHeading(line), StationName(line), IsItemHeading(line), ItemName(line), ItemDetails(c, i))
  }

  /** The view of every content line. */
  function ViewLines(c: seq<string>): (vs: seq<LineView>)
    ensures |vs| == |c|
  {
    seq(|c|, i requires 0 <= i < |c| => ViewLine(c, i))
  }

  /** The variables of the outer loop: `currentStation`, `itemId` and `items`. */
  datatype ParseState = ParseState(station: string, nextId: int, items: seq<ScrapedMenuItem>)

  const Start := ParseState("", 1, [])

  /** One pass of the outer loop body over a line: a `## ` heading sets the station; a `### `
      heading under a station adds an item, unless its name is empty or "Also Available". */
  function Step(v: LineView, st: ParseState): ParseState {
    if v.isStation then
      st.(station := v.stationName)
    else if v.isItem && st.station != "" then
      if v.itemName == "Also Available" || v.itemName == "" then st
      else ParseState(st.station, st.nextId + 1,
                      st.items + [ScrapedMenuItem(st.nextId, v.itemName, st.station,
                                                  v.details.calories, v.details.dietary, v.details.description)])
    else st
  }

  /** The loop variables after the lines 0 .. k-1. */
  function ParseUpTo(vs: seq<LineView>, k: nat): ParseState
    requires k <= |vs|
  {
    if k == 0 then Start else Step(vs[k - 1], ParseUpTo(vs, k - 1))
  }

  /** `lines.findIndex(l => l.trim() === '## Menu Highlights')`, searched from `from`. */
  function FooterIndexFrom(lines: seq<string>, from: nat): (r: int)
    decreases |lines| - from
    ensures r == -1 || (from <= r < |lines| && Trim(lines[r]) == FooterHeading)
  {
    if from >= |lines| then -1
    else if Trim(lines[from]) == FooterHeading then from
    else FooterIndexFrom(lines, from + 1)
  }

  /** `findIndex` finds the first footer heading, and -1 means there is none. */
  lemma {:induction false} FooterIndexFromIsFirst(lines: seq<string>, from: nat)
    decreases |lines| - from
    ensures var r := FooterIndexFrom(lines, from);
      && (r >= 0 ==> forall k :: from <= k < r ==> Trim(lines[k]) != FooterHeading)
      && (r == -1 ==> forall k :: from <= k < |lines| ==> Trim(lines[k]) != FooterHeading)
  {
    if from < |lines| && Trim(lines[from]) != FooterHeading {
      FooterIndexFromIsFirst(lines, from + 1);
    }
  }

  function FooterIndex(lines: seq<string>): int {
    FooterIndexFrom(lines, 0)
  }

  /** The lines before the footer; a footer heading on the very first line cuts nothing. */
  function ContentLines(lines: seq<string>): seq<string> {
    var f := FooterIndex(lines);
    if f > 0 then lines[..f] else lines
  }

  function ParseLines(lines: seq<string>): seq<ScrapedMenuItem> {
    var c := ContentLines(lines);
    ParseUpTo(ViewLines(c), |c|).items
  }

  /** What `parseMenuFromMarkdown` returns. */
  function MarkdownItems(markdown: string): seq<ScrapedMenuItem> {
    ParseLines(Split(markdown, '\n'))
  }

  // ---------------------------------------------------------------------------
  // The parser
  // ---------------------------------------------------------------------------

  /** The calorie test of the look-ahead loop body: a match of `(\d+)\s*Calories` (any case)
      replaces the count. */
  method ReadCalories(nextLine: string, calories0: nat) returns (calories: nat)
    ensures calories == AbsorbCalories(calories0, nextLine)
  {
    calories := calories0;
    var calMatch := MatchNumberBeforeWord(nextLine, "Calories", true);
    if calMatch.Some? {
      calories := calMatch.value;
    }
  }

  /** The six badge tests of the look-ahead loop body, each setting flags of `dietary`. */
  method ReadBadges(nextLine: string, dietary0: ScrapedDietary) returns (dietary: ScrapedDietary)
    ensures dietary == AbsorbBadges(dietary0, nextLine)
  {
    var vegetarian, vegan, glutenFree, noDairy, eatWell, coolFood :=
      dietary0.vegetarian, dietary0.vegan, dietary0.glutenFree, dietary0.noDairy, dietary0.eatWell, dietary0.coolFood;
    if Contains(nextLine, "Vegetarian") && !Contains(nextLine, "Vegan") {
      vegetarian := true;
    }
    if Contains(nextLine, "Vegan") {
      vegan := true;
      vegetarian := true;
    }
    if Contains(nextLine, "No Gluten") || Contains(nextLine, "GlutenFree") {
      glutenFree := true;
    }
    if Contains(nextLine, "No Dairy") || Contains(nextLine, "NoDairy") {
      noDairy := true;
    }
    if Contains(nextLine, "Eat Well") || Contains(nextLine, "EatWell") {
      eatWell := true;
    }
    if Contains(nextLine, "CoolFood") || Contains(nextLine, "Low Carbon") {
      coolFood := true;
    }
    dietary := ScrapedDietary(vegetarian, vegan, glutenFree, noDairy, eatWell, coolFood);
  }

  /** The description test of the look-ahead loop body. */
  method ReadDescription(nextLine: string, description0: Option<string>) returns (description: Option<string>)
    ensures description == AbsorbDescription(description0, nextLine)
  {
    description := description0;
    if IsDescriptionLine(nextLine) {
      description := Some(nextLine);
    }
  }

  /** The look-ahead loop that follows a `### ` heading at line i. */
  method ScanItemWindow(contentLines: seq<string>, i: nat) returns (calories: nat, dietary: ScrapedDietary, description: Option<string>)
    requires i < |contentLines|
    ensures Details(calories, dietary, description) == ItemDetails(contentLines, i)
  {
    calories, dietary, description := 0, NoBadges, None;

    var end := Min(i + LookAhead, |contentLines|);
    var j := i + 1;
    while j < end
      invariant i + 1 <= j <= WindowEnd(contentLines, i) <= end
      invariant WindowEndFrom(contentLines, i, j) == WindowEnd(contentLines, i)
      invariant calories == ScanCalories(contentLines, i + 1, j)
      invariant dietary == ScanBadges(contentLines, i + 1, j)
      invariant description == ScanDescription(contentLines, i + 1, j)
    {
      var nextLine := Trim(contentLines[j]);

      if EndsWindow(nextLine) {
        break;
      }

      calories := ReadCalories(nextLine, calories);
      dietary := ReadBadges(nextLine, dietary);
      description := ReadDescription(nextLine, description);
      j := j + 1;
    }
  }

  /** One pass of the outer loop body over content line i; `return` stands for `continue`. */
  method ParseLine(contentLines: seq<string>, ghost views: seq<LineView>, i: nat,
                   station0: string, itemId0: int, items0: seq<ScrapedMenuItem>)
    returns (currentStation: string, itemId: int, items: seq<ScrapedMenuItem>)
    requires views == ViewLines(contentLines) && i < |contentLines|
    ensures ParseState(currentStation, itemId, items) == Step(views[i], ParseState(station0, itemId0, items0))
  {
    currentStation, itemId, items := station0, itemId0, items0;
    var line := Trim(contentLines[i]);

    if IsStationHeading(line) {
      currentStation := StationName(line);
      return;
    }

    if IsItemHeading(line) && currentStation != "" {
      var itemName := ItemName(line);

      var calories, dietary, description := ScanItemWindow(contentLines, i);

      if itemName == "Also Available" || itemName == "" {
        return;
      }

      items := items + [ScrapedMenuItem(itemId, itemName, currentStation, calories, dietary, description)];
      itemId := itemId + 1;
    }
  }

  /** `parseMenuFromMarkdown`. */
  method ParseMenuFromMarkdown(markdown: string) returns (items: seq<ScrapedMenuItem>)
    ensures items == MarkdownItems(markdown)
  {
    items := [];
    var lines := Split(markdown, '\n');
    var currentStation := "";
    var itemId := 1;

    var contentLines := ContentLines(lines);
    ghost var views := ViewLines(contentLines);

    for i := 0 to |contentLines|
      invariant ParseState(currentStation, itemId, items) == ParseUpTo(views, i)
    {
      currentStation, itemId, items := ParseLine(contentLines, views, i, currentStation, itemId, items);
    }
  }

  /** The meal-period detection of the edge function: a "Today" marker together with a
      meal name picks that meal, Breakfast first, then Lunch; otherwise dinner. */
  method DetectMealPeriod(markdown: string) returns (detectedMeal: MealType)
    ensures !Contains(markdown, "Today") ==> detectedMeal == Dinner
    ensures Contains(markdown, "Today") && Contains(markdown, "Breakfast") ==> detectedMeal == Breakfast
    ensures (Contains(markdown, "Today") && !Contains(markdown, "Breakfast") && Contains(markdown, "Lunch"))
      ==> detectedMeal == Lunch
    ensures (Contains(markdown, "Today") && !Contains(markdown, "Breakfast") && !Contains(markdown, "Lunch"))
      ==> detectedMeal == Dinner
  {
    detectedMeal := Dinner;
    if Contains(markdown, "Today") && Contains(markdown, "Breakfast") {
      detectedMeal := Breakfast;
    } else if Contains(markdown, "Today") && Contains(markdown, "Lunch") {
      detectedMeal := Lunch;
    } else if Contains(markdown, "Today") && Contains(markdown, "Dinner") {
      detectedMeal := Dinner;
    }
  }
}
