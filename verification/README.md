# Dining-hall menu extraction and nutrition views, in Dafny

This project models the menu-extraction core of the dining-hall menu app, together with the views that add up what a student picks.

- **The scrape edge function** (`supabase/functions/scrape-menu/index.ts`) turns the markdown of the dining-hall page into menu items.
  - A `## ` heading sets the station. A `### ` heading under a station opens an item.
  - The lines after that heading give the item's calories, badges and description.
  - The lines after that heading are a look-ahead window: up to 19 lines, cut at the next heading.
  - Everything from the `## Menu Highlights` footer on is ignored.
  - A chain of substring tests picks the meal period.
- **The browser fetcher** (`src/hooks/useMenuFetcher.ts`) reads dietary flags from the markup around an item.
  - It falls back to a line heuristic when the structured pass finds nothing.
  - It maps items with confidence 0.7.
- **The scraper client** (`src/cloud/useMenuScraper.ts`) turns the edge function's reply into the live menu or an error. It maps items with confidence 0.85.
- **The nutrition summary bar** (`src/components/nutrition/NutritionSummaryBar.tsx`) shows the totals of the selected items and the capped progress toward 2000 kcal.
- **The summary page** (`src/pages/Summary.tsx`) shows:
  - per-meal and whole-day totals;
  - the macronutrient energy pie (4/4/9 kcal per gram);
  - the calories-by-meal bars;
  - the rounded goal progress.
- **The daily view** (`src/pages/DailyView.tsx`) lists the day's items and the selected items. It also holds the toggle that selects an item and the meals the active tab shows.

The files are:
- `types.dfy`: the records of `src/types/index.ts` and the scraped item.
- `text.dfy`: the JavaScript string built-ins and the three regular expressions, written out over `seq<char>`.
- `markdown_parser.dfy`: the imperative parser and the fold that specifies it.
- `markdown_properties.dfy` and `markdown_details.dfy`: what the parser promises.
- `html_fetcher.dfy`, `menu_scraper.dfy`, `nutrition.dfy`, `summary.dfy` and `daily_view.dfy`.

Three details of the parser, as the code has them:
- The look-ahead covers the lines `i+1 .. min(i+20, n)-1`, at most 19 lines, although the code's comment says ~15.
- The last line matching `(\d+)\s*Calories` wins, because the loop overwrites `calories` on every match.
- A footer heading on the very first line (`findIndex` giving 0) cuts nothing.

## Model

| member | source | states |
|---|---|---|
| MarkdownParser.ContentLines | supabase/functions/scrape-menu/index.ts:29-31 | the lines before the first footer heading when it lies past the first line, else all lines; what that cut means is stated by `FooterCut` and `FooterHidesTheRest` |
| MarkdownParser.ParseLines | supabase/functions/scrape-menu/index.ts:26-119 | the line-by-line fold over the content lines, from no station and id 1; its meaning is stated by the MarkdownProperties lemmas |
| MarkdownParser.MarkdownItems | supabase/functions/scrape-menu/index.ts:22-24 | the fold applied to the markdown split at line breaks: the specification of `ParseMenuFromMarkdown` |
| MarkdownParser.ParseMenuFromMarkdown | supabase/functions/scrape-menu/index.ts:22-122 | the parser returns exactly the fold `MarkdownItems` of the content lines, whose meaning the lemmas below give |
| MarkdownParser.ParseLine | supabase/functions/scrape-menu/index.ts:33-118 | one pass of the outer loop body: a `## ` heading sets the station; a `### ` heading under a station adds an item unless its name is empty or "Also Available"; anything else changes nothing |
| MarkdownParser.ScanItemWindow | supabase/functions/scrape-menu/index.ts:46-105 | the look-ahead returns the calories, badges and description collected over the window lines that follow the heading |
| MarkdownParser.ReadCalories | supabase/functions/scrape-menu/index.ts:66-69 | a line matching `(\d+)\s*Calories` (any case) replaces the count by its number; otherwise the count stays |
| MarkdownParser.ReadBadges | supabase/functions/scrape-menu/index.ts:71-90 | the six badge tests set exactly the badges whose markers the line contains, and never clear one |
| MarkdownParser.ReadDescription | supabase/functions/scrape-menu/index.ts:92-104 | a plain-text line replaces the description; any other line keeps it |
| MarkdownParser.WindowEnd | supabase/functions/scrape-menu/index.ts:59 | the window ends after the heading and no later than 20 lines on or the end of the content |
| MarkdownParser.WindowEndIsFirstHeading | supabase/functions/scrape-menu/index.ts:59-63 | the window is cut at the first `## `/`### ` line after the heading, and otherwise only by the 19-line limit or the end of the content |
| MarkdownParser.FooterIndexFromIsFirst | supabase/functions/scrape-menu/index.ts:30 | `findIndex` finds the first line whose trim is `## Menu Highlights`, and -1 means there is none |
| MarkdownParser.DetectMealPeriod | supabase/functions/scrape-menu/index.ts:171-174 | a "Today" marker with "Breakfast" gives breakfast, otherwise with "Lunch" lunch, and everything else dinner |
| MarkdownProperties.ParseUpToStation | supabase/functions/scrape-menu/index.ts:26-40 | after any prefix of the lines, the parser's station is the name of the nearest `## ` heading above, or "" |
| MarkdownProperties.ParseUpToIsExpected | supabase/functions/scrape-menu/index.ts:33-119 | after any prefix, the parser holds the items of the qualifying lines and the next id is one more than their count |
| MarkdownProperties.ExpectedItemsAreItemLines | supabase/functions/scrape-menu/index.ts:107-117 | the expected items are those of the qualifying lines, item n carrying id n+1 |
| MarkdownProperties.ParseUpToIsFilter | supabase/functions/scrape-menu/index.ts:33-119 | after any prefix, item n is the one built from the n-th qualifying `### ` line under id n+1 |
| MarkdownProperties.ItemLinesAreOrdered | supabase/functions/scrape-menu/index.ts:33-43 | the item lines rise strictly and each one opens an item: a `### ` heading under a station, named neither "" nor "Also Available" |
| MarkdownProperties.ItemLinesAreComplete | supabase/functions/scrape-menu/index.ts:42-117 | every line that opens an item is listed: no qualifying heading is lost |
| MarkdownProperties.ItemCountBound | supabase/functions/scrape-menu/index.ts:43-110 | there are never more items than `### ` lines |
| MarkdownProperties.NoStationWithoutHeading | supabase/functions/scrape-menu/index.ts:26-43 | the station is empty exactly when no `## ` heading precedes, so no item appears before the first station |
| MarkdownProperties.StationIsNearestHeading | supabase/functions/scrape-menu/index.ts:36-40 | a non-empty station is the name of the nearest `## ` heading above, with no station heading in between |
| MarkdownProperties.TrimEmptyIsAllSpace | supabase/functions/scrape-menu/index.ts:34 | a line that trims to nothing is all white space |
| MarkdownProperties.StationNameNonEmpty | supabase/functions/scrape-menu/index.ts:37-38 | a trimmed `## ` line always yields a non-empty station name |
| MarkdownProperties.ViewedStationsAreNamed | supabase/functions/scrape-menu/index.ts:37-38 | every station heading of the content names a station |
| MarkdownProperties.MarkdownItemsAreTheItemLines | supabase/functions/scrape-menu/index.ts:22-122 | the parser's promise: ids run 1..N in line order; each item comes from its own `### ` line, carries the nearest station (never empty) and is never named "Also Available"; there are at most as many items as `### ` lines |
| MarkdownDetails.LineBadgesAreMarkers | supabase/functions/scrape-menu/index.ts:72-90 | a line sets a badge exactly when it contains one of that badge's markers; "Vegan" sets vegetarian too |
| MarkdownDetails.AllBadgesIsSomeEntry | supabase/functions/scrape-menu/index.ts:48-55 | the union of badge sets holds a badge exactly when some entry holds it |
| MarkdownDetails.ScanBadgesAreAllBadges | supabase/functions/scrape-menu/index.ts:71-90 | the window's badges are the union of the badges each window line names |
| MarkdownDetails.ScanBadgesAreNamed | supabase/functions/scrape-menu/index.ts:71-90 | each badge of an item is set exactly when some window line names it |
| MarkdownDetails.VeganIsVegetarian | supabase/functions/scrape-menu/index.ts:75-78 | a vegan item is always vegetarian |
| MarkdownDetails.BadgesAreNeverCleared | supabase/functions/scrape-menu/index.ts:48-90 | a badge set by the first window lines is still set after the later ones |
| MarkdownDetails.LastSomeIsLast | supabase/functions/scrape-menu/index.ts:66-104 | the last present entry is absent only when all are, and no present entry follows it |
| MarkdownDetails.ScanCaloriesIsLastMatch | supabase/functions/scrape-menu/index.ts:66-69 | the item's calories are the number of the last window line matching the calorie pattern, or 0 |
| MarkdownDetails.CaloriesAreTheLastMatch | supabase/functions/scrape-menu/index.ts:47-69 | with no matching window line the calories are 0; otherwise they are the number of a matching line after which no line matches |
| MarkdownDetails.ScanDescriptionIsLastPlainLine | supabase/functions/scrape-menu/index.ts:92-104 | the description is the last plain-text window line |
| MarkdownDetails.DescriptionIsTheLastPlainLine | supabase/functions/scrape-menu/index.ts:56-104 | the description is absent exactly when no window line is plain text, and is otherwise a plain-text line with none after it |
| MarkdownDetails.ItemDetailsWindow | supabase/functions/scrape-menu/index.ts:59-105 | an item's details come only from the lines strictly after its heading, before the next heading and at most 19 lines on |
| MarkdownDetails.FooterCut | supabase/functions/scrape-menu/index.ts:30-31 | the page is cut at the first footer heading only when it is past the first line; with no footer, or the footer first, nothing is cut |
| MarkdownDetails.FooterHidesTheRest | supabase/functions/scrape-menu/index.ts:30-31 | two pages that agree up to a footer heading past the first line yield the same items, whatever follows it |
| Text.Trim | supabase/functions/scrape-menu/index.ts:34 | `trim`: white space dropped at the start, then at the end; what it keeps is stated by `TrimIsInfix` |
| Text.IndexOfFrom | supabase/functions/scrape-menu/index.ts:72 | `indexOf` from a position: -1, or a position at or after it where the part occurs |
| Text.Contains | supabase/functions/scrape-menu/index.ts:72-90 | `includes`: `indexOf` finds the part; `ContainsIsOccurrence` states it as an occurrence |
| Text.ReplaceFirst | supabase/functions/scrape-menu/index.ts:38 | `replace` with a string pattern: only the first occurrence is replaced; `ReplacePrefix` states the case the parser uses |
| Text.Split | supabase/functions/scrape-menu/index.ts:24 | `split` on one character always gives at least one part; its inverse is stated by `JoinSplit` and `SplitJoin` |
| Text.MatchNumberBeforeWord | supabase/functions/scrape-menu/index.ts:66-69 | `match` of `(\d+)\s*WORD` with `parseInt` of the capture: the expression tried at each position from the left, as `FirstSomeIsLeftmost` states |
| Text.TrimIsInfix | supabase/functions/scrape-menu/index.ts:34 | `trim` drops only white space, from both ends, and leaves a trimmed middle part |
| Text.IndexOfFromIsFirst | supabase/functions/scrape-menu/index.ts:72 | `indexOf` returns the first occurrence, and -1 only when there is none |
| Text.ContainsIsOccurrence | supabase/functions/scrape-menu/index.ts:72-90 | `includes` holds exactly when the part occurs somewhere |
| Text.ReplacePrefix | supabase/functions/scrape-menu/index.ts:38 | `replace` of a prefix string drops exactly that prefix |
| Text.SplitPartsHaveNoSeparator | supabase/functions/scrape-menu/index.ts:24 | no part of `split` holds the separator |
| Text.JoinSplit | supabase/functions/scrape-menu/index.ts:24 | joining the parts of `split` gives back the text |
| Text.SplitJoin | supabase/functions/scrape-menu/index.ts:24 | splitting joined parts that hold no separator gives back the parts |
| Text.ToLower | src/hooks/useMenuFetcher.ts:66-67 | `toLowerCase` (ASCII): the length is kept, no upper-case letter is left, every other character is unchanged and each upper-case letter becomes its lower-case partner |
| Text.ToLowerOfConcat | src/hooks/useMenuFetcher.ts:66-67 | lower-casing the element's and the parent's markup apart, then joining them, is lower-casing the joined markup |
| Text.ToLowerIsIdempotent | src/hooks/useMenuFetcher.ts:66-67 | lower-casing twice is lower-casing once |
| Text.DigitRunIsMaximal | supabase/functions/scrape-menu/index.ts:66 | the greedy `\d+` consumes a maximal run of digits |
| Text.SpaceRunIsMaximal | supabase/functions/scrape-menu/index.ts:66 | the greedy `\s*` consumes a maximal run of white space |
| Text.FirstSomeIsLeftmost | supabase/functions/scrape-menu/index.ts:66 | `match` reports the leftmost position where the expression matches, and nothing only when no position matches |
| HtmlFetcher.MentionedDietary | src/hooks/useMenuFetcher.ts:76-81 | vegan exactly when "vegan" occurs; vegetarian exactly when "vegetarian" or "vegan" occurs; gluten-free exactly when "no gluten", "gluten-free" or "glutenfree" occurs; so vegan implies vegetarian |
| HtmlFetcher.ContextDietary | src/hooks/useMenuFetcher.ts:66-81 | the flags are those the lower-cased element and parent markup mention as one text; vegan implies vegetarian |
| HtmlFetcher.ParentNeverClearsFlags | src/hooks/useMenuFetcher.ts:66-81 | the parent's markup only adds flags to those the element's own markup gives |
| HtmlFetcher.ContextDietaryIgnoresCase | src/hooks/useMenuFetcher.ts:66-68 | upper or lower case in the markup makes no difference to the flags |
| HtmlFetcher.TrimmedLines | src/hooks/useMenuFetcher.ts:89 | the fallback's lines are trimmed and non-empty, and no more than the parts |
| HtmlFetcher.TrimmedLinesAreTheTrimmedParts | src/hooks/useMenuFetcher.ts:89 | a text is a fallback line exactly when it is the non-empty trim of some part |
| HtmlFetcher.LooksLikeItemName | src/hooks/useMenuFetcher.ts:95-104 | the name heuristic: 4 to 79 characters, A-Z first, no copyright sign or "http", no "Menu", "Location" or "Filter" at the start |
| HtmlFetcher.CaloriesAfter | src/hooks/useMenuFetcher.ts:106-110 | the calories are the number of the next line's `(\d+)\s*Cal` (any case) match, and 0 when that line has no match or there is no next line |
| HtmlFetcher.FallbackItems | src/hooks/useMenuFetcher.ts:87-122 | the fallback's items from the page's text; what they are is stated by `FallbackItemsAreAcceptedLines` and `FallbackItemsAreWellFormed` |
| HtmlFetcher.FallbackItemsAreAcceptedLines | src/hooks/useMenuFetcher.ts:91-122 | the fallback's items are those of the accepted lines, item n carrying id n+1, the line's name and the next line's calories |
| HtmlFetcher.AcceptedLinesAreOrdered | src/hooks/useMenuFetcher.ts:95-112 | accepted lines rise strictly, pass the name heuristic with positive next-line calories, and are never the last line |
| HtmlFetcher.AcceptedLinesAreComplete | src/hooks/useMenuFetcher.ts:95-120 | every line that passes the heuristic with positive next-line calories is taken |
| HtmlFetcher.AcceptedLineIsNotLast | src/hooks/useMenuFetcher.ts:106-112 | an accepted line always has a following line |
| HtmlFetcher.FallbackItemsAreWellFormed | src/hooks/useMenuFetcher.ts:87-122 | fallback items are numbered 1..N, sit under "General", carry no flags, have positive calories and a trimmed 4-79 character name starting with A-Z |
| HtmlFetcher.ParseMenuFromHtml | src/hooks/useMenuFetcher.ts:20-126 | the structured pass's items are kept when there are any; otherwise the result is exactly the text fallback's items |
| HtmlFetcher.MapToMenuItem | src/hooks/useMenuFetcher.ts:128-142 | the mapping keeps every parsed field (the parsed item can be read back), zeroes the macros and sets confidence 0.7 |
| HtmlFetcher.FetchMenu | src/hooks/useMenuFetcher.ts:157-179 | the query maps every parsed item in order; the meal period is breakfast, else lunch, else dinner by the lower-cased page |
| MenuScraper.MapToMenuItem | src/cloud/useMenuScraper.ts:29-47 | id, name, station and the vegetarian, vegan and gluten-free flags are copied; calories are the only nutrition; confidence is 0.85; vegan-implies-vegetarian holds of the result exactly when it holds of the scraped item |
| MenuScraper.MapToMenuItemKeeps | src/cloud/useMenuScraper.ts:29-47 | two scraped items map alike exactly when they agree on id, name, station, calories and the three shown flags: the other badges and the description are dropped |
| MenuScraper.ReplyError | src/cloud/useMenuScraper.ts:62 | the failure message is the reply's own non-empty error, else "Scrape failed"; never empty |
| MenuScraper.FetchScrapedMenu | src/cloud/useMenuScraper.ts:56-69 | success exactly when the invocation has no error and the reply says success; an invocation error fails with its message; success keeps meal period, timestamp, and the items one for one in order |
| MenuScraper.LiveMenuKeepsItems | src/cloud/useMenuScraper.ts:64-68 | on success, live item k keeps scraped item k's id, name, station, calories and its vegan, vegetarian and gluten-free flags |
| Nutrition.Totals | src/components/nutrition/NutritionSummaryBar.tsx:9-17 | the `reduce` from all zeros, adding one item's fields at a time; its meaning is stated by `TotalsAreFieldSums` |
| Nutrition.TotalsAreFieldSums | src/components/nutrition/NutritionSummaryBar.tsx:9-17 | each total is the sum of its field over the selected items |
| Nutrition.TotalsOfSnoc | src/components/nutrition/NutritionSummaryBar.tsx:9-17 | appending an item adds exactly its fields |
| Nutrition.TotalsOfConcat | src/components/nutrition/NutritionSummaryBar.tsx:9-17 | the totals of two lists together are the sum of their totals |
| Nutrition.TotalsArePermutationInvariant | src/components/nutrition/NutritionSummaryBar.tsx:9-17 | the totals do not depend on the order of the items |
| Nutrition.CappedProgress | src/components/nutrition/NutritionSummaryBar.tsx:19-20 | the progress never exceeds 100, and is not negative for non-negative calories |
| Nutrition.CappedProgressIsShareOfGoal | src/components/nutrition/NutritionSummaryBar.tsx:19-20 | below the goal the progress is calories/20 percent; from the goal on it is 100 |
| Nutrition.Round | src/components/nutrition/NutritionSummaryBar.tsx:47 | `Math.round` gives the nearest integer, halves rounded up |
| Nutrition.RoundedPercent | src/pages/Summary.tsx:63 | rounding the share of 2000 kcal in percent is the integer (calories + 10) / 20 |
| Nutrition.SummaryBar | src/components/nutrition/NutritionSummaryBar.tsx:8-65 | the prompt shows exactly for an empty selection; otherwise the count, the totals, the capped width and its rounded percentage |
| Nutrition.SummaryBarIsCapped | src/components/nutrition/NutritionSummaryBar.tsx:19-52 | for non-negative calories the bar width and percentage lie within 0..100 |
| DailyView.AllItems | src/pages/DailyView.tsx:24-27 | no items without a menu; otherwise breakfast, lunch then dinner, one after the other: an item is listed exactly when some meal holds it |
| MenuTypes.DailyMenu.AllItems | src/pages/DailyView.tsx:26 | the flattened meals hold exactly the items of the three meals, as many as they have together |
| DailyView.SelectedItems | src/pages/DailyView.tsx:29-32 | the selection is drawn from the day's items and holds only selected ids |
| DailyView.SelectedItemsAreInOrder | src/pages/DailyView.tsx:29-32 | the selection is a subsequence of the day's items: it keeps their order |
| DailyView.SelectedItemsAreComplete | src/pages/DailyView.tsx:29-32 | every item with a selected id is in the selection as often as in the day, and no other item is |
| DailyView.Without | src/pages/DailyView.tsx:36 | filtering out an id removes it and keeps every other id |
| DailyView.Toggle | src/pages/DailyView.tsx:34-38 | a toggle flips the item's membership and no other id's |
| DailyView.WithoutIsIdempotent | src/pages/DailyView.tsx:36 | filtering out an id twice is filtering it out once |
| DailyView.ToggleKeepsOthersInOrder | src/pages/DailyView.tsx:34-38 | with the toggled id taken out, the list is the same before and after |
| DailyView.ToggleTwiceRestores | src/pages/DailyView.tsx:34-38 | toggling an unselected id twice gives back the list |
| DailyView.WithoutKeepsDistinct | src/pages/DailyView.tsx:36 | filtering keeps a list without repeats without repeats |
| DailyView.ToggleKeepsDistinct | src/pages/DailyView.tsx:34-38 | a toggle keeps the selection free of repeats |
| DailyView.VisibleMeals | src/pages/DailyView.tsx:40-41 | the "all" tab shows breakfast, lunch and dinner in that order; a meal tab shows exactly that meal |
| Summary.StatsOf | src/pages/Summary.tsx:18-46 | each meal's totals and the day's totals: what `ComputeStats` is proved to return |
| Summary.StatsOfMeal | src/pages/Summary.tsx:26-33 | a meal's entry in the stats is that meal's totals |
| Summary.DayIsSumOfMeals | src/pages/Summary.tsx:35-43 | the day's totals are the sum of the three meals' totals |
| Summary.ComputeStats | src/pages/Summary.tsx:18-46 | no stats without a menu; otherwise each meal's entry is that meal's totals and the day's totals are those of all its items |
| Summary.ComputeMealStats | src/pages/Summary.tsx:20-33 | every meal's entry ends as the totals of that meal's items |
| Summary.AddMealItems | src/pages/Summary.tsx:27-32 | adding a meal's items grows that meal's entry by their totals and leaves the other entries alone |
| Summary.SumEntries | src/pages/Summary.tsx:35-43 | the reduce adds the three entries up from zero |
| Summary.EntriesStartAtZero | src/pages/Summary.tsx:20-24 | every entry starts at zero |
| Summary.EntryTakesInMeal | src/pages/Summary.tsx:26-33 | after a meal is taken in, its entry is its totals and every other entry is unchanged |
| Summary.ComputedStatsAreStatsOf | src/pages/Summary.tsx:18-46 | what the stats computation returns is the per-meal and per-day totals of the menu |
| Summary.PieData | src/pages/Summary.tsx:50-54 | three slices: Protein at 4 kcal per gram, Carbs at 4, Fat at 9 |
| Summary.PieIsItemEnergy | src/pages/Summary.tsx:50-54 | the whole pie is the macronutrient energy (4·protein + 4·carbs + 9·fat) of the items, summed item by item |
| Summary.BarData | src/pages/Summary.tsx:56-60 | one bar per meal, labelled Breakfast, Lunch and Dinner in that order, each the meal's calories |
| Summary.BarsAddUpToTheDay | src/pages/Summary.tsx:56-60 | the bars add up to the day's calories |
| Summary.GoalProgress | src/pages/Summary.tsx:62-63 | the progress is the rounded share of 2000 kcal in percent, within half a percent of the exact share |
| Summary.ProgressWidth | src/pages/Summary.tsx:92 | the bar width is the progress capped at 100 |
| Summary.ProgressWidthReachesFullAtGoal | src/pages/Summary.tsx:62-92 | the bar is full from 1990 kcal on and not full below |
| Summary.SummaryPage | src/pages/Summary.tsx:48-92 | nothing is shown exactly when there are no stats; otherwise the page shows the day's totals, their energy pie, the calories-by-meal bars, the goal progress and its width capped at 100 |

## Left out

- The HTTP handler of the edge function (`Deno.serve`) is not modelled: the preflight, the API-key check, the Firecrawl request and the JSON replies are I/O. The parser receives the markdown, and the meal detection returns the meal where the handler stores its lower-case name.
- The fetches are not modelled: the CORS-proxy fetch of the browser fetcher, its `response.ok` error, and `supabase.functions.invoke`. The invocation's outcome is the parameter of `MenuScraper.FetchScrapedMenu`.
- `new Date().toISOString()` is a parameter (`scrapedAt`).
- HtmlFetcher.ParseMenuFromHtml: the structured DOM pass (`DOMParser`, `querySelectorAll`, `closest`, the name-length test and the `(\d+)` calorie lookup) needs a browser DOM.
  - Its items are the parameter `domItems`, and the page's `body.textContent` is the parameter `bodyText`.
  - Its flag computation is modelled as `ContextDietary`.
  - The contract promises nothing about `domItems` beyond their being returned when there are any.
- React Query's caching, retry and stale time are not modelled. Neither is anything that only renders: JSX, colours, icons, date formatting and the date navigation of the daily view.
- The mock menu data (`getMenuForDate`) is not modelled: the menu is a parameter.
- JavaScript numbers are IEEE doubles; the model uses unbounded integers and exact reals. The progress percentages are exact quotients, and `Math.round` rounds exact halves up. Rounding errors of floating point and `parseInt` beyond 2^53 are not modelled.
- String lengths are counted in Dafny characters, not UTF-16 code units. The length tests (`length > 5`, `3 < length < 80`, the DOM name test) can differ for characters outside the Basic Multilingual Plane.
- `toLowerCase` and the regular expressions' `i` flag are modelled with ASCII case mapping only. `\d` is ASCII digits, `\s` is the JavaScript white-space set.
- `Object.entries` and `Object.values` over the meals record are taken in the order breakfast, lunch, dinner, the key order of the menu records. The sums do not depend on that order (`Nutrition.TotalsArePermutationInvariant`).
- MarkdownParser.ParseMenuFromMarkdown: the body of the outer loop is the method `ParseLine`, where `return` stands for `continue`. The look-ahead loop is `ScanItemWindow`, and its three tests are `ReadCalories`, `ReadBadges` and `ReadDescription`. The footer cut is computed by the function `ContentLines`.
