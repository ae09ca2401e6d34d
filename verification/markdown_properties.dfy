/** What `parseMenuFromMarkdown` promises, stated without the loop: one item per qualifying
    `### ` line of the content, in line order, numbered from 1, under the nearest preceding
    `## ` heading, with the details of the look-ahead window that follows it. */
module MarkdownProperties {
  import opened MenuTypes
  import opened Text
  import opened MarkdownParser

  // ---------------------------------------------------------------------------
  // The declarative description, over the views of the content lines
  // ---------------------------------------------------------------------------

  /** The station in force before line k: the name of the nearest `## ` heading above it. */
  function StationBefore(vs: seq<LineView>, k: nat): string
    requires k <= |vs|
  {
    if k == 0 then ""
    else if vs[k - 1].isStation then vs[k - 1].stationName
    else StationBefore(vs, k - 1)
  }

  /** Line i opens an item: a `### ` heading under some station, whose name is neither empty
      nor "Also Available". */
  predicate YieldsItem(vs: seq<LineView>, i: nat)
    requires i < |vs|
  {
    && !vs[i].isStation
    && vs[i].isItem
    && StationBefore(vs, i) != ""
    && vs[i].itemName != "Also Available"
    && vs[i].itemName != ""
  }

  /** The lines among 0 .. k-1 that open an item, in increasing order. */
  function ItemLines(vs: seq<LineView>, k: nat): seq<nat>
    requires k <= |vs|
  {
    if k == 0 then []
    else ItemLines(vs, k - 1) + (if YieldsItem(vs, k - 1) then [k - 1] else [])
  }

  /** The item that line i yields under the number id. */
  function ItemAt(vs: seq<LineView>, i: nat, id: int): ScrapedMenuItem
    requires i < |vs|
  {
    var d := vs[i].details;
    ScrapedMenuItem(id, vs[i].itemName, StationBefore(vs, i), d.calories, d.dietary, d.description)
  }

  /** The items the lines 0 .. k-1 yield, numbered 1, 2, … in order. */
  function ExpectedItems(vs: seq<LineView>, k: nat): seq<ScrapedMenuItem>
    requires k <= |vs|
  {
    if k == 0 then []
    else ExpectedItems(vs, k - 1) + (if YieldsItem(vs, k - 1) then [ItemAt(vs, k - 1, |ItemLines(vs, k - 1)| + 1)] else [])
  }

  /** The number of `### ` lines among 0 .. k-1. */
  function ItemHeadingCount(vs: seq<LineView>, k: nat): nat
    requires k <= |vs|
  {
    if k == 0 then 0
    else ItemHeadingCount(vs, k - 1) + (if vs[k - 1].isItem then 1 else 0)
  }

  // ---------------------------------------------------------------------------
  // The fold is the description
  // ---------------------------------------------------------------------------

  /** After lines 0 .. k-1 the parser holds the station in force. */
  lemma {:induction false} ParseUpToStation(vs: seq<LineView>, k: nat)
    requires k <= |vs|
    ensures ParseUpTo(vs, k).station == StationBefore(vs, k)
  {
    if k > 0 {
      ParseUpToStation(vs, k - 1);
    }
  }

  /** After lines 0 .. k-1 the parser holds the items of the lines that yield one, and the
      next number to hand out. */
  lemma {:induction false} ParseUpToIsExpected(vs: seq<LineView>, k: nat)
    requires k <= |vs|
    ensures ParseUpTo(vs, k).nextId == |ItemLines(vs, k)| + 1
    ensures ParseUpTo(vs, k).items == ExpectedItems(vs, k)
  {
    if k > 0 {
      ParseUpToIsExpected(vs, k - 1);
      ParseUpToStation(vs, k - 1);
    }
  }

  /** The expected items are those of `ItemLines`, numbered 1, 2, … in order. */
  lemma {:induction false} ExpectedItemsAreItemLines(vs: seq<LineView>, k: nat)
    requires k <= |vs|
    ensures |ExpectedItems(vs, k)| == |ItemLines(vs, k)|
    ensures forall n :: 0 <= n < |ItemLines(vs, k)| ==>
      ItemLines(vs, k)[n] < |vs| && ExpectedItems(vs, k)[n] == ItemAt(vs, ItemLines(vs, k)[n], n + 1)
  {
    if k > 0 {
      ExpectedItemsAreItemLines(vs, k - 1);
    }
  }

  /** After lines 0 .. k-1 the parser holds exactly the items of `ItemLines`, numbered
      1, 2, … in order, and the next number to hand out. */
  lemma ParseUpToIsFilter(vs: seq<LineView>, k: nat)
    requires k <= |vs|
    ensures ParseUpTo(vs, k).nextId == |ItemLines(vs, k)| + 1
    ensures |ParseUpTo(vs, k).items| == |ItemLines(vs, k)|
    ensures forall n :: 0 <= n < |ItemLines(vs, k)| ==>
      ItemLines(vs, k)[n] < |vs| && ParseUpTo(vs, k).items[n] == ItemAt(vs, ItemLines(vs, k)[n], n + 1)
  {
    ParseUpToIsExpected(vs, k);
    ExpectedItemsAreItemLines(vs, k);
  }

  /** Every line that `ItemLines` lists is below k and opens an item, and the list rises. */
  lemma {:induction false} ItemLinesAreOrdered(vs: seq<LineView>, k: nat)
    requires k <= |vs|
    ensures forall n :: 0 <= n < |ItemLines(vs, k)| ==> ItemLines(vs, k)[n] < k && YieldsItem(vs, ItemLines(vs, k)[n])
    ensures forall m, n :: 0 <= m < n < |ItemLines(vs, k)| ==> ItemLines(vs, k)[m] < ItemLines(vs, k)[n]
  {
    if k > 0 {
      ItemLinesAreOrdered(vs, k - 1);
    }
  }

  /** A line that opens an item is listed. */
  lemma {:induction false} ItemLinesAreComplete(vs: seq<LineView>, k: nat, i: nat)
    requires i < k <= |vs|
    requires YieldsItem(vs, i)
    ensures i in ItemLines(vs, k)
  {
    var L := ItemLines(vs, k - 1);
    if i < k - 1 {
      ItemLinesAreComplete(vs, k - 1, i);
      var n :| 0 <= n < |L| && L[n] == i;
      assert ItemLines(vs, k)[n] == i;
    } else {
      assert ItemLines(vs, k)[|L|] == i;
    }
  }

  /** There are never more items than `### ` lines. */
  lemma {:induction false} ItemCountBound(vs: seq<LineView>, k: nat)
    requires k <= |vs|
    ensures |ItemLines(vs, k)| <= ItemHeadingCount(vs, k)
  {
    if k > 0 {
      ItemCountBound(vs, k - 1);
    }
  }

  /** The station before line k is "" exactly when no `## ` heading precedes it, provided
      every `## ` heading names a station (as `ViewLines` guarantees). */
  lemma {:induction false} NoStationWithoutHeading(vs: seq<LineView>, k: nat)
    requires k <= |vs|
    requires forall h :: 0 <= h < |vs| && vs[h].isStation ==> vs[h].stationName != ""
    ensures StationBefore(vs, k) == "" <==> forall h :: 0 <= h < k ==> !vs[h].isStation
  {
    if k > 0 && !vs[k - 1].isStation {
      NoStationWithoutHeading(vs, k - 1);
    }
  }

  /** A station in force is the name of the nearest `## ` heading above. */
  lemma {:induction false} StationIsNearestHeading(vs: seq<LineView>, k: nat)
    requires k <= |vs|
    ensures StationBefore(vs, k) != "" ==>
      exists h :: 0 <= h < k && vs[h].isStation && vs[h].stationName == StationBefore(vs, k)
        && forall h' :: h < h' < k ==> !vs[h'].isStation
  {
    if k > 0 && !vs[k - 1].isStation {
      StationIsNearestHeading(vs, k - 1);
    }
  }

  // ---------------------------------------------------------------------------
  // The views of real lines
  // ---------------------------------------------------------------------------

  /** All of a string is white space when trimming leaves nothing. */
  lemma TrimEmptyIsAllSpace(s: string)
    requires Trim(s) == []
    ensures forall k :: 0 <= k < |s| ==> IsSpace(s[k])
  {
    TrimIsInfix(s);
  }

  /** A `## ` heading of a trimmed line always names a station. */
  lemma StationNameNonEmpty(raw: string)
    requires IsStationHeading(Trim(raw))
    ensures StationName(Trim(raw)) != ""
  {
    var line := Trim(raw);
    TrimIsInfix(raw);
    ReplacePrefix(line, "## ");
    var rest := line[3..];
    assert rest != [] && !IsSpace(rest[|rest| - 1]);
    TrimIsInfix(rest);
  }

  /** Every `## ` line of the content names a station. */
  lemma ViewedStationsAreNamed(c: seq<string>)
    ensures var vs := ViewLines(c);
      forall h :: 0 <= h < |vs| && vs[h].isStation ==> vs[h].stationName != ""
  {
    forall h | 0 <= h < |c| && ViewLines(c)[h].isStation
      ensures ViewLines(c)[h].stationName != ""
    {
      StationNameNonEmpty(c[h]);
    }
  }

  // ---------------------------------------------------------------------------
  // The parser's promises
  // ---------------------------------------------------------------------------

  /** The items of a page: ids run 1 .. N, each comes from its own qualifying `### ` line of the
      content, in line order, carries the nearest preceding station (never empty) and is never
      named "Also Available"; there are at most as many items as `### ` lines. */
  lemma MarkdownItemsAreTheItemLines(markdown: string)
    ensures var vs := ViewLines(ContentLines(Split(markdown, '\n')));
      var items := MarkdownItems(markdown);
      var L := ItemLines(vs, |vs|);
      && |items| == |L| <= ItemHeadingCount(vs, |vs|)
      && (forall n :: 0 <= n < |items| ==>
            && L[n] < |vs| && items[n] == ItemAt(vs, L[n], n + 1)
            && items[n].id == n + 1
            && items[n].station != ""
            && items[n].name != "Also Available" && items[n].name != "")
      && (forall m, n :: 0 <= m < n < |items| ==> L[m] < L[n])
  {
    var vs := ViewLines(ContentLines(Split(markdown, '\n')));
    ParseUpToIsFilter(vs, |vs|);
    ItemLinesAreOrdered(vs, |vs|);
    ItemCountBound(vs, |vs|);
  }
}
