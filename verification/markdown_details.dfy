/** What the look-ahead after a `### ` heading collects, and where the footer cuts the page,
    stated line by line: the last calorie match wins, the last plain-text line is the
    description, a badge is set exactly when some window line names it, and the footer is
    cut only when its heading is not the first line. */
module MarkdownDetails {
  import opened MenuTypes
  import opened Text
  import opened MarkdownParser

  // ---------------------------------------------------------------------------
  // Badges
  // ---------------------------------------------------------------------------

  /** The badges one trimmed line names on its own. */
  function LineBadges(line: string): ScrapedDietary {
    AbsorbBadges(NoBadges, line)
  }

  /** A line names a badge exactly when it contains one of that badge's markers; "Vegan"
      names the vegetarian badge too. */
  lemma LineBadgesAreMarkers(line: string)
    ensures var b := LineBadges(line);
      && (b.vegan <==> Contains(line, "Vegan"))
      && (b.vegetarian <==> Contains(line, "Vegetarian") || Contains(line, "Vegan"))
      && (b.glutenFree <==> Contains(line, "No Gluten") || Contains(line, "GlutenFree"))
      && (b.noDairy <==> Contains(line, "No Dairy") || Contains(line, "NoDairy"))
      && (b.eatWell <==> Contains(line, "Eat Well") || Contains(line, "EatWell"))
      && (b.coolFood <==> Contains(line, "CoolFood") || Contains(line, "Low Carbon"))
  {
  }

  /** The badges of either argument. */
  function AnyBadges(a: ScrapedDietary, b: ScrapedDietary): ScrapedDietary {
    ScrapedDietary(
      a.vegetarian || b.vegetarian, a.vegan || b.vegan, a.glutenFree || b.glutenFree,
      a.noDairy || b.noDairy, a.eatWell || b.eatWell, a.coolFood || b.coolFood)
  }

  /** The badges any entry of `bs` carries. */
  function AllBadges(bs: seq<ScrapedDietary>): ScrapedDietary {
    if bs == [] then NoBadges else AnyBadges(AllBadges(bs[..|bs| - 1]), bs[|bs| - 1])
  }

  /** Each badge is set exactly when some entry carries it. */
  lemma {:induction false} AllBadgesIsSomeEntry(bs: seq<ScrapedDietary>)
    ensures var d := AllBadges(bs);
      && (d.vegetarian <==> exists k :: 0 <= k < |bs| && bs[k].vegetarian)
      && (d.vegan <==> exists k :: 0 <= k < |bs| && bs[k].vegan)
      && (d.glutenFree <==> exists k :: 0 <= k < |bs| && bs[k].glutenFree)
      && (d.noDairy <==> exists k :: 0 <= k < |bs| && bs[k].noDairy)
      && (d.eatWell <==> exists k :: 0 <= k < |bs| && bs[k].eatWell)
      && (d.coolFood <==> exists k :: 0 <= k < |bs| && bs[k].coolFood)
  {
    if bs != [] {
      var init := bs[..|bs| - 1];
      AllBadgesIsSomeEntry(init);
      assert forall k :: 0 <= k < |init| ==> init[k] == bs[k];
    }
  }

  lemma AllBadgesOfSnoc(bs: seq<ScrapedDietary>, b: ScrapedDietary)
    ensures AllBadges(bs + [b]) == AnyBadges(AllBadges(bs), b)
  {
    assert (bs + [b])[..|bs|] == bs;
  }

  /** Absorbing a line adds the badges it names on its own. */
  lemma AbsorbBadgesAddsLineBadges(d: ScrapedDietary, line: string)
    ensures AbsorbBadges(d, line) == AnyBadges(d, LineBadges(line))
  {
  }

  /** The badges each window line lo .. hi-1 names, at index k for line lo + k. */
  function WindowBadges(c: seq<string>, lo: nat, hi: nat): (bs: seq<ScrapedDietary>)
    requires lo <= hi <= |c|
    ensures |bs| == hi - lo
  {
    seq(hi - lo, k requires 0 <= k < hi - lo => LineBadges(Trim(c[lo + k])))
  }

  /** The look-ahead's badges are those some window line names. */
  lemma {:induction false} ScanBadgesAreAllBadges(c: seq<string>, lo: nat, hi: nat)
    requires lo <= hi <= |c|
    decreases hi
    ensures ScanBadges(c, lo, hi) == AllBadges(WindowBadges(c, lo, hi))
  {
    if hi > lo {
      ScanBadgesAreAllBadges(c, lo, hi - 1);
      var line := Trim(c[hi - 1]);
      assert WindowBadges(c, lo, hi) == WindowBadges(c, lo, hi - 1) + [LineBadges(line)];
      AllBadgesOfSnoc(WindowBadges(c, lo, hi - 1), LineBadges(line));
      AbsorbBadgesAddsLineBadges(ScanBadges(c, lo, hi - 1), line);
    }
  }

  /** Each badge of the window is set exactly when one of its lines names it. */
  lemma ScanBadgesAreNamed(c: seq<string>, lo: nat, hi: nat)
    requires lo <= hi <= |c|
    ensures var d, bs := ScanBadges(c, lo, hi), WindowBadges(c, lo, hi);
      && (d.vegetarian <==> exists k :: 0 <= k < |bs| && bs[k].vegetarian)
      && (d.vegan <==> exists k :: 0 <= k < |bs| && bs[k].vegan)
      && (d.glutenFree <==> exists k :: 0 <= k < |bs| && bs[k].glutenFree)
      && (d.noDairy <==> exists k :: 0 <= k < |bs| && bs[k].noDairy)
      && (d.eatWell <==> exists k :: 0 <= k < |bs| && bs[k].eatWell)
      && (d.coolFood <==> exists k :: 0 <= k < |bs| && bs[k].coolFood)
  {
    ScanBadgesAreAllBadges(c, lo, hi);
    AllBadgesIsSomeEntry(WindowBadges(c, lo, hi));
  }

  /** A vegan item is always vegetarian. */
  lemma {:induction false} VeganIsVegetarian(c: seq<string>, lo: nat, hi: nat)
    requires lo <= hi <= |c|
    decreases hi
    ensures ScanBadges(c, lo, hi).vegan ==> ScanBadges(c, lo, hi).vegetarian
  {
    if hi > lo {
      VeganIsVegetarian(c, lo, hi - 1);
    }
  }

  /** Every badge set by the first lines of the window stays set: nothing clears a badge. */
  lemma {:induction false} BadgesAreNeverCleared(c: seq<string>, lo: nat, m: nat, hi: nat)
    requires lo <= m <= hi <= |c|
    decreases hi
    ensures var d, e := ScanBadges(c, lo, m), ScanBadges(c, lo, hi);
      && (d.vegetarian ==> e.vegetarian) && (d.vegan ==> e.vegan) && (d.glutenFree ==> e.glutenFree)
      && (d.noDairy ==> e.noDairy) && (d.eatWell ==> e.eatWell) && (d.coolFood ==> e.coolFood)
  {
    if m < hi {
      BadgesAreNeverCleared(c, lo, m, hi - 1);
    }
  }

  // ---------------------------------------------------------------------------
  // Calories and description: the last line wins
  // ---------------------------------------------------------------------------

  /** The last present entry of `ms`, if any. */
  function LastSome<T>(ms: seq<Option<T>>): (r: Option<T>)
    ensures r.Some? ==> r in ms
  {
    if ms == [] then None
    else if ms[|ms| - 1].Some? then ms[|ms| - 1]
    else LastSome(ms[..|ms| - 1])
  }

  /** `LastSome` is absent exactly when every entry is, and otherwise it is an entry after
      which every entry is absent. */
  lemma {:induction false} LastSomeIsLast<T>(ms: seq<Option<T>>)
    ensures LastSome(ms).None? <==> forall k :: 0 <= k < |ms| ==> ms[k].None?
    ensures LastSome(ms).Some? ==>
      exists k :: 0 <= k < |ms| && ms[k] == LastSome(ms) && forall k' :: k < k' < |ms| ==> ms[k'].None?
  {
    if ms != [] {
      var n := |ms| - 1;
      if ms[n].Some? {
        assert LastSome(ms) == ms[n];
      } else {
        var init := ms[..n];
        assert LastSome(ms) == LastSome(init);
        LastSomeIsLast(init);
        if LastSome(init).Some? {
          var k :| 0 <= k < n && init[k] == LastSome(init) && forall k' :: k < k' < n ==> init[k'].None?;
          assert ms[k] == LastSome(ms) && forall k' :: k < k' < |ms| ==> ms[k'].None?;
        } else {
          assert forall k :: 0 <= k < n ==> ms[k] == init[k];
        }
      }
    }
  }

  /** A present last entry is the `LastSome`; an absent one leaves it to the others. */
  lemma LastSomeOfSnoc<T>(ms: seq<Option<T>>, m: Option<T>)
    ensures LastSome(ms + [m]) == if m.Some? then m else LastSome(ms)
  {
    assert (ms + [m])[..|ms|] == ms;
  }

  /** The calorie match of each window line lo .. hi-1, at index k for line lo + k. */
  function CalorieMatches(c: seq<string>, lo: nat, hi: nat): (ms: seq<Option<nat>>)
    requires lo <= hi <= |c|
    ensures |ms| == hi - lo
  {
    seq(hi - lo, k requires 0 <= k < hi - lo => CalorieMatch(Trim(c[lo + k])))
  }

  /** The look-ahead's calorie count is the number of the last matching window line, or 0. */
  lemma {:induction false} ScanCaloriesIsLastMatch(c: seq<string>, lo: nat, hi: nat)
    requires lo <= hi <= |c|
    decreases hi
    ensures ScanCalories(c, lo, hi) == match LastSome(CalorieMatches(c, lo, hi)) case Some(v) => v case None => 0
  {
    if hi > lo {
      ScanCaloriesIsLastMatch(c, lo, hi - 1);
      var line := Trim(c[hi - 1]);
      assert CalorieMatches(c, lo, hi) == CalorieMatches(c, lo, hi - 1) + [CalorieMatch(line)];
      LastSomeOfSnoc(CalorieMatches(c, lo, hi - 1), CalorieMatch(line));
    }
  }

  /** The calorie count is 0 when no window line matches `(\d+)\s*Calories`, and otherwise the
      number of the last line that matches. */
  lemma CaloriesAreTheLastMatch(c: seq<string>, lo: nat, hi: nat)
    requires lo <= hi <= |c|
    ensures var ms := CalorieMatches(c, lo, hi);
      && ((forall k :: 0 <= k < |ms| ==> ms[k].None?) ==> ScanCalories(c, lo, hi) == 0)
      && ((exists k :: 0 <= k < |ms| && ms[k].Some?) ==>
            exists k :: 0 <= k < |ms| && ms[k] == Some(ScanCalories(c, lo, hi))
              && forall k' :: k < k' < |ms| ==> ms[k'].None?)
  {
    ScanCaloriesIsLastMatch(c, lo, hi);
    LastSomeIsLast(CalorieMatches(c, lo, hi));
  }

  /** Each window line lo .. hi-1 that is plain text, at index k for line lo + k. */
  function PlainLines(c: seq<string>, lo: nat, hi: nat): (ds: seq<Option<string>>)
    requires lo <= hi <= |c|
    ensures |ds| == hi - lo
  {
    seq(hi - lo, k requires 0 <= k < hi - lo =>
      var line := Trim(c[lo + k]); if IsDescriptionLine(line) then Some(line) else None)
  }

  /** The look-ahead's description is the last plain-text window line. */
  lemma {:induction false} ScanDescriptionIsLastPlainLine(c: seq<string>, lo: nat, hi: nat)
    requires lo <= hi <= |c|
    decreases hi
    ensures ScanDescription(c, lo, hi) == LastSome(PlainLines(c, lo, hi))
  {
    if hi > lo {
      ScanDescriptionIsLastPlainLine(c, lo, hi - 1);
      var line := Trim(c[hi - 1]);
      var d := if IsDescriptionLine(line) then Some(line) else None;
      assert PlainLines(c, lo, hi) == PlainLines(c, lo, hi - 1) + [d];
      LastSomeOfSnoc(PlainLines(c, lo, hi - 1), d);
    }
  }

  /** The description is absent exactly when no window line is plain text, and otherwise it
      is the last such line. */
  lemma DescriptionIsTheLastPlainLine(c: seq<string>, lo: nat, hi: nat)
    requires lo <= hi <= |c|
    ensures var ds := PlainLines(c, lo, hi);
      && (ScanDescription(c, lo, hi).None? <==> forall k :: 0 <= k < |ds| ==> ds[k].None?)
      && (ScanDescription(c, lo, hi).Some? ==>
            exists k :: 0 <= k < |ds| && ds[k] == ScanDescription(c, lo, hi)
              && forall k' :: k < k' < |ds| ==> ds[k'].None?)
  {
    ScanDescriptionIsLastPlainLine(c, lo, hi);
    LastSomeIsLast(PlainLines(c, lo, hi));
  }

  /** The item's details come from the lines strictly after its heading, before the next
      heading and at most 19 lines on. */
  lemma ItemDetailsWindow(c: seq<string>, i: nat)
    requires i < |c|
    ensures var e := WindowEnd(c, i);
      && ItemDetails(c, i) == Details(ScanCalories(c, i + 1, e), ScanBadges(c, i + 1, e), ScanDescription(c, i + 1, e))
      && i + 1 <= e <= Min(i + LookAhead, |c|)
      && (forall k :: i + 1 <= k < e ==> !EndsWindow(Trim(c[k])))
      && (e == Min(i + LookAhead, |c|) || EndsWindow(Trim(c[e])))
  {
    WindowEndIsFirstHeading(c, i);
  }

  // ---------------------------------------------------------------------------
  // The footer
  // ---------------------------------------------------------------------------

  /** The page is cut at the first `## Menu Highlights` line, unless that is the very first
      line or there is none: then nothing is cut. */
  lemma FooterCut(lines: seq<string>)
    ensures FooterIndex(lines) > 0 ==>
      && ContentLines(lines) == lines[..FooterIndex(lines)]
      && Trim(lines[FooterIndex(lines)]) == FooterHeading
      && forall k :: 0 <= k < |ContentLines(lines)| ==> Trim(lines[k]) != FooterHeading
    ensures FooterIndex(lines) <= 0 ==> ContentLines(lines) == lines
    ensures (forall k :: 0 <= k < |lines| ==> Trim(lines[k]) != FooterHeading) ==> ContentLines(lines) == lines
    ensures |lines| > 0 && Trim(lines[0]) == FooterHeading ==> ContentLines(lines) == lines
  {
    FooterIndexFromIsFirst(lines, 0);
  }

  /** Once the footer heading is found past the first line, nothing from it on reaches the
      items: any page that agrees up to and including that line yields the same items. */
  lemma FooterHidesTheRest(lines: seq<string>, other: seq<string>)
    requires 0 < FooterIndex(lines) < |other|
    requires other[..FooterIndex(lines) + 1] == lines[..FooterIndex(lines) + 1]
    ensures ParseLines(other) == ParseLines(lines)
  {
    var f := FooterIndex(lines);
    FooterIndexFromIsFirst(lines, 0);
    FooterIndexFromIsFirst(other, 0);
    assert forall k :: 0 <= k <= f ==> other[k] == lines[k] by {
      forall k | 0 <= k <= f
        ensures other[k] == lines[k]
      {
        assert other[..f + 1][k] == lines[..f + 1][k];
      }
    }
    assert FooterIndex(other) == f;
    assert ContentLines(other) == ContentLines(lines);
  }
}
