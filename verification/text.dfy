/** The JavaScript string built-ins the parsers rely on (`trim`, `split`,
    `startsWith`, `includes`, `indexOf`/`replace`, `toLowerCase`) and the three
    regular expressions they match, each written out over `seq<char>`. */
module Text {
  import opened MenuTypes

  /** The characters JavaScript treats as white space in `trim` and in `\s`. */
  predicate IsSpace(c: char) {
    || c == ' ' || c == '\t' || c == '\n' || c == '\r' || c == '\U{000B}' || c == '\U{000C}'
    || c == '\U{00A0}' || c == '\U{1680}' || ('\U{2000}' <= c <= '\U{200A}')
    || c == '\U{2028}' || c == '\U{2029}' || c == '\U{202F}' || c == '\U{205F}'
    || c == '\U{3000}' || c == '\U{FEFF}'
  }

  function TrimStart(s: string): string {
    if s != [] && IsSpace(s[0]) then TrimStart(s[1..]) else s
  }

  function TrimEnd(s: string): string {
    if s != [] && IsSpace(s[|s| - 1]) then TrimEnd(s[..|s| - 1]) else s
  }

  /** Neither end is white space. */
  predicate IsTrimmed(s: string) {
    s == [] || (!IsSpace(s[0]) && !IsSpace(s[|s| - 1]))
  }

  /** `String.prototype.trim`. */
  function Trim(s: string): string {
    TrimEnd(TrimStart(s))
  }

  /** `trimStart` drops the longest all-white-space prefix. */
  lemma {:induction false} TrimStartIsSuffix(s: string)
    ensures var r := TrimStart(s);
      && |r| <= |s| && r == s[|s| - |r|..]
      && (r == [] || !IsSpace(r[0]))
      && (forall k :: 0 <= k < |s| - |r| ==> IsSpace(s[k]))
  {
    if s != [] && IsSpace(s[0]) {
      var t := s[1..];
      TrimStartIsSuffix(t);
      var r := TrimStart(t);
      assert TrimStart(s) == r;
      assert t[|t| - |r|..] == s[|s| - |r|..];
      forall k | 0 <= k < |s| - |r|
        ensures IsSpace(s[k])
      {
        if k > 0 {
          assert s[k] == t[k - 1];
        }
      }
    }
  }

  /** `trimEnd` drops the longest all-white-space suffix. */
  lemma {:induction false} TrimEndIsPrefix(s: string)
    ensures var r := TrimEnd(s);
      && |r| <= |s| && r == s[..|r|]
      && (r == [] || !IsSpace(r[|r| - 1]))
      && (forall k :: |r| <= k < |s| ==> IsSpace(s[k]))
  {
    if s != [] && IsSpace(s[|s| - 1]) {
      var t := s[..|s| - 1];
      TrimEndIsPrefix(t);
      var r := TrimEnd(t);
      assert TrimEnd(s) == r;
      assert t[..|r|] == s[..|r|];
      forall k | |r| <= k < |s|
        ensures IsSpace(s[k])
      {
        if k < |s| - 1 {
          assert s[k] == t[k];
        }
      }
    }
  }

  /** Trim removes white space only, from both ends, and leaves a trimmed infix. */
  lemma TrimIsInfix(s: string)
    ensures |TrimStart(s)| <= |s|
    ensures var a := |s| - |TrimStart(s)|;
      && IsTrimmed(Trim(s))
      && a + |Trim(s)| <= |s| && Trim(s) == s[a..a + |Trim(s)|]
      && (forall k :: 0 <= k < a ==> IsSpace(s[k]))
      && (forall k :: a + |Trim(s)| <= k < |s| ==> IsSpace(s[k]))
  {
    var u := TrimStart(s);
    TrimStartIsSuffix(s);
    var a := |s| - |u|;
    TrimEndOfSuffix(s, a);
  }

  /** Trimming the end of the suffix from `a` leaves a trimmed infix of `s` and drops white
      space only. */
  lemma TrimEndOfSuffix(s: string, a: nat)
    requires a <= |s| && (s[a..] == [] || !IsSpace(s[a]))
    ensures var r := TrimEnd(s[a..]);
      && IsTrimmed(r) && a + |r| <= |s| && r == s[a..a + |r|]
      && (forall k :: a + |r| <= k < |s| ==> IsSpace(s[k]))
  {
    var u := s[a..];
    TrimEndIsPrefix(u);
    var r := TrimEnd(u);
    assert u[..|r|] == s[a..a + |r|];
    forall k | a + |r| <= k < |s|
      ensures IsSpace(s[k])
    {
      assert s[k] == u[k - a];
    }
  }

  /** `String.prototype.startsWith`. */
  predicate StartsWith(s: string, prefix: string) {
    |prefix| <= |s| && s[..|prefix|] == prefix
  }

  /** `part` occurs in `s` starting at index `k`. */
  predicate OccursAt(s: string, part: string, k: int) {
    0 <= k && k + |part| <= |s| && s[k..k + |part|] == part
  }

  /** `String.prototype.indexOf(part, from)`: the first occurrence at or after `from`, or -1. */
  function IndexOfFrom(s: string, part: string, from: nat): (r: int)
    decreases |s| - from
    ensures r == -1 || (from <= r && OccursAt(s, part, r))
  {
    if from + |part| > |s| then -1
    else if OccursAt(s, part, from) then from
    else IndexOfFrom(s, part, from + 1)
  }

  /** `indexOf` finds the first occurrence: none lies between `from` and the result,
      and -1 means there is none at all. */
  lemma {:induction false} IndexOfFromIsFirst(s: string, part: string, from: nat)
    decreases |s| - from
    ensures var r := IndexOfFrom(s, part, from);
      && (r >= 0 ==> forall k :: from <= k < r ==> !OccursAt(s, part, k))
      && (r == -1 ==> forall k :: from <= k ==> !OccursAt(s, part, k))
  {
    if from + |part| <= |s| && !OccursAt(s, part, from) {
      IndexOfFromIsFirst(s, part, from + 1);
    }
  }

  /** `String.prototype.includes`: `indexOf` finds the part. */
  predicate Contains(s: string, part: string) {
    IndexOfFrom(s, part, 0) >= 0
  }

  /** `includes` holds exactly when the part occurs somewhere. */
  lemma ContainsIsOccurrence(s: string, part: string)
    ensures Contains(s, part) <==> exists k :: 0 <= k <= |s| - |part| && OccursAt(s, part, k)
  {
    IndexOfFromIsFirst(s, part, 0);
  }

  /** `String.prototype.replace` with a string pattern: only the first occurrence is replaced. */
  function ReplaceFirst(s: string, part: string, replacement: string): string {
    var k := IndexOfFrom(s, part, 0);
    if k < 0 then s else s[..k] + replacement + s[k + |part|..]
  }

  lemma ReplacePrefix(s: string, prefix: string)
    requires StartsWith(s, prefix)
    ensures ReplaceFirst(s, prefix, "") == s[|prefix|..]
  {
    assert s[0..|prefix|] == prefix;
  }

  /** `String.prototype.split` on one separator character. */
  function Split(s: string, sep: char): (r: seq<string>)
    ensures |r| >= 1
  {
    if s == [] then [""]
    else
      var rest := Split(s[1..], sep);
      if s[0] == sep then [""] + rest else [[s[0]] + rest[0]] + rest[1..]
  }

  /** No part holds the separator. */
  lemma {:induction false} SplitPartsHaveNoSeparator(s: string, sep: char)
    ensures forall k :: 0 <= k < |Split(s, sep)| ==> sep !in Split(s, sep)[k]
  {
    if s != [] {
      SplitPartsHaveNoSeparator(s[1..], sep);
    }
  }

  /** `Array.prototype.join`: the inverse of `Split`. */
  function Join(parts: seq<string>, sep: char): string
    requires |parts| >= 1
  {
    if |parts| == 1 then parts[0] else parts[0] + [sep] + Join(parts[1..], sep)
  }

  lemma {:induction false} JoinSplit(s: string, sep: char)
    ensures Join(Split(s, sep), sep) == s
  {
    if s != [] {
      var rest := Split(s[1..], sep);
      JoinSplit(s[1..], sep);
      if s[0] != sep {
        if |rest| == 1 {
          assert Split(s, sep) == [[s[0]] + rest[0]];
        } else {
          assert Split(s, sep)[1..] == rest[1..];
        }
      }
    }
  }

  lemma {:induction false} SplitJoin(parts: seq<string>, sep: char)
    requires |parts| >= 1
    requires forall k :: 0 <= k < |parts| ==> sep !in parts[k]
    ensures Split(Join(parts, sep), sep) == parts
  {
    if |parts| == 1 {
      SplitNoSeparator(parts[0], sep);
    } else {
      SplitJoin(parts[1..], sep);
      SplitSeparatorAfter(parts[0], sep, Join(parts[1..], sep));
    }
  }

  lemma {:induction false} SplitNoSeparator(s: string, sep: char)
    requires sep !in s
    ensures Split(s, sep) == [s]
  {
    if s != [] {
      SplitNoSeparator(s[1..], sep);
      assert [s[0]] + s[1..] == s;
    }
  }

  lemma {:induction false} SplitSeparatorAfter(a: string, sep: char, b: string)
    requires sep !in a
    ensures Split(a + [sep] + b, sep) == [a] + Split(b, sep)
  {
    if a == [] {
      assert a + [sep] + b == [sep] + b;
      assert ([sep] + b)[1..] == b;
    } else {
      assert (a + [sep] + b)[1..] == a[1..] + [sep] + b;
      SplitSeparatorAfter(a[1..], sep, b);
      assert [a[0]] + a[1..] == a;
    }
  }

  /** The ASCII case mapping; see README for what full Unicode lower-casing adds. */
  function LowerChar(c: char): char {
    if 'A' <= c <= 'Z' then (c as int + 32) as char else c
  }

  /** `String.prototype.toLowerCase`, character by character. */
  function ToLower(s: string): (r: string)
    ensures |r| == |s|
    ensures forall k :: 0 <= k < |r| ==> !('A' <= r[k] <= 'Z')
    ensures forall k :: 0 <= k < |s| && !('A' <= s[k] <= 'Z') ==> r[k] == s[k]
    ensures forall k :: 0 <= k < |s| && 'A' <= s[k] <= 'Z' ==> r[k] as int == s[k] as int + 32
  {
    seq(|s|, k requires 0 <= k < |s| => LowerChar(s[k]))
  }

  /** Lower-casing works character by character: it distributes over concatenation. */
  lemma ToLowerOfConcat(a: string, b: string)
    ensures ToLower(a) + ToLower(b) == ToLower(a + b)
  {
  }

  /** Lower-casing a lower-cased text changes nothing. */
  lemma ToLowerIsIdempotent(s: string)
    ensures ToLower(ToLower(s)) == ToLower(s)
  {
  }

  /** `\d`: the ASCII digits only. */
  predicate IsDigit(c: char) {
    '0' <= c <= '9'
  }

  /** The value of one decimal digit character. */
  function DigitValue(c: char): nat {
    if IsDigit(c) then c as int - '0' as int else 0
  }

  /** `parseInt(d, 10)` of a string of digits. */
  function DigitsValue(d: string): nat {
    if d == [] then 0 else DigitsValue(d[..|d| - 1]) * 10 + DigitValue(d[|d| - 1])
  }

  /** End of the longest run of digits starting at `p` (what a greedy `\d+` consumes). */
  function DigitRunEnd(s: string, p: nat): (q: nat)
    requires p <= |s|
    decreases |s| - p
    ensures p <= q <= |s|
  {
    if p < |s| && IsDigit(s[p]) then DigitRunEnd(s, p + 1) else p
  }

  /** End of the longest run of white space starting at `p` (what a greedy `\s*` consumes). */
  function SpaceRunEnd(s: string, p: nat): (q: nat)
    requires p <= |s|
    decreases |s| - p
    ensures p <= q <= |s|
  {
    if p < |s| && IsSpace(s[p]) then SpaceRunEnd(s, p + 1) else p
  }

  lemma {:induction false} DigitRunIsMaximal(s: string, p: nat)
    requires p <= |s|
    decreases |s| - p
    ensures forall k :: p <= k < DigitRunEnd(s, p) ==> IsDigit(s[k])
    ensures DigitRunEnd(s, p) == |s| || !IsDigit(s[DigitRunEnd(s, p)])
  {
    if p < |s| && IsDigit(s[p]) {
      DigitRunIsMaximal(s, p + 1);
    }
  }

  lemma {:induction false} SpaceRunIsMaximal(s: string, p: nat)
    requires p <= |s|
    decreases |s| - p
    ensures forall k :: p <= k < SpaceRunEnd(s, p) ==> IsSpace(s[k])
    ensures SpaceRunEnd(s, p) == |s| || !IsSpace(s[SpaceRunEnd(s, p)])
  {
    if p < |s| && IsSpace(s[p]) {
      SpaceRunIsMaximal(s, p + 1);
    }
  }

  /** `word` occurs at `r`, compared with ASCII case folding when `ignoreCase` (the `i` flag
      without `u` never folds a non-ASCII character onto an ASCII one). */
  predicate WordAt(s: string, r: nat, word: string, ignoreCase: bool) {
    r + |word| <= |s| &&
    if ignoreCase then ToLower(s[r..r + |word|]) == ToLower(word) else s[r..r + |word|] == word
  }

  /** The regular expression `(\d+)\s*WORD` tried at position `p`, giving the captured number.
      Backtracking cannot help: giving back a digit or a space leaves a digit or a space where
      the first letter of WORD must stand, so the greedy runs decide the match. */
  function NumberBeforeWordAt(s: string, p: nat, word: string, ignoreCase: bool): Option<nat> {
    if p < |s| && IsDigit(s[p]) then
      var q := DigitRunEnd(s, p);
      if WordAt(s, SpaceRunEnd(s, q), word, ignoreCase) then Some(DigitsValue(s[p..q])) else None
    else None
  }

  /** What `f` finds at the first position among from .. to-1 where it finds something. */
  function FirstSome<T>(f: nat -> Option<T>, from: nat, to: nat): Option<T>
    decreases to - from
  {
    if from >= to then None
    else match f(from)
      case Some(v) => Some(v)
      case None => FirstSome(f, from + 1, to)
  }

  /** `f` finds nothing at any position among lo .. hi-1. */
  predicate NoneIn<T>(f: nat -> Option<T>, lo: nat, hi: nat) {
    forall p :: lo <= p < hi ==> f(p).None?
  }

  /** `FirstSome` is the leftmost finding, and finds nothing only when nothing is there. */
  lemma {:induction false} FirstSomeIsLeftmost<T>(f: nat -> Option<T>, from: nat, to: nat)
    decreases to - from
    ensures FirstSome(f, from, to).None? <==> NoneIn(f, from, to)
    ensures FirstSome(f, from, to).Some? ==>
      exists p :: from <= p < to && NoneIn(f, from, p) && f(p) == FirstSome(f, from, to)
  {
    if from < to {
      FirstSomeIsLeftmost(f, from + 1, to);
      if f(from).None? {
        if FirstSome(f, from, to).Some? {
          var p :| from + 1 <= p < to && NoneIn(f, from + 1, p) && f(p) == FirstSome(f, from + 1, to);
          assert NoneIn(f, from, p);
        } else {
          assert NoneIn(f, from, to);
        }
      } else {
        assert NoneIn(f, from, from);
      }
    }
  }

  /** `s.match(/(\d+)\s*WORD/)` (or with the `i` flag), giving `parseInt` of the captured
      digits: the match is tried at each position from the left. */
  function MatchNumberBeforeWord(s: string, word: string, ignoreCase: bool): Option<nat> {
    FirstSome(TryAt(s, word, ignoreCase), 0, |s|)
  }

  /** The attempt of the expression at each position of `s`. */
  function TryAt(s: string, word: string, ignoreCase: bool): nat -> Option<nat> {
    p => NumberBeforeWordAt(s, p, word, ignoreCase)
  }
}
