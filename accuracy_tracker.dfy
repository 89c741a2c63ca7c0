/**
 * `src/components/AccuracyTracker.js`: the statistics page. Modelled here are the
 * ranking of the theme cards, the width of their bars and the rules that choose
 * the improvement suggestions.
 */
module AccuracyTracker {
  import JsArray
  import opened Labels
  import PuzzleService

  // ---------------------------------------------------------------------------
  // Theme ranking: `.sort(([,a], [,b]) => b.attempted - a.attempted).slice(0, 8)`
  // ---------------------------------------------------------------------------

  /** Keys never increase from left to right. */
  ghost predicate Descending<T>(s: seq<T>, key: T -> int) {
    forall i, j :: 0 <= i < j < |s| ==> key(s[i]) >= key(s[j])
  }

  /** `x => key(x) === v`. */
  function KeyIs<T>(key: T -> int, v: int): T -> bool {
    (x: T) => key(x) == v
  }

  /** Puts `x` into a descending sequence after every element whose key is at least
      its own. */
  function InsertDesc<T>(s: seq<T>, x: T, key: T -> int): (r: seq<T>)
    ensures |r| == |s| + 1
    decreases |s|
  {
    if s == [] || key(s[|s| - 1]) >= key(x) then s + [x]
    else InsertDesc(s[..|s| - 1], x, key) + [s[|s| - 1]]
  }

  /** A stable sort by descending key, as `Array.prototype.sort` with the comparator
      `b.attempted - a.attempted` does it: equal keys keep their order. */
  function SortDesc<T>(s: seq<T>, key: T -> int): (r: seq<T>)
    ensures |r| == |s|
    decreases |s|
  {
    if s == [] then [] else InsertDesc(SortDesc(s[..|s| - 1], key), s[|s| - 1], key)
  }

  lemma {:induction false} InsertDescFacts<T>(s: seq<T>, x: T, key: T -> int)
    requires Descending(s, key)
    ensures Descending(InsertDesc(s, x, key), key)
    ensures multiset(InsertDesc(s, x, key)) == multiset(s) + multiset{x}
    decreases |s|
  {
    InsertDescElems(s, x, key);
    if s != [] && key(s[|s| - 1]) < key(x) {
      var init := s[..|s| - 1];
      var last := s[|s| - 1];
      assert Descending(init, key);
      InsertDescFacts(init, x, key);
      var t := InsertDesc(init, x, key);
      forall i | 0 <= i < |t| ensures key(t[i]) >= key(last) {
        InDescending(init, last, key, t[i], x);
      }
    }
  }

  /** Inserting adds the one element. */
  lemma {:induction false} InsertDescElems<T>(s: seq<T>, x: T, key: T -> int)
    ensures multiset(InsertDesc(s, x, key)) == multiset(s) + multiset{x}
    decreases |s|
  {
    if s != [] && key(s[|s| - 1]) < key(x) {
      var init := s[..|s| - 1];
      assert s == init + [s[|s| - 1]];
      InsertDescElems(init, x, key);
    }
  }

  /** An element drawn from `init` or `x` ranks at least as high as `last`. */
  lemma InDescending<T>(init: seq<T>, last: T, key: T -> int, y: T, x: T)
    requires Descending(init + [last], key) && key(last) < key(x)
    requires y in multiset(init) + multiset{x}
    ensures key(y) >= key(last)
  {
    if y != x {
      var j :| 0 <= j < |init| && init[j] == y;
      assert (init + [last])[j] == y && (init + [last])[|init|] == last;
    }
  }

  /** Inserting keeps the order among the elements of each key. */
  lemma {:induction false} InsertDescStable<T(!new)>(s: seq<T>, x: T, key: T -> int, v: int)
    ensures JsArray.Filter(InsertDesc(s, x, key), KeyIs(key, v))
      == JsArray.Filter(s, KeyIs(key, v)) + (if key(x) == v then [x] else [])
    decreases |s|
  {
    if s == [] || key(s[|s| - 1]) >= key(x) {
      JsArray.FilterSnoc(s, x, KeyIs(key, v));
    } else {
      var init := s[..|s| - 1];
      var last := s[|s| - 1];
      assert s == init + [last];
      var k := KeyIs(key, v);
      var t := InsertDesc(init, x, key);
      var xs: seq<T> := if key(x) == v then [x] else [];
      var ls: seq<T> := if key(last) == v then [last] else [];
      InsertDescStable(init, x, key, v);
      JsArray.FilterSnoc(t, last, k);
      JsArray.FilterSnoc(init, last, k);
      assert InsertDesc(s, x, key) == t + [last];
      assert xs == [] || ls == [];
      SwapSingles(JsArray.Filter(init, k), xs, ls);
    }
  }

  /** Two pieces of which at most one is non-empty can be appended in either order. */
  lemma SwapSingles<T>(a: seq<T>, xs: seq<T>, ls: seq<T>)
    requires xs == [] || ls == []
    ensures (a + xs) + ls == (a + ls) + xs
  {
    if xs == [] {
      assert a + xs == a && (a + ls) + xs == a + ls;
    } else {
      assert a + ls == a && (a + xs) + ls == a + xs;
    }
  }

  /** The sort orders by descending key and only reorders. */
  lemma {:induction false} SortDescFacts<T>(s: seq<T>, key: T -> int)
    ensures Descending(SortDesc(s, key), key)
    ensures multiset(SortDesc(s, key)) == multiset(s)
    decreases |s|
  {
    if s != [] {
      var init := s[..|s| - 1];
      assert s == init + [s[|s| - 1]];
      SortDescFacts(init, key);
      InsertDescFacts(SortDesc(init, key), s[|s| - 1], key);
    }
  }

  /** The sort is stable: the elements of any one key come out in their input order. */
  lemma {:induction false} SortDescStable<T(!new)>(s: seq<T>, key: T -> int, v: int)
    ensures JsArray.Filter(SortDesc(s, key), KeyIs(key, v)) == JsArray.Filter(s, KeyIs(key, v))
    decreases |s|
  {
    if s != [] {
      var init := s[..|s| - 1];
      assert s == init + [s[|s| - 1]];
      SortDescStable(init, key, v);
      InsertDescStable(SortDesc(init, key), s[|s| - 1], key, v);
      JsArray.FilterSnoc(init, s[|s| - 1], KeyIs(key, v));
    }
  }

  const Attempted: ((string, PuzzleService.Bucket)) -> int := (e: (string, PuzzleService.Bucket)) => e.1.attempted as int

  /** The theme cards shown: the entries of `accuracyByTheme` ranked by attempted
      puzzles, at most eight. */
  function ThemeCards(byTheme: seq<(string, PuzzleService.Bucket)>): (r: seq<(string, PuzzleService.Bucket)>)
    ensures |r| <= 8 && |r| <= |byTheme|
  {
    JsArray.Slice(SortDesc(byTheme, Attempted), 0, 8)
  }

  /** At most eight cards, most attempted first, each one a theme entry, all of them
      when there are eight or fewer, and no entry left out that was attempted more
      than a card shown. */
  lemma ThemeCardsFacts(byTheme: seq<(string, PuzzleService.Bucket)>)
    ensures var c := ThemeCards(byTheme);
      |c| == (if |byTheme| < 8 then |byTheme| else 8)
      && (forall i, j :: 0 <= i < j < |c| ==> c[i].1.attempted >= c[j].1.attempted)
      && (forall e :: e in c ==> e in byTheme)
      && (|byTheme| <= 8 ==> multiset(c) == multiset(byTheme))
      && (forall e, k :: e in multiset(byTheme) - multiset(c) && 0 <= k < |c| ==> e.1.attempted <= c[k].1.attempted)
  {
    var sorted := SortDesc(byTheme, Attempted);
    SortDescFacts(byTheme, Attempted);
    var c := ThemeCards(byTheme);
    var n := if |byTheme| < 8 then |byTheme| else 8;
    assert c == sorted[..n];
    forall e | e in c ensures e in byTheme {
      assert e in multiset(sorted);
    }
    forall i, j | 0 <= i < j < |c| ensures c[i].1.attempted >= c[j].1.attempted {
      assert Attempted(sorted[i]) >= Attempted(sorted[j]);
    }
    if |byTheme| <= 8 {
      assert c == sorted;
    }
    LeftOutRankLower(byTheme, sorted, n);
  }

  /** Cutting a descending ranking after `n` entries leaves out nothing ranked above
      an entry kept. */
  lemma LeftOutRankLower(byTheme: seq<(string, PuzzleService.Bucket)>, sorted: seq<(string, PuzzleService.Bucket)>, n: nat)
    requires n <= |sorted| && multiset(sorted) == multiset(byTheme) && Descending(sorted, Attempted)
    ensures forall e, k :: e in multiset(byTheme) - multiset(sorted[..n]) && 0 <= k < n ==>
      e.1.attempted <= sorted[..n][k].1.attempted
  {
    var kept := sorted[..n];
    var rest := sorted[n..];
    CutMultiset(sorted, n);
    RestRanksLower(sorted, Attempted, n);
    forall e, k | e in multiset(byTheme) - multiset(kept) && 0 <= k < n
      ensures e.1.attempted <= kept[k].1.attempted
    {
      assert e in rest;
      assert Attempted(e) <= Attempted(sorted[k]);
    }
  }

  /** What a cut after `n` entries leaves out is the rest of the sequence. */
  lemma CutMultiset<T>(s: seq<T>, n: nat)
    requires n <= |s|
    ensures multiset(s) - multiset(s[..n]) == multiset(s[n..])
  {
    assert s == s[..n] + s[n..];
  }

  /** In a descending sequence every entry after position `n` ranks no higher than
      any entry before it. */
  lemma RestRanksLower<T>(s: seq<T>, key: T -> int, n: nat)
    requires n <= |s| && Descending(s, key)
    ensures forall e, k :: e in s[n..] && 0 <= k < n ==> key(e) <= key(s[k])
  {
    forall e, k | e in s[n..] && 0 <= k < n ensures key(e) <= key(s[k]) {
      var m :| 0 <= m < |s[n..]| && s[n..][m] == e;
      assert s[n + m] == e;
    }
  }

  /** `Math.min(data.accuracy, 100)`, the bar width in percent. */
  function BarWidth(accuracy: int): (w: int)
    ensures w <= 100 && (w == accuracy <==> accuracy <= 100)
  {
    if accuracy < 100 then accuracy else 100
  }

  /** The accuracies `getUserStats` computes never exceed 100, so every bar is as wide
      as its percentage says. */
  lemma BarsShowAccuracy(ps: seq<PuzzleService.SitePuzzle>, attempts: seq<PuzzleService.Attempt>, i: nat)
    requires i < |PuzzleService.StatsOf(ps, attempts, 0, 0, 0, 0).byTheme|
    ensures var e := PuzzleService.StatsOf(ps, attempts, 0, 0, 0, 0).byTheme[i];
      BarWidth(e.1.accuracy) == e.1.accuracy
  {
  }

  // ---------------------------------------------------------------------------
  // Improvement suggestions
  // ---------------------------------------------------------------------------

  datatype Suggestion = FocusOnAccuracy | ReduceHintUsage | BuildAStreak | ImproveSpeed
                      | PracticeFundamentals | ExcellentPerformance

  /** `Object.values(stats.accuracyByDifficulty).some(d => d.accuracy < 50)`. */
  predicate SomeLevelBelow50(s: PuzzleService.UserStats) {
    exists l: Level :: PuzzleService.ByLevel(s, l).accuracy < 50
  }

  lemma SomeLevelBelow50Iff(s: PuzzleService.UserStats)
    ensures SomeLevelBelow50(s) <==> s.easy.accuracy < 50 || s.medium.accuracy < 50 || s.hard.accuracy < 50
  {
    if s.easy.accuracy < 50 { assert PuzzleService.ByLevel(s, Easy).accuracy < 50; }
    if s.medium.accuracy < 50 { assert PuzzleService.ByLevel(s, Medium).accuracy < 50; }
    if s.hard.accuracy < 50 { assert PuzzleService.ByLevel(s, Hard).accuracy < 50; }
  }

  /** The condition under which the page shows card `c`. The hint rule
      `hintsUsed > solved * 0.5` is stated on integers; `HintRuleExact` shows the
      two agree. */
  predicate Shown(s: PuzzleService.UserStats, c: Suggestion) {
    match c
    case FocusOnAccuracy => s.accuracy < 70
    case ReduceHintUsage => 2 * s.hintsUsed > s.solved
    case BuildAStreak => s.currentStreak == 0 && s.attempted > 0
    case ImproveSpeed => s.averageTime > 180
    case PracticeFundamentals => SomeLevelBelow50(s)
    case ExcellentPerformance => s.accuracy >= 80 && s.currentStreak >= 5
  }

  function ShownFor(s: PuzzleService.UserStats): Suggestion -> bool {
    (c: Suggestion) => Shown(s, c)
  }

  /** The cards in page order. */
  const AllCards: seq<Suggestion> :=
    [FocusOnAccuracy, ReduceHintUsage, BuildAStreak, ImproveSpeed, PracticeFundamentals, ExcellentPerformance]

  lemma InAllCards(c: Suggestion)
    ensures c in AllCards
  {
    match c
    case FocusOnAccuracy => assert AllCards[0] == c;
    case ReduceHintUsage => assert AllCards[1] == c;
    case BuildAStreak => assert AllCards[2] == c;
    case ImproveSpeed => assert AllCards[3] == c;
    case PracticeFundamentals => assert AllCards[4] == c;
    case ExcellentPerformance => assert AllCards[5] == c;
  }

  /** The suggestion cards shown, in page order. */
  function Suggestions(s: PuzzleService.UserStats): (r: seq<Suggestion>)
    ensures |r| <= |AllCards|
    ensures forall c :: c in r ==> c in AllCards && ShownFor(s)(c)
  {
    JsArray.Filter(AllCards, ShownFor(s))
  }

  /** A card is in the list exactly when its condition holds, and the list keeps
      the page order of the cards. */
  lemma SuggestionRules(s: PuzzleService.UserStats)
    ensures forall c :: c in Suggestions(s) <==> Shown(s, c)
    ensures JsArray.IsSubsequence(Suggestions(s), AllCards)
  {
    forall c ensures c in Suggestions(s) <==> Shown(s, c) {
      InAllCards(c);
    }
  }

  /** The hint card's integer condition is the source's comparison with half the
      solved count, taken in exact arithmetic. */
  lemma HintRuleExact(s: PuzzleService.UserStats)
    ensures Shown(s, ReduceHintUsage) <==> s.hintsUsed as real > s.solved as real * 0.5
  {
  }

  /** The fundamentals card is shown when some difficulty is below 50 percent. */
  lemma FundamentalsRule(s: PuzzleService.UserStats)
    ensures PracticeFundamentals in Suggestions(s) <==>
      s.easy.accuracy < 50 || s.medium.accuracy < 50 || s.hard.accuracy < 50
  {
    SuggestionRules(s);
    SomeLevelBelow50Iff(s);
  }

  /** The praise never comes with the accuracy warning. */
  lemma NoPraiseWithWarning(s: PuzzleService.UserStats)
    ensures !(FocusOnAccuracy in Suggestions(s) && ExcellentPerformance in Suggestions(s))
  {
    SuggestionRules(s);
  }

  /** A difficulty with no attempts has accuracy 0, so until every difficulty has
      been tried the fundamentals card is always shown. */
  lemma UntriedLevelShowsFundamentals(ps: seq<PuzzleService.SitePuzzle>, attempts: seq<PuzzleService.Attempt>,
                                      streak: int, time: int, hints: int, revealed: int, l: Level)
    requires PuzzleService.ByLevel(PuzzleService.StatsOf(ps, attempts, streak, time, hints, revealed), l).attempted == 0
    ensures PracticeFundamentals in Suggestions(PuzzleService.StatsOf(ps, attempts, streak, time, hints, revealed))
  {
    PuzzleService.UntriedLevelScoresZero(ps, attempts, streak, time, hints, revealed, l);
    FundamentalsRule(PuzzleService.StatsOf(ps, attempts, streak, time, hints, revealed));
    var s := PuzzleService.StatsOf(ps, attempts, streak, time, hints, revealed);
    assert s.easy.accuracy < 50 || s.medium.accuracy < 50 || s.hard.accuracy < 50 by {
      match l
      case Easy => assert s.easy == PuzzleService.ByLevel(s, l);
      case Medium => assert s.medium == PuzzleService.ByLevel(s, l);
      case Hard => assert s.hard == PuzzleService.ByLevel(s, l);
    }
  }
}
