/**
 * `chess-puzzle-website/src/pages/Dashboard.js`: the summary cards of the dashboard,
 * filled from `getUserStats` or, when that fails, from the sample puzzles, and the
 * helper that picks the favourite theme.
 */
module Dashboard {
  import opened Wrappers
  import JsArray
  import JsNumber
  import PuzzleService
  import Labels

  // ---------------------------------------------------------------------------
  // `reduce` over scored keys
  // ---------------------------------------------------------------------------

  /** `keys.reduce((best, k) => score(k) > score(best) ? k : best)`: the position of
      the first key with the highest score, since a tie keeps the running best. */
  function FirstBest(t: seq<(string, nat)>): (r: nat)
    requires |t| > 0
    ensures r < |t|
    ensures forall j :: 0 <= j < |t| ==> t[j].1 <= t[r].1
    ensures forall j :: 0 <= j < r ==> t[j].1 < t[r].1
    decreases |t|
  {
    if |t| == 1 then 0
    else
      var b := FirstBest(t[..|t| - 1]);
      if t[|t| - 1].1 > t[b].1 then |t| - 1 else b
  }

  /** `keys.reduce((a, b) => score(a) > score(b) ? a : b)`: the position of the last
      key with the highest score, since a tie goes to the newer key. */
  function LastBest(t: seq<(string, nat)>): (r: nat)
    requires |t| > 0
    ensures r < |t|
    ensures forall j :: 0 <= j < |t| ==> t[j].1 <= t[r].1
    ensures forall j :: r < j < |t| ==> t[j].1 < t[r].1
    decreases |t|
  {
    if |t| == 1 then 0
    else
      var b := LastBest(t[..|t| - 1]);
      if t[b].1 > t[|t| - 1].1 then b else |t| - 1
  }

  // ---------------------------------------------------------------------------
  // getMostCommonTheme
  // ---------------------------------------------------------------------------

  /** What `getMostCommonTheme` is handed: the `accuracyByTheme` object of the
      statistics (its entries in key order, each key once), or the array of solved
      sample puzzles of the fallback path. */
  datatype ThemeArg =
    | ThemeObject(entries: seq<(string, PuzzleService.Bucket)>)
    | PuzzleArray(puzzles: seq<PuzzleService.SitePuzzle>)

  const AttemptedScore: ((string, PuzzleService.Bucket)) -> (string, nat) :=
    (e: (string, PuzzleService.Bucket)) => (e.0, e.1.attempted)

  /** Each theme key with its `attempted` count. */
  function Scores(entries: seq<(string, PuzzleService.Bucket)>): seq<(string, nat)> {
    JsArray.Map(entries, AttemptedScore)
  }

  const PuzzleTheme: PuzzleService.SitePuzzle -> string := (p: PuzzleService.SitePuzzle) => p.theme

  /** The primary theme of each puzzle, in order. */
  function Themes(ps: seq<PuzzleService.SitePuzzle>): seq<string> {
    JsArray.Map(ps, PuzzleTheme)
  }

  /** The favourite theme, with the array branch doing what its count is for: the
      object's key with the most attempted puzzles (the first on ties), the
      array's most frequent theme (the latest counted on ties), and `'Fork'` for an
      empty object or array. */
  function FavoriteTheme(arg: ThemeArg): (r: string)
    ensures arg.ThemeObject? && arg.entries == [] ==> r == "Fork"
    ensures arg.PuzzleArray? && arg.puzzles == [] ==> r == "Fork"
  {
    match arg
    case ThemeObject(entries) =>
      if |entries| > 0 then entries[FirstBest(Scores(entries))].0 else "Fork"
    case PuzzleArray(ps) =>
      if |ps| == 0 then "Fork"
      else
        var count := JsArray.Tally(Themes(ps));
        JsArray.TallyFacts(Themes(ps));
        assert Themes(ps)[0] in JsArray.Keys(count);
        count[LastBest(count)].0
  }

  /** `getMostCommonTheme` as written. A non-empty array is an object with keys too,
      so it takes the first branch: its keys are the indices `"0"`, `"1"`, ..., and no
      puzzle has an `attempted` field, so every comparison `undefined > undefined` is
      false and the reduce keeps the first index. The counting branch is never
      reached. */
  function FavoriteThemeAsWritten(arg: ThemeArg): (r: string)
    ensures arg.ThemeObject? ==> r == FavoriteTheme(arg)
    ensures arg.PuzzleArray? && arg.puzzles == [] ==> r == "Fork"
  {
    match arg
    case ThemeObject(entries) =>
      if |entries| > 0 then entries[FirstBest(Scores(entries))].0 else "Fork"
    case PuzzleArray(ps) =>
      if |ps| > 0 then JsNumber.NatToString(0) else "Fork"
  }

  /** For the statistics object the favourite is a key whose attempted count no
      other key exceeds, and every key before it has strictly fewer. */
  lemma ObjectFavorite(entries: seq<(string, PuzzleService.Bucket)>)
    requires |entries| > 0
    ensures exists i :: TopEntry(entries, i) && FavoriteTheme(ThemeObject(entries)) == entries[i].0
  {
    var t := Scores(entries);
    var i := FirstBest(t);
    forall j | 0 <= j < |entries| ensures entries[j].1.attempted <= entries[i].1.attempted {
      assert t[j].1 <= t[i].1;
    }
    forall j | 0 <= j < i ensures entries[j].1.attempted < entries[i].1.attempted {
      assert t[j].1 < t[i].1;
    }
    assert TopEntry(entries, i);
  }

  /** Entry `i` has the most attempted puzzles, and is the first such entry. */
  predicate TopEntry(entries: seq<(string, PuzzleService.Bucket)>, i: int) {
    0 <= i < |entries|
    && (forall j :: 0 <= j < |entries| ==> entries[j].1.attempted <= entries[i].1.attempted)
    && (forall j :: 0 <= j < i ==> entries[j].1.attempted < entries[i].1.attempted)
  }

  /** For an array of puzzles the corrected favourite is the theme of one of them,
      and no theme occurs more often. */
  lemma ArrayFavorite(ps: seq<PuzzleService.SitePuzzle>)
    requires |ps| > 0
    ensures FavoriteTheme(PuzzleArray(ps)) in Themes(ps)
    ensures forall x :: JsArray.Occurrences(Themes(ps), x)
                         <= JsArray.Occurrences(Themes(ps), FavoriteTheme(PuzzleArray(ps)))
  {
    var themes := Themes(ps);
    var count := JsArray.Tally(themes);
    JsArray.TallyFacts(themes);
    assert themes[0] in JsArray.Keys(count);
    var i := LastBest(count);
    var r := count[i].0;
    assert FavoriteTheme(PuzzleArray(ps)) == r;
    assert JsArray.Keys(count)[i] == r;
    JsArray.CountOfAt(count, i);
    forall x ensures JsArray.Occurrences(themes, x) <= JsArray.Occurrences(themes, r) {
      if x in JsArray.Keys(count) {
        var j :| 0 <= j < |JsArray.Keys(count)| && JsArray.Keys(count)[j] == x;
        JsArray.CountOfAt(count, j);
      } else {
        JsArray.NotInKeysCount(count, x);
      }
    }
  }

  /** The count the array branch builds with `forEach`: each theme once, in the
      order first seen, with the number of puzzles that have it. */
  method CountThemes(ps: seq<PuzzleService.SitePuzzle>) returns (count: seq<(string, nat)>)
    ensures count == JsArray.Tally(Themes(ps))
  {
    count := [];
    var i := 0;
    while i < |ps|
      invariant 0 <= i <= |ps|
      invariant count == JsArray.Tally(Themes(ps[..i]))
    {
      ghost var before := Themes(ps[..i]);
      assert Themes(ps[..i + 1]) == before + [ps[i].theme];
      assert (before + [ps[i].theme])[..|before|] == before;
      count := JsArray.Bump(count, ps[i].theme);
      i := i + 1;
    }
    assert ps[..|ps|] == ps;
  }

  /** `getMostCommonTheme`, with the array counted as its second branch intends. */
  method MostCommonTheme(arg: ThemeArg) returns (theme: string)
    ensures theme == FavoriteTheme(arg)
  {
    match arg {
      case ThemeObject(entries) =>
        if |entries| > 0 {
          theme := entries[FirstBest(Scores(entries))].0;
        } else {
          theme := "Fork";
        }
      case PuzzleArray(ps) =>
        if |ps| == 0 {
          theme := "Fork";
        } else {
          var count := CountThemes(ps);
          JsArray.TallyFacts(Themes(ps));
          assert Themes(ps)[0] in JsArray.Keys(count);
          theme := count[LastBest(count)].0;
        }
    }
  }

  /** A sample whose only solved puzzle is a pin: as written the fallback card
      names the theme `"0"`, which is no theme of any puzzle, where the count would
      give `"Pin"`. */
  lemma ArrayBranchUnreachable()
    ensures FavoriteThemeAsWritten(PuzzleArray([PinPuzzle])) == "0"
    ensures "0" !in Themes([PinPuzzle])
    ensures FavoriteTheme(PuzzleArray([PinPuzzle])) == "Pin"
  {
    assert JsNumber.NatToString(0) == [JsNumber.DigitChar(0)];
    assert Themes([PinPuzzle]) == ["Pin"];
    JsArray.TallyFacts(Themes([PinPuzzle]));
    assert JsArray.Tally(["Pin"]) == JsArray.Bump([], "Pin");
  }

  const PinPuzzle: PuzzleService.SitePuzzle :=
    PuzzleService.SitePuzzle("p1", "", Labels.Easy, "Pin", ["Pin"], 1000, "", "", [], Labels.White,
                             true, 0, 0, "")

  // ---------------------------------------------------------------------------
  // The dashboard's state
  // ---------------------------------------------------------------------------

  /** `userStats` of the page. The last four are absent before the first load. */
  datatype DashboardStats = DashboardStats(
    puzzlesSolved: int, puzzlesCreated: int, currentRating: int, streak: int, totalTime: int,
    favoriteTheme: string, accuracy: Option<int>, accuracyFirstTry: Option<int>,
    hintsUsed: Option<int>, solutionsRevealed: Option<int>)

  const InitialStats: DashboardStats := DashboardStats(0, 0, 1200, 0, 0, "Fork", None, None, None, None)

  /** The cards from the statistics: the total time in whole minutes, rounded half
      up, and the favourite theme from `accuracyByTheme`. */
  function Loaded(s: PuzzleService.UserStats): (d: DashboardStats)
    ensures d.puzzlesSolved == s.solved && d.currentRating == s.estimatedRating && d.streak == s.currentStreak
    ensures 60 * d.totalTime - 30 <= s.totalTime < 60 * d.totalTime + 30
    ensures d.favoriteTheme == FavoriteTheme(ThemeObject(s.byTheme)) && d.puzzlesCreated == 3
    ensures d.accuracy == Some(s.accuracy) && d.accuracyFirstTry == Some(s.accuracyFirstTry)
    ensures d.hintsUsed == Some(s.hintsUsed) && d.solutionsRevealed == Some(s.solutionsRevealed)
  {
    DashboardStats(s.solved, 3, s.estimatedRating, s.currentStreak, JsNumber.RoundDiv(s.totalTime, 60),
                   FavoriteTheme(ThemeObject(s.byTheme)), Some(s.accuracy), Some(s.accuracyFirstTry),
                   Some(s.hintsUsed), Some(s.solutionsRevealed))
  }

  const PuzzleSolved: PuzzleService.SitePuzzle -> bool := (p: PuzzleService.SitePuzzle) => p.solved

  /** The cards when `getUserStats` fails: counted from the solved sample puzzles,
      25 rating points and two and a half minutes each (rounded half up), a streak
      of 5 and zero for the rest. */
  function Fallback(samples: seq<PuzzleService.SitePuzzle>): (d: DashboardStats)
    ensures var n := |JsArray.Filter(samples, PuzzleSolved)|;
      d.puzzlesSolved == n && d.currentRating == 1200 + 25 * n
      && 2 * d.totalTime - 1 <= 5 * n < 2 * d.totalTime + 1
    ensures d.streak == 5 && d.puzzlesCreated == 3
    ensures d.accuracy == Some(0) && d.accuracyFirstTry == Some(0)
    ensures d.hintsUsed == Some(0) && d.solutionsRevealed == Some(0)
    ensures d.favoriteTheme == FavoriteTheme(PuzzleArray(JsArray.Filter(samples, PuzzleSolved)))
  {
    var solved := JsArray.Filter(samples, PuzzleSolved);
    DashboardStats(|solved|, 3, 1200 + 25 * |solved|, 5, JsNumber.RoundDiv(5 * |solved|, 2),
                   FavoriteTheme(PuzzleArray(solved)), Some(0), Some(0), Some(0), Some(0))
  }

  /** The rating card of a loaded log lies between the starting 1200 and 50 points
      per solved puzzle above it, and the favourite is a theme key with the most
      attempts, or `'Fork'` before any theme was tried. */
  lemma LoadedFromLog(ps: seq<PuzzleService.SitePuzzle>, attempts: seq<PuzzleService.Attempt>,
                      streak: int, time: int, hints: int, revealed: int)
    ensures var s := PuzzleService.StatsOf(ps, attempts, streak, time, hints, revealed);
      1200 <= Loaded(s).currentRating <= 1200 + 50 * Loaded(s).puzzlesSolved
    ensures var s := PuzzleService.StatsOf(ps, attempts, streak, time, hints, revealed);
      s.byTheme == [] ==> Loaded(s).favoriteTheme == "Fork"
    ensures var s := PuzzleService.StatsOf(ps, attempts, streak, time, hints, revealed);
      s.byTheme != [] ==> exists i :: TopEntry(s.byTheme, i) && Loaded(s).favoriteTheme == s.byTheme[i].0
  {
    PuzzleService.StatsFacts(ps, attempts, streak, time, hints, revealed);
    var s := PuzzleService.StatsOf(ps, attempts, streak, time, hints, revealed);
    if s.byTheme != [] {
      ObjectFavorite(s.byTheme);
    }
  }

  /** The dashboard page: its cards and the recently added puzzles. */
  class DashboardPage {
    var userStats: DashboardStats
    var recentPuzzles: seq<PuzzleService.SitePuzzle>

    constructor()
      ensures userStats == InitialStats && recentPuzzles == []
    {
      userStats := InitialStats;
      recentPuzzles := [];
    }

    /** The mount effect: `loadUserStats` with the statistics, or `None` when
        `getUserStats` throws, and the first four sample puzzles. */
    method LoadUserStats(result: Option<PuzzleService.UserStats>, samples: seq<PuzzleService.SitePuzzle>)
      modifies this
      ensures userStats == if result.Some? then Loaded(result.value) else Fallback(samples)
      ensures recentPuzzles == JsArray.Slice(samples, 0, 4)
      ensures |recentPuzzles| == if |samples| < 4 then |samples| else 4
    {
      match result {
        case Some(s) => userStats := Loaded(s);
        case None => userStats := Fallback(samples);
      }
      recentPuzzles := JsArray.Slice(samples, 0, 4);
    }
  }
}
