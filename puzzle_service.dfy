/**
 * `chess-puzzle-website/src/services/puzzleService.js`: the site's puzzle list made
 * from the imported Lichess data, the filtered and paginated queries over it, and
 * the attempt log with the statistics derived from it.
 */
module PuzzleService {
  import opened Wrappers
  import opened JsString
  import JsNumber
  import JsArray
  import opened Labels

  // ---------------------------------------------------------------------------
  // The puzzle list
  // ---------------------------------------------------------------------------

  /** A puzzle of the imported data file. */
  datatype DataPuzzle = DataPuzzle(
    id: string, fen: string, difficulty: string, themes: seq<string>, rating: int,
    moves: seq<string>, popularity: int, nbPlays: int, gameUrl: string)

  /** A puzzle as the site shows it. */
  datatype SitePuzzle = SitePuzzle(
    id: string, fen: string, difficulty: Level, theme: string, themes: seq<string>,
    rating: int, description: string, hint: string, solution: seq<string>,
    orientation: Side, solved: bool, popularity: int, nbPlays: int, gameUrl: string)

  /** `mapDifficulty`: the streaming processor's four labels onto the site's three;
      any other label is Medium. */
  function MapDifficulty(d: string): (l: Level)
    ensures l == Easy <==> d == "beginner"
    ensures l == Hard <==> d == "advanced" || d == "expert"
    ensures l == Medium <==> d != "beginner" && d != "advanced" && d != "expert"
  {
    if d == "beginner" then Easy
    else if d == "intermediate" then Medium
    else if d == "advanced" || d == "expert" then Hard
    else Medium
  }

  /** `${puzzle.themes[0]}`: a missing first theme prints as `undefined`. */
  function FirstThemeText(themes: seq<string>): string {
    if themes == [] then "undefined" else themes[0]
  }

  /** One entry of `samplePuzzles`: the record's id, FEN, themes, rating and moves
      carried over, unsolved. */
  function ToSite(p: DataPuzzle): (r: SitePuzzle)
    ensures r.id == p.id && r.fen == p.fen && r.themes == p.themes && r.rating == p.rating
    ensures r.solution == p.moves && !r.solved
  {
    SitePuzzle(
      id := p.id,
      fen := p.fen,
      difficulty := MapDifficulty(p.difficulty),
      theme := if p.themes != [] && p.themes[0] != "" then p.themes[0] else "puzzle",
      themes := p.themes,
      rating := p.rating,
      description := Join(p.themes, ", ") + " puzzle (Rating: " + JsNumber.IntToString(p.rating) + ")",
      hint := "This is a " + FirstThemeText(p.themes) + " puzzle. Look for tactical opportunities.",
      solution := p.moves,
      orientation := if Contains(p.fen, " w ") then White else Black,
      solved := false,
      popularity := p.popularity,
      nbPlays := p.nbPlays,
      gameUrl := p.gameUrl)
  }

  /** `samplePuzzles`: one site puzzle per imported one, in order. */
  function SamplePuzzles(data: seq<DataPuzzle>): (r: seq<SitePuzzle>)
    ensures |r| == |data|
  {
    JsArray.Map(data, ToSite)
  }

  /** What a site puzzle keeps of its data: the moves as the solution, the first
      theme as the primary one unless it is missing or empty (then `puzzle`), white
      to play exactly when the FEN holds `" w "`, and not yet solved. */
  lemma SamplePuzzleFacts(data: seq<DataPuzzle>, i: nat)
    requires i < |data|
    ensures var s := SamplePuzzles(data)[i];
      s.id == data[i].id && s.fen == data[i].fen && s.themes == data[i].themes
      && s.rating == data[i].rating && s.solution == data[i].moves && !s.solved
      && s.difficulty == MapDifficulty(data[i].difficulty)
      && (s.theme == "puzzle" || (data[i].themes != [] && s.theme == data[i].themes[0]))
      && (data[i].themes != [] && data[i].themes[0] != "" ==> s.theme == data[i].themes[0])
      && (s.orientation == White <==> Contains(data[i].fen, " w "))
  {
  }

  const ThemesOf: DataPuzzle -> seq<string> := (p: DataPuzzle) => p.themes

  /** The `themes` export: `[...new Set(flatMap(p => p.themes))].sort()`. */
  function Themes(data: seq<DataPuzzle>): seq<string> {
    JsArray.SortedDistinct(JsArray.Flatten(JsArray.Map(data, ThemesOf)))
  }

  /** The theme list is sorted without repeats and holds exactly the themes some
      puzzle lists. */
  lemma ThemesFacts(data: seq<DataPuzzle>)
    ensures JsArray.StrictlySorted(Themes(data)) && JsArray.NoDuplicates(Themes(data))
    ensures forall t :: t in Themes(data) <==> exists i :: 0 <= i < |data| && t in data[i].themes
  {
    JsArray.StrictlySortedPairwise(Themes(data));
    var lists := JsArray.Map(data, ThemesOf);
    forall t ensures t in JsArray.Flatten(lists) <==> exists i :: 0 <= i < |data| && t in data[i].themes {
      if exists i :: 0 <= i < |data| && t in data[i].themes {
        var i :| 0 <= i < |data| && t in data[i].themes;
        assert t in lists[i];
      }
    }
  }

  /** The `difficulties` export. */
  const Difficulties: seq<Level> := [Easy, Medium, Hard]

  /** The position of the first puzzle with this id: `find(p => p.id === id)`. */
  function FindIndex(ps: seq<SitePuzzle>, id: string): (r: Option<nat>)
    ensures r.None? <==> forall j :: 0 <= j < |ps| ==> ps[j].id != id
    ensures r.Some? ==>
      r.value < |ps| && ps[r.value].id == id && forall j :: 0 <= j < r.value ==> ps[j].id != id
    decreases |ps|
  {
    if ps == [] then None
    else if ps[0].id == id then Some(0)
    else match FindIndex(ps[1..], id)
      case None => None
      case Some(k) => Some(k + 1)
  }

  /** `fetchPuzzleById(id)`: the first puzzle with that id, if any. */
  function PuzzleOf(ps: seq<SitePuzzle>, id: string): (r: Option<SitePuzzle>)
    ensures r.None? <==> forall j :: 0 <= j < |ps| ==> ps[j].id != id
    ensures r.Some? ==> r.value in ps && r.value.id == id
  {
    match FindIndex(ps, id)
    case None => None
    case Some(i) => Some(ps[i])
  }

  // ---------------------------------------------------------------------------
  // Filters and pages (`fetchPuzzles`, `getPuzzleCount`)
  // ---------------------------------------------------------------------------

  /** The `filters` argument; a missing key is None, `rating` is `[min, max]`. */
  datatype Filters = Filters(difficulty: Option<string>, theme: Option<string>, rating: Option<(int, int)>)

  /** `filters.x && filters.x !== 'all'`: a missing or empty value, or `all`, sets no
      filter. */
  predicate Active(o: Option<string>) {
    o.Some? && o.value != "" && o.value != "all"
  }

  /** `p => p.difficulty === d`. */
  function HasDifficulty(d: string): SitePuzzle -> bool {
    (p: SitePuzzle) => LevelName(p.difficulty) == d
  }

  /** `p => p.theme === t || p.themes.includes(t)`. */
  function HasTheme(t: string): SitePuzzle -> bool {
    (p: SitePuzzle) => p.theme == t || t in p.themes
  }

  /** `p => p.rating >= min && p.rating <= max`. */
  function InRange(min: int, max: int): SitePuzzle -> bool {
    (p: SitePuzzle) => min <= p.rating <= max
  }

  function ByDifficulty(ps: seq<SitePuzzle>, f: Filters): seq<SitePuzzle> {
    if Active(f.difficulty) then JsArray.Filter(ps, HasDifficulty(f.difficulty.value)) else ps
  }

  function ByTheme(ps: seq<SitePuzzle>, f: Filters): seq<SitePuzzle> {
    if Active(f.theme) then JsArray.Filter(ps, HasTheme(f.theme.value)) else ps
  }

  function ByRating(ps: seq<SitePuzzle>, f: Filters): seq<SitePuzzle> {
    if f.rating.Some? then JsArray.Filter(ps, InRange(f.rating.value.0, f.rating.value.1)) else ps
  }

  /** The three filter steps both queries apply, in the source's order. */
  function Filtered(ps: seq<SitePuzzle>, f: Filters): seq<SitePuzzle> {
    ByRating(ByTheme(ByDifficulty(ps, f), f), f)
  }

  predicate DifficultyTest(f: Filters, p: SitePuzzle) {
    Active(f.difficulty) ==> LevelName(p.difficulty) == f.difficulty.value
  }

  predicate ThemeTest(f: Filters, p: SitePuzzle) {
    Active(f.theme) ==> p.theme == f.theme.value || f.theme.value in p.themes
  }

  predicate RatingTest(f: Filters, p: SitePuzzle) {
    f.rating.Some? ==> f.rating.value.0 <= p.rating <= f.rating.value.1
  }

  /** A puzzle passes the filters: its difficulty is the chosen one, the chosen theme
      is its primary theme or one of its themes, and its rating is within the
      inclusive range; a filter that is not set lets everything through. */
  predicate Matches(f: Filters, p: SitePuzzle) {
    DifficultyTest(f, p) && ThemeTest(f, p) && RatingTest(f, p)
  }

  function DifficultyStep(f: Filters): SitePuzzle -> bool {
    (p: SitePuzzle) => DifficultyTest(f, p)
  }

  function ThemeStep(f: Filters): SitePuzzle -> bool {
    (p: SitePuzzle) => ThemeTest(f, p)
  }

  function RatingStep(f: Filters): SitePuzzle -> bool {
    (p: SitePuzzle) => RatingTest(f, p)
  }

  function Matching(f: Filters): SitePuzzle -> bool {
    (p: SitePuzzle) => Matches(f, p)
  }

  lemma ByDifficultyIsFilter(ps: seq<SitePuzzle>, f: Filters)
    ensures ByDifficulty(ps, f) == JsArray.Filter(ps, DifficultyStep(f))
  {
    if Active(f.difficulty) {
      JsArray.FilterSame(ps, HasDifficulty(f.difficulty.value), DifficultyStep(f));
    } else {
      JsArray.FilterAll(ps, DifficultyStep(f));
    }
  }

  lemma ByThemeIsFilter(ps: seq<SitePuzzle>, f: Filters)
    ensures ByTheme(ps, f) == JsArray.Filter(ps, ThemeStep(f))
  {
    if Active(f.theme) {
      JsArray.FilterSame(ps, HasTheme(f.theme.value), ThemeStep(f));
    } else {
      JsArray.FilterAll(ps, ThemeStep(f));
    }
  }

  lemma ByRatingIsFilter(ps: seq<SitePuzzle>, f: Filters)
    ensures ByRating(ps, f) == JsArray.Filter(ps, RatingStep(f))
  {
    if f.rating.Some? {
      JsArray.FilterSame(ps, InRange(f.rating.value.0, f.rating.value.1), RatingStep(f));
    } else {
      JsArray.FilterAll(ps, RatingStep(f));
    }
  }

  /** The three steps are one filter by `Matches`: the result is the matching
      puzzles, in their order, each as often as it occurs. */
  lemma FilteredIsMatches(ps: seq<SitePuzzle>, f: Filters)
    ensures Filtered(ps, f) == JsArray.Filter(ps, Matching(f))
    ensures JsArray.IsSubsequence(Filtered(ps, f), ps)
    ensures forall p :: p in Filtered(ps, f) <==> p in ps && Matches(f, p)
  {
    ByDifficultyIsFilter(ps, f);
    ByThemeIsFilter(ByDifficulty(ps, f), f);
    ByRatingIsFilter(ByTheme(ByDifficulty(ps, f), f), f);
    JsArray.FilterThree(ps, DifficultyStep(f), ThemeStep(f), RatingStep(f), Matching(f));
  }

  /** `Math.ceil(n / d)` for a positive page size. */
  function CeilDiv(n: nat, d: int): (r: nat)
    requires d > 0
    ensures forall k: int {:trigger k * d} :: k < r <==> k * d < n
  {
    var r := (n + d - 1) / d;
    CeilDivBounds(n, d, r);
    r
  }

  /** The quotient rounded up is the least count of `d`-sized pages holding `n`. */
  lemma CeilDivBounds(n: nat, d: int, r: int)
    requires d > 0 && r == (n + d - 1) / d
    ensures forall k: int {:trigger k * d} :: k < r <==> k * d < n
  {
    assert d * r <= n + d - 1 < d * r + d;
    forall k: int ensures k < r <==> k * d < n {
      if k < r {
        MulLess(d, k, r);
      } else if k > r {
        MulLess(d, r, k);
      }
    }
  }

  datatype Pagination = Pagination(
    currentPage: int, pageSize: int, totalItems: nat, totalPages: nat,
    hasNextPage: bool, hasPreviousPage: bool)

  datatype PuzzlePage = PuzzlePage(puzzles: seq<SitePuzzle>, pagination: Pagination)

  /** `fetchPuzzles(filters, page, pageSize)` over the current puzzle list. */
  function FetchPuzzles(ps: seq<SitePuzzle>, f: Filters, page: int, pageSize: int): (r: PuzzlePage)
    requires pageSize > 0
    ensures |r.puzzles| <= pageSize && forall p :: p in r.puzzles ==> p in ps
    ensures r.pagination.hasPreviousPage <==> page >= 2
  {
    var filtered := Filtered(ps, f);
    var total := |filtered|;
    var totalPages := CeilDiv(total, pageSize);
    var start := (page - 1) * pageSize;
    PuzzlePage(
      JsArray.Slice(filtered, start, start + pageSize),
      Pagination(page, pageSize, total, totalPages, page < totalPages, page > 1))
  }

  /** The items of page `page` (counting from 1) among the filtered ones. */
  function PageWindow(filtered: seq<SitePuzzle>, page: int, pageSize: int): seq<SitePuzzle>
    requires page >= 1 && pageSize > 0
  {
    var start := (page - 1) * pageSize;
    var a := if start < |filtered| then start else |filtered|;
    var b := if start + pageSize < |filtered| then start + pageSize else |filtered|;
    filtered[a..b]
  }

  /** For a page number from 1 on, the slice `fetchPuzzles` takes is the window of
      that page. */
  lemma SliceIsWindow(filtered: seq<SitePuzzle>, page: int, pageSize: int)
    requires page >= 1 && pageSize > 0
    ensures JsArray.Slice(filtered, (page - 1) * pageSize, (page - 1) * pageSize + pageSize)
      == PageWindow(filtered, page, pageSize)
  {
    assert (page - 1) * pageSize >= 0 * pageSize;
  }

  /** A page holds at most `pageSize` matching puzzles: for a page number from 1 on,
      exactly the filtered items from `(page-1)*pageSize` up to `page*pageSize`.
      There are as many pages as it takes to hold all filtered items. */
  lemma FetchFacts(ps: seq<SitePuzzle>, f: Filters, page: int, pageSize: int)
    requires pageSize > 0
    ensures FetchPuzzles(ps, f, page, pageSize).pagination.totalItems == |Filtered(ps, f)|
    ensures |FetchPuzzles(ps, f, page, pageSize).puzzles| <= pageSize
    ensures forall p :: p in FetchPuzzles(ps, f, page, pageSize).puzzles ==> p in ps && Matches(f, p)
    ensures page >= 1 ==> FetchPuzzles(ps, f, page, pageSize).puzzles == PageWindow(Filtered(ps, f), page, pageSize)
    ensures var n := FetchPuzzles(ps, f, page, pageSize).pagination.totalPages;
      (n - 1) * pageSize < |Filtered(ps, f)| <= n * pageSize
  {
    FilteredIsMatches(ps, f);
    if page >= 1 {
      SliceIsWindow(Filtered(ps, f), page, pageSize);
    }
    var n := CeilDiv(|Filtered(ps, f)|, pageSize);
    assert (n - 1) * pageSize < |Filtered(ps, f)|;
    assert !(n * pageSize < |Filtered(ps, f)|);
  }

  /** `hasNextPage` holds exactly when the following page is not empty, and
      `hasPreviousPage` exactly when the page is past the first. */
  lemma NextPageFacts(ps: seq<SitePuzzle>, f: Filters, page: int, pageSize: int)
    requires pageSize > 0 && page >= 1
    ensures FetchPuzzles(ps, f, page, pageSize).pagination.hasNextPage
      <==> FetchPuzzles(ps, f, page + 1, pageSize).puzzles != []
    ensures FetchPuzzles(ps, f, page, pageSize).pagination.hasPreviousPage <==> page >= 2
  {
    var filtered := Filtered(ps, f);
    var n := CeilDiv(|filtered|, pageSize);
    assert page < n <==> page * pageSize < |filtered|;
    var start := page * pageSize;
    assert start >= 0 by {
      assert page * pageSize >= 0 * pageSize;
    }
    assert (page + 1 - 1) * pageSize == start;
  }

  datatype PuzzleCount = PuzzleCount(total: nat, solved: nat)

  /** `getPuzzleCount(filters)`: the puzzles left by the filters, and the solved ones
      among them. */
  function GetPuzzleCount(ps: seq<SitePuzzle>, f: Filters): (r: PuzzleCount)
    ensures r.total == |Filtered(ps, f)| && r.solved <= r.total
  {
    var filtered := Filtered(ps, f);
    PuzzleCount(|filtered|, |JsArray.Filter(filtered, (p: SitePuzzle) => p.solved)|)
  }

  /** The count agrees with the `totalItems` any page reports under the same filters,
      and no more puzzles are solved than match. */
  lemma CountAgreesWithFetch(ps: seq<SitePuzzle>, f: Filters, page: int, pageSize: int)
    requires pageSize > 0
    ensures GetPuzzleCount(ps, f).total == FetchPuzzles(ps, f, page, pageSize).pagination.totalItems
    ensures GetPuzzleCount(ps, f).solved <= GetPuzzleCount(ps, f).total
    ensures GetPuzzleCount(ps, f).total == |JsArray.Filter(ps, Matching(f))|
  {
    FilteredIsMatches(ps, f);
  }

  /** The module's puzzle list, whose entries `markPuzzleSolved` updates in place. */
  class Catalog {
    var puzzles: seq<SitePuzzle>

    constructor(data: seq<DataPuzzle>)
      ensures puzzles == SamplePuzzles(data)
    {
      puzzles := SamplePuzzles(data);
    }

    /** `markPuzzleSolved(id)`: the first puzzle with that id is marked solved and
        returned; nothing changes when there is none. */
    method MarkPuzzleSolved(puzzleId: string) returns (p: Option<SitePuzzle>)
      modifies this
      ensures FindIndex(old(puzzles), puzzleId).None? ==> puzzles == old(puzzles) && p == None
      ensures FindIndex(old(puzzles), puzzleId).Some? ==>
        var i := FindIndex(old(puzzles), puzzleId).value;
        puzzles == old(puzzles)[i := old(puzzles)[i].(solved := true)] && p == Some(puzzles[i])
    {
      var i := 0;
      while i < |puzzles| && puzzles[i].id != puzzleId
        invariant 0 <= i <= |puzzles|
        invariant forall j :: 0 <= j < i ==> puzzles[j].id != puzzleId
      {
        i := i + 1;
      }
      if i == |puzzles| {
        return None;
      }
      puzzles := puzzles[i := puzzles[i].(solved := true)];
      p := Some(puzzles[i]);
    }
  }

  // ---------------------------------------------------------------------------
  // The attempt log (`saveUserProgress`)
  // ---------------------------------------------------------------------------

  /** Milliseconds in a day. */
  const DayMs: int := 1000 * 60 * 60 * 24

  /** One entry of the attempt log; `timestamp` is the clock reading in milliseconds. */
  datatype Attempt = Attempt(
    puzzleId: string, timestamp: int, solved: bool, timeSpent: int, movesUsed: int,
    hintsUsed: int, solutionRevealed: bool, firstTry: bool)

  /** The `progressData` a caller passes; a missing number is None. */
  datatype ProgressData = ProgressData(
    solved: bool, timeSpent: Option<int>, movesUsed: Option<int>, hintsUsed: Option<int>,
    solutionRevealed: bool)

  /** `a => a.puzzleId === id`. */
  function ForPuzzle(id: string): Attempt -> bool {
    (a: Attempt) => a.puzzleId == id
  }

  const IsSolved: Attempt -> bool := (a: Attempt) => a.solved
  const IsFirstTry: Attempt -> bool := (a: Attempt) => a.firstTry
  const PuzzleIdOf: Attempt -> string := (a: Attempt) => a.puzzleId
  const TimeOf: Attempt -> int := (a: Attempt) => a.timeSpent
  const Positive: int -> bool := (t: int) => t > 0

  /** The attempts at one puzzle, in log order. */
  function AttemptsOf(attempts: seq<Attempt>, id: string): seq<Attempt> {
    JsArray.Filter(attempts, ForPuzzle(id))
  }

  /** The attempt `saveUserProgress` records at clock reading `now`. */
  function NewAttempt(attempts: seq<Attempt>, puzzleId: string, d: ProgressData, now: int): Attempt {
    Attempt(
      puzzleId := puzzleId,
      timestamp := now,
      solved := d.solved,
      timeSpent := JsNumber.OrDefault(d.timeSpent, 0),
      movesUsed := JsNumber.OrDefault(d.movesUsed, 0),
      hintsUsed := JsNumber.OrDefault(d.hintsUsed, 0),
      solutionRevealed := d.solutionRevealed,
      firstTry := |AttemptsOf(attempts, puzzleId)| == 0)
  }

  /** An attempt is a first try exactly when no earlier attempt has its puzzle id;
      missing numbers count as 0. */
  lemma NewAttemptFacts(attempts: seq<Attempt>, puzzleId: string, d: ProgressData, now: int)
    ensures NewAttempt(attempts, puzzleId, d, now).firstTry
      <==> forall i :: 0 <= i < |attempts| ==> attempts[i].puzzleId != puzzleId
    ensures d.timeSpent.None? ==> NewAttempt(attempts, puzzleId, d, now).timeSpent == 0
    ensures d.hintsUsed.None? ==> NewAttempt(attempts, puzzleId, d, now).hintsUsed == 0
    ensures d.timeSpent.Some? ==> NewAttempt(attempts, puzzleId, d, now).timeSpent == d.timeSpent.value
  {
    var same := AttemptsOf(attempts, puzzleId);
    if same != [] {
      assert same[0] in same;
    }
    forall i | 0 <= i < |attempts| && attempts[i].puzzleId == puzzleId ensures same != [] {
      assert attempts[i] in same;
    }
  }

  function TimeTotal(attempts: seq<Attempt>): int {
    if attempts == [] then 0 else TimeTotal(attempts[..|attempts| - 1]) + attempts[|attempts| - 1].timeSpent
  }

  function HintTotal(attempts: seq<Attempt>): int {
    if attempts == [] then 0 else HintTotal(attempts[..|attempts| - 1]) + attempts[|attempts| - 1].hintsUsed
  }

  function RevealedCount(attempts: seq<Attempt>): nat {
    if attempts == [] then 0
    else RevealedCount(attempts[..|attempts| - 1]) + (if attempts[|attempts| - 1].solutionRevealed then 1 else 0)
  }

  /** The streak after the attempts: an unsolved attempt ends it, a solved one extends
      it when it comes within a whole day of the attempt before (`Math.floor` of the
      day difference at most 1) and restarts it at 1 otherwise. */
  function Streak(attempts: seq<Attempt>): (r: nat)
    ensures r <= |attempts|
    ensures r > 0 ==> attempts[|attempts| - 1].solved
    decreases |attempts|
  {
    if attempts == [] then 0
    else
      var n := |attempts| - 1;
      if !attempts[n].solved then 0
      else if n == 0 then 1
      else if (attempts[n].timestamp - attempts[n - 1].timestamp) / DayMs <= 1 then Streak(attempts[..n]) + 1
      else 1
  }

  function LastDate(attempts: seq<Attempt>): Option<int> {
    if attempts == [] then None else Some(attempts[|attempts| - 1].timestamp)
  }

  /** How the totals kept beside the log move when one attempt is appended. */
  lemma LogAppend(log: seq<Attempt>, a: Attempt)
    ensures TimeTotal(log + [a]) == TimeTotal(log) + a.timeSpent
    ensures HintTotal(log + [a]) == HintTotal(log) + a.hintsUsed
    ensures RevealedCount(log + [a]) == RevealedCount(log) + (if a.solutionRevealed then 1 else 0)
    ensures LastDate(log + [a]) == Some(a.timestamp)
  {
    assert (log + [a])[..|log|] == log;
  }

  /** How the streak moves when one attempt is appended. */
  lemma StreakAppend(log: seq<Attempt>, a: Attempt)
    ensures Streak(log + [a]) ==
      if !a.solved then 0
      else if log == [] then 1
      else if (a.timestamp - log[|log| - 1].timestamp) / DayMs <= 1 then Streak(log) + 1
      else 1
  {
    var l := log + [a];
    assert l[..|log|] == log;
    assert l[|log|] == a;
    if log != [] {
      assert l[|log| - 1] == log[|log| - 1];
    }
  }

  /** The totals, the streak and the last date are those of the attempt log. */
  ghost predicate Tracks(log: seq<Attempt>, totalTimeSpent: int, hintsUsed: int, solutionsRevealed: nat,
                         currentStreak: nat, lastAttemptDate: Option<int>)
  {
    totalTimeSpent == TimeTotal(log)
    && hintsUsed == HintTotal(log)
    && solutionsRevealed == RevealedCount(log)
    && currentStreak == Streak(log)
    && lastAttemptDate == LastDate(log)
  }

  /** The figures `saveUserProgress` stores after appending an attempt are those of
      the longer log, when the streak is updated by the rules of `Streak`. */
  lemma TracksAppend(log: seq<Attempt>, a: Attempt, totalTimeSpent: int, hintsUsed: int,
                     solutionsRevealed: nat, currentStreak: nat, lastAttemptDate: Option<int>, streak: nat)
    requires Tracks(log, totalTimeSpent, hintsUsed, solutionsRevealed, currentStreak, lastAttemptDate)
    requires streak == if !a.solved then 0
                       else if lastAttemptDate.None? then 1
                       else if (a.timestamp - lastAttemptDate.value) / DayMs <= 1 then currentStreak + 1
                       else 1
    ensures Tracks(log + [a], totalTimeSpent + a.timeSpent, hintsUsed + a.hintsUsed,
                   solutionsRevealed + (if a.solutionRevealed then 1 else 0), streak, Some(a.timestamp))
  {
    LogAppend(log, a);
    StreakAppend(log, a);
  }

  /** The streak rules of `saveUserProgress`: an unsolved attempt resets the streak, a
      solved one within a whole day of the last attempt extends it, and any other
      solved one starts it at 1. */
  method NextStreak(attempt: Attempt, currentStreak: nat, lastAttemptDate: Option<int>) returns (streak: nat)
    ensures !attempt.solved ==> streak == 0
    ensures attempt.solved && lastAttemptDate.Some? && (attempt.timestamp - lastAttemptDate.value) / DayMs <= 1
      ==> streak == currentStreak + 1
    ensures attempt.solved && (lastAttemptDate.None? || (attempt.timestamp - lastAttemptDate.value) / DayMs > 1)
      ==> streak == 1
  {
    if attempt.solved {
      if lastAttemptDate.Some? {
        var daysDiff := (attempt.timestamp - lastAttemptDate.value) / DayMs;
        if daysDiff <= 1 {
          streak := currentStreak + 1;
        } else {
          streak := 1;
        }
      } else {
        streak := 1;
      }
    } else {
      streak := 0;
    }
  }

  /** `userProgressData`. */
  class UserProgress {
    const userId: string
    var attempts: seq<Attempt>
    var totalTimeSpent: int
    var hintsUsed: int
    var solutionsRevealed: nat
    var currentStreak: nat
    var lastAttemptDate: Option<int>

    /** The fields keep the figures of their attempt log. */
    ghost predicate Valid()
      reads this
    {
      Tracks(attempts, totalTimeSpent, hintsUsed, solutionsRevealed, currentStreak, lastAttemptDate)
    }

    constructor()
      ensures Valid() && attempts == [] && userId == "default-user"
      ensures totalTimeSpent == 0 && hintsUsed == 0 && solutionsRevealed == 0
      ensures currentStreak == 0 && lastAttemptDate == None
    {
      userId := "default-user";
      attempts := [];
      totalTimeSpent := 0;
      hintsUsed := 0;
      solutionsRevealed := 0;
      currentStreak := 0;
      lastAttemptDate := None;
    }

    /** `saveUserProgress(puzzleId, progressData)` at clock reading `now`: one attempt
        is appended, the totals grow by its values, the streak follows the rules of
        `Streak`, and the last date becomes `now`. */
    method SaveUserProgress(puzzleId: string, d: ProgressData, now: int) returns (attempt: Attempt)
      requires Valid()
      modifies this
      ensures Valid()
      ensures attempt == NewAttempt(old(attempts), puzzleId, d, now)
      ensures attempts == old(attempts) + [attempt]
      ensures totalTimeSpent == old(totalTimeSpent) + attempt.timeSpent
      ensures hintsUsed == old(hintsUsed) + attempt.hintsUsed
      ensures solutionsRevealed == old(solutionsRevealed) + (if attempt.solutionRevealed then 1 else 0)
      ensures !attempt.solved ==> currentStreak == 0
      ensures attempt.solved && old(lastAttemptDate).Some? && (now - old(lastAttemptDate).value) / DayMs <= 1
        ==> currentStreak == old(currentStreak) + 1
      ensures attempt.solved && (old(lastAttemptDate).None? || (now - old(lastAttemptDate).value) / DayMs > 1)
        ==> currentStreak == 1
      ensures lastAttemptDate == Some(now)
    {
      var previous := AttemptsOf(attempts, puzzleId);
      attempt := Attempt(puzzleId, now, d.solved, JsNumber.OrDefault(d.timeSpent, 0),
        JsNumber.OrDefault(d.movesUsed, 0), JsNumber.OrDefault(d.hintsUsed, 0), d.solutionRevealed,
        |previous| == 0);
      Record(attempt);
    }

    /** The updates of `saveUserProgress` once the attempt is built: the push onto
        the log, the totals, the streak and the last date. */
    method Record(attempt: Attempt)
      requires Valid()
      modifies this
      ensures Valid()
      ensures attempts == old(attempts) + [attempt]
      ensures totalTimeSpent == old(totalTimeSpent) + attempt.timeSpent
      ensures hintsUsed == old(hintsUsed) + attempt.hintsUsed
      ensures solutionsRevealed == old(solutionsRevealed) + (if attempt.solutionRevealed then 1 else 0)
      ensures !attempt.solved ==> currentStreak == 0
      ensures attempt.solved && old(lastAttemptDate).Some?
              && (attempt.timestamp - old(lastAttemptDate).value) / DayMs <= 1
        ==> currentStreak == old(currentStreak) + 1
      ensures attempt.solved && (old(lastAttemptDate).None?
              || (attempt.timestamp - old(lastAttemptDate).value) / DayMs > 1)
        ==> currentStreak == 1
      ensures lastAttemptDate == Some(attempt.timestamp)
    {
      var streak := NextStreak(attempt, currentStreak, lastAttemptDate);
      var revealed := solutionsRevealed + (if attempt.solutionRevealed then 1 else 0);
      TracksAppend(attempts, attempt, totalTimeSpent, hintsUsed, solutionsRevealed, currentStreak,
                   lastAttemptDate, streak);
      attempts, totalTimeSpent, hintsUsed, solutionsRevealed, currentStreak, lastAttemptDate :=
        attempts + [attempt], totalTimeSpent + attempt.timeSpent, hintsUsed + attempt.hintsUsed,
        revealed, streak, Some(attempt.timestamp);
    }

    /** `getUserStats()` over the current puzzle list. */
    method GetUserStats(ps: seq<SitePuzzle>) returns (s: UserStats)
      ensures s == StatsOf(ps, attempts, currentStreak, totalTimeSpent, hintsUsed, solutionsRevealed)
    {
      if |attempts| == 0 {
        return EmptyStats;
      }
      var longest := LongestStreak(attempts);
      s := Summary(ps, attempts, currentStreak, totalTimeSpent, hintsUsed, solutionsRevealed, longest);
    }
  }

  /** Attempts `i` up to `j` (exclusive) are all solved. */
  ghost predicate SolvedRun(attempts: seq<Attempt>, i: int, j: int) {
    0 <= i <= j <= |attempts| && forall k :: i <= k < j ==> attempts[k].solved
  }

  /** The `len` attempts from `i` on are all solved. */
  ghost predicate RunAt(attempts: seq<Attempt>, i: int, len: nat) {
    SolvedRun(attempts, i, i + len)
  }

  /** The number of solved attempts at the end of the log. */
  function TrailingSolved(attempts: seq<Attempt>): (r: nat)
    ensures r <= |attempts|
  {
    if attempts == [] || !attempts[|attempts| - 1].solved then 0
    else TrailingSolved(attempts[..|attempts| - 1]) + 1
  }

  /** The longest run of solved attempts. */
  function LongestRun(attempts: seq<Attempt>): nat {
    if attempts == [] then 0
    else
      var m := LongestRun(attempts[..|attempts| - 1]);
      var t := TrailingSolved(attempts);
      if t > m then t else m
  }

  /** The trailing count is the length of the longest run of solved attempts that
      reaches the end of the log. */
  lemma {:induction false} TrailingSolvedRun(attempts: seq<Attempt>)
    ensures SolvedRun(attempts, |attempts| - TrailingSolved(attempts), |attempts|)
    ensures forall i :: 0 <= i <= |attempts| && SolvedRun(attempts, i, |attempts|) ==>
      |attempts| - i <= TrailingSolved(attempts)
  {
    var n := |attempts|;
    if n > 0 {
      var init := attempts[..n - 1];
      TrailingSolvedRun(init);
      if attempts[n - 1].solved {
        forall k | n - TrailingSolved(attempts) <= k < n ensures attempts[k].solved {
          if k < n - 1 { assert attempts[k] == init[k]; }
        }
        forall i | 0 <= i <= n && SolvedRun(attempts, i, n) ensures n - i <= TrailingSolved(attempts) {
          if i < n {
            assert SolvedRun(init, i, n - 1) by {
              forall k | i <= k < n - 1 ensures init[k].solved { assert init[k] == attempts[k]; }
            }
          }
        }
      }
    }
  }

  /** `LongestRun` is the length of the longest run of consecutive solved attempts:
      some run has that length and none is longer. */
  lemma {:induction false} LongestRunIsMaximal(attempts: seq<Attempt>)
    ensures exists i :: RunAt(attempts, i, LongestRun(attempts))
    ensures forall i, j :: SolvedRun(attempts, i, j) ==> j - i <= LongestRun(attempts)
  {
    var n := |attempts|;
    if n == 0 {
      assert RunAt(attempts, 0, LongestRun(attempts));
    } else {
      var init := attempts[..n - 1];
      LongestRunIsMaximal(init);
      TrailingSolvedRun(attempts);
      var m := LongestRun(init);
      var t := TrailingSolved(attempts);
      if t > m {
        assert RunAt(attempts, n - t, LongestRun(attempts));
      } else {
        var i :| RunAt(init, i, m);
        assert RunAt(attempts, i, LongestRun(attempts)) by {
          forall k | i <= k < i + m ensures attempts[k].solved { assert attempts[k] == init[k]; }
        }
      }
      forall i, j | SolvedRun(attempts, i, j) ensures j - i <= LongestRun(attempts) {
        if j == n {
          assert n - i <= t;
        } else {
          assert SolvedRun(init, i, j) by {
            forall k | i <= k < j ensures init[k].solved { assert init[k] == attempts[k]; }
          }
        }
      }
    }
  }

  /** The streak kept by `saveUserProgress` never exceeds the trailing run of solved
      attempts, so the current streak is at most the longest one. */
  lemma {:induction false} StreakWithinLongest(attempts: seq<Attempt>)
    ensures Streak(attempts) <= TrailingSolved(attempts) <= LongestRun(attempts)
  {
    var n := |attempts|;
    if n > 0 {
      StreakWithinLongest(attempts[..n - 1]);
    }
  }

  /** The loop of `getUserStats` that measures the longest streak. */
  method LongestStreak(attempts: seq<Attempt>) returns (longest: nat)
    ensures longest == LongestRun(attempts)
  {
    longest := 0;
    var current: nat := 0;
    var k := 0;
    while k < |attempts|
      invariant 0 <= k <= |attempts|
      invariant current == TrailingSolved(attempts[..k])
      invariant longest == LongestRun(attempts[..k])
    {
      assert attempts[..k + 1][..k] == attempts[..k];
      if attempts[k].solved {
        current := current + 1;
        longest := if longest > current then longest else current;
      } else {
        current := 0;
      }
      k := k + 1;
    }
    assert attempts[..k] == attempts;
  }

  // ---------------------------------------------------------------------------
  // Statistics (`getUserStats`)
  // ---------------------------------------------------------------------------

  /** The counters kept per difficulty and per theme. */
  datatype Bucket = Bucket(solved: nat, attempted: nat, totalAttempts: nat, accuracy: nat)

  const EmptyBucket: Bucket := Bucket(0, 0, 0, 0)

  datatype UserStats = UserStats(
    solved: nat, attempted: nat, totalAttempts: nat, accuracy: nat, accuracyFirstTry: nat,
    easy: Bucket, medium: Bucket, hard: Bucket, byTheme: seq<(string, Bucket)>,
    currentStreak: int, longestStreak: nat, averageTime: int, totalTime: int,
    hintsUsed: int, solutionsRevealed: int, estimatedRating: int)

  /** `accuracyByDifficulty[l]`. */
  function ByLevel(s: UserStats, l: Level): Bucket {
    match l
    case Easy => s.easy
    case Medium => s.medium
    case Hard => s.hard
  }

  const EmptyStats: UserStats := UserStats(0, 0, 0, 0, 0, EmptyBucket, EmptyBucket, EmptyBucket, [], 0, 0, 0, 0, 0, 0, 1200)

  function Ids(attempts: seq<Attempt>): seq<string> {
    JsArray.Map(attempts, PuzzleIdOf)
  }

  /** `puzzleAttempts.some(a => a.solved)`. */
  predicate SolvedSome(attempts: seq<Attempt>, id: string) {
    JsArray.Filter(AttemptsOf(attempts, id), IsSolved) != []
  }

  const SolvedIn: seq<Attempt> -> string -> bool := (attempts: seq<Attempt>) => (id: string) => SolvedSome(attempts, id)

  function SumAttempts(attempts: seq<Attempt>, group: seq<string>): nat {
    if group == [] then 0
    else SumAttempts(attempts, group[..|group| - 1]) + |AttemptsOf(attempts, group[|group| - 1])|
  }

  /** A rounded percentage of a part of a whole is at most 100. */
  lemma PercentAtMost100(a: nat, b: nat)
    requires 0 < b && a <= b
    ensures JsNumber.Percent(a, b) <= 100
  {
    var r := JsNumber.Percent(a, b);
    assert 2 * b * r <= 200 * a + b;
    assert 200 * a <= 200 * b;
    if r > 100 {
      MulLess(2 * b, 100, r);
      assert false;
    }
  }

  lemma MulLess(b: int, x: int, y: int)
    requires b > 0 && x < y
    ensures b * x + b <= b * y
  {
    assert b * y == b * x + b * (y - x);
    MulAtLeast(b, y - x);
  }

  lemma {:induction false} MulAtLeast(b: int, c: int)
    requires b > 0 && c >= 1
    ensures b * c >= b
    decreases c
  {
    if c > 1 {
      MulAtLeast(b, c - 1);
      assert b * c == b * (c - 1) + b;
    }
  }

  /** The counters for a group of distinct puzzle ids, each counted once. */
  function GroupBucket(attempts: seq<Attempt>, group: seq<string>): (b: Bucket)
    ensures b.solved <= b.attempted == |group|
    ensures b.accuracy <= 100 && (b.attempted == 0 ==> b.accuracy == 0)
  {
    var solved := JsArray.Filter(group, SolvedIn(attempts));
    var b := Bucket(|solved|, |group|, SumAttempts(attempts, group),
      if |group| > 0 then JsNumber.Percent(|solved|, |group|) else 0);
    if |group| > 0 then (PercentAtMost100(|solved|, |group|); b) else b
  }

  /** `puzzleId => puzzle?.difficulty === l`, with the puzzle looked up by id. */
  function AtLevel(ps: seq<SitePuzzle>, l: Level): string -> bool {
    (id: string) => PuzzleOf(ps, id).Some? && PuzzleOf(ps, id).value.difficulty == l
  }

  /** `puzzleId => puzzle?.theme === t`. */
  function WithTheme(ps: seq<SitePuzzle>, t: string): string -> bool {
    (id: string) => PuzzleOf(ps, id).Some? && PuzzleOf(ps, id).value.theme == t
  }

  /** The primary theme of the puzzle with this id, if there is one. */
  function ThemeOf(ps: seq<SitePuzzle>): string -> Option<string> {
    (id: string) => match PuzzleOf(ps, id) case None => None case Some(p) => Some(p.theme)
  }

  /** The keys of `accuracyByTheme`, in the order they are first set. */
  function ThemeKeys(ps: seq<SitePuzzle>, unique: seq<string>): seq<string> {
    JsArray.Distinct(JsArray.FilterMap(unique, ThemeOf(ps)))
  }

  function ThemeBuckets(ps: seq<SitePuzzle>, attempts: seq<Attempt>, unique: seq<string>): seq<(string, Bucket)> {
    JsArray.Map(ThemeKeys(ps, unique),
      (t: string) => (t, GroupBucket(attempts, JsArray.Filter(unique, WithTheme(ps, t)))))
  }

  function Sum(xs: seq<int>): int {
    if xs == [] then 0 else Sum(xs[..|xs| - 1]) + xs[|xs| - 1]
  }

  /** The positive times of solved attempts. */
  function SolvedTimes(attempts: seq<Attempt>): seq<int> {
    JsArray.Filter(JsArray.Map(JsArray.Filter(attempts, IsSolved), TimeOf), Positive)
  }

  /** The rounded mean of the positive times of solved attempts, 0 when there are
      none: within one half of their sum divided by their count, halves rounded up. */
  function AverageTime(attempts: seq<Attempt>): (r: int)
    ensures var times := SolvedTimes(attempts);
      (times == [] ==> r == 0)
      && (times != [] ==> 2 * |times| * r <= 2 * Sum(times) + |times| < 2 * |times| * (r + 1))
  {
    var times := SolvedTimes(attempts);
    if |times| > 0 then JsNumber.RoundDiv(Sum(times), |times|) else 0
  }

  /** A sum of values between `lo` and `hi` lies between `lo` and `hi` times their
      count. */
  lemma {:induction false} SumBetween(xs: seq<int>, lo: int, hi: int)
    requires forall x :: x in xs ==> lo <= x <= hi
    ensures |xs| * lo <= Sum(xs) <= |xs| * hi
    decreases |xs|
  {
    if xs != [] {
      var init := xs[..|xs| - 1];
      assert forall x :: x in init ==> x in xs;
      SumBetween(init, lo, hi);
      assert xs[|xs| - 1] in xs;
      assert |xs| * lo == |init| * lo + lo;
      assert |xs| * hi == |init| * hi + hi;
    }
  }

  /** The average time is 0 exactly when no solved attempt has a positive time, and
      otherwise lies between the shortest and the longest of those times. */
  lemma AverageTimeWithin(attempts: seq<Attempt>)
    ensures var times := SolvedTimes(attempts);
      var r := AverageTime(attempts);
      (r == 0 <==> times == [])
      && (times != [] ==> JsArray.MinOf(times).value <= r <= JsArray.MaxOf(times).value)
  {
    var times := SolvedTimes(attempts);
    var r := AverageTime(attempts);
    if times != [] {
      var lo := JsArray.MinOf(times).value;
      var hi := JsArray.MaxOf(times).value;
      assert lo > 0 by { assert lo in times; }
      SumBetween(times, lo, hi);
      RoundedMeanWithin(|times|, Sum(times), r, lo, hi);
    }
  }

  /** A mean rounded to within one half of `sum / n` stays between bounds `lo` and
      `hi` of the values summed. */
  lemma RoundedMeanWithin(n: int, sum: int, r: int, lo: int, hi: int)
    requires n > 0 && n * lo <= sum <= n * hi
    requires 2 * n * r <= 2 * sum + n < 2 * n * (r + 1)
    ensures lo <= r <= hi
  {
    assert 2 * n * lo == 2 * (n * lo) && 2 * n * hi == 2 * (n * hi);
    if r > hi {
      MulLess(2 * n, hi, r);
      assert false;
    }
    if r < lo {
      if r + 1 < lo {
        MulLess(2 * n, r + 1, lo);
      }
      assert false;
    }
  }

  /** The points one solved puzzle adds to the estimated rating, in half points:
      25 times 1, 1.5 or 2 by difficulty when its first attempt was solved, and that
      amount times 0.7, rounded, otherwise. */
  function PointHalves(l: Level, firstTrySolved: bool): (h: nat)
    ensures 36 <= h <= 100
  {
    match l
    case Easy => if firstTrySolved then 50 else 36
    case Medium => if firstTrySolved then 75 else 52
    case Hard => if firstTrySolved then 100 else 70
  }

  /** The points the solved puzzles add, in half points; ids without a puzzle add
      nothing. */
  function RatingHalves(ps: seq<SitePuzzle>, attempts: seq<Attempt>, solvedIds: seq<string>): nat {
    if solvedIds == [] then 0
    else
      var id := solvedIds[|solvedIds| - 1];
      var tries := AttemptsOf(attempts, id);
      RatingHalves(ps, attempts, solvedIds[..|solvedIds| - 1])
      + match PuzzleOf(ps, id)
        case None => 0
        case Some(p) => PointHalves(p.difficulty, |tries| > 0 && tries[0].solved)
  }

  /** `Math.round(estimatedRating)`, starting from 1200 and never below it. */
  function EstimatedRating(ps: seq<SitePuzzle>, attempts: seq<Attempt>, solvedIds: seq<string>): (r: int)
    ensures r >= 1200
  {
    JsNumber.RoundDiv(2400 + RatingHalves(ps, attempts, solvedIds), 2)
  }

  /** Each solved puzzle adds between 0 and 50 points to the starting 1200. */
  lemma {:induction false} RatingHalvesBound(ps: seq<SitePuzzle>, attempts: seq<Attempt>, solvedIds: seq<string>)
    ensures RatingHalves(ps, attempts, solvedIds) <= 100 * |solvedIds|
    decreases |solvedIds|
  {
    if solvedIds != [] {
      RatingHalvesBound(ps, attempts, solvedIds[..|solvedIds| - 1]);
    }
  }

  lemma EstimatedRatingBounds(ps: seq<SitePuzzle>, attempts: seq<Attempt>, solvedIds: seq<string>)
    ensures 1200 <= EstimatedRating(ps, attempts, solvedIds) <= 1200 + 50 * |solvedIds|
  {
    RatingHalvesBound(ps, attempts, solvedIds);
  }

  /** The statistics of a non-empty attempt log, given the longest streak. */
  function Summary(ps: seq<SitePuzzle>, attempts: seq<Attempt>, currentStreak: int, totalTime: int,
                   hintsUsed: int, solutionsRevealed: int, longest: nat): UserStats
    requires attempts != []
  {
    var unique := JsArray.Distinct(Ids(attempts));
    var uniqueSolved := JsArray.Distinct(Ids(JsArray.Filter(attempts, IsSolved)));
    var firstTries := JsArray.Filter(attempts, IsFirstTry);
    var firstTrySolved := JsArray.Filter(firstTries, IsSolved);
    assert Ids(attempts)[0] in unique;
    UserStats(
      solved := |uniqueSolved|,
      attempted := |unique|,
      totalAttempts := |attempts|,
      accuracy := JsNumber.Percent(|uniqueSolved|, |unique|),
      accuracyFirstTry := if |firstTries| > 0 then JsNumber.Percent(|firstTrySolved|, |firstTries|) else 0,
      easy := GroupBucket(attempts, JsArray.Filter(unique, AtLevel(ps, Easy))),
      medium := GroupBucket(attempts, JsArray.Filter(unique, AtLevel(ps, Medium))),
      hard := GroupBucket(attempts, JsArray.Filter(unique, AtLevel(ps, Hard))),
      byTheme := ThemeBuckets(ps, attempts, unique),
      currentStreak := currentStreak,
      longestStreak := longest,
      averageTime := AverageTime(attempts),
      totalTime := totalTime,
      hintsUsed := hintsUsed,
      solutionsRevealed := solutionsRevealed,
      estimatedRating := EstimatedRating(ps, attempts, uniqueSolved))
  }

  /** What `getUserStats` returns for the log and the totals kept beside it. */
  function StatsOf(ps: seq<SitePuzzle>, attempts: seq<Attempt>, currentStreak: int, totalTime: int,
                   hintsUsed: int, solutionsRevealed: int): (r: UserStats)
    ensures r.longestStreak == LongestRun(attempts) && r.totalAttempts == |attempts|
  {
    if attempts == [] then EmptyStats
    else Summary(ps, attempts, currentStreak, totalTime, hintsUsed, solutionsRevealed, LongestRun(attempts))
  }

  /** Every puzzle id of a solved attempt is the id of some attempt. */
  lemma SolvedIdsAttempted(attempts: seq<Attempt>)
    ensures forall x :: x in Ids(JsArray.Filter(attempts, IsSolved)) ==> x in Ids(attempts)
  {
    var solvedOnes := JsArray.Filter(attempts, IsSolved);
    forall x | x in Ids(solvedOnes) ensures x in Ids(attempts) {
      var k :| 0 <= k < |solvedOnes| && Ids(solvedOnes)[k] == x;
      assert solvedOnes[k] in attempts;
      var j :| 0 <= j < |attempts| && attempts[j] == solvedOnes[k];
      assert Ids(attempts)[j] == x;
    }
  }

  /** With no attempts every figure is 0; otherwise the accuracy is the rounded share
      of distinct attempted puzzles that were solved, at most 100, the longest
      streak is the longest run of solved attempts, and every difficulty counts no
      more solved puzzles than attempted ones. */
  lemma StatsFacts(ps: seq<SitePuzzle>, attempts: seq<Attempt>, currentStreak: int, totalTime: int,
                   hintsUsed: int, solutionsRevealed: int)
    ensures var s := StatsOf(ps, attempts, currentStreak, totalTime, hintsUsed, solutionsRevealed);
      (attempts == [] ==> s.solved == 0 && s.attempted == 0 && s.totalAttempts == 0
                          && s.accuracy == 0 && s.accuracyFirstTry == 0
                          && (forall l: Level :: ByLevel(s, l) == Bucket(0, 0, 0, 0))
                          && s.byTheme == [] && s.currentStreak == 0 && s.longestStreak == 0
                          && s.averageTime == 0 && s.totalTime == 0 && s.hintsUsed == 0
                          && s.solutionsRevealed == 0 && s.estimatedRating == 1200)
      && (attempts != [] ==>
            s.attempted == |JsArray.Distinct(Ids(attempts))| && s.totalAttempts == |attempts|
            && s.solved <= s.attempted && s.accuracy <= 100
            && s.accuracy == JsNumber.Percent(s.solved, s.attempted))
      && 1200 <= s.estimatedRating <= 1200 + 50 * s.solved
      && (forall i, j :: SolvedRun(attempts, i, j) ==> j - i <= s.longestStreak)
      && (exists i :: RunAt(attempts, i, s.longestStreak))
      && (forall l: Level :: ByLevel(s, l).solved <= ByLevel(s, l).attempted && ByLevel(s, l).accuracy <= 100)
  {
    LongestRunIsMaximal(attempts);
    if attempts != [] {
      SummaryFacts(ps, attempts, currentStreak, totalTime, hintsUsed, solutionsRevealed);
    }
  }

  /** The figures of a non-empty log that `StatsFacts` states. */
  lemma SummaryFacts(ps: seq<SitePuzzle>, attempts: seq<Attempt>, currentStreak: int, totalTime: int,
                     hintsUsed: int, solutionsRevealed: int)
    requires attempts != []
    ensures var s := Summary(ps, attempts, currentStreak, totalTime, hintsUsed, solutionsRevealed, LongestRun(attempts));
      s.attempted == |JsArray.Distinct(Ids(attempts))| && s.totalAttempts == |attempts|
      && s.solved <= s.attempted && s.accuracy <= 100
      && s.accuracy == JsNumber.Percent(s.solved, s.attempted)
      && 1200 <= s.estimatedRating <= 1200 + 50 * s.solved
      && (forall l: Level :: ByLevel(s, l).solved <= ByLevel(s, l).attempted && ByLevel(s, l).accuracy <= 100)
  {
    SummaryCounts(ps, attempts, currentStreak, totalTime, hintsUsed, solutionsRevealed);
    SummaryRating(ps, attempts, currentStreak, totalTime, hintsUsed, solutionsRevealed);
    SummaryLevels(ps, attempts, currentStreak, totalTime, hintsUsed, solutionsRevealed);
  }

  lemma SummaryCounts(ps: seq<SitePuzzle>, attempts: seq<Attempt>, currentStreak: int, totalTime: int,
                      hintsUsed: int, solutionsRevealed: int)
    requires attempts != []
    ensures var s := Summary(ps, attempts, currentStreak, totalTime, hintsUsed, solutionsRevealed, LongestRun(attempts));
      s.attempted == |JsArray.Distinct(Ids(attempts))| && s.totalAttempts == |attempts|
      && s.solved <= s.attempted && s.accuracy <= 100
      && s.accuracy == JsNumber.Percent(s.solved, s.attempted)
  {
    var solved := JsArray.Distinct(Ids(JsArray.Filter(attempts, IsSolved)));
    var unique := JsArray.Distinct(Ids(attempts));
    SolvedIdsAttempted(attempts);
    JsArray.DistinctSmaller(Ids(JsArray.Filter(attempts, IsSolved)), Ids(attempts));
    assert Ids(attempts)[0] in unique;
    PercentAtMost100(|solved|, |unique|);
  }

  lemma SummaryRating(ps: seq<SitePuzzle>, attempts: seq<Attempt>, currentStreak: int, totalTime: int,
                      hintsUsed: int, solutionsRevealed: int)
    requires attempts != []
    ensures var s := Summary(ps, attempts, currentStreak, totalTime, hintsUsed, solutionsRevealed, LongestRun(attempts));
      1200 <= s.estimatedRating <= 1200 + 50 * s.solved
  {
    EstimatedRatingBounds(ps, attempts, JsArray.Distinct(Ids(JsArray.Filter(attempts, IsSolved))));
  }

  lemma SummaryLevels(ps: seq<SitePuzzle>, attempts: seq<Attempt>, currentStreak: int, totalTime: int,
                      hintsUsed: int, solutionsRevealed: int)
    requires attempts != []
    ensures var s := Summary(ps, attempts, currentStreak, totalTime, hintsUsed, solutionsRevealed, LongestRun(attempts));
      forall l: Level :: ByLevel(s, l).solved <= ByLevel(s, l).attempted && ByLevel(s, l).accuracy <= 100
  {
    forall l: Level
      ensures var s := Summary(ps, attempts, currentStreak, totalTime, hintsUsed, solutionsRevealed, LongestRun(attempts));
        ByLevel(s, l).solved <= ByLevel(s, l).attempted && ByLevel(s, l).accuracy <= 100
    {
      LevelBucket(ps, attempts, currentStreak, totalTime, hintsUsed, solutionsRevealed, l);
    }
  }

  /** The bucket of a difficulty groups the distinct attempted ids at that level. */
  lemma LevelBucket(ps: seq<SitePuzzle>, attempts: seq<Attempt>, currentStreak: int, totalTime: int,
                    hintsUsed: int, solutionsRevealed: int, l: Level)
    requires attempts != []
    ensures ByLevel(Summary(ps, attempts, currentStreak, totalTime, hintsUsed, solutionsRevealed, LongestRun(attempts)), l)
         == GroupBucket(attempts, JsArray.Filter(JsArray.Distinct(Ids(attempts)), AtLevel(ps, l)))
  {
    var unique := JsArray.Distinct(Ids(attempts));
    var s := Summary(ps, attempts, currentStreak, totalTime, hintsUsed, solutionsRevealed, LongestRun(attempts));
    match l
    case Easy => assert s.easy == GroupBucket(attempts, JsArray.Filter(unique, AtLevel(ps, Easy)));
    case Medium => assert s.medium == GroupBucket(attempts, JsArray.Filter(unique, AtLevel(ps, Medium)));
    case Hard => assert s.hard == GroupBucket(attempts, JsArray.Filter(unique, AtLevel(ps, Hard)));
  }

  /** A difficulty none of whose puzzles was attempted reports accuracy 0. */
  lemma UntriedLevelScoresZero(ps: seq<SitePuzzle>, attempts: seq<Attempt>, currentStreak: int, totalTime: int,
                               hintsUsed: int, solutionsRevealed: int, l: Level)
    requires ByLevel(StatsOf(ps, attempts, currentStreak, totalTime, hintsUsed, solutionsRevealed), l).attempted == 0
    ensures ByLevel(StatsOf(ps, attempts, currentStreak, totalTime, hintsUsed, solutionsRevealed), l).accuracy == 0
  {
    if attempts != [] {
      LevelBucket(ps, attempts, currentStreak, totalTime, hintsUsed, solutionsRevealed, l);
    }
  }

  /** Under the log's invariant the reported current streak is at most the longest
      one, and the reported totals are those of the log. */
  lemma StreakAtMostLongest(ps: seq<SitePuzzle>, attempts: seq<Attempt>)
    ensures var s := StatsOf(ps, attempts, Streak(attempts), TimeTotal(attempts), HintTotal(attempts),
                             RevealedCount(attempts));
      s.currentStreak <= s.longestStreak && s.totalTime == TimeTotal(attempts)
  {
    StreakWithinLongest(attempts);
  }

  /** Every theme key occurs once. */
  lemma ThemeKeysDistinct(ps: seq<SitePuzzle>, attempts: seq<Attempt>)
    requires attempts != []
    ensures JsArray.NoDuplicates(JsArray.Keys(StatsOf(ps, attempts, 0, 0, 0, 0).byTheme))
  {
    var unique := JsArray.Distinct(Ids(attempts));
    var keys := ThemeKeys(ps, unique);
    var b := ThemeBuckets(ps, attempts, unique);
    assert JsArray.Keys(b) == keys;
  }
}
