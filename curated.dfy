/**
 * `scripts/create-curated-puzzles.js`: a fixed list of Lichess puzzles mapped onto
 * the site's puzzle record, and the per-difficulty and per-theme summary counts the
 * script reports.
 */
module Curated {
  import opened Wrappers
  import opened JsString
  import JsNumber
  import JsArray
  import opened Labels

  /** One entry of the curated list, as written in the script. */
  datatype CuratedEntry = CuratedEntry(
    id: string, fen: string, moves: string, rating: int, themes: string,
    description: string, difficulty: string)

  /** The site's puzzle record the script writes. */
  datatype CuratedPuzzle = CuratedPuzzle(
    id: string, lichessId: string, fen: string, difficulty: string, theme: string,
    rating: int, description: string, hint: string, solution: seq<string>,
    orientation: Side, solved: bool, themes: seq<string>, source: string)

  const IdPrefix: string := "imported_"

  /** `s.charAt(0).toUpperCase() + s.slice(1)`. */
  function Capitalize(s: string): (r: string)
    ensures |r| == |s|
    ensures s != [] ==> r[0] == UpperChar(s[0]) && r[1..] == s[1..]
  {
    if s == [] then [] else [UpperChar(s[0])] + s[1..]
  }

  /** `getHintForTheme`'s table, keyed by lower-cased theme. */
  const Hints: map<string, string> := map[
    "fork" := "Look for a move that attacks two pieces at once.",
    "pin" := "Pin an enemy piece to a more valuable piece behind it.",
    "skewer" := "Force a valuable piece to move and capture the piece behind it.",
    "discoveredattack" := "Move a piece to reveal an attack from another piece.",
    "sacrifice" := "Sometimes giving up material leads to a greater advantage.",
    "deflection" := "Force a defending piece away from its important duty.",
    "backrankmate" := "The enemy king is trapped on the back rank.",
    "zugzwang" := "Put the opponent in a position where any move worsens their position.",
    "clearance" := "Clear the way for another piece to deliver the decisive blow.",
    "removedefender" := "Eliminate the piece that defends the target."]

  const DefaultHint: string := "Look for the best tactical move."

  /** `getHintForTheme`: the generic hint exactly for a theme whose lower-cased form
      the table lacks. */
  function HintForTheme(theme: string): (r: string)
    ensures r == DefaultHint <==> ToLower(theme) !in Hints
  {
    assert forall k :: k in Hints ==> Hints[k] != DefaultHint;
    var key := ToLower(theme);
    if key in Hints then Hints[key] else DefaultHint
  }

  /** The lookup ignores case. */
  lemma HintFacts(theme: string)
    ensures HintForTheme(ToUpper(theme)) == HintForTheme(theme)
    ensures HintForTheme(ToLower(theme)) == HintForTheme(theme)
  {
    ToLowerIdempotent(theme);
  }

  /** The entry at position `index` of the list, converted. */
  function Convert(e: CuratedEntry, index: nat): (r: CuratedPuzzle)
    ensures r.lichessId == e.id && r.fen == e.fen && r.rating == e.rating
    ensures r.difficulty == e.difficulty && r.description == e.description
    ensures !r.solved && r.source == "lichess"
  {
    var moves := SplitOn(e.moves, ' ');
    var themes := SplitOn(e.themes, ' ');
    CuratedPuzzle(
      id := IdPrefix + JsNumber.NatToString(index + 1),
      lichessId := e.id,
      fen := e.fen,
      difficulty := e.difficulty,
      theme := Capitalize(themes[0]),
      rating := e.rating,
      description := e.description,
      hint := HintForTheme(themes[0]),
      solution := moves,
      orientation := if Contains(e.fen, " w ") then White else Black,
      solved := false,
      themes := themes,
      source := "lichess")
  }

  /** `createCuratedPuzzleSet`: one record per entry, in order. */
  function CreateCuratedPuzzleSet(list: seq<CuratedEntry>): (r: seq<CuratedPuzzle>)
    ensures |r| == |list|
    ensures forall i :: 0 <= i < |list| ==> r[i] == Convert(list[i], i)
  {
    seq(|list|, i requires 0 <= i < |list| => Convert(list[i], i))
  }

  /** What each record keeps of its entry: the Lichess id, the FEN, rating,
      difficulty and description unchanged; the moves and themes split on spaces
      and joinable back into the originals; the first theme capitalised as the
      primary theme and looked up for the hint; white to play exactly when the FEN
      holds `" w "`. */
  lemma ConvertFacts(e: CuratedEntry, index: nat)
    ensures var p := Convert(e, index);
      p.lichessId == e.id && p.fen == e.fen && p.rating == e.rating
      && p.difficulty == e.difficulty && p.description == e.description
      && Join(p.solution, " ") == e.moves && Join(p.themes, " ") == e.themes
      && |p.themes| >= 1 && p.theme == Capitalize(p.themes[0])
      && p.hint == HintForTheme(p.themes[0])
      && (p.orientation == White <==> Contains(e.fen, " w "))
      && !p.solved && p.source == "lichess"
  {
    JoinSplitOn(e.moves, ' ');
    JoinSplitOn(e.themes, ' ');
  }

  /** The printed numbers determine the number they print. */
  lemma NatToStringInjective(a: nat, b: nat)
    requires JsNumber.NatToString(a) == JsNumber.NatToString(b)
    ensures a == b
  {
    JsNumber.NatToStringValue(a);
    JsNumber.NatToStringValue(b);
  }

  /** Ids are `imported_1`, `imported_2`, ... and so no two records share one. */
  lemma IdsDistinct(list: seq<CuratedEntry>, i: nat, j: nat)
    requires i < j < |list|
    ensures CreateCuratedPuzzleSet(list)[i].id != CreateCuratedPuzzleSet(list)[j].id
  {
    var r := CreateCuratedPuzzleSet(list);
    var a := JsNumber.NatToString(i + 1);
    var b := JsNumber.NatToString(j + 1);
    if r[i].id == r[j].id {
      assert (IdPrefix + a)[|IdPrefix|..] == a;
      assert (IdPrefix + b)[|IdPrefix|..] == b;
      NatToStringInjective(i + 1, j + 1);
    }
  }

  /** The difficulty breakdown `main` prints, as `Object.entries` of the counts. */
  function DifficultyCounts(puzzles: seq<CuratedPuzzle>): seq<(string, nat)> {
    JsArray.Tally(JsArray.Map(puzzles, (p: CuratedPuzzle) => p.difficulty))
  }

  /** The theme breakdown `main` prints. */
  function ThemeCounts(puzzles: seq<CuratedPuzzle>): seq<(string, nat)> {
    JsArray.Tally(JsArray.Map(puzzles, (p: CuratedPuzzle) => p.theme))
  }

  /** Each breakdown lists every label once, with the number of
      records carrying it, and its counts add up to the total. */
  lemma SummaryCounts(puzzles: seq<CuratedPuzzle>)
    ensures JsArray.SumCounts(DifficultyCounts(puzzles)) == |puzzles|
    ensures JsArray.SumCounts(ThemeCounts(puzzles)) == |puzzles|
    ensures JsArray.NoDuplicates(JsArray.Keys(DifficultyCounts(puzzles)))
    ensures JsArray.NoDuplicates(JsArray.Keys(ThemeCounts(puzzles)))
    ensures forall d ::
      JsArray.CountOf(DifficultyCounts(puzzles), d) == JsArray.Occurrences(JsArray.Map(puzzles, (p: CuratedPuzzle) => p.difficulty), d)
    ensures forall t ::
      JsArray.CountOf(ThemeCounts(puzzles), t) == JsArray.Occurrences(JsArray.Map(puzzles, (p: CuratedPuzzle) => p.theme), t)
  {
    JsArray.TallyFacts(JsArray.Map(puzzles, (p: CuratedPuzzle) => p.difficulty));
    JsArray.TallyFacts(JsArray.Map(puzzles, (p: CuratedPuzzle) => p.theme));
  }
}
