/**
 * The sample importer: it trims the CSV text, splits it into lines, splits the
 * header on raw commas, keeps the data rows whose untrimmed field count matches the
 * header, and converts each into a site puzzle. A row whose conversion throws (a
 * missing `Moves` or `Themes` field, or a FEN the rules library refuses) is skipped.
 */
module PuzzleImporter {
  import opened Wrappers
  import opened JsString
  import JsNumber
  import JsArray
  import CsvLine
  import Chess
  import opened Labels

  /** The offset added to a data line's index to form its id. */
  const IdOffset: int := 1000

  /** An imported puzzle. `rating` is None when the field does not parse (NaN). */
  datatype ImportedPuzzle = ImportedPuzzle(
    id: int, fen: Option<string>, difficulty: Level, theme: string, rating: Option<int>,
    description: string, hint: string, solution: seq<string>, orientation: Side,
    solved: bool, lichessId: Option<string>, gameUrl: Option<string>,
    themes: seq<string>, popularity: int, nbPlays: int)

  // ---------------------------------------------------------------------------
  // Move replay (`convertUciToSan`)
  // ---------------------------------------------------------------------------

  /** `convertUciToSan` from the loaded position: a move the rules refuse (null) is
      skipped and the replay goes on from the same position; a move they raise on
      ends it. */
  function Replay<P>(rules: Chess.Rules<P>, pos: P, ms: seq<string>): (r: seq<string>)
    ensures |r| <= |ms|
    decreases |ms|
  {
    if ms == [] then []
    else
      match rules.move(pos, Chess.UciRequest(ms[0]))
      case Played(next, m) => [m.san] + Replay(rules, next, ms[1..])
      case Refused => Replay(rules, pos, ms[1..])
      case Raised => []
  }

  method ConvertUciToSan<P>(rules: Chess.Rules<P>, pos: P, ms: seq<string>)
    returns (sans: seq<string>)
    ensures sans == Replay(rules, pos, ms)
  {
    var game := pos;
    sans := [];
    var i := 0;
    while i < |ms|
      invariant 0 <= i <= |ms|
      invariant sans + Replay(rules, game, ms[i..]) == Replay(rules, pos, ms)
    {
      assert ms[i..][1..] == ms[i + 1..];
      var outcome := rules.move(game, Chess.UciRequest(ms[i]));
      match outcome {
        case Played(next, m) =>
          sans := sans + [m.san];
          game := next;
        case Refused =>
        case Raised =>
          assert sans == Replay(rules, pos, ms);
          return;
      }
      i := i + 1;
    }
  }

  /** The rules never answer null. */
  ghost predicate NeverRefuses<P(!new)>(rules: Chess.Rules<P>) {
    forall pos, req :: !rules.move(pos, req).Refused?
  }

  /** With rules that throw on every illegal move instead of answering null, the
      replay is the legal replay that stops at the first illegal move. */
  lemma {:induction false} ReplayWithoutRefusals<P(!new)>(rules: Chess.Rules<P>, pos: P, ms: seq<string>)
    requires NeverRefuses(rules)
    ensures Replay(rules, pos, ms) == Chess.PlayWhileLegal(rules, pos, ms)
    decreases |ms|
  {
    if ms != [] {
      match rules.move(pos, Chess.UciRequest(ms[0]))
      case Played(next, m) =>
        ReplayWithoutRefusals(rules, next, ms[1..]);
      case Refused =>
      case Raised =>
    }
  }

  /** A refused move is skipped: the replay continues with the next token from the
      same position. */
  lemma ReplaySkipsRefused<P>(rules: Chess.Rules<P>, pos: P, m: string, ms: seq<string>)
    requires rules.move(pos, Chess.UciRequest(m)).Refused?
    ensures Replay(rules, pos, [m] + ms) == Replay(rules, pos, ms)
  {
    assert ([m] + ms)[1..] == ms;
  }

  // ---------------------------------------------------------------------------
  // Lookup tables (`mapLichessTheme`, `generateDescription`, `generateHint`)
  // ---------------------------------------------------------------------------

  /** The importer's own theme table. */
  const ThemeMap: map<string, string> := map[
    "mate" := "Mate", "mateIn1" := "Mate in 1", "mateIn2" := "Mate in 2",
    "mateIn3" := "Mate in 3", "pin" := "Pin", "fork" := "Fork", "skewer" := "Skewer",
    "sacrifice" := "Sacrifice", "deflection" := "Deflection", "decoy" := "Decoy",
    "discovery" := "Discovery", "clearance" := "Clearance",
    "interference" := "Interference", "advantage" := "Tactical Advantage",
    "endgame" := "Endgame", "middlegame" := "Middlegame", "opening" := "Opening",
    "promotion" := "Promotion", "underPromotion" := "Under Promotion",
    "castling" := "Castling", "enPassant" := "En Passant", "zugzwang" := "Zugzwang",
    "x-ray" := "X-Ray", "doubleBishop" := "Bishop Pair", "doubleRook" := "Rook Pair"]

  const UnknownTheme: string := "Tactical"

  /** `mapLichessTheme`: an unknown theme, and only an unknown one, becomes
      `Tactical`; no entry maps to an empty name. */
  function MapTheme(t: string): (r: string)
    ensures r == UnknownTheme <==> t !in ThemeMap
    ensures r != ""
  {
    assert forall k :: k in ThemeMap ==> ThemeMap[k] != UnknownTheme && ThemeMap[k] != "";
    if t in ThemeMap then ThemeMap[t] else UnknownTheme
  }

  /** `generateHint`'s table, keyed by mapped theme. */
  const Hints: map<string, string> := map[
    "Mate" := "Look for forcing moves that lead to checkmate.",
    "Mate in 1" := "Find the checkmate in one move.",
    "Mate in 2" := "Find the checkmate in two moves.",
    "Pin" := "Look for pieces that cannot move without exposing a more valuable piece.",
    "Fork" := "Find a move that attacks two or more pieces simultaneously.",
    "Skewer" := "Attack a valuable piece to force it to move and capture a less valuable piece behind it.",
    "Sacrifice" := "Consider giving up material for a tactical advantage.",
    "Endgame" := "Focus on precise calculation and pawn promotion.",
    "Discovery" := "Move a piece to reveal an attack from another piece."]

  const DefaultHint: string := "Look for tactical patterns and forcing moves."

  /** `generateHint`: the list of themes plays no part, and the generic hint is given
      exactly for a theme the table lacks. */
  function Hint(primary: string): (r: string)
    ensures r == DefaultHint <==> primary !in Hints
  {
    assert forall k :: k in Hints ==> Hints[k] != DefaultHint;
    if primary in Hints then Hints[primary] else DefaultHint
  }

  const DefaultDescription: string := "Find the best tactical continuation."

  /** The themes `generateDescription` looks for, highest priority first, with their
      texts. */
  const DescriptionOrder: seq<(string, string)> := [
    ("mate", "Find the checkmate sequence."),
    ("pin", "Exploit the pin to win material."),
    ("fork", "Use a fork to attack multiple pieces."),
    ("sacrifice", "Find the tactical sacrifice."),
    ("endgame", "Navigate this endgame correctly.")]

  /** The text of the first entry, in order, whose theme is present. */
  function FirstPresent(order: seq<(string, string)>, themes: seq<string>): Option<string>
    decreases |order|
  {
    if order == [] then None
    else if order[0].0 in themes then Some(order[0].1)
    else FirstPresent(order[1..], themes)
  }

  /** `generateDescription`: the text of the highest-priority theme present among
      mate, pin, fork, sacrifice and endgame, or the default when none of the five
      is. */
  function Description(themes: seq<string>): (r: string)
    ensures r == FirstPresent(DescriptionOrder, themes).GetOr(DefaultDescription)
  {
    var o := DescriptionOrder;
    assert o[1..][1..][1..][1..][1..] == [];
    if "mate" in themes then "Find the checkmate sequence."
    else if "pin" in themes then "Exploit the pin to win material."
    else if "fork" in themes then "Use a fork to attack multiple pieces."
    else if "sacrifice" in themes then "Find the tactical sacrifice."
    else if "endgame" in themes then "Navigate this endgame correctly."
    else DefaultDescription
  }

  // ---------------------------------------------------------------------------
  // Conversion (`convertToPlatformFormat`)
  // ---------------------------------------------------------------------------

  /** `parseInt(record.Key)`: an absent field parses to NaN. */
  function NumberField(o: Option<string>): Option<int> {
    match o
    case None => None
    case Some(s) => JsNumber.ParseInt(s, false)
  }

  /** `convertToPlatformFormat`: None when it throws, that is when `Moves` or
      `Themes` is absent (`undefined.split`) or `new Chess(FEN)` throws. */
  function ConvertToPlatform<P>(rules: Chess.Rules<P>, data: map<string, string>, index: int): (r: Option<ImportedPuzzle>)
    ensures r.None? <==> "Moves" !in data || "Themes" !in data || Chess.Load(rules, CsvLine.Get(data, "FEN")).None?
    ensures r.Some? ==> r.value.id == index + IdOffset && r.value.hint == Hint(r.value.theme) && !r.value.solved
  {
    var rating := NumberField(CsvLine.Get(data, "Rating"));
    var difficulty := RatingLevel(rating);
    var fen := CsvLine.Get(data, "FEN");
    var game := Chess.Load(rules, fen);
    if "Moves" !in data || "Themes" !in data || game.None? then None
    else
      var themes := SplitOn(data["Themes"], ' ');
      var primary := MapTheme(themes[0]);
      Some(ImportedPuzzle(
        index + IdOffset, fen, difficulty, primary, rating,
        LevelName(difficulty) + " " + ToLower(primary) + " puzzle. " + Description(themes),
        Hint(primary), Replay(rules, game.value, SplitOn(data["Moves"], ' ')),
        if rules.whiteToMove(game.value) then White else Black, false,
        CsvLine.Get(data, "PuzzleId"), CsvLine.Get(data, "GameUrl"), themes,
        JsNumber.OrDefault(NumberField(CsvLine.Get(data, "Popularity")), 0),
        JsNumber.OrDefault(NumberField(CsvLine.Get(data, "NbPlays")), 0)))
  }

  method ConvertToPlatformFormat<P>(rules: Chess.Rules<P>, data: map<string, string>, index: int)
    returns (puzzle: Option<ImportedPuzzle>)
    ensures puzzle == ConvertToPlatform(rules, data, index)
  {
    var rating := NumberField(CsvLine.Get(data, "Rating"));
    var difficulty := RatingLevel(rating);
    if "Moves" !in data {
      return None;
    }
    var uciMoves := SplitOn(data["Moves"], ' ');
    var game := Chess.Load(rules, CsvLine.Get(data, "FEN"));
    if game.None? {
      return None;
    }
    var sans := ConvertUciToSan(rules, game.value, uciMoves);
    if "Themes" !in data {
      return None;
    }
    var themes := SplitOn(data["Themes"], ' ');
    var primary := MapTheme(themes[0]);
    var orientation := if rules.whiteToMove(game.value) then White else Black;
    puzzle := Some(ImportedPuzzle(
      index + IdOffset, CsvLine.Get(data, "FEN"), difficulty, primary, rating,
      LevelName(difficulty) + " " + ToLower(primary) + " puzzle. " + Description(themes),
      Hint(primary), sans, orientation, false,
      CsvLine.Get(data, "PuzzleId"), CsvLine.Get(data, "GameUrl"), themes,
      JsNumber.OrDefault(NumberField(CsvLine.Get(data, "Popularity")), 0),
      JsNumber.OrDefault(NumberField(CsvLine.Get(data, "NbPlays")), 0)));
  }

  /** What a converted puzzle holds: id `index + 1000`; the rating as parsed, with no
      fallback, so that one that does not parse is Hard; a replay no longer than the
      move tokens; the themes, which join back to the field; the hint of the mapped
      first theme; play counts that are never NaN. */
  lemma ConvertFacts<P>(rules: Chess.Rules<P>, data: map<string, string>, index: int)
    ensures ConvertToPlatform(rules, data, index).None? <==>
      "Moves" !in data || "Themes" !in data || Chess.Load(rules, CsvLine.Get(data, "FEN")).None?
    ensures ConvertToPlatform(rules, data, index).Some? ==>
      var p := ConvertToPlatform(rules, data, index).value;
      p.id == index + IdOffset
      && p.rating == NumberField(CsvLine.Get(data, "Rating"))
      && (p.rating.None? ==> p.difficulty == Hard)
      && |p.solution| <= |SplitOn(data["Moves"], ' ')|
      && Join(p.themes, " ") == data["Themes"]
      && p.theme == MapTheme(p.themes[0]) && p.hint == Hint(p.theme)
      && !p.solved
  {
    if "Moves" in data && "Themes" in data {
      JoinSplitOn(data["Themes"], ' ');
    }
  }

  // ---------------------------------------------------------------------------
  // The whole text (`parseCsvData`)
  // ---------------------------------------------------------------------------

  /** `csvData.trim().split('\n')`. */
  function Lines(csvData: string): (r: seq<string>)
    ensures |r| >= 1
  {
    SplitOn(Trim(csvData), '\n')
  }

  /** `lines[0].split(',')`: the header is split on every comma, quotes and all. */
  function Headers(lines: seq<string>): seq<string>
    requires |lines| >= 1
  {
    SplitOn(lines[0], ',')
  }

  /** The conversion of data line `i`, or None when its untrimmed field count differs
      from the header's or its conversion throws. */
  function ImportLine<P>(rules: Chess.Rules<P>, headers: seq<string>, line: string, i: int): Option<ImportedPuzzle> {
    var values := CsvLine.RawFields(line);
    if |values| != |headers| then None
    else ConvertToPlatform(rules, CsvLine.Record(headers, values), i)
  }

  /** The data lines with their indices: the one at position `k` is line `k + 1`. */
  function Numbered(lines: seq<string>): (r: seq<(int, string)>)
    requires |lines| >= 1
    ensures |r| == |lines| - 1
    ensures forall k :: 0 <= k < |r| ==> r[k] == (k + 1, lines[k + 1])
  {
    seq(|lines| - 1, k requires 0 <= k < |lines| - 1 => (k + 1, lines[k + 1]))
  }

  function ImportWith<P>(rules: Chess.Rules<P>, headers: seq<string>): ((int, string)) -> Option<ImportedPuzzle> {
    (line: (int, string)) => ImportLine(rules, headers, line.1, line.0)
  }

  /** The puzzles `parseCsvData` returns: the data lines' conversions, in order,
      skipping the lines that give none. */
  function Imported<P>(rules: Chess.Rules<P>, csvData: string): (r: seq<ImportedPuzzle>)
    ensures |r| < |Lines(csvData)|
  {
    var lines := Lines(csvData);
    JsArray.FilterMap(Numbered(lines), ImportWith(rules, Headers(lines)))
  }

  /** One data line, with the splitting and conversion kept out of the caller. */
  method ImportRow<P>(rules: Chess.Rules<P>, headers: seq<string>, line: string, i: int)
    returns (o: Option<ImportedPuzzle>)
    ensures o == ImportLine(rules, headers, line, i)
  {
    var values := CsvLine.ParseCsvLineUntrimmed(line);
    if |values| != |headers| {
      return None;
    }
    o := ConvertToPlatformFormat(rules, CsvLine.Record(headers, values), i);
  }

  /** One turn of `parseCsvData`'s loop: line `i` adds its conversion, if any. */
  lemma ImportStep<P>(rules: Chess.Rules<P>, headers: seq<string>, lines: seq<string>, i: nat,
                      converted: Option<ImportedPuzzle>)
    requires 1 <= i < |lines| && converted == ImportLine(rules, headers, lines[i], i)
    ensures JsArray.FilterMap(Numbered(lines)[..i], ImportWith(rules, headers))
      == JsArray.FilterMap(Numbered(lines)[..i - 1], ImportWith(rules, headers))
         + (if converted.Some? then [converted.value] else [])
  {
    var numbered := Numbered(lines);
    var f := ImportWith(rules, headers);
    assert numbered[i - 1] == (i, lines[i]);
    assert f(numbered[i - 1]) == converted;
    JsArray.FilterMapPrefix(numbered, i - 1, f);
  }

  /** `parseCsvData`. */
  method ParseCsvData<P>(rules: Chess.Rules<P>, csvData: string) returns (puzzles: seq<ImportedPuzzle>)
    ensures puzzles == Imported(rules, csvData)
  {
    var lines := SplitOn(Trim(csvData), '\n');
    assert lines == Lines(csvData);
    var headers := SplitOn(lines[0], ',');
    assert headers == Headers(lines);
    ghost var numbered := Numbered(lines);
    ghost var f := ImportWith(rules, headers);
    assert Imported(rules, csvData) == JsArray.FilterMap(numbered, f);
    puzzles := [];
    var i := 1;
    while i < |lines|
      invariant 1 <= i <= |lines|
      invariant puzzles == JsArray.FilterMap(numbered[..i - 1], f)
    {
      var converted := ImportRow(rules, headers, lines[i], i);
      ImportStep(rules, headers, lines, i, converted);
      if converted.Some? {
        puzzles := puzzles + [converted.value];
      }
      i := i + 1;
    }
    assert numbered[..|lines| - 1] == numbered;
  }

  function IdOf(p: ImportedPuzzle): int {
    p.id
  }

  /** The puzzles come in line order with strictly increasing ids, each between
      `1001` and `1000` plus the number of data lines; a text with no newline after
      trimming gives none. */
  lemma ImportedOrder<P>(rules: Chess.Rules<P>, csvData: string)
    ensures |Imported(rules, csvData)| <= |Lines(csvData)| - 1
    ensures forall a, b :: 0 <= a < b < |Imported(rules, csvData)| ==>
      Imported(rules, csvData)[a].id < Imported(rules, csvData)[b].id
    ensures forall k :: 0 <= k < |Imported(rules, csvData)| ==>
      1 + IdOffset <= Imported(rules, csvData)[k].id < |Lines(csvData)| + IdOffset
    ensures '\n' !in Trim(csvData) ==> Imported(rules, csvData) == []
  {
    var lines := Lines(csvData);
    var f := ImportWith(rules, Headers(lines));
    ImportWithIds(rules, lines);
    NumberedIds(lines, f);
    assert Imported(rules, csvData) == JsArray.FilterMap(Numbered(lines), f);
    if '\n' !in Trim(csvData) {
      SplitFromWithout(Trim(csvData), '\n', "");
    }
  }

  /** Puzzle `p` is the conversion of the data line its id names: that line has as
      many untrimmed fields as the header and converts without throwing. */
  predicate FromLine<P>(rules: Chess.Rules<P>, headers: seq<string>, lines: seq<string>, p: ImportedPuzzle) {
    1 <= p.id - IdOffset < |lines|
    && ImportLine(rules, headers, lines[p.id - IdOffset], p.id - IdOffset) == Some(p)
  }

  /** Every puzzle comes from the data line its id names. */
  lemma ImportedFromLines<P>(rules: Chess.Rules<P>, csvData: string)
    ensures forall k :: 0 <= k < |Imported(rules, csvData)| ==>
      FromLine(rules, Headers(Lines(csvData)), Lines(csvData), Imported(rules, csvData)[k])
  {
    var lines := Lines(csvData);
    var headers := Headers(lines);
    var f := ImportWith(rules, headers);
    ImportWithIds(rules, lines);
    NumberedIds(lines, f);
    assert Imported(rules, csvData) == JsArray.FilterMap(Numbered(lines), f);
    LinesOfIds(rules, headers, lines, Imported(rules, csvData));
  }

  lemma LinesOfIds<P>(rules: Chess.Rules<P>, headers: seq<string>, lines: seq<string>, out: seq<ImportedPuzzle>)
    requires forall k :: 0 <= k < |out| ==>
      1 + IdOffset <= out[k].id < |lines| + IdOffset
      && ImportWith(rules, headers)((out[k].id - IdOffset, lines[out[k].id - IdOffset])) == Some(out[k])
    ensures forall k :: 0 <= k < |out| ==> FromLine(rules, headers, lines, out[k])
  {
    forall k | 0 <= k < |out|
      ensures FromLine(rules, headers, lines, out[k])
    {
      var i := out[k].id - IdOffset;
      ImportWithApply(rules, headers, i, lines[i], out[k]);
    }
  }

  lemma ImportWithApply<P>(rules: Chess.Rules<P>, headers: seq<string>, i: int, line: string, p: ImportedPuzzle)
    requires ImportWith(rules, headers)((i, line)) == Some(p)
    ensures ImportLine(rules, headers, line, i) == Some(p)
  {
  }

  lemma ImportWithIds<P>(rules: Chess.Rules<P>, lines: seq<string>)
    requires |lines| >= 1
    ensures forall i :: 1 <= i < |lines| && ImportWith(rules, Headers(lines))((i, lines[i])).Some? ==>
      ImportWith(rules, Headers(lines))((i, lines[i])).value.id == i + IdOffset
  {
    forall i | 1 <= i < |lines| && ImportWith(rules, Headers(lines))((i, lines[i])).Some?
      ensures ImportWith(rules, Headers(lines))((i, lines[i])).value.id == i + IdOffset
    {
      ImportLineId(rules, Headers(lines), lines[i], i);
    }
  }

  /** For any conversion of numbered lines that gives line `i` the id `i + 1000`. */
  lemma NumberedIds(lines: seq<string>, f: ((int, string)) -> Option<ImportedPuzzle>)
    requires |lines| >= 1
    requires forall i :: 1 <= i < |lines| && f((i, lines[i])).Some? ==>
      f((i, lines[i])).value.id == i + IdOffset
    ensures forall a, b :: 0 <= a < b < |JsArray.FilterMap(Numbered(lines), f)| ==>
      JsArray.FilterMap(Numbered(lines), f)[a].id < JsArray.FilterMap(Numbered(lines), f)[b].id
    ensures forall k :: 0 <= k < |JsArray.FilterMap(Numbered(lines), f)| ==>
      1 + IdOffset <= JsArray.FilterMap(Numbered(lines), f)[k].id < |lines| + IdOffset
      && f((JsArray.FilterMap(Numbered(lines), f)[k].id - IdOffset,
            lines[JsArray.FilterMap(Numbered(lines), f)[k].id - IdOffset]))
         == Some(JsArray.FilterMap(Numbered(lines), f)[k])
  {
    var numbered := Numbered(lines);
    var id: ImportedPuzzle -> int := IdOf;
    forall k | 0 <= k < |numbered| && f(numbered[k]).Some?
      ensures id(f(numbered[k]).value) == 1 + IdOffset + k
    {
      assert numbered[k] == (k + 1, lines[k + 1]);
    }
    JsArray.FilterMapIds(numbered, f, id, 1 + IdOffset);
    var out := JsArray.FilterMap(numbered, f);
    forall k | 0 <= k < |out|
      ensures 1 + IdOffset <= out[k].id < |lines| + IdOffset
      ensures f((out[k].id - IdOffset, lines[out[k].id - IdOffset])) == Some(out[k])
    {
      var j := id(out[k]) - (1 + IdOffset);
      assert numbered[j] == (j + 1, lines[j + 1]);
    }
    assert forall a, b :: 0 <= a < b < |out| ==> id(out[a]) < id(out[b]);
  }

  lemma ImportLineId<P>(rules: Chess.Rules<P>, headers: seq<string>, line: string, i: int)
    ensures ImportLine(rules, headers, line, i).Some? ==> ImportLine(rules, headers, line, i).value.id == i + IdOffset
  {
  }

  /** The header has one more name than its first line has commas. */
  lemma HeaderCount(csvData: string)
    ensures |Headers(Lines(csvData))| == Occurrences(Lines(csvData)[0], ',') + 1
  {
    SplitOnPieces(Lines(csvData)[0], ',');
  }
}
