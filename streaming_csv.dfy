/**
 * The streaming converter of the Lichess puzzle CSV: it reads the file line by
 * line with a fixed header list, keeps up to `limit` rows that have enough fields,
 * converts them into the site's puzzle records with default values, drops records
 * without a position or moves, and writes them with summary metadata.
 *
 * The processor object only holds its options, which nothing changes after
 * construction, so the limit is a parameter here; the file is the sequence of its
 * lines.
 */
module StreamingCsv {
  import opened Wrappers
  import opened JsString
  import JsNumber
  import JsArray
  import CsvLine

  /** The default of the `limit` option. */
  const DefaultLimit: int := 4000

  /** The names the fields of a line are stored under, in order. */
  const Headers: seq<string> := ["PuzzleId", "FEN", "Moves", "Rating", "RatingDeviation",
                                 "Popularity", "NbPlays", "Themes", "GameUrl", "Opening"]

  /** The fewest fields a line must have to be kept. */
  const MinFields: nat := 8

  /** A parsed line: one string per header. */
  datatype Row = Row(puzzleId: string, fen: string, moves: string, rating: string,
                     ratingDeviation: string, popularity: string, nbPlays: string,
                     themes: string, gameUrl: string, opening: string)

  /** The row's strings in header order. */
  function RowFields(r: Row): (fs: seq<string>)
    ensures |fs| == |Headers|
  {
    [r.puzzleId, r.fen, r.moves, r.rating, r.ratingDeviation, r.popularity, r.nbPlays,
     r.themes, r.gameUrl, r.opening]
  }

  /** `values[index] || ''`. */
  function FieldOr(values: seq<string>, k: nat): string {
    if k < |values| then values[k] else ""
  }

  /** The row built by storing `values[index] || ''` under each header: positions no
      value reaches are empty, and values past the last header are dropped. */
  function RowOf(values: seq<string>): (r: Row)
    ensures forall k :: 0 <= k < |Headers| ==> RowFields(r)[k] == FieldOr(values, k)
  {
    Row(FieldOr(values, 0), FieldOr(values, 1), FieldOr(values, 2), FieldOr(values, 3),
        FieldOr(values, 4), FieldOr(values, 5), FieldOr(values, 6), FieldOr(values, 7),
        FieldOr(values, 8), FieldOr(values, 9))
  }

  /** The fields of a line, split after trimming the line. */
  function LineValues(line: string): seq<string> {
    CsvLine.Trimmed(CsvLine.RawFields(Trim(line)))
  }

  /** A line becomes a row when it is not blank and has at least eight fields. */
  predicate Qualifies(line: string) {
    Trim(line) != "" && |LineValues(line)| >= MinFields
  }

  /** The row a qualifying line gives. */
  function LineRow(line: string): Row {
    RowOf(LineValues(line))
  }

  /** What the line listener makes of one line below the limit. */
  function Inspect(line: string): Option<Row> {
    if Qualifies(line) then Some(LineRow(line)) else None
  }

  /** The rows of every qualifying line, in order, with no limit. */
  function Admitted(lines: seq<string>): (r: seq<Row>)
    ensures |r| <= |lines|
  {
    if lines == [] then []
    else
      var last := Inspect(lines[|lines| - 1]);
      Admitted(lines[..|lines| - 1]) + (if last.Some? then [last.value] else [])
  }

  /** `parseCSVStream`: the rows collected before the count reaches `limit`. A line
      that arrives once the limit is reached is ignored whatever it holds. */
  method ParseCsvStream(lines: seq<string>, limit: int) returns (puzzles: seq<Row>)
    ensures puzzles == JsArray.Take(Admitted(lines), limit)
  {
    puzzles := [];
    var processedCount := 0;
    var i := 0;
    while i < |lines|
      invariant 0 <= i <= |lines|
      invariant puzzles == JsArray.Take(Admitted(lines[..i]), limit)
      invariant processedCount == |puzzles|
    {
      AdmitStep(lines, i, limit, puzzles);
      puzzles, processedCount := OnLine(lines[i], puzzles, processedCount, limit);
      i := i + 1;
    }
    assert lines[..|lines|] == lines;
  }

  /** The line listener: below the limit a qualifying line adds its row and counts
      it; at the limit the line is ignored. */
  method OnLine(line: string, puzzles: seq<Row>, processedCount: int, limit: int)
    returns (puzzles': seq<Row>, processedCount': int)
    ensures puzzles' == if processedCount < limit && Inspect(line).Some?
                        then puzzles + [Inspect(line).value] else puzzles
    ensures processedCount' == if puzzles' == puzzles then processedCount else processedCount + 1
  {
    puzzles', processedCount' := puzzles, processedCount;
    if processedCount < limit {
      var row := AdmitLine(line);
      if row.Some? {
        puzzles' := puzzles + [row.value];
        processedCount' := processedCount + 1;
      }
    }
  }

  /** One more line: its row is kept when it has one and the count is below the
      limit. */
  lemma AdmitStep(lines: seq<string>, i: nat, limit: int, kept: seq<Row>)
    requires i < |lines|
    requires kept == JsArray.Take(Admitted(lines[..i]), limit)
    ensures var row := Inspect(lines[i]);
      JsArray.Take(Admitted(lines[..i + 1]), limit)
      == if |kept| < limit && row.Some? then kept + [row.value] else kept
  {
    var row := Inspect(lines[i]);
    assert lines[..i + 1][..i] == lines[..i];
    var before := Admitted(lines[..i]);
    if row.Some? {
      assert Admitted(lines[..i + 1]) == before + [row.value];
      JsArray.TakeSnoc(before, row.value, limit);
    } else {
      assert Admitted(lines[..i + 1]) == before;
    }
  }

  /** The body of the line listener below the limit check: a blank line is skipped,
      and otherwise the trimmed line is split and kept if it has enough fields. */
  method AdmitLine(line: string) returns (row: Option<Row>)
    ensures row == Inspect(line)
  {
    if Trim(line) == "" {
      return None;
    }
    var values := CsvLine.ParseCsvLine(Trim(line));
    if |values| >= MinFields {
      row := Some(RowOf(values));
    } else {
      row := None;
    }
  }

  /** The kept rows are the rows of the qualifying lines in order. */
  lemma AdmittedIsFilter(lines: seq<string>)
    ensures Admitted(lines) == JsArray.Map(JsArray.Filter(lines, Qualifies), LineRow)
  {
    AdmittedIsFilterMap(lines);
    JsArray.FilterMapIsFilter(lines, Inspect, Qualifies, LineRow);
  }

  lemma {:induction false} AdmittedIsFilterMap(lines: seq<string>)
    ensures Admitted(lines) == JsArray.FilterMap(lines, Inspect)
  {
    if lines != [] {
      AdmittedIsFilterMap(lines[..|lines| - 1]);
    }
  }

  /** At most `limit` rows are kept, each the row of a non-blank line with at least
      eight fields, in the order of the lines. */
  lemma AdmittedRows(lines: seq<string>, limit: int)
    requires limit >= 0
    ensures |JsArray.Take(Admitted(lines), limit)| <= limit
    ensures JsArray.Take(Admitted(lines), limit)
         == JsArray.Map(JsArray.Take(JsArray.Filter(lines, Qualifies), limit), LineRow)
    ensures forall k :: 0 <= k < |JsArray.Take(JsArray.Filter(lines, Qualifies), limit)| ==>
      var line := JsArray.Take(JsArray.Filter(lines, Qualifies), limit)[k];
      line in lines && Trim(line) != "" && |LineValues(line)| >= MinFields
  {
    AdmittedIsFilter(lines);
    var q := JsArray.Filter(lines, Qualifies);
    var t := JsArray.Take(q, limit);
    assert t == q[..|t|];
    forall k | 0 <= k < |t| ensures t[k] in lines && Qualifies(t[k]) {
      assert t[k] == q[k] && q[k] in q;
    }
  }

  /** A stored row never holds more than the ten header fields, and every field a
      short line lacks is empty. */
  lemma RowOfShort(values: seq<string>, k: nat)
    requires |values| <= k < |Headers|
    ensures RowFields(RowOf(values))[k] == ""
  {
  }

  /** The level `getDifficulty` assigns. */
  datatype Difficulty = Beginner | Intermediate | Advanced | Expert

  function Rank(d: Difficulty): nat {
    match d
    case Beginner => 0
    case Intermediate => 1
    case Advanced => 2
    case Expert => 3
  }

  /** Below 1200 beginner, below 1600 intermediate, below 2000 advanced, otherwise
      expert. */
  function GetDifficulty(rating: int): (d: Difficulty)
    ensures d == Beginner <==> rating < 1200
    ensures d == Intermediate <==> 1200 <= rating < 1600
    ensures d == Advanced <==> 1600 <= rating < 2000
    ensures d == Expert <==> 2000 <= rating
  {
    if rating < 1200 then Beginner
    else if rating < 1600 then Intermediate
    else if rating < 2000 then Advanced
    else Expert
  }

  /** A higher rating never gives a lower level. */
  lemma DifficultyMonotone(a: int, b: int)
    requires a <= b
    ensures Rank(GetDifficulty(a)) <= Rank(GetDifficulty(b))
  {
  }

  /** A converted record. */
  datatype Puzzle = Puzzle(id: string, fen: string, moves: seq<string>, rating: int,
                           themes: seq<string>, popularity: int, nbPlays: int,
                           gameUrl: string, difficulty: Difficulty)

  const DefaultRating: int := 1500

  /** The record for row `i`. */
  function ConvertOne(row: Row, i: nat): (r: Puzzle)
    ensures r.rating != 0 && r.difficulty == GetDifficulty(r.rating) && |r.themes| >= 1
    ensures r.fen == row.fen && (r.moves == [] <==> row.moves == "")
  {
    var rating := JsNumber.OrDefault(JsNumber.ParseInt(row.rating, false), DefaultRating);
    Puzzle(
      if row.puzzleId != "" then row.puzzleId else "puzzle_" + JsNumber.IntToString(i + 1),
      row.fen,
      if row.moves != "" then SplitOn(row.moves, ' ') else [],
      rating,
      if row.themes != "" then SplitOn(row.themes, ' ') else ["puzzle"],
      JsNumber.OrDefault(JsNumber.ParseInt(row.popularity, false), 0),
      JsNumber.OrDefault(JsNumber.ParseInt(row.nbPlays, false), 0),
      row.gameUrl,
      GetDifficulty(rating))
  }

  /** The defaults of a record: a missing id becomes `puzzle_<i+1>`, a rating that
      parses to NaN or 0 becomes 1500 (so no rating is 0) and sets the difficulty,
      missing themes become `['puzzle']`, missing counts become 0. Moves and themes
      are the pieces of the space-separated fields, which join back to them. */
  lemma ConvertOneFacts(row: Row, i: nat)
    ensures var p := ConvertOne(row, i);
      p.id == (if row.puzzleId != "" then row.puzzleId else "puzzle_" + JsNumber.IntToString(i + 1))
      && p.fen == row.fen && p.gameUrl == row.gameUrl
      && p.rating == JsNumber.OrDefault(JsNumber.ParseInt(row.rating, false), DefaultRating)
      && p.rating != 0 && p.difficulty == GetDifficulty(p.rating)
      && p.popularity == JsNumber.OrDefault(JsNumber.ParseInt(row.popularity, false), 0)
      && p.nbPlays == JsNumber.OrDefault(JsNumber.ParseInt(row.nbPlays, false), 0)
      && ((p.moves == []) <==> row.moves == "")
      && (row.moves != "" ==> Join(p.moves, " ") == row.moves)
      && |p.themes| >= 1 && (row.themes == "" ==> p.themes == ["puzzle"])
      && (row.themes != "" ==> Join(p.themes, " ") == row.themes)
  {
    JoinSplitOn(row.moves, ' ');
    JoinSplitOn(row.themes, ' ');
  }

  /** Only records with a position and at least one move are written. */
  predicate Keep(p: Puzzle) {
    p.fen != "" && |p.moves| > 0
  }

  /** Every row converted with its own index. */
  function AllConverted(rows: seq<Row>): (r: seq<Puzzle>)
    ensures |r| == |rows| && forall i :: 0 <= i < |rows| ==> r[i] == ConvertOne(rows[i], i)
  {
    seq(|rows|, i requires 0 <= i < |rows| => ConvertOne(rows[i], i))
  }

  /** The records `convertPuzzles` keeps. */
  function Converted(rows: seq<Row>): seq<Puzzle> {
    JsArray.Filter(AllConverted(rows), Keep)
  }

  /** `convertPuzzles`. */
  method ConvertPuzzles(rows: seq<Row>) returns (converted: seq<Puzzle>)
    ensures converted == Converted(rows)
  {
    ghost var all := AllConverted(rows);
    converted := [];
    var i := 0;
    while i < |rows|
      invariant 0 <= i <= |rows|
      invariant converted == JsArray.Filter(all[..i], Keep)
    {
      var p := ConvertOne(rows[i], i);
      ConvertStep(all, i, p);
      if p.fen != "" && |p.moves| > 0 {
        converted := converted + [p];
      }
      i := i + 1;
    }
    assert all[..|rows|] == all;
  }

  /** One more record: it is kept when it has a position and moves. */
  lemma ConvertStep(all: seq<Puzzle>, i: nat, p: Puzzle)
    requires i < |all| && all[i] == p
    ensures JsArray.Filter(all[..i + 1], Keep) == JsArray.Filter(all[..i], Keep) + (if Keep(p) then [p] else [])
  {
    assert all[..i + 1] == all[..i] + [p];
    JsArray.FilterSnoc(all[..i], p, Keep);
  }

  /** The written records are converted rows in input order, each with a position
      and moves, a rating that is not 0, and the difficulty of that rating. */
  lemma ConvertedFacts(rows: seq<Row>)
    ensures |Converted(rows)| <= |rows|
    ensures JsArray.IsSubsequence(Converted(rows), AllConverted(rows))
    ensures forall p :: p in Converted(rows) ==>
      p.fen != "" && p.moves != [] && p.rating != 0 && p.difficulty == GetDifficulty(p.rating)
  {
    forall p | p in Converted(rows)
      ensures p.fen != "" && p.moves != [] && p.rating != 0 && p.difficulty == GetDifficulty(p.rating)
    {
      var i :| 0 <= i < |rows| && AllConverted(rows)[i] == p;
      ConvertOneFacts(rows[i], i);
    }
  }

  /** A row is written exactly when its FEN and its moves are both non-empty. */
  lemma KeepIffPresent(row: Row, i: nat)
    ensures Keep(ConvertOne(row, i)) <==> row.fen != "" && row.moves != ""
  {
  }

  /** The metadata block of the output file. */
  datatype Metadata = Metadata(source: string, processedAt: string, totalPuzzles: nat,
                               ratingMin: Option<int>, ratingMax: Option<int>,
                               themes: seq<string>)

  datatype Output = Output(metadata: Metadata, puzzles: seq<Puzzle>)

  const Source: string := "Lichess Puzzle Database"

  function Ratings(ps: seq<Puzzle>): (r: seq<int>)
    ensures |r| == |ps| && forall i :: 0 <= i < |ps| ==> r[i] == ps[i].rating
  {
    seq(|ps|, i requires 0 <= i < |ps| => ps[i].rating)
  }

  function ThemeLists(ps: seq<Puzzle>): (r: seq<seq<string>>)
    ensures |r| == |ps| && forall i :: 0 <= i < |ps| ==> r[i] == ps[i].themes
  {
    seq(|ps|, i requires 0 <= i < |ps| => ps[i].themes)
  }

  /** The count, the least and greatest rating (None on an empty list, where the
      bounds are infinite and are written as `null`), and every theme once, sorted.
      The time stamp is given. */
  function MetadataOf(ps: seq<Puzzle>, processedAt: string): (m: Metadata)
    ensures m.totalPuzzles == |ps|
    ensures m.ratingMin.None? <==> ps == []
    ensures m.ratingMax.None? <==> ps == []
    ensures ps != [] ==>
      (exists i :: 0 <= i < |ps| && ps[i].rating == m.ratingMin.value)
      && (exists i :: 0 <= i < |ps| && ps[i].rating == m.ratingMax.value)
      && forall i :: 0 <= i < |ps| ==> m.ratingMin.value <= ps[i].rating <= m.ratingMax.value
    ensures JsArray.StrictlySorted(m.themes)
    ensures forall t :: t in m.themes <==> exists i :: 0 <= i < |ps| && t in ps[i].themes
  {
    var rs := Ratings(ps);
    var lo := JsArray.MinOf(rs);
    var hi := JsArray.MaxOf(rs);
    assert forall i :: 0 <= i < |ps| ==> rs[i] in rs;
    Metadata(Source, processedAt, |ps|, lo, hi, JsArray.SortedDistinct(JsArray.Flatten(ThemeLists(ps))))
  }

  /** The whole run over the lines of the file. */
  method Process(lines: seq<string>, limit: int, processedAt: string) returns (out: Output)
    ensures var rows := JsArray.Take(Admitted(lines), limit);
      out == Output(MetadataOf(Converted(rows), processedAt), Converted(rows))
  {
    var rows := ParseCsvStream(lines, limit);
    var converted := ConvertPuzzles(rows);
    out := Output(MetadataOf(converted, processedAt), converted);
  }

  /** At most `limit` records are written, and never more than there are lines. */
  lemma ProcessBound(lines: seq<string>, limit: int)
    requires limit >= 0
    ensures |Converted(JsArray.Take(Admitted(lines), limit))| <= limit
    ensures |Converted(JsArray.Take(Admitted(lines), limit))| <= |lines|
  {
    var rows := JsArray.Take(Admitted(lines), limit);
    ConvertedFacts(rows);
    assert |Admitted(lines)| <= |lines|;
  }
}
