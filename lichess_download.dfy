/**
 * The downloader of the Lichess puzzle database: it reassembles the downloaded
 * file's chunks into lines, takes the first line as the header, keeps the rows
 * whose field count matches it, converts each row into a site puzzle (replaying
 * its UCI moves into SAN with the rules library), and drops the unpopular and the
 * short quiet ones.
 *
 * The downloader's options never change after construction, so the limit is a
 * parameter; the file is the sequence of chunks its stream delivers.
 */
module LichessDownload {
  import opened Wrappers
  import opened JsString
  import JsNumber
  import JsArray
  import CsvLine
  import Chess
  import opened Labels

  // ---------------------------------------------------------------------------
  // Line reassembly and row admission (`parseDownloadedFile`)
  // ---------------------------------------------------------------------------

  /** `parseCSVLine`, the variant that trims every field. */
  function Fields(line: string): seq<string> {
    CsvLine.Trimmed(CsvLine.RawFields(line))
  }

  /** `this.options.limit && puzzles.length >= this.options.limit`: an absent or zero
      limit never holds. */
  predicate Reached(limit: Option<int>, n: nat) {
    limit.Some? && limit.value != 0 && n >= limit.value
  }

  /** The lines seen so far: how many were counted, the header's fields, and the
      rows kept. */
  datatype Parsed = Parsed(lineCount: nat, headers: seq<string>, puzzles: seq<map<string, string>>)

  const Fresh: Parsed := Parsed(0, [], [])

  /** The loop breaks on a line that comes after the header once the limit is
      reached. */
  predicate Stops(p: Parsed, limit: Option<int>) {
    p.lineCount != 0 && Reached(limit, |p.puzzles|)
  }

  /** The row a data line gives, kept only when it has as many fields as the
      header. */
  function Admit(headers: seq<string>, line: string): Option<map<string, string>> {
    var values := Fields(line);
    if |values| == |headers| then Some(CsvLine.Record(headers, values)) else None
  }

  function AdmitTo(headers: seq<string>): string -> Option<map<string, string>> {
    line => Admit(headers, line)
  }

  /** One line that does not break the loop: the first is the header, and every
      later one is counted and admitted or not. */
  function LineStep(p: Parsed, line: string): Parsed {
    if p.lineCount == 0 then Parsed(1, Fields(line), p.puzzles)
    else
      var row := Admit(p.headers, line);
      Parsed(p.lineCount + 1, p.headers, p.puzzles + (if row.Some? then [row.value] else []))
  }

  /** A line's step, given its parsed fields. */
  lemma LineStepOf(p: Parsed, line: string, values: seq<string>)
    requires values == Fields(line)
    ensures LineStep(p, line)
         == if p.lineCount == 0 then Parsed(1, values, p.puzzles)
            else Parsed(p.lineCount + 1, p.headers,
                        p.puzzles + (if |values| == |p.headers| then [CsvLine.Record(p.headers, values)] else []))
  {
  }

  /** The `for` loop over the complete lines of one chunk. */
  function Lines(p: Parsed, lines: seq<string>, limit: Option<int>): (r: Parsed)
    ensures p.puzzles <= r.puzzles && r.lineCount >= p.lineCount
    decreases |lines|
  {
    if lines == [] || Stops(p, limit) then p
    else Lines(LineStep(p, lines[0]), lines[1..], limit)
  }

  /** The handler's state: the unterminated fragment, the lines seen, and whether
      the stream was destroyed (after which it delivers no more chunks). */
  datatype Stream = Stream(buffer: string, parsed: Parsed, destroyed: bool)

  const Opened: Stream := Stream("", Fresh, false)

  /** One `data` event: the chunk is appended to the buffer, every piece but the last
      is a line, the last piece is kept, and the stream is destroyed once the limit
      is reached. */
  function ChunkStep(st: Stream, chunk: string, limit: Option<int>): (r: Stream)
    ensures st.parsed.puzzles <= r.parsed.puzzles && (st.destroyed ==> r.destroyed)
    ensures '\n' !in r.buffer
  {
    var pieces := SplitOn(st.buffer + chunk, '\n');
    var p := Lines(st.parsed, pieces[..|pieces| - 1], limit);
    SplitOnPieces(st.buffer + chunk, '\n');
    assert pieces[|pieces| - 1] in pieces;
    Stream(pieces[|pieces| - 1], p, st.destroyed || Reached(limit, |p.puzzles|))
  }

  /** A chunk's step, given the pieces of the buffered text. */
  lemma ChunkStepOf(st: Stream, chunk: string, limit: Option<int>, pieces: seq<string>)
    requires pieces == SplitOn(st.buffer + chunk, '\n')
    ensures |pieces| >= 1
    ensures ChunkStep(st, chunk, limit)
         == Stream(pieces[|pieces| - 1], Lines(st.parsed, pieces[..|pieces| - 1], limit),
                   st.destroyed || Reached(limit, |Lines(st.parsed, pieces[..|pieces| - 1], limit).puzzles|))
  {
  }

  /** The chunks the stream delivers until it ends or is destroyed. */
  function Feed(st: Stream, chunks: seq<string>, limit: Option<int>): (r: Stream)
    ensures st.parsed.puzzles <= r.parsed.puzzles
    ensures st.destroyed ==> r == st
    decreases |chunks|
  {
    if chunks == [] || st.destroyed then st
    else Feed(ChunkStep(st, chunks[0], limit), chunks[1..], limit)
  }

  /** The state the `data` listener closes over. */
  class DownloadParser {
    var buffer: string
    var lineCount: nat
    var headers: seq<string>
    var puzzles: seq<map<string, string>>
    var destroyed: bool

    function Progress(): Parsed
      reads this
    {
      Parsed(lineCount, headers, puzzles)
    }

    function State(): Stream
      reads this
    {
      Stream(buffer, Progress(), destroyed)
    }

    constructor()
      ensures State() == Opened
    {
      buffer := "";
      lineCount := 0;
      headers := [];
      puzzles := [];
      destroyed := false;
    }

    /** The body of the line loop, for a line that does not break it. */
    method OnLine(line: string)
      modifies this
      ensures Progress() == LineStep(old(Progress()), line)
      ensures buffer == old(buffer) && destroyed == old(destroyed)
    {
      var values := CsvLine.ParseCsvLine(line);
      LineStepOf(Progress(), line, values);
      if lineCount == 0 {
        headers, lineCount := values, 1;
      } else {
        if |values| == |headers| {
          puzzles := puzzles + [CsvLine.Record(headers, values)];
        }
        lineCount := lineCount + 1;
      }
    }

    /** The `data` listener. The header test comes first in the loop body, so the
        limit test only breaks on a line after the header. */
    method OnData(chunk: string, limit: Option<int>)
      modifies this
      ensures State() == ChunkStep(old(State()), chunk, limit)
    {
      buffer := buffer + chunk;
      var lines := SplitOn(buffer, '\n');
      ChunkStepOf(old(State()), chunk, limit, lines);
      buffer := lines[|lines| - 1];
      var complete := lines[..|lines| - 1];
      ghost var start := Progress();
      var i := 0;
      while i < |complete|
        invariant 0 <= i <= |complete|
        invariant buffer == lines[|lines| - 1] && destroyed == old(destroyed)
        invariant Lines(Progress(), complete[i..], limit) == Lines(start, complete, limit)
      {
        if lineCount != 0 && Reached(limit, |puzzles|) {
          break;
        }
        assert complete[i..][1..] == complete[i + 1..];
        OnLine(complete[i]);
        i := i + 1;
      }
      if Reached(limit, |puzzles|) {
        destroyed := true;
      }
    }
  }

  /** What `parseDownloadedFile`'s promise settles with: the rows collected when the
      stream ends, and nothing when it was destroyed at the limit, since a destroyed
      stream closes without emitting `end` and only the `end` listener resolves. */
  function Resolution(chunks: seq<string>, limit: Option<int>): Option<seq<map<string, string>>> {
    var st := Feed(Opened, chunks, limit);
    if st.destroyed then None else Some(st.parsed.puzzles)
  }

  /** `parseDownloadedFile` as written: the promise, when it settles. */
  method ParseDownloadedFile(chunks: seq<string>, limit: Option<int>)
    returns (records: Option<seq<map<string, string>>>)
    ensures records == Resolution(chunks, limit)
  {
    var rows, destroyed := ReadStream(chunks, limit);
    if destroyed {
      records := None;
    } else {
      records := Some(rows);
    }
  }

  /** `parseDownloadedFile` resolving with the rows in either case, as its caller
      expects (by resolving on `close` as well as on `end`). */
  method ParseDownloadedFileCorrected(chunks: seq<string>, limit: Option<int>)
    returns (records: seq<map<string, string>>)
    ensures records == Feed(Opened, chunks, limit).parsed.puzzles
  {
    var destroyed;
    records, destroyed := ReadStream(chunks, limit);
  }

  /** The stream delivering its chunks to the `data` listener until it ends or is
      destroyed. */
  method ReadStream(chunks: seq<string>, limit: Option<int>)
    returns (records: seq<map<string, string>>, destroyed: bool)
    ensures records == Feed(Opened, chunks, limit).parsed.puzzles
    ensures destroyed == Feed(Opened, chunks, limit).destroyed
  {
    var parser := new DownloadParser();
    var k := 0;
    while k < |chunks| && !parser.destroyed
      invariant 0 <= k <= |chunks|
      invariant Feed(parser.State(), chunks[k..], limit) == Feed(Opened, chunks, limit)
    {
      assert chunks[k..][1..] == chunks[k + 1..];
      parser.OnData(chunks[k], limit);
      k := k + 1;
    }
    records := parser.puzzles;
    destroyed := parser.destroyed;
  }

  /** The stream is destroyed exactly when the rows reach the limit. */
  predicate DestroyedAtLimit(st: Stream, limit: Option<int>) {
    st.destroyed == Reached(limit, |st.parsed.puzzles|)
  }

  lemma {:induction false} FeedDestroyedAtLimit(st: Stream, chunks: seq<string>, limit: Option<int>)
    requires DestroyedAtLimit(st, limit)
    ensures DestroyedAtLimit(Feed(st, chunks, limit), limit)
    decreases |chunks|
  {
    if chunks != [] && !st.destroyed {
      FeedDestroyedAtLimit(ChunkStep(st, chunks[0], limit), chunks[1..], limit);
    }
  }

  /** The promise settles exactly when the rows stay below the limit, and then with
      all the rows of the file: the header first, the later lines with as many fields
      as it, in order. Once the rows reach the limit it never settles. */
  lemma ResolvesBelowLimit(chunks: seq<string>, limit: Option<int>)
    requires limit.None? || limit.value >= 0
    ensures var rows := Feed(Opened, chunks, limit).parsed.puzzles;
      (Resolution(chunks, limit).Some? <==> !Reached(limit, |rows|))
      && (Resolution(chunks, limit).Some? ==> Resolution(chunks, limit).value == rows)
    ensures var lines := CompleteLines(Concat(chunks));
      Resolution(chunks, limit).Some? && lines != [] ==>
        Resolution(chunks, limit).value == JsArray.FilterMap(lines[1..], AdmitTo(Fields(lines[0])))
  {
    FeedDestroyedAtLimit(Opened, chunks, limit);
    DownloadedRows(chunks, limit);
    var lines := CompleteLines(Concat(chunks));
    if Resolution(chunks, limit).Some? && lines != [] && limit.Some? && limit.value != 0 {
      CapBelow(limit.value, JsArray.FilterMap(lines[1..], AdmitTo(Fields(lines[0]))));
    }
  }

  /** Rows cut at a limit they stay below were not cut. */
  lemma CapBelow<T>(n: int, rows: seq<T>)
    requires n != 0 && |Cap(Some(n), rows)| < n
    ensures Cap(Some(n), rows) == rows
  {
  }

  /** Whenever the file holds at least `limit` rows after its header (a limit of 1 and
      a header followed by two rows, say), the stream is destroyed and the promise
      never settles, although exactly the `limit` rows its caller asks for were
      collected. */
  lemma LimitNeverResolves(chunks: seq<string>, n: int)
    requires n > 0
    requires var lines := CompleteLines(Concat(chunks));
      lines != [] && |JsArray.FilterMap(lines[1..], AdmitTo(Fields(lines[0])))| >= n
    ensures Resolution(chunks, Some(n)).None?
    ensures var lines := CompleteLines(Concat(chunks));
      Feed(Opened, chunks, Some(n)).parsed.puzzles
        == JsArray.FilterMap(lines[1..], AdmitTo(Fields(lines[0])))[..n]
  {
    FeedDestroyedAtLimit(Opened, chunks, Some(n));
    DownloadedRows(chunks, Some(n));
  }

  /** The lines of a text: every piece of `split('\n')` but the last. */
  function CompleteLines(text: string): (r: seq<string>)
    ensures |r| == |SplitOn(text, '\n')| - 1
  {
    var pieces := SplitOn(text, '\n');
    pieces[..|pieces| - 1]
  }

  /** Text after the last newline is never a line: without a newline there is no
      line at all, and a newline at the end makes every piece a line. */
  lemma FragmentNeverParsed(text: string)
    ensures '\n' !in text ==> CompleteLines(text) == []
    ensures CompleteLines(text + "\n") == SplitOn(text, '\n')
  {
    if '\n' !in text {
      SplitFromWithout(text, '\n', "");
    }
    var p := SplitOn(text, '\n');
    SplitFromAppend(text, "\n", '\n', "");
    assert SplitFrom("\n", '\n', p[|p| - 1]) == [p[|p| - 1], ""];
    assert p[..|p| - 1] + [p[|p| - 1]] == p;
  }

  /** `Cap(limit, rows)`: what a limit does to the rows collected. */
  function Cap<T>(limit: Option<int>, rows: seq<T>): seq<T> {
    if limit.Some? && limit.value != 0 then JsArray.Take(rows, limit.value) else rows
  }

  predicate ParsedOk(p: Parsed) {
    p.puzzles != [] ==> p.lineCount != 0
  }

  /** A destroyed stream has reached its limit after its header. */
  predicate Consistent(st: Stream, limit: Option<int>) {
    ParsedOk(st.parsed) && '\n' !in st.buffer && (st.destroyed ==> Stops(st.parsed, limit))
  }

  lemma {:induction false} LinesOk(p: Parsed, lines: seq<string>, limit: Option<int>)
    requires ParsedOk(p)
    ensures ParsedOk(Lines(p, lines, limit))
    decreases |lines|
  {
    if lines != [] && !Stops(p, limit) {
      LinesOk(LineStep(p, lines[0]), lines[1..], limit);
    }
  }

  /** The line loop over two runs of lines is the loop over the first, then over
      the second; once it breaks it stays broken. */
  lemma {:induction false} LinesAppend(p: Parsed, a: seq<string>, b: seq<string>, limit: Option<int>)
    ensures Lines(p, a + b, limit) == Lines(Lines(p, a, limit), b, limit)
    decreases |a|
  {
    if a == [] {
      assert a + b == b;
    } else if !Stops(p, limit) {
      assert (a + b)[0] == a[0] && (a + b)[1..] == a[1..] + b;
      LinesAppend(LineStep(p, a[0]), a[1..], b, limit);
    }
  }

  /** With no limit or a positive one, the chunking does not matter: the rows are
      those of the complete lines of all the text the stream carries after the
      buffered fragment. */
  lemma {:induction false} FeedLines(st: Stream, chunks: seq<string>, limit: Option<int>)
    requires limit.None? || limit.value >= 0
    requires Consistent(st, limit)
    ensures Feed(st, chunks, limit).parsed == Lines(st.parsed, CompleteLines(st.buffer + Concat(chunks)), limit)
    decreases |chunks|
  {
    if st.destroyed {
    } else if chunks == [] {
      assert st.buffer + Concat(chunks) == st.buffer;
      FragmentNeverParsed(st.buffer);
    } else {
      var t := ChunkStep(st, chunks[0], limit);
      var rest := Concat(chunks[1..]);
      FeedUnfold(st, chunks, limit);
      ConcatFront(st.buffer, chunks);
      FeedChunk(st, chunks[0], rest, limit);
      FeedLines(t, chunks[1..], limit);
    }
  }

  /** A stream still open takes the first chunk, then the others. */
  lemma FeedUnfold(st: Stream, chunks: seq<string>, limit: Option<int>)
    requires chunks != [] && !st.destroyed
    ensures Feed(st, chunks, limit) == Feed(ChunkStep(st, chunks[0], limit), chunks[1..], limit)
  {
  }

  /** The text carried is the buffer and the first chunk, then the other chunks. */
  lemma ConcatFront(buffer: string, chunks: seq<string>)
    requires chunks != []
    ensures buffer + Concat(chunks) == (buffer + chunks[0]) + Concat(chunks[1..])
  {
  }

  /** One chunk keeps the stream consistent, and the rows of the lines still to come
      are the same whether counted before or after it. */
  lemma FeedChunk(st: Stream, chunk: string, rest: string, limit: Option<int>)
    requires limit.None? || limit.value >= 0
    requires Consistent(st, limit) && !st.destroyed
    ensures var t := ChunkStep(st, chunk, limit);
      Consistent(t, limit)
      && Lines(st.parsed, CompleteLines((st.buffer + chunk) + rest), limit)
         == Lines(t.parsed, CompleteLines(t.buffer + rest), limit)
  {
    var pieces := SplitOn(st.buffer + chunk, '\n');
    var init := pieces[..|pieces| - 1];
    var t := ChunkStep(st, chunk, limit);
    LinesOk(st.parsed, init, limit);
    ChunkLines(st.buffer + chunk, rest);
    LinesAppend(st.parsed, init, CompleteLines(t.buffer + rest), limit);
  }

  /** The lines of a text are those completed inside its first part, then those of
      the first part's fragment followed by the rest. */
  lemma ChunkLines(text: string, rest: string)
    ensures var pieces := SplitOn(text, '\n');
      '\n' !in pieces[|pieces| - 1]
      && CompleteLines(text + rest) == pieces[..|pieces| - 1] + CompleteLines(pieces[|pieces| - 1] + rest)
  {
    var pieces := SplitOn(text, '\n');
    var last := pieces[|pieces| - 1];
    SplitOnPieces(text, '\n');
    assert last in pieces;
    SplitFromAppend(text, rest, '\n', "");
    SplitOnRestart(last, rest, '\n');
    var q := SplitFrom(rest, '\n', last);
    assert SplitOn(text + rest, '\n') == pieces[..|pieces| - 1] + q;
    assert CompleteLines(text + rest) == pieces[..|pieces| - 1] + q[..|q| - 1];
  }

  /** After the header, the rows collected are the admitted rows of the later lines,
      cut at the limit. */
  lemma LinesCollect(p: Parsed, rest: seq<string>, limit: Option<int>)
    requires p.lineCount > 0 && Cap(limit, p.puzzles) == p.puzzles
    ensures Lines(p, rest, limit).headers == p.headers
    ensures Lines(p, rest, limit).puzzles
         == Cap(limit, p.puzzles + JsArray.FilterMap(rest, AdmitTo(p.headers)))
  {
    LinesAreCollect(p, rest, limit);
    CollectIsCapped(p.puzzles, rest, AdmitTo(p.headers), limit);
  }

  /** The rows part of the line loop after the header, for any admission function. */
  function Collect<R>(rows: seq<R>, rest: seq<string>, f: string -> Option<R>, limit: Option<int>): seq<R>
    decreases |rest|
  {
    if rest == [] || Reached(limit, |rows|) then rows
    else Collect(rows + (if f(rest[0]).Some? then [f(rest[0]).value] else []), rest[1..], f, limit)
  }

  lemma {:induction false} LinesAreCollect(p: Parsed, rest: seq<string>, limit: Option<int>)
    requires p.lineCount > 0
    ensures Lines(p, rest, limit).headers == p.headers
    ensures Lines(p, rest, limit).puzzles == Collect(p.puzzles, rest, AdmitTo(p.headers), limit)
    decreases |rest|
  {
    if rest != [] && !Stops(p, limit) {
      LinesAreCollect(LineStep(p, rest[0]), rest[1..], limit);
    }
  }

  lemma {:induction false} CollectIsCapped<R>(rows: seq<R>, rest: seq<string>, f: string -> Option<R>, limit: Option<int>)
    requires Cap(limit, rows) == rows
    ensures Collect(rows, rest, f, limit) == Cap(limit, rows + JsArray.FilterMap(rest, f))
    decreases |rest|
  {
    if rest == [] {
      assert rows + JsArray.FilterMap(rest, f) == rows;
    } else if Reached(limit, |rows|) {
      CapFull(limit, rows, JsArray.FilterMap(rest, f));
    } else {
      var first := if f(rest[0]).Some? then [f(rest[0]).value] else [];
      CapGrow(limit, rows, first);
      CollectIsCapped(rows + first, rest[1..], f, limit);
      CollectStep(rows, rest, f, limit);
      JsArray.FilterMapAfter(rows, rest, f);
    }
  }

  /** One line below the limit: its row, if any, joins the rows. */
  lemma CollectStep<R>(rows: seq<R>, rest: seq<string>, f: string -> Option<R>, limit: Option<int>)
    requires rest != [] && !Reached(limit, |rows|)
    ensures Collect(rows, rest, f, limit)
         == Collect(rows + (if f(rest[0]).Some? then [f(rest[0]).value] else []), rest[1..], f, limit)
  {
  }

  /** Rows below the limit take one more row uncut. */
  lemma CapGrow<T>(limit: Option<int>, rows: seq<T>, first: seq<T>)
    requires Cap(limit, rows) == rows && !Reached(limit, |rows|) && |first| <= 1
    ensures Cap(limit, rows + first) == rows + first
  {
  }

  /** Rows already at the limit stay as they are whatever follows them. */
  lemma CapFull<T>(limit: Option<int>, rows: seq<T>, more: seq<T>)
    requires Cap(limit, rows) == rows && Reached(limit, |rows|)
    ensures Cap(limit, rows + more) == rows
  {
    if limit.value > 0 {
      assert (rows + more)[..limit.value] == rows;
    }
  }

  /** The whole parse, with no limit or a positive one: nothing for a text without a
      complete line; otherwise the first line is the header, and the rows are those
      of the later lines with as many fields as it, in order and cut at the limit. */
  lemma DownloadedRows(chunks: seq<string>, limit: Option<int>)
    requires limit.None? || limit.value >= 0
    ensures var lines := CompleteLines(Concat(chunks));
      var rows := Feed(Opened, chunks, limit).parsed.puzzles;
      (lines == [] ==> rows == [])
      && (lines != [] ==>
            rows == Cap(limit, JsArray.FilterMap(lines[1..], AdmitTo(Fields(lines[0])))))
    ensures limit.Some? && limit.value > 0 ==>
      |Feed(Opened, chunks, limit).parsed.puzzles| <= limit.value
  {
    FeedLines(Opened, chunks, limit);
    var text := Concat(chunks);
    assert "" + text == text;
    var lines := CompleteLines(text);
    if lines != [] {
      var h := LineStep(Fresh, lines[0]);
      assert Lines(Fresh, lines, limit) == Lines(h, lines[1..], limit);
      LinesCollect(h, lines[1..], limit);
      assert h.puzzles + JsArray.FilterMap(lines[1..], AdmitTo(h.headers))
          == JsArray.FilterMap(lines[1..], AdmitTo(Fields(lines[0])));
    }
  }

  // ---------------------------------------------------------------------------
  // Conversion (`convertSinglePuzzle`, `convertUciToSan`, the lookup tables)
  // ---------------------------------------------------------------------------

  /** `parseInt(x) || 1200`. */
  const DefaultRating: int := 1200

  /** A converted puzzle. Record fields that are absent (`undefined`) are None. */
  datatype LichessPuzzle = LichessPuzzle(
    id: int, fen: Option<string>, difficulty: Level, theme: string, rating: int,
    description: string, hint: string, solution: seq<string>, orientation: Side,
    solved: bool, lichessId: Option<string>, gameUrl: Option<string>,
    themes: seq<string>, popularity: int, nbPlays: int, openingTags: string)

  /** A field that is present and not empty, as `x ? … : …` tests it. */
  predicate Truthy(o: Option<string>) {
    o.Some? && o.value != ""
  }

  /** `parseInt(record.Key)`: an absent field parses to NaN. */
  function NumberField(o: Option<string>): Option<int> {
    match o
    case None => None
    case Some(s) => JsNumber.ParseInt(s, false)
  }

  /** `record.Key ? record.Key.split(' ') : fallback`. */
  function Words(o: Option<string>, fallback: seq<string>): (r: seq<string>)
    ensures |fallback| >= 1 ==> |r| >= 1
  {
    if Truthy(o) then SplitOn(o.value, ' ') else fallback
  }

  /** The tokens `convertUciToSan` tries: `!uci || uci.length < 4` skips the rest. */
  predicate LongEnough(uci: string) {
    |uci| >= 4
  }

  /** `convertUciToSan` from the loaded position: short tokens are skipped, and the
      first move the rules refuse or raise on ends the replay. */
  function UciToSan<P>(rules: Chess.Rules<P>, pos: P, ms: seq<string>): seq<string>
    decreases |ms|
  {
    if ms == [] then []
    else if !LongEnough(ms[0]) then UciToSan(rules, pos, ms[1..])
    else
      match rules.move(pos, Chess.UciRequest(ms[0]))
      case Played(next, m) => [m.san] + UciToSan(rules, next, ms[1..])
      case _ => []
  }

  method ConvertUciToSan<P>(rules: Chess.Rules<P>, pos: P, ms: seq<string>)
    returns (sans: seq<string>)
    ensures sans == UciToSan(rules, pos, ms)
  {
    var game := pos;
    sans := [];
    var i := 0;
    while i < |ms|
      invariant 0 <= i <= |ms|
      invariant sans + UciToSan(rules, game, ms[i..]) == UciToSan(rules, pos, ms)
    {
      assert ms[i..][1..] == ms[i + 1..];
      var uci := ms[i];
      if |uci| >= 4 {
        var outcome := rules.move(game, Chess.UciRequest(uci));
        if !outcome.Played? {
          assert sans == UciToSan(rules, pos, ms);
          return;
        }
        sans := sans + [outcome.result.san];
        game := outcome.next;
      }
      i := i + 1;
    }
  }

  /** The replay is the legal replay of the tokens of at least four characters, so
      it is never longer than the token list. */
  lemma {:induction false} UciToSanIsLegalReplay<P>(rules: Chess.Rules<P>, pos: P, ms: seq<string>)
    ensures UciToSan(rules, pos, ms) == Chess.PlayWhileLegal(rules, pos, JsArray.Filter(ms, LongEnough))
    ensures |UciToSan(rules, pos, ms)| <= |ms|
    decreases |ms|
  {
    if ms != [] {
      if LongEnough(ms[0]) {
        match rules.move(pos, Chess.UciRequest(ms[0]))
        case Played(next, m) =>
          UciToSanIsLegalReplay(rules, next, ms[1..]);
        case Refused =>
        case Raised =>
      } else {
        UciToSanIsLegalReplay(rules, pos, ms[1..]);
      }
    }
  }

  /** `mapLichessTheme`'s table. */
  const ThemeMap: map<string, string> := map[
    "mate" := "Mate", "mateIn1" := "Mate in 1", "mateIn2" := "Mate in 2",
    "mateIn3" := "Mate in 3", "mateIn4" := "Mate in 4", "mateIn5" := "Mate in 5",
    "pin" := "Pin", "fork" := "Fork", "skewer" := "Skewer", "sacrifice" := "Sacrifice",
    "deflection" := "Deflection", "decoy" := "Decoy", "discovery" := "Discovery",
    "discoveredAttack" := "Discovery", "clearance" := "Clearance",
    "interference" := "Interference", "intermezzo" := "Zwischenzug",
    "zugzwang" := "Zugzwang", "advantage" := "Tactical Advantage",
    "endgame" := "Endgame", "middlegame" := "Middlegame", "opening" := "Opening",
    "promotion" := "Promotion", "underPromotion" := "Under Promotion",
    "crushing" := "Crushing", "doubleBishop" := "Bishop Pair",
    "doubleCheck" := "Double Check", "exposedKing" := "Exposed King",
    "hangingPiece" := "Hanging Piece", "kingsideAttack" := "Kingside Attack",
    "queensideAttack" := "Queenside Attack", "rookEndgame" := "Rook Endgame",
    "bishopEndgame" := "Bishop Endgame", "knightEndgame" := "Knight Endgame",
    "pawnEndgame" := "Pawn Endgame", "queenEndgame" := "Queen Endgame"]

  const UnknownTheme: string := "Tactical"

  /** `mapLichessTheme`: an unknown theme, and only an unknown one, becomes
      `Tactical`; no entry maps to an empty name. */
  function MapTheme(t: string): (r: string)
    ensures r == UnknownTheme <==> t !in ThemeMap
    ensures r != ""
  {
    assert forall k :: k in ThemeMap ==> ThemeMap[k] != UnknownTheme && ThemeMap[k] != "";
    if t in ThemeMap then ThemeMap[t] else UnknownTheme
  }

  /** `generateHint`'s table, keyed by mapped theme. */
  const Hints: map<string, string> := map[
    "Mate" := "Look for forcing moves that lead to checkmate.",
    "Mate in 1" := "Find the checkmate in one move.",
    "Mate in 2" := "Find the checkmate in two moves.",
    "Pin" := "Look for pieces that cannot move without exposing a more valuable piece.",
    "Fork" := "Find a move that attacks two or more pieces simultaneously.",
    "Skewer" := "Attack a valuable piece to force it to move.",
    "Sacrifice" := "Consider giving up material for a tactical advantage.",
    "Endgame" := "Focus on precise calculation and king activity.",
    "Discovery" := "Move a piece to reveal an attack from another piece.",
    "Deflection" := "Force a defending piece away from its duty.",
    "Zwischenzug" := "Look for an in-between move."]

  const DefaultHint: string := "Look for tactical patterns and forcing moves."

  /** `generateHint`: the list of themes it is given plays no part, and the generic
      hint is given exactly for a theme the table lacks. */
  function Hint(primary: string): (r: string)
    ensures r == DefaultHint <==> primary !in Hints
  {
    assert forall k :: k in Hints ==> Hints[k] != DefaultHint;
    if primary in Hints then Hints[primary] else DefaultHint
  }

  /** `generateDescription`'s table, keyed by Lichess theme. */
  const Descriptions: map<string, string> := map[
    "pin" := "Exploit the pin to win material.",
    "fork" := "Use a fork to attack multiple pieces.",
    "skewer" := "Use a skewer to win material.",
    "sacrifice" := "Find the tactical sacrifice.",
    "endgame" := "Navigate this endgame correctly.",
    "advantage" := "Find the move that gives you a decisive advantage.",
    "promotion" := "Push for promotion to win.",
    "deflection" := "Deflect the defender.",
    "decoy" := "Lure the piece to a bad square.",
    "discovery" := "Use a discovered attack.",
    "clearance" := "Clear the path for your pieces."]

  const MatePrefix: string := "mateIn"

  predicate IsMateIn(t: string) {
    StartsWith(t, MatePrefix)
  }

  /** The description of the first theme, in order, that has one. */
  function FirstDescribed(themes: seq<string>): (r: Option<string>)
    ensures r.Some? ==> r.value in Descriptions.Values
    decreases |themes|
  {
    if themes == [] then None
    else if themes[0] in Descriptions then Some(Descriptions[themes[0]])
    else FirstDescribed(themes[1..])
  }

  /** `generateDescription`: never empty; the text for each case is stated by the
      lemmas below. */
  function Description(themes: seq<string>, difficulty: Level): (r: string)
    ensures r != ""
  {
    assert forall v :: v in Descriptions.Values ==> v != "";
    if "mate" in themes then
      var mates := JsArray.Filter(themes, IsMateIn);
      if mates != [] then
        assert mates[0] in mates;
        var n := mates[0][|MatePrefix|..];
        "Find checkmate in " + n + " move" + (if n == "1" then "" else "s") + "."
      else "Find the checkmate sequence."
    else
      match FirstDescribed(themes)
      case Some(d) => d
      case None => LevelName(difficulty) + " tactical puzzle. Find the best continuation."
  }

  /** With `mate` among the themes, the first `mateIn<N>` theme gives "Find checkmate
      in N move(s).", singular only for N = 1; without one, the generic mate text. */
  lemma DescriptionMate(themes: seq<string>, difficulty: Level, i: nat)
    requires "mate" in themes
    requires i < |themes| && IsMateIn(themes[i])
    requires forall j :: 0 <= j < i ==> !IsMateIn(themes[j])
    ensures var n := themes[i][|MatePrefix|..];
      Description(themes, difficulty)
      == "Find checkmate in " + n + (if n == "1" then " move." else " moves.")
  {
    JsArray.FilterHead(themes, IsMateIn, i);
    var n := themes[i][|MatePrefix|..];
    assert "Find checkmate in " + n + " move" + "" + "." == "Find checkmate in " + n + " move.";
    assert "Find checkmate in " + n + " move" + "s" + "." == "Find checkmate in " + n + " moves.";
  }

  lemma DescriptionMateWithoutCount(themes: seq<string>, difficulty: Level)
    requires "mate" in themes
    requires forall j :: 0 <= j < |themes| ==> !IsMateIn(themes[j])
    ensures Description(themes, difficulty) == "Find the checkmate sequence."
  {
    JsArray.FilterNone(themes, IsMateIn);
  }

  /** Without `mate`, the first theme in order that the table has wins, and with none
      the text names the difficulty. */
  lemma {:induction false} DescriptionOther(themes: seq<string>, difficulty: Level, i: nat)
    requires "mate" !in themes
    requires i <= |themes|
    requires i < |themes| ==> themes[i] in Descriptions
    requires forall j :: 0 <= j < i ==> themes[j] !in Descriptions
    ensures Description(themes, difficulty)
         == if i < |themes| then Descriptions[themes[i]]
            else LevelName(difficulty) + " tactical puzzle. Find the best continuation."
    decreases i
  {
    FirstDescribedAt(themes, i);
  }

  lemma {:induction false} FirstDescribedAt(themes: seq<string>, i: nat)
    requires i <= |themes|
    requires i < |themes| ==> themes[i] in Descriptions
    requires forall j :: 0 <= j < i ==> themes[j] !in Descriptions
    ensures FirstDescribed(themes) == if i < |themes| then Some(Descriptions[themes[i]]) else None
    decreases i
  {
    if i > 0 {
      FirstDescribedAt(themes[1..], i - 1);
    }
  }

  /** `convertSinglePuzzle`: None exactly when `new Chess(FEN)` throws; otherwise a
      record under the given id and FEN, unsolved, with the hint of its theme. */
  function ConvertSingle<P>(rules: Chess.Rules<P>, data: map<string, string>, id: int): (r: Option<LichessPuzzle>)
    ensures r.None? <==> Chess.Load(rules, CsvLine.Get(data, "FEN")).None?
    ensures r.Some? ==> r.value.id == id && r.value.fen == CsvLine.Get(data, "FEN")
                        && r.value.hint == Hint(r.value.theme) && !r.value.solved
  {
    var rating := JsNumber.OrDefault(NumberField(CsvLine.Get(data, "Rating")), DefaultRating);
    var difficulty := RatingLevel(Some(rating));
    var uci := Words(CsvLine.Get(data, "Moves"), []);
    var fen := CsvLine.Get(data, "FEN");
    var game := Chess.Load(rules, fen);
    if game.None? then None
    else
      var themes := Words(CsvLine.Get(data, "Themes"), ["tactical"]);
      var primary := MapTheme(if themes[0] != "" then themes[0] else "tactical");
      Some(LichessPuzzle(
        id, fen, difficulty, primary, rating, Description(themes, difficulty), Hint(primary),
        UciToSan(rules, game.value, uci),
        if rules.whiteToMove(game.value) then White else Black, false,
        CsvLine.Get(data, "PuzzleId"), CsvLine.Get(data, "GameUrl"), themes,
        JsNumber.OrDefault(NumberField(CsvLine.Get(data, "Popularity")), 0),
        JsNumber.OrDefault(NumberField(CsvLine.Get(data, "NbPlays")), 0),
        CsvLine.Get(data, "OpeningTags").GetOr("")))
  }

  method ConvertSinglePuzzle<P>(rules: Chess.Rules<P>, data: map<string, string>, id: int)
    returns (puzzle: Option<LichessPuzzle>)
    ensures puzzle == ConvertSingle(rules, data, id)
  {
    var rating := JsNumber.OrDefault(NumberField(CsvLine.Get(data, "Rating")), DefaultRating);
    var difficulty := RatingLevel(Some(rating));
    var uci := Words(CsvLine.Get(data, "Moves"), []);
    var game := Chess.Load(rules, CsvLine.Get(data, "FEN"));
    if game.None? {
      return None;
    }
    var sans := ConvertUciToSan(rules, game.value, uci);
    var themes := Words(CsvLine.Get(data, "Themes"), ["tactical"]);
    var primary := MapTheme(if themes[0] != "" then themes[0] else "tactical");
    var orientation := if rules.whiteToMove(game.value) then White else Black;
    puzzle := Some(LichessPuzzle(
      id, CsvLine.Get(data, "FEN"), difficulty, primary, rating, Description(themes, difficulty),
      Hint(primary), sans, orientation, false,
      CsvLine.Get(data, "PuzzleId"), CsvLine.Get(data, "GameUrl"), themes,
      JsNumber.OrDefault(NumberField(CsvLine.Get(data, "Popularity")), 0),
      JsNumber.OrDefault(NumberField(CsvLine.Get(data, "NbPlays")), 0),
      CsvLine.Get(data, "OpeningTags").GetOr("")));
  }

  /** What a converted puzzle holds: the given id; a rating that is never 0 (NaN and
      0 become 1200) with its difficulty; the legal replay of the moves, never longer
      than them; the themes, which join back to the field or default to
      `['tactical']`; the hint of its mapped theme; the side to move. */
  lemma ConvertSingleFacts<P>(rules: Chess.Rules<P>, data: map<string, string>, id: int)
    ensures ConvertSingle(rules, data, id).None? <==> Chess.Load(rules, CsvLine.Get(data, "FEN")).None?
    ensures ConvertSingle(rules, data, id).Some? ==>
      var p := ConvertSingle(rules, data, id).value;
      var pos := Chess.Load(rules, CsvLine.Get(data, "FEN")).value;
      var uci := Words(CsvLine.Get(data, "Moves"), []);
      p.id == id && p.fen == CsvLine.Get(data, "FEN")
      && p.rating != 0
      && p.rating == JsNumber.OrDefault(NumberField(CsvLine.Get(data, "Rating")), DefaultRating)
      && p.difficulty == RatingLevel(Some(p.rating))
      && p.solution == Chess.PlayWhileLegal(rules, pos, JsArray.Filter(uci, LongEnough))
      && |p.solution| <= |uci|
      && |p.themes| >= 1
      && (Truthy(CsvLine.Get(data, "Themes")) ==> Join(p.themes, " ") == data["Themes"])
      && (!Truthy(CsvLine.Get(data, "Themes")) ==> p.themes == ["tactical"])
      && p.hint == Hint(p.theme) && !p.solved
      && (p.orientation == White <==> rules.whiteToMove(pos))
  {
    var fen := CsvLine.Get(data, "FEN");
    var game := Chess.Load(rules, fen);
    if game.Some? {
      UciToSanIsLegalReplay(rules, game.value, Words(CsvLine.Get(data, "Moves"), []));
      if Truthy(CsvLine.Get(data, "Themes")) {
        JoinSplitOn(data["Themes"], ' ');
      }
    }
  }

  // ---------------------------------------------------------------------------
  // Curation (`convertPuzzles`)
  // ---------------------------------------------------------------------------

  const FirstId: int := 10000

  /** The motifs that make a puzzle tactical. */
  const Motifs: seq<string> := ["Mate", "Mate in 1", "Mate in 2", "Mate in 3", "Pin",
    "Fork", "Skewer", "Sacrifice", "Deflection", "Discovery", "Clearance", "Zwischenzug"]

  /** `puzzle.theme && puzzle.theme.toLowerCase().includes(motif.toLowerCase())` for
      some motif. */
  predicate IsTactical(theme: string) {
    theme != "" && exists m :: m in Motifs && Contains(ToLower(theme), ToLower(m))
  }

  /** The two filters, as written: a puzzle is skipped when both its popularity and
      its play count are below 50, when it has one move and is not tactical, and
      when it is not tactical and has at most four moves. The one-move rule is
      contained in the four-move rule. */
  function Passes(p: LichessPuzzle): (r: bool)
    ensures r <==> (p.popularity >= 50 || p.nbPlays >= 50) && (IsTactical(p.theme) || |p.solution| > 4)
  {
    var tactical := IsTactical(p.theme);
    !(p.popularity < 50 && p.nbPlays < 50)
    && !(|p.solution| == 1 && !tactical)
    && !(!tactical && |p.solution| <= 4)
  }

  /** Every motif is tactical, but the fallback theme `Tactical` that unknown Lichess
      themes map to matches no motif: such a puzzle passes only with more than four
      moves. */
  lemma MotifsAreTactical()
    ensures forall m :: m in Motifs ==> IsTactical(m)
    ensures !IsTactical(UnknownTheme)
    ensures forall t :: t !in ThemeMap ==> !IsTactical(MapTheme(t))
  {
    forall m | m in Motifs ensures IsTactical(m) {
      var l := ToLower(m);
      assert l[..|l|] == l;
      assert Contains(l, l);
    }
    FallbackMatchesNoMotif();
  }

  /** `tactical` misses a letter of every lower-cased motif. */
  lemma FallbackMatchesNoMotif()
    ensures forall m :: m in Motifs ==> !Contains(ToLower(UnknownTheme), ToLower(m))
  {
    var fallback := ToLower(UnknownTheme);
    assert fallback == "tactical";
    forall m | m in Motifs ensures !Contains(fallback, ToLower(m)) {
      var l := ToLower(m);
      var j := if m == "Clearance" then 2 else 0;
      assert l[j] !in fallback;
      NotContainsForeign(fallback, l, l[j]);
    }
  }

  /** What the loop does with row `i`'s conversion. */
  function Selected(o: Option<LichessPuzzle>): Option<LichessPuzzle> {
    if o.Some? && Passes(o.value) then o else None
  }

  predicate Failed(o: Option<LichessPuzzle>) {
    o.None?
  }

  /** Every row converted with id `i + 10000`. */
  function AllConverted<P>(rules: Chess.Rules<P>, records: seq<map<string, string>>): (r: seq<Option<LichessPuzzle>>)
    ensures |r| == |records|
  {
    seq(|records|, i requires 0 <= i < |records| => ConvertSingle(rules, records[i], i + FirstId))
  }

  lemma AllConvertedAt<P>(rules: Chess.Rules<P>, records: seq<map<string, string>>)
    ensures forall i :: 0 <= i < |records| ==>
      AllConverted(rules, records)[i] == ConvertSingle(rules, records[i], i + FirstId)
  {
    var all := AllConverted(rules, records);
    forall i | 0 <= i < |records| ensures all[i] == ConvertSingle(rules, records[i], i + FirstId) {
    }
  }

  /** `convertPuzzles`: the puzzles kept and the number of rows whose conversion
      threw. */
  method ConvertPuzzles<P>(rules: Chess.Rules<P>, records: seq<map<string, string>>)
    returns (converted: seq<LichessPuzzle>, errors: nat)
    ensures converted == JsArray.FilterMap(AllConverted(rules, records), Selected)
    ensures errors == JsArray.CountIf(AllConverted(rules, records), Failed)
  {
    ghost var all := AllConverted(rules, records);
    AllConvertedAt(rules, records);
    converted := [];
    errors := 0;
    var i := 0;
    while i < |records|
      invariant 0 <= i <= |records|
      invariant converted == JsArray.FilterMap(all[..i], Selected)
      invariant errors == JsArray.CountIf(all[..i], Failed)
    {
      var puzzle := ConvertSinglePuzzle(rules, records[i], i + FirstId);
      SelectStep(all, i, puzzle);
      if puzzle.None? {
        errors := errors + 1;
      } else if Passes(puzzle.value) {
        converted := converted + [puzzle.value];
      }
      i := i + 1;
    }
    assert all[..|records|] == all;
  }

  /** One more conversion: kept when it passes the filters, counted when it threw. */
  lemma SelectStep(all: seq<Option<LichessPuzzle>>, i: nat, o: Option<LichessPuzzle>)
    requires i < |all| && all[i] == o
    ensures JsArray.FilterMap(all[..i + 1], Selected)
         == JsArray.FilterMap(all[..i], Selected) + (if o.Some? && Passes(o.value) then [o.value] else [])
    ensures JsArray.CountIf(all[..i + 1], Failed) == JsArray.CountIf(all[..i], Failed) + (if o.None? then 1 else 0)
  {
    assert all[..i + 1] == all[..i] + [o];
    JsArray.FilterMapSnoc(all[..i], o, Selected);
    JsArray.FilterSnoc(all[..i], o, Failed);
  }

  /** Over conversions whose ids are their positions plus 10000: the kept puzzles
      all pass the filters, come in input order (ids strictly increase) with ids in
      range, and kept plus failed rows are at most all rows. */
  lemma {:induction false} SelectedFacts(all: seq<Option<LichessPuzzle>>)
    requires forall i :: 0 <= i < |all| && all[i].Some? ==> all[i].value.id == i + FirstId
    ensures var kept := JsArray.FilterMap(all, Selected);
      (forall k :: 0 <= k < |kept| ==> Passes(kept[k]) && FirstId <= kept[k].id < FirstId + |all|)
      && (forall a, b :: 0 <= a < b < |kept| ==> kept[a].id < kept[b].id)
      && |kept| + JsArray.CountIf(all, Failed) <= |all|
    decreases |all|
  {
    if all != [] {
      var n := |all| - 1;
      var init := all[..n];
      SelectedFacts(init);
      assert init + [all[n]] == all;
      JsArray.FilterMapSnoc(init, all[n], Selected);
      JsArray.FilterSnoc(init, all[n], Failed);
    }
  }

  /** Row `i`'s conversion, when there is one, has id `i + 10000`. */
  lemma AllConvertedIds<P>(rules: Chess.Rules<P>, records: seq<map<string, string>>)
    ensures var all := AllConverted(rules, records);
      forall i :: 0 <= i < |all| && all[i].Some? ==> all[i].value.id == i + FirstId
  {
    AllConvertedAt(rules, records);
  }

  /** The curation of a list of rows: each kept puzzle passes the filters and is the
      conversion of the row its id names; ids strictly increase; kept and failed rows
      together are at most all rows. */
  lemma ConvertedFacts<P>(rules: Chess.Rules<P>, records: seq<map<string, string>>)
    ensures var all := AllConverted(rules, records);
      var kept := JsArray.FilterMap(all, Selected);
      (forall k :: 0 <= k < |kept| ==> Passes(kept[k]) && FirstId <= kept[k].id < FirstId + |all|)
      && (forall a, b :: 0 <= a < b < |kept| ==> kept[a].id < kept[b].id)
      && |kept| + JsArray.CountIf(all, Failed) <= |all|
    ensures var all := AllConverted(rules, records);
      var kept := JsArray.FilterMap(all, Selected);
      forall k :: 0 <= k < |kept| ==>
        0 <= kept[k].id - FirstId < |all| && all[kept[k].id - FirstId] == Some(kept[k])
  {
    AllConvertedIds(rules, records);
    KeptFacts(AllConverted(rules, records));
  }

  /** The facts of `ConvertedFacts` over any conversions numbered by position. */
  lemma KeptFacts(all: seq<Option<LichessPuzzle>>)
    requires forall i :: 0 <= i < |all| && all[i].Some? ==> all[i].value.id == i + FirstId
    ensures var kept := JsArray.FilterMap(all, Selected);
      (forall k :: 0 <= k < |kept| ==> Passes(kept[k]) && FirstId <= kept[k].id < FirstId + |all|)
      && (forall a, b :: 0 <= a < b < |kept| ==> kept[a].id < kept[b].id)
      && |kept| + JsArray.CountIf(all, Failed) <= |all|
    ensures var kept := JsArray.FilterMap(all, Selected);
      forall k :: 0 <= k < |kept| ==>
        0 <= kept[k].id - FirstId < |all| && all[kept[k].id - FirstId] == Some(kept[k])
  {
    SelectedFacts(all);
    KeptAreConversions(all);
  }

  /** Every kept puzzle is the conversion at the index its id names. */
  lemma {:induction false} KeptAreConversions(all: seq<Option<LichessPuzzle>>)
    requires forall i :: 0 <= i < |all| && all[i].Some? ==> all[i].value.id == i + FirstId
    ensures var kept := JsArray.FilterMap(all, Selected);
      forall k :: 0 <= k < |kept| ==>
        0 <= kept[k].id - FirstId < |all| && all[kept[k].id - FirstId] == Some(kept[k])
    decreases |all|
  {
    if all != [] {
      var n := |all| - 1;
      var init := all[..n];
      KeptAreConversions(init);
      assert init + [all[n]] == all;
      JsArray.FilterMapSnoc(init, all[n], Selected);
    }
  }
}
