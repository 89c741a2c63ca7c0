# puzzlesv2 core, modelled in Dafny

puzzlesv2 is a chess puzzle website with the scripts that build its puzzle set. This
project models the logic of its core and proves what that logic guarantees. The core has
three parts.

- **Puzzle ingestion.** Four Node scripts turn the Lichess puzzle CSV into the site's JSON.
  - The streaming processor (`process-csv-streaming.js`) reads lines, admits rows by
    field count up to a limit, converts them with defaults, and computes the dataset
    metadata.
  - The downloader (`download-lichess-puzzles.js`) reassembles lines from stream chunks,
    keeps rows whose field count equals the header's, converts them (ratings and
    difficulty, UCI to SAN replay, theme, hint and description tables) and filters them by
    popularity and motif.
  - The importer (`puzzle-importer.js`) does the same with its own tables, no rating
    fallback, and a replay that skips moves the rules answer with null.
  - The curated set (`create-curated-puzzles.js`) maps a fixed list into records and
    prints per-difficulty and per-theme counts.
- **Engine answers.** Three places read the engine's `bestmove` message.
  - The batch validator (`validate-puzzles-with-komodo.js`) makes one promise per engine
    call. The promise settles once, on the first buffer holding `bestmove\s(\S+)` or on
    the deadline. Each puzzle's moves become the prefix of engine answers that the rules
    accept.
  - The current `/komodo/move` route has stdout, stderr and exit listeners guarded by one
    `responded` flag.
  - The older route has only the stdout listener.
- **The web application.**
  - The puzzle service: filters, pagination, marking a puzzle solved, the attempt log with
    its totals and streak, and the statistics.
  - The shuffled puzzle order and its index.
  - The solver's move-index state machine.
  - The browser's page buttons and filter state.
  - The accuracy page's theme ranking and suggestion rules.
  - The dashboard's cards.

External parts become parameters.

- **The chess library.** chess.js is the oracle `Chess.Rules<P>`. Over an opaque position
  type it gives FEN loading, a move that is played, refused (null) or raises, the side to
  move, and SAN.
- **The engine.** Its output is a given sequence of chunks or events. A timeout is an
  event.
- **Other inputs.** Clock readings, random choices and what storage holds are arguments.

The shared modules model the JavaScript built-ins the scripts rely on:

- `JsString`: `trim`, `split`, `join`, `includes`, case mapping, string `<`;
- `JsNumber`: `parseInt`, the `x || d` idiom, `Math.round` of a quotient;
- `JsArray`: `filter`, `map`, `slice`, `Set`, sort, count objects.

`CsvLine` is the quote-toggling field splitter that all three scripts share. `Uci` is the
`bestmove` scanner.

Where the code and the design intent differ, the model follows the code. Two such places
are listed under Findings, each modelled as written and corrected, and the rest of the model
uses the corrected form: the dashboard's count branch is unreachable, and the downloader's
promise never settles once the limit is reached. Others are stated next to the members
concerned:

- the importer's rating has no fallback, so an unparsable rating is Hard;
- the validator never writes its `valid` flag;
- a reset leaves the solver in its waiting state;
- a `bestmove` token split across chunks is truncated.

## Model

| member | source | states |
|---|---|---|
| CsvLine.ParseCsvLine | chess-puzzle-website/scripts/process-csv-streaming.js:94-114 | the trimming splitter: each field is the trim of the raw field between unquoted commas |
| CsvLine.ParseCsvLineUntrimmed | scripts/puzzle-importer.js:57-75 | the importer's splitter yields exactly the raw fields, untrimmed |
| CsvLine.JoinSplit | chess-puzzle-website/scripts/process-csv-streaming.js:99-113 | joining the raw fields with commas gives the line with every quote removed: no other character is lost or moved |
| CsvLine.JoinRawFields | scripts/download-lichess-puzzles.js:168-186 | the raw fields of a whole line join back to the line without its quotes |
| CsvLine.SplitCount | chess-puzzle-website/scripts/process-csv-streaming.js:99-113 | one field per comma outside quotes, plus one |
| CsvLine.FieldCount | scripts/download-lichess-puzzles.js:168-186 | a line has as many fields as unquoted commas plus one, so at least one |
| CsvLine.SplitNoQuotes | chess-puzzle-website/scripts/process-csv-streaming.js:102-103 | no field ever contains a quote character |
| CsvLine.FieldsHaveNoQuotes | scripts/puzzle-importer.js:64-65 | no raw field of a line contains a quote |
| CsvLine.SplitWithoutQuotes | scripts/puzzle-importer.js:57-75 | on a line without quotes the splitter is `split(',')` |
| CsvLine.RawFieldsWithoutQuotes | scripts/puzzle-importer.js:34 | without quotes the raw fields equal the header-style `split(',')` |
| CsvLine.TrimmedFieldsAreTrim | chess-puzzle-website/scripts/process-csv-streaming.js:104-112 | every trimmed field has no white space at either end and is the trim of its raw field |
| CsvLine.RecordFacts | scripts/download-lichess-puzzles.js:140-143 | the record's keys are the headers; a header not repeated later holds the value at its own position |
| CsvLine.Get | scripts/download-lichess-puzzles.js:229 | reading a key gives its value, or absent for `undefined` |
| JsString.Trim | chess-puzzle-website/scripts/process-csv-streaming.js:61 | `trim` returns a slice of the input whose cut ends are white space and whose own ends are not |
| JsString.TrimIdempotent | chess-puzzle-website/scripts/process-csv-streaming.js:64 | trimming a trimmed string changes nothing |
| JsString.SplitOn | chess-puzzle-website/scripts/process-csv-streaming.js:128 | `split(sep)` gives at least one piece |
| JsString.JoinSplitOn | chess-puzzle-website/scripts/process-csv-streaming.js:128 | joining the pieces of `split(sep)` with `sep` gives the string back |
| JsString.SplitOnPieces | scripts/create-curated-puzzles.js:201-202 | no piece of a split holds the separator, and there is one piece more than separators |
| JsString.SplitFromAppend | scripts/download-lichess-puzzles.js:121-125 | splitting a concatenation keeps every complete piece of the first part and continues its last piece |
| JsString.SplitOnRestart | scripts/download-lichess-puzzles.js:125 | a carried-over fragment without newline becomes the open start of the next chunk's first piece |
| JsString.ContainsOccurs | chess-puzzle-website/src/services/puzzleService.js:30 | `includes` holds exactly when the needle occurs at some position |
| JsString.ToLowerIdempotent | scripts/create-curated-puzzles.js:238 | lower-casing is idempotent and forgets the case of every letter |
| JsString.LessTrichotomy | chess-puzzle-website/scripts/process-csv-streaming.js:180 | the default string order compares any two distinct strings one way |
| JsString.LessTransitive | chess-puzzle-website/scripts/process-csv-streaming.js:180 | the default string order is transitive |
| JsNumber.ParseInt | chess-puzzle-website/scripts/process-csv-streaming.js:129 | `parseInt` reads optional white space, one sign and the longest digit run, giving NaN when there are no digits |
| JsNumber.OrDefault | chess-puzzle-website/scripts/process-csv-streaming.js:129 | `parseInt(x) \|\| d`: NaN and 0 give `d`, any other value is kept, so the result is never 0 when `d` is not |
| JsNumber.ParseIntToString | chess-puzzle-website/src/contexts/PuzzleContext.js:28 | printing an integer and parsing it back, with or without radix 10, gives the integer |
| JsNumber.NatToStringValue | src/components/PuzzleSolver.js:295 | the printed digits of a number read back as the number |
| JsNumber.RoundDiv | chess-puzzle-website/src/services/puzzleService.js:296 | `Math.round(n / d)` is the integer within one half of the quotient, halves rounding up |
| JsNumber.Percent | chess-puzzle-website/src/services/puzzleService.js:224 | a rounded percentage of a part of a whole lies in 0..100 |
| JsArray.Filter | chess-puzzle-website/src/services/puzzleService.js:50 | `filter` keeps a subsequence, each element satisfying the test |
| JsArray.FilterFilter | chess-puzzle-website/src/services/puzzleService.js:49-62 | two filters in a row keep what both tests accept |
| JsArray.Slice | chess-puzzle-website/src/services/puzzleService.js:69 | `slice(start, end)` is the clamped window of the sequence |
| JsArray.Take | chess-puzzle-website/scripts/process-csv-streaming.js:56-59 | a loop that stops collecting at `n` keeps the first `n` elements, or all when fewer |
| JsArray.FilterMapIds | scripts/download-lichess-puzzles.js:195 | values tagged with `base + position` come out in strictly increasing id order, each the value of the element its id names |
| JsArray.FilterMapIsFilter | chess-puzzle-website/scripts/process-csv-streaming.js:138-140 | collecting `g` where `p` holds is mapping `g` over the filtered elements |
| JsArray.MinOf | chess-puzzle-website/scripts/process-csv-streaming.js:177 | `Math.min` of a non-empty list is an element no larger than any other |
| JsArray.MaxOf | chess-puzzle-website/scripts/process-csv-streaming.js:178 | `Math.max` of a non-empty list is an element no smaller than any other |
| JsArray.Distinct | chess-puzzle-website/src/services/puzzleService.js:218 | `[...new Set(s)]` holds each element of `s` exactly once |
| JsArray.SortedDistinct | chess-puzzle-website/scripts/process-csv-streaming.js:180 | `[...new Set(s)].sort()` is strictly sorted and has exactly the elements of `s` |
| JsArray.StrictlySortedUnique | chess-puzzle-website/src/services/puzzleService.js:38 | two strictly sorted lists with the same elements are equal, so the sorted theme list is determined by the set |
| JsArray.TallyFacts | scripts/create-curated-puzzles.js:257-265 | a counts object has one entry per distinct key holding its number of occurrences, and the counts sum to the item count |
| Labels.RatingLevel | scripts/download-lichess-puzzles.js:229-233 | below 1300 Easy, below 1600 Medium, otherwise Hard; NaN is Hard |
| Chess.UciRequest | chess-puzzle-website/scripts/validate-puzzles-with-komodo.js:73-77 | the move object built from a UCI string: two characters, two more, and the fifth as promotion |
| Chess.PlayWhileLegal | scripts/download-lichess-puzzles.js:268-293 | the moves played until the first one refused or raising: at most one SAN per move |
| Chess.PlayWhileLegalPrefix | scripts/download-lichess-puzzles.js:268-293 | what is played is the longest accepted prefix, with the SAN of each move, and the next move is not playable |
| StreamingCsv.ParseCsvStream | chess-puzzle-website/scripts/process-csv-streaming.js:35-92 | the rows collected equal the first `limit` rows of qualifying lines, in order |
| StreamingCsv.OnLine | chess-puzzle-website/scripts/process-csv-streaming.js:53-72 | below the limit a qualifying line adds its row and bumps the count; otherwise nothing changes |
| StreamingCsv.AdmitLine | chess-puzzle-website/scripts/process-csv-streaming.js:61-71 | a blank line gives no row; else the trimmed line's fields give a row exactly when there are at least 8 of them |
| StreamingCsv.Admitted | chess-puzzle-website/scripts/process-csv-streaming.js:61-71 | no more rows than lines |
| StreamingCsv.AdmittedIsFilter | chess-puzzle-website/scripts/process-csv-streaming.js:61-71 | the admitted rows are the rows of the qualifying lines in order |
| StreamingCsv.AdmittedRows | chess-puzzle-website/scripts/process-csv-streaming.js:53-71 | at most `limit` rows, each the row of a non-blank line with at least 8 fields, lines in order |
| StreamingCsv.RowOfShort | chess-puzzle-website/scripts/process-csv-streaming.js:47-69 | a row has exactly the ten header fields; positions a short line lacks are `''`, values past the tenth are dropped |
| StreamingCsv.GetDifficulty | chess-puzzle-website/scripts/process-csv-streaming.js:155-160 | below 1200 beginner, below 1600 intermediate, below 2000 advanced, else expert |
| StreamingCsv.DifficultyMonotone | chess-puzzle-website/scripts/process-csv-streaming.js:155-160 | a higher rating never gives a lower level |
| StreamingCsv.ConvertOne | chess-puzzle-website/scripts/process-csv-streaming.js:126-134 | a nonzero rating with its difficulty, at least one theme, the row's FEN, and no moves exactly when the moves field is empty |
| StreamingCsv.ConvertOneFacts | chess-puzzle-website/scripts/process-csv-streaming.js:126-134 | id defaults to `puzzle_<i+1>`; rating NaN or 0 becomes 1500 and sets the difficulty; themes default to `['puzzle']`; counts to 0; moves and themes join back to their fields |
| StreamingCsv.ConvertPuzzles | chess-puzzle-website/scripts/process-csv-streaming.js:116-153 | the loop's output is the conversions of the rows that have a FEN and moves, in order |
| StreamingCsv.ConvertedFacts | chess-puzzle-website/scripts/process-csv-streaming.js:116-153 | every record written has a FEN, at least one move, a nonzero rating and the difficulty of that rating, and records keep input order |
| StreamingCsv.KeepIffPresent | chess-puzzle-website/scripts/process-csv-streaming.js:127-140 | a row is written exactly when its FEN and its moves field are both non-empty |
| StreamingCsv.MetadataOf | chess-puzzle-website/scripts/process-csv-streaming.js:171-181 | the metadata's total is the count, min and max bound every rating and occur among them, and the themes are the strictly sorted set of all themes |
| StreamingCsv.Process | chess-puzzle-website/scripts/process-csv-streaming.js:15-34 | the run is parse, then convert, then metadata of the converted records |
| StreamingCsv.ProcessBound | chess-puzzle-website/scripts/process-csv-streaming.js:56-59 | at most `limit` records are written, and never more than there are lines |
| LichessDownload.DownloadParser.OnData | scripts/download-lichess-puzzles.js:120-157 | one `data` event: the buffer keeps the text after the last newline; the lines before it are processed; the stream is destroyed at the limit |
| LichessDownload.ParseDownloadedFile | scripts/download-lichess-puzzles.js:108-166 | as written: the promise settles, with the rows of the stream, exactly when the stream was not destroyed, since only `end` resolves it |
| LichessDownload.ParseDownloadedFileCorrected | scripts/download-lichess-puzzles.js:108-166 | corrected: resolves in either case with the rows collected, cut at the limit |
| LichessDownload.ReadStream | scripts/download-lichess-puzzles.js:118-162 | the loop delivering chunks until the end or the destruction computes the rows and the destroyed flag of the chunk function |
| LichessDownload.FeedDestroyedAtLimit | scripts/download-lichess-puzzles.js:134-156 | the stream is destroyed exactly when the rows reach the limit, and feeding more chunks keeps it so |
| LichessDownload.ResolvesBelowLimit | scripts/download-lichess-puzzles.js:134-162 | the promise settles exactly when the rows stay below the limit, and then with the admitted rows of all later lines, uncut |
| LichessDownload.LimitNeverResolves | scripts/download-lichess-puzzles.js:134-162 | with at least `n` admitted rows and limit `n`, the promise never settles, although the first `n` rows were collected |
| LichessDownload.FragmentNeverParsed | scripts/download-lichess-puzzles.js:124-162 | text after the last newline is never a line: no newline means no line, and a trailing newline makes every piece a line |
| LichessDownload.Feed | scripts/download-lichess-puzzles.js:118-157 | the rows only grow over the chunks, and a destroyed stream takes no more |
| LichessDownload.FeedLines | scripts/download-lichess-puzzles.js:118-157 | the chunking does not matter: the rows are those of the complete lines of the carried text |
| LichessDownload.LinesAppend | scripts/download-lichess-puzzles.js:127-152 | the line loop over two runs is the loop over the first then the second, and a broken loop stays broken |
| LichessDownload.CollectIsCapped | scripts/download-lichess-puzzles.js:134-145 | after the header, the rows kept are the admitted rows of the later lines cut at the limit |
| LichessDownload.DownloadedRows | scripts/download-lichess-puzzles.js:128-145 | first line is the header; rows are later lines with its field count, in order, at most `limit` |
| LichessDownload.UciToSanIsLegalReplay | scripts/download-lichess-puzzles.js:268-293 | the replay skips tokens shorter than 4, stops at the first refused or raising move, so it is a legal replay no longer than the input |
| LichessDownload.ConvertUciToSan | scripts/download-lichess-puzzles.js:268-293 | the loop computes the replay function |
| LichessDownload.MapTheme | scripts/download-lichess-puzzles.js:295-336 | exactly unknown themes map to `Tactical`, and no theme maps to an empty name |
| LichessDownload.Hint | scripts/download-lichess-puzzles.js:371-387 | the generic hint is given exactly for a theme the table lacks |
| LichessDownload.Description | scripts/download-lichess-puzzles.js:338-369 | a description is never empty; the lemmas below give the text of each case |
| LichessDownload.DescriptionMate | scripts/download-lichess-puzzles.js:340-348 | with `mate` and a first `mateIn<N>`, the text is "Find checkmate in N move(s).", singular only for N = `1` |
| LichessDownload.DescriptionMateWithoutCount | scripts/download-lichess-puzzles.js:349-350 | with `mate` and no `mateIn` theme, the generic mate text |
| LichessDownload.DescriptionOther | scripts/download-lichess-puzzles.js:352-368 | without `mate`, the first theme in order that has a description wins; with none the text names the difficulty |
| LichessDownload.ConvertSingle | scripts/download-lichess-puzzles.js:227-266 | no puzzle exactly when the FEN fails to load; else the id and FEN given, the hint of its theme, unsolved |
| LichessDownload.ConvertSingleFacts | scripts/download-lichess-puzzles.js:227-266 | no puzzle exactly when the FEN fails to load; else id kept, rating NaN or 0 becomes 1200 with its difficulty, legal replay no longer than the moves, themes default to `['tactical']`, hint of the mapped theme, orientation the side to move |
| LichessDownload.ConvertSinglePuzzle | scripts/download-lichess-puzzles.js:227-266 | the method computes the conversion function |
| LichessDownload.Passes | scripts/download-lichess-puzzles.js:200-209 | kept exactly when popularity or plays reach 50 and the puzzle is tactical or longer than four moves |
| LichessDownload.MotifsAreTactical | scripts/download-lichess-puzzles.js:203-206 | each of the twelve motifs counts as tactical, while the fallback `Tactical` of an unknown theme matches none of them |
| LichessDownload.ConvertPuzzles | scripts/download-lichess-puzzles.js:188-225 | the kept puzzles and the error count are those of the selection over all conversions, ids `i + 10000` |
| LichessDownload.ConvertedFacts | scripts/download-lichess-puzzles.js:193-214 | each kept puzzle passes both filters and is the conversion of the row its id names; ids strictly increase; kept plus failed rows at most all rows |
| PuzzleImporter.Replay | scripts/puzzle-importer.js:123-144 | the importer's replay yields at most one SAN per token |
| PuzzleImporter.ConvertUciToSan | scripts/puzzle-importer.js:123-144 | the loop computes the replay function |
| PuzzleImporter.ReplaySkipsRefused | scripts/puzzle-importer.js:134-136 | a move answered null is skipped and the replay goes on from the same position |
| PuzzleImporter.ReplayWithoutRefusals | scripts/puzzle-importer.js:127-141 | with rules that never answer null, the replay stops at the first raising move like the downloader's |
| PuzzleImporter.MapTheme | scripts/puzzle-importer.js:147-177 | exactly unknown themes map to `Tactical`, and no theme maps to an empty name |
| PuzzleImporter.Hint | scripts/puzzle-importer.js:196-210 | the generic hint is given exactly for a theme the table lacks |
| PuzzleImporter.Description | scripts/puzzle-importer.js:180-193 | the text is that of the first of mate, pin, fork, sacrifice, endgame present, else the default |
| PuzzleImporter.ConvertToPlatform | scripts/puzzle-importer.js:78-120 | no puzzle exactly when Moves or Themes is absent or the FEN fails to load; else id `index + 1000`, the hint of its theme, unsolved |
| PuzzleImporter.ConvertToPlatformFormat | scripts/puzzle-importer.js:78-120 | the method computes the conversion function, no puzzle when it throws |
| PuzzleImporter.ConvertFacts | scripts/puzzle-importer.js:78-120 | no puzzle exactly when Moves or Themes is absent or the FEN fails to load; else id `index + 1000`, rating unparsed-is-Hard, replay no longer than the moves, themes join back, counts default to 0 |
| PuzzleImporter.ParseCsvData | scripts/puzzle-importer.js:32-54 | the loop returns exactly the conversions of the data lines, in order, skipping failed ones |
| PuzzleImporter.Imported | scripts/puzzle-importer.js:32-54 | fewer puzzles than lines, the header taking one |
| PuzzleImporter.ImportedOrder | scripts/puzzle-importer.js:37-100 | ids strictly increase, from 1001 to 1000 plus the number of data lines; no data line gives no puzzle |
| PuzzleImporter.ImportedFromLines | scripts/puzzle-importer.js:37-49 | every puzzle comes from the line its id names, whose untrimmed field count equals the header's |
| PuzzleImporter.HeaderCount | scripts/puzzle-importer.js:34 | the header has one name more than its line has commas |
| Curated.Capitalize | scripts/create-curated-puzzles.js:209 | the first character upper-cased, the rest unchanged |
| Curated.HintForTheme | scripts/create-curated-puzzles.js:224-239 | the default exactly for a theme whose lower-cased form the table lacks |
| Curated.HintFacts | scripts/create-curated-puzzles.js:224-239 | the lookup ignores case: upper- or lower-casing the theme gives the same hint |
| Curated.CreateCuratedPuzzleSet | scripts/create-curated-puzzles.js:200-219 | one record per entry, same length and order |
| Curated.Convert | scripts/create-curated-puzzles.js:200-219 | the entry's Lichess id, FEN, rating, difficulty and description carried over, unsolved, source `lichess` |
| Curated.ConvertFacts | scripts/create-curated-puzzles.js:201-217 | id `imported_<i+1>`, Lichess id kept, moves and themes split on spaces and joining back, capitalised first theme, hint of the first theme, white exactly when the FEN holds ` w ` |
| Curated.IdsDistinct | scripts/create-curated-puzzles.js:205 | no two records share an id |
| Curated.SummaryCounts | scripts/create-curated-puzzles.js:257-265 | each breakdown lists every label once with its count, and the counts sum to the total |
| Uci.Scan | chess-puzzle-website/server/komodoApi.js:16 | the capture is the token right after the leftmost `bestmove` and one white space character |
| Uci.FirstMatchLeftmost | chess-puzzle-website/server/komodoApi.js:16 | the match found is the leftmost one, and there is none exactly when no position matches |
| Uci.ScanToken | server/komodoApi.js:16 | a capture is a non-empty run of non-space characters |
| Uci.ScanImpliesKeyword | server/komodoApi.js:15-16 | a match implies `bestmove` is present, so the `includes` test changes nothing |
| Uci.ScanStable | chess-puzzle-website/scripts/validate-puzzles-with-komodo.js:26-28 | once the buffer matches, more text keeps the match in place; the move changes only if its token reached the end |
| Uci.TokenExtended | chess-puzzle-website/server/komodoApi.js:14-16 | a token already followed by white space is not lengthened by later text |
| Uci.ChunkSplitTruncates | chess-puzzle-website/server/komodoApi.js:14-19 | the first chunk `bestmove e2` already answers `e2`, although the whole text `bestmove e2e4` followed by a newline names `e2e4` |
| KomodoValidator.BestMoveCall.OnData | chess-puzzle-website/scripts/validate-puzzles-with-komodo.js:25-35 | a chunk is appended; the first buffer holding a match resolves with its capture and removes the listener |
| KomodoValidator.BestMoveCall.OnTimeout | chess-puzzle-website/scripts/validate-puzzles-with-komodo.js:39-44 | an unanswered call rejects and removes its listener; an answered one is unchanged |
| KomodoValidator.GetBestMove | chess-puzzle-website/scripts/validate-puzzles-with-komodo.js:21-46 | writes `position fen` then `go movetime`, deadline `movetime + 2000`, settles exactly once with the settlement of the chunks |
| KomodoValidator.Settle | chess-puzzle-website/scripts/validate-puzzles-with-komodo.js:25-44 | a resolution carries a non-empty move with no whitespace in it |
| KomodoValidator.SettleRejected | chess-puzzle-website/scripts/validate-puzzles-with-komodo.js:39-44 | a rejection means no buffer ever matched, the same as the whole text having no match |
| KomodoValidator.SettleResolved | chess-puzzle-website/scripts/validate-puzzles-with-komodo.js:27-32 | a resolution carries the capture of the first buffer that matched |
| KomodoValidator.Walk | chess-puzzle-website/scripts/validate-puzzles-with-komodo.js:61-88 | the replay of one puzzle's moves; its lengths and acceptance are stated by the two lemmas below |
| KomodoValidator.WalkLengths | chess-puzzle-website/scripts/validate-puzzles-with-komodo.js:61-88 | at most one move kept per step, and one engine call per kept move plus one for a stop |
| KomodoValidator.WalkAccepted | chess-puzzle-website/scripts/validate-puzzles-with-komodo.js:73-83 | every kept move is an engine answer the rules played, in order from the puzzle's position |
| KomodoValidator.WalkStops | chess-puzzle-website/scripts/validate-puzzles-with-komodo.js:64-86 | an empty answer, a rejection or a refused move ends the replay |
| KomodoValidator.WalkPlays | chess-puzzle-website/scripts/validate-puzzles-with-komodo.js:69-83 | a played answer is kept even when it differs from the claimed move, and the replay goes on |
| KomodoValidator.AgreeingEngineKeepsMoves | chess-puzzle-website/scripts/validate-puzzles-with-komodo.js:55-90 | an engine that answers every claimed move, with rules playing each, leaves the moves unchanged |
| KomodoValidator.CallCommandsAt | chess-puzzle-website/scripts/validate-puzzles-with-komodo.js:37-38 | each call writes its position, then the search command, and nothing else |
| KomodoValidator.ReplayPuzzle | chess-puzzle-website/scripts/validate-puzzles-with-komodo.js:57-88 | the inner loop's kept moves and commands are those of the replay function |
| KomodoValidator.ValidatePuzzles | chess-puzzle-website/scripts/validate-puzzles-with-komodo.js:16-100 | the run's output is that of the replay over all puzzles, and what it writes is `uci` and `isready`, then one position and search pair per engine call of every puzzle in order |
| KomodoValidator.ValidateOne | chess-puzzle-website/scripts/validate-puzzles-with-komodo.js:55-90 | one turn of the outer loop: the corrected puzzle, and the commands of its replay standing for its FEN strings in what remains to be written |
| KomodoValidator.ValidatedCommands | chess-puzzle-website/scripts/validate-puzzles-with-komodo.js:37-88 | after startup the commands come in position and search pairs, one per call, and no more calls than claimed moves |
| KomodoValidator.AskedFensBound | chess-puzzle-website/scripts/validate-puzzles-with-komodo.js:61-88 | each puzzle asks the engine at most once per claimed move |
| KomodoValidator.Validated | chess-puzzle-website/scripts/validate-puzzles-with-komodo.js:55-97 | when the run completes, the same puzzles in order with their FENs and other fields, and the rest of the file unchanged |
| KomodoValidator.ValidatedShape | chess-puzzle-website/scripts/validate-puzzles-with-komodo.js:55-97 | same puzzles in order with only `moves` replaced, by at most as many accepted engine answers; other fields copied |
| KomodoRoute.EngineElo | chess-puzzle-website/server/komodoApi.js:8 | an absent or zero `elo` gives 1500, any other value is kept |
| KomodoRoute.MoveHandler.OnStdout | chess-puzzle-website/server/komodoApi.js:13-23 | appends the chunk; with a match and no reply yet, sends the move and kills the engine |
| KomodoRoute.MoveHandler.OnStderr | chess-puzzle-website/server/komodoApi.js:25-31 | with no reply yet, sends a 500 with `Komodo error: ` and the text, then kills |
| KomodoRoute.MoveHandler.OnExit | chess-puzzle-website/server/komodoApi.js:33-38 | with no reply yet, sends the unexpected-exit 500, with no kill |
| KomodoRoute.Step | chess-puzzle-website/server/komodoApi.js:13-38 | after a reply every event changes nothing but the buffer; before one, an event adds at most one reply and the flag is set exactly when it does |
| KomodoRoute.FirstOutcome | chess-puzzle-website/server/komodoApi.js:13-38 | no outcome only when every event is stdout; an exit outcome is the unexpected-exit 500 with no kill |
| KomodoRoute.Route | chess-puzzle-website/server/komodoApi.js:5-42 | a missing FEN gives the 400 reply only, no engine, no command, no kill; otherwise an engine at strength `elo`, or 1500 when `elo` is missing or 0 |
| KomodoRoute.HandleMove | chess-puzzle-website/server/komodoApi.js:5-42 | the handler's replies, kills and commands are those of the route function |
| KomodoRoute.RunAfterResponded | chess-puzzle-website/server/komodoApi.js:15-34 | once a reply is sent every listener is a no-op apart from buffering |
| KomodoRoute.RunMatchesFirstOutcome | chess-puzzle-website/server/komodoApi.js:11-38 | the flag-guarded listeners send exactly the reply of the first deciding event |
| KomodoRoute.RouteReplies | chess-puzzle-website/server/komodoApi.js:5-42 | exactly one reply; no FEN is a 400 with no engine; else elo or 1500, `position fen` then `go movetime 2000`, the first deciding event's reply |
| KomodoRoute.SilentPrefix | chess-puzzle-website/server/komodoApi.js:14-17 | stdout without a match decides nothing; the next chunk re-scans the whole buffer |
| KomodoRoute.StdoutOnly | chess-puzzle-website/server/komodoApi.js:13-22 | with only stdout, a reply comes exactly when the whole text matches, with the move, then a kill |
| KomodoRoute.StdoutAnswers | chess-puzzle-website/server/komodoApi.js:13-22 | the first chunk completing a match gives the 200 with its capture and a kill |
| KomodoRoute.StderrBeforeMatch | chess-puzzle-website/server/komodoApi.js:25-31 | stderr before any match gives a 500 with the text and a kill |
| KomodoRoute.ExitBeforeMatch | chess-puzzle-website/server/komodoApi.js:33-38 | an exit before any match gives a 500 and no kill |
| KomodoRouteLegacy.LegacyRoute | server/komodoApi.js:5-27 | a missing FEN gives the 400 reply only, no engine, no command, no kill; otherwise an engine at strength `elo`, or 1500 when `elo` is missing or 0 |
| KomodoRouteLegacy.HandleMoveLegacy | server/komodoApi.js:5-27 | the old handler's replies, kills and commands are those of its route function |
| KomodoRouteLegacy.LegacyIsStdoutOnly | server/komodoApi.js:13-23 | the old route behaves as the new one fed only the stdout events |
| KomodoRouteLegacy.LegacyReplies | server/komodoApi.js:5-27 | at most one reply, each with a kill; with a FEN a reply comes exactly when stdout matches; otherwise none ever |
| KomodoRouteLegacy.LegacyAnswers | server/komodoApi.js:13-22 | the reply carries the first matching buffer's capture; stderr and exit before it change nothing |
| PuzzleService.MapDifficulty | chess-puzzle-website/src/services/puzzleService.js:5-17 | beginner Easy, intermediate Medium, advanced and expert Hard, anything else Medium |
| PuzzleService.ToSite | chess-puzzle-website/src/services/puzzleService.js:20-35 | id, FEN, themes, rating and moves carried over, unsolved |
| PuzzleService.SamplePuzzles | chess-puzzle-website/src/services/puzzleService.js:20-35 | one site puzzle per imported one, in order |
| PuzzleService.SamplePuzzleFacts | chess-puzzle-website/src/services/puzzleService.js:21-31 | solution is the moves; theme is the first theme or `puzzle`; white exactly when the FEN holds ` w `; not solved |
| PuzzleService.ThemesFacts | chess-puzzle-website/src/services/puzzleService.js:38 | the theme list is strictly sorted and holds exactly the themes some puzzle lists |
| PuzzleService.PuzzleOf | chess-puzzle-website/src/services/puzzleService.js:84-87 | the first puzzle with the id, none when no puzzle has it |
| PuzzleService.FilteredIsMatches | chess-puzzle-website/src/services/puzzleService.js:47-62 | the three steps keep exactly the matching puzzles in order: `all` or absent sets no filter, theme matches primary or listed, rating inclusive |
| PuzzleService.CeilDiv | chess-puzzle-website/src/services/puzzleService.js:66 | the least page count whose pages hold all items |
| PuzzleService.FetchPuzzles | chess-puzzle-website/src/services/puzzleService.js:43-82 | at most `pageSize` puzzles, each from the catalog; a previous page exactly from page 2 on |
| PuzzleService.FetchFacts | chess-puzzle-website/src/services/puzzleService.js:65-81 | a page is the filtered window from `(page-1)*pageSize` to `page*pageSize`, at most `pageSize` matching puzzles; the page count is the ceiling |
| PuzzleService.NextPageFacts | chess-puzzle-website/src/services/puzzleService.js:78-79 | `hasNextPage` exactly when the next page is non-empty; `hasPreviousPage` exactly past the first page |
| PuzzleService.GetPuzzleCount | chess-puzzle-website/src/services/puzzleService.js:90-114 | the total is the number of filtered puzzles, and the solved count is at most it |
| PuzzleService.CountAgreesWithFetch | chess-puzzle-website/src/services/puzzleService.js:90-114 | the count's total equals `totalItems` of any page under the same filters, and solved is at most total |
| PuzzleService.Catalog.MarkPuzzleSolved | chess-puzzle-website/src/services/puzzleService.js:116-123 | the first puzzle with the id is marked solved and returned, the rest unchanged; nothing changes without one |
| PuzzleService.NewAttemptFacts | chess-puzzle-website/src/services/puzzleService.js:140-155 | a first try exactly when no earlier attempt has the puzzle id; missing numbers count as 0 |
| PuzzleService.TracksAppend | chess-puzzle-website/src/services/puzzleService.js:158-183 | the stored totals, streak and date after an append are those of the longer log |
| PuzzleService.UserProgress.SaveUserProgress | chess-puzzle-website/src/services/puzzleService.js:137-186 | appends one attempt, totals grow by its values, revealed count by one exactly when revealed, streak by the rules, last date is now; the log invariant is kept |
| PuzzleService.UserProgress.Record | chess-puzzle-website/src/services/puzzleService.js:158-183 | the push, the totals, the streak rules and the date, keeping the log invariant |
| PuzzleService.Streak | chess-puzzle-website/src/services/puzzleService.js:167-181 | never more than the attempts, and positive only when the last attempt was solved |
| PuzzleService.NextStreak | chess-puzzle-website/src/services/puzzleService.js:167-181 | unsolved resets to 0; solved within a whole day of the last attempt adds 1; any other solved attempt starts at 1 |
| PuzzleService.StreakAppend | chess-puzzle-website/src/services/puzzleService.js:167-181 | unsolved sets 0; solved adds 1 within a whole day of the last attempt, else or first time sets 1 |
| PuzzleService.LongestStreak | chess-puzzle-website/src/services/puzzleService.js:282-291 | the loop computes the longest run of solved attempts |
| PuzzleService.LongestRunIsMaximal | chess-puzzle-website/src/services/puzzleService.js:282-291 | some run of solved attempts has the longest length and none is longer |
| PuzzleService.StreakWithinLongest | chess-puzzle-website/src/services/puzzleService.js:167-181 | the stored streak never exceeds the trailing solved run, so it is at most the longest streak |
| PuzzleService.UserProgress.GetUserStats | chess-puzzle-website/src/services/puzzleService.js:189-333 | the statistics of the current log and totals |
| PuzzleService.StatsOf | chess-puzzle-website/src/services/puzzleService.js:189-333 | the longest streak is the longest run of solved attempts, and the total counts every attempt |
| PuzzleService.StatsFacts | chess-puzzle-website/src/services/puzzleService.js:194-291 | no attempts gives 0 for every count, accuracy, level bucket, time, hint and reveal figure, no theme entries and rating 1200; else accuracy is the rounded solved share of distinct attempted ids, at most 100; longest streak is the longest run; each level solves no more than attempts |
| PuzzleService.LevelBucket | chess-puzzle-website/src/services/puzzleService.js:235-253 | a difficulty's bucket counts the distinct attempted ids at that level |
| PuzzleService.UntriedLevelScoresZero | chess-puzzle-website/src/services/puzzleService.js:252 | a difficulty with no attempted puzzle reports accuracy 0 |
| PuzzleService.AverageTime | chess-puzzle-website/src/services/puzzleService.js:294-296 | 0 when no solved attempt has a positive time; otherwise within one half of the sum of those times divided by their count, halves rounded up |
| PuzzleService.AverageTimeWithin | chess-puzzle-website/src/services/puzzleService.js:294-296 | 0 exactly when there are no positive solved times, else between the shortest and the longest of them |
| PuzzleService.EstimatedRating | chess-puzzle-website/src/services/puzzleService.js:299-315 | the rating never drops below the starting 1200 |
| PuzzleService.EstimatedRatingBounds | chess-puzzle-website/src/services/puzzleService.js:299-331 | the rating lies between 1200 and 1200 plus 50 per solved puzzle |
| PuzzleService.StreakAtMostLongest | chess-puzzle-website/src/services/puzzleService.js:325-330 | the reported current streak is at most the longest, and the totals are those of the log |
| PuzzleService.ThemeKeysDistinct | chess-puzzle-website/src/services/puzzleService.js:256-262 | every theme key is set once |
| PuzzleContext.Shuffled | chess-puzzle-website/src/contexts/PuzzleContext.js:9-18 | as many elements as the input |
| PuzzleContext.ShuffledPermutes | chess-puzzle-website/src/contexts/PuzzleContext.js:9-18 | whatever the choices, shuffling only reorders: same length and multiset |
| PuzzleContext.Shuffle | chess-puzzle-website/src/contexts/PuzzleContext.js:9-18 | in place, one swap of cell `m` with a chosen cell in `[0, m]` per turn, running once per cell: the result is the shuffle function of the old contents |
| PuzzleContext.ShuffledIds | chess-puzzle-website/src/contexts/PuzzleContext.js:31-61 | a fresh array of the sample ids, shuffled, so a permutation of them |
| PuzzleContext.PuzzleProvider.Init | chess-puzzle-website/src/contexts/PuzzleContext.js:26-39 | stored non-empty ids are kept with the stored index or 0; otherwise a fresh shuffle at 0, both stored |
| PuzzleContext.PuzzleProvider.NextPuzzle | chess-puzzle-website/src/contexts/PuzzleContext.js:42-57 | the next index with ids kept, or past the end a permutation of the sample ids at 0; the index is stored and in range for non-empty samples |
| PuzzleContext.PuzzleProvider.RefreshPuzzles | chess-puzzle-website/src/contexts/PuzzleContext.js:60-66 | ids become a permutation of the sample ids and the index 0, both stored |
| PuzzleContext.PuzzleProvider.CurrentPuzzleId | chess-puzzle-website/src/contexts/PuzzleContext.js:68 | an id exactly when the index is in range, and then one of the ids |
| PuzzleContext.StoredIndexRoundTrip | chess-puzzle-website/src/contexts/PuzzleContext.js:28-55 | the stored index reads back as itself, 0 included |
| PuzzleSolver.UciToMoveObj | src/components/PuzzleSolver.js:223-229 | null for a missing or short string; else squares `s[0..2]`, `s[2..4]`, promotion `s[4]` exactly when longer than 4 |
| PuzzleSolver.UciRoundTrip | src/components/PuzzleSolver.js:223-229 | a 4- or 5-character UCI string comes back from its move object, the same object the scripts build |
| PuzzleSolver.FormatTime | src/components/PuzzleSolver.js:292-296 | minutes, a colon, and two seconds digits |
| PuzzleSolver.FormatTimeValue | src/components/PuzzleSolver.js:292-296 | the display reads back as the time: minutes times 60 plus the seconds below 60 |
| PuzzleSolver.Solver.constructor | src/components/PuzzleSolver.js:22-52 | the first mount: the puzzle's start position, empty history, index 0, not waiting, nothing pending, timer on |
| PuzzleSolver.Solver.MakeMove | src/components/PuzzleSolver.js:65-125 | refused while waiting or on an illegal move; a wrong legal move is accepted and changes nothing; the expected move advances the index by 1, waits when more remain, reports solved at the end |
| PuzzleSolver.Solver.OpponentMove | src/components/PuzzleSolver.js:127-170 | the pending answer is played if legal, advancing the index; the wait ends; solved exactly when the index reaches the end |
| PuzzleSolver.Solver.ResetPuzzle | src/components/PuzzleSolver.js:181-202 | back to the start with empty history and index 0, timer on; the wait is left as it is |
| PuzzleBrowser.PageButtons | chess-puzzle-website/src/pages/PuzzleBrowser.js:146 | `min(5, totalPages)` buttons |
| PuzzleBrowser.PageButtonsFacts | chess-puzzle-website/src/pages/PuzzleBrowser.js:146-156 | buttons consecutive ascending within `[1, totalPages]`, starting as the four cases say, and holding any in-range current page |
| PuzzleBrowser.ControlsFor | chess-puzzle-website/src/pages/PuzzleBrowser.js:135-175 | controls only for more than one page; arrows disabled exactly without a previous or next page |
| PuzzleBrowser.ArrowsFollowPages | chess-puzzle-website/src/pages/PuzzleBrowser.js:139-172 | Previous is enabled exactly past page 1, Next exactly when the next page has puzzles |
| PuzzleBrowser.Browser.DifficultyChange | chess-puzzle-website/src/pages/PuzzleBrowser.js:43-54 | a new difficulty is stored and sends the view to page 1; the same value changes nothing |
| PuzzleBrowser.Browser.ThemeChange | chess-puzzle-website/src/pages/PuzzleBrowser.js:43-58 | a new theme is stored and sends the view to page 1; the same value changes nothing |
| PuzzleBrowser.Browser.PageChange | chess-puzzle-website/src/pages/PuzzleBrowser.js:47-50 | the page becomes the one asked for, filters unchanged |
| PuzzleBrowser.Browser.LoadPuzzles | chess-puzzle-website/src/pages/PuzzleBrowser.js:16-37 | the page and counts of the current filters; count total equals the page's `totalItems`; at most 24 matching puzzles |
| PuzzleBrowser.AllSelectsEverything | chess-puzzle-website/src/pages/PuzzleBrowser.js:19-22 | the `all` options filter nothing |
| AccuracyTracker.SortDesc | src/components/AccuracyTracker.js:111 | as many entries as the input |
| AccuracyTracker.SortDescFacts | src/components/AccuracyTracker.js:111 | the sort orders by descending `attempted` and is a permutation |
| AccuracyTracker.SortDescStable | src/components/AccuracyTracker.js:111 | equal keys keep their input order |
| AccuracyTracker.ThemeCards | src/components/AccuracyTracker.js:110-112 | at most eight cards, and no more than the themes |
| AccuracyTracker.ThemeCardsFacts | src/components/AccuracyTracker.js:110-112 | at most eight cards, most attempted first, each a theme entry, all of them when there are eight or fewer, and no entry left out attempted more than a card shown |
| AccuracyTracker.BarsShowAccuracy | src/components/AccuracyTracker.js:122 | computed accuracies never exceed 100, so each bar's width is its percentage |
| AccuracyTracker.Suggestions | src/components/AccuracyTracker.js:138-178 | no more cards than the six, each one whose condition holds |
| AccuracyTracker.SuggestionRules | src/components/AccuracyTracker.js:138-178 | a card is listed exactly when its condition holds, in page order |
| AccuracyTracker.HintRuleExact | src/components/AccuracyTracker.js:145 | `2 * hintsUsed > solved` is exactly `hintsUsed > solved * 0.5` |
| AccuracyTracker.SomeLevelBelow50Iff | src/components/AccuracyTracker.js:166 | the `some` test holds exactly when a difficulty is below 50 |
| AccuracyTracker.FundamentalsRule | src/components/AccuracyTracker.js:166 | the fundamentals card shows exactly when some difficulty is below 50 |
| AccuracyTracker.NoPraiseWithWarning | src/components/AccuracyTracker.js:138-173 | the praise never appears with the accuracy warning |
| AccuracyTracker.UntriedLevelShowsFundamentals | src/components/AccuracyTracker.js:166 | until every difficulty is tried the fundamentals card is shown |
| Dashboard.FavoriteTheme | chess-puzzle-website/src/pages/Dashboard.js:57-80 | `Fork` for an empty object or array |
| Dashboard.ObjectFavorite | chess-puzzle-website/src/pages/Dashboard.js:58-65 | for a non-empty statistics object the favourite has the most attempts, every earlier key strictly fewer |
| Dashboard.ArrayFavorite | chess-puzzle-website/src/pages/Dashboard.js:69-77 | corrected: the array's favourite is a theme of one of its puzzles and no theme occurs more often |
| Dashboard.MostCommonTheme | chess-puzzle-website/src/pages/Dashboard.js:57-80 | the method computes the corrected favourite |
| Dashboard.FavoriteThemeAsWritten | chess-puzzle-website/src/pages/Dashboard.js:57-80 | as written: same as the corrected one on objects, `Fork` on an empty array |
| Dashboard.ArrayBranchUnreachable | chess-puzzle-website/src/pages/Dashboard.js:58-77 | one solved pin puzzle gives `"0"` as written, no theme of any puzzle, where the count gives `Pin` |
| Dashboard.Loaded | chess-puzzle-website/src/pages/Dashboard.js:22-33 | the cards carry the statistics; total time is minutes rounded half up; the favourite comes from `accuracyByTheme` |
| Dashboard.Fallback | chess-puzzle-website/src/pages/Dashboard.js:36-50 | solved count n, rating `1200 + 25n`, time `round(2.5n)`, streak 5, zeros, favourite of the solved puzzles |
| Dashboard.LoadedFromLog | chess-puzzle-website/src/pages/Dashboard.js:21-28 | the loaded rating lies within 1200 and 50 per solved puzzle above; the favourite is a most-attempted key, or `Fork` with none |
| Dashboard.DashboardPage.LoadUserStats | chess-puzzle-website/src/pages/Dashboard.js:17-56 | loaded cards or the fallback when statistics fail, and the first four sample puzzles |

## Left out

- File, stream, readline, HTTPS and JSON I/O are absent. The chunks, lines and parsed JSON come in as arguments, and the metadata's `processed_at` clock reading is a parameter. `savePuzzles`, `saveJSON`'s file writing, `downloadFile` and `downloadUncompressedPuzzles` are not part of this model.
- Console output is absent: progress lines, `printSummary`, and the printing of the curated summary. The model keeps the counts `main` prints.
- chess.js is an oracle. Its legality, FEN, SAN and `turn()` are not modelled. The FEN a move produces is abstracted into the opaque position.
- Engine processes, `spawn`, `kill` signals and real timers are absent. Engine output is an event or chunk sequence, and the validator's deadline is a timeout event. The validator's startup writes, `uci` then `isready`, are modelled as the first two commands of the run; the process's start and its final kill are not.
- Interleavings are not modelled. One example is a late `bestmove` of a timed-out call reaching the next call's listener, since each call sees only its own chunks.
- Randomness is a parameter. `shuffle`'s `Math.random` picks are a sequence constrained to `[0, m]`. `getRandomPuzzles` and `getPuzzleStats` are not part of this model.
- localStorage is the provider's stored ids and index. A stored value that is not a JSON array comes in as absent, so JSON parse errors are not modelled.
- React rendering, effects' scheduling and page markup are absent. PuzzleSolver's `animateSolutionFromStart`, `playSolution`, hint and solution toggles, the Komodo play mode, and the `saveUserProgress` and `onSolved` calls made on solving are absent. So is the 500/600 ms pause before the opponent's move; the caller calls `OpponentMove`.
- PuzzleSolver.Solver.ResetPuzzle: it keeps the source's behaviour that a reset does not clear `waitingForOpponent` or a pending answer. The model does not say what the later effect then does to the reset board.
- Integer-like theme keys would be reordered by JavaScript's `Object.keys`. The model keeps insertion order, which is what real theme names get.
- Dashboard.FavoriteTheme: a statistics object is a list of entries assumed to have distinct keys, as `getUserStats` builds it; duplicate keys are not modelled.
- Floating point is absent apart from exact rationals. `estimatedRating` is computed in exact half points with `Math.round(x * 0.7)` written out. Dashboard's "this week" figure (`* 0.2`) is absent, and so are `formatBytes` and the download progress percentages.
- JsNumber.Percent: it rounds the exact quotient `100 * a / b`, while `Math.round(a / b * 100)` rounds a double. Where the exact value is a half below which the double falls, the model is one above the page. 23 of 40 is one such case: the page shows 57 and the model 58. So are 46/80, 29/200, 57/200 and 113/200.
- JavaScript's string model is not modelled. Three gaps follow from it.
  - String `<` and `sort` compare UTF-16 code units (process-csv-streaming.js:180, puzzleService.js:38), while the model compares `char`s. The two orders differ only past the Basic Multilingual Plane.
  - Case mapping covers ASCII letters only (create-curated-puzzles.js:209 and 224-239, download-lichess-puzzles.js:203-206).
  - Object lookups ignore the keys of `Object.prototype`, so a theme named `constructor` or `toString` finds no inherited value here.
- JsNumber.ParseInt: `parseInt` is exact on unbounded integers; the loss of precision past 2^53 is not modelled.
- Dashboard.Fallback: it shows the corrected favourite theme, the most frequent theme of the solved puzzles, where Dashboard.js:44 as written shows `"0"` (see Findings). DashboardPage.LoadUserStats inherits this through the fallback.
- PuzzleService.FetchPuzzles: a page size of 0 or less is not modelled, and the page count requires a positive page size. The browser always uses 24.
- The downloader writes the SAN list under `solution`, while the validator reads `moves`. The model takes each script's own field and does not join the two pipelines.
- Uci.ChunkSplitTruncates: it records that a `bestmove` token split across two chunks is answered cut short, both in the validator and in the routes. The model keeps that behaviour and proposes no correction.
- KomodoValidator.ValidatePuzzles: the `valid` flag the loop computes is never written to the output, so the model does not compute it.
- The aliasing between `samplePuzzles` and the objects handed out is not modelled. `markPuzzleSolved` changes the catalog's stored sequence, and callers see the new state through it.

## Findings

| source | as written | input that shows it | evidently intended | confidence | as-written member | corrected member |
|---|---|---|---|---|---|---|
| scripts/download-lichess-puzzles.js:154-162 | when the rows reach the limit the stream is destroyed; a destroyed stream emits `close` but never `end`, and only `end` resolves the promise, so `parseDownloadedFile` never settles and `download()` never gets past line 47: nothing is converted or saved | a limit of 1 and a file with a header followed by two rows | resolve with the rows collected, cut at the limit | not executed | LichessDownload.ParseDownloadedFile, LichessDownload.LimitNeverResolves | LichessDownload.ParseDownloadedFileCorrected, LichessDownload.DownloadedRows |
| chess-puzzle-website/src/pages/Dashboard.js:58-77 | a non-empty array passes the `typeof === 'object'` test with keys `"0"`, `"1"`, ..., so the reduce returns `"0"` and the counting branch is never reached | the fallback path with one solved sample puzzle whose theme is `Pin` | the most frequent theme among the solved puzzles, here `Pin` | not executed | Dashboard.FavoriteThemeAsWritten, Dashboard.ArrayBranchUnreachable | Dashboard.FavoriteTheme, Dashboard.ArrayFavorite, Dashboard.MostCommonTheme |
