/**
 * The batch validator: for every puzzle it asks the engine for its best move from
 * each position, plays the engine's move (not the claimed one), and writes the
 * puzzle back with its moves replaced by the engine answers the rules accepted.
 *
 * The engine is given as a transcript: `transcript(i, j)` is the sequence of
 * stdout chunks that reach the listener of the `j`-th engine call for puzzle `i`
 * before that call's deadline passes.
 */
module KomodoValidator {
  import opened Wrappers
  import opened JsString
  import Uci
  import Chess

  const DefaultMovetime: int := 2000
  /** Extra time the engine is given beyond its move time before a call gives up. */
  const Grace: int := 2000

  /** The commands written when the engine starts. */
  const StartupCommands: seq<string> := ["uci\n", "isready\n"]

  /** How a `getBestMove` promise settles. */
  datatype Answer = Resolved(move: string) | Rejected

  /** The answer of a call that has received `output` so far and is then sent
      `chunks` before its deadline: resolved by the first chunk after which the
      buffer holds a match, rejected when the deadline comes first. */
  function Settle(output: string, chunks: seq<string>): (r: Answer)
    ensures r.Resolved? ==> |r.move| >= 1 && forall k :: 0 <= k < |r.move| ==> !IsSpace(r.move[k])
    decreases |chunks|
  {
    if chunks == [] then Rejected
    else
      var out := output + chunks[0];
      if Contains(out, Uci.Keyword) && Uci.Scan(out).Some? then
        Uci.ScanToken(out);
        Resolved(Uci.Scan(out).value)
      else Settle(out, chunks[1..])
  }

  /** The state of one `getBestMove` call: its own output buffer, its `responded`
      flag, whether its data listener is still attached, and how it settled. */
  class BestMoveCall {
    var output: string
    var responded: bool
    var listening: bool
    var settled: Option<Answer>
    const deadline: int

    /** The promise settles exactly once; a resolution sets `responded`, and either
        way the listener is gone afterwards. */
    ghost predicate Valid()
      reads this
    {
      (settled.None? <==> listening)
      && (responded <==> settled.Some? && settled.value.Resolved?)
    }

    /** A call starts listening with an empty buffer; its deadline is the move time
        plus the grace period. */
    constructor (movetime: int)
      ensures Valid() && listening && output == "" && settled == None
      ensures deadline == movetime + Grace
    {
      output := "";
      responded := false;
      listening := true;
      settled := None;
      deadline := movetime + Grace;
    }

    /** A stdout chunk reaches the listener. */
    method OnData(chunk: string)
      requires Valid() && listening
      modifies this
      ensures Valid()
      ensures output == old(output) + chunk
      ensures settled == (if Contains(output, Uci.Keyword) && Uci.Scan(output).Some?
                          then Some(Resolved(Uci.Scan(output).value)) else None)
    {
      output := output + chunk;
      if Contains(output, Uci.Keyword) && !responded {
        var m := Uci.Scan(output);
        if m.Some? {
          responded := true;
          listening := false;
          settled := Some(Resolved(m.value));
        }
      }
    }

    /** The deadline passes: a call that has not responded removes its listener and
        rejects; one that has responded is left as it is. */
    method OnTimeout()
      requires Valid()
      modifies this
      ensures Valid() && !listening && output == old(output)
      ensures old(settled).Some? ==> settled == old(settled)
      ensures old(settled).None? ==> settled == Some(Rejected)
    {
      if !responded {
        listening := false;
        settled := Some(Rejected);
      }
    }
  }

  /** One `getBestMove(fen, movetime)` call: the two commands it writes, and how it
      settles given the chunks the engine sends before the deadline. */
  method GetBestMove(fen: string, movetime: int, chunks: seq<string>)
    returns (answer: Answer, commands: seq<string>)
    ensures answer == Settle("", chunks)
    ensures commands == [Uci.PositionCommand(fen), Uci.GoCommand(movetime)]
  {
    var call := new BestMoveCall(movetime);
    commands := [Uci.PositionCommand(fen), Uci.GoCommand(movetime)];
    var k := 0;
    while k < |chunks| && call.listening
      invariant 0 <= k <= |chunks|
      invariant call.Valid()
      invariant call.listening ==> Settle("", chunks) == Settle(call.output, chunks[k..])
      invariant !call.listening ==> call.settled == Some(Settle("", chunks))
      invariant call.settled.Some? ==> call.settled.value.Resolved?
    {
      assert chunks[k..][1..] == chunks[k + 1..];
      call.OnData(chunks[k]);
      k := k + 1;
    }
    call.OnTimeout();
    answer := call.settled.value;
  }

  /** A rejection means no prefix of the chunks ever held a match, which (since a
      match never disappears) is the same as the whole transcript holding none. */
  lemma {:induction false} SettleRejected(output: string, chunks: seq<string>)
    requires Uci.Scan(output).None?
    ensures Settle(output, chunks) == Rejected <==> Uci.Scan(output + Concat(chunks)).None?
    decreases |chunks|
  {
    if chunks == [] {
      assert output + Concat(chunks) == output;
    } else {
      var out := output + chunks[0];
      assert output + Concat(chunks) == out + Concat(chunks[1..]);
      if Uci.Scan(out).Some? {
        Uci.ScanImpliesKeyword(out);
        Uci.ScanStable(out, Concat(chunks[1..]));
      } else {
        SettleRejected(out, chunks[1..]);
      }
    }
  }

  /** The text a call has received after its first `k` chunks. */
  function Received(output: string, chunks: seq<string>, k: nat): string
    requires k <= |chunks|
  {
    output + Concat(chunks[..k])
  }

  lemma ReceivedStep(output: string, chunks: seq<string>, k: nat)
    requires 1 <= k <= |chunks|
    ensures Received(output, chunks, k) == Received(output + chunks[0], chunks[1..], k - 1)
  {
    assert chunks[..k][1..] == chunks[1..][..k - 1];
    assert chunks[..k][0] == chunks[0];
  }

  /** A resolution carries the capture of the first buffer that held a match. */
  lemma {:induction false} SettleResolved(output: string, chunks: seq<string>)
    requires Uci.Scan(output).None?
    requires Settle(output, chunks).Resolved?
    ensures exists k :: (1 <= k <= |chunks|
      && Uci.Scan(Received(output, chunks, k)) == Some(Settle(output, chunks).move)
      && (forall k' :: 0 <= k' < k ==> Uci.Scan(Received(output, chunks, k')).None?))
    decreases |chunks|
  {
    var out := output + chunks[0];
    if Uci.Scan(out).Some? {
      ResolvedFirst(output, chunks);
    } else {
      SettleResolved(out, chunks[1..]);
      var k :| 1 <= k <= |chunks[1..]|
        && Uci.Scan(Received(out, chunks[1..], k)) == Some(Settle(out, chunks[1..]).move)
        && (forall k' :: 0 <= k' < k ==> Uci.Scan(Received(out, chunks[1..], k')).None?);
      ResolvedLater(output, chunks, k, Settle(out, chunks[1..]).move);
    }
  }

  /** A first chunk that completes a match resolves the call with its capture. */
  lemma ResolvedFirst(output: string, chunks: seq<string>)
    requires chunks != [] && Uci.Scan(output).None? && Uci.Scan(output + chunks[0]).Some?
    ensures Settle(output, chunks) == Resolved(Uci.Scan(output + chunks[0]).value)
    ensures Uci.Scan(Received(output, chunks, 1)) == Uci.Scan(output + chunks[0])
    ensures Uci.Scan(Received(output, chunks, 0)).None?
  {
    Uci.ScanImpliesKeyword(output + chunks[0]);
    ReceivedStep(output, chunks, 1);
    assert Received(output + chunks[0], chunks[1..], 0) == output + chunks[0];
    assert Received(output, chunks, 0) == output;
  }

  /** A match first held after chunk `k` of the later chunks is first held after
      chunk `k + 1` of all of them, when the first chunk completed none. */
  lemma ResolvedLater(output: string, chunks: seq<string>, k: nat, move: string)
    requires chunks != [] && Uci.Scan(output).None? && Uci.Scan(output + chunks[0]).None?
    requires 1 <= k <= |chunks| - 1
    requires Uci.Scan(Received(output + chunks[0], chunks[1..], k)) == Some(move)
    requires forall k' :: 0 <= k' < k ==> Uci.Scan(Received(output + chunks[0], chunks[1..], k')).None?
    ensures Settle(output, chunks) == Settle(output + chunks[0], chunks[1..])
    ensures Uci.Scan(Received(output, chunks, k + 1)) == Some(move)
    ensures forall k' :: 0 <= k' < k + 1 ==> Uci.Scan(Received(output, chunks, k')).None?
  {
    ReceivedStep(output, chunks, k + 1);
    forall k' | 0 <= k' < k + 1 ensures Uci.Scan(Received(output, chunks, k')).None? {
      if k' > 0 {
        ReceivedStep(output, chunks, k');
      } else {
        assert Received(output, chunks, 0) == output;
      }
    }
  }

  /** A puzzle as the validator sees it: the position, the claimed moves, and the
      other fields, which are copied as they are. */
  datatype Puzzle<X> = Puzzle(fen: string, moves: seq<string>, rest: X)

  datatype Dataset<X, Y> = Dataset(puzzles: seq<Puzzle<X>>, rest: Y)

  /** How the engine calls for puzzle `i` settle, step by step. */
  function AnswersOf(transcript: (nat, nat) -> seq<string>, i: nat): nat -> Answer {
    (j: nat) => Settle("", transcript(i, j))
  }

  /** `answers` gives, for every call of puzzle `i`, the settlement of its chunks. */
  ghost predicate AnswersFrom(answers: nat -> Answer, transcript: (nat, nat) -> seq<string>, i: nat) {
    forall k: nat {:trigger transcript(i, k)} :: answers(k) == Settle("", transcript(i, k))
  }

  lemma AnswersOfFrom(transcript: (nat, nat) -> seq<string>, i: nat)
    ensures AnswersFrom(AnswersOf(transcript, i), transcript, i)
  {
  }

  /** What one puzzle's replay produces: the moves kept, and the FEN strings the
      engine was asked about, one per call. */
  datatype Replay = Replay(kept: seq<string>, asked: seq<string>)

  /** The replay from step `j` of `n`, standing at `pos` whose FEN string is `fen`,
      when step `k` is answered by `answers(k)`: the moves kept, and the FEN strings
      the engine was asked about. An unanswered call, an empty answer, and a move the
      rules refuse or reject each end the replay; a move that differs from the
      claimed one does not. */
  function Walk<P>(rules: Chess.Rules<P>, answers: nat -> Answer,
                   j: nat, n: nat, pos: P, fen: string): Replay
    requires j <= n
    decreases n - j
  {
    if j == n then Replay([], [])
    else
      match answers(j)
      case Rejected => Replay([], [fen])
      case Resolved(m) =>
        if m == "" then Replay([], [fen])
        else
          match rules.move(pos, Chess.UciRequest(m))
          case Played(next, _) =>
            var w := Walk(rules, answers, j + 1, n, next, rules.fen(next));
            Replay([m] + w.kept, [fen] + w.asked)
          case _ => Replay([], [fen])
  }

  /** The step of the replay that ends it. */
  lemma WalkStops<P>(rules: Chess.Rules<P>, answers: nat -> Answer,
                     j: nat, n: nat, pos: P, fen: string)
    requires j < n
    requires answers(j).Rejected? || answers(j).move == ""
          || !rules.move(pos, Chess.UciRequest(answers(j).move)).Played?
    ensures Walk(rules, answers, j, n, pos, fen) == Replay([], [fen])
  {
  }

  /** The step of the replay that plays the engine's move and goes on. */
  lemma WalkPlays<P>(rules: Chess.Rules<P>, answers: nat -> Answer,
                     j: nat, n: nat, pos: P, fen: string)
    requires j < n
    requires answers(j).Resolved? && answers(j).move != ""
    requires rules.move(pos, Chess.UciRequest(answers(j).move)).Played?
    ensures var next := rules.move(pos, Chess.UciRequest(answers(j).move)).next;
      var rest := Walk(rules, answers, j + 1, n, next, rules.fen(next));
      Walk(rules, answers, j, n, pos, fen) == Replay([answers(j).move] + rest.kept, [fen] + rest.asked)
  {
  }

  /** At most one move is kept per step, and the engine is asked once per kept move,
      plus once more for the step that ended the replay early. */
  lemma {:induction false} WalkLengths<P>(rules: Chess.Rules<P>, answers: nat -> Answer,
                                          j: nat, n: nat, pos: P, fen: string)
    requires j <= n
    ensures var r := Walk(rules, answers, j, n, pos, fen);
      |r.kept| <= n - j
      && (|r.kept| == n - j ==> |r.asked| == |r.kept|)
      && (|r.kept| < n - j ==> |r.asked| == |r.kept| + 1)
    decreases n - j
  {
    if j < n {
      var a := answers(j);
      if a.Resolved? && a.move != "" && rules.move(pos, Chess.UciRequest(a.move)).Played? {
        var next := rules.move(pos, Chess.UciRequest(a.move)).next;
        WalkLengths(rules, answers, j + 1, n, next, rules.fen(next));
        WalkPlays(rules, answers, j, n, pos, fen);
      } else {
        WalkStops(rules, answers, j, n, pos, fen);
      }
    }
  }

  /** Every kept move is an engine answer that the rules played, in order, from the
      puzzle's position. */
  lemma WalkAccepted<P>(rules: Chess.Rules<P>, answers: nat -> Answer,
                        j: nat, n: nat, pos: P, fen: string)
    requires j <= n
    ensures Chess.Accepted(rules, pos, Walk(rules, answers, j, n, pos, fen).kept)
    ensures forall k :: 0 <= k < |Walk(rules, answers, j, n, pos, fen).kept| ==>
      j + k < n && answers(j + k) == Resolved(Walk(rules, answers, j, n, pos, fen).kept[k])
  {
    WalkLegal(rules, answers, j, n, pos, fen);
    WalkAnswered(rules, answers, j, n, pos, fen);
    WalkLengths(rules, answers, j, n, pos, fen);
    var kept := Walk(rules, answers, j, n, pos, fen).kept;
    forall k | 0 <= k < |kept|
      ensures j + k < n && answers(j + k) == Resolved(kept[k])
    {
      assert j + k < n;
      assert answers(j + k) == Resolved(kept[k]);
    }
  }

  /** The kept moves are played one after the other by the rules. */
  lemma {:induction false} WalkLegal<P>(rules: Chess.Rules<P>, answers: nat -> Answer,
                                        j: nat, n: nat, pos: P, fen: string)
    requires j <= n
    ensures Chess.Accepted(rules, pos, Walk(rules, answers, j, n, pos, fen).kept)
    decreases n - j
  {
    if j < n {
      var a := answers(j);
      if a.Resolved? && a.move != "" && rules.move(pos, Chess.UciRequest(a.move)).Played? {
        var next := rules.move(pos, Chess.UciRequest(a.move)).next;
        WalkLegal(rules, answers, j + 1, n, next, rules.fen(next));
        WalkPlays(rules, answers, j, n, pos, fen);
        var w := Walk(rules, answers, j + 1, n, next, rules.fen(next));
        assert ([a.move] + w.kept)[1..] == w.kept;
      } else {
        WalkStops(rules, answers, j, n, pos, fen);
      }
    }
  }

  /** The kept move at offset `k` is the engine's answer to call `j + k`. */
  lemma {:induction false} WalkAnswered<P>(rules: Chess.Rules<P>, answers: nat -> Answer,
                                           j: nat, n: nat, pos: P, fen: string)
    requires j <= n
    ensures forall k :: 0 <= k < |Walk(rules, answers, j, n, pos, fen).kept| ==>
      j + k < n && answers(j + k) == Resolved(Walk(rules, answers, j, n, pos, fen).kept[k])
    decreases n - j
  {
    if j < n {
      var a := answers(j);
      if a.Resolved? && a.move != "" && rules.move(pos, Chess.UciRequest(a.move)).Played? {
        var next := rules.move(pos, Chess.UciRequest(a.move)).next;
        WalkAnswered(rules, answers, j + 1, n, next, rules.fen(next));
        WalkPlays(rules, answers, j, n, pos, fen);
        WalkLengths(rules, answers, j, n, pos, fen);
        var w := Walk(rules, answers, j + 1, n, next, rules.fen(next));
        var kept := [a.move] + w.kept;
        assert Walk(rules, answers, j, n, pos, fen).kept == kept;
        forall k | 0 <= k < |kept|
          ensures j + k < n && answers(j + k) == Resolved(kept[k])
        {
          if k > 0 {
            assert kept[k] == w.kept[k - 1];
            assert j + 1 + (k - 1) == j + k;
          } else {
            assert j + k == j && kept[k] == a.move;
          }
        }
      } else {
        WalkStops(rules, answers, j, n, pos, fen);
        assert Walk(rules, answers, j, n, pos, fen).kept == [];
      }
    } else {
      assert Walk(rules, answers, j, n, pos, fen).kept == [];
    }
  }

  /** When the engine answers every step with the claimed move and the rules play
      each one, the moves come back unchanged. */
  lemma {:induction false} AgreeingEngineKeepsMoves<P>(rules: Chess.Rules<P>, answers: nat -> Answer,
      moves: seq<string>, j: nat, pos: P, fen: string)
    requires j <= |moves|
    requires forall k :: j <= k < |moves| ==> answers(k) == Resolved(moves[k]) && moves[k] != ""
    requires Chess.Accepted(rules, pos, moves[j..])
    ensures Walk(rules, answers, j, |moves|, pos, fen).kept == moves[j..]
    decreases |moves| - j
  {
    if j < |moves| {
      var next := rules.move(pos, Chess.UciRequest(moves[j])).next;
      assert moves[j..][1..] == moves[j + 1..];
      AgreeingEngineKeepsMoves(rules, answers, moves, j + 1, next, rules.fen(next));
      WalkPlays(rules, answers, j, |moves|, pos, fen);
      assert moves[j..] == [moves[j]] + moves[j + 1..];
    }
  }

  /** The commands of a sequence of engine calls made from the positions `fens`. */
  function CallCommands(fens: seq<string>, movetime: int): seq<string> {
    if fens == [] then []
    else [Uci.PositionCommand(fens[0]), Uci.GoCommand(movetime)] + CallCommands(fens[1..], movetime)
  }

  /** Each call writes its position, then the search command, and nothing else. */
  lemma {:induction false} CallCommandsAt(fens: seq<string>, movetime: int)
    ensures |CallCommands(fens, movetime)| == 2 * |fens|
    ensures forall k :: 0 <= k < |fens| ==>
      CallCommands(fens, movetime)[2 * k] == Uci.PositionCommand(fens[k])
      && CallCommands(fens, movetime)[2 * k + 1] == Uci.GoCommand(movetime)
  {
    if fens != [] {
      CallCommandsAt(fens[1..], movetime);
      var r := CallCommands(fens, movetime);
      var rest := CallCommands(fens[1..], movetime);
      forall k | 1 <= k < |fens|
        ensures r[2 * k] == Uci.PositionCommand(fens[k]) && r[2 * k + 1] == Uci.GoCommand(movetime)
      {
        assert r[2 * k] == rest[2 * (k - 1)];
        assert r[2 * k + 1] == rest[2 * (k - 1) + 1];
      }
    }
  }

  lemma {:induction false} CallCommandsAppend(a: seq<string>, b: seq<string>, movetime: int)
    ensures CallCommands(a + b, movetime) == CallCommands(a, movetime) + CallCommands(b, movetime)
    decreases |a|
  {
    if a != [] {
      assert (a + b)[1..] == a[1..] + b;
      CallCommandsAppend(a[1..], b, movetime);
    } else {
      assert a + b == b;
    }
  }

  /** A puzzle with its moves replaced by the replay's kept moves. */
  function CorrectedPuzzle<X, P>(rules: Chess.Rules<P>, transcript: (nat, nat) -> seq<string>,
                                 i: nat, p: Puzzle<X>): Puzzle<X>
    requires rules.load(p.fen).Some?
  {
    p.(moves := Walk(rules, AnswersOf(transcript, i), 0, |p.moves|, rules.load(p.fen).value, p.fen).kept)
  }

  predicate AllLoad<X, P>(rules: Chess.Rules<P>, ps: seq<Puzzle<X>>) {
    forall i :: 0 <= i < |ps| ==> rules.load(ps[i].fen).Some?
  }

  /** The output of the whole run: None when some puzzle's FEN does not load, since
      that error escapes the loop and aborts the run before anything is written. */
  function Validated<X, Y, P>(rules: Chess.Rules<P>, transcript: (nat, nat) -> seq<string>,
                              data: Dataset<X, Y>): (r: Option<Dataset<X, Y>>)
    ensures r.Some? ==> r.value.rest == data.rest && |r.value.puzzles| == |data.puzzles|
    ensures r.Some? ==> forall i :: 0 <= i < |data.puzzles| ==>
      r.value.puzzles[i].fen == data.puzzles[i].fen && r.value.puzzles[i].rest == data.puzzles[i].rest
  {
    if AllLoad(rules, data.puzzles) then
      Some(data.(puzzles := seq(|data.puzzles|, i requires 0 <= i < |data.puzzles| =>
        CorrectedPuzzle(rules, transcript, i, data.puzzles[i]))))
    else None
  }

  /** The FEN strings the run asks the engine about, from puzzle `i` on: each
      puzzle's replay in turn, up to the first puzzle whose FEN does not load. */
  function AskedFens<X, P>(rules: Chess.Rules<P>, transcript: (nat, nat) -> seq<string>,
                           ps: seq<Puzzle<X>>, i: nat): seq<string>
    requires i <= |ps|
    decreases |ps| - i
  {
    if i == |ps| || rules.load(ps[i].fen).None? then []
    else
      Walk(rules, AnswersOf(transcript, i), 0, |ps[i].moves|, rules.load(ps[i].fen).value, ps[i].fen).asked
        + AskedFens(rules, transcript, ps, i + 1)
  }

  /** The number of claimed moves of the puzzles from `i` on. */
  function MovesFrom<X>(ps: seq<Puzzle<X>>, i: nat): nat
    requires i <= |ps|
    decreases |ps| - i
  {
    if i == |ps| then 0 else |ps[i].moves| + MovesFrom(ps, i + 1)
  }

  /** `validatePuzzles`: the run's output, and every command written to the engine:
      the startup pair, then one position and one search command per engine call,
      in the order the puzzles are replayed. */
  method ValidatePuzzles<X, Y, P>(rules: Chess.Rules<P>, transcript: (nat, nat) -> seq<string>,
                                  data: Dataset<X, Y>)
    returns (out: Option<Dataset<X, Y>>, sent: seq<string>)
    ensures out == Validated(rules, transcript, data)
    ensures sent == StartupCommands + CallCommands(AskedFens(rules, transcript, data.puzzles, 0), DefaultMovetime)
  {
    sent := StartupCommands;
    var validated: seq<Puzzle<X>> := [];
    var i := 0;
    while i < |data.puzzles|
      invariant 0 <= i <= |data.puzzles|
      invariant |validated| == i
      invariant forall k :: 0 <= k < i ==>
        rules.load(data.puzzles[k].fen).Some? && validated[k] == CorrectedPuzzle(rules, transcript, k, data.puzzles[k])
      invariant sent + CallCommands(AskedFens(rules, transcript, data.puzzles, i), DefaultMovetime)
             == StartupCommands + CallCommands(AskedFens(rules, transcript, data.puzzles, 0), DefaultMovetime)
    {
      var puzzle := data.puzzles[i];
      var loaded := rules.load(puzzle.fen);
      if loaded.None? {
        OuterStop(rules, transcript, data.puzzles, i, sent);
        out := None;
        return;
      }
      var next, commands := ValidateOne(rules, transcript, data.puzzles, i, sent);
      sent := sent + commands;
      validated := validated + [next];
      i := i + 1;
    }
    OuterStop(rules, transcript, data.puzzles, i, sent);
    ValidatedSome(rules, transcript, data, validated);
    out := Some(data.(puzzles := validated));
  }

  /** One turn of the outer loop on a puzzle whose FEN loads: the corrected puzzle,
      and the commands its replay writes, which take the place of its FEN strings in
      what remains to be written. */
  method ValidateOne<X, P>(rules: Chess.Rules<P>, transcript: (nat, nat) -> seq<string>,
                           ps: seq<Puzzle<X>>, i: nat, ghost sent: seq<string>)
    returns (next: Puzzle<X>, commands: seq<string>)
    requires i < |ps| && rules.load(ps[i].fen).Some?
    ensures next == CorrectedPuzzle(rules, transcript, i, ps[i])
    ensures (sent + commands) + CallCommands(AskedFens(rules, transcript, ps, i + 1), DefaultMovetime)
         == sent + CallCommands(AskedFens(rules, transcript, ps, i), DefaultMovetime)
  {
    var puzzle := ps[i];
    var loaded := rules.load(puzzle.fen);
    AnswersOfFrom(transcript, i);
    var corrected;
    corrected, commands := ReplayPuzzle(rules, transcript, i, AnswersOf(transcript, i), puzzle.moves, loaded.value, puzzle.fen);
    OuterStep(rules, transcript, ps, i, sent, commands);
    next := puzzle.(moves := corrected);
  }

  /** The bookkeeping of one puzzle's commands in the outer loop. */
  lemma OuterStep<X, P>(rules: Chess.Rules<P>, transcript: (nat, nat) -> seq<string>,
                        ps: seq<Puzzle<X>>, i: nat, sent: seq<string>, commands: seq<string>)
    requires i < |ps| && rules.load(ps[i].fen).Some?
    requires commands == CallCommands(Walk(rules, AnswersOf(transcript, i), 0, |ps[i].moves|,
                                           rules.load(ps[i].fen).value, ps[i].fen).asked, DefaultMovetime)
    ensures (sent + commands) + CallCommands(AskedFens(rules, transcript, ps, i + 1), DefaultMovetime)
         == sent + CallCommands(AskedFens(rules, transcript, ps, i), DefaultMovetime)
  {
    var asked := Walk(rules, AnswersOf(transcript, i), 0, |ps[i].moves|, rules.load(ps[i].fen).value, ps[i].fen).asked;
    AskedFensUnfold(rules, transcript, ps, i);
    Regroup(sent, asked, AskedFens(rules, transcript, ps, i + 1));
  }

  /** One puzzle's FEN strings come before those of the puzzles after it. */
  lemma AskedFensUnfold<X, P>(rules: Chess.Rules<P>, transcript: (nat, nat) -> seq<string>,
                              ps: seq<Puzzle<X>>, i: nat)
    requires i < |ps| && rules.load(ps[i].fen).Some?
    ensures AskedFens(rules, transcript, ps, i)
         == Walk(rules, AnswersOf(transcript, i), 0, |ps[i].moves|, rules.load(ps[i].fen).value, ps[i].fen).asked
            + AskedFens(rules, transcript, ps, i + 1)
  {
  }

  /** Commands of consecutive FEN strings concatenate. */
  lemma Regroup(sent: seq<string>, asked: seq<string>, later: seq<string>)
    ensures (sent + CallCommands(asked, DefaultMovetime)) + CallCommands(later, DefaultMovetime)
         == sent + CallCommands(asked + later, DefaultMovetime)
  {
    CallCommandsAppend(asked, later, DefaultMovetime);
  }

  /** The outer loop ends, at the end of the puzzles or at one whose FEN does not
      load, with nothing more to ask. */
  lemma OuterStop<X, P>(rules: Chess.Rules<P>, transcript: (nat, nat) -> seq<string>,
                        ps: seq<Puzzle<X>>, i: nat, sent: seq<string>)
    requires i <= |ps| && (i == |ps| || rules.load(ps[i].fen).None?)
    ensures sent + CallCommands(AskedFens(rules, transcript, ps, i), DefaultMovetime) == sent
  {
    assert sent + [] == sent;
  }

  /** What the run writes to the engine after starting it: position and search
      commands in pairs, one pair per engine call, and no more calls than the
      puzzles claim moves. */
  lemma ValidatedCommands<X, P>(rules: Chess.Rules<P>, transcript: (nat, nat) -> seq<string>,
                                ps: seq<Puzzle<X>>)
    ensures var fens := AskedFens(rules, transcript, ps, 0);
      var cmds := CallCommands(fens, DefaultMovetime);
      |cmds| == 2 * |fens| && |fens| <= MovesFrom(ps, 0)
      && forall k :: 0 <= k < |fens| ==>
           cmds[2 * k] == Uci.PositionCommand(fens[k]) && cmds[2 * k + 1] == Uci.GoCommand(DefaultMovetime)
  {
    CallCommandsAt(AskedFens(rules, transcript, ps, 0), DefaultMovetime);
    AskedFensBound(rules, transcript, ps, 0);
  }

  /** Each puzzle asks the engine at most once per claimed move. */
  lemma {:induction false} AskedFensBound<X, P>(rules: Chess.Rules<P>, transcript: (nat, nat) -> seq<string>,
                                                ps: seq<Puzzle<X>>, i: nat)
    requires i <= |ps|
    ensures |AskedFens(rules, transcript, ps, i)| <= MovesFrom(ps, i)
    decreases |ps| - i
  {
    if i < |ps| {
      AskedFensBound(rules, transcript, ps, i + 1);
      if rules.load(ps[i].fen).Some? {
        WalkLengths(rules, AnswersOf(transcript, i), 0, |ps[i].moves|, rules.load(ps[i].fen).value, ps[i].fen);
      }
    }
  }

  lemma ValidatedSome<X, Y, P>(rules: Chess.Rules<P>, transcript: (nat, nat) -> seq<string>,
                               data: Dataset<X, Y>, validated: seq<Puzzle<X>>)
    requires |validated| == |data.puzzles|
    requires forall k :: 0 <= k < |data.puzzles| ==>
      rules.load(data.puzzles[k].fen).Some? && validated[k] == CorrectedPuzzle(rules, transcript, k, data.puzzles[k])
    ensures Validated(rules, transcript, data) == Some(data.(puzzles := validated))
  {
    assert AllLoad(rules, data.puzzles);
    assert validated == seq(|data.puzzles|, i requires 0 <= i < |data.puzzles| =>
      CorrectedPuzzle(rules, transcript, i, data.puzzles[i]));
  }

  /** The output keeps every puzzle, in order, with only its moves replaced: by at
      most as many engine answers, each one the answer of its step, that the rules
      played in order from the puzzle's position. The other top-level fields are
      copied. */
  lemma ValidatedShape<X, Y, P>(rules: Chess.Rules<P>, transcript: (nat, nat) -> seq<string>,
                                data: Dataset<X, Y>)
    requires Validated(rules, transcript, data).Some?
    ensures Validated(rules, transcript, data).value.rest == data.rest
    ensures |Validated(rules, transcript, data).value.puzzles| == |data.puzzles|
    ensures forall i :: 0 <= i < |data.puzzles| ==>
      var q := Validated(rules, transcript, data).value.puzzles[i];
      q == data.puzzles[i].(moves := q.moves) && |q.moves| <= |data.puzzles[i].moves|
      && Chess.Accepted(rules, rules.load(data.puzzles[i].fen).value, q.moves)
      && forall k :: 0 <= k < |q.moves| ==> Settle("", transcript(i, k)) == Resolved(q.moves[k])
  {
    forall i | 0 <= i < |data.puzzles|
      ensures rules.load(data.puzzles[i].fen).Some?
      ensures var q := CorrectedPuzzle(rules, transcript, i, data.puzzles[i]);
        |q.moves| <= |data.puzzles[i].moves|
        && Chess.Accepted(rules, rules.load(data.puzzles[i].fen).value, q.moves)
        && forall k :: 0 <= k < |q.moves| ==> Settle("", transcript(i, k)) == Resolved(q.moves[k])
    {
      var p := data.puzzles[i];
      var answers := AnswersOf(transcript, i);
      WalkAccepted(rules, answers, 0, |p.moves|, rules.load(p.fen).value, p.fen);
      WalkLengths(rules, answers, 0, |p.moves|, rules.load(p.fen).value, p.fen);
    }
  }

  /** The inner loop for one puzzle: from its loaded position `start`, the kept
      moves and the commands written. */
  method ReplayPuzzle<P>(rules: Chess.Rules<P>, transcript: (nat, nat) -> seq<string>,
                         i: nat, ghost answers: nat -> Answer, moves: seq<string>, start: P, startFen: string)
    returns (corrected: seq<string>, commands: seq<string>)
    requires AnswersFrom(answers, transcript, i)
    ensures corrected == Walk(rules, answers, 0, |moves|, start, startFen).kept
    ensures commands == CallCommands(Walk(rules, answers, 0, |moves|, start, startFen).asked, DefaultMovetime)
  {
    var n := |moves|;
    corrected := [];
    commands := [];
    var pos := start;
    var fen := startFen;
    var j := 0;
    ghost var fens: seq<string> := [];
    ghost var total := Walk(rules, answers, 0, n, start, startFen);
    assert [] + total.kept == total.kept && [] + total.asked == total.asked;
    while j < n
      invariant 0 <= j <= n
      invariant commands == CallCommands(fens, DefaultMovetime)
      invariant total.kept == corrected + Walk(rules, answers, j, n, pos, fen).kept
      invariant total.asked == fens + Walk(rules, answers, j, n, pos, fen).asked
    {
      ghost var w := Walk(rules, answers, j, n, pos, fen);
      var stop, bestMove, next, cmds := ReplayStep(rules, transcript, i, answers, j, n, pos, fen);
      CallCommandsAppend(fens, [fen], DefaultMovetime);
      commands := commands + cmds;
      if stop {
        AdvanceStop(total, corrected, fens, w, fen);
        fens := fens + [fen];
        return;
      }
      ghost var rest := Walk(rules, answers, j + 1, n, next, rules.fen(next));
      AdvancePlay(total, corrected, fens, w, rest, bestMove, fen);
      fens := fens + [fen];
      corrected := corrected + [bestMove];
      pos := next;
      fen := rules.fen(pos);
      j := j + 1;
    }
    assert corrected + [] == corrected && fens + [] == fens;
  }

  /** The bookkeeping of a replay step that ends the replay. */
  lemma AdvanceStop(total: Replay, corrected: seq<string>, fens: seq<string>, w: Replay, fen: string)
    requires w == Replay([], [fen])
    requires total.kept == corrected + w.kept && total.asked == fens + w.asked
    ensures total.kept == corrected && total.asked == fens + [fen]
  {
    assert corrected + [] == corrected;
  }

  /** The bookkeeping of a replay step that keeps a move and goes on. */
  lemma AdvancePlay(total: Replay, corrected: seq<string>, fens: seq<string>, w: Replay, rest: Replay,
                    move: string, fen: string)
    requires w == Replay([move] + rest.kept, [fen] + rest.asked)
    requires total.kept == corrected + w.kept && total.asked == fens + w.asked
    ensures total.kept == (corrected + [move]) + rest.kept
    ensures total.asked == (fens + [fen]) + rest.asked
  {
    assert corrected + ([move] + rest.kept) == (corrected + [move]) + rest.kept;
    assert fens + ([fen] + rest.asked) == (fens + [fen]) + rest.asked;
  }

  /** One pass of the inner loop body: ask the engine, then play its answer. */
  method ReplayStep<P>(rules: Chess.Rules<P>, transcript: (nat, nat) -> seq<string>,
                       i: nat, ghost answers: nat -> Answer, j: nat, n: nat, pos: P, fen: string)
    returns (stop: bool, bestMove: string, next: P, cmds: seq<string>)
    requires j < n
    requires AnswersFrom(answers, transcript, i)
    ensures cmds == CallCommands([fen], DefaultMovetime)
    ensures stop ==> Walk(rules, answers, j, n, pos, fen) == Replay([], [fen])
    ensures !stop ==> var rest := Walk(rules, answers, j + 1, n, next, rules.fen(next));
      Walk(rules, answers, j, n, pos, fen) == Replay([bestMove] + rest.kept, [fen] + rest.asked)
  {
    var answer;
    answer, cmds := GetBestMove(fen, DefaultMovetime, transcript(i, j));
    assert answers(j) == Settle("", transcript(i, j));
    assert answer == answers(j);
    assert [fen][1..] == [];
    next := pos;
    bestMove := "";
    if answer.Rejected? || answer.move == "" {
      WalkStops(rules, answers, j, n, pos, fen);
      return true, bestMove, next, cmds;
    }
    bestMove := answer.move;
    var outcome := rules.move(pos, Chess.UciRequest(bestMove));
    if !outcome.Played? {
      WalkStops(rules, answers, j, n, pos, fen);
      return true, bestMove, next, cmds;
    }
    next := outcome.next;
    WalkPlays(rules, answers, j, n, pos, fen);
    stop := false;
  }
}
