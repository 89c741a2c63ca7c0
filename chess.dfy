/**
 * The chess rules library (chess.js) as an oracle. Positions are an opaque type
 * parameter `P`; FEN loading, move legality, SAN and side to move are functions the
 * model is given, not functions it defines.
 */
module Chess {
  import opened Wrappers

  /** The argument of `chess.move({ from, to, promotion })`. */
  datatype MoveRequest = MoveRequest(from: string, to: string, promotion: Option<string>)

  /** The object chess.js returns for a played move. */
  datatype MoveResult = MoveResult(from: string, to: string, promotion: Option<string>, san: string)

  /** What `chess.move(...)` does: plays the move, returns null, or throws. */
  datatype Outcome<P> = Played(next: P, result: MoveResult) | Refused | Raised

  /** The rules oracle.
      `initial` is the position `new Chess()` starts from when given no FEN;
      `load(fen)` is `new Chess(fen)`, with None when the constructor throws;
      `move` is `chess.move`; `fen` is `chess.fen()`; `whiteToMove` is
      `chess.turn() === 'w'`. */
  datatype Rules<!P> = Rules(
    initial: P,
    load: string -> Option<P>,
    move: (P, MoveRequest) -> Outcome<P>,
    fen: P -> string,
    whiteToMove: P -> bool)

  /** `new Chess(fen)` where the FEN may be absent (`undefined`). */
  function Load<P>(rules: Rules<P>, fen: Option<string>): (r: Option<P>)
    ensures fen == None ==> r == Some(rules.initial)
    ensures fen.Some? ==> r == rules.load(fen.value)
  {
    match fen
    case None => Some(rules.initial)
    case Some(f) => rules.load(f)
  }

  /** The move object the scripts build from a UCI string: `from` is its first two
      characters, `to` the next two, and `promotion` the fifth character when the
      string is longer than four; on a shorter string the pieces are cut short. */
  function UciRequest(s: string): (r: MoveRequest)
    ensures |s| >= 4 ==> r.from == s[..2] && r.to == s[2..4]
    ensures r.promotion.Some? <==> |s| > 4
    ensures |s| > 4 ==> r.promotion == Some([s[4]])
  {
    var a := if |s| < 2 then |s| else 2;
    var b := if |s| < 4 then |s| else 4;
    MoveRequest(s[..a], s[a..b], if |s| > 4 then Some([s[4]]) else None)
  }

  /** The UCI string of a played move: origin, target, then the promotion piece
      if there is one. */
  function UciOf(m: MoveResult): string {
    m.from + m.to + m.promotion.GetOr("")
  }

  /** The UCI moves `ms` are played by the rules one after another from `pos`. */
  predicate Accepted<P>(rules: Rules<P>, pos: P, ms: seq<string>)
    decreases |ms|
  {
    ms == [] || (rules.move(pos, UciRequest(ms[0])).Played?
                 && Accepted(rules, rules.move(pos, UciRequest(ms[0])).next, ms[1..]))
  }

  /** The position after playing accepted moves. */
  function After<P>(rules: Rules<P>, pos: P, ms: seq<string>): P
    requires Accepted(rules, pos, ms)
    decreases |ms|
  {
    if ms == [] then pos else After(rules, rules.move(pos, UciRequest(ms[0])).next, ms[1..])
  }

  /** The SAN of each accepted move, in order. */
  function Sans<P>(rules: Rules<P>, pos: P, ms: seq<string>): (r: seq<string>)
    requires Accepted(rules, pos, ms)
    ensures |r| == |ms|
    decreases |ms|
  {
    if ms == [] then []
    else
      var o := rules.move(pos, UciRequest(ms[0]));
      [o.result.san] + Sans(rules, o.next, ms[1..])
  }

  /** Playing moves until the first one the rules refuse or raise on: the SAN of
      the moves played. */
  function PlayWhileLegal<P>(rules: Rules<P>, pos: P, ms: seq<string>): (r: seq<string>)
    ensures |r| <= |ms|
    decreases |ms|
  {
    if ms == [] then []
    else
      match rules.move(pos, UciRequest(ms[0]))
      case Played(next, m) => [m.san] + PlayWhileLegal(rules, next, ms[1..])
      case _ => []
  }

  /** What `PlayWhileLegal` plays is the longest accepted prefix: its moves are
      accepted and give the same SAN, and the next move, if any, is not played. */
  lemma {:induction false} PlayWhileLegalPrefix<P>(rules: Rules<P>, pos: P, ms: seq<string>)
    ensures var k := |PlayWhileLegal(rules, pos, ms)|;
      Accepted(rules, pos, ms[..k])
      && PlayWhileLegal(rules, pos, ms) == Sans(rules, pos, ms[..k])
      && (k < |ms| ==> !rules.move(After(rules, pos, ms[..k]), UciRequest(ms[k])).Played?)
    decreases |ms|
  {
    if ms != [] {
      match rules.move(pos, UciRequest(ms[0]))
      case Played(next, m) =>
        PlayWhileLegalPrefix(rules, next, ms[1..]);
        var k := |PlayWhileLegal(rules, next, ms[1..])|;
        assert ms[..k + 1][0] == ms[0];
        assert ms[..k + 1][1..] == ms[1..][..k];
        if k + 1 < |ms| {
          assert ms[k + 1] == ms[1..][k];
        }
      case Refused =>
      case Raised =>
    }
  }
}
