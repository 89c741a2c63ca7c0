/**
 * `src/components/PuzzleSolver.js`: the board component that checks the player's
 * moves against the puzzle's solution, answers with the opponent's moves, and
 * reports the puzzle solved when the solution has been played out.
 */
module PuzzleSolver {
  import opened Wrappers
  import opened Chess
  import JsNumber

  /** `uciToMoveObj(uci)`: null for a missing string, the empty string or one shorter
      than four characters; otherwise the two squares, and the fifth character as
      the promotion piece when there is one. */
  function UciToMoveObj(uci: Option<string>): (r: Option<MoveRequest>)
    ensures r.None? <==> uci.None? || |uci.value| < 4
    ensures r.Some? ==> r.value.from == uci.value[..2] && r.value.to == uci.value[2..4]
    ensures r.Some? ==> (r.value.promotion.Some? <==> |uci.value| > 4)
    ensures r.Some? && |uci.value| > 4 ==> r.value.promotion == Some([uci.value[4]])
  {
    match uci
    case None => None
    case Some(s) =>
      if s == [] || |s| < 4 then None
      else
        var promotion := if |s| > 4 then Some([s[4]]) else None;
        Some(MoveRequest(s[..2], s[2..4], promotion))
  }

  /** The UCI string `makeMove` builds from a move: from, to, then the promotion. */
  function RequestUci(m: MoveRequest): string {
    m.from + m.to + m.promotion.GetOr("")
  }

  /** A four- or five-character UCI string comes back from its move object, and the
      object is the one the scripts build for the same string. */
  lemma UciRoundTrip(s: string)
    requires |s| == 4 || |s| == 5
    ensures UciToMoveObj(Some(s)).Some?
    ensures RequestUci(UciToMoveObj(Some(s)).value) == s
    ensures UciToMoveObj(Some(s)) == Some(UciRequest(s))
  {
    if |s| == 5 {
      assert s == s[..2] + s[2..4] + [s[4]];
    } else {
      assert s == s[..2] + s[2..4];
    }
  }

  /** `n.toString().padStart(2, '0')` for a number below 100. */
  function Pad2(n: nat): (r: string)
    requires n < 100
    ensures |r| == 2 && JsNumber.IsDigit(r[0]) && JsNumber.IsDigit(r[1])
  {
    if n < 10 then "0" + JsNumber.NatToString(n)
    else
      assert |JsNumber.NatToString(n / 10)| == 1;
      JsNumber.NatToString(n)
  }

  /** `formatTime(seconds)`: whole minutes, a colon, and the seconds in two digits. */
  function FormatTime(seconds: nat): (r: string)
    ensures |r| >= 4 && r[|r| - 3] == ':'
  {
    JsNumber.NatToString(seconds / 60) + ":" + Pad2(seconds % 60)
  }

  lemma Pad2Value(n: nat)
    requires n < 100
    ensures JsNumber.RunValue(Pad2(n), 10) == n
  {
    JsNumber.NatToStringValue(n);
    if n < 10 {
      var d := JsNumber.NatToString(n);
      var p := Pad2(n);
      assert p[..1] == "0";
      assert JsNumber.RunValue(p[..1], 10) == 0 by {
        assert p[..1][..0] == [];
      }
      assert p[1..] == d;
      assert JsNumber.RunValue(d, 10) == JsNumber.HexDigitValue(d[0]) by {
        assert d[..0] == [];
      }
    }
  }

  /** The display reads back as the time: the minutes before the colon and the two
      digits after it make up the seconds. */
  lemma FormatTimeValue(seconds: nat)
    ensures var r := FormatTime(seconds);
      JsNumber.RunValue(r[..|r| - 3], 10) * 60 + JsNumber.RunValue(r[|r| - 2..], 10) == seconds
      && JsNumber.RunValue(r[|r| - 2..], 10) < 60
  {
    var r := FormatTime(seconds);
    var m := JsNumber.NatToString(seconds / 60);
    assert r[..|r| - 3] == m;
    assert r[|r| - 2..] == Pad2(seconds % 60);
    JsNumber.NatToStringValue(seconds / 60);
    Pad2Value(seconds % 60);
  }

  /** `pendingOpponentMove`: the position to answer from, the index of the
      opponent's move in the solution, and the SAN history so far. */
  datatype Pending<P> = Pending(position: P, moveIndex: nat, sanHistory: seq<string>)

  /** The component's move state for one puzzle. `position` is the game the board
      shows (its FEN read back as itself); the timers between a correct move and the
      opponent's answer are left to the caller, who calls `OpponentMove` for the
      pending answer. */
  class Solver<P> {
    const rules: Rules<P>
    const start: P
    const solution: seq<string>
    var position: P
    var moveHistory: seq<string>
    var userMoveIndex: nat
    var waitingForOpponent: bool
    var pending: Option<Pending<P>>
    var isActive: bool

    /** The index never passes the end of the solution, and a pending answer is for a
        move of the solution while the player waits. */
    ghost predicate Valid()
      reads this
    {
      userMoveIndex <= |solution|
      && (pending.Some? ==> waitingForOpponent && pending.value.moveIndex < |solution|)
    }

    /** The puzzle effect for a puzzle whose FEN loaded as `start`, on the first
        mount. When the puzzle changes later, the page's effect does not clear the
        waiting flag or the pending opponent move, and this model does not cover
        that case. */
    constructor(rules: Rules<P>, start: P, solution: seq<string>)
      ensures Valid()
      ensures this.rules == rules && this.start == start && this.solution == solution
      ensures position == start && moveHistory == [] && userMoveIndex == 0
      ensures !waitingForOpponent && pending == None && isActive
    {
      this.rules := rules;
      this.start := start;
      this.solution := solution;
      position := start;
      moveHistory := [];
      userMoveIndex := 0;
      waitingForOpponent := false;
      pending := None;
      isActive := true;
    }

    /** `makeMove(move)`. It returns what the board is told (`accepted`) and whether
        the puzzle was reported solved. A refused or raising move returns false; a
        legal move that is not the expected one returns true and changes nothing; the
        expected move advances the index by one and either waits for the opponent or,
        at the end of the solution, reports the puzzle solved. */
    method MakeMove(move: MoveRequest) returns (accepted: bool, solved: bool)
      requires Valid()
      modifies this
      ensures Valid()
      ensures old(waitingForOpponent) ==> !accepted && !solved && unchanged(this)
      ensures !old(waitingForOpponent) && !rules.move(old(position), move).Played? ==>
        !accepted && !solved && unchanged(this)
      ensures !old(waitingForOpponent) && rules.move(old(position), move).Played? ==> accepted
      ensures (!old(waitingForOpponent) && rules.move(old(position), move).Played?
               && !Expected(old(userMoveIndex), UciOf(rules.move(old(position), move).result))) ==>
        !solved && unchanged(this)
      ensures (!old(waitingForOpponent) && rules.move(old(position), move).Played?
               && Expected(old(userMoveIndex), UciOf(rules.move(old(position), move).result))) ==>
        userMoveIndex == old(userMoveIndex) + 1
        && position == rules.move(old(position), move).next
        && moveHistory == old(moveHistory) + [rules.move(old(position), move).result.san]
        && (solved <==> userMoveIndex == |solution|)
        && (waitingForOpponent <==> userMoveIndex < |solution|)
        && (userMoveIndex < |solution| ==> pending == Some(Pending(position, userMoveIndex, moveHistory)))
        && (userMoveIndex == |solution| ==> pending == old(pending) && !isActive)
        && (userMoveIndex < |solution| ==> isActive == old(isActive))
    {
      accepted, solved := false, false;
      if waitingForOpponent {
        return;
      }
      var outcome := rules.move(position, move);
      match outcome {
        case Raised =>
          return;
        case Refused =>
          return;
        case Played(next, result) =>
          accepted := true;
          var userMoveUci := UciOf(result);
          if userMoveIndex < |solution| && userMoveUci == solution[userMoveIndex] {
            var nextMoveIndex := userMoveIndex + 1;
            var sanHistory := moveHistory + [result.san];
            position := next;
            moveHistory := sanHistory;
            userMoveIndex := nextMoveIndex;
            if nextMoveIndex < |solution| {
              waitingForOpponent := true;
              pending := Some(Pending(next, nextMoveIndex, sanHistory));
              return;
            }
            isActive := false;
            solved := true;
          }
      }
    }

    /** `puzzle.solution[index] === uci`, false past the end. */
    predicate Expected(index: nat, uci: string)
      reads this
    {
      index < |solution| && solution[index] == uci
    }

    /** The pending-opponent effect, after its pause. The opponent's move is played
        from the pending position if it is legal; either way the index is that of the
        pending answer (plus one when played), the wait ends, and the puzzle is
        reported solved exactly when the index reaches the end of the solution. A
        move object of null makes chess.js throw inside the timer: then nothing more
        happens and the player stays waiting. The page then skips clearing the pending
        move, which this model clears; while the player waits, nothing reads it. */
    method OpponentMove() returns (solved: bool)
      requires Valid()
      modifies this
      ensures Valid()
      ensures old(pending).None? ==> !solved && unchanged(this)
      ensures old(pending).Some? ==> pending == None
      ensures old(pending).Some? && OpponentOutcome(old(pending).value).Raised? ==>
        !solved && waitingForOpponent && position == old(position) && userMoveIndex == old(userMoveIndex)
        && moveHistory == old(moveHistory) && isActive == old(isActive)
      ensures old(pending).Some? && OpponentOutcome(old(pending).value).Played? ==>
        var o := OpponentOutcome(old(pending).value);
        userMoveIndex == old(pending).value.moveIndex + 1 && position == o.next
        && moveHistory == old(pending).value.sanHistory + [o.result.san] && !waitingForOpponent
      ensures old(pending).Some? && OpponentOutcome(old(pending).value).Refused? ==>
        userMoveIndex == old(pending).value.moveIndex && position == old(pending).value.position
        && moveHistory == old(pending).value.sanHistory && !waitingForOpponent
      ensures old(pending).Some? && !OpponentOutcome(old(pending).value).Raised? ==>
        (solved <==> userMoveIndex == |solution|) && (solved ==> !isActive) && (!solved ==> isActive == old(isActive))
    {
      solved := false;
      if pending.None? {
        return;
      }
      var p := pending.value;
      var outcome := OpponentOutcome(p);
      if outcome.Raised? {
        pending := None;
        return;
      }
      var newSanHistory := p.sanHistory;
      var lastPosition := p.position;
      var nextMoveIndex := p.moveIndex;
      if outcome.Played? {
        newSanHistory := p.sanHistory + [outcome.result.san];
        lastPosition := outcome.next;
        nextMoveIndex := nextMoveIndex + 1;
      }
      position := lastPosition;
      moveHistory := newSanHistory;
      userMoveIndex := nextMoveIndex;
      waitingForOpponent := false;
      pending := None;
      if nextMoveIndex == |solution| {
        isActive := false;
        solved := true;
      }
    }

    /** What `gameCopy.move(opponentMoveObj)` does for a pending answer. */
    function OpponentOutcome(p: Pending<P>): Outcome<P>
      reads this
      requires p.moveIndex < |solution|
    {
      match UciToMoveObj(Some(solution[p.moveIndex]))
      case None => Raised
      case Some(obj) => rules.move(p.position, obj)
    }

    /** `resetPuzzle()`: back to the puzzle's position with an empty history and the
        index at 0, the timer running. The wait for the opponent and a pending answer
        are left as they are. */
    method ResetPuzzle()
      requires Valid()
      modifies this
      ensures Valid()
      ensures position == start && moveHistory == [] && userMoveIndex == 0 && isActive
      ensures waitingForOpponent == old(waitingForOpponent) && pending == old(pending)
    {
      position := start;
      moveHistory := [];
      userMoveIndex := 0;
      isActive := true;
    }
  }
}
