/**
 * The older `/komodo/move` route: the same request check, engine start and
 * commands as the current one, but only a stdout listener. Stderr output and the
 * engine's exit reach no handler, and there is no deadline, so a request whose
 * engine never prints a match is never answered.
 */
module KomodoRouteLegacy {
  import opened Wrappers
  import Uci
  import opened KomodoRoute

  /** One event: stdout reaches the listener; anything else is not listened to. */
  function LegacyStep(s: Session, e: Event): Session {
    if e.Stdout? then Step(s, e) else s
  }

  function LegacyRun(s: Session, events: seq<Event>): Session
    decreases |events|
  {
    if events == [] then s else LegacyRun(LegacyStep(s, events[0]), events[1..])
  }

  /** The route of the older server: the same 400 reply for a missing FEN, otherwise
      an engine at strength `elo || 1500`. */
  function LegacyRoute(fen: Option<string>, elo: Option<int>, events: seq<Event>): (r: RouteResult)
    ensures r.engineElo.None? <==> FenMissing(fen)
    ensures FenMissing(fen) ==> r.replies == [Reply(400, Error(FenRequired))] && r.commands == [] && r.kills == 0
    ensures !FenMissing(fen) ==> r.engineElo == Some(EngineElo(elo))
  {
    if FenMissing(fen) then RouteResult([Reply(400, Error(FenRequired))], None, [], 0)
    else
      var s := LegacyRun(Start, events);
      RouteResult(s.replies, Some(EngineElo(elo)),
                  [Uci.PositionCommand(fen.value), Uci.GoCommand(RouteMovetime)], s.kills)
  }

  /** The handler, with the same closure state as the current route but only its
      stdout listener attached. */
  method HandleMoveLegacy(fen: Option<string>, elo: Option<int>, events: seq<Event>)
    returns (result: RouteResult)
    ensures result == LegacyRoute(fen, elo, events)
  {
    if fen.None? || fen.value == "" {
      return RouteResult([Reply(400, Error(FenRequired))], None, [], 0);
    }
    var engineElo := EngineElo(elo);
    var handler := new MoveHandler();
    var commands := [Uci.PositionCommand(fen.value), Uci.GoCommand(RouteMovetime)];
    var k := 0;
    while k < |events|
      invariant 0 <= k <= |events|
      invariant LegacyRun(handler.Snapshot(), events[k..]) == LegacyRun(Start, events)
    {
      assert events[k..][1..] == events[k + 1..];
      if events[k].Stdout? {
        handler.OnStdout(events[k].data);
      }
      k := k + 1;
    }
    result := RouteResult(handler.replies, Some(engineElo), commands, handler.kills);
  }

  /** The stdout events only, in order. */
  function Stdouts(events: seq<Event>): (r: seq<Event>)
    ensures AllStdout(r)
    ensures StdoutText(r) == StdoutText(events)
    decreases |events|
  {
    if events == [] then []
    else if events[0].Stdout? then
      var rest := Stdouts(events[1..]);
      assert ([events[0]] + rest)[1..] == rest;
      [events[0]] + rest
    else Stdouts(events[1..])
  }

  lemma {:induction false} StdoutsAppend(a: seq<Event>, b: seq<Event>)
    ensures Stdouts(a + b) == Stdouts(a) + Stdouts(b)
    decreases |a|
  {
    if a == [] {
      assert a + b == b;
    } else {
      assert (a + b)[0] == a[0];
      assert (a + b)[1..] == a[1..] + b;
      StdoutsAppend(a[1..], b);
    }
  }

  /** The old route behaves as the current one would if the engine wrote nothing
      but its stdout. */
  lemma {:induction false} LegacyIsStdoutOnly(s: Session, events: seq<Event>)
    ensures LegacyRun(s, events) == Run(s, Stdouts(events))
    decreases |events|
  {
    if events != [] {
      LegacyIsStdoutOnly(LegacyStep(s, events[0]), events[1..]);
      if events[0].Stdout? {
        assert ([events[0]] + Stdouts(events[1..]))[1..] == Stdouts(events[1..]);
      }
    }
  }

  /** At most one reply, each followed by a kill. With a FEN, a reply is sent
      exactly when the stdout text holds a match, and it is a 200 with the move;
      when it never does, the request is never answered. */
  lemma LegacyReplies(fen: Option<string>, elo: Option<int>, events: seq<Event>)
    ensures |LegacyRoute(fen, elo, events).replies| <= 1
    ensures !FenMissing(fen) ==>
      LegacyRoute(fen, elo, events).kills == |LegacyRoute(fen, elo, events).replies|
      && LegacyRoute(fen, elo, events).commands
         == [Uci.PositionCommand(fen.value), Uci.GoCommand(RouteMovetime)]
      && (LegacyRoute(fen, elo, events).replies == [] <==> Uci.Scan(StdoutText(events)).None?)
      && (LegacyRoute(fen, elo, events).replies != [] ==>
            LegacyRoute(fen, elo, events).replies[0].status == 200)
  {
    if !FenMissing(fen) {
      LegacyIsStdoutOnly(Start, events);
      RunMatchesFirstOutcome(Start, Stdouts(events));
      StdoutOnly("", Stdouts(events));
      assert "" + StdoutText(events) == StdoutText(events);
    }
  }

  /** The reply carries the capture of the first stdout buffer holding a match;
      stderr and exit events before it change nothing. */
  lemma LegacyAnswers(fen: string, elo: Option<int>, pre: seq<Event>, d: string, post: seq<Event>)
    requires fen != ""
    requires Uci.Scan(StdoutText(pre)).None? && Uci.Scan(StdoutText(pre) + d).Some?
    ensures LegacyRoute(Some(fen), elo, pre + [Stdout(d)] + post).replies
         == [Reply(200, Move(Uci.Scan(StdoutText(pre) + d).value))]
    ensures LegacyRoute(Some(fen), elo, pre + [Stdout(d)] + post).kills == 1
  {
    var events := pre + [Stdout(d)] + post;
    StdoutsAppend(pre + [Stdout(d)], post);
    StdoutsAppend(pre, [Stdout(d)]);
    assert Stdouts([Stdout(d)]) == [Stdout(d)];
    LegacyIsStdoutOnly(Start, events);
    StdoutAnswers(fen, elo, Stdouts(pre), d, Stdouts(post));
  }
}
