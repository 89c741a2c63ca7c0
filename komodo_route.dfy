/**
 * The `/komodo/move` route of the web server: it asks the engine for a move from
 * the posted FEN and answers the HTTP request once, with the engine's `bestmove`,
 * with an error from the engine's stderr, or with an error when the engine exits.
 *
 * The engine is given as the sequence of events it produces after the two
 * commands are written: stdout chunks, stderr chunks and its exit.
 */
module KomodoRoute {
  import opened Wrappers
  import opened JsString
  import Uci

  /** The strength used when the request carries no usable `elo`. */
  const DefaultElo: int := 1500
  /** The fixed search time of the route, in milliseconds. */
  const RouteMovetime: int := 2000

  const FenRequired: string := "FEN required"
  const ErrorPrefix: string := "Komodo error: "
  const ExitMessage: string := "Komodo process exited unexpectedly"

  /** What the engine process does: a stdout chunk, a stderr chunk, or its exit. */
  datatype Event = Stdout(data: string) | Stderr(data: string) | Exit(code: int)

  /** The JSON body of a reply: `{ move }` or `{ error }`. */
  datatype Body = Move(move: string) | Error(message: string)

  /** An HTTP reply: its status and its body. */
  datatype Reply = Reply(status: int, body: Body)

  /** `!fen`: the request has no FEN or an empty one. */
  predicate FenMissing(fen: Option<string>) {
    fen.None? || fen.value == ""
  }

  /** `elo || 1500`: an absent or zero `elo` gives the default strength. */
  function EngineElo(elo: Option<int>): (r: int)
    ensures elo.Some? && elo.value != 0 ==> r == elo.value
    ensures elo.None? || elo.value == 0 ==> r == DefaultElo
  {
    if elo.Some? && elo.value != 0 then elo.value else DefaultElo
  }

  /** The handler's closure state: the stdout received so far, the `responded`
      flag, the replies sent and the number of times the engine was killed. */
  datatype Session = Session(output: string, responded: bool, replies: seq<Reply>, kills: nat)

  const Start: Session := Session("", false, [], 0)

  /** One event reaching its listener. */
  function Step(s: Session, e: Event): (r: Session)
    ensures s.responded ==> r.responded && r.replies == s.replies && r.kills == s.kills
    ensures !s.responded ==> |r.replies| <= |s.replies| + 1 && (r.responded <==> |r.replies| == |s.replies| + 1)
    ensures s.replies <= r.replies
  {
    match e
    case Stdout(d) =>
      var out := s.output + d;
      if Contains(out, Uci.Keyword) && !s.responded && Uci.Scan(out).Some? then
        Session(out, true, s.replies + [Reply(200, Move(Uci.Scan(out).value))], s.kills + 1)
      else s.(output := out)
    case Stderr(d) =>
      if !s.responded then Session(s.output, true, s.replies + [Reply(500, Error(ErrorPrefix + d))], s.kills + 1)
      else s
    case Exit(_) =>
      if !s.responded then s.(responded := true, replies := s.replies + [Reply(500, Error(ExitMessage))])
      else s
  }

  /** The events, one after another. */
  function Run(s: Session, events: seq<Event>): Session
    decreases |events|
  {
    if events == [] then s else Run(Step(s, events[0]), events[1..])
  }

  /** The reply a request gets, and whether the engine is killed after it. */
  datatype Outcome = Outcome(reply: Reply, kill: bool)

  /** A reference description of the route's answer, independent of the flag: the
      first event that decides it, given the stdout `output` already received. A
      stdout chunk decides once the buffer holds a match; stderr and exit always
      decide. */
  function FirstOutcome(output: string, events: seq<Event>): (r: Option<Outcome>)
    ensures r.None? ==> forall k :: 0 <= k < |events| ==> events[k].Stdout?
    ensures r.Some? && !r.value.kill ==> r.value.reply == Reply(500, Error(ExitMessage))
    decreases |events|
  {
    if events == [] then None
    else
      match events[0]
      case Stdout(d) =>
        (match Uci.Scan(output + d)
         case Some(m) => Some(Outcome(Reply(200, Move(m)), true))
         case None => FirstOutcome(output + d, events[1..]))
      case Stderr(d) => Some(Outcome(Reply(500, Error(ErrorPrefix + d)), true))
      case Exit(_) => Some(Outcome(Reply(500, Error(ExitMessage)), false))
  }

  /** The closure state of one request, updated by the three listeners. */
  class MoveHandler {
    var output: string
    var responded: bool
    var replies: seq<Reply>
    var kills: nat

    function Snapshot(): Session
      reads this
    {
      Session(output, responded, replies, kills)
    }

    constructor ()
      ensures Snapshot() == Start
    {
      output := "";
      responded := false;
      replies := [];
      kills := 0;
    }

    /** The stdout listener: append the chunk, then reply and kill the engine if
        the buffer holds a match and nothing was sent yet. */
    method OnStdout(data: string)
      modifies this
      ensures Snapshot() == Step(old(Snapshot()), Stdout(data))
    {
      output := output + data;
      if Contains(output, Uci.Keyword) && !responded {
        var m := Uci.Scan(output);
        if m.Some? {
          responded := true;
          replies := replies + [Reply(200, Move(m.value))];
          kills := kills + 1;
        }
      }
    }

    /** The stderr listener: a 500 with the text, then a kill, if nothing was sent. */
    method OnStderr(data: string)
      modifies this
      ensures Snapshot() == Step(old(Snapshot()), Stderr(data))
    {
      if !responded {
        responded := true;
        replies := replies + [Reply(500, Error(ErrorPrefix + data))];
        kills := kills + 1;
      }
    }

    /** The exit listener: a 500 if nothing was sent; the engine is already gone. */
    method OnExit(code: int)
      modifies this
      ensures Snapshot() == Step(old(Snapshot()), Exit(code))
    {
      if !responded {
        responded := true;
        replies := replies + [Reply(500, Error(ExitMessage))];
      }
    }
  }

  /** Everything a request leads to: the replies, the strength the engine was
      started with (None when no engine was requested), the commands written to it,
      and the number of kills. */
  datatype RouteResult = RouteResult(replies: seq<Reply>, engineElo: Option<int>,
                                     commands: seq<string>, kills: nat)

  /** What `POST /api/komodo/move` leads to: the 400 reply and nothing else for a
      missing FEN, otherwise an engine at strength `elo || 1500`. */
  function Route(fen: Option<string>, elo: Option<int>, events: seq<Event>): (r: RouteResult)
    ensures r.engineElo.None? <==> FenMissing(fen)
    ensures FenMissing(fen) ==> r.replies == [Reply(400, Error(FenRequired))] && r.commands == [] && r.kills == 0
    ensures !FenMissing(fen) ==> r.engineElo == Some(EngineElo(elo))
  {
    if FenMissing(fen) then RouteResult([Reply(400, Error(FenRequired))], None, [], 0)
    else
      var s := Run(Start, events);
      RouteResult(s.replies, Some(EngineElo(elo)),
                  [Uci.PositionCommand(fen.value), Uci.GoCommand(RouteMovetime)], s.kills)
  }

  /** The handler: validate the body, start the engine, write the two commands, then
      let the events reach the listeners. */
  method HandleMove(fen: Option<string>, elo: Option<int>, events: seq<Event>)
    returns (result: RouteResult)
    ensures result == Route(fen, elo, events)
  {
    if fen.None? || fen.value == "" {
      return RouteResult([Reply(400, Error(FenRequired))], None, [], 0);
    }
    var engineElo := EngineElo(elo);
    var handler := new MoveHandler();
    var commands := [Uci.PositionCommand(fen.value), Uci.GoCommand(RouteMovetime)];
    var k := 0;
    while k < |events|
      invariant 0 <= k <= |events|
      invariant Run(handler.Snapshot(), events[k..]) == Run(Start, events)
    {
      assert events[k..][1..] == events[k + 1..];
      match events[k] {
        case Stdout(d) => handler.OnStdout(d);
        case Stderr(d) => handler.OnStderr(d);
        case Exit(c) => handler.OnExit(c);
      }
      k := k + 1;
    }
    result := RouteResult(handler.replies, Some(engineElo), commands, handler.kills);
  }

  /** Once a reply is sent, every listener is a no-op apart from buffering stdout. */
  lemma {:induction false} RunAfterResponded(s: Session, events: seq<Event>)
    requires s.responded
    ensures Run(s, events).responded
    ensures Run(s, events).replies == s.replies && Run(s, events).kills == s.kills
    decreases |events|
  {
    if events != [] {
      RunAfterResponded(Step(s, events[0]), events[1..]);
    }
  }

  /** The flag-guarded listeners send exactly the reply the reference description
      gives, and kill the engine after a stdout or stderr reply only. */
  lemma {:induction false} RunMatchesFirstOutcome(s: Session, events: seq<Event>)
    requires !s.responded && Uci.Scan(s.output).None?
    ensures var r := Run(s, events);
      var o := FirstOutcome(s.output, events);
      r.responded == o.Some?
      && r.replies == s.replies + (if o.Some? then [o.value.reply] else [])
      && r.kills == s.kills + (if o.Some? && o.value.kill then 1 else 0)
    decreases |events|
  {
    if events == [] {
      assert s.replies + [] == s.replies;
    } else {
      var next := Step(s, events[0]);
      match events[0]
      case Stdout(d) =>
        var out := s.output + d;
        if Uci.Scan(out).Some? {
          Uci.ScanImpliesKeyword(out);
          RunAfterResponded(next, events[1..]);
        } else {
          RunMatchesFirstOutcome(next, events[1..]);
        }
      case Stderr(d) =>
        RunAfterResponded(next, events[1..]);
      case Exit(_) =>
        RunAfterResponded(next, events[1..]);
    }
  }

  /** A request gets exactly one reply. Without a FEN it is a 400 and no engine is
      started or written to; otherwise the engine is started with `elo || 1500`,
      sent `position fen` then `go movetime 2000`, and the reply is the first
      deciding event's, followed by a kill unless the engine exited. No reply at all
      is sent only when no event decides. */
  lemma RouteReplies(fen: Option<string>, elo: Option<int>, events: seq<Event>)
    ensures |Route(fen, elo, events).replies| <= 1
    ensures Route(fen, elo, events).kills <= |Route(fen, elo, events).replies|
    ensures Route(fen, elo, events).engineElo.None? <==> FenMissing(fen)
    ensures FenMissing(fen) ==>
      Route(fen, elo, events).replies == [Reply(400, Error(FenRequired))]
      && Route(fen, elo, events).commands == []
    ensures !FenMissing(fen) ==>
      var o := FirstOutcome("", events);
      Route(fen, elo, events).engineElo == Some(EngineElo(elo))
      && Route(fen, elo, events).commands
         == [Uci.PositionCommand(fen.value), Uci.GoCommand(RouteMovetime)]
      && Route(fen, elo, events).replies == (if o.Some? then [o.value.reply] else [])
      && Route(fen, elo, events).kills == (if o.Some? && o.value.kill then 1 else 0)
  {
    if !FenMissing(fen) {
      RunMatchesFirstOutcome(Start, events);
      assert [] + [FirstOutcome("", events).GetOr(Outcome(Reply(0, Move("")), false)).reply]
          == [FirstOutcome("", events).GetOr(Outcome(Reply(0, Move("")), false)).reply];
    }
  }

  /** The stdout text of the events, in order. */
  function StdoutText(events: seq<Event>): string
    decreases |events|
  {
    if events == [] then ""
    else (if events[0].Stdout? then events[0].data else "") + StdoutText(events[1..])
  }

  predicate AllStdout(events: seq<Event>) {
    forall k :: 0 <= k < |events| ==> events[k].Stdout?
  }

  /** Stdout that leaves the buffer without a match decides nothing: the buffer
      simply grows, and the next chunk re-scans all of it. */
  lemma {:induction false} SilentPrefix(output: string, pre: seq<Event>, post: seq<Event>)
    requires AllStdout(pre)
    requires Uci.Scan(output + StdoutText(pre)).None?
    ensures FirstOutcome(output, pre + post) == FirstOutcome(output + StdoutText(pre), post)
    decreases |pre|
  {
    if pre == [] {
      assert pre + post == post;
      assert output + StdoutText(pre) == output;
    } else {
      var out := output + pre[0].data;
      assert output + StdoutText(pre) == out + StdoutText(pre[1..]);
      if Uci.Scan(out).Some? {
        Uci.ScanStable(out, StdoutText(pre[1..]));
        assert false;
      }
      assert (pre + post)[0] == pre[0];
      assert (pre + post)[1..] == pre[1..] + post;
      SilentPrefix(out, pre[1..], post);
    }
  }

  /** When the engine only writes stdout, a reply is sent exactly when the whole
      text holds a match, and it is then the move, followed by a kill. */
  lemma {:induction false} StdoutOnly(output: string, events: seq<Event>)
    requires AllStdout(events) && Uci.Scan(output).None?
    ensures FirstOutcome(output, events).None? <==> Uci.Scan(output + StdoutText(events)).None?
    ensures FirstOutcome(output, events).Some? ==>
      FirstOutcome(output, events).value.reply.status == 200 && FirstOutcome(output, events).value.kill
    decreases |events|
  {
    if events == [] {
      assert output + StdoutText(events) == output;
    } else {
      var out := output + events[0].data;
      assert output + StdoutText(events) == out + StdoutText(events[1..]);
      if Uci.Scan(out).Some? {
        Uci.ScanStable(out, StdoutText(events[1..]));
      } else {
        StdoutOnly(out, events[1..]);
      }
    }
  }

  /** The first chunk after which the stdout buffer holds a match gives the 200
      reply with the capture, and the engine is killed. */
  lemma StdoutAnswers(fen: string, elo: Option<int>, pre: seq<Event>, d: string, post: seq<Event>)
    requires fen != "" && AllStdout(pre)
    requires Uci.Scan(StdoutText(pre)).None? && Uci.Scan(StdoutText(pre) + d).Some?
    ensures Route(Some(fen), elo, pre + [Stdout(d)] + post).replies
         == [Reply(200, Move(Uci.Scan(StdoutText(pre) + d).value))]
    ensures Route(Some(fen), elo, pre + [Stdout(d)] + post).kills == 1
  {
    assert pre + [Stdout(d)] + post == pre + ([Stdout(d)] + post);
    assert "" + StdoutText(pre) == StdoutText(pre);
    SilentPrefix("", pre, [Stdout(d)] + post);
    RouteReplies(Some(fen), elo, pre + [Stdout(d)] + post);
  }

  /** Stderr text before any match gives a 500 with that text, and a kill. */
  lemma StderrBeforeMatch(fen: string, elo: Option<int>, pre: seq<Event>, d: string, post: seq<Event>)
    requires fen != "" && AllStdout(pre) && Uci.Scan(StdoutText(pre)).None?
    ensures Route(Some(fen), elo, pre + [Stderr(d)] + post).replies
         == [Reply(500, Error(ErrorPrefix + d))]
    ensures Route(Some(fen), elo, pre + [Stderr(d)] + post).kills == 1
  {
    assert pre + [Stderr(d)] + post == pre + ([Stderr(d)] + post);
    assert "" + StdoutText(pre) == StdoutText(pre);
    SilentPrefix("", pre, [Stderr(d)] + post);
    RouteReplies(Some(fen), elo, pre + [Stderr(d)] + post);
  }

  /** An exit before any match gives a 500 and no kill. */
  lemma ExitBeforeMatch(fen: string, elo: Option<int>, pre: seq<Event>, code: int, post: seq<Event>)
    requires fen != "" && AllStdout(pre) && Uci.Scan(StdoutText(pre)).None?
    ensures Route(Some(fen), elo, pre + [Exit(code)] + post).replies == [Reply(500, Error(ExitMessage))]
    ensures Route(Some(fen), elo, pre + [Exit(code)] + post).kills == 0
  {
    assert pre + [Exit(code)] + post == pre + ([Exit(code)] + post);
    assert "" + StdoutText(pre) == StdoutText(pre);
    SilentPrefix("", pre, [Exit(code)] + post);
    RouteReplies(Some(fen), elo, pre + [Exit(code)] + post);
  }
}
