/**
 * Reading the engine's answer: the `bestmove` message of the UCI protocol, found
 * as the leftmost match of the regular expression `bestmove\s(\S+)` in the
 * engine output received so far, and the commands the programs send the engine.
 */
module Uci {
  import opened Wrappers
  import opened JsString
  import JsNumber

  const Keyword: string := "bestmove"

  /** The regular expression matches at the start of `s`: the keyword, one white
      space character, then at least one non-space character. */
  predicate MatchesHere(s: string) {
    |s| >= 10 && s[..8] == Keyword && IsSpace(s[8]) && !IsSpace(s[9])
  }

  predicate MatchesAt(s: string, i: int) {
    0 <= i <= |s| && MatchesHere(s[i..])
  }

  /** The greedy `(\S+)` capture: the longest prefix without white space. */
  function Token(s: string): (r: string)
    ensures |r| <= |s| && r == s[..|r|]
    ensures forall k :: 0 <= k < |r| ==> !IsSpace(r[k])
    ensures |r| == |s| || IsSpace(s[|r|])
  {
    if s == [] || IsSpace(s[0]) then []
    else
      var t := Token(s[1..]);
      assert [s[0]] + t == s[..|t| + 1];
      [s[0]] + t
  }

  /** Where the leftmost match starts, if there is one. */
  function FirstMatch(s: string): (r: Option<nat>)
    ensures r.Some? ==> r.value + 10 <= |s|
    decreases |s|
  {
    if |s| < 10 then None
    else if MatchesHere(s) then Some(0)
    else match FirstMatch(s[1..])
      case None => None
      case Some(i) => Some(i + 1)
  }

  /** `output.match(/bestmove\s(\S+)/)`, with the capture group as the value. */
  function Scan(s: string): Option<string> {
    match FirstMatch(s)
    case None => None
    case Some(i) => Some(Token(s[i + 9..]))
  }

  /** The match found is the leftmost one, and there is none exactly when no
      position matches. */
  lemma {:induction false} FirstMatchLeftmost(s: string)
    ensures FirstMatch(s).None? <==> forall i :: 0 <= i <= |s| ==> !MatchesAt(s, i)
    ensures FirstMatch(s).Some? ==>
      MatchesAt(s, FirstMatch(s).value) && (forall j :: 0 <= j < FirstMatch(s).value ==> !MatchesAt(s, j))
    decreases |s|
  {
    assert s[0..] == s;
    if |s| < 10 {
      forall i | 0 <= i <= |s| ensures !MatchesAt(s, i) { }
    } else if !MatchesHere(s) {
      FirstMatchLeftmost(s[1..]);
      forall i | 1 <= i <= |s| ensures MatchesAt(s, i) == MatchesAt(s[1..], i - 1) {
        assert s[i..] == s[1..][i - 1..];
      }
      assert !MatchesAt(s, 0);
      if FirstMatch(s[1..]).Some? {
        var k := FirstMatch(s[1..]).value;
        assert FirstMatch(s) == Some(k + 1);
        assert MatchesAt(s, k + 1);
        forall j | 0 <= j < k + 1 ensures !MatchesAt(s, j) {
          if j > 0 { assert !MatchesAt(s[1..], j - 1); }
        }
      } else {
        forall i | 0 <= i <= |s| ensures !MatchesAt(s, i) {
          if i > 0 { assert !MatchesAt(s[1..], i - 1); }
        }
      }
    } else {
      assert FirstMatch(s) == Some(0);
      assert MatchesAt(s, 0);
    }
  }

  /** The capture is a non-empty run of non-space characters. */
  lemma ScanToken(s: string)
    requires Scan(s).Some?
    ensures |Scan(s).value| >= 1
    ensures forall k :: 0 <= k < |Scan(s).value| ==> !IsSpace(Scan(s).value[k])
  {
    FirstMatchLeftmost(s);
    var i := FirstMatch(s).value;
    assert s[i + 9..][0] == s[i..][9];
  }

  /** A match implies the keyword is present, which is why the `includes` test
      in front of every match call changes nothing. */
  lemma ScanImpliesKeyword(s: string)
    requires Scan(s).Some?
    ensures Contains(s, Keyword)
  {
    FirstMatchLeftmost(s);
    var i := FirstMatch(s).value;
    assert s[i..][..8] == s[i..i + 8];
    assert OccursAt(s, Keyword, i);
    ContainsOccurs(s, Keyword);
  }

  /** More output never moves a match that is already there. */
  lemma {:induction false} FirstMatchStable(s: string, more: string)
    requires FirstMatch(s).Some?
    ensures FirstMatch(s + more) == FirstMatch(s)
    decreases |s|
  {
    assert (s + more)[..10] == s[..10];
    assert (s + more)[..8] == s[..8];
    if !MatchesHere(s) {
      assert (s + more)[1..] == s[1..] + more;
      FirstMatchStable(s[1..], more);
    }
  }

  lemma ScanAt(s: string, i: nat)
    requires FirstMatch(s) == Some(i)
    ensures i + 9 <= |s| && Scan(s) == Some(Token(s[i + 9..]))
  {
  }

  /** Once the buffer holds a match, more output keeps a match at the same place;
      the move is unchanged when its token was already followed by white space, and
      is lengthened by the new text otherwise. */
  lemma ScanStable(s: string, more: string)
    requires Scan(s).Some?
    ensures Scan(s + more).Some?
    ensures FirstMatch(s).value + 9 + |Scan(s).value| < |s| ==> Scan(s + more) == Scan(s)
    ensures FirstMatch(s).value + 9 + |Scan(s).value| == |s| ==>
      Scan(s + more) == Some(Scan(s).value + Token(more))
  {
    var i := FirstMatch(s).value;
    var t := s[i + 9..];
    ScanAt(s, i);
    ScanExtends(s, more);
    TokenExtended(t, more);
    TokenWhole(t);
  }

  /** The match of the longer buffer reads its token from the same place. */
  lemma ScanExtends(s: string, more: string)
    requires Scan(s).Some?
    ensures Scan(s + more) == Some(Token(s[FirstMatch(s).value + 9..] + more))
  {
    var i := FirstMatch(s).value;
    FirstMatchStable(s, more);
    ScanAt(s + more, i);
    assert (s + more)[i + 9..] == s[i + 9..] + more;
  }

  lemma TokenWhole(t: string)
    ensures |Token(t)| == |t| ==> Token(t) == t
  {
    if |Token(t)| == |t| {
      assert t[..|t|] == t;
    }
  }

  /** A token that stops before the end of the string is not lengthened by more
      text after it. */
  lemma {:induction false} TokenExtended(s: string, more: string)
    ensures |Token(s)| < |s| ==> Token(s + more) == Token(s)
    ensures |Token(s)| == |s| ==> Token(s + more) == s + Token(more)
    decreases |s|
  {
    if s == [] {
      assert s + more == more;
      assert s + Token(more) == Token(more);
    } else {
      assert (s + more)[0] == s[0];
      assert (s + more)[1..] == s[1..] + more;
      if !IsSpace(s[0]) {
        TokenExtended(s[1..], more);
        assert Token(s) == [s[0]] + Token(s[1..]);
        assert Token(s + more) == [s[0]] + Token(s[1..] + more);
        assert s == [s[0]] + s[1..];
      }
    }
  }

  /** A split between chunks can cut the token short: the first chunk already
      matches with the truncated move, and the rest of the move arrives too late. */
  lemma ChunkSplitTruncates()
    ensures Scan("bestmove e2") == Some("e2")
    ensures Scan("bestmove e2" + "e4\n") == Some("e2e4")
  {
    ScanFirstChunk();
    assert "bestmove e2" + "e4\n" == "bestmove e2e4\n";
    ScanBothChunks();
  }

  lemma ScanFirstChunk()
    ensures Scan("bestmove e2") == Some("e2")
  {
    var a := "bestmove e2";
    assert a[..8] == Keyword;
    assert MatchesHere(a) && FirstMatch(a) == Some(0);
    assert a[9..] == "e2";
    assert "e2"[1..] == "2" && "2"[1..] == "";
    assert Token("2") == "2";
    assert Token("e2") == "e2";
  }

  lemma ScanBothChunks()
    ensures Scan("bestmove e2e4\n") == Some("e2e4")
  {
    var b := "bestmove e2e4\n";
    assert b[..8] == Keyword;
    assert MatchesHere(b) && FirstMatch(b) == Some(0);
    assert b[9..] == "e2e4\n";
    assert "e2e4\n"[1..] == "2e4\n" && "2e4\n"[1..] == "e4\n";
    assert "e4\n"[1..] == "4\n" && "4\n"[1..] == "\n";
    assert Token("\n") == "";
    assert Token("4\n") == "4";
    assert Token("e4\n") == "e4";
    assert Token("2e4\n") == "2e4";
    assert Token("e2e4\n") == "e2e4";
  }

  /** `position fen <fen>` and `go movetime <ms>`, each ended by a newline. */
  function PositionCommand(fen: string): string {
    "position fen " + fen + "\n"
  }

  function GoCommand(movetime: int): string {
    "go movetime " + JsNumber.IntToString(movetime) + "\n"
  }
}
