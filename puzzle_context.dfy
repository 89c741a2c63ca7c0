/**
 * `chess-puzzle-website/src/contexts/PuzzleContext.js`: the shuffled order in which
 * the site serves puzzles, the position in that order, and their copies in the
 * browser's local storage.
 */
module PuzzleContext {
  import opened Wrappers
  import JsNumber

  /** The cells `i` and `j` exchanged. */
  function Swap<T>(s: seq<T>, i: nat, j: nat): (r: seq<T>)
    requires i < |s| && j < |s|
    ensures |r| == |s| && r[i] == s[j] && r[j] == s[i]
    ensures forall k :: 0 <= k < |s| && k != i && k != j ==> r[k] == s[k]
  {
    s[i := s[j]][j := s[i]]
  }

  /** The random choices of `shuffle`: the `k`-th step, taken when `m` has just
      dropped to `n - 1 - k`, picks a cell in `[0, n - 1 - k]`. */
  predicate ValidPicks(picks: seq<int>) {
    forall k :: 0 <= k < |picks| ==> 0 <= picks[k] < |picks| - k
  }

  /** `shuffle` with the given choices: the last of the cells still in play swaps
      with the chosen one, then the rest is shuffled with the remaining choices. */
  function Shuffled<T>(s: seq<T>, picks: seq<int>): (r: seq<T>)
    requires |picks| <= |s| && ValidPicks(picks)
    ensures |r| == |s|
    decreases |picks|
  {
    if picks == [] then s
    else
      assert ValidPicks(picks[1..]) by {
        forall k | 0 <= k < |picks[1..]| ensures 0 <= picks[1..][k] < |picks[1..]| - k {
          assert picks[1..][k] == picks[k + 1];
        }
      }
      Shuffled(Swap(s, |picks| - 1, picks[0]), picks[1..])
  }

  lemma SwapPermutes<T>(s: seq<T>, i: nat, j: nat)
    requires i < |s| && j < |s|
    ensures multiset(Swap(s, i, j)) == multiset(s)
  {
  }

  /** Whatever the choices, shuffling only reorders: the same elements, each as
      often as before. */
  lemma {:induction false} ShuffledPermutes<T>(s: seq<T>, picks: seq<int>)
    requires |picks| <= |s| && ValidPicks(picks)
    ensures multiset(Shuffled(s, picks)) == multiset(s)
    decreases |picks|
  {
    if picks != [] {
      var t := Swap(s, |picks| - 1, picks[0]);
      SwapPermutes(s, |picks| - 1, picks[0]);
      assert ValidPicks(picks[1..]) by {
        forall k | 0 <= k < |picks[1..]| ensures 0 <= picks[1..][k] < |picks[1..]| - k {
          assert picks[1..][k] == picks[k + 1];
        }
      }
      ShuffledPermutes(t, picks[1..]);
    }
  }

  /** `shuffle(array)` in place; `picks[k]` is `Math.floor(Math.random() * m)` of the
      `k`-th turn of the loop. The loop runs once per cell. */
  method Shuffle(a: array<string>, picks: seq<int>)
    requires |picks| == a.Length && ValidPicks(picks)
    modifies a
    ensures a[..] == Shuffled(old(a[..]), picks)
    ensures multiset(a[..]) == multiset(old(a[..]))
  {
    var m := a.Length;
    while m > 0
      invariant 0 <= m <= a.Length
      invariant ValidPicks(picks[a.Length - m..])
      invariant Shuffled(a[..], picks[a.Length - m..]) == Shuffled(old(a[..]), picks)
      decreases m
    {
      var rest := picks[a.Length - m..];
      var i := rest[0];
      ghost var before := a[..];
      ShuffledStep(before, rest);
      m := m - 1;
      assert rest[1..] == picks[a.Length - m..];
      a[m], a[i] := a[i], a[m];
      assert a[..] == Swap(before, m, i);
    }
    assert picks[a.Length..] == [];
    ShuffledPermutes(old(a[..]), picks);
  }

  /** One turn of the loop. */
  lemma ShuffledStep<T>(s: seq<T>, picks: seq<int>)
    requires 0 < |picks| <= |s| && ValidPicks(picks)
    ensures 0 <= picks[0] < |picks| && ValidPicks(picks[1..])
    ensures Shuffled(s, picks) == Shuffled(Swap(s, |picks| - 1, picks[0]), picks[1..])
  {
    assert ValidPicks(picks[1..]) by {
      forall k | 0 <= k < |picks[1..]| ensures 0 <= picks[1..][k] < |picks[1..]| - k {
        assert picks[1..][k] == picks[k + 1];
      }
    }
  }

  /** A fresh array holding the sample ids, shuffled. */
  method ShuffledIds(sampleIds: seq<string>, picks: seq<int>) returns (ids: seq<string>)
    requires |picks| == |sampleIds| && ValidPicks(picks)
    ensures ids == Shuffled(sampleIds, picks)
    ensures multiset(ids) == multiset(sampleIds) && |ids| == |sampleIds|
  {
    var a := new string[|sampleIds|](k requires 0 <= k < |sampleIds| => sampleIds[k]);
    assert a[..] == sampleIds;
    Shuffle(a, picks);
    ids := a[..];
  }

  /** `localStorage.setItem(PUZZLE_INDEX_KEY, idx)`: the number printed. */
  function StoredText(idx: int): string {
    JsNumber.IntToString(idx)
  }

  /** `PuzzleProvider`'s state and the two local-storage entries it keeps. `None` for
      the stored ids covers a missing entry and one that is not an array. */
  class PuzzleProvider {
    var puzzleIds: seq<string>
    var currentIndex: int
    var loading: bool
    var storedIds: Option<seq<string>>
    var storedIndex: Option<string>

    /** The first render, before the effect runs, with what storage already holds. */
    constructor(storedIds: Option<seq<string>>, storedIndex: Option<string>)
      ensures puzzleIds == [] && currentIndex == 0 && loading
      ensures this.storedIds == storedIds && this.storedIndex == storedIndex
    {
      puzzleIds := [];
      currentIndex := 0;
      loading := true;
      this.storedIds := storedIds;
      this.storedIndex := storedIndex;
    }

    /** The initial load: stored ids are kept if there are any, with the stored index
        (`parseInt(..., 10) || 0`); otherwise the sample ids are shuffled, the index is
        0 and both are stored. */
    method Init(sampleIds: seq<string>, picks: seq<int>)
      requires |picks| == |sampleIds| && ValidPicks(picks)
      modifies this
      ensures !loading
      ensures old(storedIds).Some? && old(storedIds).value != [] ==>
        puzzleIds == old(storedIds).value
        && currentIndex == JsNumber.OrDefault(if old(storedIndex).Some? then JsNumber.ParseInt(old(storedIndex).value, true) else None, 0)
        && storedIds == old(storedIds) && storedIndex == old(storedIndex)
      ensures !(old(storedIds).Some? && old(storedIds).value != []) ==>
        puzzleIds == Shuffled(sampleIds, picks) && currentIndex == 0
        && storedIds == Some(puzzleIds) && storedIndex == Some("0")
      ensures storedIds == Some(puzzleIds)
    {
      var idx := JsNumber.OrDefault(if storedIndex.Some? then JsNumber.ParseInt(storedIndex.value, true) else None, 0);
      var ids: seq<string>;
      if storedIds.None? || storedIds.value == [] {
        ids := ShuffledIds(sampleIds, picks);
        idx := 0;
        storedIds := Some(ids);
        storedIndex := Some(StoredText(idx));
      } else {
        ids := storedIds.value;
      }
      puzzleIds := ids;
      currentIndex := idx;
      loading := false;
    }

    /** `nextPuzzle()`: the next position, or, past the last one, a fresh shuffle of
        the sample ids from position 0. The index is stored either way. */
    method NextPuzzle(sampleIds: seq<string>, picks: seq<int>)
      requires |picks| == |sampleIds| && ValidPicks(picks)
      modifies this
      ensures old(currentIndex) + 1 < |old(puzzleIds)| ==>
        puzzleIds == old(puzzleIds) && currentIndex == old(currentIndex) + 1 && storedIds == old(storedIds)
      ensures old(currentIndex) + 1 >= |old(puzzleIds)| ==>
        puzzleIds == Shuffled(sampleIds, picks) && currentIndex == 0 && storedIds == Some(puzzleIds)
      ensures storedIndex == Some(StoredText(currentIndex)) && loading == old(loading)
      ensures old(currentIndex) >= -1 && |sampleIds| > 0 ==> 0 <= currentIndex < |puzzleIds|
    {
      var idx := currentIndex + 1;
      if idx >= |puzzleIds| {
        var ids := ShuffledIds(sampleIds, picks);
        idx := 0;
        storedIds := Some(ids);
        storedIndex := Some(StoredText(idx));
        puzzleIds := ids;
        currentIndex := idx;
      } else {
        currentIndex := idx;
        storedIndex := Some(StoredText(idx));
      }
    }

    /** `refreshPuzzles()`: a fresh shuffle of the sample ids from position 0. */
    method RefreshPuzzles(sampleIds: seq<string>, picks: seq<int>)
      requires |picks| == |sampleIds| && ValidPicks(picks)
      modifies this
      ensures puzzleIds == Shuffled(sampleIds, picks) && currentIndex == 0
      ensures storedIds == Some(puzzleIds) && storedIndex == Some("0") && loading == old(loading)
      ensures |sampleIds| > 0 ==> 0 <= currentIndex < |puzzleIds|
    {
      var ids := ShuffledIds(sampleIds, picks);
      storedIds := Some(ids);
      storedIndex := Some(StoredText(0));
      puzzleIds := ids;
      currentIndex := 0;
    }

    /** `currentPuzzleId`: `puzzleIds[currentIndex]`, undefined out of range. */
    function CurrentPuzzleId(): (r: Option<string>)
      reads this
      ensures r.Some? <==> 0 <= currentIndex < |puzzleIds|
      ensures r.Some? ==> r.value in puzzleIds
    {
      if 0 <= currentIndex < |puzzleIds| then Some(puzzleIds[currentIndex]) else None
    }
  }

  /** What the storage holds reads back as the same state: the printed index parses
      to itself (0 included, through `|| 0`). */
  lemma StoredIndexRoundTrip(idx: int)
    ensures JsNumber.OrDefault(JsNumber.ParseInt(JsNumber.IntToString(idx), true), 0) == idx
  {
    JsNumber.ParseIntToString(idx, true);
  }
}
