/**
 * `chess-puzzle-website/src/pages/PuzzleBrowser.js`: the filtered, paginated puzzle
 * grid, its page buttons and the filter state that sends the view back to page 1.
 */
module PuzzleBrowser {
  import opened Wrappers
  import PuzzleService

  /** The page number on button `i` of the row. */
  function PageNum(totalPages: int, currentPage: int, i: int): int {
    if totalPages <= 5 then i + 1
    else if currentPage <= 3 then i + 1
    else if currentPage >= totalPages - 2 then totalPages - 4 + i
    else currentPage - 2 + i
  }

  /** `Array.from({ length: Math.min(5, totalPages) }, ...)`: the page buttons. */
  function PageButtons(totalPages: nat, currentPage: int): (r: seq<int>)
    ensures |r| == if totalPages < 5 then totalPages else 5
  {
    seq(if totalPages < 5 then totalPages else 5, i => PageNum(totalPages, currentPage, i))
  }

  /** The buttons are consecutive and ascending, start where the four cases of the
      source say, and stay within `[1, totalPages]`; for a current page in range the
      current page has a button. */
  lemma PageButtonsFacts(totalPages: nat, currentPage: int)
    ensures var r := PageButtons(totalPages, currentPage);
      (forall i :: 0 <= i < |r| - 1 ==> r[i + 1] == r[i] + 1)
      && (forall i :: 0 <= i < |r| ==> 1 <= r[i] <= totalPages)
      && (totalPages <= 5 || currentPage <= 3 ==> r == [] || r[0] == 1)
      && (totalPages > 5 && currentPage > 3 && currentPage >= totalPages - 2 ==> r[0] == totalPages - 4)
      && (totalPages > 5 && 3 < currentPage < totalPages - 2 ==> r[0] == currentPage - 2)
      && (1 <= currentPage <= totalPages ==> currentPage in r)
  {
    var r := PageButtons(totalPages, currentPage);
    if 1 <= currentPage <= totalPages {
      var i := if totalPages <= 5 || currentPage <= 3 then currentPage - 1
               else if currentPage >= totalPages - 2 then currentPage - totalPages + 4
               else 2;
      assert r[i] == currentPage;
    }
  }

  /** The pagination controls as rendered: whether each arrow is disabled, the pages
      they go to, and the page buttons. */
  datatype Controls = Controls(
    previousDisabled: bool, previousTarget: int, buttons: seq<int>,
    nextDisabled: bool, nextTarget: int)

  /** `pagination && pagination.totalPages > 1 && (...)`: no controls for a single
      page or before the first load. */
  function ControlsFor(pagination: Option<PuzzleService.Pagination>, currentPage: int): (r: Option<Controls>)
    ensures r.Some? <==> pagination.Some? && pagination.value.totalPages > 1
    ensures r.Some? ==> (r.value.previousDisabled <==> !pagination.value.hasPreviousPage)
    ensures r.Some? ==> (r.value.nextDisabled <==> !pagination.value.hasNextPage)
    ensures r.Some? ==> r.value.previousTarget == currentPage - 1 && r.value.nextTarget == currentPage + 1
    ensures r.Some? ==> r.value.buttons == PageButtons(pagination.value.totalPages, currentPage)
  {
    match pagination
    case None => None
    case Some(p) =>
      if p.totalPages > 1 then
        Some(Controls(!p.hasPreviousPage, currentPage - 1, PageButtons(p.totalPages, currentPage),
                      !p.hasNextPage, currentPage + 1))
      else None
  }

  /** An arrow is enabled exactly when it leads to a page of the result: Previous
      past the first page, Next before the last. */
  lemma ArrowsFollowPages(ps: seq<PuzzleService.SitePuzzle>, f: PuzzleService.Filters, page: int)
    requires page >= 1
    ensures var c := ControlsFor(Some(PuzzleService.FetchPuzzles(ps, f, page, PageSize).pagination), page);
      c.Some? ==>
        (!c.value.previousDisabled <==> page >= 2)
        && (!c.value.nextDisabled <==> PuzzleService.FetchPuzzles(ps, f, page + 1, PageSize).puzzles != [])
  {
    PuzzleService.NextPageFacts(ps, f, page, PageSize);
  }

  const PageSize: int := 24

  /** The browser's filter and page state. */
  class Browser {
    var selectedDifficulty: string
    var selectedTheme: string
    var currentPage: int

    constructor()
      ensures selectedDifficulty == "all" && selectedTheme == "all" && currentPage == 1
    {
      selectedDifficulty := "all";
      selectedTheme := "all";
      currentPage := 1;
    }

    /** The filters `loadPuzzles` passes. */
    function Filters(): PuzzleService.Filters
      reads this
    {
      PuzzleService.Filters(Some(selectedDifficulty), Some(selectedTheme), None)
    }

    /** `handleDifficultyChange`: a different value is stored and the reset effect
        sends the view to page 1; the same value changes nothing. */
    method DifficultyChange(difficulty: string)
      modifies this
      ensures selectedDifficulty == difficulty && selectedTheme == old(selectedTheme)
      ensures currentPage == if difficulty != old(selectedDifficulty) then 1 else old(currentPage)
    {
      if difficulty != selectedDifficulty {
        selectedDifficulty := difficulty;
        currentPage := 1;
      }
    }

    /** `handleThemeChange`, the same way. */
    method ThemeChange(theme: string)
      modifies this
      ensures selectedTheme == theme && selectedDifficulty == old(selectedDifficulty)
      ensures currentPage == if theme != old(selectedTheme) then 1 else old(currentPage)
    {
      if theme != selectedTheme {
        selectedTheme := theme;
        currentPage := 1;
      }
    }

    /** `handlePageChange`. */
    method PageChange(newPage: int)
      modifies this
      ensures currentPage == newPage
      ensures selectedDifficulty == old(selectedDifficulty) && selectedTheme == old(selectedTheme)
    {
      currentPage := newPage;
    }

    /** `loadPuzzles()`: the page shown and the sidebar counts, for the current
        filters and page. */
    method LoadPuzzles(ps: seq<PuzzleService.SitePuzzle>) returns (page: PuzzleService.PuzzlePage, stats: PuzzleService.PuzzleCount)
      ensures page == PuzzleService.FetchPuzzles(ps, Filters(), currentPage, PageSize)
      ensures stats == PuzzleService.GetPuzzleCount(ps, Filters())
      ensures stats.total == page.pagination.totalItems
      ensures |page.puzzles| <= PageSize
      ensures forall p :: p in page.puzzles ==> p in ps && PuzzleService.Matches(Filters(), p)
    {
      page := PuzzleService.FetchPuzzles(ps, Filters(), currentPage, PageSize);
      stats := PuzzleService.GetPuzzleCount(ps, Filters());
      PuzzleService.CountAgreesWithFetch(ps, Filters(), currentPage, PageSize);
      PuzzleService.FetchFacts(ps, Filters(), currentPage, PageSize);
    }
  }

  /** The select's `all` option sets no filter at all. */
  lemma AllSelectsEverything(ps: seq<PuzzleService.SitePuzzle>)
    ensures PuzzleService.Filtered(ps, PuzzleService.Filters(Some("all"), Some("all"), None)) == ps
  {
  }
}
