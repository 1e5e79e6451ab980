/**
 * The chapter reader page: the loaded chapter, its title and its sibling
 * chapters, the current page index, page turning, adjacent-chapter links and
 * what the page shows.
 */
module ChapterReader {
  import opened Wrappers
  import opened Catalog

  /** Pages of the loaded chapter; none while no chapter is loaded. */
  function PageCount(chapter: Option<Chapter>): nat
  {
    if chapter.Some? then |chapter.value.pages| else 0
  }

  /** The page index lies in `0 .. max(0, P - 1)`. */
  predicate InBounds(page: int, chapter: Option<Chapter>)
  {
    0 <= page && (page == 0 || page < PageCount(chapter))
  }

  /** `goToNextPage`: one page forward when a chapter is loaded and a later page exists. */
  function NextPageIndex(page: int, chapter: Option<Chapter>): (r: int)
    ensures r == page || r == page + 1
    ensures r == page + 1 <==> chapter.Some? && page < PageCount(chapter) - 1
    ensures InBounds(page, chapter) ==> InBounds(r, chapter)
  {
    if chapter.Some? && page < |chapter.value.pages| - 1 then page + 1 else page
  }

  /** `goToPrevPage`: one page back unless already on the first. */
  function PrevPageIndex(page: int): (r: int)
    ensures r == page || r == page - 1
    ensures r == page - 1 <==> page > 0
    ensures forall chapter: Option<Chapter> :: InBounds(page, chapter) ==> InBounds(r, chapter)
  {
    if page > 0 then page - 1 else page
  }

  datatype PageTurn = Next | Prev

  /** The page index after a series of page turns on one chapter. */
  function TurnPages(turns: seq<PageTurn>, page: int, chapter: Option<Chapter>): int
    decreases |turns|
  {
    if turns == [] then page
    else
      var p := if turns[0] == Next then NextPageIndex(page, chapter) else PrevPageIndex(page);
      TurnPages(turns[1..], p, chapter)
  }

  /** Starting in bounds (page 0 in particular), no series of page turns leaves the bounds. */
  lemma {:induction false} TurningStaysInBounds(turns: seq<PageTurn>, page: int, chapter: Option<Chapter>)
    requires InBounds(page, chapter)
    ensures InBounds(TurnPages(turns, page, chapter), chapter)
    decreases |turns|
  {
    if turns != [] {
      var p := if turns[0] == Next then NextPageIndex(page, chapter) else PrevPageIndex(page);
      TurningStaysInBounds(turns[1..], p, chapter);
    }
  }

  /** Position of the first chapter numbered `n`, as `Array.prototype.find` scans. */
  function FirstNumbered(chapters: seq<Chapter>, n: int): (r: Option<nat>)
    ensures r.Some? ==> r.value < |chapters| && chapters[r.value].chapterNumber == n
    ensures r.Some? ==> forall j :: 0 <= j < r.value ==> chapters[j].chapterNumber != n
    ensures r.None? <==> forall j :: 0 <= j < |chapters| ==> chapters[j].chapterNumber != n
    decreases |chapters|
  {
    if chapters == [] then None
    else if chapters[0].chapterNumber == n then Some(0)
    else
      match FirstNumbered(chapters[1..], n)
      case None => None
      case Some(k) => Some(k + 1)
  }

  /** `allChapters.find(c => c.chapter_number === n)` */
  function FindNumbered(chapters: seq<Chapter>, n: int): Option<Chapter>
  {
    match FirstNumbered(chapters, n)
    case None => None
    case Some(k) => Some(chapters[k])
  }

  /** `chapter?.chapter_number || 0`: the loaded chapter's number, 0 when none is loaded. */
  function CurrentNumber(chapter: Option<Chapter>): int
  {
    if chapter.Some? then chapter.value.chapterNumber else 0
  }

  function NextChapter(siblings: seq<Chapter>, chapter: Option<Chapter>): Option<Chapter>
  {
    FindNumbered(siblings, CurrentNumber(chapter) + 1)
  }

  function PrevChapter(siblings: seq<Chapter>, chapter: Option<Chapter>): Option<Chapter>
  {
    FindNumbered(siblings, CurrentNumber(chapter) - 1)
  }

  /**
   * The adjacent-chapter link is the first sibling numbered exactly one away,
   * and there is none when no sibling has that number: a gap is never bridged.
   */
  lemma AdjacentChapters(siblings: seq<Chapter>, chapter: Option<Chapter>)
    ensures NextChapter(siblings, chapter).Some? ==>
      NextChapter(siblings, chapter).value in siblings
      && NextChapter(siblings, chapter).value.chapterNumber == CurrentNumber(chapter) + 1
    ensures NextChapter(siblings, chapter).None? <==>
      forall c :: c in siblings ==> c.chapterNumber != CurrentNumber(chapter) + 1
    ensures PrevChapter(siblings, chapter).Some? ==>
      PrevChapter(siblings, chapter).value in siblings
      && PrevChapter(siblings, chapter).value.chapterNumber == CurrentNumber(chapter) - 1
    ensures PrevChapter(siblings, chapter).None? <==>
      forall c :: c in siblings ==> c.chapterNumber != CurrentNumber(chapter) - 1
  {
  }

  /** Chapter 3 among chapters 1, 2, 3 and 5: previous is chapter 2, and there is no next. */
  lemma GapIsNotBridged()
    ensures var siblings := [Chapter("a", "m", "One", 1, []), Chapter("b", "m", "Two", 2, []),
                             Chapter("c", "m", "Three", 3, []), Chapter("e", "m", "Five", 5, [])];
      PrevChapter(siblings, Some(siblings[2])) == Some(siblings[1])
      && NextChapter(siblings, Some(siblings[2])) == None
  {
  }

  /** What the reader page renders. */
  datatype Screen =
    | LoadingScreen
    | NotFoundScreen(message: Option<string>)
    | NoPagesScreen
    | PageScreen(
        image: Option<string>,     // `chapter.pages[currentPage]`, undefined out of range
        prevDisabled: bool,        // the previous-page button
        nextDisabled: bool,        // the next-page button
        chapterComplete: bool,     // the "Chapter Complete!" panel
        prevChapter: Option<Chapter>,
        nextChapter: Option<Chapter>)

  /** A JavaScript array read: `undefined` outside the array. */
  function PageAt(pages: seq<string>, page: int): Option<string>
  {
    if 0 <= page < |pages| then Some(pages[page]) else None
  }

  /** The render of the reader page, branch for branch. */
  function Render(loading: bool, error: Option<string>, manhwa: Option<Manhwa>, chapter: Option<Chapter>,
                  siblings: seq<Chapter>, page: int): (r: Screen)
    ensures r.PageScreen? ==> !loading && error.None? && manhwa.Some? && PageCount(chapter) > 0
    ensures r.NoPagesScreen? <==>
      !loading && error.None? && manhwa.Some? && chapter.Some? && |chapter.value.pages| == 0
    ensures r.LoadingScreen? <==> loading
    ensures !loading && error.None? && manhwa.Some? && PageCount(chapter) > 0 ==>
      r.PageScreen? && r.image == PageAt(chapter.value.pages, page)
      && r.prevChapter == PrevChapter(siblings, chapter) && r.nextChapter == NextChapter(siblings, chapter)
    ensures r.PageScreen? ==>
      (r.prevDisabled <==> page == 0)
      && (r.nextDisabled <==> page == PageCount(chapter) - 1)
      && (r.chapterComplete <==> r.nextDisabled)
  {
    if loading then LoadingScreen
    else if error.Some? || manhwa.None? || chapter.None? then NotFoundScreen(error)
    else if |chapter.value.pages| == 0 then NoPagesScreen
    else
      var last := |chapter.value.pages| - 1;
      PageScreen(PageAt(chapter.value.pages, page), page == 0, page == last, page == last,
                 PrevChapter(siblings, chapter), NextChapter(siblings, chapter))
  }

  /**
   * With the page index in bounds, the page screen shows an image, a button is
   * disabled exactly when pressing it would do nothing, and the "Chapter
   * Complete!" panel shows exactly when the next-page button is disabled.
   */
  lemma ControlsMatchPageTurns(loading: bool, error: Option<string>, manhwa: Option<Manhwa>,
                               chapter: Option<Chapter>, siblings: seq<Chapter>, page: int)
    requires InBounds(page, chapter)
    requires Render(loading, error, manhwa, chapter, siblings, page).PageScreen?
    ensures var s := Render(loading, error, manhwa, chapter, siblings, page);
      s.image.Some?
      && (s.prevDisabled <==> PrevPageIndex(page) == page)
      && (s.nextDisabled <==> NextPageIndex(page, chapter) == page)
      && (s.chapterComplete <==> s.nextDisabled)
  {
  }

  /**
   * Past the last page (reachable, since loading a chapter keeps the index), the
   * page screen shows no image and its next-page button stays enabled, although
   * pressing it does nothing.
   */
  lemma PastLastPage(loading: bool, error: Option<string>, manhwa: Option<Manhwa>,
                     chapter: Option<Chapter>, siblings: seq<Chapter>, page: int)
    requires 0 < PageCount(chapter) <= page
    requires !loading && error.None? && manhwa.Some?
    ensures var s := Render(loading, error, manhwa, chapter, siblings, page);
      s.PageScreen? && s.image == None && !s.nextDisabled && !s.chapterComplete
      && NextPageIndex(page, chapter) == page
  {
  }

  /** A store read: the row(s) asked for, or an error. */
  datatype Fetch<T> = Fetched(value: T) | FetchFailed

  class Reader {
    var currentPage: int
    var manhwa: Option<Manhwa>
    var chapter: Option<Chapter>
    var allChapters: seq<Chapter>
    var loading: bool
    var error: Option<string>

    /** The state hooks' initial values. */
    constructor ()
      ensures currentPage == 0 && manhwa == None && chapter == None && allChapters == []
      ensures loading && error == None
      ensures InBounds(currentPage, chapter)
    {
      currentPage := 0;
      manhwa := None;
      chapter := None;
      allChapters := [];
      loading := true;
      error := None;
    }

    function View(): Screen
      reads this
    {
      Render(loading, error, manhwa, chapter, allChapters, currentPage)
    }

    method GoToNextPage()
      modifies this`currentPage
      ensures currentPage == NextPageIndex(old(currentPage), chapter)
      ensures old(InBounds(currentPage, chapter)) ==> InBounds(currentPage, chapter)
    {
      if chapter.Some? && currentPage < |chapter.value.pages| - 1 {
        currentPage := currentPage + 1;
      }
    }

    method GoToPrevPage()
      modifies this`currentPage
      ensures currentPage == PrevPageIndex(old(currentPage))
      ensures old(InBounds(currentPage, chapter)) ==> InBounds(currentPage, chapter)
    {
      if currentPage > 0 {
        currentPage := currentPage - 1;
      }
    }

    /**
     * The load effect for route parameters `id` and `chapterId`: with either
     * missing nothing happens; otherwise the chapter, the title and the sibling
     * chapters (ordered by number by the store) are read in turn, the first
     * failure sets the error message, and only when all three succeed are they
     * stored. The page index is never touched, and an earlier error is never
     * cleared.
     */
    method Load(id: Option<string>, chapterId: Option<string>,
                chapterAnswer: Fetch<Chapter>, manhwaAnswer: Fetch<Manhwa>, siblingsAnswer: Fetch<seq<Chapter>>)
      modifies this`manhwa, this`chapter, this`allChapters, this`loading, this`error
      ensures id == None || id == Some("") || chapterId == None || chapterId == Some("") ==>
        manhwa == old(manhwa) && chapter == old(chapter) && allChapters == old(allChapters)
        && loading == old(loading) && error == old(error)
      ensures id != None && id != Some("") && chapterId != None && chapterId != Some("") ==>
        !loading
        && if chapterAnswer.Fetched? && manhwaAnswer.Fetched? && siblingsAnswer.Fetched? then
             chapter == Some(chapterAnswer.value) && manhwa == Some(manhwaAnswer.value)
             && allChapters == siblingsAnswer.value && error == old(error)
           else
             chapter == old(chapter) && manhwa == old(manhwa) && allChapters == old(allChapters)
             && error == Some("Failed to load chapter")
      ensures currentPage == old(currentPage)
    {
      if id == None || id == Some("") || chapterId == None || chapterId == Some("") {
        return;
      }
      loading := true;
      if chapterAnswer.FetchFailed? || manhwaAnswer.FetchFailed? || siblingsAnswer.FetchFailed? {
        error := Some("Failed to load chapter");
      } else {
        chapter := Some(chapterAnswer.value);
        manhwa := Some(manhwaAnswer.value);
        allChapters := siblingsAnswer.value;
      }
      loading := false;
    }
  }

  /**
   * Opening the next chapter from the last page of a longer one keeps the old
   * index, which the new chapter's pages do not reach: the reader shows no
   * image, yet the next-page button is enabled and turning does nothing.
   */
  method NextChapterKeepsPageIndex()
  {
    var reader := new Reader();
    var first := Chapter("c1", "m", "One", 1, ["p1", "p2", "p3"]);
    var second := Chapter("c2", "m", "Two", 2, ["q1"]);
    var title := Manhwa("m", "T", "A", None, None, [], Ongoing, 0.0);
    reader.Load(Some("m"), Some("c1"), Fetched(first), Fetched(title), Fetched([first, second]));
    reader.GoToNextPage();
    reader.GoToNextPage();
    assert reader.currentPage == 2;
    reader.Load(Some("m"), Some("c2"), Fetched(second), Fetched(title), Fetched([first, second]));
    assert reader.currentPage == 2 && !InBounds(reader.currentPage, reader.chapter);
    var screen := reader.View();
    assert screen.PageScreen? && screen.image == None && !screen.nextDisabled;
    reader.GoToNextPage();
    assert reader.currentPage == 2;
  }
}
