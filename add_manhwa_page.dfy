/**
 * The "Add New Manhwa" page: a title draft with a genre list and an ordered
 * list of draft chapters, each with its page URLs, published on submit as one
 * title insert followed by one batch insert of the chapters.
 */
module AddManhwaPage {
  import opened Wrappers
  import opened Sequences
  import opened Catalog
  import opened GenreList

  /** A chapter being drafted: its title, its number and its page URLs. */
  datatype DraftChapter = DraftChapter(title: string, number: int, pages: seq<string>)

  /** The field and value handed to `updateChapter`. */
  datatype ChapterField = TitleField(title: string) | NumberField(number: int) | PagesField(pages: seq<string>)

  function DigitChar(d: nat): char
    requires d < 10
  {
    ('0' as int + d) as char
  }

  /** A number as a template literal prints it: its decimal digits. */
  function Decimal(n: nat): (r: string)
    ensures |r| >= 1
    ensures forall k :: 0 <= k < |r| ==> '0' <= r[k] <= '9'
    ensures r[0] == '0' <==> n == 0
  {
    if n < 10 then [DigitChar(n)] else Decimal(n / 10) + [DigitChar(n % 10)]
  }

  /** Reads decimal digits back into a number. */
  function DecimalValue(s: string): nat
    requires forall k :: 0 <= k < |s| ==> '0' <= s[k] <= '9'
    decreases |s|
  {
    if s == [] then 0 else 10 * DecimalValue(s[..|s| - 1]) + (s[|s| - 1] as int - '0' as int)
  }

  /** Printing a number loses nothing: its digits read back to it. */
  lemma {:induction false} DecimalRoundTrip(n: nat)
    ensures DecimalValue(Decimal(n)) == n
  {
    if n >= 10 {
      var r := Decimal(n);
      assert r[..|r| - 1] == Decimal(n / 10);
      DecimalRoundTrip(n / 10);
    }
  }

  /** The chapter `addChapter` appends when the list holds `n - 1` chapters. */
  function NewChapter(n: nat): (r: DraftChapter)
    ensures r.number == n && r.pages == []
    ensures |r.title| > 8 && r.title[..8] == "Chapter "
    ensures forall k :: 8 <= k < |r.title| ==> '0' <= r.title[k] <= '9'
    ensures DecimalValue(r.title[8..]) == n
    ensures r.title[8] == '0' <==> n == 0
  {
    DecimalRoundTrip(n);
    var title := "Chapter " + Decimal(n);
    assert title[8..] == Decimal(n);
    DraftChapter(title, n, [])
  }

  /** Different positions get different default titles. */
  lemma DefaultTitlesDiffer(m: nat, n: nat)
    requires m != n
    ensures NewChapter(m).title != NewChapter(n).title
  {
  }

  /** Chapter numbers are exactly 1, 2, ..., n in list order. */
  predicate NumberedInOrder(chapters: seq<DraftChapter>)
  {
    forall k :: 0 <= k < |chapters| ==> chapters[k].number == k + 1
  }

  /** `addChapter`: one new chapter at the end, numbered after the others. */
  function AppendChapter(chapters: seq<DraftChapter>): (r: seq<DraftChapter>)
    ensures |r| == |chapters| + 1 && r[..|chapters|] == chapters
    ensures r[|chapters|].number == |chapters| + 1 && r[|chapters|].pages == []
    ensures r[|chapters|].title == "Chapter " + Decimal(|chapters| + 1)
    ensures NumberedInOrder(chapters) ==> NumberedInOrder(r)
  {
    chapters + [NewChapter(|chapters| + 1)]
  }

  /** `chapters.filter((_, i) => i !== index)`: an index outside the list removes nothing. */
  function WithoutIndex(chapters: seq<DraftChapter>, index: int): (r: seq<DraftChapter>)
    ensures 0 <= index < |chapters| ==>
      (|r| == |chapters| - 1
       && (forall k :: 0 <= k < index ==> r[k] == chapters[k])
       && (forall k :: index <= k < |r| ==> r[k] == chapters[k + 1]))
    ensures !(0 <= index < |chapters|) ==> r == chapters
  {
    if 0 <= index < |chapters| then chapters[..index] + chapters[index + 1..] else chapters
  }

  /** `.map((chapter, i) => ({ ...chapter, number: i + 1 }))` */
  function Renumbered(chapters: seq<DraftChapter>): (r: seq<DraftChapter>)
    ensures |r| == |chapters| && NumberedInOrder(r)
    ensures forall k :: 0 <= k < |r| ==> r[k].title == chapters[k].title && r[k].pages == chapters[k].pages
  {
    seq(|chapters|, k requires 0 <= k < |chapters| => chapters[k].(number := k + 1))
  }

  /**
   * `removeChapter`: the list without the chapter at `index`, renumbered
   * 1..n. Numbers typed by hand are overwritten; titles are kept.
   */
  function RemoveChapter(chapters: seq<DraftChapter>, index: int): seq<DraftChapter>
  {
    Renumbered(WithoutIndex(chapters, index))
  }

  /** What `removeChapter` promises, for any list, even one whose numbers were edited. */
  lemma RemoveChapterSpec(chapters: seq<DraftChapter>, index: int)
    requires 0 <= index < |chapters|
    ensures var r := RemoveChapter(chapters, index);
      |r| == |chapters| - 1 && NumberedInOrder(r)
      && (forall k :: 0 <= k < index ==> r[k] == chapters[k].(number := k + 1))
      && (forall k :: index <= k < |r| ==> r[k] == chapters[k + 1].(number := k + 1))
  {
  }

  /** `updateChapter`: field `field` of chapter `index` takes the new value. */
  function UpdateChapter(chapters: seq<DraftChapter>, index: int, field: ChapterField): (r: seq<DraftChapter>)
    requires 0 <= index < |chapters|
    ensures |r| == |chapters|
    ensures forall k :: 0 <= k < |r| && k != index ==> r[k] == chapters[k]
    ensures match field
      case TitleField(t) => r[index] == chapters[index].(title := t)
      case NumberField(n) => r[index] == chapters[index].(number := n)
      case PagesField(p) => r[index] == chapters[index].(pages := p)
  {
    var c := chapters[index];
    chapters[index := match field
      case TitleField(t) => c.(title := t)
      case NumberField(n) => c.(number := n)
      case PagesField(p) => c.(pages := p)]
  }

  /** `addPageToChapter`: the URL the prompt returned, if any and non-empty, goes after the chapter's pages. */
  function AddPage(chapters: seq<DraftChapter>, index: int, url: Option<string>): (r: seq<DraftChapter>)
    requires 0 <= index < |chapters|
    ensures |r| == |chapters|
    ensures forall k :: 0 <= k < |r| && k != index ==> r[k] == chapters[k]
    ensures r[index].title == chapters[index].title && r[index].number == chapters[index].number
    ensures r[index].pages == if url.Some? && url.value != "" then chapters[index].pages + [url.value]
                              else chapters[index].pages
  {
    if url.Some? && url.value != "" then
      chapters[index := chapters[index].(pages := chapters[index].pages + [url.value])]
    else chapters
  }

  /** `pages.splice(page, 1)` for a page index from the list: that page goes, the rest keep their order. */
  function RemovePageAt(pages: seq<string>, page: nat): (r: seq<string>)
    ensures page < |pages| ==>
      (|r| == |pages| - 1
       && (forall k :: 0 <= k < page ==> r[k] == pages[k])
       && (forall k :: page <= k < |r| ==> r[k] == pages[k + 1]))
    ensures page >= |pages| ==> r == pages
  {
    if page < |pages| then pages[..page] + pages[page + 1..] else pages
  }

  /** `removePageFromChapter`: only the pages of chapter `index` change. */
  function RemovePage(chapters: seq<DraftChapter>, index: int, page: nat): (r: seq<DraftChapter>)
    requires 0 <= index < |chapters|
    ensures |r| == |chapters|
    ensures forall k :: 0 <= k < |r| && k != index ==> r[k] == chapters[k]
    ensures r[index] == chapters[index].(pages := RemovePageAt(chapters[index].pages, page))
  {
    chapters[index := chapters[index].(pages := RemovePageAt(chapters[index].pages, page))]
  }

  /** A chapter-list edit that leaves numbers to the page: the add and remove buttons. */
  datatype ListEdit = Add | Remove(index: int)

  function ApplyEdits(chapters: seq<DraftChapter>, edits: seq<ListEdit>): seq<DraftChapter>
    decreases |edits|
  {
    if edits == [] then chapters
    else
      var next := match edits[0]
        case Add => AppendChapter(chapters)
        case Remove(i) => RemoveChapter(chapters, i);
      ApplyEdits(next, edits[1..])
  }

  /** Using only add and remove, the chapters stay numbered 1..n with no gaps. */
  lemma {:induction false} EditsKeepNumbering(chapters: seq<DraftChapter>, edits: seq<ListEdit>)
    requires NumberedInOrder(chapters)
    ensures NumberedInOrder(ApplyEdits(chapters, edits))
    decreases |edits|
  {
    if edits != [] {
      var next := match edits[0]
        case Add => AppendChapter(chapters)
        case Remove(i) => RemoveChapter(chapters, i);
      EditsKeepNumbering(next, edits[1..]);
    }
  }

  /** The page's fields at the moment of submitting. */
  datatype Draft = Draft(
    title: string,
    author: string,
    description: string,
    coverImage: string,
    status: Status,
    rating: real,
    genres: seq<string>,
    chapters: seq<DraftChapter>)

  /** The title insert: every field passed as it stands. */
  function TitleRow(d: Draft): (row: ManhwaRow)
    ensures row.title == d.title && row.author == d.author && row.genre == d.genres && row.status == d.status
    ensures row.description == Some(d.description) && row.coverImage == Some(d.coverImage)
    ensures row.rating == Number(d.rating)
  {
    ManhwaRow(d.title, d.author, Some(d.description), Some(d.coverImage), d.genres, d.status, Number(d.rating))
  }

  /** `chapters.map(...)` into insert rows carrying the new title's id. */
  function ChapterRows(manhwaId: string, chapters: seq<DraftChapter>): (r: seq<ChapterRow>)
    ensures |r| == |chapters|
    ensures forall k :: 0 <= k < |r| ==> r[k].manhwaId == manhwaId
  {
    seq(|chapters|, k requires 0 <= k < |chapters| =>
      ChapterRow(manhwaId, chapters[k].title, chapters[k].number, chapters[k].pages))
  }

  /** Each chapter row carries its draft's title, number and pages unchanged, in draft order. */
  lemma ChapterRowsCarryDrafts(manhwaId: string, chapters: seq<DraftChapter>)
    ensures forall k :: 0 <= k < |chapters| ==>
      ChapterRows(manhwaId, chapters)[k] == ChapterRow(manhwaId, chapters[k].title, chapters[k].number, chapters[k].pages)
    ensures NumberedInOrder(chapters) ==>
      forall k :: 0 <= k < |chapters| ==> ChapterRows(manhwaId, chapters)[k].chapterNumber == k + 1
  {
  }

  /**
   * `handleSubmit`: the effects in order, given what the store answers to the
   * title insert and whether the chapter insert succeeds.
   */
  function SubmitEffects(d: Draft, titleAnswer: InsertAnswer, chaptersOk: bool): seq<Effect>
  {
    if d.title == "" || d.author == "" then [Toast(ValidationToast)]
    else
      var outcome :=
        if titleAnswer.InsertFailed? then [Toast(FailureToast)]
        else if |d.chapters| == 0 then [Toast(SuccessToast), NavigateHome]
        else [InsertChapters(ChapterRows(titleAnswer.id, d.chapters))]
             + if chaptersOk then [Toast(SuccessToast), NavigateHome] else [Toast(FailureToast)];
      [SetBusy(true), InsertManhwa(TitleRow(d))] + outcome + [SetBusy(false)]
  }

  /** An empty title or author stops the submit before any insert; nothing is trimmed. */
  lemma SubmitRejectsEmptyFields(d: Draft, titleAnswer: InsertAnswer, chaptersOk: bool)
    requires d.title == "" || d.author == ""
    ensures SubmitEffects(d, titleAnswer, chaptersOk) == [Toast(ValidationToast)]
    ensures NoInsert(SubmitEffects(d, titleAnswer, chaptersOk))
  {
  }

  /**
   * A valid submit inserts the title first, while busy; the chapters follow
   * as one batch only after the title insert succeeded and only if there are
   * chapters, with rows made from the drafts; the page navigates home only
   * when every insert it made succeeded.
   */
  lemma SubmitOrder(d: Draft, titleAnswer: InsertAnswer, chaptersOk: bool)
    requires d.title != "" && d.author != ""
    ensures var e := SubmitEffects(d, titleAnswer, chaptersOk);
      BusyAcross(e) && e[1] == InsertManhwa(TitleRow(d))
      && (forall k :: 0 <= k < |e| && k != 1 ==> !e[k].InsertManhwa?)
      && ((exists k :: 0 <= k < |e| && e[k].InsertChapters?) <==> titleAnswer.Inserted? && |d.chapters| > 0)
      && (forall k :: 0 <= k < |e| && e[k].InsertChapters? ==>
            k == 2 && e[k].rows == ChapterRows(titleAnswer.id, d.chapters))
      && (NavigateHome in e <==> titleAnswer.Inserted? && (|d.chapters| == 0 || chaptersOk))
  {
    var e := SubmitEffects(d, titleAnswer, chaptersOk);
    if titleAnswer.Inserted? && |d.chapters| > 0 {
      assert e[2].InsertChapters?;
    }
  }

  /** Two chapters added and submitted: both rows point at the new title and are numbered 1 and 2. */
  lemma TwoChapterSubmitExample(id: string)
    ensures var d := Draft("Shadow Realm", "Kim Hana", "", "", Ongoing, 4.8, ["Fantasy", "Action"],
                           ApplyEdits([], [Add, Add]));
      var e := SubmitEffects(d, Inserted(id), true);
      e[2].InsertChapters? && |e[2].rows| == 2
      && e[2].rows[0].manhwaId == id && e[2].rows[1].manhwaId == id
      && e[2].rows[0].chapterNumber == 1 && e[2].rows[1].chapterNumber == 2
  {
  }

  /** The page's state hooks. */
  class AddManhwa {
    var title: string
    var author: string
    var description: string
    var coverImage: string
    var status: Status
    var rating: real
    var genres: seq<string>
    var newGenre: string
    var chapters: seq<DraftChapter>
    var isSubmitting: bool

    constructor ()
      ensures title == "" && author == "" && description == "" && coverImage == ""
      ensures status == Ongoing && rating == 0.0 && genres == [] && newGenre == ""
      ensures chapters == [] && !isSubmitting
      ensures Valid()
    {
      title, author, description, coverImage := "", "", "", "";
      status, rating := Ongoing, 0.0;
      genres, newGenre := [], "";
      chapters, isSubmitting := [], false;
    }

    /** The genre list never holds a tag twice: every genre operation keeps this. */
    ghost predicate Valid()
      reads this
    {
      NoDuplicates(genres)
    }

    function Snapshot(): Draft
      reads this
    {
      Draft(title, author, description, coverImage, status, rating, genres, chapters)
    }

    /**
     * A genre from the list or the custom field is appended when non-empty
     * (not trimmed) and absent; only then is the custom field cleared.
     */
    method AddGenre(genre: string)
      modifies this`genres, this`newGenre
      requires Valid()
      ensures Valid()
      ensures genres == if genre != "" then AddIfAbsent(old(genres), genre) else old(genres)
      ensures newGenre == if genre != "" && genre !in old(genres) then "" else old(newGenre)
      ensures NoDuplicates(old(genres)) ==> NoDuplicates(genres)
    {
      if genre != "" && genre !in genres {
        genres := genres + [genre];
        newGenre := "";
      }
    }

    method RemoveGenre(genre: string)
      modifies this`genres
      requires Valid()
      ensures Valid()
      ensures genres == Without(old(genres), genre)
    {
      genres := Without(genres, genre);
    }

    method AddChapter()
      modifies this`chapters
      ensures chapters == AppendChapter(old(chapters))
    {
      chapters := chapters + [NewChapter(|chapters| + 1)];
    }

    method UpdateChapterField(index: int, field: ChapterField)
      requires 0 <= index < |chapters|
      modifies this`chapters
      ensures chapters == UpdateChapter(old(chapters), index, field)
    {
      chapters := UpdateChapter(chapters, index, field);
    }

    method RemoveChapterAt(index: int)
      modifies this`chapters
      ensures chapters == RemoveChapter(old(chapters), index)
    {
      chapters := Renumbered(WithoutIndex(chapters, index));
    }

    /** `url` is what the URL prompt returned: `None` when it was cancelled. */
    method AddPageToChapter(index: int, url: Option<string>)
      requires 0 <= index < |chapters|
      modifies this`chapters
      ensures chapters == AddPage(old(chapters), index, url)
    {
      if url.Some? && url.value != "" {
        var c := chapters[index];
        chapters := chapters[index := c.(pages := c.pages + [url.value])];
      }
    }

    method RemovePageFromChapter(index: int, page: nat)
      requires 0 <= index < |chapters|
      modifies this`chapters
      ensures chapters == RemovePage(old(chapters), index, page)
    {
      var c := chapters[index];
      chapters := chapters[index := c.(pages := RemovePageAt(c.pages, page))];
    }

    /**
     * `handleSubmit`. The draft is left as it was whatever the outcome; the
     * busy flag ends lowered once it has been raised.
     */
    method HandleSubmit(titleAnswer: InsertAnswer, chaptersOk: bool) returns (effects: seq<Effect>)
      modifies this`isSubmitting
      ensures effects == SubmitEffects(old(Snapshot()), titleAnswer, chaptersOk)
      ensures isSubmitting == if title == "" || author == "" then old(isSubmitting) else false
    {
      if title == "" || author == "" {
        effects := [Toast(ValidationToast)];
        return;
      }
      isSubmitting := true;
      effects := [SetBusy(true), InsertManhwa(TitleRow(Snapshot()))];
      match titleAnswer {
        case InsertFailed =>
          effects := effects + [Toast(FailureToast)];
        case Inserted(id) =>
          if |chapters| > 0 {
            effects := effects + [InsertChapters(ChapterRows(id, chapters))];
          }
          if |chapters| > 0 && !chaptersOk {
            effects := effects + [Toast(FailureToast)];
          } else {
            effects := effects + [Toast(SuccessToast), NavigateHome];
          }
      }
      isSubmitting := false;
      effects := effects + [SetBusy(false)];
    }
  }
}
