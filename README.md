# Manhwa catalog and reader: a Dafny model

This project models the logic of a small web app for browsing and reading
serialized illustrated fiction ("manhwa"). The app lists titles, filters them,
shows a chapter page by page, and lets users enter new titles and chapters
into a hosted table store. The logic lives inside React component bodies. Here
each component's state becomes plain Dafny state, and each event handler
becomes one atomic transition.

- `catalog.dfy` (`Catalog`): the `manhwa` and `chapters` records, the rows the
  forms insert, the store's answer to an insert, and the `Effect` log. The log
  records what a submit handler does, in order: busy flag, inserts, toasts,
  navigation, closing the dialog, calling the caller's callback.
- `catalog_filter.dfy` (`CatalogFilter`, from `src/pages/Index.tsx`): search
  and genre filter, the de-duplicated genre buttons, and the genre-button click.
- `chapter_reader.dfy` (`ChapterReader`, from `src/pages/ChapterReader.tsx`):
  the `Reader` class holds the page index, the loaded chapter, the title, the
  sibling chapters, and the loading and error flags. Pure functions give page
  turning, adjacent-chapter lookup and what the page renders.
  `NextChapterKeepsPageIndex` is a scenario: opening a shorter next chapter from
  the last page of a longer one leaves the index past the new chapter's end, and
  `PastLastPage` states what the page then shows, for every such index.
- `add_manhwa_page.dfy` (`AddManhwaPage`, from `src/pages/AddManhwa.tsx`): the
  `AddManhwa` class with its genre list and draft chapters. Pure functions give
  each list edit, the chapter rows and the submit log.
- `add_manhwa_dialog.dfy` (`AddManhwaDialog`, from
  `src/components/AddManhwaDialog.tsx`): the `Dialog` class. It trims on submit,
  toggles predefined genres, adds a custom genre, and resets every field on success.
- `add_manhwa_form.dfy` (`AddManhwaForm`, from `src/components/AddManhwaForm.tsx`):
  the `Form` class. It does not trim, and calls `onSuccess` only on success.
- Support modules: `genre_list.dfy` (the genre-list operations the three forms
  share), `text.dfy` (`toLowerCase`, `includes`, `trim`), `sequences.dfy`
  (sub-lists, duplicate-freedom, `Array.from(new Set(...))`), `wrappers.dfy` (`Option`).

The store is never called. Each submit or load method takes the store's answers
as parameters and returns (or applies) what the component does with them.

Where the behaviour described for the app and the code differ, the model
follows the code:
- Loading a chapter does not reset the page index.
- Jumping to a chapter does not check that it is a sibling.
- `AddManhwa.tsx`'s `addGenre` does not trim.
- Submit gives a chapter no default title.
- `AddManhwa.tsx` does not clear its draft after submitting.
- An empty `selectedGenre` string is falsy, so it disables the genre filter.
- A later successful load does not clear an earlier load error.

## Model

| member | source | states |
|---|---|---|
| Text.LowerChar | src/pages/Index.tsx:17-18 | the lower-cased character is never an upper-case ASCII letter; it is the input or the input's lower-case letter |
| Text.Lower | src/pages/Index.tsx:17-18 | `toLowerCase` keeps the length; each character stays or becomes its lower-case letter, and no upper-case ASCII letter is left |
| Text.LowerIdempotent | src/pages/Index.tsx:17-18 | lower-casing twice equals lower-casing once |
| Text.IncludesIffOccurs | src/pages/Index.tsx:17-18 | `includes` holds exactly when the needle occurs at some position of the string |
| Text.Includes | src/pages/Index.tsx:17-18 | `includes`; its meaning (the needle occurs at some position) is stated by `IncludesIffOccurs` |
| Text.IncludesEmpty | src/pages/Index.tsx:17-18 | every string includes the empty string |
| Text.TrimStartSpec | src/components/AddManhwaDialog.tsx:47 | leading trim keeps a suffix that does not start with white space, and cuts only white space |
| Text.TrimEndSpec | src/components/AddManhwaDialog.tsx:47 | trailing trim keeps a prefix that does not end with white space, and cuts only white space |
| Text.Trim | src/components/AddManhwaDialog.tsx:55 | `trim`; what it keeps and cuts is stated by `TrimSpec`, `TrimBlankIff` and `TrimIdempotent` |
| Text.TrimSpec | src/components/AddManhwaDialog.tsx:55 | `trim` returns a contiguous piece of the input with no white space at either end, and everything cut off before and after it is white space |
| Text.TrimBlankIff | src/components/AddManhwaDialog.tsx:55 | `!s.trim()` holds exactly when every character is white space |
| Text.TrimIdempotent | src/components/AddManhwaDialog.tsx:47-48 | trimming twice equals trimming once |
| Sequences.Dedup | src/pages/Index.tsx:14 | `Array.from(new Set(s))` has no duplicates and holds exactly the elements of `s` |
| Sequences.DedupFirstAppearanceOrder | src/pages/Index.tsx:14 | de-duplicated elements keep the order of their first appearance |
| GenreList.AddIfAbsent | src/components/AddManhwaDialog.tsx:36-40 | the tag is present afterwards; nothing changes if it was present, else it is appended; duplicate-freedom is kept |
| GenreList.Without | src/pages/AddManhwa.tsx:47-49 | the tag is gone, every other tag stays in its order, duplicate-freedom is kept |
| GenreList.WithoutAbsent | src/components/AddManhwaDialog.tsx:42-44 | removing an absent tag changes nothing |
| GenreList.AddIdempotent | src/pages/AddManhwa.tsx:40-45 | a second add of the same tag is a no-op |
| GenreList.AddThenRemove | src/components/AddManhwaDialog.tsx:36-44 | removing a freshly added tag restores the list |
| GenreList.Toggle | src/components/AddManhwaDialog.tsx:203 | an absent tag is appended at the end; a present tag is filtered out with the other tags kept in order; the tag's presence flips, no other tag's presence changes, and duplicate-freedom is kept |
| GenreList.ToggleTwiceFromAbsent | src/components/AddManhwaDialog.tsx:203 | two clicks on an unselected predefined genre restore the list |
| CatalogFilter.MatchesSearch | src/pages/Index.tsx:17-18 | title or author includes the query, both lower-cased; stated for every entry by `FilterMembership` and `SearchIgnoresQueryCase` |
| CatalogFilter.MatchesGenre | src/pages/Index.tsx:19 | `!selectedGenre` or the genre is listed; stated by `FilterMembership` and `GenreIsExact` |
| CatalogFilter.Filter | src/pages/Index.tsx:16-21 | the result is an order-preserving sub-list of the library, and every shown entry matches |
| CatalogFilter.FilterMembership | src/pages/Index.tsx:16-21 | an entry is shown iff it is in the library and (title or author includes the query case-insensitively) and (no genre, or the genre is listed) |
| CatalogFilter.FilterKeepsCopies | src/pages/Index.tsx:16-21 | a matching entry appears in the result as many times as in the library, a non-matching one never |
| CatalogFilter.FilterEmptyQueryKeepsAll | src/pages/Index.tsx:17-19 | an empty query with no genre shows the whole library |
| CatalogFilter.GenreNarrows | src/pages/Index.tsx:19-20 | a genre selection shows a sub-list of what the same query shows without it |
| CatalogFilter.GenreIsExact | src/pages/Index.tsx:19 | a non-empty genre matches only by exact membership in the entry's tags |
| CatalogFilter.SearchIgnoresQueryCase | src/pages/Index.tsx:17-18 | the query's letter case does not change the search |
| CatalogFilter.Genres | src/pages/Index.tsx:14 | `flatMap` holds exactly the tags used by some entry |
| CatalogFilter.AllGenres | src/pages/Index.tsx:14 | the genre buttons have no duplicates and are exactly the tags some entry uses |
| CatalogFilter.GenreButtonsInFirstAppearanceOrder | src/pages/Index.tsx:14 | the genre buttons follow first-appearance order in the library |
| CatalogFilter.ClickGenre | src/pages/Index.tsx:94-103 | clicking the selected genre clears the selection; clicking another selects it |
| CatalogFilter.ClickTwiceClears | src/pages/Index.tsx:103 | two clicks on a genre that was not selected return to "All" |
| CatalogFilter.ClickNeverWidens | src/pages/Index.tsx:103 | a genre click never shows more than "All" with the same query |
| CatalogFilter.SearchByAuthorExample | src/pages/Index.tsx:17-18 | the query "kim" finds "Shadow Realm Chronicles" through its author "Kim Hana" |
| ChapterReader.NextPageIndex | src/pages/ChapterReader.tsx:69-73 | next page moves by exactly one iff a chapter is loaded and a later page exists, else stays; it keeps the bounds |
| ChapterReader.PrevPageIndex | src/pages/ChapterReader.tsx:75-79 | previous page moves back by exactly one iff the index is positive, else stays; it keeps the bounds |
| ChapterReader.TurningStaysInBounds | src/pages/ChapterReader.tsx:69-79 | from index 0, or any in-bounds index, every series of page turns stays within 0..max(0, P-1) |
| ChapterReader.FirstNumbered | src/pages/ChapterReader.tsx:66-67 | `find` returns the first position with the wanted number, or none iff no chapter has that number |
| ChapterReader.AdjacentChapters | src/pages/ChapterReader.tsx:66-67 | next/previous chapter is a sibling numbered exactly current+1 / current-1, and absent iff no sibling has that number |
| ChapterReader.NextChapter | src/pages/ChapterReader.tsx:66 | the next-chapter link; `AdjacentChapters` states it is the sibling numbered current+1, absent iff none exists |
| ChapterReader.PrevChapter | src/pages/ChapterReader.tsx:67 | the previous-chapter link; `AdjacentChapters` states it is the sibling numbered current-1, absent iff none exists |
| ChapterReader.GapIsNotBridged | src/pages/ChapterReader.tsx:66-67 | in chapters 1, 2, 3, 5, chapter 3's previous is chapter 2 and it has no next |
| ChapterReader.Render | src/pages/ChapterReader.tsx:81-116 | the loading screen shows iff loading; with no error, a loaded title and a chapter with pages, the page screen shows `pages[currentPage]` (undefined out of range) and the adjacent-chapter links, and only then; "No pages available" iff the loaded chapter has none; for any index, previous is disabled iff on page 0, next iff on the last page, and "Chapter Complete!" iff next is disabled |
| ChapterReader.ControlsMatchPageTurns | src/pages/ChapterReader.tsx:215-235 | in bounds, an image shows, each button is disabled iff pressing it is a no-op, and "Chapter Complete!" shows iff next is disabled |
| ChapterReader.PastLastPage | src/pages/ChapterReader.tsx:202-235 | past the last page (reachable, since loading keeps the index) no image shows, next stays enabled, no "Chapter Complete!", and pressing next does nothing |
| ChapterReader.Reader.constructor | src/pages/ChapterReader.tsx:11-16 | the reader starts at page 0, loading, with nothing loaded |
| ChapterReader.Reader.GoToNextPage | src/pages/ChapterReader.tsx:69-73 | the index becomes the next-page index and stays in bounds |
| ChapterReader.Reader.GoToPrevPage | src/pages/ChapterReader.tsx:75-79 | the index becomes the previous-page index and stays in bounds |
| ChapterReader.Reader.Load | src/pages/ChapterReader.tsx:18-64 | missing route parameters change nothing; else all three reads succeed and are stored, or the error is set; the page index is never touched |
| AddManhwaPage.Decimal | src/pages/AddManhwa.tsx:53 | a number prints as one or more decimal digits, with a leading zero only for 0 itself |
| AddManhwaPage.DecimalRoundTrip | src/pages/AddManhwa.tsx:53 | the printed digits read back to the number |
| AddManhwaPage.NewChapter | src/pages/AddManhwa.tsx:52-56 | the new chapter has number n, no pages, and the title "Chapter " followed by canonical digits (no leading zero unless n is 0) that read back to n |
| AddManhwaPage.DefaultTitlesDiffer | src/pages/AddManhwa.tsx:53 | different positions get different default chapter titles |
| AddManhwaPage.AppendChapter | src/pages/AddManhwa.tsx:51-58 | one chapter is appended with number old length + 1, title "Chapter {old length + 1}" and no pages; earlier chapters are unchanged; numbering 1..n is kept |
| AddManhwaPage.WithoutIndex | src/pages/AddManhwa.tsx:67 | the list loses exactly the chapter at the index, the rest keep their order; an index outside the list removes nothing |
| AddManhwaPage.Renumbered | src/pages/AddManhwa.tsx:69-72 | numbers become 1..n; titles and pages are kept |
| AddManhwaPage.RemoveChapter | src/pages/AddManhwa.tsx:66-74 | `removeChapter`; its result is stated by `RemoveChapterSpec` |
| AddManhwaPage.RemoveChapterSpec | src/pages/AddManhwa.tsx:66-74 | removal drops one chapter and renumbers the rest 1..n, discarding hand-typed numbers |
| AddManhwaPage.UpdateChapter | src/pages/AddManhwa.tsx:60-64 | only the named field of the chosen chapter changes |
| AddManhwaPage.AddPage | src/pages/AddManhwa.tsx:76-83 | a non-empty prompted URL is appended to that chapter's pages; nothing else changes |
| AddManhwaPage.RemovePageAt | src/pages/AddManhwa.tsx:87 | `splice(p, 1)` removes exactly page p and keeps the rest in order |
| AddManhwaPage.RemovePage | src/pages/AddManhwa.tsx:85-89 | only the chosen chapter's pages change |
| AddManhwaPage.EditsKeepNumbering | src/pages/AddManhwa.tsx:51-74 | any series of add/remove edits keeps the numbers exactly 1..n |
| AddManhwaPage.TitleRow | src/pages/AddManhwa.tsx:109-117 | every draft field goes into the title row unchanged and untrimmed |
| AddManhwaPage.ChapterRows | src/pages/AddManhwa.tsx:125-130 | one row per draft chapter, each carrying the new title's id |
| AddManhwaPage.ChapterRowsCarryDrafts | src/pages/AddManhwa.tsx:125-130 | row k carries draft k's title, number and pages unchanged; numbered drafts give rows numbered 1..n |
| AddManhwaPage.SubmitEffects | src/pages/AddManhwa.tsx:91-155 | the submit log; stated by `SubmitRejectsEmptyFields`, `SubmitOrder` and `TwoChapterSubmitExample` |
| AddManhwaPage.SubmitRejectsEmptyFields | src/pages/AddManhwa.tsx:94-101 | an empty title or author gives only the validation toast and no insert; there is no trim |
| AddManhwaPage.SubmitOrder | src/pages/AddManhwa.tsx:103-154 | the title insert comes first while busy; chapters are batch-inserted iff the title insert succeeded and chapters exist; navigation home iff every insert succeeded |
| AddManhwaPage.TwoChapterSubmitExample | src/pages/AddManhwa.tsx:124-134 | two added chapters submit as two rows with the new id, numbered 1 and 2 |
| AddManhwaPage.AddManhwa.constructor | src/pages/AddManhwa.tsx:21-30 | empty fields, "ongoing", rating 0, no genres, no chapters, not submitting; `Valid` holds |
| AddManhwaPage.AddManhwa.AddGenre | src/pages/AddManhwa.tsx:40-45 | a non-empty absent tag is appended and the custom field cleared; otherwise nothing changes; the class invariant `Valid` (no duplicate genre) is kept |
| AddManhwaPage.AddManhwa.RemoveGenre | src/pages/AddManhwa.tsx:47-49 | the genre list becomes the filtered list; the class invariant `Valid` (no duplicate genre) is kept |
| AddManhwaPage.AddManhwa.AddChapter | src/pages/AddManhwa.tsx:51-58 | the chapters become the appended list |
| AddManhwaPage.AddManhwa.UpdateChapterField | src/pages/AddManhwa.tsx:60-64 | the chapters become the field-updated list |
| AddManhwaPage.AddManhwa.RemoveChapterAt | src/pages/AddManhwa.tsx:66-74 | the chapters become the renumbered list without that chapter |
| AddManhwaPage.AddManhwa.AddPageToChapter | src/pages/AddManhwa.tsx:76-83 | the chapters gain the prompted page as AddPage says |
| AddManhwaPage.AddManhwa.RemovePageFromChapter | src/pages/AddManhwa.tsx:85-89 | the chapters lose the page as RemovePage says |
| AddManhwaPage.AddManhwa.HandleSubmit | src/pages/AddManhwa.tsx:91-155 | the returned log is the submit log of the draft; the draft is untouched; the busy flag ends lowered once raised |
| AddManhwaDialog.AddCustom | src/components/AddManhwaDialog.tsx:46-51 | the trimmed input is appended iff it is non-blank and absent; duplicate-freedom is kept |
| AddManhwaDialog.CustomTagIsTrimmed | src/components/AddManhwaDialog.tsx:46-51 | a custom tag that is added is non-empty and has no surrounding white space |
| AddManhwaDialog.BlankToNull | src/components/AddManhwaDialog.tsx:71-72 | `s.trim() \|\| null`; stated by `BlankToNullSpec` |
| AddManhwaDialog.BlankToNullSpec | src/components/AddManhwaDialog.tsx:71-72 | description and cover become null iff all white space, else the input trimmed, which is non-empty and has no surrounding white space |
| AddManhwaDialog.DialogRow | src/components/AddManhwaDialog.tsx:68-76 | the row holds the trimmed title and author, `s.trim() \|\| null` of description and cover, the genres and status as they are, and the rating parsed unless empty (0 then) |
| AddManhwaDialog.DialogRowFieldsTrimmed | src/components/AddManhwaDialog.tsx:68-70 | a row that passes validation has a non-empty, already trimmed title and author |
| AddManhwaDialog.SubmitEffects | src/components/AddManhwaDialog.tsx:53-107 | the submit log; stated by `SubmitOutcomes` |
| AddManhwaDialog.SubmitOutcomes | src/components/AddManhwaDialog.tsx:53-107 | blank title or author means no insert; else exactly one insert while busy, and close plus callback iff the store accepted it |
| AddManhwaDialog.Dialog.constructor | src/components/AddManhwaDialog.tsx:23-32 | closed, not loading, every field at its default; `Valid` holds |
| AddManhwaDialog.Dialog.AddGenre | src/components/AddManhwaDialog.tsx:36-40 | an absent tag is appended with no emptiness check; the class invariant `Valid` (no duplicate genre) is kept |
| AddManhwaDialog.Dialog.RemoveGenre | src/components/AddManhwaDialog.tsx:42-44 | the genre list becomes the filtered list; the class invariant `Valid` (no duplicate genre) is kept |
| AddManhwaDialog.Dialog.AddCustomGenre | src/components/AddManhwaDialog.tsx:46-51 | genres become AddCustom of the custom field, which is cleared only when a tag was added; the class invariant `Valid` (no duplicate genre) is kept |
| AddManhwaDialog.Dialog.ClickPredefinedGenre | src/components/AddManhwaDialog.tsx:203 | the predefined click toggles the tag; the class invariant `Valid` (no duplicate genre) is kept |
| AddManhwaDialog.Dialog.HandleSubmit | src/components/AddManhwaDialog.tsx:53-107 | the log is the dialog's submit log; success resets every field and closes; validation failure or store error leaves every field as it was; `Valid` is kept |
| AddManhwaForm.FormRow | src/components/AddManhwaForm.tsx:62-72 | title, author, description, cover, genres, status and rating pass through unchanged |
| AddManhwaForm.SubmitEffects | src/components/AddManhwaForm.tsx:47-92 | the submit log; stated by `SubmitOutcomes` and `BlankTitleIsSent` |
| AddManhwaForm.SubmitOutcomes | src/components/AddManhwaForm.tsx:47-92 | an empty title or author means only the validation toast; else one insert while busy, `onSuccess` iff accepted, error toast iff not |
| AddManhwaForm.BlankTitleIsSent | src/components/AddManhwaForm.tsx:50 | a title of white space passes validation and is inserted |
| AddManhwaForm.Form.constructor | src/components/AddManhwaForm.tsx:19-27 | empty fields, "ongoing", rating 0, no genres, not submitting; `Valid` holds |
| AddManhwaForm.Form.AddGenre | src/components/AddManhwaForm.tsx:36-41 | a non-empty absent tag is appended and the custom field cleared; otherwise nothing changes; the class invariant `Valid` (no duplicate genre) is kept |
| AddManhwaForm.Form.RemoveGenre | src/components/AddManhwaForm.tsx:43-45 | the genre list becomes the filtered list; the class invariant `Valid` (no duplicate genre) is kept |
| AddManhwaForm.Form.HandleSubmit | src/components/AddManhwaForm.tsx:47-92 | the log is the form's submit log; fields are never reset; the busy flag ends lowered once raised |

## Left out

- Store calls (`supabase.from(...)`): network I/O. Each call is replaced by the answer it would give, passed as a parameter. Ordering and atomicity are not modelled beyond the order of the effect log.
- `Reader.Load` records which reads succeeded, not which reads were issued. After the first failure the source stops reading; the model only keeps the state that results.
- Case-insensitive search maps only ASCII letters. Unicode case mapping in `toLowerCase` is not modelled.
- `trim` strips the ECMAScript white-space and line-terminator code points. No other Unicode handling is modelled.
- `parseFloat` for the rating is floating point. A rating is either a number the form already holds or the text handed to `parseFloat`.
- `parseInt` in the chapter-number field can give `NaN`. `NumberField` carries an integer only, and chapter numbers are integers.
- `prompt()` for a page URL is a parameter. `None` stands for a cancelled prompt.
- Toast text, `console.error`, JSX rendering, the page label "Page n of P", and React's batching and stale closures are not modelled. Each handler is one atomic transition, and a toast is only its kind in the log.
- `NotifyCaller` in the dialog's effect log stands for `onManhwaAdded?.()`, which does nothing when the optional prop is absent; whether the prop was passed is not modelled.
- Field `onChange` setters are plain field assignments, so they have no methods.
- `AddManhwa.UpdateChapterField`, `AddPageToChapter` and `RemovePageFromChapter` require an index inside the chapter list. The page only passes indices of chapters it renders. `RemovePageFromChapter` takes a non-negative page index, so `splice` with a negative start is not modelled.
- The page mutates a chapter's `pages` array in place with `push`/`splice` after a shallow copy of the list. The model replaces the chapter value. The old list is discarded, so the shared array is not observable.
- src/pages/ManhwaDetail.tsx, src/components/ManhwaCard.tsx and the fetch hooks in src/hooks/useManhwa.ts are not part of this model. They are fetching and presentation. The hooks' record types are used as `Catalog.Manhwa` and `Catalog.Chapter`.
- src/data/manhwa.ts is the library the home page filters. Only its first entry is used, as a concrete search example.
