/**
 * The records the app reads from and writes to its hosted table store
 * (`manhwa` and `chapters` tables), the rows its forms insert, the store's
 * answers, and the observable effects a submit handler produces.
 */
module Catalog {
  import opened Wrappers

  datatype Status = Ongoing | Completed

  /** A row of the `manhwa` table; timestamps are left to the store. */
  datatype Manhwa = Manhwa(
    id: string,
    title: string,
    author: string,
    description: Option<string>,
    coverImage: Option<string>,
    genre: seq<string>,
    status: Status,
    rating: real)

  /** A row of the `chapters` table; timestamps and publish date are left to the store. */
  datatype Chapter = Chapter(
    id: string,
    manhwaId: string,
    title: string,
    chapterNumber: int,
    pages: seq<string>)

  /**
   * The rating sent with an insert: a number already held by the form, or the
   * result of `parseFloat` on the text the user typed (floating-point parsing
   * is kept abstract).
   */
  datatype RatingValue = Number(value: real) | ParsedFrom(text: string)

  /** The object passed to `insert` on the `manhwa` table. */
  datatype ManhwaRow = ManhwaRow(
    title: string,
    author: string,
    description: Option<string>,
    coverImage: Option<string>,
    genre: seq<string>,
    status: Status,
    rating: RatingValue)

  /** One element of the array passed to `insert` on the `chapters` table. */
  datatype ChapterRow = ChapterRow(
    manhwaId: string,
    title: string,
    chapterNumber: int,
    pages: seq<string>)

  /** What the store answers to a title insert: the new row's id, or an error. */
  datatype InsertAnswer = Inserted(id: string) | InsertFailed

  datatype ToastKind = ValidationToast | SuccessToast | FailureToast

  /**
   * The observable steps of a submit handler, in the order it takes them:
   * busy-flag updates, store inserts, toasts, navigation, closing a dialog and
   * the caller's callback.
   */
  datatype Effect =
    | SetBusy(on: bool)
    | InsertManhwa(row: ManhwaRow)
    | InsertChapters(rows: seq<ChapterRow>)
    | Toast(kind: ToastKind)
    | NavigateHome
    | CloseDialog
    | NotifyCaller

  predicate IsInsert(e: Effect)
  {
    e.InsertManhwa? || e.InsertChapters?
  }

  /** No store write happens in the log. */
  predicate NoInsert(effects: seq<Effect>)
  {
    forall k :: 0 <= k < |effects| ==> !IsInsert(effects[k])
  }

  /**
   * The busy flag is raised first, lowered last, and not touched in between,
   * so every store call in the log happens while it is raised.
   */
  predicate BusyAcross(effects: seq<Effect>)
  {
    |effects| >= 2 && effects[0] == SetBusy(true) && effects[|effects| - 1] == SetBusy(false)
    && forall k :: 0 < k < |effects| - 1 ==> !effects[k].SetBusy?
  }
}
