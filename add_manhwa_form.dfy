/**
 * The embeddable "Add New Manhwa" form: required fields checked as typed
 * (no trimming), one title insert, and the caller's `onSuccess` on success.
 */
module AddManhwaForm {
  import opened Wrappers
  import opened Sequences
  import opened Catalog
  import opened GenreList

  /** The form's fields at the moment of submitting. */
  datatype Fields = Fields(
    title: string,
    author: string,
    description: string,
    coverImage: string,
    status: Status,
    rating: real,
    genres: seq<string>)

  /** The insert row: every field passed through as it stands. */
  function FormRow(f: Fields): (row: ManhwaRow)
    ensures row.title == f.title && row.author == f.author
    ensures row.description == Some(f.description) && row.coverImage == Some(f.coverImage)
    ensures row.genre == f.genres && row.status == f.status && row.rating == Number(f.rating)
  {
    ManhwaRow(f.title, f.author, Some(f.description), Some(f.coverImage), f.genres, f.status, Number(f.rating))
  }

  /** `handleSubmit`'s effects, given whether the store accepts the insert. */
  function SubmitEffects(f: Fields, insertOk: bool): seq<Effect>
  {
    if f.title == "" || f.author == "" then [Toast(ValidationToast)]
    else
      [SetBusy(true), InsertManhwa(FormRow(f))]
      + (if insertOk then [Toast(SuccessToast), NotifyCaller] else [Toast(FailureToast)])
      + [SetBusy(false)]
  }

  /**
   * Only an empty title or author stops the submit; otherwise one insert
   * happens while busy, and `onSuccess` is called exactly when the store
   * accepted it, an error toast shown otherwise.
   */
  lemma SubmitOutcomes(f: Fields, insertOk: bool)
    ensures f.title == "" || f.author == "" ==> SubmitEffects(f, insertOk) == [Toast(ValidationToast)]
    ensures f.title != "" && f.author != "" ==>
      var e := SubmitEffects(f, insertOk);
      BusyAcross(e) && e[1] == InsertManhwa(FormRow(f))
      && (forall k :: 0 <= k < |e| && k != 1 ==> !IsInsert(e[k]))
      && (NotifyCaller in e <==> insertOk) && (Toast(FailureToast) in e <==> !insertOk)
  {
  }

  /** White space counts as content: a title of one space is sent to the store. */
  lemma BlankTitleIsSent(f: Fields, insertOk: bool)
    requires f.title == " " && f.author != ""
    ensures InsertManhwa(FormRow(f)) in SubmitEffects(f, insertOk)
  {
  }

  class Form {
    var title: string
    var author: string
    var description: string
    var coverImage: string
    var status: Status
    var rating: real
    var genres: seq<string>
    var newGenre: string
    var isSubmitting: bool

    constructor ()
      ensures title == "" && author == "" && description == "" && coverImage == ""
      ensures status == Ongoing && rating == 0.0 && genres == [] && newGenre == "" && !isSubmitting
      ensures Valid()
    {
      title, author, description, coverImage := "", "", "", "";
      status, rating := Ongoing, 0.0;
      genres, newGenre := [], "";
      isSubmitting := false;
    }

    /** The genre list never holds a tag twice: every genre operation keeps this. */
    ghost predicate Valid()
      reads this
    {
      NoDuplicates(genres)
    }

    function Snapshot(): Fields
      reads this
    {
      Fields(title, author, description, coverImage, status, rating, genres)
    }

    /** Appends a non-empty tag not yet present and then clears the custom field. */
    method AddGenre(genre: string)
      modifies this`genres, this`newGenre
      requires Valid()
      ensures Valid()
      ensures genres == if genre != "" then AddIfAbsent(old(genres), genre) else old(genres)
      ensures newGenre == if genre != "" && genre !in old(genres) then "" else old(newGenre)
      ensures NoDuplicates(old(genres)) ==> NoDuplicates(genres)
    {
      if genre != "" && genre !in genres {
        genres := genres + [genre];
        newGenre := "";
      }
    }

    method RemoveGenre(genre: string)
      modifies this`genres
      requires Valid()
      ensures Valid()
      ensures genres == Without(old(genres), genre)
    {
      genres := Without(genres, genre);
    }

    /** `handleSubmit`: the fields are never reset; the busy flag ends lowered once raised. */
    method HandleSubmit(insertOk: bool) returns (effects: seq<Effect>)
      modifies this`isSubmitting
      ensures effects == SubmitEffects(old(Snapshot()), insertOk)
      ensures isSubmitting == if title == "" || author == "" then old(isSubmitting) else false
    {
      if title == "" || author == "" {
        effects := [Toast(ValidationToast)];
        return;
      }
      isSubmitting := true;
      effects := [SetBusy(true), InsertManhwa(FormRow(Snapshot()))];
      if insertOk {
        effects := effects + [Toast(SuccessToast), NotifyCaller];
      } else {
        effects := effects + [Toast(FailureToast)];
      }
      isSubmitting := false;
      effects := effects + [SetBusy(false)];
    }
  }
}
