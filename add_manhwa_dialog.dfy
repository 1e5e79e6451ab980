/**
 * The "Add Manhwa" dialog: a title form whose text fields are trimmed on
 * submit, with predefined genre toggles and a custom-genre field.
 */
module AddManhwaDialog {
  import opened Wrappers
  import opened Text
  import opened Sequences
  import opened Catalog
  import opened GenreList

  /**
   * `addCustomGenre` on the genre list: the trimmed input is appended when it
   * is not blank and not already present.
   */
  function AddCustom(genres: seq<string>, input: string): (r: seq<string>)
    ensures r == genres || r == genres + [Trim(input)]
    ensures r != genres <==> Trim(input) != "" && Trim(input) !in genres
    ensures NoDuplicates(genres) ==> NoDuplicates(r)
  {
    var tag := Trim(input);
    if tag != "" && tag !in genres then genres + [tag] else genres
  }

  /** A tag the custom field adds is never blank and carries no surrounding white space. */
  lemma CustomTagIsTrimmed(genres: seq<string>, input: string)
    requires AddCustom(genres, input) != genres
    ensures var tag := AddCustom(genres, input)[|genres|];
      tag != "" && Trim(tag) == tag
  {
    TrimIdempotent(input);
  }

  /** `s.trim() || null` */
  function BlankToNull(s: string): Option<string>
  {
    if Trim(s) == "" then None else Some(Trim(s))
  }

  /** Blank text becomes null; any other text is sent trimmed and non-empty. */
  lemma BlankToNullSpec(s: string)
    ensures BlankToNull(s).None? <==> forall k :: 0 <= k < |s| ==> IsWhiteSpace(s[k])
    ensures BlankToNull(s).Some? ==> BlankToNull(s).value != "" && Trim(BlankToNull(s).value) == BlankToNull(s).value
    ensures BlankToNull(s).Some? ==> BlankToNull(s).value == Trim(s)
  {
    TrimBlankIff(s);
    TrimIdempotent(s);
  }

  /** The dialog's fields at the moment of submitting. */
  datatype Fields = Fields(
    title: string,
    author: string,
    description: string,
    coverImage: string,
    status: Status,
    rating: string,
    genres: seq<string>)

  /** Title or author is blank after trimming. */
  predicate MissingRequired(f: Fields)
  {
    Trim(f.title) == "" || Trim(f.author) == ""
  }

  /** The insert row: trimmed title and author, blank optional texts as null, rating parsed unless empty. */
  function DialogRow(f: Fields): (row: ManhwaRow)
    ensures row.title == Trim(f.title) && row.author == Trim(f.author)
    ensures row.description == BlankToNull(f.description) && row.coverImage == BlankToNull(f.coverImage)
    ensures row.genre == f.genres && row.status == f.status
    ensures row.rating == if f.rating != "" then ParsedFrom(f.rating) else Number(0.0)
  {
    ManhwaRow(Trim(f.title), Trim(f.author), BlankToNull(f.description), BlankToNull(f.coverImage),
              f.genres, f.status, if f.rating != "" then ParsedFrom(f.rating) else Number(0.0))
  }

  /** A row the dialog sends has a title and an author that are non-empty and already trimmed. */
  lemma DialogRowFieldsTrimmed(f: Fields)
    requires !MissingRequired(f)
    ensures var row := DialogRow(f);
      row.title != "" && row.author != "" && Trim(row.title) == row.title && Trim(row.author) == row.author
  {
    TrimIdempotent(f.title);
    TrimIdempotent(f.author);
  }

  /** `handleSubmit`'s effects, given whether the store accepts the insert. */
  function SubmitEffects(f: Fields, insertOk: bool): seq<Effect>
  {
    if MissingRequired(f) then [Toast(ValidationToast)]
    else
      [SetBusy(true), InsertManhwa(DialogRow(f))]
      + (if insertOk then [Toast(SuccessToast), CloseDialog, NotifyCaller] else [Toast(FailureToast)])
      + [SetBusy(false)]
  }

  /**
   * A blank title or author means no insert; otherwise exactly one insert
   * happens while busy, and the dialog closes and tells its caller exactly
   * when the store accepted it.
   */
  lemma SubmitOutcomes(f: Fields, insertOk: bool)
    ensures MissingRequired(f) ==> NoInsert(SubmitEffects(f, insertOk))
    ensures !MissingRequired(f) ==>
      var e := SubmitEffects(f, insertOk);
      BusyAcross(e) && e[1] == InsertManhwa(DialogRow(f))
      && (forall k :: 0 <= k < |e| && k != 1 ==> !IsInsert(e[k]))
      && (NotifyCaller in e <==> insertOk) && (CloseDialog in e <==> insertOk)
  {
  }

  class Dialog {
    var open: bool
    var loading: bool
    var title: string
    var author: string
    var description: string
    var coverImage: string
    var status: Status
    var rating: string
    var genres: seq<string>
    var customGenre: string

    /** Every field at its default: the state a successful submit returns to. */
    predicate Cleared()
      reads this
    {
      title == "" && author == "" && description == "" && coverImage == ""
      && status == Ongoing && rating == "" && genres == [] && customGenre == ""
    }

    constructor ()
      ensures Cleared() && !open && !loading
      ensures Valid()
    {
      open, loading := false, false;
      title, author, description, coverImage := "", "", "", "";
      status, rating := Ongoing, "";
      genres, customGenre := [], "";
    }

    /** The genre list never holds a tag twice: every genre operation keeps this. */
    ghost predicate Valid()
      reads this
    {
      NoDuplicates(genres)
    }

    function Snapshot(): Fields
      reads this
    {
      Fields(title, author, description, coverImage, status, rating, genres)
    }

    /** Appends any tag not yet present; there is no emptiness check here. */
    method AddGenre(genre: string)
      modifies this`genres
      requires Valid()
      ensures Valid()
      ensures genres == AddIfAbsent(old(genres), genre)
    {
      if genre !in genres {
        genres := genres + [genre];
      }
    }

    method RemoveGenre(genre: string)
      modifies this`genres
      requires Valid()
      ensures Valid()
      ensures genres == Without(old(genres), genre)
    {
      genres := Without(genres, genre);
    }

    /** The custom field is cleared only when its tag was added. */
    method AddCustomGenre()
      modifies this`genres, this`customGenre
      requires Valid()
      ensures Valid()
      ensures genres == AddCustom(old(genres), old(customGenre))
      ensures customGenre == if genres != old(genres) then "" else old(customGenre)
    {
      var tag := Trim(customGenre);
      if tag != "" && tag !in genres {
        genres := genres + [tag];
        customGenre := "";
      }
    }

    /** A predefined-genre button. */
    method ClickPredefinedGenre(genre: string)
      modifies this`genres
      requires Valid()
      ensures Valid()
      ensures genres == Toggle(old(genres), genre)
    {
      if genre in genres {
        RemoveGenre(genre);
      } else {
        AddGenre(genre);
      }
    }

    /**
     * `handleSubmit`: on success every field is reset and the dialog closes;
     * on a blank required field or a store error no field changes.
     */
    method HandleSubmit(insertOk: bool) returns (effects: seq<Effect>)
      modifies this
      requires Valid()
      ensures Valid()
      ensures effects == SubmitEffects(old(Snapshot()), insertOk)
      ensures var missing := MissingRequired(old(Snapshot()));
        (!missing && insertOk ==> Cleared() && !open && !loading)
        && (missing || !insertOk ==>
              Snapshot() == old(Snapshot()) && customGenre == old(customGenre) && open == old(open))
        && loading == if missing then old(loading) else false
    {
      var fields := Snapshot();
      var missing := MissingRequired(fields);
      if missing {
        effects := [Toast(ValidationToast)];
        return;
      }
      loading := true;
      effects := [SetBusy(true), InsertManhwa(DialogRow(fields))];
      if insertOk {
        effects := effects + [Toast(SuccessToast)];
        title, author, description, coverImage := "", "", "", "";
        status, rating := Ongoing, "";
        genres, customGenre := [], "";
        open := false;
        effects := effects + [CloseDialog, NotifyCaller];
      } else {
        effects := effects + [Toast(FailureToast)];
      }
      loading := false;
      effects := effects + [SetBusy(false)];
      assert effects == SubmitEffects(fields, insertOk);
    }
  }
}
