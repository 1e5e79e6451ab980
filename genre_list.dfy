/**
 * The genre-tag list the three intake forms keep: append when absent,
 * remove every equal tag, and the toggle of the dialog's predefined buttons.
 */
module GenreList {
  import opened Sequences

  /** `[...genres, g]` guarded by `!genres.includes(g)`. */
  function AddIfAbsent(genres: seq<string>, g: string): (r: seq<string>)
    ensures g in r
    ensures forall x :: x in r <==> x in genres || x == g
    ensures g in genres ==> r == genres
    ensures g !in genres ==> |r| == |genres| + 1 && r[..|genres|] == genres
    ensures NoDuplicates(genres) ==> NoDuplicates(r)
  {
    if g in genres then genres else genres + [g]
  }

  /** `genres.filter(x => x !== g)` */
  function Without(genres: seq<string>, g: string): (r: seq<string>)
    ensures g !in r
    ensures forall x :: x in r <==> x in genres && x != g
    ensures IsSubsequence(r, genres)
    ensures NoDuplicates(genres) ==> NoDuplicates(r)
    decreases |genres|
  {
    if genres == [] then []
    else if genres[0] == g then Without(genres[1..], g)
    else
      var rest := Without(genres[1..], g);
      assert forall j :: 0 <= j < |genres| - 1 ==> genres[1..][j] == genres[j + 1];
      NoDuplicatesCons(genres[0], rest);
      [genres[0]] + rest
  }

  /** Removing an absent tag changes nothing. */
  lemma {:induction false} WithoutAbsent(genres: seq<string>, g: string)
    requires g !in genres
    ensures Without(genres, g) == genres
    decreases |genres|
  {
    if genres != [] {
      WithoutAbsent(genres[1..], g);
    }
  }

  /** Adding a tag twice leaves the list as the first add left it. */
  lemma AddIdempotent(genres: seq<string>, g: string)
    ensures AddIfAbsent(AddIfAbsent(genres, g), g) == AddIfAbsent(genres, g)
  {
  }

  /** Removing a freshly added tag restores the list. */
  lemma {:induction false} AddThenRemove(genres: seq<string>, g: string)
    requires g !in genres
    ensures Without(AddIfAbsent(genres, g), g) == genres
    decreases |genres|
  {
    if genres == [] {
    } else {
      assert (genres + [g])[1..] == genres[1..] + [g];
      AddThenRemove(genres[1..], g);
    }
  }

  /** The predefined-genre button: remove the tag if present, add it if absent. */
  function Toggle(genres: seq<string>, g: string): (r: seq<string>)
    ensures g in r <==> g !in genres
    ensures forall x :: x != g ==> (x in r <==> x in genres)
    ensures NoDuplicates(genres) ==> NoDuplicates(r)
    ensures g !in genres ==> r == genres + [g]
    ensures g in genres ==> r == Without(genres, g)
  {
    if g in genres then Without(genres, g) else AddIfAbsent(genres, g)
  }

  /** Toggling an absent tag twice gives the list back. */
  lemma ToggleTwiceFromAbsent(genres: seq<string>, g: string)
    requires g !in genres
    ensures Toggle(Toggle(genres, g), g) == genres
  {
    AddThenRemove(genres, g);
  }
}
