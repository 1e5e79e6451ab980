/**
 * The home page's library filter: free-text search over title and author,
 * an optional genre button, and the list of genre buttons offered.
 */
module CatalogFilter {
  import opened Wrappers
  import opened Text
  import opened Sequences
  import opened Catalog

  /** Case-insensitive search: the lower-cased title or author includes the lower-cased query. */
  predicate MatchesSearch(m: Manhwa, query: string)
  {
    Includes(Lower(m.title), Lower(query)) || Includes(Lower(m.author), Lower(query))
  }

  /**
   * `!selectedGenre || m.genre.includes(selectedGenre)`: no selection, and the
   * falsy empty string, let every entry through; otherwise exact membership.
   */
  predicate MatchesGenre(m: Manhwa, selected: Option<string>)
  {
    selected == None || selected.value == "" || selected.value in m.genre
  }

  predicate Matches(m: Manhwa, query: string, selected: Option<string>)
  {
    MatchesSearch(m, query) && MatchesGenre(m, selected)
  }

  /** `manhwaData.filter(...)`: the matching entries, in their original order. */
  function Filter(ms: seq<Manhwa>, query: string, selected: Option<string>): (r: seq<Manhwa>)
    ensures IsSubsequence(r, ms)
    ensures forall k :: 0 <= k < |r| ==> Matches(r[k], query, selected)
    decreases |ms|
  {
    if ms == [] then []
    else if Matches(ms[0], query, selected) then [ms[0]] + Filter(ms[1..], query, selected)
    else Filter(ms[1..], query, selected)
  }

  /** An entry is shown exactly when it is in the library and matches. */
  lemma {:induction false} FilterMembership(ms: seq<Manhwa>, query: string, selected: Option<string>, m: Manhwa)
    ensures m in Filter(ms, query, selected) <==> m in ms && Matches(m, query, selected)
    decreases |ms|
  {
    if ms != [] {
      FilterMembership(ms[1..], query, selected, m);
      assert m in ms <==> m == ms[0] || m in ms[1..];
    }
  }

  /** Each matching entry is shown as many times as the library holds it; others not at all. */
  lemma {:induction false} FilterKeepsCopies(ms: seq<Manhwa>, query: string, selected: Option<string>, m: Manhwa)
    ensures multiset(Filter(ms, query, selected))[m] == if Matches(m, query, selected) then multiset(ms)[m] else 0
    decreases |ms|
  {
    if ms != [] {
      FilterKeepsCopies(ms[1..], query, selected, m);
      assert ms == [ms[0]] + ms[1..];
    }
  }

  /** An empty query with no genre selected shows the whole library. */
  lemma {:induction false} FilterEmptyQueryKeepsAll(ms: seq<Manhwa>)
    ensures Filter(ms, "", None) == ms
    decreases |ms|
  {
    if ms != [] {
      IncludesEmpty(Lower(ms[0].title));
      FilterEmptyQueryKeepsAll(ms[1..]);
    }
  }

  /** Selecting a genre never shows an entry that the same query without a genre hides. */
  lemma {:induction false} GenreNarrows(ms: seq<Manhwa>, query: string, g: string)
    ensures IsSubsequence(Filter(ms, query, Some(g)), Filter(ms, query, None))
    decreases |ms|
  {
    if ms != [] {
      GenreNarrows(ms[1..], query, g);
    }
  }

  /** A non-empty selected genre is matched exactly, never as a substring of a tag. */
  lemma GenreIsExact(m: Manhwa, query: string, g: string)
    requires g != ""
    ensures Matches(m, query, Some(g)) <==> MatchesSearch(m, query) && g in m.genre
  {
  }

  /** Search is blind to letter case in the query. */
  lemma SearchIgnoresQueryCase(m: Manhwa, query: string)
    ensures MatchesSearch(m, Lower(query)) <==> MatchesSearch(m, query)
  {
    LowerIdempotent(query);
  }

  /** `manhwaData.flatMap(m => m.genre)` */
  function Genres(ms: seq<Manhwa>): (r: seq<string>)
    ensures forall g :: g in r <==> exists m :: m in ms && g in m.genre
    decreases |ms|
  {
    if ms == [] then []
    else
      var rest := Genres(ms[1..]);
      assert forall m :: m in ms <==> m == ms[0] || m in ms[1..];
      ms[0].genre + rest
  }

  /**
   * `Array.from(new Set(...))` of every entry's genres: the genre buttons, each
   * genre once, exactly those used by some entry.
   */
  function AllGenres(ms: seq<Manhwa>): (r: seq<string>)
    ensures NoDuplicates(r)
    ensures forall g :: g in r <==> exists m :: m in ms && g in m.genre
  {
    var all := Genres(ms);
    var r := Dedup(all);
    assert forall g :: g in r <==> g in all by {
      forall g ensures g in r <==> g in all {
        if g in all {
          var k :| 0 <= k < |all| && all[k] == g;
        }
        if g in r {
          var k :| 0 <= k < |r| && r[k] == g;
        }
      }
    }
    r
  }

  /** The genre buttons appear in the order each genre is first met in the library. */
  lemma GenreButtonsInFirstAppearanceOrder(ms: seq<Manhwa>, i: nat, j: nat)
    requires i < j < |AllGenres(ms)|
    ensures FirstIndex(Genres(ms), AllGenres(ms)[i]) < FirstIndex(Genres(ms), AllGenres(ms)[j])
  {
    DedupFirstAppearanceOrder(Genres(ms), i, j);
  }

  /**
   * A genre button: clicking the selected genre clears the selection,
   * clicking any other genre selects it. The "All" button sets `None`.
   */
  function ClickGenre(selected: Option<string>, genre: string): (r: Option<string>)
    ensures r == None <==> selected == Some(genre)
    ensures r != None ==> r == Some(genre)
  {
    if selected == Some(genre) then None else Some(genre)
  }

  /** Clicking a genre button twice from any other selection returns to "All". */
  lemma ClickTwiceClears(selected: Option<string>, genre: string)
    requires selected != Some(genre)
    ensures ClickGenre(ClickGenre(selected, genre), genre) == None
  {
  }

  /** Whatever genre a click selects, the list shown shrinks or stays the same. */
  lemma ClickNeverWidens(ms: seq<Manhwa>, query: string, selected: Option<string>, genre: string)
    ensures IsSubsequence(Filter(ms, query, ClickGenre(selected, genre)), Filter(ms, query, None))
  {
  }

  /** The fixture's query "kim" finds "Shadow Realm Chronicles" through its author "Kim Hana". */
  lemma SearchByAuthorExample()
    ensures MatchesSearch(Manhwa("shadow-realm", "Shadow Realm Chronicles", "Kim Hana", None, None,
                                ["Fantasy", "Action", "Supernatural"], Ongoing, 4.8), "kim")
  {
  }
}
