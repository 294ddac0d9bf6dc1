/**
 * The older events.CommunityServiceImpl.searchCommunities(genre, location): a genre
 * filter that ignores letter case, then a location filter that looks for the location,
 * letter case included, in the community's description.
 */
module LegacyCommunitySearch {

  import opened Wrappers
  import opened Text
  import opened Models
  import opened Filters

  /** No genre, or an empty one, keeps every community; otherwise the genres are equal ignoring case. */
  predicate GenreMatches(genre: Option<string>, c: Community) {
    genre.None? || genre.value == "" || EqualsIgnoreCase(c.genre, genre.value)
  }

  /** No location, or an empty one, keeps every community; otherwise it occurs in the description. */
  predicate LocationMatches(location: Option<string>, c: Community) {
    location.None? || location.value == "" || Contains(c.description, location.value)
  }

  /**
   * searchCommunities over getAllCommunities (None when that throws): both filters, in
   * store order; a failed lookup gives the empty list.
   */
  function SearchCommunities(all: Option<seq<Community>>, genre: Option<string>, location: Option<string>)
    : (r: seq<Community>)
    ensures all.None? ==> r == []
    ensures all.Some? ==> forall c :: c in r <==> c in all.value && GenreMatches(genre, c) && LocationMatches(location, c)
  {
    match all
    case None => []
    case Some(cs) =>
      var byGenre := Filter(cs, c => GenreMatches(genre, c));
      forall c ensures c in Filter(byGenre, c => LocationMatches(location, c))
                       <==> c in cs && GenreMatches(genre, c) && LocationMatches(location, c) {
        FilterMembership(cs, c => GenreMatches(genre, c), c);
        FilterMembership(byGenre, c => LocationMatches(location, c), c);
      }
      Filter(byGenre, c => LocationMatches(location, c))
  }

  /** The search keeps store order: searching a concatenation concatenates the searches. */
  lemma SearchKeepsOrder(a: seq<Community>, b: seq<Community>, genre: Option<string>, location: Option<string>)
    ensures SearchCommunities(Some(a + b), genre, location)
         == SearchCommunities(Some(a), genre, location) + SearchCommunities(Some(b), genre, location)
  {
    FilterAppend(a, b, c => GenreMatches(genre, c));
    FilterAppend(Filter(a, c => GenreMatches(genre, c)), Filter(b, c => GenreMatches(genre, c)),
                 c => LocationMatches(location, c));
  }

  /** Without a genre and a location every community is returned. */
  lemma NoFilterKeepsAll(all: seq<Community>, genre: Option<string>, location: Option<string>)
    requires genre.None? || genre == Some("")
    requires location.None? || location == Some("")
    ensures SearchCommunities(Some(all), genre, location) == all
  {
    FilterAll(all, c => GenreMatches(genre, c));
    FilterAll(all, c => LocationMatches(location, c));
  }

  /** The genre test ignores letter case, the location test does not. */
  lemma CaseSensitivity(id: int, created: int)
    ensures var c := Community(id, "Jazz Nights", "Live in Sydney", "jazz", created, None, false);
            GenreMatches(Some("JAZZ"), c) && LocationMatches(Some("Sydney"), c) && !LocationMatches(Some("sydney"), c)
  {
    var c := Community(id, "Jazz Nights", "Live in Sydney", "jazz", created, None, false);
    assert ToLower("JAZZ") == "jazz";
    assert ToLower("jazz") == "jazz";
    assert OccursAt(c.description, "Sydney", 8);
    assert !Contains(c.description, "sydney") by {
      forall i | 0 <= i <= |c.description| - 6
        ensures !OccursAt(c.description, "sydney", i)
      {
        assert c.description[i..i + 6][0] == c.description[i];
      }
    }
  }
}
