/** The public athletes page: the listing request it makes, what it keeps of the
    response, the search filter over the loaded athletes and the avatar initials. */
module AthletesPage {
  import opened Common
  import opened Text
  import opened Entities
  import opened AthleteService

  /** The filters of the page's request: the first page of 100, and the search term
      only when it is not empty. */
  function FetchParams(search: Option<string>): (p: AthleteListParams)
    ensures p.page == Some("1") && p.limit == Some("100")
    ensures p.search == NonEmpty(search)
    ensures p.positionCode.None? && p.teamCode.None? && p.sportType.None? && p.gender.None?
    ensures p.isActive.None? && p.disciplineCode.None?
  {
    AthleteListParams(NonEmpty(search), Some("1"), Some("100"), None, None, None, None, None, None)
  }

  /** The page's request carries page 1 and limit 100, and search exactly when the
      term is not empty. */
  lemma FetchQueryShape(search: Option<string>)
    ensures var q := ListQuery(Some(FetchParams(search)));
            q.Keys == (if Truthy(search) then {"search", "page", "limit"} else {"page", "limit"}) &&
            q["page"] == StringParam("1") && q["limit"] == StringParam("100") &&
            (Truthy(search) ==> q["search"] == StringParam(search.value))
  {
    var q := ListQuery(Some(FetchParams(search)));
    assert forall k :: k in q ==> k in ListParamNames;
  }

  /** The athlete list the page holds after a fetch: the response's data, or `[]`
      when the request failed. A body without an array is kept as it is; the
      filter below treats it as no athletes. */
  function AfterFetch(outcome: Outcome<AthletePage>): (state: MaybeArray<Athlete>)
    ensures outcome.Failed? ==> state == IsArray([])
    ensures outcome.Succeeded? ==> state == outcome.value.data
  {
    match outcome
    case Failed => IsArray([])
    case Succeeded(page) => page.data
  }

  /** The text the search looks in: `${firstName} ${lastName} ${code}`. */
  function SearchText(a: Athlete): string
  {
    a.firstName + " " + a.lastName + " " + a.code
  }

  /** An athlete matches a term when its lower-cased search text contains the
      lower-cased term. */
  predicate Matches(a: Athlete, term: string)
  {
    Contains(Lower(SearchText(a)), Lower(term))
  }

  /** The search as the callback `filter` is given. */
  function MatchesTerm(term: string): Athlete -> bool
  {
    a => Matches(a, term)
  }

  /** `athletes.filter(matches)`: the matching athletes, in their order, each as
      often as it is loaded. */
  function FilterMatching(athletes: seq<Athlete>, term: string): (kept: seq<Athlete>)
    ensures |kept| <= |athletes|
    ensures forall a :: a in kept <==> a in athletes && Matches(a, term)
    ensures forall a :: multiset(kept)[a] == if Matches(a, term) then multiset(athletes)[a] else 0
  {
    FilterCounts(athletes, MatchesTerm(term));
    Filter(athletes, MatchesTerm(term))
  }

  /** The filter keeps the loaded order: a list filters part by part, and one
      athlete is kept exactly when it matches. */
  lemma FilterMatchingKeepsOrder(front: seq<Athlete>, back: seq<Athlete>, a: Athlete, term: string)
    ensures FilterMatching(front + back, term) == FilterMatching(front, term) + FilterMatching(back, term)
    ensures FilterMatching([a], term) == if Matches(a, term) then [a] else []
  {
    FilterAppend(front, back, MatchesTerm(term));
    FilterOne(a, MatchesTerm(term));
  }

  /** The athletes the page lists for a search term; nothing when the state is not
      an array. */
  function FilteredAthletes(state: MaybeArray<Athlete>, term: string): (shown: seq<Athlete>)
    ensures state.NotArray? ==> shown == []
    ensures state.IsArray? ==> forall a :: a in shown <==> a in state.items && Matches(a, term)
    ensures state.IsArray? ==> forall a :: multiset(shown)[a] == if Matches(a, term) then multiset(state.items)[a] else 0
  {
    match state
    case IsArray(items) => FilterMatching(items, term)
    case NotArray => []
  }

  /** The empty string is contained in every text. */
  lemma ContainsEmpty(s: string)
    ensures Contains(s, "")
  {
  }

  /** An empty search term lists every loaded athlete, in order. */
  lemma EmptyTermKeepsAll(athletes: seq<Athlete>)
    ensures FilterMatching(athletes, "") == athletes
  {
    forall i | 0 <= i < |athletes|
      ensures MatchesTerm("")(athletes[i])
    {
      ContainsEmpty(Lower(SearchText(athletes[i])));
      assert Lower("") == "";
    }
    FilterKeepsAll(athletes, MatchesTerm(""));
  }

  /** A failed fetch lists no athlete, whatever the term. */
  lemma FailedFetchListsNothing(term: string)
    ensures FilteredAthletes(AfterFetch(Failed), term) == []
  {
  }

  /** The avatar initials: the first characters of the names, upper-cased. */
  function GetInitials(firstName: string, lastName: string): (initials: string)
    ensures |initials| == (if firstName == "" then 0 else 1) + (if lastName == "" then 0 else 1)
    ensures firstName != "" ==> initials[0] == UpperChar(firstName[0])
    ensures lastName != "" ==> initials[|initials| - 1] == UpperChar(lastName[0])
    ensures forall i :: 0 <= i < |initials| ==> !('a' <= initials[i] <= 'z')
  {
    Upper(CharAt0(firstName) + CharAt0(lastName))
  }
}
