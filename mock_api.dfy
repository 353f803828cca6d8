/** The in-memory sample stores: twenty athletes and fifty products generated at
    start-up, listed with a category filter, an optional search, and pagination,
    and looked up by id. The random generator, the search ranking and the clock
    are parameters. */
module MockApi {
  import opened Common
  import opened Text

  /** A sample athlete. */
  datatype MockAthlete = MockAthlete(
    athleteId: int,
    disciplineId: int,
    code: int,
    firstName: string,
    lastName: string,
    dateOfBirth: string,
    currentRank: int,
    createdAt: string,
    updatedAt: string)

  /** A sample product. */
  datatype Product = Product(id: int, name: string, category: string, price: real, description: string, photoUrl: string)

  /** The category an athlete is filtered by: its discipline id as text. */
  function DisciplineText(a: MockAthlete): string
  {
    IntToString(a.disciplineId)
  }

  function ProductCategory(p: Product): string
  {
    p.category
  }

  function AthleteIdOf(a: MockAthlete): int
  {
    a.athleteId
  }

  function ProductIdOf(p: Product): int
  {
    p.id
  }

  // ---------------------------------------------------------------------------
  // Listing, shared by both stores

  /** Whether a record's category is one of `categories`, as the callback `filter`
      is given. */
  function InCategories<T>(categories: seq<string>, categoryOf: T -> string): T -> bool
  {
    x => categoryOf(x) in categories
  }

  /** The records whose category is one of `categories`, in their order and each as
      often as it is stored; no categories means no filtering. */
  function FilterByCategories<T(!new)>(records: seq<T>, categories: seq<string>, categoryOf: T -> string): (kept: seq<T>)
    ensures categories == [] ==> kept == records
    ensures |kept| <= |records|
    ensures forall x :: x in kept <==> x in records && (categories == [] || categoryOf(x) in categories)
    ensures forall x :: multiset(kept)[x] ==
                        if categories == [] || categoryOf(x) in categories then multiset(records)[x] else 0
  {
    if categories == [] then records
    else
      FilterCounts(records, InCategories(categories, categoryOf));
      Filter(records, InCategories(categories, categoryOf))
  }

  /** The category filter keeps the stored order: a list filters part by part, and
      one record is kept exactly when its category is listed (or none is). */
  lemma FilterByCategoriesKeepsOrder<T(!new)>(front: seq<T>, back: seq<T>, x: T, categories: seq<string>, categoryOf: T -> string)
    ensures FilterByCategories(front + back, categories, categoryOf) ==
            FilterByCategories(front, categories, categoryOf) + FilterByCategories(back, categories, categoryOf)
    ensures FilterByCategories([x], categories, categoryOf) ==
            if categories == [] || categoryOf(x) in categories then [x] else []
  {
    if categories != [] {
      FilterAppend(front, back, InCategories(categories, categoryOf));
      FilterOne(x, InCategories(categories, categoryOf));
    }
  }

  /** `getAll`: the category filter, then the search ranking when the search text is
      not empty. */
  function GetAllOf<T(!new)>(records: seq<T>, categories: seq<string>, search: Option<string>, categoryOf: T -> string,
                       matchSorter: (seq<T>, string) -> seq<T>): (found: seq<T>)
    ensures !Truthy(search) ==> found == FilterByCategories(records, categories, categoryOf)
    ensures Truthy(search) ==> found == matchSorter(FilterByCategories(records, categories, categoryOf), search.value)
  {
    var filtered := FilterByCategories(records, categories, categoryOf);
    if Truthy(search) then matchSorter(filtered, search.value) else filtered
  }

  /** The `categories` text of a listing request: split on '.', or no categories
      when it is missing or empty. */
  function CategoriesOf(categories: Option<string>): (parts: seq<string>)
    ensures !Truthy(categories) ==> parts == []
    ensures Truthy(categories) ==> parts == Split(categories.value, '.')
    ensures Truthy(categories) ==> |parts| >= 1 && Join(parts, '.') == categories.value
    ensures forall k :: 0 <= k < |parts| ==> '.' !in parts[k]
  {
    if Truthy(categories) then
      JoinSplit(categories.value, '.');
      Split(categories.value, '.')
    else []
  }

  /** One page of a listing. */
  datatype Listing<T> = Listing(success: bool, time: string, message: string, total: nat, offset: int, limit: int, items: seq<T>)

  const ListingMessage := "Sample data for testing and learning purposes"

  /** A page of `all`: page 1 and 10 items by default, starting at
      `(page - 1) * limit`; the total counts every match, whatever the page. */
  function ListPage<T>(all: seq<T>, page: Option<int>, limit: Option<int>, now: string): (r: Listing<T>)
    ensures r.success && r.time == now && r.message == ListingMessage
    ensures r.total == |all| && r.limit == limit.GetOr(10)
    ensures r.offset == (page.GetOr(1) - 1) * limit.GetOr(10)
    ensures r.items == JsSlice(all, r.offset, r.offset + r.limit)
  {
    var p, l := page.GetOr(1), limit.GetOr(10);
    var offset := (p - 1) * l;
    Listing(true, now, ListingMessage, |all|, offset, l, JsSlice(all, offset, offset + l))
  }

  /** A slice from a non-negative start of a non-negative length is the run of
      `all` there, cut off at the end. */
  lemma SliceWindow<T>(all: seq<T>, start: int, length: int)
    requires start >= 0 && length >= 0
    ensures var n := |all|;
            var a := if start < n then start else n;
            var b := if start + length < n then start + length else n;
            |JsSlice(all, start, start + length)| <= length && JsSlice(all, start, start + length) == all[a..b]
  {
  }

  lemma OffsetFacts(page: int, limit: int)
    requires page >= 1 && limit >= 0
    ensures (page - 1) * limit >= 0
    ensures page * limit == (page - 1) * limit + limit
  {
  }

  /** From the first page on, a page holds at most `limit` items: the run of `all`
      that starts at the offset. */
  lemma PageIsWindow<T>(all: seq<T>, page: int, limit: int, now: string)
    requires page >= 1 && limit >= 0
    ensures var r := ListPage(all, Some(page), Some(limit), now);
            var n := |all|;
            var a := if r.offset < n then r.offset else n;
            var b := if r.offset + limit < n then r.offset + limit else n;
            r.offset >= 0 && |r.items| <= limit && r.items == all[a..b]
  {
    var r := ListPage(all, Some(page), Some(limit), now);
    OffsetFacts(page, limit);
    SliceWindow(all, r.offset, limit);
  }

  /** The first page with the defaults is the first ten items. */
  lemma DefaultPage<T>(all: seq<T>, now: string)
    ensures ListPage(all, None, None, now).items == all[..if |all| < 10 then |all| else 10]
    ensures ListPage(all, None, None, now).offset == 0
  {
  }

  /** Two adjacent slices make up the slice that spans both. */
  lemma AdjacentSlices<T>(all: seq<T>, a: int, b: int, c: int)
    requires 0 <= a <= b <= c
    ensures JsSlice(all, a, b) + JsSlice(all, b, c) == JsSlice(all, a, c)
  {
    var n := |all|;
    var a', b', c' := SliceIndex(a, n), SliceIndex(b, n), SliceIndex(c, n);
    assert JsSlice(all, a, b) == all[a'..b'];
    assert JsSlice(all, b, c) == all[b'..c'];
    assert JsSlice(all, a, c) == all[a'..c'];
    assert all[a'..b'] + all[b'..c'] == all[a'..c'];
  }

  /** Consecutive pages follow each other: pages p and p + 1 together are the run of
      `2 * limit` items from page p's offset. */
  lemma ConsecutivePagesTile<T>(all: seq<T>, page: int, limit: int, now: string)
    requires page >= 1 && limit >= 0
    ensures var r1, r2 := ListPage(all, Some(page), Some(limit), now), ListPage(all, Some(page + 1), Some(limit), now);
            r1.items + r2.items == JsSlice(all, r1.offset, r1.offset + 2 * limit)
  {
    var next := page + 1;
    var r1, r2 := ListPage(all, Some(page), Some(limit), now), ListPage(all, Some(next), Some(limit), now);
    OffsetFacts(page, limit);
    var a := (page - 1) * limit;
    var b := a + limit;
    var c := b + limit;
    assert next - 1 == page;
    assert r1.offset == a && r2.offset == page * limit == b;
    assert r1.items == JsSlice(all, a, b) && r2.items == JsSlice(all, b, c);
    AdjacentSlices(all, a, b, c);
    assert r1.offset + 2 * limit == c;
  }

  /** Where a lookup found nothing or what it found. */
  datatype Lookup<T> = Missing(message: string) | Found(time: string, message: string, record: T)

  /** The index of the first record `matches` accepts, if any: `find`. */
  function FindFirst<T>(records: seq<T>, matches: T -> bool): (k: Option<nat>)
    ensures k.None? <==> forall i :: 0 <= i < |records| ==> !matches(records[i])
    ensures k.Some? ==> k.value < |records| && matches(records[k.value]) &&
                        forall i :: 0 <= i < k.value ==> !matches(records[i])
  {
    if records == [] then None
    else if matches(records[0]) then Some(0)
    else
      var rest := FindFirst(records[1..], matches);
      assert forall i :: 1 <= i < |records| ==> records[i] == records[1..][i - 1];
      match rest
      case Some(j) => Some(j + 1)
      case None => None
  }

  /** `<noun> with ID <id> found`. */
  function FoundMessage(noun: string, id: int): string
  {
    noun + " with ID " + IntToString(id) + " found"
  }

  /** `<noun> with ID <id> not found`. */
  function NotFoundMessage(noun: string, id: int): string
  {
    noun + " with ID " + IntToString(id) + " not found"
  }

  /** A lookup by id: the first record with the id, announced with `<noun> with ID
      <id> found`, or `<noun> with ID <id> not found`. */
  function LookupById<T>(records: seq<T>, idOf: T -> int, id: int, noun: string, now: string): (r: Lookup<T>)
    ensures r.Missing? <==> forall i :: 0 <= i < |records| ==> idOf(records[i]) != id
    ensures r.Missing? ==> r.message == NotFoundMessage(noun, id)
    ensures r.Found? ==> r.record in records
    ensures r.Found? ==> r.time == now && r.message == FoundMessage(noun, id)
    ensures r.Found? ==> idOf(r.record) == id &&
                         (exists k :: 0 <= k < |records| && records[k] == r.record &&
                                      forall i :: 0 <= i < k ==> idOf(records[i]) != id)
  {
    match FindFirst(records, (x: T) => idOf(x) == id)
    case None => Missing(NotFoundMessage(noun, id))
    case Some(k) => Found(now, FoundMessage(noun, id), records[k])
  }

  // ---------------------------------------------------------------------------
  // The stores

  class FakeAthletes {
    var records: seq<MockAthlete>

    constructor ()
      ensures records == []
    {
      records := [];
    }

    /** `initialize`: twenty athletes with ids 1 to 20 in order, the rest of each
        record drawn by `draw`. */
    method Initialize(draw: int -> MockAthlete)
      modifies this
      ensures |records| == 20
      ensures forall k :: 0 <= k < 20 ==> records[k] == draw(k + 1).(athleteId := k + 1)
      ensures forall k :: 0 <= k < 20 ==> records[k].athleteId == k + 1
    {
      var sample: seq<MockAthlete> := [];
      var i := 1;
      while i <= 20
        invariant 1 <= i <= 21 && |sample| == i - 1
        invariant forall k :: 0 <= k < i - 1 ==> sample[k] == draw(k + 1).(athleteId := k + 1)
      {
        sample := sample + [draw(i).(athleteId := i)];
        i := i + 1;
      }
      records := sample;
    }

    /** `getAll`: by discipline id, then by search. */
    function GetAll(categories: seq<string>, search: Option<string>,
                    matchSorter: (seq<MockAthlete>, string) -> seq<MockAthlete>): (found: seq<MockAthlete>)
      reads this
      ensures !Truthy(search) && categories == [] ==> found == records
      ensures !Truthy(search) ==> forall a :: a in found <==> a in records && (categories == [] || DisciplineText(a) in categories)
      ensures !Truthy(search) ==> forall a :: multiset(found)[a] ==
                                    if categories == [] || DisciplineText(a) in categories then multiset(records)[a] else 0
      ensures !Truthy(search) ==> found == FilterByCategories(records, categories, DisciplineText)
    {
      GetAllOf(records, categories, search, DisciplineText, matchSorter)
    }

    /** `getAthletes`: a page of the matching athletes. */
    function GetAthletes(page: Option<int>, limit: Option<int>, categories: Option<string>, search: Option<string>,
                         matchSorter: (seq<MockAthlete>, string) -> seq<MockAthlete>, now: string): (r: Listing<MockAthlete>)
      reads this
      ensures var all := GetAll(CategoriesOf(categories), search, matchSorter);
              r == ListPage(all, page, limit, now) && r.total == |all|
    {
      ListPage(GetAll(CategoriesOf(categories), search, matchSorter), page, limit, now)
    }

    /** `getAthleteById`. */
    function GetAthleteById(athleteId: int, now: string): (r: Lookup<MockAthlete>)
      reads this
      ensures r.Missing? <==> forall i :: 0 <= i < |records| ==> records[i].athleteId != athleteId
      ensures r.Missing? ==> r.message == NotFoundMessage("Athlete", athleteId)
      ensures r.Found? ==> r.record.athleteId == athleteId && r.record in records &&
                           r.message == FoundMessage("Athlete", athleteId)
    {
      var r := LookupById(records, AthleteIdOf, athleteId, "Athlete", now);
      assert forall i :: 0 <= i < |records| ==> AthleteIdOf(records[i]) == records[i].athleteId;
      r
    }
  }

  /** After initialisation every id from 1 to 20 is found, as the record at its
      place. */
  lemma InitializedIdsAreFound(records: seq<MockAthlete>, id: int, now: string)
    requires |records| == 20 && forall k :: 0 <= k < 20 ==> records[k].athleteId == k + 1
    requires 1 <= id <= 20
    ensures LookupById(records, AthleteIdOf, id, "Athlete", now) ==
            Found(now, FoundMessage("Athlete", id), records[id - 1])
  {
    var r := LookupById(records, AthleteIdOf, id, "Athlete", now);
    assert AthleteIdOf(records[id - 1]) == id;
    assert r.Found?;
    var k :| 0 <= k < |records| && records[k] == r.record && forall i :: 0 <= i < k ==> AthleteIdOf(records[i]) != id;
    assert AthleteIdOf(records[k]) == k + 1;
  }

  /** The product categories the generator picks from. */
  const ProductCategories := ["Electronics", "Furniture", "Clothing", "Toys", "Groceries", "Books", "Jewelry", "Beauty Products"]

  class FakeProducts {
    var records: seq<Product>

    constructor ()
      ensures records == []
    {
      records := [];
    }

    /** `initialize`: fifty products with ids 1 to 50 in order, each in the category
        `pick` chooses from the fixed list (`faker.helpers.arrayElement`), the rest
        drawn by `draw`. */
    method Initialize(draw: int -> Product, pick: int -> nat)
      requires forall i :: pick(i) < |ProductCategories|
      modifies this
      ensures |records| == 50
      ensures forall k :: 0 <= k < 50 ==>
                records[k] == draw(k + 1).(id := k + 1, category := ProductCategories[pick(k + 1)])
      ensures forall k :: 0 <= k < 50 ==> records[k].category in ProductCategories
    {
      var sample: seq<Product> := [];
      var i := 1;
      while i <= 50
        invariant 1 <= i <= 51 && |sample| == i - 1
        invariant forall k :: 0 <= k < i - 1 ==>
                    sample[k] == draw(k + 1).(id := k + 1, category := ProductCategories[pick(k + 1)])
      {
        sample := sample + [draw(i).(id := i, category := ProductCategories[pick(i)])];
        i := i + 1;
      }
      records := sample;
    }

    /** `getAll`: by category, then by search. */
    function GetAll(categories: seq<string>, search: Option<string>,
                    matchSorter: (seq<Product>, string) -> seq<Product>): (found: seq<Product>)
      reads this
      ensures !Truthy(search) && categories == [] ==> found == records
      ensures !Truthy(search) ==> forall p :: p in found <==> p in records && (categories == [] || p.category in categories)
      ensures !Truthy(search) ==> forall p :: multiset(found)[p] ==
                                    if categories == [] || p.category in categories then multiset(records)[p] else 0
      ensures !Truthy(search) ==> found == FilterByCategories(records, categories, ProductCategory)
    {
      GetAllOf(records, categories, search, ProductCategory, matchSorter)
    }

    /** `getProducts`: a page of the matching products. */
    function GetProducts(page: Option<int>, limit: Option<int>, categories: Option<string>, search: Option<string>,
                         matchSorter: (seq<Product>, string) -> seq<Product>, now: string): (r: Listing<Product>)
      reads this
      ensures var all := GetAll(CategoriesOf(categories), search, matchSorter);
              r == ListPage(all, page, limit, now) && r.total == |all|
    {
      ListPage(GetAll(CategoriesOf(categories), search, matchSorter), page, limit, now)
    }

    /** `getProductById`. */
    function GetProductById(productId: int, now: string): (r: Lookup<Product>)
      reads this
      ensures r.Missing? <==> forall i :: 0 <= i < |records| ==> records[i].id != productId
      ensures r.Missing? ==> r.message == NotFoundMessage("Product", productId)
      ensures r.Found? ==> r.record.id == productId && r.record in records &&
                           r.message == FoundMessage("Product", productId)
    {
      var r := LookupById(records, ProductIdOf, productId, "Product", now);
      assert forall i :: 0 <= i < |records| ==> ProductIdOf(records[i]) == records[i].id;
      r
    }
  }
}
