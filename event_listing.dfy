/** The events listing page: the filters of its request and how it reads the
    events and their total out of the response, whatever its shape. */
module EventListing {
  import opened Common
  import opened Entities

  /** The request filters: page and per-page size from the URL with defaults '1'
      and '10', and the name search only when it is not empty. */
  function ListFilters(page: string, search: Option<string>, perPage: string): (q: map<string, string>)
    ensures q.Keys == if Truthy(search) then {"page", "limit", "search"} else {"page", "limit"}
    ensures q["page"] == if page != "" then page else "1"
    ensures q["limit"] == if perPage != "" then perPage else "10"
    ensures Truthy(search) ==> q["search"] == search.value
  {
    var base := map["page" := if page != "" then page else "1", "limit" := if perPage != "" then perPage else "10"];
    if Truthy(search) then base["search" := search.value] else base
  }

  /** The `data` member of an events response: an array of events, an object
      with its own `data` and `total`, or anything else (missing included).
      `total` is present when it is a number. */
  datatype EventsData =
    | ArrayData(items: seq<EventItem>)
    | ObjectData(inner: MaybeArray<EventItem>, total: Option<int>)
    | OtherData

  /** The events of a response: `data` when it is an array, else `data.data` when
      that is an array, else none. */
  function NormalizeEvents(data: EventsData): (events: seq<EventItem>)
    ensures data.ArrayData? ==> events == data.items
    ensures data.ObjectData? && data.inner.IsArray? ==> events == data.inner.items
    ensures data.ObjectData? && data.inner.NotArray? ==> events == []
    ensures data.OtherData? ==> events == []
  {
    match data
    case ArrayData(items) => items
    case ObjectData(inner, _) => ArrayOrEmpty(inner)
    case OtherData => []
  }

  /** The total the table pages with: `data.total` when it is a number, otherwise
      the number of events read. */
  function EventsTotal(data: EventsData): (total: int)
    ensures data.ObjectData? && data.total.Some? ==> total == data.total.value
    ensures !(data.ObjectData? && data.total.Some?) ==> total == |NormalizeEvents(data)|
  {
    if data.ObjectData? && data.total.Some? then data.total.value else |NormalizeEvents(data)|
  }

  /** What the page shows: the events and the total, or nothing and 0 when the
      request failed. */
  function Listing(outcome: Outcome<EventsData>): (r: (seq<EventItem>, int))
    ensures outcome.Failed? ==> r == ([], 0)
    ensures outcome.Succeeded? ==> r.0 == NormalizeEvents(outcome.value) && r.1 == EventsTotal(outcome.value)
    ensures outcome.Succeeded? && !outcome.value.ObjectData? ==> r.1 == |r.0|
  {
    match outcome
    case Failed => ([], 0)
    case Succeeded(data) => (NormalizeEvents(data), EventsTotal(data))
  }
}
