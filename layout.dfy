/** The overview layout's two headline numbers: the athletes total and the events
    total. */
module Layout {
  import opened Common
  import opened Entities
  import opened EventListing

  /** The athletes total: the response's total when it sent one (0 included),
      otherwise the length of its data; 0 when the request failed. */
  function TotalAthletes(outcome: Outcome<AthletePage>): (n: int)
    ensures outcome.Failed? ==> n == 0
    ensures outcome.Succeeded? ==> n == TotalOrLength(outcome.value)
  {
    match outcome
    case Failed => 0
    case Succeeded(page) => TotalOrLength(page)
  }

  /** The events total: the number of events read from the response; 0 when the
      request failed. */
  function TotalEvents(outcome: Outcome<EventsData>): (n: nat)
    ensures outcome.Failed? ==> n == 0
    ensures outcome.Succeeded? ==> n == |NormalizeEvents(outcome.value)|
  {
    match outcome
    case Failed => 0
    case Succeeded(data) => |NormalizeEvents(data)|
  }

  /** The layout counts the events it received, while the listing pages by the
      reported total, so the two disagree whenever the reported total differs. */
  lemma LayoutIgnoresReportedTotal(items: seq<EventItem>, total: int)
    requires total != |items|
    ensures var data := ObjectData(IsArray(items), Some(total));
            TotalEvents(Succeeded(data)) == |items| && Listing(Succeeded(data)).1 == total
  {
  }
}
