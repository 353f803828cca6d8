/** The "Recent Activity" card: newly registered athletes and recorded
    performances turned into activity items, merged, newest first, five at most.
    The clock, the locale's date format, the parsing of timestamps and the random
    UUIDs are parameters. */
module RecentAthletes {
  import opened Common
  import opened Text
  import opened Entities
  import opened AthletesPage

  /** One line of the card. */
  datatype ActivityItem = ActivityItem(
    id: string,
    title: string,
    description: string,
    date: string,
    dateTs: int,
    avatarUrl: Option<string>,
    fallback: string)

  function DateTsOf(item: ActivityItem): int
  {
    item.dateTs
  }

  /** The card's `getInitials`: the upper-cased first characters of the names, or
      'NA' when both names are empty. */
  function Initials(first: string, last: string): (initials: string)
    ensures first == "" && last == "" ==> initials == "NA"
    ensures !(first == "" && last == "") ==> initials == GetInitials(first, last)
    ensures 1 <= |initials| <= 2
  {
    var s := GetInitials(first, last);
    if s == "" then "NA" else s
  }

  /** The item of a registered athlete. Without a creation time the athlete is
      shown as registered now. */
  function AthleteItem(a: Athlete, nowIso: string, format: string -> string, tsOf: string -> int): (item: ActivityItem)
    ensures item.id == "ath-" + IntToString(a.athleteId)
    ensures item.title == a.firstName + " " + a.lastName
    ensures item.description == "New athlete registered"
    ensures item.date == format(OrElse(a.createdAt, nowIso)) && item.dateTs == tsOf(OrElse(a.createdAt, nowIso))
    ensures item.avatarUrl == a.avatarUrl && item.fallback == Initials(a.firstName, a.lastName)
  {
    var stamp := OrElse(a.createdAt, nowIso);
    ActivityItem("ath-" + IntToString(a.athleteId), a.firstName + " " + a.lastName,
                 "New athlete registered", format(stamp), tsOf(stamp), a.avatarUrl,
                 Initials(a.firstName, a.lastName))
  }

  /** `p?.athlete?.firstName || 'Unknown'`. */
  function FirstNameOf(p: PerformanceRecord): (first: string)
    ensures first != ""
    ensures p.athlete.Some? && Truthy(p.athlete.value.firstName) ==> first == p.athlete.value.firstName.value
    ensures !(p.athlete.Some? && Truthy(p.athlete.value.firstName)) ==> first == "Unknown"
  {
    match p.athlete
    case Some(a) => OrElse(a.firstName, "Unknown")
    case None => "Unknown"
  }

  /** `p?.athlete?.lastName || ''`. */
  function LastNameOf(p: PerformanceRecord): (last: string)
    ensures p.athlete.Some? && p.athlete.value.lastName.Some? ==> last == p.athlete.value.lastName.value
    ensures !(p.athlete.Some? && p.athlete.value.lastName.Some?) ==> last == ""
  {
    match p.athlete
    case Some(a) => a.lastName.GetOr("")
    case None => ""
  }

  /** Whether the performance's event is of a team sport. */
  predicate IsTeamSportEvent(p: PerformanceRecord)
  {
    p.event.Some? && p.event.value.sport.Some? && p.event.value.sport.value.isTeamSport
  }

  /** What was recorded: the discipline's name; failing that the sport's name for a
      team sport, and 'Performance' otherwise. */
  function DisciplineOf(p: PerformanceRecord): (name: string)
    ensures p.discipline.Some? && Truthy(p.discipline.value.name) ==> name == p.discipline.value.name.value
    ensures !(p.discipline.Some? && Truthy(p.discipline.value.name)) && IsTeamSportEvent(p) ==>
              name == p.event.value.sport.value.name
    ensures !(p.discipline.Some? && Truthy(p.discipline.value.name)) && !IsTeamSportEvent(p) ==>
              name == "Performance"
  {
    var fallback := if IsTeamSportEvent(p) then p.event.value.sport.value.name else "Performance";
    match p.discipline
    case Some(d) => OrElse(d.name, fallback)
    case None => fallback
  }

  /** `p?.event?.name || ''`. */
  function EventNameOf(p: PerformanceRecord): (name: string)
    ensures p.event.Some? && Truthy(p.event.value.name) ==> name == p.event.value.name.value
    ensures !(p.event.Some? && Truthy(p.event.value.name)) ==> name == ""
  {
    match p.event
    case Some(e) => OrElse(e.name, "")
    case None => ""
  }

  /** The description: what was recorded, then ' • ' and the event's name when there
      is one, then ' recorded'. */
  function PerfDescription(discipline: string, eventName: string): (text: string)
    ensures eventName == "" ==> text == discipline + " recorded"
    ensures eventName != "" ==> text == discipline + " • " + eventName + " recorded"
  {
    discipline + (if eventName != "" then " • " + eventName else "") + " recorded"
  }

  /** The time a performance is shown at: its date, else its creation time, else now. */
  function PerfStamp(p: PerformanceRecord, nowIso: string): (stamp: string)
    ensures p.date != "" ==> stamp == p.date
    ensures p.date == "" && p.createdAt != "" ==> stamp == p.createdAt
    ensures p.date == "" && p.createdAt == "" ==> stamp == nowIso
  {
    if p.date != "" then p.date else if p.createdAt != "" then p.createdAt else nowIso
  }

  /** The item of a recorded performance; a performance without an id gets
      `uuid`. */
  function PerfItem(p: PerformanceRecord, uuid: string, nowIso: string, format: string -> string,
                    tsOf: string -> int): (item: ActivityItem)
    ensures item.id == "perf-" + (if p.performanceId != 0 then IntToString(p.performanceId) else uuid)
    ensures item.title == FirstNameOf(p) + " " + LastNameOf(p)
    ensures item.description == PerfDescription(DisciplineOf(p), EventNameOf(p))
    ensures item.date == format(PerfStamp(p, nowIso)) && item.dateTs == tsOf(PerfStamp(p, nowIso))
    ensures item.avatarUrl.None? && item.fallback == Initials(FirstNameOf(p), LastNameOf(p))
  {
    var first, last := FirstNameOf(p), LastNameOf(p);
    var stamp := PerfStamp(p, nowIso);
    ActivityItem("perf-" + (if p.performanceId != 0 then IntToString(p.performanceId) else uuid),
                 first + " " + last, PerfDescription(DisciplineOf(p), EventNameOf(p)),
                 format(stamp), tsOf(stamp), None, Initials(first, last))
  }

  /** A performance item's initials never fall back to 'NA': the first name is
      never empty. */
  lemma PerfInitialsStartWithFirstName(p: PerformanceRecord, uuid: string, nowIso: string,
                                       format: string -> string, tsOf: string -> int)
    ensures var f := PerfItem(p, uuid, nowIso, format, tsOf).fallback;
            |f| >= 1 && f[0] == UpperChar(FirstNameOf(p)[0])
  {
  }

  /** The items of all loaded athletes and performances, athletes first; a missing
      list counts as empty. The k-th performance without an id gets `uuidAt(k)`. */
  function AllItems(athletes: MaybeArray<Athlete>, perfs: MaybeArray<PerformanceRecord>, uuidAt: nat -> string,
                    nowIso: string, format: string -> string, tsOf: string -> int): (items: seq<ActivityItem>)
    ensures var a, p := ArrayOrEmpty(athletes), ArrayOrEmpty(perfs);
            |items| == |a| + |p| &&
            (forall i :: 0 <= i < |a| ==> items[i] == AthleteItem(a[i], nowIso, format, tsOf)) &&
            (forall k :: 0 <= k < |p| ==> items[|a| + k] == PerfItem(p[k], uuidAt(k), nowIso, format, tsOf))
  {
    var a, p := ArrayOrEmpty(athletes), ArrayOrEmpty(perfs);
    seq(|a|, i requires 0 <= i < |a| => AthleteItem(a[i], nowIso, format, tsOf)) +
    seq(|p|, k requires 0 <= k < |p| => PerfItem(p[k], uuidAt(k), nowIso, format, tsOf))
  }

  /** The card shows five items at most. */
  const MaxItems: nat := 5

  /** The items shown: all of them sorted newest first, cut after the fifth. */
  function Recent(items: seq<ActivityItem>): (shown: seq<ActivityItem>)
    ensures |shown| == if |items| < MaxItems then |items| else MaxItems
    ensures SortedDesc(shown, DateTsOf)
    ensures multiset(shown) <= multiset(items)
  {
    var sorted := SortDesc(items, DateTsOf);
    TakeFacts(sorted, MaxItems, DateTsOf);
    JsSlice(sorted, 0, MaxItems)
  }

  /** An item left off the card is no newer than any item on it. */
  lemma LeftOutIsNotNewer(items: seq<ActivityItem>, x: ActivityItem, k: nat)
    requires k < |Recent(items)|
    requires x in multiset(items) - multiset(Recent(items))
    ensures x.dateTs <= Recent(items)[k].dateTs
  {
    var sorted := SortDesc(items, DateTsOf);
    TakeFacts(sorted, MaxItems, DateTsOf);
    var m := |Recent(items)|;
    assert Recent(items) == sorted[..m];
    LeftOutOfSortedPrefix(sorted, m, x, k, DateTsOf);
  }

  /** Every shown item is one of the given ones, and with five or fewer items all of
      them are shown. */
  lemma RecentKeepsAllWhenFew(items: seq<ActivityItem>)
    requires |items| <= MaxItems
    ensures multiset(Recent(items)) == multiset(items)
  {
    var sorted := SortDesc(items, DateTsOf);
    assert sorted[..|sorted|] == sorted;
    assert Recent(items) == sorted;
  }
}
