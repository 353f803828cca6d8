/** The "Athletes by Sport" pie chart: one slice per sport, the per-sport counts
    fetched from the athlete listing and merged into the chart data, the total in
    the middle of the chart and the leading sport in the footer. */
module PieGraph {
  import opened Common
  import opened Entities
  import opened AthleteService

  /** The chart's sports. */
  datatype SportKey = Boxing | Basketball | Football | Athletics | Wrestling

  /** The sports in the order the chart lists and fetches them. */
  const SportKeys: seq<SportKey> := [Boxing, Basketball, Football, Athletics, Wrestling]

  /** The position of a sport in `SportKeys`. */
  function KeyIndex(k: SportKey): (i: nat)
    ensures i < |SportKeys| && SportKeys[i] == k
  {
    match k
    case Boxing => 0
    case Basketball => 1
    case Football => 2
    case Athletics => 3
    case Wrestling => 4
  }

  /** `sportKeyToApi`: the sport type the athlete listing filters on. */
  function ToApi(k: SportKey): (api: string)
  {
    match k
    case Boxing => "BOXING"
    case Basketball => "BASKETBALL"
    case Football => "FOOTBALL"
    case Athletics => "ATHLETICS"
    case Wrestling => "WRESTLING"
  }

  /** The sport an API name stands for, if any. */
  function FromApi(api: string): (k: Option<SportKey>)
    ensures k.Some? ==> ToApi(k.value) == api
  {
    if api == "BOXING" then Some(Boxing)
    else if api == "BASKETBALL" then Some(Basketball)
    else if api == "FOOTBALL" then Some(Football)
    else if api == "ATHLETICS" then Some(Athletics)
    else if api == "WRESTLING" then Some(Wrestling)
    else None
  }

  /** The mapping to API names is a bijection onto the five names. */
  lemma ToApiBijective(k: SportKey, api: string)
    ensures FromApi(ToApi(k)) == Some(k)
    ensures FromApi(api).Some? <==> api in {"BOXING", "BASKETBALL", "FOOTBALL", "ATHLETICS", "WRESTLING"}
  {
  }

  /** Different sports are fetched under different names. */
  lemma ToApiInjective(a: SportKey, b: SportKey)
    requires ToApi(a) == ToApi(b)
    ensures a == b
  {
    ToApiBijective(a, "");
    ToApiBijective(b, "");
  }

  /** `labelMap`: the name the footer shows. */
  function LabelOf(k: SportKey): (name: string)
    ensures name != ""
  {
    match k
    case Boxing => "Boxing"
    case Basketball => "Basketball"
    case Football => "Football"
    case Athletics => "Athletics"
    case Wrestling => "Wrestling"
  }

  // ---------------------------------------------------------------------------
  // Chart data

  /** A slice: its sport, its athlete count and its colour. */
  datatype ChartEntry = ChartEntry(sport: SportKey, athletes: int, fill: string)

  function AthletesOf(e: ChartEntry): int
  {
    e.athletes
  }

  /** The chart before any count arrives: every sport at 0, with its own shade of
      the primary colour. */
  const InitialChartData: seq<ChartEntry> := [
    ChartEntry(Boxing, 0, "var(--primary)"),
    ChartEntry(Basketball, 0, "var(--primary-light)"),
    ChartEntry(Football, 0, "var(--primary-lighter)"),
    ChartEntry(Athletics, 0, "var(--primary-dark)"),
    ChartEntry(Wrestling, 0, "var(--primary-darker)")
  ]

  /** The initial chart lists the sports in their fetch order, each with no
      athletes and a colour of its own. */
  lemma InitialChartShape()
    ensures |InitialChartData| == |SportKeys|
    ensures forall i :: 0 <= i < |InitialChartData| ==>
              InitialChartData[i].sport == SportKeys[i] && InitialChartData[i].athletes == 0
    ensures forall i, j :: 0 <= i < j < |InitialChartData| ==> InitialChartData[i].fill != InitialChartData[j].fill
  {
  }

  // ---------------------------------------------------------------------------
  // Fetching the counts

  /** The listing request of one sport: page 1 with a limit of 1, filtered by the
      sport's API name. */
  function CountParams(k: SportKey): (p: AthleteListParams)
    ensures p.page == Some("1") && p.limit == Some("1") && p.sportType == Some(ToApi(k))
    ensures p.search.None? && p.positionCode.None? && p.teamCode.None? && p.gender.None?
    ensures p.isActive.None? && p.disciplineCode.None?
  {
    AthleteListParams(None, Some("1"), Some("1"), None, None, Some(ToApi(k)), None, None, None)
  }

  /** The query of a sport's count request carries exactly page, limit and
      sportType. */
  lemma CountQueryShape(k: SportKey)
    ensures ListQuery(Some(CountParams(k))) ==
            map["page" := StringParam("1"), "limit" := StringParam("1"), "sportType" := StringParam(ToApi(k))]
  {
    var q := ListQuery(Some(CountParams(k)));
    assert forall key :: key in q ==> key in ListParamNames;
  }

  /** The count of one sport. */
  datatype SportCount = SportCount(key: SportKey, total: int)

  /** The counts of the five responses, in fetch order. */
  function CountsOf(pages: seq<AthletePage>): (results: seq<SportCount>)
    requires |pages| == |SportKeys|
    ensures |results| == |SportKeys|
    ensures forall i :: 0 <= i < |results| ==> results[i] == SportCount(SportKeys[i], TotalOrLength(pages[i]))
  {
    seq(|SportKeys|, i requires 0 <= i < |SportKeys| => SportCount(SportKeys[i], TotalOrLength(pages[i])))
  }

  /** `results.find(r => r.key === sport)`: the first count of that sport. */
  function FindCount(results: seq<SportCount>, sport: SportKey): (found: Option<SportCount>)
    ensures found.None? <==> forall i :: 0 <= i < |results| ==> results[i].key != sport
    ensures found.Some? ==> exists i :: 0 <= i < |results| && results[i] == found.value &&
                              results[i].key == sport &&
                              forall j :: 0 <= j < i ==> results[j].key != sport
  {
    if results == [] then None
    else if results[0].key == sport then Some(results[0])
    else
      var rest := FindCount(results[1..], sport);
      assert forall i :: 1 <= i < |results| ==> results[i] == results[1..][i - 1];
      rest
  }

  /** When every sport has one count, the one found is the one at the sport's place. */
  lemma FindInCounts(pages: seq<AthletePage>, sport: SportKey)
    requires |pages| == |SportKeys|
    ensures FindCount(CountsOf(pages), sport) == Some(SportCount(sport, TotalOrLength(pages[KeyIndex(sport)])))
  {
    var results := CountsOf(pages);
    var found := FindCount(results, sport);
    assert results[KeyIndex(sport)].key == sport;
    var i :| 0 <= i < |results| && results[i] == found.value && results[i].key == sport;
    assert SportKeys[i] == sport;
  }

  /** The chart after the counts arrive: each entry whose sport has a count takes
      that count; the rest is kept. */
  function Merge(prev: seq<ChartEntry>, results: seq<SportCount>): (next: seq<ChartEntry>)
    ensures |next| == |prev|
    ensures forall i :: 0 <= i < |prev| ==>
              next[i] == match FindCount(results, prev[i].sport)
                         case Some(found) => prev[i].(athletes := found.total)
                         case None => prev[i]
  {
    seq(|prev|, i requires 0 <= i < |prev| =>
      match FindCount(results, prev[i].sport)
      case Some(found) => prev[i].(athletes := found.total)
      case None => prev[i])
  }

  /** The merge changes nothing but counts: every entry keeps its place, its sport
      and its colour. */
  lemma MergeKeepsShape(prev: seq<ChartEntry>, results: seq<SportCount>)
    ensures var next := Merge(prev, results);
            |next| == |prev| &&
            forall i :: 0 <= i < |prev| ==> next[i].sport == prev[i].sport && next[i].fill == prev[i].fill
  {
  }

  /** `fetchCounts`: the five requests succeed together and the counts are merged
      in, or one of them fails and the chart stays as it was. */
  function Refresh(prev: seq<ChartEntry>, responses: seq<Outcome<AthletePage>>): (next: seq<ChartEntry>)
    requires |responses| == |SportKeys|
    ensures (exists i :: 0 <= i < |responses| && responses[i].Failed?) ==> next == prev
    ensures (forall i :: 0 <= i < |responses| ==> responses[i].Succeeded?) ==>
              next == Merge(prev, CountsOf(seq(|SportKeys|, i requires 0 <= i < |SportKeys| => responses[i].value)))
  {
    if exists i :: 0 <= i < |responses| && responses[i].Failed? then prev
    else Merge(prev, CountsOf(seq(|SportKeys|, i requires 0 <= i < |SportKeys| => responses[i].value)))
  }

  /** After a successful fetch every slice shows the count of the response of its
      own sport, whatever the slices' order. */
  lemma RefreshShowsEachSportsCount(prev: seq<ChartEntry>, responses: seq<Outcome<AthletePage>>, i: nat)
    requires |responses| == |SportKeys| && i < |prev|
    requires forall j :: 0 <= j < |responses| ==> responses[j].Succeeded?
    ensures Refresh(prev, responses)[i] == prev[i].(athletes := TotalOrLength(responses[KeyIndex(prev[i].sport)].value))
  {
    var pages := seq(|SportKeys|, j requires 0 <= j < |SportKeys| => responses[j].value);
    FindInCounts(pages, prev[i].sport);
  }

  // ---------------------------------------------------------------------------
  // Total and leader

  /** `chartData.reduce((acc, curr) => acc + curr.athletes, 0)`. */
  function Total(chart: seq<ChartEntry>): (total: int)
    ensures chart == [] ==> total == 0
    ensures (forall j :: 0 <= j < |chart| ==> chart[j].athletes >= 0) ==> total >= 0
  {
    if chart == [] then 0 else Total(chart[..|chart| - 1]) + chart[|chart| - 1].athletes
  }

  /** With no negative count, every count is at most the total. */
  lemma {:induction false} CountAtMostTotal(chart: seq<ChartEntry>, k: nat)
    requires k < |chart| && forall j :: 0 <= j < |chart| ==> chart[j].athletes >= 0
    ensures chart[k].athletes <= Total(chart)
  {
    var init := chart[..|chart| - 1];
    TotalNonNegative(init);
    if k < |chart| - 1 {
      assert init[k] == chart[k];
      CountAtMostTotal(init, k);
    }
  }

  lemma {:induction false} TotalNonNegative(chart: seq<ChartEntry>)
    requires forall j :: 0 <= j < |chart| ==> chart[j].athletes >= 0
    ensures Total(chart) >= 0
  {
    if chart != [] {
      TotalNonNegative(chart[..|chart| - 1]);
    }
  }

  /** When no count is positive the total is not positive. */
  lemma {:induction false} TotalOfNonPositive(chart: seq<ChartEntry>)
    requires forall j :: 0 <= j < |chart| ==> chart[j].athletes <= 0
    ensures Total(chart) <= 0
  {
    if chart != [] {
      TotalOfNonPositive(chart[..|chart| - 1]);
    }
  }

  /** The initial chart totals 0. */
  lemma InitialTotalIsZero()
    ensures Total(InitialChartData) == 0
  {
    TotalNonNegative(InitialChartData);
    TotalOfNonPositive(InitialChartData);
  }

  /** The leader the footer names: shown only when the total is positive, and then
      the head of the entries sorted by descending share. The shares are the counts
      divided by the same positive total, so the order is the order of the counts;
      the sort is stable, so a tie goes to the earlier entry. */
  function Leader(chart: seq<ChartEntry>): (top: Option<ChartEntry>)
    ensures top.Some? <==> Total(chart) > 0
    ensures top.Some? ==> chart != [] && top.value == chart[FirstMaxIndex(chart, AthletesOf)]
  {
    if Total(chart) > 0 then
      assert chart != [];
      SortDescHead(chart, AthletesOf);
      Some(SortDesc(chart, AthletesOf)[0])
    else None
  }

  /** The leader has a count no other entry exceeds, and strictly more than every
      entry before it. */
  lemma LeaderIsFirstMaximum(chart: seq<ChartEntry>)
    requires Total(chart) > 0
    ensures var top := Leader(chart).value;
            (forall j :: 0 <= j < |chart| ==> chart[j].athletes <= top.athletes) &&
            exists k :: 0 <= k < |chart| && chart[k] == top && forall j :: 0 <= j < k ==> chart[j].athletes < top.athletes
  {
    var k := FirstMaxIndex(chart, AthletesOf);
    assert IsFirstMax(chart, k, AthletesOf);
    assert forall j :: 0 <= j < |chart| ==> AthletesOf(chart[j]) == chart[j].athletes;
  }

  /** The initial chart names no leader. */
  lemma NoLeaderInitially()
    ensures Leader(InitialChartData).None?
  {
    InitialTotalIsZero();
  }

  /** The leader's share of the total, in percent. */
  function LeaderShare(chart: seq<ChartEntry>): (pct: real)
    requires Total(chart) > 0
    ensures Leader(chart).Some?
    ensures IsPercentOf(pct, Leader(chart).value.athletes, Total(chart))
  {
    Percent(Leader(chart).value.athletes, Total(chart))
  }

  /** `pct` percent of `total` is `count`. */
  predicate IsPercentOf(pct: real, count: int, total: int)
  {
    pct * (total as real) == (count as real) * 100.0
  }

  /** `count / total * 100`. */
  function Percent(count: int, total: int): (pct: real)
    requires total > 0
    ensures IsPercentOf(pct, count, total)
  {
    var c, t := count as real, total as real;
    assert (c / t) * t == c;
    (c / t) * 100.0
  }

  /** With no negative count the leader's share lies in (0, 100]. */
  lemma LeaderShareBounds(chart: seq<ChartEntry>)
    requires Total(chart) > 0 && forall j :: 0 <= j < |chart| ==> chart[j].athletes >= 0
    ensures 0.0 < LeaderShare(chart) <= 100.0
  {
    var top := Leader(chart).value;
    LeaderIsFirstMaximum(chart);
    var k :| 0 <= k < |chart| && chart[k] == top;
    CountAtMostTotal(chart, k);
    if top.athletes <= 0 {
      TotalOfNonPositive(chart);
    }
    PercentBounds(top.athletes, Total(chart));
  }

  /** A positive part of a whole is more than 0% and at most 100% of it. */
  lemma PercentBounds(part: int, whole: int)
    requires 0 < part <= whole
    ensures 0.0 < (part as real / whole as real) * 100.0 <= 100.0
  {
    var a, t := part as real, whole as real;
    var r := a / t;
    assert r * t == a;
  }

  /** The footer line: `<label> leads with <share>%`, the share printed by
      `fixed1` (`toFixed(1)`); nothing when the total is not positive. */
  function LeaderText(chart: seq<ChartEntry>, fixed1: real -> string): (text: Option<string>)
    ensures text.Some? <==> Total(chart) > 0
    ensures text.Some? ==> text.value == LabelOf(Leader(chart).value.sport) + " leads with " + fixed1(LeaderShare(chart)) + "%"
  {
    if Total(chart) > 0 then
      Some(LabelOf(Leader(chart).value.sport) + " leads with " + fixed1(LeaderShare(chart)) + "%")
    else None
  }
}
