/** The registrations chart of the overview: a window of the last 30 days, one
    point per day, and the number of male and female athletes created on each
    day, counted into per-day buckets. */
module BarGraph {
  import opened Common
  import opened Text
  import opened Entities
  import opened Calendar

  /** One day of the chart. */
  datatype RegistrationPoint = RegistrationPoint(date: string, male: nat, female: nat)

  /** The days the chart shows. */
  const ChartDays: nat := 30

  // ---------------------------------------------------------------------------
  // The window of days

  /** The window of the n days ending on `today`, oldest first, all counts zero. */
  function Window(today: CalendarDate, n: nat): (w: seq<RegistrationPoint>)
    requires ValidDate(today)
    ensures |w| == n
  {
    seq(n, j requires 0 <= j < n => RegistrationPoint(KeyDaysBack(today, n - 1 - j), 0, 0))
  }

  /** The place j of the window holds the day k = n - 1 - j days back. */
  lemma WindowDateAt(today: CalendarDate, n: nat, j: nat, k: nat)
    requires ValidDate(today) && j < n && k == n - 1 - j
    ensures Window(today, n)[j] == RegistrationPoint(KeyDaysBack(today, k), 0, 0)
    ensures Window(today, n)[j].date == KeyDaysBack(today, k)
  {
  }

  /** `buildLastNDays(n)`: for i from n - 1 down to 0, the day i days before today. */
  method BuildLastNDays(today: CalendarDate, n: nat) returns (points: seq<RegistrationPoint>)
    requires ValidDate(today)
    ensures points == Window(today, n)
  {
    points := [];
    var i: int := n - 1;
    while i >= 0
      invariant -1 <= i <= n - 1
      invariant |points| == n - 1 - i
      invariant forall j :: 0 <= j < |points| ==> points[j] == Window(today, n)[j]
    {
      WindowDateAt(today, n, |points|, i);
      points := points + [RegistrationPoint(KeyDaysBack(today, i), 0, 0)];
      i := i - 1;
    }
  }

  /** The window ends today. */
  lemma WindowEndsToday(today: CalendarDate, n: nat)
    requires ValidDate(today) && n > 0
    ensures Window(today, n)[n - 1].date == DateKey(today)
  {
    var last := n - 1;
    WindowDateAt(today, n, last, 0);
    ValidDateInKeyRange(today);
  }

  /** Two places of the window hold different days. */
  lemma WindowDatesDiffer(today: CalendarDate, n: nat, i: nat, j: nat)
    requires ValidDate(today) && i < j < n
    ensures Window(today, n)[i].date != Window(today, n)[j].date
  {
    var a: nat, b: nat := n - 1 - j, n - 1 - i;
    WindowDateAt(today, n, i, b);
    WindowDateAt(today, n, j, a);
    KeyDaysBackInjective(today, a, b);
  }

  /** The days of the window are pairwise different: each is strictly earlier than
      the next. */
  lemma WindowDatesDistinct(today: CalendarDate, n: nat)
    requires ValidDate(today)
    ensures DistinctDates(Window(today, n))
  {
    forall i: nat, j: nat | i < j < n
      ensures Window(today, n)[i].date != Window(today, n)[j].date
    {
      WindowDatesDiffer(today, n, i, j);
    }
  }

  predicate DistinctDates(points: seq<RegistrationPoint>)
  {
    forall i, j :: 0 <= i < j < |points| ==> points[i].date != points[j].date
  }

  // ---------------------------------------------------------------------------
  // Counting registrations

  /** `a.createdAt || a.created_at`, when that is not empty. */
  function CreationStamp(a: Athlete): (stamp: Option<string>)
    ensures stamp.Some? <==> Truthy(a.createdAt) || Truthy(a.createdAtLegacy)
    ensures Truthy(a.createdAt) ==> stamp == a.createdAt
    ensures !Truthy(a.createdAt) && Truthy(a.createdAtLegacy) ==> stamp == a.createdAtLegacy
  {
    if Truthy(a.createdAt) then a.createdAt
    else if Truthy(a.createdAtLegacy) then a.createdAtLegacy
    else None
  }

  /** Whether an athlete counts for the day `key` under `gender`. `keyOf` stands
      for `formatDateKey(new Date(stamp))`, the local day of a timestamp. */
  predicate Hit(a: Athlete, key: string, gender: string, keyOf: string -> string)
  {
    CreationStamp(a).Some? && keyOf(CreationStamp(a).value) == key && a.gender == gender
  }

  /** The number of athletes that count for the day `key` under `gender`. */
  function Count(athletes: seq<Athlete>, key: string, gender: string, keyOf: string -> string): (c: nat)
    ensures c <= |athletes|
  {
    if athletes == [] then 0
    else
      var last := athletes[|athletes| - 1];
      Count(athletes[..|athletes| - 1], key, gender, keyOf) + if Hit(last, key, gender, keyOf) then 1 else 0
  }

  /** Counting one more athlete of the list. */
  lemma CountStep(athletes: seq<Athlete>, j: nat, key: string, gender: string, keyOf: string -> string)
    requires j < |athletes|
    ensures Count(athletes[..j + 1], key, gender, keyOf) ==
            Count(athletes[..j], key, gender, keyOf) + if Hit(athletes[j], key, gender, keyOf) then 1 else 0
  {
    assert athletes[..j + 1][..j] == athletes[..j];
  }

  /** The chart after counting: the same days in the same order, each with the
      number of male and of female athletes created on it. */
  function Filled(base: seq<RegistrationPoint>, athletes: seq<Athlete>, keyOf: string -> string): (filled: seq<RegistrationPoint>)
    ensures |filled| == |base|
    ensures forall i :: 0 <= i < |base| ==> filled[i].date == base[i].date
    ensures forall i :: 0 <= i < |base| ==>
              filled[i].male == Count(athletes, base[i].date, "MALE", keyOf) &&
              filled[i].female == Count(athletes, base[i].date, "FEMALE", keyOf)
  {
    seq(|base|, i requires 0 <= i < |base| =>
      RegistrationPoint(base[i].date, Count(athletes, base[i].date, "MALE", keyOf), Count(athletes, base[i].date, "FEMALE", keyOf)))
  }

  /** The set of days of the window. */
  function DateSet(base: seq<RegistrationPoint>): set<string>
  {
    set i | 0 <= i < |base| :: base[i].date
  }

  /** The buckets: per day, the male and the female count. */
  type Buckets = map<string, (nat, nat)>

  /** `base.forEach(p => buckets[p.date] = {male: 0, female: 0})`. */
  method ZeroBuckets(base: seq<RegistrationPoint>) returns (buckets: Buckets)
    ensures buckets.Keys == DateSet(base)
    ensures forall key :: key in buckets ==> buckets[key] == (0, 0)
  {
    buckets := map[];
    var k := 0;
    while k < |base|
      invariant 0 <= k <= |base|
      invariant buckets.Keys == DateSet(base[..k])
      invariant forall key :: key in buckets ==> buckets[key] == (0, 0)
    {
      assert DateSet(base[..k + 1]) == DateSet(base[..k]) + {base[k].date} by {
        assert forall i :: 0 <= i < k ==> base[..k + 1][i] == base[..k][i];
      }
      buckets := buckets[base[k].date := (0, 0)];
      k := k + 1;
    }
    assert base[..|base|] == base;
  }

  /** One turn of the registration loop: an athlete whose creation day has a bucket
      adds 1 to that bucket's `male` for 'MALE' and to its `female` for 'FEMALE'. */
  method AddRegistration(buckets: Buckets, a: Athlete, keyOf: string -> string) returns (next: Buckets)
    ensures next.Keys == buckets.Keys
    ensures forall key :: key in buckets ==>
              next[key] == (buckets[key].0 + (if Hit(a, key, "MALE", keyOf) then 1 else 0),
                            buckets[key].1 + (if Hit(a, key, "FEMALE", keyOf) then 1 else 0))
  {
    next := buckets;
    var stamp := CreationStamp(a);
    if stamp.Some? {
      var key := keyOf(stamp.value);
      if key in next {
        if a.gender == "MALE" {
          next := next[key := (next[key].0 + 1, next[key].1)];
        } else if a.gender == "FEMALE" {
          next := next[key := (next[key].0, next[key].1 + 1)];
        }
      }
    }
  }

  /** The registration loop over all athletes, from zero buckets. */
  method CountRegistrations(zero: Buckets, athletes: seq<Athlete>, keyOf: string -> string) returns (buckets: Buckets)
    requires forall key :: key in zero ==> zero[key] == (0, 0)
    ensures buckets.Keys == zero.Keys
    ensures forall key :: key in buckets ==>
              buckets[key] == (Count(athletes, key, "MALE", keyOf), Count(athletes, key, "FEMALE", keyOf))
  {
    buckets := zero;
    var j := 0;
    while j < |athletes|
      invariant 0 <= j <= |athletes|
      invariant buckets.Keys == zero.Keys
      invariant forall key :: key in buckets ==>
                  buckets[key] == (Count(athletes[..j], key, "MALE", keyOf), Count(athletes[..j], key, "FEMALE", keyOf))
    {
      buckets := AddRegistration(buckets, athletes[j], keyOf);
      forall k | k in buckets
        ensures buckets[k] == (Count(athletes[..j + 1], k, "MALE", keyOf), Count(athletes[..j + 1], k, "FEMALE", keyOf))
      {
        CountStep(athletes, j, k, "MALE", keyOf);
        CountStep(athletes, j, k, "FEMALE", keyOf);
      }
      j := j + 1;
    }
    assert athletes[..|athletes|] == athletes;
  }

  /** The counting step of the chart: zero buckets for the window's days, the
      registration loop, and the window read back through the buckets. */
  method FillBuckets(base: seq<RegistrationPoint>, athletes: seq<Athlete>, keyOf: string -> string)
    returns (filled: seq<RegistrationPoint>)
    ensures filled == Filled(base, athletes, keyOf)
  {
    var zero := ZeroBuckets(base);
    var buckets := CountRegistrations(zero, athletes, keyOf);
    forall i | 0 <= i < |base|
      ensures base[i].date in buckets
    {
      assert base[i].date in DateSet(base);
    }
    filled := seq(|base|, i requires 0 <= i < |base| =>
      RegistrationPoint(base[i].date, buckets[base[i].date].0, buckets[base[i].date].1));
  }

  /** The chart a fetch leaves: the filled window when the response held an array
      of athletes, and the all-zero window when the request failed or the body was
      not an array. */
  method FetchRegistrations(today: CalendarDate, outcome: Outcome<AthletePage>, keyOf: string -> string)
    returns (chart: seq<RegistrationPoint>)
    requires ValidDate(today)
    ensures outcome.Succeeded? && outcome.value.data.IsArray? ==>
              chart == Filled(Window(today, ChartDays), outcome.value.data.items, keyOf)
    ensures !(outcome.Succeeded? && outcome.value.data.IsArray?) ==> chart == Window(today, ChartDays)
  {
    if outcome.Succeeded? && outcome.value.data.IsArray? {
      var base := BuildLastNDays(today, ChartDays);
      chart := FillBuckets(base, outcome.value.data.items, keyOf);
    } else {
      chart := BuildLastNDays(today, ChartDays);
    }
  }

  // ---------------------------------------------------------------------------
  // Properties of the counts

  /** An athlete without a creation day, created outside the window or of another
      gender changes no point; a male or female one adds 1 to its day's column. */
  lemma FilledOfAppend(base: seq<RegistrationPoint>, athletes: seq<Athlete>, a: Athlete, keyOf: string -> string)
    ensures var before, after := Filled(base, athletes, keyOf), Filled(base, athletes + [a], keyOf);
            forall i :: 0 <= i < |base| ==>
              after[i].male == before[i].male + (if Hit(a, base[i].date, "MALE", keyOf) then 1 else 0) &&
              after[i].female == before[i].female + (if Hit(a, base[i].date, "FEMALE", keyOf) then 1 else 0)
    ensures CreationStamp(a).None? || keyOf(CreationStamp(a).value) !in DateSet(base) || (a.gender != "MALE" && a.gender != "FEMALE") ==>
              Filled(base, athletes + [a], keyOf) == Filled(base, athletes, keyOf)
  {
    var s := athletes + [a];
    assert s[..|s| - 1] == athletes;
    var before, after := Filled(base, athletes, keyOf), Filled(base, s, keyOf);
    if CreationStamp(a).None? || keyOf(CreationStamp(a).value) !in DateSet(base) || (a.gender != "MALE" && a.gender != "FEMALE") {
      forall i | 0 <= i < |base|
        ensures after[i] == before[i]
      {
        assert base[i].date in DateSet(base);
      }
    }
  }

  /** With no athletes the filled window is the window itself. */
  lemma FilledOfNone(today: CalendarDate, keyOf: string -> string)
    requires ValidDate(today)
    ensures Filled(Window(today, ChartDays), [], keyOf) == Window(today, ChartDays)
  {
  }

  /** The column totals. */
  function MaleTotal(points: seq<RegistrationPoint>): nat
  {
    if points == [] then 0 else points[0].male + MaleTotal(points[1..])
  }

  function FemaleTotal(points: seq<RegistrationPoint>): nat
  {
    if points == [] then 0 else points[0].female + FemaleTotal(points[1..])
  }

  /** The number of days of `base` an athlete counts for under `gender`. */
  function HitsIn(base: seq<RegistrationPoint>, a: Athlete, gender: string, keyOf: string -> string): nat
  {
    if base == [] then 0 else (if Hit(a, base[0].date, gender, keyOf) then 1 else 0) + HitsIn(base[1..], a, gender, keyOf)
  }

  /** An athlete whose day is not among the days counts for none of them. */
  lemma {:induction false} HitsInMissing(base: seq<RegistrationPoint>, a: Athlete, key: string, gender: string, keyOf: string -> string)
    requires CreationStamp(a).Some? && keyOf(CreationStamp(a).value) == key
    requires forall i :: 0 <= i < |base| ==> base[i].date != key
    ensures HitsIn(base, a, gender, keyOf) == 0
  {
    if base != [] {
      HitsInMissing(base[1..], a, key, gender, keyOf);
    }
  }

  /** With pairwise different days an athlete counts at most once in all. */
  lemma {:induction false} HitsAtMostOnce(base: seq<RegistrationPoint>, a: Athlete, keyOf: string -> string)
    requires DistinctDates(base)
    ensures HitsIn(base, a, "MALE", keyOf) + HitsIn(base, a, "FEMALE", keyOf) <= 1
  {
    if base != [] {
      var rest := base[1..];
      assert DistinctDates(rest) by {
        forall i, j | 0 <= i < j < |rest| ensures rest[i].date != rest[j].date {
          assert rest[i] == base[i + 1] && rest[j] == base[j + 1];
        }
      }
      HitsAtMostOnce(rest, a, keyOf);
      if Hit(a, base[0].date, "MALE", keyOf) || Hit(a, base[0].date, "FEMALE", keyOf) {
        forall i | 0 <= i < |rest| ensures rest[i].date != base[0].date {
          assert rest[i] == base[i + 1];
        }
        HitsInMissing(rest, a, base[0].date, "MALE", keyOf);
        HitsInMissing(rest, a, base[0].date, "FEMALE", keyOf);
      }
    }
  }

  /** Adding an athlete adds its hits to a column total. */
  lemma {:induction false} TotalsOfAppend(base: seq<RegistrationPoint>, athletes: seq<Athlete>, a: Athlete, keyOf: string -> string)
    ensures MaleTotal(Filled(base, athletes + [a], keyOf)) == MaleTotal(Filled(base, athletes, keyOf)) + HitsIn(base, a, "MALE", keyOf)
    ensures FemaleTotal(Filled(base, athletes + [a], keyOf)) == FemaleTotal(Filled(base, athletes, keyOf)) + HitsIn(base, a, "FEMALE", keyOf)
  {
    if base != [] {
      TotalsOfAppend(base[1..], athletes, a, keyOf);
      assert Filled(base, athletes, keyOf)[1..] == Filled(base[1..], athletes, keyOf);
      assert Filled(base, athletes + [a], keyOf)[1..] == Filled(base[1..], athletes + [a], keyOf);
      FilledOfAppend(base, athletes, a, keyOf);
    }
  }

  /** With pairwise different days, such as the window's, the chart never counts
      more registrations than there are athletes. */
  lemma {:induction false} TotalsBounded(base: seq<RegistrationPoint>, athletes: seq<Athlete>, keyOf: string -> string)
    requires DistinctDates(base)
    ensures MaleTotal(Filled(base, athletes, keyOf)) + FemaleTotal(Filled(base, athletes, keyOf)) <= |athletes|
  {
    if athletes == [] {
      ZeroTotals(base, keyOf);
    } else {
      var init, a := athletes[..|athletes| - 1], athletes[|athletes| - 1];
      assert init + [a] == athletes;
      TotalsBounded(base, init, keyOf);
      TotalsOfAppend(base, init, a, keyOf);
      HitsAtMostOnce(base, a, keyOf);
    }
  }

  /** No athletes, no registrations. */
  lemma {:induction false} ZeroTotals(base: seq<RegistrationPoint>, keyOf: string -> string)
    ensures MaleTotal(Filled(base, [], keyOf)) == 0 && FemaleTotal(Filled(base, [], keyOf)) == 0
  {
    if base != [] {
      assert Filled(base, [], keyOf)[1..] == Filled(base[1..], [], keyOf);
      ZeroTotals(base[1..], keyOf);
    }
  }

  /** The fetched chart counts at most one registration per athlete. */
  lemma ChartTotalsBounded(today: CalendarDate, athletes: seq<Athlete>, keyOf: string -> string)
    requires ValidDate(today)
    ensures var chart := Filled(Window(today, ChartDays), athletes, keyOf);
            MaleTotal(chart) + FemaleTotal(chart) <= |athletes|
  {
    WindowDatesDistinct(today, ChartDays);
    TotalsBounded(Window(today, ChartDays), athletes, keyOf);
  }
}
