# Sports admin dashboard — a Dafny model of its logic

This project models the decision logic of a Next.js admin dashboard for a sports
federation. The dashboard covers athletes, teams, events and performances, an overview page
with charts, and an AI chat assistant. Each core source file becomes one Dafny module
that does what that file's code does, branch for branch:

- **Athlete table** (`AthleteColumns`, `AthleteCellAction`):
  - the age from a date of birth;
  - the "primary" discipline and rank chosen by the table's `reduce`. It is not a true
    minimum: an unranked first entry is never replaced, and a tie goes to the later entry;
  - the sport column;
  - the form the edit action opens with. It prefers the team's sport, where the table
    prefers the discipline's.
- **Athlete dialog** (`AthleteDialog`):
  - the blank form and the form filled from an athlete;
  - the height, weight and discipline inputs;
  - the per-sport discipline catalogue;
  - the save command. It validates the form and then picks exactly one of update, team
    create or individual create.
- **Athlete service** (`AthleteService`):
  - the listing query built from conditional spreads. A text filter is sent only when
    truthy; `isActive` is sent whenever it is defined;
  - the legacy `createAthlete` dispatch;
  - the stats query.
- **Public athletes page** (`AthletesPage`): the request's parameters, what a failed
  request leaves, the search filter and the avatar initials.
- **Team and event dialogs** (`TeamDialog`, `EventDialog`, `RandomCode`):
  - prefix-plus-five-digit codes;
  - the team form's schema and its code-prefill effect;
  - the event form's initial values;
  - the event save: its guard, the derived payload, and the choice of update or create.
- **Event table and listing** (`EventColumns`, `EventCellAction`, `EventListing`): the sport
  badge and the date-range cell, the edit form of a row, and the listing's request filters
  and response normalisation.
- **Performance dialog and table** (`PerformanceDialog`, `PerformanceColumns`):
  - record → form strings, and back to a payload through `parseInt` / `parseFloat`;
  - the required fields;
  - the guards on the loaded option lists;
  - the table's cell texts and the PB/SB badge.
- **Overview** (`BarGraph`, `PieGraph`, `RecentAthletes`, `Layout`):
  - the 30-day registration chart. Its window is built by a loop, and a bucket loop counts
    male and female registrations per day;
  - the athletes-by-sport pie: the per-sport counts, the merge, the total and the leader;
  - the recent-activity card: a merge, sorted newest first, cut after five;
  - the two headline totals.
- **Mock store** (`MockApi`):
  - twenty sample athletes and fifty sample products, created by loops in two store objects;
  - the category filter;
  - offset/limit pagination;
  - lookup by id.
- **Navigation and chat** (`SimpleNav`, `AiService`, `Chat`):
  - the highlighted link, which is a prefix test;
  - the classification of a request's outcome into an `ApiResponse`;
  - the chat payload;
  - the chat panel as an object. Its fields are changed by sending, pressing a key and
    clearing.

Shared helpers:

- `Common`: options, outcomes of a request, JavaScript truthiness of strings and numbers,
  `slice`, `filter` and a stable descending sort.
- `Text`: ASCII whitespace, `trim`, case mapping, decimal printing, JavaScript's `parseInt`
  and `parseFloat`, `split`/`join` and `padStart`.
- `Calendar`: Gregorian calendar days as `Date`'s getters give them, stepping back one day,
  and the `YYYY-MM-DD` key.
- `Entities`: the backend records as far as the code reads them.

Fixed parameters stand in for everything outside the code:

- the clock;
- the value of `Math.random()`, a real `u` with `0 <= u < 1`;
- faker's draws and `crypto.randomUUID`;
- the browser's date parsing and locale formatting;
- `toFixed`;
- the `matchSorter` ranking;
- the replies of the backend.

A request's result is a value: `Outcome` is `Failed | Succeeded(value)`. A response body
that may or may not be an array is a `MaybeArray`.

## Model

| member | source | states |
|---|---|---|
| AthleteColumns.CalculateAge | src/features/athletes/components/athlete-tables/columns.tsx:12-26 | the age is the number of birthdays reached by today: the year difference, less one exactly when today's (month, day) is before the birth (month, day) |
| AthleteColumns.AgeOfUtcMidnightBirth | src/features/athletes/components/athlete-tables/columns.tsx:12-26 | the age as written: the birth is the local day of the stored day's midnight UTC, so the age is the true age or one more, and the true age at or east of UTC |
| AthleteColumns.BirthdayCountedEarly | src/features/athletes/components/athlete-tables/columns.tsx:14-22 | someone born 2000-03-15 is shown as 25 on 2025-03-14 at UTC-5, while the true age is 24 |
| AthleteColumns.ReducedIndex | src/features/athletes/components/athlete-tables/columns.tsx:35-40 | after each step of the `reduce`: an unranked first entry stays selected; otherwise the selection is ranked, has the smallest truthy rank seen so far, and no later entry seen has an equal rank (ties go to the later entry) |
| AthleteColumns.PrimaryIndex | src/features/athletes/components/athlete-tables/columns.tsx:35-40 | the `reduce` over a non-empty list selects one of its entries |
| AthleteColumns.GetPrimaryDiscipline | src/features/athletes/components/athlete-tables/columns.tsx:29-43 | 'No Discipline' without disciplines; otherwise the selected entry's discipline code, or 'Unknown' when it has no discipline or an empty code |
| AthleteColumns.GetPrimaryRank | src/features/athletes/components/athlete-tables/columns.tsx:46-60 | null exactly when there are no disciplines or the first is unranked (0 counts as no rank); otherwise a non-zero rank that some entry holds and that no truthy rank is below |
| AthleteColumns.RankCell | src/features/athletes/components/athlete-tables/columns.tsx:168-169 | 'N/A' exactly when the primary rank is null, and `#` followed by the rank otherwise |
| AthleteColumns.ZeroRankFirstShowsNoRank | src/features/athletes/components/athlete-tables/columns.tsx:35-59 | a first discipline ranked 0 hides every later rank (the cell shows 'N/A') while its code is still the primary discipline |
| AthleteColumns.GetSportType | src/features/athletes/components/athlete-tables/columns.tsx:63-73 | the first discipline's sport name when there are disciplines, else the team's sport name, else 'Unknown'; a missing name gives 'Unknown'; never empty |
| AthleteCellAction.DeriveSportType | src/features/athletes/components/athlete-tables/cell-action.tsx:57-63 | the team's sport name first, then the first discipline's sport name, then 'ATHLETICS' |
| AthleteCellAction.ToEntry | src/features/athletes/components/athlete-tables/cell-action.tsx:81-84 | a form entry keeps the rank and takes the discipline's code, or '' without a discipline |
| AthleteCellAction.EditingAthlete | src/features/athletes/components/athlete-tables/cell-action.tsx:65-87 | the edit form copies id, code, names, date of birth, nationality, gender, height, weight, bio, isActive and teamCode; the position code is the nested code or absent; the disciplines keep length and order, entry by entry |
| AthleteCellAction.SportPrecedenceDiffers | src/features/athletes/components/athlete-tables/cell-action.tsx:57-63 | for a football team member with an athletics discipline the table shows ATHLETICS while the edit form starts with FOOTBALL |
| AthleteCellAction.SportPrecedenceAgrees | src/features/athletes/components/athlete-tables/cell-action.tsx:57-63 | when an athlete with disciplines has no named team sport, and some sport is named, the table and the edit form agree |
| AthleteCellAction.EditThenSaveKeepsFields | src/features/athletes/components/athlete-tables/cell-action.tsx:65-87 | a row opened for editing and saved unchanged sends its own code, names, date of birth, height, weight, isActive and the edit form's sport; an empty nationality becomes 'Nigeria' and a missing bio '' (the save's fallbacks, athlete-dialog.tsx:134-138), and an empty gender becomes 'MALE' (the form's fallback when it opens, athlete-dialog.tsx:90; the save passes the gender through) |
| AthleteDialog.BlankForm | src/features/athletes/components/athlete-dialog.tsx:101-114 | the reset form: empty names and code, Nigeria, MALE, ATHLETICS, 0 height and weight, empty bio, active, no disciplines |
| AthleteDialog.InitForm | src/features/athletes/components/athlete-dialog.tsx:80-116 | null resets to the blank form; an athlete's values are copied, with 'Nigeria', 'MALE', 'ATHLETICS', '' and true in place of missing nationality, gender, sport, bio and isActive, and [] for missing disciplines |
| AthleteDialog.InitFormIdempotent | src/features/athletes/components/athlete-dialog.tsx:82-99 | initialising from an initialised form changes nothing |
| AthleteDialog.NumberOrZero | src/features/athletes/components/athlete-dialog.tsx:362 | `x \|\| 0` on a parsed number: NaN becomes 0 and an integer is kept |
| AthleteDialog.SetHeight | src/features/athletes/components/athlete-dialog.tsx:359-364 | typing sets the height to `parseInt(text) \|\| 0` and changes no other field |
| AthleteDialog.SetWeight | src/features/athletes/components/athlete-dialog.tsx:374-379 | typing sets the weight to `parseInt(text) \|\| 0` and changes no other field |
| AthleteDialog.SetHeightOfPrinted | src/features/athletes/components/athlete-dialog.tsx:359-379 | typing the printed value of a number stores that number, for height and for weight |
| AthleteDialog.SetHeightOfNonNumber | src/features/athletes/components/athlete-dialog.tsx:362 | text `parseInt` cannot read stores 0 |
| AthleteDialog.SelectDiscipline | src/features/athletes/components/athlete-dialog.tsx:435-440 | choosing a discipline replaces the list by exactly that discipline at rank 1 and changes nothing else |
| AthleteDialog.SelectedDisciplineCode | src/features/athletes/components/athlete-dialog.tsx:434 | the picker shows the first discipline's code, or '' when there is none |
| AthleteDialog.SelectThenShow | src/features/athletes/components/athlete-dialog.tsx:434-440 | the picker shows the discipline just chosen |
| AthleteDialog.ExactlyOneGroupShown | src/features/athletes/components/athlete-dialog.tsx:399-430 | once a sport is chosen, exactly one of the team inputs and the discipline picker is shown |
| AthleteDialog.DisciplineOptions | src/features/athletes/components/athlete-dialog.tsx:446-477 | ten athletics codes, five wrestling and five boxing codes, none for any other sport |
| AthleteDialog.CatalogueDisjoint | src/features/athletes/components/athlete-dialog.tsx:446-477 | no code is offered for two sports or twice for one sport |
| AthleteDialog.TeamSportsHaveNoCatalogue | src/features/athletes/components/athlete-dialog.tsx:446-477 | football and basketball are offered no disciplines |
| AthleteDialog.BasePayload | src/features/athletes/components/athlete-dialog.tsx:129-146 | the fields every save sends: the form's own, with a non-empty nationality (the form's when set), bio '' and isActive true when missing |
| AthleteDialog.InitFormKeepsBasePayload | src/features/athletes/components/athlete-dialog.tsx:82-146 | the form an athlete opens with sends the same nationality, bio and isActive as the athlete, and the same whole base payload when gender and sport are set |
| AthleteDialog.HandleSave | src/features/athletes/components/athlete-dialog.tsx:118-196 | rejected with the required-fields message exactly when a name or the code is empty; an update keyed by a non-zero id sends only the base fields; a new football/basketball athlete needs both team fields, else it is rejected; any other sport creates an individual with its disciplines or the default 100M at rank 1; every create is complete |
| AthleteService.ListQuery | src/features/athletes/service/athlete.service.ts:15-29 | each text filter is in the query exactly when truthy, with its value; isActive exactly when defined, false included; no other key; no parameters give an empty query |
| AthleteService.InactiveFilterIsSent | src/features/athletes/service/athlete.service.ts:27 | a request for inactive athletes sends isActive = false and nothing else |
| AthleteService.CreateAthlete | src/features/athletes/service/athlete.service.ts:286-296 | team exactly when both team fields are truthy; otherwise individual exactly when disciplines are present; otherwise the undetermined-type error |
| AthleteService.EmptyDisciplinesAreIndividual | src/features/athletes/service/athlete.service.ts:291-292 | an empty disciplines array is truthy and selects the individual create |
| AthleteService.StatsQuery | src/features/athletes/service/athlete.service.ts:224 | seasonId is sent exactly when truthy, as text that reads back as the id |
| AthletesPage.FetchParams | src/app/athletes/page.tsx:37-41 | page '1', limit '100', the search term only when non-empty, no other filter |
| AthletesPage.FetchQueryShape | src/app/athletes/page.tsx:37-41 | the query sent has exactly page, limit and (for a non-empty term) search |
| AthletesPage.AfterFetch | src/app/athletes/page.tsx:42-46 | a failed request leaves an empty list; a successful one the response's data |
| AthletesPage.FilterMatching | src/app/athletes/page.tsx:53-57 | `filter`: an athlete is kept exactly when its lower-cased `first last code` contains the lower-cased term, each kept athlete as often as it is loaded; never more athletes than given |
| AthletesPage.FilterMatchingKeepsOrder | src/app/athletes/page.tsx:53-57 | the filter keeps the loaded order: filtering a concatenation is the concatenation of the filtered parts, and one athlete gives itself or nothing |
| AthletesPage.FilteredAthletes | src/app/athletes/page.tsx:52-58 | a non-array state lists nobody; an array lists exactly its matching athletes, each as often as it occurs |
| AthletesPage.EmptyTermKeepsAll | src/app/athletes/page.tsx:52-58 | an empty term lists every athlete, in order |
| AthletesPage.FailedFetchListsNothing | src/app/athletes/page.tsx:44-58 | after a failed request no athlete is listed, whatever the term |
| AthletesPage.GetInitials | src/app/athletes/page.tsx:60-62 | one upper-cased character per non-empty name, first name first; no lower-case letter is left |
| TeamDialog.SportIdToPrefix | src/features/teams/components/team-dialog.tsx:68-83 | '1'..'5' map to BB, FB, ATH, WR, BX; TM exactly for any other or no id |
| TeamDialog.SchemaErrors | src/features/teams/components/team-dialog.tsx:44-48 | each of the three zod messages is reported exactly when its rule fails: code shorter than 2, name shorter than 2, no sport |
| TeamDialog.SchemaValid | src/features/teams/components/team-dialog.tsx:44-48 | the form passes exactly when the schema reports no message |
| TeamDialog.PrefixesDistinct | src/features/teams/components/team-dialog.tsx:68-83 | the five sports get five different prefixes |
| TeamDialog.GenerateTeamCode | src/features/teams/components/team-dialog.tsx:85-88 | the prefix (TM by default) followed by exactly five digits that read back as the drawn number |
| TeamDialog.GeneratedCodeIsLongEnough | src/features/teams/components/team-dialog.tsx:44-48 | every generated code passes the schema's two-character code rule |
| TeamDialog.TeamForm.constructor | src/features/teams/components/team-dialog.tsx:100-107 | the default values are the given team's, or empty |
| TeamDialog.TeamForm.PrefillCode | src/features/teams/components/team-dialog.tsx:112-120 | for a new team in an open dialog whose code is shorter than two characters, the code becomes one generated from the selected sport; otherwise it is kept; name and sport never change; afterwards a new team's open form has a valid code |
| RandomCode.FiveDigitNumber | src/features/teams/components/team-dialog.tsx:86 | `Math.floor(10000 + Math.random() * 90000)` lies in [10000, 99999] |
| RandomCode.PrefixedCode | src/features/events/components/event-dialog.tsx:42-45 | `${prefix}${random}`: the prefix, then five digits that read back as the drawn number |
| EventDialog.GenerateEventCode | src/features/events/components/event-dialog.tsx:42-45 | 'EVT' followed by five digits, eight characters in all |
| EventDialog.InitialForm | src/features/events/components/event-dialog.tsx:56-65 | a new event: no id, empty name, a generated code, ATHLETICS, this year, season 1, gameday 1, SCHEDULED, and today's date as start |
| EventDialog.OpenWith | src/features/events/components/event-dialog.tsx:67-69 | given event data replaces the form; no data keeps it |
| EventDialog.InitialFormNeedsName | src/features/events/components/event-dialog.tsx:74 | a new event's form is not saved until it has a name, and is saved once it has one |
| EventDialog.IsoMidnight | src/features/events/components/event-dialog.tsx:76-78 | the ISO text of midnight UTC of the given day starts with the day |
| EventDialog.DateYear | src/features/events/components/event-dialog.tsx:75 | `new Date(startDate).getFullYear()` at a given UTC offset: none exactly when the text names no `YYYY-MM-DD` day; otherwise the day's year, or the year before exactly on 1 January west of UTC |
| EventDialog.LocalYearOfUtcMidnight | src/features/events/components/event-dialog.tsx:75 | the local year of a day's midnight UTC differs from the day's own year exactly on 1 January west of UTC, and is the previous year then |
| EventDialog.DateYearOfKey | src/features/events/components/event-dialog.tsx:75 | for the text of a day with a four-digit year, the year as written is the local year of that day's midnight UTC |
| EventDialog.PayloadYear | src/features/events/components/event-dialog.tsx:75 | the corrected year: `parseInt` of the start date, which reads the digits before its first '-'; none when no number leads it |
| EventDialog.PayloadYearOfKey | src/features/events/components/event-dialog.tsx:75 | for a `YYYY-MM-DD` date the corrected year is that date's year |
| EventDialog.NewYearsDayWestOfUtc | src/features/events/components/event-dialog.tsx:75 | for 2025-01-01 at UTC-5 the year as written is 2024 while the corrected year is 2025 |
| EventDialog.LocalYearAgreesElsewhere | src/features/events/components/event-dialog.tsx:75 | at or east of UTC, and on every day but 1 January, the year as written and the corrected year agree and are the date's year |
| EventDialog.SavePayload | src/features/events/components/event-dialog.tsx:75-95 | the payload as the dialog builds it: the form with only its year and dates replaced, the year as written (`DateYear`), both dates at midnight UTC, and the end date exactly when it is not empty |
| EventDialog.CorrectedSavePayload | src/features/events/components/event-dialog.tsx:75-95 | the same payload with the corrected year (`PayloadYear`) |
| EventDialog.SavePayloadsAgreeIff | src/features/events/components/event-dialog.tsx:75-95 | for a four-digit-year start date the two payloads differ in the year alone, and are equal exactly unless the day is 1 January west of UTC |
| EventDialog.HandleSave | src/features/events/components/event-dialog.tsx:71-96 | nothing is saved exactly when name, code or start date is empty; otherwise an update when the form has a non-zero event id and a create when not, both with the payload as written |
| EventColumns.SportLabel | src/features/events/components/event-tables/columns.tsx:33 | the sport's name, or 'Unknown' |
| EventColumns.DateCell | src/features/events/components/event-tables/columns.tsx:56-64 | the start text always leads, and is '—' without a start date; `start - end` when the end is set and formats to text, just the start when it is not set |
| EventCellAction.DayPart | src/features/events/components/event-tables/cell-action.tsx:53-54 | `slice(0, 10)`: a prefix of at most ten characters |
| EventCellAction.EditPayload | src/features/events/components/event-tables/cell-action.tsx:44-58 | ids, name, code and status are copied; the sport falls back to ATHLETICS; the dates keep their day part and an empty end is dropped; a falsy venue, gender, location or description becomes absent |
| EventCellAction.DayPartOfIsoMidnight | src/features/events/components/event-tables/cell-action.tsx:53 | the day part of a saved start timestamp is the saved day |
| EventCellAction.EditThenSaveKeepsStart | src/features/events/components/event-tables/cell-action.tsx:44-58 | editing a saved event and saving it again with the corrected year sends the same start timestamp, the same id and the year of the start day |
| EventCellAction.EditThenSaveAsWritten | src/features/events/components/event-tables/cell-action.tsx:44-58 | the same round trip through the save as written keeps the start timestamp and the id, and sends the start day's year exactly unless it is 1 January west of UTC |
| EventListing.ListFilters | src/features/events/components/event-listing.tsx:13-17 | page and limit default to '1' and '10'; search is present exactly when truthy |
| EventListing.NormalizeEvents | src/features/events/components/event-listing.tsx:21-25 | `data` when it is an array, else `data.data` when that is an array, else no events |
| EventListing.EventsTotal | src/features/events/components/event-listing.tsx:26-29 | the reported numeric total, else the number of events read |
| EventListing.Listing | src/features/events/components/event-listing.tsx:8-35 | a failure shows no events and total 0; otherwise the normalised events and total, which agree unless the data is an object |
| Entities.TotalOrLength | src/app/dashboard/overview/layout.tsx:35-37 | `total ?? (array ? length : 0)`: a sent total is used even when 0, else the data's length, else 0 |
| Entities.TotalZeroIsKept | src/app/dashboard/overview/layout.tsx:36 | a reported total of 0 is kept even when the page holds records |
| Entities.SportNameOr | src/features/events/components/event-tables/cell-action.tsx:48 | `sport?.name \|\| fallback` |
| Layout.TotalAthletes | src/app/dashboard/overview/layout.tsx:30-40 | 0 on failure, else the reported total or the data's length |
| Layout.TotalEvents | src/app/dashboard/overview/layout.tsx:42-53 | 0 on failure, else the number of events normalised from the response |
| Layout.LayoutIgnoresReportedTotal | src/app/dashboard/overview/layout.tsx:50 | the layout counts the events it received while the listing pages by the reported total, so they disagree whenever the two differ |
| PerformanceDialog.AllFieldsComplete | src/features/performances/components/performance-dialog.tsx:165-199 | the form has a default for every optional field |
| PerformanceDialog.SchemaErrors | src/features/performances/components/performance-dialog.tsx:51-55 | each of the three zod messages is reported exactly when its field is empty: athlete, event, date |
| PerformanceDialog.SchemaValid | src/features/performances/components/performance-dialog.tsx:51-55 | the form passes exactly when the schema reports no message |
| PerformanceDialog.DefaultText | src/features/performances/components/performance-dialog.tsx:169 | a present field's decimal text, '' for an absent one |
| PerformanceDialog.Defaults | src/features/performances/components/performance-dialog.tsx:164-199 | every field's default is its decimal text or ''; the ids as text or ''; the record's date or today; its notes or '' |
| PerformanceDialog.DefaultsAndSchema | src/features/performances/components/performance-dialog.tsx:51-55 | a new performance's form does not pass the schema (no athlete or event is chosen); a record's form does |
| PerformanceDialog.Submit | src/features/performances/components/performance-dialog.tsx:203-254 | the ids are always parsed, the notes pass through; a field is sent exactly when its text is not empty, read with `parseFloat` for points, time, distance and height and `parseInt` otherwise |
| PerformanceDialog.DefaultsThenSubmit | src/features/performances/components/performance-dialog.tsx:164-254 | opening a record and submitting it unchanged sends its ids and exactly its fields with their own values, 0 included |
| PerformanceDialog.NewFormSendsNoStats | src/features/performances/components/performance-dialog.tsx:164-254 | a new performance sends no optional field until one is typed in |
| PerformanceDialog.LoadOptions | src/features/performances/components/performance-dialog.tsx:132-160 | a non-array list becomes []; a failed load keeps the lists and sets the load error; a successful one clears it |
| PerformanceColumns.AthleteCell | src/features/performances/components/performance-tables/columns.tsx:18-26 | 'Unknown Athlete' without an athlete, else `first last (code)` |
| PerformanceColumns.EventCell | src/features/performances/components/performance-tables/columns.tsx:40-44 | 'Unknown Event' without an event, else its name |
| PerformanceColumns.DisciplineCell | src/features/performances/components/performance-tables/columns.tsx:58-66 | 'N/A' without a discipline, else its name |
| PerformanceColumns.StatCell | src/features/performances/components/performance-tables/columns.tsx:91-140 | 'N/A' for a missing or 0 value, else the value's text between the cell's leading and trailing unit |
| PerformanceColumns.PositionCellReadsBack | src/features/performances/components/performance-tables/columns.tsx:92-95 | a shown position is '#' and text that reads back as the position; position 0 shows 'N/A' |
| PerformanceColumns.TimeCellReadsBack | src/features/performances/components/performance-tables/columns.tsx:105-106 | a shown time reads back through `parseFloat` as the stored time |
| PerformanceColumns.Badge | src/features/performances/components/performance-tables/columns.tsx:148-172 | each badge exactly for its combination of the two flags: PB & SB, PB, SB, N/A |
| BarGraph.WindowDateAt | src/features/overview/components/bar-graph.tsx:32-41 | place j of the n-day window holds the day n - 1 - j days before today with zero counts, so the window runs oldest first |
| BarGraph.BuildLastNDays | src/features/overview/components/bar-graph.tsx:32-41 | the loop from i = n - 1 down to 0 builds exactly that window |
| BarGraph.WindowEndsToday | src/features/overview/components/bar-graph.tsx:35-38 | the window's last day is today |
| BarGraph.WindowDatesDistinct | src/features/overview/components/bar-graph.tsx:32-41 | the window's days are pairwise different |
| BarGraph.CreationStamp | src/features/overview/components/bar-graph.tsx:85-86 | `createdAt \|\| created_at`; none exactly when both are empty |
| BarGraph.Count | src/features/overview/components/bar-graph.tsx:84-93 | the number of athletes of a gender created on a day, at most the number of athletes |
| BarGraph.Filled | src/features/overview/components/bar-graph.tsx:95-99 | the chart keeps the window's days and order, each with its male and female counts |
| BarGraph.ZeroBuckets | src/features/overview/components/bar-graph.tsx:82 | one zero bucket for every day of the window and no other |
| BarGraph.AddRegistration | src/features/overview/components/bar-graph.tsx:84-93 | one athlete adds 1 to its creation day's bucket in its gender's column; every other bucket, and the set of days, stay as they were |
| BarGraph.CountRegistrations | src/features/overview/components/bar-graph.tsx:84-93 | the bucket loop ends with each day's male and female counts, on the same days |
| BarGraph.FillBuckets | src/features/overview/components/bar-graph.tsx:80-99 | buckets, loop and read-back give the filled chart |
| BarGraph.FetchRegistrations | src/features/overview/components/bar-graph.tsx:68-107 | the filled 30-day window after a response with an array of athletes, the all-zero window otherwise |
| BarGraph.FilledOfAppend | src/features/overview/components/bar-graph.tsx:85-91 | one more athlete adds 1 to its day's male or female column; without a creation day, outside the window or of another gender it changes nothing |
| BarGraph.FilledOfNone | src/features/overview/components/bar-graph.tsx:101-103 | with no athletes the chart is the all-zero window |
| BarGraph.HitsAtMostOnce | src/features/overview/components/bar-graph.tsx:84-93 | over pairwise different days an athlete counts at most once, in one column |
| BarGraph.TotalsBounded | src/features/overview/components/bar-graph.tsx:111-117 | with pairwise different days the two column totals add up to at most the number of athletes |
| BarGraph.ChartTotalsBounded | src/features/overview/components/bar-graph.tsx:111-117 | the fetched chart never counts more registrations than athletes |
| Calendar.PrevDay | src/features/overview/components/bar-graph.tsx:37 | `setDate(getDate() - 1)`: a valid, strictly earlier day, across month and year ends |
| Calendar.DaysBack | src/features/overview/components/bar-graph.tsx:36-37 | i days back is a valid day, earlier than the start for i > 0 |
| Calendar.DaysBackDecreasing | src/features/overview/components/bar-graph.tsx:35-38 | further back is strictly earlier |
| Calendar.Pad2 | src/features/overview/components/bar-graph.tsx:27-28 | a month or day of the calendar as two digits |
| Calendar.Pad2IsPadStart | src/features/overview/components/bar-graph.tsx:27-28 | those two digits are `String(n).padStart(2, '0')` |
| Calendar.DateKey | src/features/overview/components/bar-graph.tsx:25-30 | `formatDateKey`: the year's digits followed by `-MM-DD`, six characters more |
| Calendar.DateKeyInjective | src/features/overview/components/bar-graph.tsx:25-30 | different days give different keys |
| Calendar.KeyDaysBackIsDateKey | src/features/overview/components/bar-graph.tsx:35-38 | the key of the day i days back is `formatDateKey` of that day |
| Calendar.KeyDaysBackInjective | src/features/overview/components/bar-graph.tsx:35-38 | the keys of different days back from one day differ |
| Calendar.ParseIntOfDateKey | src/features/events/components/event-dialog.tsx:75 | `parseInt` of a date key reads its year |
| Calendar.DayOfDateText | src/features/events/components/event-dialog.tsx:75 | the day a `YYYY-MM-DD` text names, read as `Date` reads a date-only text: a valid day with a year of at most four digits, and none for any other text |
| Calendar.DayOfDateTextOfKey | src/features/events/components/event-dialog.tsx:75 | the key of a day with a four-digit year reads back as that day |
| Calendar.LocalDayOfUtcMidnight | src/features/athletes/components/athlete-tables/columns.tsx:14 | the local day of a day's midnight UTC: the day itself at or east of UTC, the day before west of it |
| PieGraph.KeyIndex | src/features/overview/components/pie-graph.tsx:73-79 | each sport's place among the fetched sports |
| PieGraph.FromApi | src/features/overview/components/pie-graph.tsx:36-42 | the sport an API name stands for, whose API name it is |
| PieGraph.ToApiBijective | src/features/overview/components/pie-graph.tsx:36-42 | `sportKeyToApi` is a bijection onto the five API names |
| PieGraph.ToApiInjective | src/features/overview/components/pie-graph.tsx:36-42 | different sports are fetched under different names |
| PieGraph.LabelOf | src/features/overview/components/pie-graph.tsx:214-220 | every sport has a non-empty label |
| PieGraph.InitialChartShape | src/features/overview/components/pie-graph.tsx:44-51 | the initial chart lists the sports in fetch order, each at 0 with its own colour |
| PieGraph.CountParams | src/features/overview/components/pie-graph.tsx:82-86 | one sport's request: its API name, page 1, limit 1 |
| PieGraph.CountQueryShape | src/features/overview/components/pie-graph.tsx:82-86 | the query carries exactly page, limit and sportType |
| PieGraph.CountsOf | src/features/overview/components/pie-graph.tsx:80-93 | one count per sport in fetch order, each the total-or-length of its response |
| PieGraph.FindCount | src/features/overview/components/pie-graph.tsx:97 | `find`: none exactly when no count has the sport, else the first that has it |
| PieGraph.FindInCounts | src/features/overview/components/pie-graph.tsx:88-97 | the count found for a sport is the one of its own response |
| PieGraph.Merge | src/features/overview/components/pie-graph.tsx:95-99 | each entry takes the count of its sport when there is one and is kept otherwise |
| PieGraph.MergeKeepsShape | src/features/overview/components/pie-graph.tsx:95-99 | the merge keeps every entry's place, sport and colour |
| PieGraph.Refresh | src/features/overview/components/pie-graph.tsx:71-104 | when any request fails the chart stays as it was; otherwise the counts are merged in |
| PieGraph.RefreshShowsEachSportsCount | src/features/overview/components/pie-graph.tsx:80-99 | after a successful fetch every slice shows its own sport's count, whatever the slices' order |
| PieGraph.CountAtMostTotal | src/features/overview/components/pie-graph.tsx:66-68 | with no negative count every count is at most the total |
| PieGraph.Total | src/features/overview/components/pie-graph.tsx:66-68 | the `reduce` sum: 0 for no entries, never negative when no count is |
| PieGraph.InitialTotalIsZero | src/features/overview/components/pie-graph.tsx:44-68 | the initial chart totals 0 |
| PieGraph.Leader | src/features/overview/components/pie-graph.tsx:204-213 | a leader exactly when the total is positive, and then the first entry with the largest count |
| PieGraph.LeaderIsFirstMaximum | src/features/overview/components/pie-graph.tsx:207-213 | no entry has more athletes than the leader, and every entry before it has fewer |
| PieGraph.NoLeaderInitially | src/features/overview/components/pie-graph.tsx:204 | the initial chart names no leader |
| PieGraph.LeaderShare | src/features/overview/components/pie-graph.tsx:210 | for a positive total there is a leader, and its share is the percentage its count makes of the total |
| PieGraph.LeaderShareBounds | src/features/overview/components/pie-graph.tsx:210 | with no negative count the leader's share lies in (0, 100] |
| PieGraph.LeaderText | src/features/overview/components/pie-graph.tsx:204-221 | the footer text exactly when the total is positive: the leader's label, 'leads with', its share and '%' |
| RecentAthletes.Initials | src/features/overview/components/recent-athletes.tsx:22-26 | the upper-cased first characters, one or two of them, and 'NA' exactly when both names are empty |
| RecentAthletes.AthleteItem | src/features/overview/components/recent-athletes.tsx:40-49 | id `ath-<id>`, the full name, 'New athlete registered', the creation time or now, the avatar and the initials |
| RecentAthletes.FirstNameOf | src/features/overview/components/recent-athletes.tsx:54 | the athlete's first name, or 'Unknown'; never empty |
| RecentAthletes.LastNameOf | src/features/overview/components/recent-athletes.tsx:55 | the athlete's last name, or '' |
| RecentAthletes.DisciplineOf | src/features/overview/components/recent-athletes.tsx:56-58 | the discipline's name, else the sport's name for a team sport, else 'Performance' |
| RecentAthletes.EventNameOf | src/features/overview/components/recent-athletes.tsx:59 | the event's name, or '' |
| RecentAthletes.PerfDescription | src/features/overview/components/recent-athletes.tsx:64 | ' • ' and the event's name appear exactly when the name is not empty |
| RecentAthletes.PerfStamp | src/features/overview/components/recent-athletes.tsx:60 | the performance's date, else its creation time, else now |
| RecentAthletes.PerfItem | src/features/overview/components/recent-athletes.tsx:52-71 | id `perf-` with the id or a UUID, the names, the description, the stamp, no avatar and the initials |
| RecentAthletes.PerfInitialsStartWithFirstName | src/features/overview/components/recent-athletes.tsx:54-68 | a performance's initials never fall back to 'NA': they start with the first name's initial |
| RecentAthletes.AllItems | src/features/overview/components/recent-athletes.tsx:40-73 | all athlete items first, then all performance items, a missing list counting as empty |
| RecentAthletes.Recent | src/features/overview/components/recent-athletes.tsx:73-75 | min(5, n) items, newest first, all of them taken from the given ones |
| RecentAthletes.LeftOutIsNotNewer | src/features/overview/components/recent-athletes.tsx:73-75 | an item left off the card is no newer than any item on it |
| RecentAthletes.RecentKeepsAllWhenFew | src/features/overview/components/recent-athletes.tsx:73-75 | with five items or fewer every item is shown |
| MockApi.FilterByCategories | src/constants/mock-api.ts:76-80 | no categories keeps every record; otherwise exactly the records whose category is listed, each as often as it is stored; never more |
| MockApi.FilterByCategoriesKeepsOrder | src/constants/mock-api.ts:76-80 | the filter keeps the stored order: a concatenation filters part by part, and one record gives itself or nothing |
| MockApi.GetAllOf | src/constants/mock-api.ts:73-89 | the category filter, then the search ranking only for a non-empty search |
| MockApi.CategoriesOf | src/constants/mock-api.ts:105 | no categories for missing or empty text; otherwise the '.'-separated parts, which join back to the text |
| MockApi.ListPage | src/constants/mock-api.ts:93-129 | page 1 and limit 10 by default; offset (page - 1) * limit; the items are `slice(offset, offset + limit)`; the total counts every match |
| MockApi.PageIsWindow | src/constants/mock-api.ts:113-114 | from page 1 on, a page is the contiguous run of at most limit items at the offset |
| MockApi.DefaultPage | src/constants/mock-api.ts:94-95 | the default page is the first ten items |
| MockApi.ConsecutivePagesTile | src/constants/mock-api.ts:113-114 | pages p and p + 1 together are the run of 2 * limit items from page p's offset |
| MockApi.FindFirst | src/constants/mock-api.ts:136 | `find`: none exactly when nothing matches, else the first match |
| MockApi.LookupById | src/constants/mock-api.ts:132-154 | not found exactly when no record has the id, with the not-found message; otherwise the first such record with the found message |
| MockApi.FakeAthletes.constructor | src/constants/mock-api.ts:26 | the store starts empty |
| MockApi.FakeAthletes.Initialize | src/constants/mock-api.ts:29-63 | twenty records, ids 1 to 20 in order, each built by the generator for its id |
| MockApi.FakeAthletes.GetAll | src/constants/mock-api.ts:66-90 | without a search, exactly the category filter of the records: those whose discipline id is listed (all without categories), in order and each as often as stored |
| MockApi.FakeAthletes.GetAthletes | src/constants/mock-api.ts:93-129 | a page of the matches of the split categories and the search, with their total |
| MockApi.FakeAthletes.GetAthleteById | src/constants/mock-api.ts:132-154 | not found exactly when no record has the id; otherwise a stored record with that id and the found message |
| MockApi.InitializedIdsAreFound | src/constants/mock-api.ts:58-62 | after initialisation each id from 1 to 20 finds the record at its place |
| MockApi.FakeProducts.constructor | src/constants/mock-api.ts:172 | the store starts empty |
| MockApi.FakeProducts.Initialize | src/constants/mock-api.ts:175-205 | fifty records, ids 1 to 50 in order, each built by the generator for its id with a category drawn from the fixed list of categories |
| MockApi.FakeProducts.GetAll | src/constants/mock-api.ts:208-232 | without a search, exactly the category filter of the products: those whose category is listed (all without categories), in order and each as often as stored |
| MockApi.FakeProducts.GetProducts | src/constants/mock-api.ts:235-271 | a page of the matches of the split categories and the search, with their total |
| MockApi.FakeProducts.GetProductById | src/constants/mock-api.ts:274-296 | not found exactly when no product has the id; otherwise a stored product with that id and the found message |
| SimpleNav.IsActive | src/components/simple-nav.tsx:28-30 | a root link is highlighted exactly on the root; any other link exactly when its target is a prefix of the path |
| SimpleNav.ExactMatchIsActive | src/components/simple-nav.tsx:28-29 | a link is highlighted on its own page |
| SimpleNav.RootOnlyOnRoot | src/components/simple-nav.tsx:28-30 | a root link would be highlighted exactly on the root |
| SimpleNav.NavigationIsPrefixTest | src/components/simple-nav.tsx:8-30 | no link targets the root, so highlighting is exactly a prefix test |
| SimpleNav.HomeworkActivatesHome | src/components/simple-nav.tsx:28-30 | '/homework' and '/home/settings' highlight Home; '/hom' does not |
| SimpleNav.TargetsArePrefixFree | src/components/simple-nav.tsx:8-13 | no link's target is a prefix of another's |
| SimpleNav.AtMostOneActive | src/components/simple-nav.tsx:8-30 | whatever the path, at most one link is highlighted |
| AiService.StatusErrorText | src/app/home/service/ai.ts:47 | the body's error, else its message, else `HTTP error! status: N`; never empty |
| AiService.HandleRequest | src/app/home/service/ai.ts:29-66 | a response passes data and status with no error; an error status gives no data, its error text and the status; no response and a setup failure give no data, their message and status 0 |
| AiService.ErrorIffFailed | src/app/home/service/ai.ts:39-65 | an error exactly when the request failed, and then a non-empty one and no data |
| AiService.StatusWithoutBody | src/app/home/service/ai.ts:47 | a failing status without an error body gives `HTTP error! status: ` followed by text that `parseInt` reads back as the status; different statuses give different messages |
| AiService.ToWire | src/app/home/service/ai.ts:76-77 | a message is sent as its role and content |
| AiService.ChatPayload | src/app/home/service/ai.ts:73-79 | the input, and the history with its length and order kept, each message reduced to role and content |
| AiService.PayloadIgnoresTimestamps | src/app/home/service/ai.ts:75-78 | histories differing only in timestamps give the same payload |
| AiService.PayloadOfAppend | src/app/home/service/ai.ts:75-78 | a longer history's payload extends the shorter one's |
| Chat.FailureText | src/app/home/chat.tsx:48 | the reply's error, or 'Failed to get response'; never empty |
| Chat.ReplyMessage | src/app/home/chat.tsx:47-69 | an assistant message: the reply's text, or the apology followed by the error |
| Chat.CanSend | src/app/home/chat.tsx:31 | a send goes ahead exactly when the input is not all whitespace and no reply is pending |
| Chat.AfterSend | src/app/home/chat.tsx:30-74 | nothing without trimmed input or while loading; otherwise the trimmed user message and the answer to the request with the earlier history are appended, the input is cleared, loading ends, and the error is set exactly when the reply failed |
| Chat.BeginSend | src/app/home/chat.tsx:30-42 | the part before the `await`: when a send can go ahead, the trimmed input is appended as the user's message, the input is cleared, loading starts and the error is reset; otherwise nothing changes |
| Chat.FinishSend | src/app/home/chat.tsx:44-72 | the part after it, on the panel as it then is: the answer or apology is appended, loading ends, a failure sets the error and a success keeps it, the input is kept |
| Chat.SendIsBeginThenFinish | src/app/home/chat.tsx:30-74 | with nothing in between, the two parts make up the whole send |
| Chat.AfterKeyPress | src/app/home/chat.tsx:76-81 | Enter without Shift sends; any other key changes nothing |
| Chat.AfterClear | src/app/home/chat.tsx:83-86 | no messages and no error; input and loading kept |
| Chat.SendKeepsValid | src/app/home/chat.tsx:30-74 | a send keeps the conversation alternating user/assistant and any error matching the last apology |
| Chat.ClearKeepsValid | src/app/home/chat.tsx:83-86 | clearing keeps that invariant |
| Chat.ClearWhilePendingBreaksPairing | src/app/home/chat.tsx:83-103 | 'Clear Chat' is offered while a reply is pending; clearing then leaves the reply alone in the list, which no longer alternates from a user message |
| Chat.ValidIsConsistent | src/app/home/chat.tsx:30-86 | a panel between sends is consistent: roles alternate, the last message is the assistant's, an error is the last apology's |
| Chat.BeginKeepsConsistent | src/app/home/chat.tsx:30-42 | starting a send keeps consistency: alternating roles, while loading no error and a user's last message |
| Chat.FinishKeepsConsistent | src/app/home/chat.tsx:44-72 | a reply arriving while loading keeps consistency |
| Chat.ClearKeepsConsistent | src/app/home/chat.tsx:83-86 | clearing at any moment, a reply pending or not, keeps consistency |
| Chat.BlankInputSendsNothing | src/app/home/chat.tsx:31 | whitespace-only input sends nothing |
| Chat.SendAddsOneExchange | src/app/home/chat.tsx:39-69 | a send adds exactly two messages, the user's trimmed text then the assistant's, and keeps the earlier ones |
| Chat.RequestCarriesEarlierHistory | src/app/home/chat.tsx:45 | the request carries the history before the new message: a reply echoing its length sees the old count |
| Chat.ChatPanel.constructor | src/app/home/chat.tsx:16-19 | an empty, valid panel |
| Chat.ChatPanel.SetInput | src/app/home/chat.tsx:17 | typing changes only the input |
| Chat.ChatPanel.StartSend | src/app/home/chat.tsx:30-45 | the panel moves as `BeginSend` says; a request is sent exactly when a send can go ahead, with the trimmed input and the history before the new message |
| Chat.ChatPanel.ReceiveReply | src/app/home/chat.tsx:47-72 | the panel moves as `FinishSend` says |
| Chat.ChatPanel.HandleSendMessage | src/app/home/chat.tsx:30-74 | the step-by-step send leaves the panel in the state `AfterSend` describes |
| Chat.ChatPanel.HandleKeyPress | src/app/home/chat.tsx:76-81 | the key handler leaves the state `AfterKeyPress` describes |
| Chat.ChatPanel.ClearChat | src/app/home/chat.tsx:83-86 | clearing leaves the state `AfterClear` describes |
| Common.JsSlice | src/constants/mock-api.ts:114 | `Array.prototype.slice` with clamped and negative indices |
| Common.Filter | src/app/athletes/page.tsx:53 | `Array.prototype.filter` keeps at most the elements it is given |
| Common.FilterCounts | src/app/athletes/page.tsx:53 | the filter keeps each accepted element exactly as often as it occurs, and nothing else |
| Common.FilterAppend | src/constants/mock-api.ts:76-80 | filtering a concatenation filters each part and keeps them in order |
| Common.SortDesc | src/features/overview/components/recent-athletes.tsx:74 | a permutation of the input sorted by descending key |
| Common.SortDescHead | src/features/overview/components/pie-graph.tsx:212-213 | the head of the stable descending sort is the first entry with the largest key |
| Text.Trim | src/app/home/chat.tsx:31 | `trim()`: no whitespace at either end, not longer than the text |
| Text.TrimEmptyIffBlank | src/app/home/chat.tsx:31 | a text trims to '' exactly when it is all whitespace |
| Text.ParseInt | src/features/athletes/components/athlete-dialog.tsx:362 | `parseInt` without a radix: the value is always whole; when the text after its leading whitespace starts with a decimal digit and not with `0x`, it is those leading digits read in decimal; NaN when that text is empty or starts with anything but a digit or a sign |
| Text.ParseFloat | src/features/performances/components/performance-dialog.tsx:214-218 | `parseFloat`: when the text after its leading whitespace starts with a decimal digit, a number in [w, w + 1) for the leading digits w; NaN when that text is empty or starts with anything but a digit, a sign or '.' |
| Text.ParseIntOfIntToString | src/features/performances/components/performance-dialog.tsx:165-208 | `parseInt` and `parseFloat` of an integer's printed text give the integer back |
| Text.IntToStringInjective | src/features/overview/components/recent-athletes.tsx:42 | different integers print differently |
| Text.PadZero | src/features/overview/components/bar-graph.tsx:27 | `padStart(n, '0')`: zeros, then the text, at least n long |
| Text.JoinSplit | src/constants/mock-api.ts:105 | joining the parts of a split with its separator restores the text |

## Left out

- HTTP and transport. Axios, the API client's interceptors, the proxy routes and the mock
  store's `delay` are not modelled. Every service call is either an action the model
  returns (`SaveAction`, `EventSave`, `CreateDispatch`) or an `Outcome` it receives.
- Non-determinism:
  - the clock (`new Date()`, `Date.now()`) is a parameter (`now`, `nowIso`, `today`, `thisYear`);
  - `Math.random()` is a parameter `u`;
  - faker's draws and `crypto.randomUUID()` are the functions `draw` and `uuidAt`.
- Date parsing and locale formatting are functions given as parameters: `tsOf`,
  `keyOf`, `format`, `toIso` and `fixed1` (`toFixed(1)`). The local time zone is a
  parameter `offsetMinutes`, the minutes local time is ahead of UTC (less than a day
  either way). It enters in two places: the event's year and the athlete's age. Both read
  a date-only text as midnight UTC and take its fields in local time (see Findings).
- Calendar.DayOfDateText: only the `YYYY-MM-DD` form of a date-only text is read. Any other
  text, and an impossible day such as 2025-02-30, counts as an Invalid Date (no year).
- An invalid date (`getTime()` of NaN, or `toISOString` throwing) is not modelled. Dates are
  valid calendar triples.
- Floating point is not modelled:
  - Pie shares are exact reals.
  - `parseFloat` reads `[whitespace][sign]digits[.digits]` only, with no exponent and no
    `Infinity`.
  - Record statistics are integers.
- Unicode: whitespace, upper case and lower case are ASCII only.
- `matchSorter`'s ranking is a parameter of the mock store. Only the category filter and the
  pagination are modelled.
- Concurrency:
  - The `Promise.all` fan-outs of the pie chart and the performance dialog succeed or fail
    as a whole: one failure is a failed outcome.
  - The athletes page's debounced search is not modelled.
  - Responses that arrive out of order are not modelled.
- React rendering, toasts, focus and scrolling, the `loading` flags of the dialogs and pages,
  and the table wrappers' page count are not modelled.
- The listing query is a map, so the order of its keys is not modelled.
- The performance dialog's save error is not modelled. It follows a failure of the caller's
  `onSave`, which is not part of this model. For the same reason the team dialog's
  `onSubmit`, which only calls `onSave`, is not modelled.
- The chat panel's 'Something went wrong' message is not modelled. It needs a thrown value
  that is not an `Error`, and the service call never throws: `handleRequest` catches every
  failure.
- Athlete images and avatars beyond their URL are not modelled. The `formatDate` helper of
  the athletes page is rendering only.
- Chat.ChatPanel.HandleSendMessage: this method runs the two halves, `StartSend` and
  `ReceiveReply`, back to back. The panel can also run them with a `ClearChat` in
  between, because 'Clear Chat' is shown while a reply is pending. `Valid` (strict
  user/assistant pairs) therefore holds only for panels never cleared while a reply was
  pending (`ClearWhilePendingBreaksPairing`). `Consistent` holds in every state.
  `Chat.SendKeepsValid` and `Chat.SendAddsOneExchange` are about the back-to-back send.
  A second send while loading changes nothing (`BeginSend`).
- RecentAthletes.Recent: the contract states length, order by timestamp and
  provenance. It does not state the stable sort's order among equal timestamps.
- RecentAthletes.AllItems: the cards read `data || []`. A truthy non-array body would make
  `map` throw; here it counts as an empty list.
- PieGraph.Leader: the source sorts by the floating-point share `athletes / total * 100`,
  and the model sorts by the count. For a positive total the two orders agree, up to
  rounding.
- AthleteDialog.InitForm: `height || 0` and `weight || 0` are the identity on integers,
  so the model copies both fields.
- AthletesPage.AfterFetch: a body without an array is kept as it is. The filter then lists
  nobody, just as `[]` would.

## Findings

| source | as written | input that shows it | evidently intended | confidence | as-written member | corrected member |
|---|---|---|---|---|---|---|
| src/features/events/components/event-dialog.tsx:75 | the payload year is `new Date(form.startDate).getFullYear()`; a date-only text is read as midnight UTC, and the year is then taken in local time | start date 2025-01-01 in a time zone five hours west of UTC gives 2024 (`EventDialog.NewYearsDayWestOfUtc`) | the year written in the start date, 2025 | medium; not executed | EventDialog.SavePayload | EventDialog.CorrectedSavePayload |
| src/features/athletes/components/athlete-tables/columns.tsx:14-22 | the birth date is `new Date(dateOfBirth)`, midnight UTC of the stored day, and its month and day are taken in local time | born 2000-03-15, today 2025-03-14, five hours west of UTC: 25 (`AthleteColumns.BirthdayCountedEarly`) | the age by the stored day, 24 | medium; not executed | AthleteColumns.AgeOfUtcMidnightBirth | AthleteColumns.CalculateAge |

`EventDialog.SavePayload` and `EventDialog.HandleSave` compute the year as written.
`EventDialog.CorrectedSavePayload` uses the year written in the start date.
`EventDialog.SavePayloadsAgreeIff` proves that the two payloads differ only in the year,
and only on 1 January west of UTC.

`AthleteColumns.AgeOfUtcMidnightBirth` is the age as the table computes it. West of UTC
it counts a birthday one day early. `AthleteColumns.CalculateAge` is the age by the stored
day, and its contract states the birthday count.
