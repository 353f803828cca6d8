/** The performance dialog: the form's default values for a record, the schema's
    required fields, the conversion of the submitted strings into the payload, and
    the guards applied to the option lists it loads. */
module PerformanceDialog {
  import opened Common
  import opened Text
  import opened Entities

  /** Every optional numeric field, in the form's order. */
  const AllFields: seq<Field> := [
    DisciplineId, Placing, Points, Time, Distance, Height,
    MinutesPlayed, Assists, GoalsScored, GoalsConceded, YellowCards, RedCards, Saves,
    TwoPoints, ThreePoints, FreeThrows, FieldGoals, Rebounds, Steals, Blocks, Turnovers,
    Wins, Losses, Pins, TechnicalFalls, Decisions,
    Rounds, Knockouts, Knockdowns, PunchesLanded, PunchesThrown]

  lemma AllFieldsComplete(f: Field)
    ensures f in AllFields
  {
    match f
    case DisciplineId => assert AllFields[0] == f;
    case Placing => assert AllFields[1] == f;
    case Points => assert AllFields[2] == f;
    case Time => assert AllFields[3] == f;
    case Distance => assert AllFields[4] == f;
    case Height => assert AllFields[5] == f;
    case MinutesPlayed => assert AllFields[6] == f;
    case Assists => assert AllFields[7] == f;
    case GoalsScored => assert AllFields[8] == f;
    case GoalsConceded => assert AllFields[9] == f;
    case YellowCards => assert AllFields[10] == f;
    case RedCards => assert AllFields[11] == f;
    case Saves => assert AllFields[12] == f;
    case TwoPoints => assert AllFields[13] == f;
    case ThreePoints => assert AllFields[14] == f;
    case FreeThrows => assert AllFields[15] == f;
    case FieldGoals => assert AllFields[16] == f;
    case Rebounds => assert AllFields[17] == f;
    case Steals => assert AllFields[18] == f;
    case Blocks => assert AllFields[19] == f;
    case Turnovers => assert AllFields[20] == f;
    case Wins => assert AllFields[21] == f;
    case Losses => assert AllFields[22] == f;
    case Pins => assert AllFields[23] == f;
    case TechnicalFalls => assert AllFields[24] == f;
    case Decisions => assert AllFields[25] == f;
    case Rounds => assert AllFields[26] == f;
    case Knockouts => assert AllFields[27] == f;
    case Knockdowns => assert AllFields[28] == f;
    case PunchesLanded => assert AllFields[29] == f;
    case PunchesThrown => assert AllFields[30] == f;
  }

  /** The fields read with `parseFloat`; all others are read with `parseInt`. */
  predicate IsFloatField(f: Field)
  {
    f == Points || f == Time || f == Distance || f == Height
  }

  /** The form's values: the three required texts, the notes, and one text per
      optional field. */
  datatype PerformanceForm = PerformanceForm(
    athleteId: string,
    eventId: string,
    date: string,
    notes: string,
    values: map<Field, string>)

  /** A field's text, '' when the form has none. */
  function FieldText(form: PerformanceForm, f: Field): string
  {
    if f in form.values then form.values[f] else ""
  }

  /** The schema: an athlete, an event and a date must be chosen; everything else
      is optional. */
  /** The messages the schema reports for a form, in the schema's field order;
      the optional fields have no rule. */
  function SchemaErrors(form: PerformanceForm): (errors: seq<string>)
    ensures |errors| <= 3
    ensures "Please select an athlete" in errors <==> form.athleteId == ""
    ensures "Please select an event" in errors <==> form.eventId == ""
    ensures "Please select a date" in errors <==> form.date == ""
  {
    (if |form.athleteId| < 1 then ["Please select an athlete"] else []) +
    (if |form.eventId| < 1 then ["Please select an event"] else []) +
    (if |form.date| < 1 then ["Please select a date"] else [])
  }

  /** The schema accepts a form exactly when it reports no message. */
  predicate SchemaValid(form: PerformanceForm): (ok: bool)
    ensures ok <==> SchemaErrors(form) == []
  {
    |form.athleteId| >= 1 && |form.eventId| >= 1 && |form.date| >= 1
  }

  // ---------------------------------------------------------------------------
  // Default values

  /** `performance?.field?.toString() || ''`. */
  function DefaultText(performance: Option<PerformanceRecord>, f: Field): (text: string)
    ensures performance.Some? && f in performance.value.stats ==> text == IntToString(performance.value.stats[f])
    ensures !(performance.Some? && f in performance.value.stats) ==> text == ""
  {
    if performance.Some? && f in performance.value.stats then IntToString(performance.value.stats[f]) else ""
  }

  /** The day a new performance defaults to: the date part of the current ISO
      timestamp. */
  function Today(nowIso: string): string
  {
    Split(nowIso, 'T')[0]
  }

  /** The form's default values: the record's numbers as decimal text, '' for
      every field it lacks, its date or today, and its notes or ''. */
  function Defaults(performance: Option<PerformanceRecord>, nowIso: string): (form: PerformanceForm)
    ensures forall f: Field :: FieldText(form, f) == DefaultText(performance, f)
    ensures performance.Some? ==> form.athleteId == IntToString(performance.value.athleteId) &&
                                  form.eventId == IntToString(performance.value.eventId)
    ensures performance.None? ==> form.athleteId == "" && form.eventId == ""
    ensures form.date == if performance.Some? && performance.value.date != "" then performance.value.date else Today(nowIso)
    ensures form.notes == if performance.Some? then OrElse(performance.value.notes, "") else ""
  {
    var values := map f | f in AllFields :: DefaultText(performance, f);
    forall f: Field ensures f in values {
      AllFieldsComplete(f);
    }
    match performance
    case Some(p) =>
      PerformanceForm(IntToString(p.athleteId), IntToString(p.eventId),
                      if p.date != "" then p.date else Today(nowIso), OrElse(p.notes, ""), values)
    case None =>
      PerformanceForm("", "", Today(nowIso), "", values)
  }

  /** A new performance's form fails the schema until an athlete and an event are
      chosen; a record's form passes it whenever its date, or today, is known. */
  lemma DefaultsAndSchema(performance: Option<PerformanceRecord>, nowIso: string)
    requires performance.Some? ==> performance.value.date != "" || Today(nowIso) != ""
    ensures performance.None? ==> !SchemaValid(Defaults(performance, nowIso))
    ensures performance.Some? ==> SchemaValid(Defaults(performance, nowIso))
  {
  }

  // ---------------------------------------------------------------------------
  // Submitting

  /** The payload: the ids and the present fields as numbers, the date as the
      browser's ISO text of it, the notes unchanged. */
  datatype PerformancePayload = PerformancePayload(
    athleteId: Num,
    eventId: Num,
    date: string,
    notes: string,
    stats: map<Field, Num>)

  /** `parseFloat` for the float fields, `parseInt` for the others. */
  function ParseField(f: Field, text: string): Num
  {
    if IsFloatField(f) then ParseFloat(text) else ParseInt(text)
  }

  /** `onSubmit`'s payload: an empty field is left out and a non-empty one is
      parsed. `toIso` stands for `new Date(date).toISOString()`. */
  function Submit(form: PerformanceForm, toIso: string -> string): (p: PerformancePayload)
    ensures p.athleteId == ParseInt(form.athleteId) && p.eventId == ParseInt(form.eventId)
    ensures p.date == toIso(form.date) && p.notes == form.notes
    ensures forall f :: f in p.stats <==> FieldText(form, f) != ""
    ensures forall f :: f in p.stats ==> p.stats[f] == ParseField(f, FieldText(form, f))
  {
    PerformancePayload(
      ParseInt(form.athleteId), ParseInt(form.eventId), toIso(form.date), form.notes,
      map f | f in form.values && form.values[f] != "" :: ParseField(f, form.values[f]))
  }

  /** Opening a record and submitting it unchanged sends back its ids and exactly
      its fields, each with its own value; a value of 0 is kept, since "0" is not
      empty. */
  lemma DefaultsThenSubmit(r: PerformanceRecord, nowIso: string, toIso: string -> string)
    ensures var p := Submit(Defaults(Some(r), nowIso), toIso);
            p.athleteId == Finite(r.athleteId as real) && p.eventId == Finite(r.eventId as real) &&
            (forall f :: f in p.stats <==> f in r.stats) &&
            (forall f :: f in r.stats ==> p.stats[f] == Finite(r.stats[f] as real))
  {
    var form := Defaults(Some(r), nowIso);
    var p := Submit(form, toIso);
    ParseIntOfIntToString(r.athleteId);
    ParseIntOfIntToString(r.eventId);
    forall f | f in r.stats
      ensures f in p.stats && p.stats[f] == Finite(r.stats[f] as real)
    {
      ParseIntOfIntToString(r.stats[f]);
      assert FieldText(form, f) == IntToString(r.stats[f]);
    }
  }

  /** A new performance sends none of the optional fields until they are typed in. */
  lemma NewFormSendsNoStats(nowIso: string, toIso: string -> string)
    ensures Submit(Defaults(None, nowIso), toIso).stats == map[]
  {
    var p := Submit(Defaults(None, nowIso), toIso);
    assert forall f :: f !in p.stats;
  }

  // ---------------------------------------------------------------------------
  // The option lists

  /** The athletes, events and disciplines the selects offer, and the load error. */
  datatype OptionLists<A, E, D> = OptionLists(athletes: seq<A>, events: seq<E>, disciplines: seq<D>, error: Option<string>)

  const LoadErrorMessage := "Failed to load data. Please try again."

  /** After the lists are fetched: each response that is not an array is replaced
      by `[]`; when a fetch failed the lists stay as they were and the error is set. */
  function LoadOptions<A, E, D>(prev: OptionLists<A, E, D>, outcome: Outcome<(MaybeArray<A>, MaybeArray<E>, MaybeArray<D>)>): (r: OptionLists<A, E, D>)
    ensures outcome.Failed? ==> r == prev.(error := Some(LoadErrorMessage))
    ensures outcome.Succeeded? ==> r.error.None?
    ensures outcome.Succeeded? ==>
              var (a, e, d) := outcome.value;
              (r.athletes == if a.IsArray? then a.items else []) &&
              (r.events == if e.IsArray? then e.items else []) &&
              (r.disciplines == if d.IsArray? then d.items else [])
  {
    match outcome
    case Failed => prev.(error := Some(LoadErrorMessage))
    case Succeeded((a, e, d)) => OptionLists(ArrayOrEmpty(a), ArrayOrEmpty(e), ArrayOrEmpty(d), None)
  }
}
