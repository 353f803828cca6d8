/** The athlete create/edit dialog: the form it starts from, the edits with logic in
    them (numeric inputs, the discipline picker), the per-sport discipline catalogue,
    and the save command that validates the form and picks one service call. */
module AthleteDialog {
  import opened Common
  import opened Text

  /** One discipline of the form: its code and the rank to record. */
  datatype DisciplineEntry = DisciplineEntry(code: string, currentRank: Option<int>)

  /** The dialog's form state. Fields the form may lack are `Option`s. */
  datatype AthleteFormData = AthleteFormData(
    athleteId: Option<int>,
    code: string,
    firstName: string,
    lastName: string,
    dateOfBirth: string,
    nationality: string,
    gender: string,
    height: int,
    weight: int,
    bio: Option<string>,
    isActive: Option<bool>,
    sportType: string,
    teamCode: Option<string>,
    positionCode: Option<string>,
    disciplines: Option<seq<DisciplineEntry>>)

  /** The form of a new athlete. */
  function BlankForm(): (f: AthleteFormData)
    ensures f.athleteId.None? && f.code == "" && f.firstName == "" && f.lastName == ""
    ensures f.nationality == "Nigeria" && f.gender == "MALE" && f.sportType == "ATHLETICS"
    ensures f.height == 0 && f.weight == 0 && f.bio == Some("") && f.isActive == Some(true)
    ensures f.teamCode.None? && f.positionCode.None? && f.disciplines == Some([])
  {
    AthleteFormData(None, "", "", "", "", "Nigeria", "MALE", 0, 0, Some(""), Some(true),
                    "ATHLETICS", None, None, Some([]))
  }

  /** The form the dialog shows for the athlete it is given: the blank form for null,
      otherwise the athlete's fields with the same fallbacks that save applies. */
  function InitForm(athlete: Option<AthleteFormData>): (f: AthleteFormData)
    ensures athlete.None? ==> f == BlankForm()
    ensures athlete.Some? ==>
              var a := athlete.value;
              f.athleteId == a.athleteId && f.code == a.code && f.firstName == a.firstName &&
              f.lastName == a.lastName && f.dateOfBirth == a.dateOfBirth &&
              f.height == a.height && f.weight == a.weight &&
              f.teamCode == a.teamCode && f.positionCode == a.positionCode
    ensures athlete.Some? ==>
              var a := athlete.value;
              f.nationality == (if a.nationality != "" then a.nationality else "Nigeria") &&
              f.gender == (if a.gender != "" then a.gender else "MALE") &&
              f.sportType == (if a.sportType != "" then a.sportType else "ATHLETICS") &&
              f.bio == Some(OrElse(a.bio, "")) &&
              f.isActive == Some(a.isActive.GetOr(true)) &&
              f.disciplines == Some(a.disciplines.GetOr([]))
  {
    match athlete
    case None => BlankForm()
    case Some(a) =>
      AthleteFormData(
        a.athleteId, a.code, a.firstName, a.lastName, a.dateOfBirth,
        if a.nationality != "" then a.nationality else "Nigeria",
        if a.gender != "" then a.gender else "MALE",
        a.height, a.weight,
        Some(OrElse(a.bio, "")),
        Some(a.isActive.GetOr(true)),
        if a.sportType != "" then a.sportType else "ATHLETICS",
        a.teamCode, a.positionCode,
        Some(a.disciplines.GetOr([])))
  }

  /** Initialising from an already initialised form changes nothing. */
  lemma InitFormIdempotent(a: AthleteFormData)
    ensures InitForm(Some(InitForm(Some(a)))) == InitForm(Some(a))
  {
  }

  // ---------------------------------------------------------------------------
  // Edits

  /** `parseInt(text) || 0`: NaN and 0 both give 0. */
  function NumberOrZero(n: Num): (v: int)
    ensures n.NaN? ==> v == 0
    ensures n.Finite? && n.value == n.value.Floor as real ==> v == n.value.Floor
  {
    match n
    case NaN => 0
    case Finite(x) => if x == 0.0 then 0 else x.Floor
  }

  /** Typing into the height input. */
  function SetHeight(form: AthleteFormData, text: string): (f: AthleteFormData)
    ensures f.height == NumberOrZero(ParseInt(text)) && f.(height := form.height) == form
  {
    form.(height := NumberOrZero(ParseInt(text)))
  }

  /** Typing into the weight input. */
  function SetWeight(form: AthleteFormData, text: string): (f: AthleteFormData)
    ensures f.weight == NumberOrZero(ParseInt(text)) && f.(weight := form.weight) == form
  {
    form.(weight := NumberOrZero(ParseInt(text)))
  }

  /** Typing the printed value of a height (or weight) stores that value. */
  lemma SetHeightOfPrinted(form: AthleteFormData, h: int)
    ensures SetHeight(form, IntToString(h)).height == h
    ensures SetWeight(form, IntToString(h)).weight == h
  {
    ParseIntOfIntToString(h);
  }

  /** Text typed into a number input that holds no digit stores 0. */
  lemma SetHeightOfNonNumber(form: AthleteFormData, text: string)
    requires ParseInt(text).NaN?
    ensures SetHeight(form, text).height == 0
  {
  }

  /** Picking a discipline replaces the list with that one discipline at rank 1 and
      changes nothing else. */
  function SelectDiscipline(form: AthleteFormData, code: string): (f: AthleteFormData)
    ensures f.disciplines == Some([DisciplineEntry(code, Some(1))])
    ensures f.(disciplines := form.disciplines) == form
  {
    form.(disciplines := Some([DisciplineEntry(code, Some(1))]))
  }

  /** The picker's displayed value: `disciplines?.[0]?.code || ''`. */
  function SelectedDisciplineCode(form: AthleteFormData): (code: string)
    ensures form.disciplines.Some? && form.disciplines.value != [] ==>
              code == form.disciplines.value[0].code
    ensures form.disciplines.None? || form.disciplines.value == [] ==> code == ""
  {
    if form.disciplines.Some? && form.disciplines.value != [] then form.disciplines.value[0].code else ""
  }

  /** The picker shows the discipline just picked. */
  lemma SelectThenShow(form: AthleteFormData, code: string)
    ensures SelectedDisciplineCode(SelectDiscipline(form, code)) == code
  {
  }

  // ---------------------------------------------------------------------------
  // Which fields the form shows, and the discipline catalogue

  predicate IsTeamSport(sportType: string)
  {
    sportType == "FOOTBALL" || sportType == "BASKETBALL"
  }

  /** The team and position inputs are shown for team sports. */
  predicate ShowsTeamFields(form: AthleteFormData)
  {
    IsTeamSport(form.sportType)
  }

  /** The discipline picker is shown for a chosen sport that is not a team sport. */
  predicate ShowsDisciplinePicker(form: AthleteFormData)
  {
    form.sportType != "" && !IsTeamSport(form.sportType)
  }

  /** Once a sport is chosen, exactly one of the two groups of inputs is shown. */
  lemma ExactlyOneGroupShown(form: AthleteFormData)
    requires form.sportType != ""
    ensures ShowsTeamFields(form) != ShowsDisciplinePicker(form)
  {
  }

  /** The discipline codes the picker offers for a sport. */
  function DisciplineOptions(sportType: string): (codes: seq<string>)
    ensures sportType == "ATHLETICS" ==> |codes| == 10
    ensures sportType == "WRESTLING" || sportType == "BOXING" ==> |codes| == 5
    ensures sportType !in {"ATHLETICS", "WRESTLING", "BOXING"} ==> codes == []
  {
    if sportType == "ATHLETICS" then
      ["100M", "200M", "400M", "800M", "1500M", "110H", "LJ", "HJ", "SP", "JAV"]
    else if sportType == "WRESTLING" then
      ["57KG_FS", "61KG_FS", "65KG_FS", "70KG_FS", "74KG_FS"]
    else if sportType == "BOXING" then
      ["FLY", "BAN", "FEA", "LIG", "WEL"]
    else []
  }

  /** No code is offered for two different sports, and no sport lists a code twice. */
  lemma CatalogueDisjoint(s1: string, s2: string, i: nat, j: nat)
    requires i < |DisciplineOptions(s1)| && j < |DisciplineOptions(s2)|
    requires DisciplineOptions(s1)[i] == DisciplineOptions(s2)[j]
    ensures s1 == s2 && i == j
  {
  }

  /** A team sport is offered no disciplines. */
  lemma TeamSportsHaveNoCatalogue(sportType: string)
    requires IsTeamSport(sportType)
    ensures DisciplineOptions(sportType) == []
  {
  }

  // ---------------------------------------------------------------------------
  // Save

  /** The fields every save sends. */
  datatype AthleteBase = AthleteBase(
    code: string,
    firstName: string,
    lastName: string,
    dateOfBirth: string,
    nationality: string,
    gender: string,
    height: int,
    weight: int,
    bio: string,
    isActive: bool,
    sportType: string)

  /** The base payload: the form's fields with nationality `'Nigeria'`, bio `''` and
      isActive `true` when missing. */
  function BasePayload(form: AthleteFormData): (b: AthleteBase)
    ensures b.code == form.code && b.firstName == form.firstName && b.lastName == form.lastName
    ensures b.dateOfBirth == form.dateOfBirth && b.gender == form.gender && b.sportType == form.sportType
    ensures b.height == form.height && b.weight == form.weight
    ensures b.nationality != "" && (form.nationality != "" ==> b.nationality == form.nationality)
    ensures b.bio == OrElse(form.bio, "")
    ensures form.isActive.Some? ==> b.isActive == form.isActive.value
    ensures form.isActive.None? ==> b.isActive
  {
    AthleteBase(
      form.code, form.firstName, form.lastName, form.dateOfBirth,
      if form.nationality != "" then form.nationality else "Nigeria",
      form.gender, form.height, form.weight,
      OrElse(form.bio, ""),
      form.isActive.GetOr(true),
      form.sportType)
  }

  /** The form a given athlete opens with sends the same base payload as the athlete
      itself would: initialisation applies the save's own fallbacks. */
  lemma InitFormKeepsBasePayload(a: AthleteFormData)
    ensures BasePayload(InitForm(Some(a))).nationality == BasePayload(a).nationality
    ensures BasePayload(InitForm(Some(a))).bio == BasePayload(a).bio
    ensures BasePayload(InitForm(Some(a))).isActive == BasePayload(a).isActive
    ensures a.gender != "" && a.sportType != "" ==> BasePayload(InitForm(Some(a))) == BasePayload(a)
  {
  }

  /** The one thing a save does. */
  datatype SaveAction =
    | Rejected(message: string)
    | UpdateAthlete(athleteId: int, data: AthleteBase)
    | CreateTeamAthlete(data: AthleteBase, teamCode: string, positionCode: string)
    | CreateIndividualAthlete(data: AthleteBase, disciplines: seq<DisciplineEntry>)

  const RequiredFieldsMessage := "Please fill in all required fields"
  const TeamFieldsMessage := "Team code and position code are required for team athletes"

  /** The discipline an individual create sends when the form has none. */
  const DefaultDisciplines := [DisciplineEntry("100M", Some(1))]

  predicate HasRequiredFields(form: AthleteFormData)
  {
    form.firstName != "" && form.lastName != "" && form.code != ""
  }

  /** Every create carries at least one discipline or both team fields. */
  predicate CreateIsComplete(action: SaveAction)
  {
    match action
    case CreateTeamAthlete(_, teamCode, positionCode) => teamCode != "" && positionCode != ""
    case CreateIndividualAthlete(_, ds) => ds != []
    case _ => true
  }

  /** The save command. `athlete` is the record the dialog was opened with (null for
      a new athlete); the update is keyed by its id, and an id of 0 counts as none. */
  method HandleSave(athlete: Option<AthleteFormData>, form: AthleteFormData) returns (action: SaveAction)
    ensures !HasRequiredFields(form) <==> action == Rejected(RequiredFieldsMessage)
    ensures HasRequiredFields(form) && athlete.Some? && TruthyInt(athlete.value.athleteId) ==>
              action == UpdateAthlete(athlete.value.athleteId.value, BasePayload(form))
    ensures HasRequiredFields(form) && !(athlete.Some? && TruthyInt(athlete.value.athleteId)) &&
            IsTeamSport(form.sportType) ==>
              if Truthy(form.teamCode) && Truthy(form.positionCode)
              then action == CreateTeamAthlete(BasePayload(form), form.teamCode.value, form.positionCode.value)
              else action == Rejected(TeamFieldsMessage)
    ensures HasRequiredFields(form) && !(athlete.Some? && TruthyInt(athlete.value.athleteId)) &&
            !IsTeamSport(form.sportType) ==>
              action == CreateIndividualAthlete(BasePayload(form),
                          if form.disciplines.Some? && form.disciplines.value != []
                          then form.disciplines.value else DefaultDisciplines)
    ensures CreateIsComplete(action)
    ensures action.UpdateAthlete? ==> action.athleteId != 0
  {
    if form.firstName == "" || form.lastName == "" || form.code == "" {
      return Rejected(RequiredFieldsMessage);
    }
    var base := BasePayload(form);
    if athlete.Some? && athlete.value.athleteId.Some? && athlete.value.athleteId.value != 0 {
      return UpdateAthlete(athlete.value.athleteId.value, base);
    }
    if form.sportType == "FOOTBALL" || form.sportType == "BASKETBALL" {
      if form.teamCode.Some? && form.teamCode.value != "" && form.positionCode.Some? && form.positionCode.value != "" {
        action := CreateTeamAthlete(base, form.teamCode.value, form.positionCode.value);
      } else {
        action := Rejected(TeamFieldsMessage);
      }
    } else if form.disciplines.Some? && |form.disciplines.value| > 0 {
      action := CreateIndividualAthlete(base, form.disciplines.value);
    } else {
      action := CreateIndividualAthlete(base, DefaultDisciplines);
    }
  }
}
