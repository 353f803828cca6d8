/** The athlete service's decisions that do not depend on the network: which query
    parameters a listing request carries, which create call the legacy
    `createAthlete` makes, and the parameters of the stats request. */
module AthleteService {
  import opened Common
  import opened Text
  import opened AthleteDialog

  /** The optional filters of an athlete listing. */
  datatype AthleteListParams = AthleteListParams(
    search: Option<string>,
    page: Option<string>,
    limit: Option<string>,
    positionCode: Option<string>,
    teamCode: Option<string>,
    sportType: Option<string>,
    gender: Option<string>,
    isActive: Option<bool>,
    disciplineCode: Option<string>)

  /** A query parameter value: text, or the boolean `isActive`. */
  datatype ParamValue = StringParam(text: string) | BoolParam(flag: bool)

  /** The query sent to the server, as a mapping from parameter name to value. */
  type Query = map<string, ParamValue>

  /** The value the conditional spread `...(p.key && { key: p.key })` adds for one
      parameter name, if any; `isActive` is added whenever it is defined. */
  function ParamOf(p: AthleteListParams, key: string): Option<ParamValue>
  {
    var text :=
      if key == "search" then p.search
      else if key == "page" then p.page
      else if key == "limit" then p.limit
      else if key == "positionCode" then p.positionCode
      else if key == "teamCode" then p.teamCode
      else if key == "sportType" then p.sportType
      else if key == "gender" then p.gender
      else if key == "disciplineCode" then p.disciplineCode
      else None;
    if key == "isActive" then (if p.isActive.Some? then Some(BoolParam(p.isActive.value)) else None)
    else if Truthy(text) then Some(StringParam(text.value))
    else None
  }

  const ListParamNames := {"search", "page", "limit", "positionCode", "teamCode", "sportType",
                           "gender", "isActive", "disciplineCode"}

  /** The query of `getAllAthletes`. Each text filter appears only when truthy;
      `isActive` appears whenever it is defined, `false` included; no parameters at
      all give the empty query. */
  function ListQuery(params: Option<AthleteListParams>): (q: Query)
    ensures q.Keys <= ListParamNames
    ensures params.None? ==> q == map[]
    ensures params.Some? ==>
              var p := params.value;
              ("search" in q <==> Truthy(p.search)) &&
              ("page" in q <==> Truthy(p.page)) &&
              ("limit" in q <==> Truthy(p.limit)) &&
              ("positionCode" in q <==> Truthy(p.positionCode)) &&
              ("teamCode" in q <==> Truthy(p.teamCode)) &&
              ("sportType" in q <==> Truthy(p.sportType)) &&
              ("gender" in q <==> Truthy(p.gender)) &&
              ("isActive" in q <==> p.isActive.Some?) &&
              ("disciplineCode" in q <==> Truthy(p.disciplineCode))
    ensures params.Some? ==>
              var p := params.value;
              ("search" in q ==> q["search"] == StringParam(p.search.value)) &&
              ("page" in q ==> q["page"] == StringParam(p.page.value)) &&
              ("limit" in q ==> q["limit"] == StringParam(p.limit.value)) &&
              ("positionCode" in q ==> q["positionCode"] == StringParam(p.positionCode.value)) &&
              ("teamCode" in q ==> q["teamCode"] == StringParam(p.teamCode.value)) &&
              ("sportType" in q ==> q["sportType"] == StringParam(p.sportType.value)) &&
              ("gender" in q ==> q["gender"] == StringParam(p.gender.value)) &&
              ("isActive" in q ==> q["isActive"] == BoolParam(p.isActive.value)) &&
              ("disciplineCode" in q ==> q["disciplineCode"] == StringParam(p.disciplineCode.value))
  {
    match params
    case None => map[]
    case Some(p) => map key | key in ListParamNames && ParamOf(p, key).Some? :: ParamOf(p, key).value
  }

  /** Asking only for inactive athletes still sends the filter. */
  lemma InactiveFilterIsSent()
    ensures var q := ListQuery(Some(AthleteListParams(None, None, None, None, None, None, None, Some(false), None)));
            q == map["isActive" := BoolParam(false)]
  {
  }

  // ---------------------------------------------------------------------------
  // The legacy createAthlete

  /** What the legacy `createAthlete` receives. */
  datatype LegacyAthleteData = LegacyAthleteData(
    teamCode: Option<string>,
    positionCode: Option<string>,
    disciplines: Option<seq<DisciplineEntry>>)

  datatype CreateDispatch = SendTeam | SendIndividual | Throw(message: string)

  const UndeterminedTypeMessage :=
    "Unable to determine athlete type. Please use createIndividualAthlete or createTeamAthlete explicitly."

  /** Team when both team fields are truthy, whatever the disciplines; individual when
      a disciplines array is present, even an empty one; otherwise an error. */
  function CreateAthlete(data: LegacyAthleteData): (d: CreateDispatch)
    ensures d == SendTeam <==> Truthy(data.teamCode) && Truthy(data.positionCode)
    ensures d == SendIndividual <==>
              !(Truthy(data.teamCode) && Truthy(data.positionCode)) && data.disciplines.Some?
    ensures d.Throw? <==>
              !(Truthy(data.teamCode) && Truthy(data.positionCode)) && data.disciplines.None?
    ensures d.Throw? ==> d.message == UndeterminedTypeMessage
  {
    if Truthy(data.teamCode) && Truthy(data.positionCode) then SendTeam
    else if data.disciplines.Some? then SendIndividual
    else Throw(UndeterminedTypeMessage)
  }

  /** An empty array is truthy, so it still selects the individual create. */
  lemma EmptyDisciplinesAreIndividual()
    ensures CreateAthlete(LegacyAthleteData(None, None, Some([]))) == SendIndividual
  {
  }

  // ---------------------------------------------------------------------------
  // The stats request

  /** `seasonId ? { seasonId: seasonId.toString() } : {}`. */
  function StatsQuery(seasonId: Option<int>): (q: map<string, string>)
    ensures q.Keys <= {"seasonId"}
    ensures "seasonId" in q <==> TruthyInt(seasonId)
    ensures "seasonId" in q ==> ParseInt(q["seasonId"]) == Finite(seasonId.value as real)
  {
    if TruthyInt(seasonId) then
      ParseIntOfIntToString(seasonId.value);
      map["seasonId" := IntToString(seasonId.value)]
    else map[]
  }
}
