/** The team dialog: the code prefix of each sport, the generated team code, the
    form's validation rules and the effect that prefills the code of a new team. */
module TeamDialog {
  import opened Common
  import opened Text
  import opened RandomCode

  /** The values the team form edits. */
  datatype TeamFormData = TeamFormData(code: string, name: string, sportId: string)

  /** The code prefix of a sport id: Basketball, Football, Athletics, Wrestling and
      Boxing are ids '1' to '5'; anything else, or no id, is a generic team. */
  function SportIdToPrefix(sportId: Option<string>): (prefix: string)
    ensures sportId == Some("1") ==> prefix == "BB"
    ensures sportId == Some("2") ==> prefix == "FB"
    ensures sportId == Some("3") ==> prefix == "ATH"
    ensures sportId == Some("4") ==> prefix == "WR"
    ensures sportId == Some("5") ==> prefix == "BX"
    ensures prefix == "TM" <==> !(sportId.Some? && sportId.value in {"1", "2", "3", "4", "5"})
    ensures 2 <= |prefix| <= 3
  {
    match sportId
    case Some(id) =>
      if id == "1" then "BB"
      else if id == "2" then "FB"
      else if id == "3" then "ATH"
      else if id == "4" then "WR"
      else if id == "5" then "BX"
      else "TM"
    case None => "TM"
  }

  /** The five sports get five different prefixes. */
  lemma PrefixesDistinct(a: string, b: string)
    requires a in {"1", "2", "3", "4", "5"} && b in {"1", "2", "3", "4", "5"}
    requires SportIdToPrefix(Some(a)) == SportIdToPrefix(Some(b))
    ensures a == b
  {
  }

  /** `generateTeamCode(prefix = 'TM')`: the prefix followed by five digits. */
  function GenerateTeamCode(prefix: Option<string>, u: real): (code: string)
    requires 0.0 <= u < 1.0
    ensures var p := prefix.GetOr("TM");
            |code| == |p| + 5 && code[..|p|] == p && AllDigitsIn(code[|p|..], 10)
    ensures var p := prefix.GetOr("TM");
            ParseInt(code[|p|..]) == Finite(FiveDigitNumber(u) as real)
  {
    PrefixedCode(prefix.GetOr("TM"), u)
  }

  /** The form schema: a code and a name of at least two characters and a chosen
      sport. */
  /** The messages the schema reports for a form, in the schema's field order. */
  function SchemaErrors(f: TeamFormData): (errors: seq<string>)
    ensures |errors| <= 3
    ensures "Code must be at least 2 characters" in errors <==> |f.code| < 2
    ensures "Name must be at least 2 characters" in errors <==> |f.name| < 2
    ensures "Please select a sport" in errors <==> |f.sportId| < 1
  {
    (if |f.code| < 2 then ["Code must be at least 2 characters"] else []) +
    (if |f.name| < 2 then ["Name must be at least 2 characters"] else []) +
    (if |f.sportId| < 1 then ["Please select a sport"] else [])
  }

  /** The schema accepts a form exactly when it reports no message. */
  predicate SchemaValid(f: TeamFormData): (ok: bool)
    ensures ok <==> SchemaErrors(f) == []
  {
    |f.code| >= 2 && |f.name| >= 2 && |f.sportId| >= 1
  }

  /** Every code the dialog generates passes the schema's code rule. */
  lemma GeneratedCodeIsLongEnough(sportId: Option<string>, u: real)
    requires 0.0 <= u < 1.0
    ensures |GenerateTeamCode(Some(SportIdToPrefix(sportId)), u)| >= 7
  {
  }

  /** The team dialog's form. */
  class TeamForm {
    var code: string
    var name: string
    var sportId: string

    /** The default values: the given team's fields, or empty ones. */
    constructor (team: Option<TeamFormData>)
      ensures team.Some? ==> code == team.value.code && name == team.value.name && sportId == team.value.sportId
      ensures team.None? ==> code == "" && name == "" && sportId == ""
    {
      match team
      case Some(t) =>
        code, name, sportId := t.code, t.name, t.sportId;
      case None =>
        code, name, sportId := "", "", "";
    }

    /** Whether the prefill effect replaces the code. */
    predicate ShouldPrefill(team: Option<TeamFormData>, isOpen: bool)
      reads this
    {
      team.None? && isOpen && |code| < 2
    }

    /** The prefill effect: for a new team in an open dialog whose code is shorter
        than two characters, a code generated from the selected sport; otherwise the
        code is kept. The name and the sport are never touched. */
    method PrefillCode(team: Option<TeamFormData>, isOpen: bool, u: real)
      requires 0.0 <= u < 1.0
      modifies this
      ensures old(ShouldPrefill(team, isOpen)) ==> code == GenerateTeamCode(Some(SportIdToPrefix(Some(sportId))), u)
      ensures !old(ShouldPrefill(team, isOpen)) ==> code == old(code)
      ensures name == old(name) && sportId == old(sportId)
      ensures team.None? && isOpen ==> |code| >= 2
    {
      if team.None? && isOpen {
        if |code| < 2 {
          code := GenerateTeamCode(Some(SportIdToPrefix(Some(sportId))), u);
        }
      }
    }
  }
}
