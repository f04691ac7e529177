/** The team standings: the two team sums and which team leads. The same rule
    decides the target of a role run (`winning` or `losing`) and the files of
    a snapshot. */
module Teams {
  import opened Store

  /** Which side of the standings a role run targets. */
  datatype TeamType = Winning | Losing

  /** The two team sums, as `getTeamPoints` reads them from the table. */
  datatype Standings = Standings(bullas: int, beras: int)

  function StandingsOf(rows: Table): Standings
  {
    Standings(TeamPoints(rows, BULLAS), TeamPoints(rows, BERAS))
  }

  function PointsOf(s: Standings, team: string): int
  {
    if team == BULLAS then s.bullas else s.beras
  }

  /** The leading team: `bullas` only when strictly ahead, so a tie goes to
      `beras`. */
  function WinningTeam(s: Standings): (w: string)
    ensures w == BULLAS || w == BERAS
    ensures w == BULLAS <==> s.bullas > s.beras
  {
    if s.bullas > s.beras then BULLAS else BERAS
  }

  /** The other team. */
  function LosingTeam(s: Standings): (l: string)
    ensures (l == BULLAS || l == BERAS) && l != WinningTeam(s)
  {
    if WinningTeam(s) == BULLAS then BERAS else BULLAS
  }

  /** The team a role run of kind `teamType` works on. */
  function TargetTeam(teamType: TeamType, s: Standings): (t: string)
    ensures t == BULLAS || t == BERAS
    ensures teamType == Winning <==> t == WinningTeam(s)
  {
    match teamType
    case Winning => WinningTeam(s)
    case Losing => LosingTeam(s)
  }

  /** The winning team never has fewer points than the losing one; it has
      strictly more unless the sums tie, and a tie makes `beras` the winner. */
  lemma WinnerLeads(s: Standings)
    ensures PointsOf(s, WinningTeam(s)) >= PointsOf(s, LosingTeam(s))
    ensures PointsOf(s, WinningTeam(s)) == PointsOf(s, LosingTeam(s)) <==> s.bullas == s.beras
    ensures s.bullas == s.beras ==> WinningTeam(s) == BERAS
  {
  }
}
