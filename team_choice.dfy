/** The `/team` command: a linked player whose stored team has no matching
    role gets it back, a player who has both is refused a second choice,
    and every other linked player is offered the two team buttons; outside
    a cached guild a linked player gets no reply at all. */
module TeamChoice {
  import opened Common
  import opened Store

  const BULL_ROLE_ID: RoleId := "1230207362145452103"
  const BEAR_ROLE_ID: RoleId := "1230207106896892006"
  const MOOTARD_ROLE_ID: RoleId := "1281979123534925967"

  /** What `/team` answers. */
  datatype TeamReply =
    | NotLinked                          // no single row for the caller
    | NoReply                            // the caller's roles cannot be read: the handler throws
    | Rejoined(team: string, role: RoleId)
    | AlreadyJoined(team: string)
    | OfferChoice                        // the two team buttons

  /** A command run in a cached guild: the caller as a `GuildMember`, with
      its roles, and the guild's role cache. Outside one, `interaction.member`
      is null (a direct message) or a raw API member without a role cache. */
  datatype GuildView = GuildView(memberRoles: set<RoleId>, roleCache: set<RoleId>)

  /** A `team` column JavaScript treats as true: set and not empty. */
  predicate HasTeam(u: User)
  {
    u.team.Some? && u.team.value != ""
  }

  /** The role that stands for a stored team: the bull role for `bullas`,
      the bear role for any other team. */
  function TeamRole(team: string): (r: RoleId)
    ensures r == BULL_ROLE_ID <==> team == BULLAS
  {
    if team == BULLAS then BULL_ROLE_ID else BEAR_ROLE_ID
  }

  predicate HoldsTeamRole(memberRoles: set<RoleId>)
  {
    BULL_ROLE_ID in memberRoles || BEAR_ROLE_ID in memberRoles
  }

  /** The decision, from the caller's row and the guild the command ran in
      (`None` outside a cached guild). A linked caller's roles are read
      through `member.roles.cache`, which throws outside a cached guild, and
      nothing catches it, so no reply is sent. A team role the cache cannot
      resolve drops a would-be rejoin through to the offer. Each answer is
      given by exactly the situation that leads to it. */
  function TeamCommand(rows: Table, userId: DiscordId, guild: Option<GuildView>): (reply: TeamReply)
    ensures var row := Single(rows, userId);
            && (reply == NotLinked <==> row.None?)
            && (reply == NoReply <==> row.Some? && guild.None?)
            && (reply.Rejoined? <==> row.Some? && guild.Some? && HasTeam(row.value)
                                     && !HoldsTeamRole(guild.value.memberRoles)
                                     && TeamRole(row.value.team.value) in guild.value.roleCache)
            && (reply.AlreadyJoined? <==> row.Some? && guild.Some? && HasTeam(row.value)
                                          && HoldsTeamRole(guild.value.memberRoles))
            && (reply == OfferChoice <==> row.Some? && guild.Some?
                                          && (!HasTeam(row.value)
                                              || (!HoldsTeamRole(guild.value.memberRoles)
                                                  && TeamRole(row.value.team.value) !in guild.value.roleCache)))
            && (reply.Rejoined? ==> reply.team == row.value.team.value && reply.role == TeamRole(reply.team))
            && (reply.AlreadyJoined? ==> reply.team == row.value.team.value)
  {
    var row := Single(rows, userId);
    if row.None? then NotLinked
    else if guild.None? then NoReply
    else
      var u := row.value;
      var roles := guild.value.memberRoles;
      if HasTeam(u) && !HoldsTeamRole(roles) && TeamRole(u.team.value) in guild.value.roleCache
      then Rejoined(u.team.value, TeamRole(u.team.value))
      else if HasTeam(u) && HoldsTeamRole(roles) then AlreadyJoined(u.team.value)
      else OfferChoice
  }

  /** The caller's roles after the reply: a rejoin adds the team role and
      drops the mootard role; nothing else writes a role. */
  function RolesAfter(memberRoles: set<RoleId>, reply: TeamReply): set<RoleId>
  {
    if reply.Rejoined? then (memberRoles + {reply.role}) - {MOOTARD_ROLE_ID} else memberRoles
  }

  /** A rejoin only adds the team role and only removes the mootard role, so
      the very next `/team` refuses a second choice, for the same team. */
  lemma RejoinIsFinal(rows: Table, userId: DiscordId, guild: Option<GuildView>)
    requires TeamCommand(rows, userId, guild).Rejoined?
    ensures var reply := TeamCommand(rows, userId, guild);
            var before := guild.value.memberRoles;
            var after := RolesAfter(before, reply);
            && reply.role in after && MOOTARD_ROLE_ID !in after
            && after - {reply.role} == before - {reply.role, MOOTARD_ROLE_ID}
            && TeamCommand(rows, userId, Some(guild.value.(memberRoles := after))) == AlreadyJoined(reply.team)
  {
    var reply := TeamCommand(rows, userId, guild);
    assert reply.role != MOOTARD_ROLE_ID by {
      assert BULL_ROLE_ID[17] != MOOTARD_ROLE_ID[17];
      assert BEAR_ROLE_ID[17] != MOOTARD_ROLE_ID[17];
    }
  }

  /** A player who already holds a team role keeps every role. */
  lemma HeldRoleChangesNothing(rows: Table, userId: DiscordId, guild: GuildView)
    requires HoldsTeamRole(guild.memberRoles)
    ensures RolesAfter(guild.memberRoles, TeamCommand(rows, userId, Some(guild))) == guild.memberRoles
  {
  }
}
