/** The threshold role reconciler (`updateRoles`): for every player of the
    target team, grant each tier role the player's points qualify for and the
    member does not hold yet. Roles are only ever added. */
module Reconciler {
  import opened Common
  import opened Store
  import opened Teams

  const WHITELIST_ROLE_ID: RoleId := "1263470313300295751"
  const MOOLALIST_ROLE_ID: RoleId := "1263470568536014870"
  const FREE_MINT_ROLE_ID: RoleId := "1263470790314164325"
  const WL_WINNER_ROLE_ID: RoleId := "1264963781419597916"
  const ML_WINNER_ROLE_ID: RoleId := "1267532607491407933"

  /** The two ids a run resolves as its "winner" roles before it starts. */
  const WL_WINNER_LOOKUP: RoleId := "1230195803877019718"
  const ML_WINNER_LOOKUP: RoleId := "1230906668066406481"

  /** The role ids one tier check reads: a base role per tier, and a winner
      role that counts as holding the WL or the ML tier. */
  datatype TierRoles = TierRoles(whitelist: RoleId, moolalist: RoleId, freeMint: RoleId,
                                 wlWinner: RoleId, mlWinner: RoleId)

  /** The ids the bot's constants name. */
  const BOT_ROLES: TierRoles :=
    TierRoles(WHITELIST_ROLE_ID, MOOLALIST_ROLE_ID, FREE_MINT_ROLE_ID, WL_WINNER_ROLE_ID, ML_WINNER_ROLE_ID)

  datatype Thresholds = Thresholds(wl: int, ml: int, freeMint: int)

  datatype RunOutcome =
    | RolesUnresolved   // a required role is missing from the guild's role cache
    | QueryFailed       // the player query returned an error
    | Completed

  /** The three base roles are different roles. */
  predicate DistinctBases(ids: TierRoles)
  {
    ids.whitelist != ids.moolalist && ids.whitelist != ids.freeMint && ids.moolalist != ids.freeMint
  }

  /** All five roles the run looks up exist in the guild's role cache. */
  predicate RolesResolved(roleCache: set<RoleId>, ids: TierRoles)
  {
    ids.whitelist in roleCache && ids.moolalist in roleCache && ids.freeMint in roleCache
    && WL_WINNER_LOOKUP in roleCache && ML_WINNER_LOOKUP in roleCache
  }

  /** The roles one member is granted: each tier whose threshold the points
      reach and which the member holds neither as base nor as winner role. */
  function NewRoles(points: int, held: set<RoleId>, th: Thresholds, ids: TierRoles): (grant: set<RoleId>)
    ensures grant <= {ids.whitelist, ids.moolalist, ids.freeMint}
    ensures grant !! held
  {
    (if points >= th.wl && ids.whitelist !in held && ids.wlWinner !in held then {ids.whitelist} else {})
    + (if points >= th.ml && ids.moolalist !in held && ids.mlWinner !in held then {ids.moolalist} else {})
    + (if points >= th.freeMint && ids.freeMint !in held then {ids.freeMint} else {})
  }

  /** One player of the loop: skipped without a (truthy) `discord_id`, skipped
      when the guild cannot fetch the member (the error is caught), and
      otherwise granted `NewRoles` on the roles the fetch returned. */
  function GrantMember(roles: map<DiscordId, set<RoleId>>, p: User, th: Thresholds, ids: TierRoles)
    : map<DiscordId, set<RoleId>>
  {
    if p.discordId.None? || p.discordId.value == "" || p.discordId.value !in roles then roles
    else
      var id := p.discordId.value;
      roles[id := roles[id] + NewRoles(p.points, roles[id], th, ids)]
  }

  /** The loop over `players`, in order. */
  function Reconciled(roles: map<DiscordId, set<RoleId>>, players: Table, th: Thresholds, ids: TierRoles)
    : map<DiscordId, set<RoleId>>
    decreases |players|
  {
    if players == [] then roles
    else GrantMember(Reconciled(roles, players[..|players| - 1], th, ids), players[|players| - 1], th, ids)
  }

  /** The players a run works on: the rows of the target team. */
  function Players(users: Table, teamType: TeamType): Table
  {
    OnTeam(users, TargetTeam(teamType, StandingsOf(users)))
  }

  /** Each tier is granted exactly when its threshold is reached and neither
      of its roles is held; the tiers do not depend on each other. */
  lemma GrantRule(points: int, held: set<RoleId>, th: Thresholds, ids: TierRoles)
    requires DistinctBases(ids)
    ensures ids.whitelist in NewRoles(points, held, th, ids)
            <==> points >= th.wl && ids.whitelist !in held && ids.wlWinner !in held
    ensures ids.moolalist in NewRoles(points, held, th, ids)
            <==> points >= th.ml && ids.moolalist !in held && ids.mlWinner !in held
    ensures ids.freeMint in NewRoles(points, held, th, ids)
            <==> points >= th.freeMint && ids.freeMint !in held
  {
  }

  /** Holding more roles never brings a new grant, and neither do fewer
      points. */
  lemma NewRolesAntitone(points: int, more: int, held: set<RoleId>, bigger: set<RoleId>,
                         th: Thresholds, ids: TierRoles)
    requires held <= bigger && points <= more
    ensures NewRoles(points, bigger, th, ids) <= NewRoles(more, held, th, ids)
  {
  }

  /** Once a member has what it was granted, the same points grant nothing
      more. */
  lemma NewRolesSettle(points: int, held: set<RoleId>, th: Thresholds, ids: TierRoles)
    ensures NewRoles(points, held + NewRoles(points, held, th, ids), th, ids) == {}
  {
  }

  /** Finding: the per-member grants as the file is written. The winner-role
      names read by the WL and ML checks are declared only inside the CSV
      builder, so evaluating one throws a ReferenceError, which the
      per-member catch swallows. A check evaluates the winner name only when
      the base role is missing, so WL and ML are never granted, and a member
      that qualifies for either gets nothing at all. `None` is the member's
      turn ending in the catch. */
  function GrantAsWritten(points: int, held: set<RoleId>, th: Thresholds): Option<set<RoleId>>
  {
    if points >= th.wl && WHITELIST_ROLE_ID !in held then None
    else if points >= th.ml && MOOLALIST_ROLE_ID !in held then None
    else Some(if points >= th.freeMint && FREE_MINT_ROLE_ID !in held then {FREE_MINT_ROLE_ID} else {})
  }

  /** As written, WL and ML are never granted, and a member without roles
      whose points reach every threshold is granted nothing, where the
      corrected rule, `NewRoles`, grants all three tiers. */
  lemma UndeclaredWinnerIdsBlockGrants(points: int, held: set<RoleId>, th: Thresholds)
    ensures GrantAsWritten(points, held, th).Some? ==> GrantAsWritten(points, held, th).value <= {FREE_MINT_ROLE_ID}
    ensures points >= th.wl && WHITELIST_ROLE_ID !in held ==> GrantAsWritten(points, held, th) == None
    ensures points >= th.wl && points >= th.ml && points >= th.freeMint && held == {} ==>
              GrantAsWritten(points, held, th) == None
              && NewRoles(points, held, th, BOT_ROLES) == {WHITELIST_ROLE_ID, MOOLALIST_ROLE_ID, FREE_MINT_ROLE_ID}
  {
  }

  /** `after` has the members of `before` and no fewer roles for any. */
  predicate Grows(before: map<DiscordId, set<RoleId>>, after: map<DiscordId, set<RoleId>>)
  {
    after.Keys == before.Keys && forall id :: id in before ==> before[id] <= after[id]
  }

  /** Player `p` would be granted nothing by `roles`. */
  predicate Quiet(roles: map<DiscordId, set<RoleId>>, p: User, th: Thresholds, ids: TierRoles)
  {
    p.discordId.Some? && p.discordId.value != "" && p.discordId.value in roles ==> NewRoles(p.points, roles[p.discordId.value], th, ids) == {}
  }

  predicate Settled(roles: map<DiscordId, set<RoleId>>, players: Table, th: Thresholds, ids: TierRoles)
  {
    forall i :: 0 <= i < |players| ==> Quiet(roles, players[i], th, ids)
  }

  lemma GrowsTransitive(a: map<DiscordId, set<RoleId>>, b: map<DiscordId, set<RoleId>>, c: map<DiscordId, set<RoleId>>)
    requires Grows(a, b) && Grows(b, c)
    ensures Grows(a, c)
  {
  }

  /** A run keeps every member and only adds roles. */
  lemma {:induction false} ReconcileGrows(roles: map<DiscordId, set<RoleId>>, players: Table, th: Thresholds, ids: TierRoles)
    ensures Grows(roles, Reconciled(roles, players, th, ids))
    decreases |players|
  {
    if players != [] {
      var prefix := players[..|players| - 1];
      ReconcileGrows(roles, prefix, th, ids);
      var mid := Reconciled(roles, prefix, th, ids);
      GrowsTransitive(roles, mid, GrantMember(mid, players[|players| - 1], th, ids));
    }
  }

  lemma QuietKept(a: map<DiscordId, set<RoleId>>, b: map<DiscordId, set<RoleId>>, p: User, th: Thresholds, ids: TierRoles)
    requires Grows(a, b) && Quiet(a, p, th, ids)
    ensures Quiet(b, p, th, ids)
  {
    if p.discordId.Some? && p.discordId.value != "" && p.discordId.value in b {
      NewRolesAntitone(p.points, p.points, a[p.discordId.value], b[p.discordId.value], th, ids);
    }
  }

  /** After a run, no player of the run would be granted anything more. */
  lemma {:induction false} ReconcileSettles(roles: map<DiscordId, set<RoleId>>, players: Table, th: Thresholds, ids: TierRoles)
    ensures Settled(Reconciled(roles, players, th, ids), players, th, ids)
    decreases |players|
  {
    if players != [] {
      var prefix, last := players[..|players| - 1], players[|players| - 1];
      var mid := Reconciled(roles, prefix, th, ids);
      var result := GrantMember(mid, last, th, ids);
      ReconcileSettles(roles, prefix, th, ids);
      assert Grows(mid, result);
      forall i | 0 <= i < |players|
        ensures Quiet(result, players[i], th, ids)
      {
        if i < |prefix| {
          assert players[i] == prefix[i];
          QuietKept(mid, result, players[i], th, ids);
        } else if last.discordId.Some? && last.discordId.value != "" && last.discordId.value in mid {
          NewRolesSettle(last.points, mid[last.discordId.value], th, ids);
        }
      }
    }
  }

  /** A run over players that would be granted nothing changes nothing. */
  lemma {:induction false} SettledUnchanged(roles: map<DiscordId, set<RoleId>>, players: Table, th: Thresholds, ids: TierRoles)
    requires Settled(roles, players, th, ids)
    ensures Reconciled(roles, players, th, ids) == roles
    decreases |players|
  {
    if players != [] {
      var prefix := players[..|players| - 1];
      assert Settled(roles, prefix, th, ids) by {
        forall i | 0 <= i < |prefix|
          ensures Quiet(roles, prefix[i], th, ids)
        {
          assert prefix[i] == players[i];
        }
      }
      SettledUnchanged(roles, prefix, th, ids);
      var last := players[|players| - 1];
      assert Quiet(roles, last, th, ids);
      if last.discordId.Some? && last.discordId.value != "" && last.discordId.value in roles {
        var id := last.discordId.value;
        assert roles[id] + NewRoles(last.points, roles[id], th, ids) == roles[id];
        assert roles[id := roles[id]] == roles;
      }
    }
  }

  /** A second run with the same players, thresholds and roles grants
      nothing. */
  lemma ReconcileIdempotent(roles: map<DiscordId, set<RoleId>>, players: Table, th: Thresholds, ids: TierRoles)
    ensures Reconciled(Reconciled(roles, players, th, ids), players, th, ids) == Reconciled(roles, players, th, ids)
  {
    ReconcileSettles(roles, players, th, ids);
    SettledUnchanged(Reconciled(roles, players, th, ids), players, th, ids);
  }

  /** A member whose id no player carries keeps exactly its roles. */
  lemma {:induction false} ReconcileUntouched(roles: map<DiscordId, set<RoleId>>, players: Table,
                                              th: Thresholds, ids: TierRoles, id: DiscordId)
    requires id in roles
    requires forall i :: 0 <= i < |players| ==> players[i].discordId != Some(id)
    ensures id in Reconciled(roles, players, th, ids) && Reconciled(roles, players, th, ids)[id] == roles[id]
    decreases |players|
  {
    if players != [] {
      ReconcileUntouched(roles, players[..|players| - 1], th, ids, id);
    }
  }

  /** A member carried by exactly one player ends with its roles plus the
      grants its points earn against those roles. */
  lemma {:induction false} ReconcileMember(roles: map<DiscordId, set<RoleId>>, players: Table,
                                           th: Thresholds, ids: TierRoles, k: nat)
    requires k < |players| && players[k].discordId.Some? && players[k].discordId.value != ""
    requires players[k].discordId.value in roles
    requires forall i :: 0 <= i < |players| && i != k ==> players[i].discordId != players[k].discordId
    ensures var id := players[k].discordId.value;
            && id in Reconciled(roles, players, th, ids)
            && Reconciled(roles, players, th, ids)[id] == roles[id] + NewRoles(players[k].points, roles[id], th, ids)
    decreases |players|
  {
    var id := players[k].discordId.value;
    ReconcileGrows(roles, players, th, ids);
    var prefix := players[..|players| - 1];
    if k == |players| - 1 {
      ReconcileUntouched(roles, prefix, th, ids, id);
    } else {
      ReconcileMember(roles, prefix, th, ids, k);
      ReconcileGrows(roles, prefix, th, ids);
    }
  }

  /** The guild as a run sees it: the roles each fetchable member holds, and
      the role ids the guild's role cache resolves. */
  class Guild {
    var memberRoles: map<DiscordId, set<RoleId>>
    var roleCache: set<RoleId>

    constructor (members: map<DiscordId, set<RoleId>>, roles: set<RoleId>)
      ensures memberRoles == members && roleCache == roles
    {
      memberRoles := members;
      roleCache := roles;
    }

    /** The body of the loop for one player: fetch the member, then add
        each tier role it qualifies for, reading the roles the fetch
        returned. */
    method GrantPlayer(player: User, th: Thresholds, ids: TierRoles)
      modifies this
      ensures roleCache == old(roleCache)
      ensures memberRoles == GrantMember(old(memberRoles), player, th, ids)
    {
      if player.discordId.None? || player.discordId.value == "" {
        return;
      }
      var id := player.discordId.value;
      if id !in memberRoles {
        return;
      }
      var held := memberRoles[id];
      ghost var granted: set<RoleId> := {};
      assert memberRoles == old(memberRoles)[id := held + granted] by {
        assert held + granted == held;
      }
      if player.points >= th.wl && ids.whitelist !in held && ids.wlWinner !in held {
        assert memberRoles[id] + {ids.whitelist} == held + (granted + {ids.whitelist});
        memberRoles := memberRoles[id := memberRoles[id] + {ids.whitelist}];
        granted := granted + {ids.whitelist};
      }
      assert memberRoles == old(memberRoles)[id := held + granted];
      if player.points >= th.ml && ids.moolalist !in held && ids.mlWinner !in held {
        assert memberRoles[id] + {ids.moolalist} == held + (granted + {ids.moolalist});
        memberRoles := memberRoles[id := memberRoles[id] + {ids.moolalist}];
        granted := granted + {ids.moolalist};
      }
      assert memberRoles == old(memberRoles)[id := held + granted];
      if player.points >= th.freeMint && ids.freeMint !in held {
        assert memberRoles[id] + {ids.freeMint} == held + (granted + {ids.freeMint});
        memberRoles := memberRoles[id := memberRoles[id] + {ids.freeMint}];
        granted := granted + {ids.freeMint};
      }
      assert granted == NewRoles(player.points, held, th, ids);
    }

    /** The loop of a run: every player, in order. */
    method GrantAll(players: Table, th: Thresholds, ids: TierRoles)
      modifies this
      ensures roleCache == old(roleCache)
      ensures memberRoles == Reconciled(old(memberRoles), players, th, ids)
    {
      var i := 0;
      while i < |players|
        invariant 0 <= i <= |players|
        invariant roleCache == old(roleCache)
        invariant memberRoles == Reconciled(old(memberRoles), players[..i], th, ids)
      {
        GrantPlayer(players[i], th, ids);
        assert players[..i + 1][..i] == players[..i];
        i := i + 1;
      }
      assert players[..i] == players;
    }

    /** `updateRoles`: abort when a role is unresolved or the player query
        fails; otherwise walk the target team's players in order and grant
        each the tier roles it qualifies for. */
    method UpdateRoles(users: Table, teamType: TeamType, th: Thresholds, ids: TierRoles, queryFails: bool)
      returns (outcome: RunOutcome)
      modifies this
      ensures roleCache == old(roleCache)
      ensures outcome == RolesUnresolved <==> !RolesResolved(old(roleCache), ids)
      ensures outcome == QueryFailed <==> RolesResolved(old(roleCache), ids) && queryFails
      ensures outcome != Completed ==> memberRoles == old(memberRoles)
      ensures outcome == Completed ==>
                memberRoles == Reconciled(old(memberRoles), Players(users, teamType), th, ids)
    {
      if !RolesResolved(roleCache, ids) {
        return RolesUnresolved;
      }
      var target := TargetTeam(teamType, StandingsOf(users));
      if queryFails {
        return QueryFailed;
      }
      var players := OnTeam(users, target);
      GrantAll(players, th, ids);
      outcome := Completed;
    }
  }
}
