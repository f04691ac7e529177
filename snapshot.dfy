/** The `/snapshot` export: three CSV files listing players with the tier
    roles they hold. The top 2000 of the winning team, the top 700 of the
    losing team, and every player of both teams, re-sorted by points. */
module Snapshot {
  import opened Common
  import opened Text
  import opened Store
  import opened Teams
  import opened Ordering
  import Reconciler

  const WINNING_LIMIT: nat := 2000
  const LOSING_LIMIT: nat := 700

  /** `Number.MAX_SAFE_INTEGER`, the limit of the "every player" queries. */
  const MAX_SAFE_INTEGER: nat := 9007199254740991

  /** `getTopPlayers(team, limit)`: the team's rows, points descending,
      at most `limit` of them. */
  function TopPlayers(rows: Table, team: string, limit: nat): (r: Table)
    ensures |r| <= limit
  {
    var ranked := SortDesc(OnTeam(rows, team));
    if |ranked| <= limit then ranked else ranked[..limit]
  }

  /** The three role flags of one CSV row. */
  datatype Flags = Flags(wl: bool, ml: bool, freeMint: bool)

  /** The guild member a row refers to, when the batch fetch returned one.
      `members` is empty when that fetch failed, since the failure is caught. */
  function MemberOf(u: User, members: map<DiscordId, set<RoleId>>): Option<set<RoleId>>
  {
    if u.discordId.Some? && u.discordId.value in members then Some(members[u.discordId.value]) else None
  }

  /** The flags of a row: WL for the whitelist role or the WL winner role, ML
      for the moolalist role or the ML winner role, free mint for its own
      role; a row without a fetched member has none. */
  function FlagsOf(member: Option<set<RoleId>>): Flags
  {
    match member
    case None => Flags(false, false, false)
    case Some(roles) =>
      Flags(Reconciler.WHITELIST_ROLE_ID in roles || Reconciler.WL_WINNER_ROLE_ID in roles,
            Reconciler.MOOLALIST_ROLE_ID in roles || Reconciler.ML_WINNER_ROLE_ID in roles,
            Reconciler.FREE_MINT_ROLE_ID in roles)
  }

  function YesNo(b: bool): string
  {
    if b then "Y" else "N"
  }

  /** A nullable `discord_id` as a template literal writes it. */
  function IdText(id: Option<DiscordId>): string
  {
    match id
    case None => "null"
    case Some(s) => s
  }

  const COLUMNS_WITH_ID: seq<string> := ["discord_id", "address", "points", "wl_role", "ml_role", "free_mint_role"]
  const COLUMNS: seq<string> := ["address", "points", "wl_role", "ml_role", "free_mint_role"]

  function Columns(includeId: bool): seq<string>
  {
    if includeId then COLUMNS_WITH_ID else COLUMNS
  }

  /** The fields of one row, in column order. */
  function Fields(u: User, includeId: bool, flags: Flags): seq<string>
  {
    (if includeId then [IdText(u.discordId)] else [])
    + [u.address, IntToString(u.points), YesNo(flags.wl), YesNo(flags.ml), YesNo(flags.freeMint)]
  }

  function Row(u: User, includeId: bool, members: map<DiscordId, set<RoleId>>): string
  {
    Join(Fields(u, includeId, FlagsOf(MemberOf(u, members))), ',')
  }

  function Rows(players: Table, includeId: bool, members: map<DiscordId, set<RoleId>>): (r: seq<string>)
    ensures |r| == |players|
  {
    seq(|players|, i requires 0 <= i < |players| => Row(players[i], includeId, members))
  }

  /** `createCSV`: the header line, then one line per player, in the order
      given. */
  function Csv(players: Table, includeId: bool, members: map<DiscordId, set<RoleId>>): string
  {
    Join(Columns(includeId), ',') + "\n" + Join(Rows(players, includeId, members), '\n')
  }

  /** Each flag is `Y` exactly when a fetched member holds one of its
      roles. */
  lemma FlagRule(u: User, members: map<DiscordId, set<RoleId>>)
    ensures var f := FlagsOf(MemberOf(u, members));
            && (f.wl <==> u.discordId.Some? && u.discordId.value in members
                          && (Reconciler.WHITELIST_ROLE_ID in members[u.discordId.value]
                              || Reconciler.WL_WINNER_ROLE_ID in members[u.discordId.value]))
            && (f.ml <==> u.discordId.Some? && u.discordId.value in members
                          && (Reconciler.MOOLALIST_ROLE_ID in members[u.discordId.value]
                              || Reconciler.ML_WINNER_ROLE_ID in members[u.discordId.value]))
            && (f.freeMint <==> u.discordId.Some? && u.discordId.value in members
                                && Reconciler.FREE_MINT_ROLE_ID in members[u.discordId.value])
  {
  }

  /** A character that is neither a digit nor a sign never occurs in the
      decimal text of an integer. */
  lemma NotInIntText(i: int, c: char)
    requires !IsDigit(c) && c != '-'
    ensures c !in IntToString(i)
  {
    if i < 0 {
      assert IntToString(i) == "-" + NatToString(-i);
    }
  }

  /** A join avoids a character that neither the separator nor any part
      holds. */
  lemma {:induction false} JoinAvoids(parts: seq<string>, sep: char, c: char)
    requires c != sep && forall i :: 0 <= i < |parts| ==> c !in parts[i]
    ensures c !in Join(parts, sep)
    decreases |parts|
  {
    if |parts| > 1 {
      JoinAvoids(parts[1..], sep, c);
    }
  }

  /** Text a CSV field can carry unchanged. */
  predicate Plain(s: string)
  {
    ',' !in s && '\n' !in s
  }

  /** A row whose address and id are plain. */
  predicate PlainRow(u: User)
  {
    Plain(u.address) && (u.discordId.Some? ==> Plain(u.discordId.value))
  }

  lemma FieldsPlain(u: User, includeId: bool, flags: Flags)
    requires PlainRow(u)
    ensures |Fields(u, includeId, flags)| == |Columns(includeId)|
    ensures forall i :: 0 <= i < |Fields(u, includeId, flags)| ==> Plain(Fields(u, includeId, flags)[i])
  {
    NotInIntText(u.points, ',');
    NotInIntText(u.points, '\n');
    assert Plain("null") by {
      assert "null" == ['n', 'u', 'l', 'l'];
    }
  }

  lemma ColumnsPlain(includeId: bool)
    ensures forall i :: 0 <= i < |Columns(includeId)| ==> Plain(Columns(includeId)[i])
  {
  }

  /** One row read back: split on commas, it gives its fields, as many as
      the header has, with the points field parsing back to the points, and
      it holds no line break. */
  lemma RowReadsBack(u: User, includeId: bool, members: map<DiscordId, set<RoleId>>)
    requires PlainRow(u)
    ensures '\n' !in Row(u, includeId, members)
    ensures Split(Row(u, includeId, members), ',') == Fields(u, includeId, FlagsOf(MemberOf(u, members)))
    ensures |Fields(u, includeId, FlagsOf(MemberOf(u, members)))| == |Columns(includeId)|
    ensures ParseInt(Fields(u, includeId, FlagsOf(MemberOf(u, members)))[if includeId then 2 else 1]) == Some(u.points)
  {
    var fields := Fields(u, includeId, FlagsOf(MemberOf(u, members)));
    FieldsPlain(u, includeId, FlagsOf(MemberOf(u, members)));
    JoinAvoids(fields, ',', '\n');
    SplitJoin(fields, ',');
    ParseIntToString(u.points);
  }

  /** A snapshot file split on line breaks: the header line, then one line
      per player, or a lone empty line when there are none. */
  lemma CsvLines(players: Table, includeId: bool, members: map<DiscordId, set<RoleId>>)
    requires forall i :: 0 <= i < |players| ==> PlainRow(players[i])
    ensures Split(Csv(players, includeId, members), '\n')
            == [Join(Columns(includeId), ',')] + (if players == [] then [""] else Rows(players, includeId, members))
  {
    var header := Join(Columns(includeId), ',');
    var rows := Rows(players, includeId, members);
    ColumnsPlain(includeId);
    JoinAvoids(Columns(includeId), ',', '\n');
    SplitAfterPrefix(header, Join(rows, '\n'), '\n');
    assert Csv(players, includeId, members) == header + ['\n'] + Join(rows, '\n');
    if players == [] {
      SplitNoSeparator("", '\n');
    } else {
      forall i | 0 <= i < |rows|
        ensures '\n' !in rows[i]
      {
        RowReadsBack(players[i], includeId, members);
      }
      SplitJoin(rows, '\n');
    }
  }

  /** Reading a snapshot file back: the header line splits into the
      columns, and the line after it for each player splits into that
      player's fields, as many as there are columns, with the points field
      parsing back to the player's points. */
  lemma CsvReadsBack(players: Table, includeId: bool, members: map<DiscordId, set<RoleId>>)
    requires forall i :: 0 <= i < |players| ==> PlainRow(players[i])
    ensures var lines := Split(Csv(players, includeId, members), '\n');
            && |lines| == 1 + (if players == [] then 1 else |players|)
            && Split(lines[0], ',') == Columns(includeId)
            && (players == [] ==> lines[1] == "")
            && forall i :: 0 <= i < |players| ==>
                 var fields := Split(lines[i + 1], ',');
                 && fields == Fields(players[i], includeId, FlagsOf(MemberOf(players[i], members)))
                 && |fields| == |Columns(includeId)|
                 && ParseInt(fields[if includeId then 2 else 1]) == Some(players[i].points)
  {
    CsvLines(players, includeId, members);
    ColumnsPlain(includeId);
    SplitJoin(Columns(includeId), ',');
    forall i | 0 <= i < |players|
      ensures Split(Rows(players, includeId, members)[i], ',') == Fields(players[i], includeId, FlagsOf(MemberOf(players[i], members)))
      ensures |Fields(players[i], includeId, FlagsOf(MemberOf(players[i], members)))| == |Columns(includeId)|
      ensures ParseInt(Fields(players[i], includeId, FlagsOf(MemberOf(players[i], members)))[if includeId then 2 else 1]) == Some(players[i].points)
    {
      RowReadsBack(players[i], includeId, members);
    }
  }

  // ----- the player lists -----

  /** A top list holds team rows only, in points-descending order, and is
      the head of the team's full ranking: nobody left out has more points
      than anybody listed. */
  lemma TopPlayersRanked(rows: Table, team: string, limit: nat)
    ensures var top := TopPlayers(rows, team, limit);
            var ranked := SortDesc(OnTeam(rows, team));
            && SortedDesc(top)
            && top == ranked[..|top|]
            && |top| == (if |ranked| <= limit then |ranked| else limit)
            && forall i, j :: 0 <= i < |top| <= j < |ranked| ==> top[i].points >= ranked[j].points
  {
    var ranked := SortDesc(OnTeam(rows, team));
    var top := TopPlayers(rows, team, limit);
    assert SortedDesc(ranked) by { SortDescCorrect(OnTeam(rows, team)); }
    assert top == ranked[..|top|] && |top| <= |ranked|;
    forall i, j | 0 <= i < |top| <= j < |ranked|
      ensures top[i].points >= ranked[j].points
    {
      assert top[i] == ranked[i];
    }
    forall i, j | 0 <= i < j < |top|
      ensures top[i].points >= top[j].points
    {
      assert top[i] == ranked[i] && top[j] == ranked[j];
    }
  }

  /** Copy the winners, append the losers (`allPlayers.push(...)`), and sort
      the array in place by points, descending and stable. */
  method AllPlayers(winners: Table, losers: Table) returns (all: array<User>)
    ensures fresh(all)
    ensures all[..] == SortDesc(winners + losers)
  {
    var players := winners + losers;
    all := new User[|players|](i requires 0 <= i < |players| => players[i]);
    assert all[..] == players;
    SortByPointsDesc(all);
  }

  /** `Array.prototype.sort` with the comparator `b.points - a.points`, as
      an insertion sort that grows a sorted suffix leftwards. */
  method SortByPointsDesc(a: array<User>)
    modifies a
    ensures a[..] == SortDesc(old(a[..]))
  {
    var i := a.Length;
    while i > 0
      invariant 0 <= i <= a.Length
      invariant a[..i] == old(a[..])[..i]
      invariant a[i..] == SortDesc(old(a[..])[i..])
    {
      i := i - 1;
      ghost var before := a[..];
      InsertAt(a, i);
      assert old(a[..])[i..] == [old(a[..])[i]] + old(a[..])[i + 1..];
      assert before[i] == old(a[..])[i];
      assert a[..i] == before[..i];
    }
    assert a[..] == a[0..];
    assert old(a[..]) == old(a[..])[0..];
  }

  /** Move `a[i]` rightwards past every following row with more points:
      the suffix `a[i..]` becomes `Insert(a[i], a[i + 1..])`. */
  method InsertAt(a: array<User>, i: nat)
    requires i < a.Length
    modifies a
    ensures a[..i] == old(a[..i])
    ensures a[i..] == Insert(old(a[i]), old(a[i + 1..]))
  {
    ghost var before := a[..];
    var x := a[i];
    var j := i;
    while j + 1 < a.Length && a[j + 1].points > x.points
      invariant i <= j < a.Length
      invariant forall k :: 0 <= k < i ==> a[k] == before[k]
      invariant forall k :: i <= k < j ==> a[k] == before[k + 1]
      invariant forall k :: i < k <= j ==> before[k].points > x.points
      invariant forall k :: j < k < a.Length ==> a[k] == before[k]
      decreases a.Length - j
    {
      a[j] := a[j + 1];
      j := j + 1;
    }
    a[j] := x;
    ShiftedInsert(before, a[..], i, j, x);
  }

  /** What the shifting loop leaves: `x` at `j`, the rows that had more
      points one place to the left of where they were, and everything else
      in place, is `Insert` applied to the suffix. */
  lemma ShiftedInsert(before: Table, after: Table, i: nat, j: nat, x: User)
    requires i <= j < |before| == |after| && before[i] == x && after[j] == x
    requires forall k :: 0 <= k < i ==> after[k] == before[k]
    requires forall k :: i <= k < j ==> after[k] == before[k + 1]
    requires forall k :: i < k <= j ==> before[k].points > x.points
    requires forall k :: j < k < |after| ==> after[k] == before[k]
    requires j + 1 == |before| || before[j + 1].points <= x.points
    ensures after[..i] == before[..i]
    ensures after[i..] == Insert(x, before[i + 1..])
  {
    var s := before[i + 1..];
    var m := j - i;
    assert forall k :: 0 <= k < m ==> s[k] == before[i + 1 + k];
    assert m < |s| ==> s[m] == before[j + 1];
    InsertSplit(x, s, m);
    Spliced(before, after, i, j, x);
  }

  lemma Spliced(before: Table, after: Table, i: nat, j: nat, x: User)
    requires i <= j < |before| == |after| && after[j] == x
    requires forall k :: i <= k < j ==> after[k] == before[k + 1]
    requires forall k :: j < k < |after| ==> after[k] == before[k]
    ensures after[i..] == before[i + 1..][..j - i] + [x] + before[i + 1..][j - i..]
  {
    var s := before[i + 1..];
    var m := j - i;
    var spliced := s[..m] + [x] + s[m..];
    assert |spliced| == |after| - i;
    forall k | 0 <= k < |after| - i
      ensures after[i..][k] == spliced[k]
    {
      if k < m {
        assert spliced[k] == s[k] == before[i + k + 1];
        assert after[i + k] == before[i + k + 1];
      } else if k > m {
        assert spliced[k] == s[k - 1] == before[i + k];
        assert after[i + k] == before[i + k];
      }
    }
  }

  /** `Insert` puts `x` after the run of rows with more points. */
  lemma {:induction false} InsertSplit(x: User, s: Table, m: nat)
    requires m <= |s|
    requires forall k :: 0 <= k < m ==> s[k].points > x.points
    requires m == |s| || s[m].points <= x.points
    ensures Insert(x, s) == s[..m] + [x] + s[m..]
    decreases m
  {
    if m > 0 {
      InsertSplit(x, s[1..], m - 1);
      assert s[..m] == [s[0]] + s[1..][..m - 1];
      assert s[m..] == s[1..][m - 1..];
    }
  }

  /** The three files `/snapshot` sends, for the standings the table gives. */
  datatype Files = Files(winning: string, losing: string, all: string)

  /** `/snapshot` after its gates. Each `createCSV` call fetches the members
      of its own rows, so each file gets the map its own fetch returned
      (`winningMembers`, `losingMembers`, `allMembers`; a failed fetch is an
      empty map). */
  method TakeSnapshot(rows: Table, winningMembers: map<DiscordId, set<RoleId>>,
                      losingMembers: map<DiscordId, set<RoleId>>, allMembers: map<DiscordId, set<RoleId>>)
    returns (files: Files)
    ensures var s := StandingsOf(rows);
            files == Files(Csv(TopPlayers(rows, WinningTeam(s), WINNING_LIMIT), false, winningMembers),
                           Csv(TopPlayers(rows, LosingTeam(s), LOSING_LIMIT), false, losingMembers),
                           Csv(SortDesc(TopPlayers(rows, WinningTeam(s), MAX_SAFE_INTEGER)
                                        + TopPlayers(rows, LosingTeam(s), MAX_SAFE_INTEGER)), true, allMembers))
  {
    var standings := StandingsOf(rows);
    var winningTeam := WinningTeam(standings);
    var losingTeam := LosingTeam(standings);
    var all := AllPlayers(TopPlayers(rows, winningTeam, MAX_SAFE_INTEGER), TopPlayers(rows, losingTeam, MAX_SAFE_INTEGER));
    files := Files(Csv(TopPlayers(rows, winningTeam, WINNING_LIMIT), false, winningMembers),
                   Csv(TopPlayers(rows, losingTeam, LOSING_LIMIT), false, losingMembers),
                   Csv(all[..], true, allMembers));
  }

  /** With the largest limit, a top list is the team's whole ranking. */
  lemma TopPlayersAll(rows: Table, team: string)
    requires |rows| <= MAX_SAFE_INTEGER
    ensures TopPlayers(rows, team, MAX_SAFE_INTEGER) == SortDesc(OnTeam(rows, team))
  {
    SortDescCorrect(OnTeam(rows, team));
    assert |multiset(SortDesc(OnTeam(rows, team)))| == |SortDesc(OnTeam(rows, team))|;
  }

  /** The "every player" file lists each row of either team exactly once, in
      points-descending order, players with equal points in store order
      within a team and winners before losers across teams. */
  lemma AllPlayersListsEveryone(rows: Table)
    requires |rows| <= MAX_SAFE_INTEGER
    ensures var s := StandingsOf(rows);
            var all := SortDesc(TopPlayers(rows, WinningTeam(s), MAX_SAFE_INTEGER)
                                + TopPlayers(rows, LosingTeam(s), MAX_SAFE_INTEGER));
            && SortedDesc(all)
            && multiset(all) == multiset(OnTeam(rows, BULLAS)) + multiset(OnTeam(rows, BERAS))
            && forall v :: WithPoints(all, v) == WithPoints(OnTeam(rows, WinningTeam(s)), v)
                                                 + WithPoints(OnTeam(rows, LosingTeam(s)), v)
  {
    var s := StandingsOf(rows);
    var w := OnTeam(rows, WinningTeam(s));
    var l := OnTeam(rows, LosingTeam(s));
    TopPlayersAll(rows, WinningTeam(s));
    TopPlayersAll(rows, LosingTeam(s));
    SortDescCorrect(w);
    SortDescCorrect(l);
    var both := SortDesc(w) + SortDesc(l);
    SortDescCorrect(both);
    assert multiset(both) == multiset(w) + multiset(l);
    assert multiset(w) + multiset(l) == multiset(OnTeam(rows, BULLAS)) + multiset(OnTeam(rows, BERAS));
    forall v
      ensures WithPoints(SortDesc(both), v) == WithPoints(w, v) + WithPoints(l, v)
    {
      WithPointsAppend(SortDesc(w), SortDesc(l), v);
    }
  }

  lemma {:induction false} WithPointsAppend(a: Table, b: Table, v: int)
    ensures WithPoints(a + b, v) == WithPoints(a, v) + WithPoints(b, v)
    decreases |a|
  {
    if a != [] {
      WithPointsAppend(a[1..], b, v);
      assert (a + b)[1..] == a[1..] + b;
    } else {
      assert a + b == b;
    }
  }
}
