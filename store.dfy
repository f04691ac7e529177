/** The `users` table as the bot sees it through its query interface: rows in
    the order the store returns them, looked up, updated and summed by
    `discord_id` and `team`. */
module Store {
  import opened Common

  /** One row of `users`. `discord_id` and `team` are nullable columns. */
  datatype User = User(discordId: Option<DiscordId>, address: string, points: int, team: Option<string>)

  /** The table, in the store's own row order. */
  type Table = seq<User>

  const BULLAS: string := "bullas"
  const BERAS: string := "beras"

  predicate HasId(u: User, id: DiscordId)
  {
    u.discordId == Some(id)
  }

  /** Number of rows whose `discord_id` is `id`. */
  function Count(rows: Table, id: DiscordId): nat
  {
    if rows == [] then 0 else (if HasId(rows[0], id) then 1 else 0) + Count(rows[1..], id)
  }

  /** Position of the first row whose `discord_id` is `id`, or `|rows|`. */
  function IndexOf(rows: Table, id: DiscordId): (k: nat)
    ensures k <= |rows|
    ensures k < |rows| ==> HasId(rows[k], id)
  {
    if rows == [] then 0 else if HasId(rows[0], id) then 0 else 1 + IndexOf(rows[1..], id)
  }

  /** `select(...).eq("discord_id", id).single()`: the row when exactly one
      row matches; no row and several rows are both a fetch error. */
  function Single(rows: Table, id: DiscordId): Option<User>
  {
    if Count(rows, id) == 1 && IndexOf(rows, id) < |rows| then Some(rows[IndexOf(rows, id)]) else None
  }

  /** `update({ points: p }).eq("discord_id", id)`: every row with that id
      gets the new balance; nothing else changes. */
  function SetPoints(rows: Table, id: DiscordId, p: int): (r: Table)
    ensures |r| == |rows|
  {
    if rows == [] then []
    else [if HasId(rows[0], id) then rows[0].(points := p) else rows[0]] + SetPoints(rows[1..], id, p)
  }

  /** Sum of all balances. */
  function Total(rows: Table): int
  {
    if rows == [] then 0 else rows[0].points + Total(rows[1..])
  }

  /** `select(...).eq("team", team)`: the rows of one team, in store order. */
  function OnTeam(rows: Table, team: string): (r: Table)
    ensures |r| <= |rows|
  {
    if rows == [] then []
    else (if rows[0].team == Some(team) then [rows[0]] else []) + OnTeam(rows[1..], team)
  }

  /** The `sum_points_for_team` procedure: the balances of one team added up. */
  function TeamPoints(rows: Table, team: string): int
  {
    Total(OnTeam(rows, team))
  }

  /** No balance is negative. */
  predicate AllNonNegative(rows: Table)
  {
    forall i :: 0 <= i < |rows| ==> rows[i].points >= 0
  }

  /** The row `Single` returns sits at a position no other row with the same
      id shares. */
  lemma {:induction false} SingleAt(rows: Table, id: DiscordId) returns (k: nat)
    requires Single(rows, id).Some?
    ensures k < |rows| && rows[k] == Single(rows, id).value && HasId(rows[k], id)
    ensures forall j :: 0 <= j < |rows| && j != k ==> !HasId(rows[j], id)
  {
    k := IndexOf(rows, id);
    OnlyOneMatch(rows, id, k);
  }

  lemma {:induction false} OnlyOneMatch(rows: Table, id: DiscordId, k: nat)
    requires Count(rows, id) == 1 && k == IndexOf(rows, id) && k < |rows|
    ensures forall j :: 0 <= j < |rows| && j != k ==> !HasId(rows[j], id)
    decreases |rows|
  {
    if k == 0 {
      NoneAfterCountZero(rows[1..], id);
    } else {
      OnlyOneMatch(rows[1..], id, k - 1);
    }
  }

  lemma {:induction false} NoneAfterCountZero(rows: Table, id: DiscordId)
    requires Count(rows, id) == 0
    ensures forall j :: 0 <= j < |rows| ==> !HasId(rows[j], id)
    decreases |rows|
  {
    if rows != [] {
      NoneAfterCountZero(rows[1..], id);
    }
  }

  /** An update aimed at an id no row has changes nothing. */
  lemma {:induction false} SetPointsAbsent(rows: Table, id: DiscordId, p: int)
    requires forall j :: 0 <= j < |rows| ==> !HasId(rows[j], id)
    ensures SetPoints(rows, id, p) == rows
    decreases |rows|
  {
    if rows != [] {
      SetPointsAbsent(rows[1..], id, p);
    }
  }

  /** An update of the one row with id `id` puts `p` at its position and
      leaves every other row as it was. */
  lemma {:induction false} SetPointsAt(rows: Table, id: DiscordId, p: int, k: nat)
    requires k < |rows| && HasId(rows[k], id)
    requires forall j :: 0 <= j < |rows| && j != k ==> !HasId(rows[j], id)
    ensures SetPoints(rows, id, p) == rows[k := rows[k].(points := p)]
    decreases |rows|
  {
    if k == 0 {
      SetPointsAbsent(rows[1..], id, p);
    } else {
      SetPointsAt(rows[1..], id, p, k - 1);
    }
  }

  /** Replacing the balance of one row changes the sum by the difference. */
  lemma {:induction false} TotalUpdate(rows: Table, k: nat, p: int)
    requires k < |rows|
    ensures Total(rows[k := rows[k].(points := p)]) == Total(rows) - rows[k].points + p
    decreases |rows|
  {
    if k > 0 {
      TotalUpdate(rows[1..], k - 1, p);
      assert rows[k := rows[k].(points := p)][1..] == rows[1..][k - 1 := rows[k].(points := p)];
    }
  }

  /** A team's sum splits into the first row's share and the rest's. */
  lemma TeamPointsCons(rows: Table, team: string)
    requires rows != []
    ensures TeamPoints(rows, team)
         == (if rows[0].team == Some(team) then rows[0].points else 0) + TeamPoints(rows[1..], team)
  {
    if rows[0].team == Some(team) {
      assert ([rows[0]] + OnTeam(rows[1..], team))[1..] == OnTeam(rows[1..], team);
    } else {
      assert [] + OnTeam(rows[1..], team) == OnTeam(rows[1..], team);
    }
  }

  /** Replacing the balance of one row changes its team's sum by the
      difference and every other team's sum not at all. */
  lemma {:induction false} TeamPointsUpdate(rows: Table, k: nat, p: int, team: string)
    requires k < |rows|
    ensures TeamPoints(rows[k := rows[k].(points := p)], team)
         == TeamPoints(rows, team) + (if rows[k].team == Some(team) then p - rows[k].points else 0)
    decreases |rows|
  {
    var r := rows[k := rows[k].(points := p)];
    TeamPointsCons(rows, team);
    TeamPointsCons(r, team);
    if k > 0 {
      TeamPointsUpdate(rows[1..], k - 1, p, team);
      assert r[1..] == rows[1..][k - 1 := rows[k].(points := p)];
    } else {
      assert r[1..] == rows[1..];
    }
  }

  /** One `update({ points: p }).eq("discord_id", id)` on the single row with
      that id: the row at position `k` now holds `p` and every other row is as
      it was. */
  lemma {:induction false} UpdateSingle(rows: Table, id: DiscordId, p: int) returns (k: nat)
    requires Single(rows, id).Some?
    ensures k < |rows| && rows[k] == Single(rows, id).value
    ensures SetPoints(rows, id, p) == rows[k := rows[k].(points := p)]
    ensures forall j :: 0 <= j < |rows| && j != k ==> !HasId(rows[j], id)
  {
    k := SingleAt(rows, id);
    SetPointsAt(rows, id, p, k);
  }

  /** Two updates aimed at two different ids, each held by a single row,
      change exactly those two rows. */
  lemma {:induction false} UpdateTwo(rows: Table, a: DiscordId, b: DiscordId, pa: int, pb: int)
    returns (ka: nat, kb: nat)
    requires a != b && Single(rows, a).Some? && Single(rows, b).Some?
    ensures ka < |rows| && kb < |rows| && ka != kb
    ensures rows[ka] == Single(rows, a).value && rows[kb] == Single(rows, b).value
    ensures SetPoints(SetPoints(rows, a, pa), b, pb)
            == rows[ka := rows[ka].(points := pa)][kb := rows[kb].(points := pb)]
  {
    ka := UpdateSingle(rows, a, pa);
    kb := SingleAt(rows, b);
    var mid := rows[ka := rows[ka].(points := pa)];
    SingleAfterUpdate(rows, ka, pa, b);
    assert mid[kb] == rows[kb];
    var k := UpdateSingle(mid, b, pb);
  }

  /** Two tables whose rows carry the same ids position by position. */
  predicate SameIds(a: Table, b: Table)
  {
    |a| == |b| && forall i :: 0 <= i < |a| ==> a[i].discordId == b[i].discordId
  }

  lemma {:induction false} SameIdsLookup(a: Table, b: Table, id: DiscordId)
    requires SameIds(a, b)
    ensures Count(a, id) == Count(b, id) && IndexOf(a, id) == IndexOf(b, id)
    decreases |a|
  {
    if a != [] {
      assert HasId(a[0], id) == HasId(b[0], id);
      SameIdsLookup(a[1..], b[1..], id);
    }
  }

  /** Updating a balance keeps ids, so lookups still find the same rows, with
      the new balance where the update hit. */
  lemma SingleAfterUpdate(rows: Table, k: nat, p: int, other: DiscordId)
    requires k < |rows|
    ensures Single(rows[k := rows[k].(points := p)], other).Some? == Single(rows, other).Some?
    ensures Single(rows, other).Some? ==>
              Single(rows[k := rows[k].(points := p)], other).value
              == (if HasId(rows[k], other) then rows[k].(points := p) else Single(rows, other).value)
  {
    var r := rows[k := rows[k].(points := p)];
    SameIdsLookup(r, rows, other);
    if Single(rows, other).Some? {
      var j := SingleAt(rows, other);
      assert IndexOf(rows, other) == j;
    }
  }

  /** One update of a single row changes the total by the difference. */
  lemma TotalSetPoints(rows: Table, id: DiscordId, p: int)
    requires Single(rows, id).Some?
    ensures Total(SetPoints(rows, id, p)) == Total(rows) - Single(rows, id).value.points + p
  {
    var k := UpdateSingle(rows, id, p);
    TotalUpdate(rows, k, p);
  }

  /** One update of a single row changes the sum of that row's team by the
      difference and the sum of any other team not at all. */
  lemma TeamPointsSetPoints(rows: Table, id: DiscordId, p: int, team: string)
    requires Single(rows, id).Some?
    ensures TeamPoints(SetPoints(rows, id, p), team) == TeamPoints(rows, team)
              + (if Single(rows, id).value.team == Some(team) then p - Single(rows, id).value.points else 0)
  {
    var k := UpdateSingle(rows, id, p);
    TeamPointsUpdate(rows, k, p, team);
  }

  /** After one update of a single row, a lookup of that id finds the row with
      its new balance and a lookup of any other id finds what it found
      before. */
  lemma SingleAfterSetPoints(rows: Table, id: DiscordId, p: int, other: DiscordId)
    requires Single(rows, id).Some?
    ensures Single(SetPoints(rows, id, p), other)
            == if other == id then Some(Single(rows, id).value.(points := p)) else Single(rows, other)
  {
    var k := UpdateSingle(rows, id, p);
    SingleAfterUpdate(rows, k, p, other);
  }

  /** Writing a non-negative balance keeps every balance non-negative. */
  lemma {:induction false} NonNegativeSetPoints(rows: Table, id: DiscordId, p: int)
    requires AllNonNegative(rows) && p >= 0
    ensures AllNonNegative(SetPoints(rows, id, p))
    decreases |rows|
  {
    if rows != [] {
      NonNegativeSetPoints(rows[1..], id, p);
      var r := SetPoints(rows, id, p);
      assert forall i :: 1 <= i < |r| ==> r[i] == SetPoints(rows[1..], id, p)[i - 1];
    }
  }
}
