/** The leaderboard view, shared by the `/leaderboard` command and its
    pagination buttons: the in-scope rows ranked by points, a page of ten,
    the requester's own rank and the two navigation buttons. */
module Leaderboard {
  import opened Common
  import opened Store
  import opened PageButtons
  import opened Ordering

  /** Accounts the leaderboard never shows and never ranks. */
  const EXCLUDED_USER_IDS: seq<DiscordId> := ["649377665496776724", "534027215973646346", "144683637718122496"]

  const PAGE_SIZE: nat := 10

  /** The scope that shows every team. */
  const ALL: string := "all"

  /** The rows both leaderboard queries keep: a `discord_id` that is not on
      the exclusion list (a null id fails the `not in` filter too) and, unless
      the scope is `all`, the scope's team. */
  predicate InScope(u: User, scope: string)
  {
    u.discordId.Some? && u.discordId.value !in EXCLUDED_USER_IDS && (scope == ALL || u.team == Some(scope))
  }

  /** The in-scope rows, in store order. */
  function Eligible(rows: Table, scope: string): Table
  {
    if rows == [] then []
    else (if InScope(rows[0], scope) then [rows[0]] else []) + Eligible(rows[1..], scope)
  }

  /** The full ranking of a scope. */
  function Ranked(rows: Table, scope: string): Table
  {
    SortDesc(Eligible(rows, scope))
  }

  /** `Math.ceil(count / 10)`. */
  function TotalPages(count: nat): nat
  {
    (count + PAGE_SIZE - 1) / PAGE_SIZE
  }

  function Min(a: int, b: int): int
  {
    if a <= b then a else b
  }

  /** `.range(skip, skip + 9)` over the ranking, for a page of at least 1:
      the rows at positions `skip .. skip + 9` that exist. */
  function Window(ranked: Table, page: int): Table
    requires page >= 1
  {
    var skip := (page - 1) * PAGE_SIZE;
    if skip >= |ranked| then [] else ranked[skip..Min(skip + PAGE_SIZE, |ranked|)]
  }

  /** One line of the board: its absolute position and its row. */
  datatype Entry = Entry(position: int, user: User)

  /** Rows numbered from `skip + 1`. */
  function Numbered(window: Table, skip: int): seq<Entry>
  {
    seq(|window|, i requires 0 <= i < |window| => Entry(skip + i + 1, window[i]))
  }

  /** The requester's rank: one more than the index of the first ranked row
      with the requester's id, when there is one. */
  function RankOf(ranked: Table, requester: DiscordId): Option<nat>
  {
    var k := IndexOf(ranked, requester);
    if k < |ranked| then Some(k + 1) else None
  }

  /** What one render shows. */
  datatype Board = Board(page: int, totalPages: nat, entries: seq<Entry>, requesterRank: Option<nat>,
                         prevId: string, nextId: string, prevDisabled: bool, nextDisabled: bool)

  /** The board for `page` of `scope`, as the requester sees it. */
  function BoardFor(rows: Table, scope: string, page: int, requester: DiscordId): Board
    requires page >= 1
  {
    var ranked := Ranked(rows, scope);
    var totalPages := TotalPages(|ranked|);
    Board(page, totalPages, Numbered(Window(ranked, page), (page - 1) * PAGE_SIZE), RankOf(ranked, requester),
          ButtonId(PREV, scope, page), ButtonId(NEXT, scope, page), page <= 1, page >= totalPages)
  }

  /** The reply of a render. */
  datatype Reply =
    | NoUsersFound         // the command's page is empty
    | LeaderboardError     // the store refused the range
    | Shown(board: Board)

  /** `/leaderboard`: a missing or zero page option means page 1; a negative
      page gives a negative offset, which the store refuses; a page past the
      last ranked row is answered with "No users found." */
  function CommandReply(rows: Table, scope: string, pageOption: Option<int>, requester: DiscordId): (reply: Reply)
    ensures var page := if pageOption.None? || pageOption.value == 0 then 1 else pageOption.value;
            && (reply == LeaderboardError <==> page < 1)
            && (reply == NoUsersFound <==> page >= 1 && (page - 1) * PAGE_SIZE >= |Ranked(rows, scope)|)
            && (reply.Shown? ==> reply.board == BoardFor(rows, scope, page, requester))
  {
    var page := if pageOption.None? || pageOption.value == 0 then 1 else pageOption.value;
    if page < 1 then LeaderboardError
    else
      var board := BoardFor(rows, scope, page, requester);
      if board.entries == [] then NoUsersFound else Shown(board)
  }

  /** A pagination press renders the board for the new page. NaN or a page
      below 1 makes the store refuse the range, and a page with no entries
      hands the embed an empty field, which it refuses; both end in the
      handler's error reply. The press never answers "No users found." */
  function PressReply(rows: Table, scope: string, newPage: Option<int>, requester: DiscordId): (reply: Reply)
    ensures reply != NoUsersFound
    ensures reply == LeaderboardError <==>
              newPage.None? || newPage.value < 1 || (newPage.value - 1) * PAGE_SIZE >= |Ranked(rows, scope)|
    ensures reply.Shown? ==> reply.board == BoardFor(rows, scope, newPage.value, requester)
  {
    if newPage.None? || newPage.value < 1 then LeaderboardError
    else
      var board := BoardFor(rows, scope, newPage.value, requester);
      if board.entries == [] then LeaderboardError else Shown(board)
  }

  // ----- ranking -----

  lemma {:induction false} EligibleInScope(rows: Table, scope: string)
    ensures forall i :: 0 <= i < |Eligible(rows, scope)| ==> InScope(Eligible(rows, scope)[i], scope)
    decreases |rows|
  {
    if rows != [] {
      EligibleInScope(rows[1..], scope);
      var head := if InScope(rows[0], scope) then [rows[0]] else [];
      var r := Eligible(rows, scope);
      assert r == head + Eligible(rows[1..], scope);
      forall i | 0 <= i < |r|
        ensures InScope(r[i], scope)
      {
        if i >= |head| {
          assert r[i] == Eligible(rows[1..], scope)[i - |head|];
        }
      }
    }
  }

  /** Filtering keeps exactly the in-scope rows, each as often as it occurs. */
  lemma {:induction false} EligibleKeeps(rows: Table, scope: string, u: User)
    ensures multiset(Eligible(rows, scope))[u] == if InScope(u, scope) then multiset(rows)[u] else 0
    decreases |rows|
  {
    if rows != [] {
      EligibleKeeps(rows[1..], scope, u);
      assert rows == [rows[0]] + rows[1..];
    }
  }

  /** Every ranked row is in scope, so an excluded account and a row without
      an id never appear; every in-scope row is ranked exactly as often as it
      is stored. */
  lemma RankedIsScope(rows: Table, scope: string)
    ensures forall i :: 0 <= i < |Ranked(rows, scope)| ==> InScope(Ranked(rows, scope)[i], scope)
    ensures forall u :: multiset(Ranked(rows, scope))[u] == if InScope(u, scope) then multiset(rows)[u] else 0
    ensures SortedDesc(Ranked(rows, scope))
  {
    var e := Eligible(rows, scope);
    SortDescCorrect(e);
    EligibleInScope(rows, scope);
    forall i | 0 <= i < |Ranked(rows, scope)|
      ensures InScope(Ranked(rows, scope)[i], scope)
    {
      var u := Ranked(rows, scope)[i];
      assert u in multiset(e);
      var j :| 0 <= j < |e| && e[j] == u;
    }
    forall u
      ensures multiset(Ranked(rows, scope))[u] == if InScope(u, scope) then multiset(rows)[u] else 0
    {
      EligibleKeeps(rows, scope, u);
    }
  }

  // ----- pages -----

  /** `totalPages` is the ceiling of the count over ten. */
  lemma TotalPagesIsCeiling(count: nat)
    ensures TotalPages(count) * PAGE_SIZE >= count
    ensures TotalPages(count) > 0 ==> (TotalPages(count) - 1) * PAGE_SIZE < count
    ensures count == 0 <==> TotalPages(count) == 0
  {
  }

  /** A page holds at most ten rows: the ones at positions `skip .. skip + 9`
      of the ranking, numbered `skip + 1 ..` on the board. */
  lemma PageWindow(rows: Table, scope: string, page: int, requester: DiscordId)
    requires page >= 1
    ensures var board := BoardFor(rows, scope, page, requester);
            var ranked := Ranked(rows, scope);
            var skip := (page - 1) * PAGE_SIZE;
            && |board.entries| <= PAGE_SIZE
            && |board.entries| == Min(PAGE_SIZE, if skip >= |ranked| then 0 else |ranked| - skip)
            && forall i :: 0 <= i < |board.entries| ==>
                 board.entries[i].position == skip + i + 1 && board.entries[i].user == ranked[skip + i]
  {
  }

  /** Prev is disabled exactly on the first page; next exactly when no row
      lies after this page. */
  lemma ButtonsDisabled(rows: Table, scope: string, page: int, requester: DiscordId)
    requires page >= 1
    ensures var board := BoardFor(rows, scope, page, requester);
            && (board.prevDisabled <==> page == 1)
            && (board.nextDisabled <==> page * PAGE_SIZE >= |Ranked(rows, scope)|)
  {
    var n := |Ranked(rows, scope)|;
    TotalPagesIsCeiling(n);
  }

  /** The first `k` pages, one after the other. */
  function PagesUpTo(ranked: Table, k: nat): Table
  {
    if k == 0 then [] else PagesUpTo(ranked, k - 1) + Window(ranked, k)
  }

  lemma {:induction false} PagesUpToPrefix(ranked: Table, k: nat)
    ensures PagesUpTo(ranked, k) == ranked[..Min(k * PAGE_SIZE, |ranked|)]
  {
    if k > 0 {
      var skip := (k - 1) * PAGE_SIZE;
      var end := Min(skip + PAGE_SIZE, |ranked|);
      assert k * PAGE_SIZE == skip + PAGE_SIZE;
      var prev := PagesUpTo(ranked, k - 1);
      assert prev == ranked[..Min(skip, |ranked|)] by {
        PagesUpToPrefix(ranked, k - 1);
      }
      if skip < |ranked| {
        assert Window(ranked, k) == ranked[skip..end];
        assert ranked[..skip] + ranked[skip..end] == ranked[..end];
      } else {
        assert Window(ranked, k) == [];
        assert prev + [] == prev;
      }
    }
  }

  /** Pages 1 to `totalPages`, one after the other, are the whole ranking:
      no row is left out and none is shown twice. */
  lemma PagesCoverRanking(rows: Table, scope: string)
    ensures var ranked := Ranked(rows, scope);
            PagesUpTo(ranked, TotalPages(|ranked|)) == ranked
  {
    var ranked := Ranked(rows, scope);
    PagesUpToPrefix(ranked, TotalPages(|ranked|));
    TotalPagesIsCeiling(|ranked|);
  }

  /** The requester's rank is found exactly when the requester is ranked; it
      is one more than the position of the requester's first ranked row, and
      it is the same on every page. */
  lemma RankConsistent(rows: Table, scope: string, page: int, other: int, requester: DiscordId)
    requires page >= 1 && other >= 1
    ensures var ranked := Ranked(rows, scope);
            var rank := BoardFor(rows, scope, page, requester).requesterRank;
            && rank == BoardFor(rows, scope, other, requester).requesterRank
            && (rank.Some? <==> exists i :: 0 <= i < |ranked| && HasId(ranked[i], requester))
            && (rank.Some? ==> 1 <= rank.value <= |ranked| && HasId(ranked[rank.value - 1], requester)
                               && forall i :: 0 <= i < rank.value - 1 ==> !HasId(ranked[i], requester))
  {
    var ranked := Ranked(rows, scope);
    FirstMatch(ranked, requester);
  }

  /** The requester's rank, read off the stored rows: it is present exactly
      when the requester has an in-scope row, it then points at such a row,
      and every in-scope row with more points is ranked above it. */
  lemma RankFromTable(rows: Table, scope: string, page: int, requester: DiscordId)
    requires page >= 1
    ensures var ranked := Ranked(rows, scope);
            var rank := BoardFor(rows, scope, page, requester).requesterRank;
            && (rank.Some? <==> exists u :: u in rows && HasId(u, requester) && InScope(u, scope))
            && (rank.Some? ==>
                  && ranked[rank.value - 1] in rows && HasId(ranked[rank.value - 1], requester)
                  && InScope(ranked[rank.value - 1], scope)
                  && forall u :: u in rows && InScope(u, scope) && u.points > ranked[rank.value - 1].points ==>
                       u in ranked[..rank.value - 1])
  {
    var ranked := Ranked(rows, scope);
    var rank := BoardFor(rows, scope, page, requester).requesterRank;
    RankConsistent(rows, scope, page, page, requester);
    RankedMembers(rows, scope);
    if exists u :: u in rows && HasId(u, requester) && InScope(u, scope) {
      var u :| u in rows && HasId(u, requester) && InScope(u, scope);
      assert u in ranked;
    }
    if rank.Some? {
      var k := rank.value - 1;
      assert ranked[k] in ranked;
      forall u | u in rows && InScope(u, scope) && u.points > ranked[k].points
        ensures u in ranked[..k]
      {
        assert SortedDesc(ranked) by { RankedIsScope(rows, scope); }
        AboveInPrefix(ranked, k, u);
      }
    }
  }

  /** The ranking holds exactly the stored rows that are in scope. */
  lemma RankedMembers(rows: Table, scope: string)
    ensures forall u :: u in Ranked(rows, scope) <==> u in rows && InScope(u, scope)
  {
    RankedIsScope(rows, scope);
    forall u
      ensures u in Ranked(rows, scope) <==> u in rows && InScope(u, scope)
    {
      assert u in Ranked(rows, scope) <==> u in multiset(Ranked(rows, scope));
      assert u in rows <==> u in multiset(rows);
    }
  }

  /** In a descending sequence, a row with more points than position `k`
      lies before `k`. */
  lemma AboveInPrefix(s: Table, k: nat, u: User)
    requires SortedDesc(s) && k < |s| && u in s && u.points > s[k].points
    ensures u in s[..k]
  {
    var j :| 0 <= j < |s| && s[j] == u;
    assert j < k;
    assert s[..k][j] == u;
  }

  lemma {:induction false} FirstMatch(rows: Table, id: DiscordId)
    ensures IndexOf(rows, id) < |rows| <==> exists i :: 0 <= i < |rows| && HasId(rows[i], id)
    ensures forall i :: 0 <= i < IndexOf(rows, id) ==> !HasId(rows[i], id)
    decreases |rows|
  {
    if rows != [] {
      FirstMatch(rows[1..], id);
      if !HasId(rows[0], id) {
        forall i | 0 <= i < IndexOf(rows, id)
          ensures !HasId(rows[i], id)
        {
          if i > 0 {
            assert rows[i] == rows[1..][i - 1];
          }
        }
        if exists i :: 0 <= i < |rows| && HasId(rows[i], id) {
          var i :| 0 <= i < |rows| && HasId(rows[i], id);
          assert rows[1..][i - 1] == rows[i];
        }
      }
    }
  }

  /** The owner's press on a board asks for the page after it (`next`) or
      before it (`prev`), in the same scope. An enabled `next` always shows
      that page; an enabled `prev` does whenever the board had entries. */
  lemma NextPressShowsNextPage(rows: Table, scope: string, page: int, requester: DiscordId)
    requires page >= 1 && '_' !in scope
    ensures var board := BoardFor(rows, scope, page, requester);
            && HandlePress(board.nextId, Some(requester), requester) == Turn(scope, Some(page + 1))
            && HandlePress(board.prevId, Some(requester), requester) == Turn(scope, Some(page - 1))
            && (!board.nextDisabled ==>
                  PressReply(rows, scope, Some(page + 1), requester) == Shown(BoardFor(rows, scope, page + 1, requester)))
            && (!board.prevDisabled && board.entries != [] ==>
                  PressReply(rows, scope, Some(page - 1), requester) == Shown(BoardFor(rows, scope, page - 1, requester)))
  {
    PressSteps(scope, page, requester, requester);
    ButtonsDisabled(rows, scope, page, requester);
    PageWindow(rows, scope, page, requester);
  }
}
