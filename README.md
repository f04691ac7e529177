# Moola bot core in Dafny

A model of the deterministic rules inside `index.ts`, the Discord bot that
runs the "moola" points game between two teams, `bullas` and `beras`. The
`users` table (`discord_id`, `address`, `points`, `team`) is a sequence of
rows in the store's order. Supabase's `.single()`, `update().eq()`, `.eq()`
filters and the `sum_points_for_team` procedure are functions over that
sequence. A guild member's roles are a set of role ids.

Modules, one per concern of the file:

- `Common`: `Option`, and Discord ids as text.
- `Text`: splitting and joining on a separator, decimal text of integers,
  and a `parseInt` for the pieces the bot parses.
- `Store`: the `users` table and its lookups, updates and sums.
- `Access`: `hasAdminRole` and `maskAddress`.
- `Teams`: the team standings, and which team wins or loses.
- `Ledger`: `/transfer` and `/fine`.
  - As functions of the table: `TransferResult`, `FineResult`.
  - As methods of a `UsersTable` class that write its `rows` field in
    source order.
- `Reconciler`: `updateRoles`.
  - The grant rule as a function.
  - The run as a fold over the players.
  - The loop as methods of a `Guild` class whose `memberRoles` map the loop
    updates.
- `Ordering`: the points-descending, stable order that the leaderboard
  queries and the snapshot sort both produce.
- `PageButtons`: the leaderboard buttons' `prev|next_<scope>_<page>` ids, and
  the button handler that parses them.
- `Leaderboard`: `/leaderboard` and its pagination presses: ranking,
  paging, requester rank, button state.
- `Snapshot`: `/snapshot`.
  - The role flags, rows and header of `createCSV`.
  - The top-player lists.
  - The all-players array, filled by `push` and then sorted in place.
- `TeamChoice`: the `/team` decision, for a caller in a cached guild or not.

In these places the code does not do what its commands' names and replies
suggest. The model follows the code, except where noted.

- A tie in team points goes to `beras`: `bullas` wins only when strictly
  ahead.
- `/transfer` refuses only a zero amount. A negative amount goes through.
- In `/transfer`, both new balances are computed before the first write, so
  a self-transfer adds `amount` to the caller.
- `/team` reads a linked caller's roles through `member.roles.cache`
  (index.ts:634-635). Outside a cached guild the member is null or a raw API
  member, so this throws, and nothing catches it: no reply is sent.
- A pagination press to a page with no ranked rows gives the embed an empty
  field. The embed refuses it, so the press ends in the handler's error
  reply (index.ts:1241-1245, 1270-1275). The command answers "No users
  found." for the same page.

## Model

| member | source | states |
|---|---|---|
| Access.HasAdminRole | index.ts:72-83 | true exactly for a cached guild member holding one of the five admin role ids; never for a missing or raw API member |
| Access.AdminGateMonotone | index.ts:72-83 | gaining roles never loses the admin gate; a raw API member never passes, whatever ids it lists |
| Access.MaskAddress | index.ts:84-87 | text shorter than 6 characters, empty text included, is returned as is; longer text becomes its first 2 characters, `...`, and its last 4 |
| Access.MaskIdempotent | index.ts:84-87 | masking an already masked address changes nothing |
| Store.Single | index.ts:438-442 | `.single()` on `discord_id`: the row when exactly one row has the id, and nothing (the query's error) otherwise; `SingleAfterSetPoints` states how it reads a write |
| Store.SetPoints | index.ts:479-482 | `update({ points }).eq("discord_id", id)`: no row is added or removed; `UpdateSingle` and `TotalSetPoints` state what changes |
| Store.TeamPoints | index.ts:106-115 | `sum_points_for_team`: the sum of the balances of the team's rows; `TeamPointsSetPoints` states how a write moves it |
| Store.UpdateSingle | index.ts:479-482 | an update aimed at the single row with an id changes that row's points and no other row |
| Store.TotalSetPoints | index.ts:479-482 | such an update changes the sum of all balances by exactly the difference |
| Store.TeamPointsSetPoints | index.ts:106-115 | such an update changes the `sum_points_for_team` of the row's team by the difference, and every other team's sum not at all |
| Store.SingleAfterSetPoints | index.ts:438-442 | after such an update, a `.single()` lookup of that id finds the new balance, and a lookup of any other id finds what it found before |
| Store.NonNegativeSetPoints | index.ts:939-942 | writing a non-negative balance keeps every balance non-negative |
| Teams.WinningTeam | index.ts:200-201 | the winner is `bullas` exactly when its sum is strictly greater than `beras`'s, and `beras` otherwise |
| Teams.LosingTeam | index.ts:853-855 | the loser is the other team, never the winner |
| Teams.TargetTeam | index.ts:201 | a `winning` run targets the winner, and a `losing` run the other team |
| Teams.WinnerLeads | index.ts:853-855 | the winner never has fewer points than the loser; the sums are equal only on a tie, and a tie makes `beras` the winner |
| Ledger.TransferResult | index.ts:420-509 | the `/transfer` handler as a function of the table: its checks in source order, then the sender's write and the receiver's, either of which may fail; its outcomes are stated by the lemmas below |
| Ledger.TransferFailurePolicy | index.ts:421-470 | a transfer goes through exactly when: the caller is an admin; there is a target and a non-zero amount; both ids have exactly one row (`.single()`); the sender covers the amount; no write fails. Every refusal before the first write leaves the table unchanged |
| Ledger.TransferConserves | index.ts:472-496 | a successful transfer between two users leaves the sender down by `amount`, the receiver up by `amount`, and the sum of all balances unchanged |
| Ledger.TransferTouchesTwoRows | index.ts:479-496 | a successful transfer between two users rewrites exactly the sender's row and the receiver's row |
| Ledger.TransferShiftsTeams | index.ts:479-496 | `amount` leaves the sender's team sum and enters the receiver's |
| Ledger.UsersTable.Transfer | index.ts:420-509 | the handler's reads, checks and two ordered writes give exactly the outcome and table of `TransferResult` |
| Ledger.SelfTransferMints | index.ts:472-496 | as written, a self-transfer raises the caller's balance and the table's sum by `amount` |
| Ledger.NegativeAmountAccepted | index.ts:433-453 | as written, a transfer of -50 from a balance of 100 to one of 30 goes through and leaves the receiver at -20 |
| Ledger.SecondWriteFailureLosesPoints | index.ts:479-503 | as written, when the receiver's write is rejected the sender stays debited, and `amount` leaves the table |
| Ledger.SafeTransferConserves | index.ts:420-509 | the corrected transfer never writes on refusal, and a rejected write leaves the table as it was, so both balances change or neither does. It goes through exactly for a positive, covered amount between readable rows whose write is accepted. It keeps the sum of all balances, self-transfer included. It keeps balances non-negative and moves exactly `amount` between two users |
| Ledger.SafeTransfer | index.ts:420-509 | the corrected transfer: only a positive, covered amount between two readable rows moves, a self-transfer changes nothing, and both rows change in one write, which the store accepts or rejects as a whole; `SafeTransferConserves` states its properties |
| Ledger.TwoWritesNonNegative | index.ts:450-496 | two writes that move a covered, positive amount keep every balance non-negative |
| Ledger.FineResult | index.ts:896-957 | the `/fine` handler as a function of the table: admin, target and positive amount, a readable row, a covering balance, then one write that may fail; its outcomes are stated by the lemmas below |
| Ledger.FineFailurePolicy | index.ts:896-944 | a fine goes through exactly when: the caller is an admin; there is a target and a positive amount; the id has exactly one row (`.single()`); the balance covers the amount; the write succeeds. Every refusal writes nothing |
| Ledger.FineTakesAmount | index.ts:928-942 | a successful fine sets the target's balance to the old balance less `amount`, which is never negative, and changes no other row |
| Ledger.FineRemovesPoints | index.ts:928-942 | the fined amount leaves the table's sum and the target team's sum; a fine keeps all balances non-negative |
| Ledger.UsersTable.Fine | index.ts:896-957 | the handler gives exactly the outcome and table of `FineResult`, and never makes a balance negative |
| Reconciler.NewRoles | index.ts:219-239 | a member is granted only base tier roles, and only roles it does not hold |
| Reconciler.GrantRule | index.ts:219-239 | each tier is granted exactly when the points reach its threshold and the member holds neither its base role nor its winner role (free mint has only the base role) |
| Reconciler.NewRolesAntitone | index.ts:219-239 | more held roles never add a grant, and more points never remove one |
| Reconciler.NewRolesSettle | index.ts:219-239 | once a member holds its grants, the same points grant nothing more |
| Reconciler.GrantAsWritten | index.ts:219-239 | the grant as written: reaching the WL or ML check without the base role throws, which ends the member's turn with nothing granted; otherwise only free mint can be granted |
| Reconciler.UndeclaredWinnerIdsBlockGrants | index.ts:222 | as written, WL and ML are never granted, and a role-less member that reaches every threshold gets nothing |
| Reconciler.GrantMember | index.ts:216-245 | one player's turn under the corrected grant rule: a player without an id, or one the guild does not return, is skipped; otherwise its roles grow by `NewRoles` |
| Reconciler.Reconciled | index.ts:215-247 | the `for` loop over the players as a fold of `GrantMember`, under the corrected grant rule; the `Reconcile…` lemmas state its properties |
| Reconciler.ReconcileGrows | index.ts:215-247 | a run keeps every member and only adds roles |
| Reconciler.ReconcileSettles | index.ts:215-247 | after a run, no player of the run would be granted anything more |
| Reconciler.ReconcileIdempotent | index.ts:215-247 | a second run over the same players and thresholds changes nothing |
| Reconciler.ReconcileUntouched | index.ts:215-247 | a member who is not one of the run's players keeps exactly its roles |
| Reconciler.ReconcileMember | index.ts:215-247 | a player whose id appears once in the run ends with its old roles plus exactly the roles the grant rule gives it |
| Reconciler.Guild.GrantPlayer | index.ts:216-245 | one player's turn, under the corrected grant rule with the winner role ids as parameters: a player with no id, or one the guild cannot fetch, is skipped; otherwise the member's roles grow by exactly the grant rule's roles, read from the roles fetched |
| Reconciler.Guild.GrantAll | index.ts:215-247 | the loop leaves every member with the roles of the run's fold, under the corrected grant rule |
| Reconciler.Guild.UpdateRoles | index.ts:179-250 | the run aborts without touching a member when a role is unresolved or the player query fails, and otherwise walks the target team's players, granting by the corrected rule |
| Ordering.SortDescCorrect | index.ts:741 | the ranking order is points-descending, is a permutation of its input, and keeps rows with equal points in input order |
| Leaderboard.BoardFor | index.ts:729-832 | the board for a page of at least 1: the numbered rows of its window, the requester's rank, and the two button ids with their disabled flags; `PageWindow`, `ButtonsDisabled` and `RankConsistent` state its properties |
| Leaderboard.RankedIsScope | index.ts:737-747 | a ranked row has an id, is not excluded, and is on the scope's team (any team for `all`); every such row is ranked as often as it is stored |
| Leaderboard.TotalPagesIsCeiling | index.ts:774 | `totalPages` is the ceiling of the count over ten, and 0 exactly for no rows |
| Leaderboard.PageWindow | index.ts:762-793 | a page has at most 10 entries: the rows at ranking positions `skip ..`, numbered `skip + index + 1` |
| Leaderboard.ButtonsDisabled | index.ts:808-819 | prev is disabled exactly on page 1; next exactly when no ranked row lies past the page |
| Leaderboard.PagesCoverRanking | index.ts:762-793 | pages 1 to `totalPages` laid end to end are the whole ranking: no row is left out and none repeats |
| Leaderboard.RankConsistent | index.ts:747-749 | the requester's rank is the same on every page. It is present exactly when the requester is ranked, and then it is one more than the position of their first ranked row |
| Leaderboard.RankFromTable | index.ts:735-749 | the requester's rank is present exactly when the requester has a stored, in-scope row; it then points at such a row, and every in-scope row with more points is ranked above it |
| Leaderboard.RankedMembers | index.ts:735-747 | the ranking holds exactly the stored rows that pass the leaderboard's filters |
| Leaderboard.CommandReply | index.ts:729-832 | a missing page is page 1 (`|| 1`, which also maps 0); a page below 1, which the option's minimum of 1 (index.ts:332) keeps Discord from sending, is an error; and "No users found." comes exactly when the page lies past the last ranked row |
| Leaderboard.NextPressShowsNextPage | index.ts:1163-1177 | the owner's `next` press asks for the following page and `prev` for the one before, in the same scope; an enabled `next` always shows that page, and an enabled `prev` on a board with entries does too |
| Leaderboard.PressReply | index.ts:1181-1277 | a press replies with the error exactly for NaN, a page below 1, or a page past the last ranked row; otherwise it shows that page's board, and it never answers "No users found." |
| PageButtons.ButtonId | index.ts:811-816 | the custom id `${action}_${scope}_${page}`; `ButtonIdParts` states that the handler reads it back |
| PageButtons.HandlePress | index.ts:1160-1177 | only the board's requester turns a page, anyone else is refused, and every id whose first `_` piece is neither `prev` nor `next` is ignored |
| PageButtons.ButtonIdParts | index.ts:811 | a button id splits on `_` back into its action, its scope and the text of its page, and that text parses back to the page |
| PageButtons.PressSteps | index.ts:1163-1177 | `next` steps the page up by one and `prev` down by one; a presser other than the board's owner is refused |
| PageButtons.PlainIdIgnored | index.ts:1163-1164 | an id without `_` that is not `prev` or `next`, such as the team buttons' ids, is ignored |
| Text.ParseInt | index.ts:1176-1177 | `parseInt` on decimal text: an optional sign and the leading digits, NaN without a digit; `ParseIntToString` states that it reads back every integer's text |
| Snapshot.FlagsOf | index.ts:151-155 | the three role flags of a row, from the member the fetch returned for its id; `FlagRule` states them |
| Snapshot.Csv | index.ts:132-163 | `createCSV`: the header for the chosen columns, a line break, and the players' rows joined by line breaks; `CsvLines` and `CsvReadsBack` state how it reads back |
| Snapshot.TopPlayers | index.ts:119-129 | `getTopPlayers`: at most `limit` rows, the head of the team's points-descending ranking (`TopPlayersRanked`) |
| Snapshot.FlagRule | index.ts:151-155 | WL is `Y` exactly when the fetched member holds the whitelist or WL winner role; ML likewise; free mint for its own role; no member means `N` |
| Snapshot.RowReadsBack | index.ts:157-159 | a row splits on commas back into its fields, as many as the header has, and its points field parses back to the points |
| Snapshot.CsvLines | index.ts:133-162 | a file split on line breaks is the header line followed by one line per player |
| Snapshot.CsvReadsBack | index.ts:132-162 | reading a file back gives the columns, then each player's fields in order |
| Snapshot.TopPlayersRanked | index.ts:119-129 | a top list is the head, of at most `limit` rows, of the team's points-descending ranking; nobody left out outranks anybody listed |
| Snapshot.SortByPointsDesc | index.ts:866 | the in-place sort leaves the array equal to the stable points-descending order of its old contents |
| Snapshot.InsertAt | index.ts:866 | one insertion step puts a row into the sorted rest of the array |
| Snapshot.AllPlayers | index.ts:859-866 | the winners followed by the losers, sorted in place |
| Snapshot.TakeSnapshot | index.ts:852-870 | the three files are the winner's top 2000, the loser's top 700, and every player of both teams sorted, with discord ids; each file's flags come from its own member fetch |
| Snapshot.AllPlayersListsEveryone | index.ts:859-866 | the all-players list holds each row of either team once, in points-descending order; among equal points, winners come first, each team in store order |
| TeamChoice.TeamCommand | index.ts:618-663 | the reply is "not linked" without a single row. A linked caller outside a cached guild gets no reply, because reading the member's roles throws (index.ts:634-635). In a cached guild: it is a rejoin exactly for a linked team with no team role, when the guild resolves that team's role; it refuses exactly a linked team that holds a team role; every other linked caller gets the offer |
| TeamChoice.RejoinIsFinal | index.ts:636-663 | a rejoin adds the team role and drops only the mootard role, so the next `/team` refuses a second choice for the same team |
| TeamChoice.RolesAfter | index.ts:643-647 | a rejoin adds the team role and removes the mootard role; any other reply changes no role |
| TeamChoice.HeldRoleChangesNothing | index.ts:633-663 | a caller already holding a team role keeps all their roles |

## Left out

- Discord plumbing and user-facing formatting are not modelled: command
  registration, replies, embeds, colours, usernames, `toLocaleString` and
  `Decimal` display. Points are integers throughout.
- Supabase and the guild are modelled by value, without their I/O:
  - a query is a function of the table;
  - a failed write is a parameter (`WriteFault`);
  - a failed read is a parameter only for the reconciler's player query
    (`queryFails`). Every other read fails only as described below.
  - a failed member fetch is a member missing from the map.
- Concurrent commands and the read-then-write races between them are not
  modelled. Each command is one sequential step.
- A store error on a `.single()` read is not modelled apart from its row
  count. This covers the sender and receiver reads of `/transfer`
  (index.ts:438-448, 455-465), the target read of `/fine` (916-925) and the
  caller read of `/team` (620-632). In the model such a read fails only when
  the id does not have exactly one row. A store error would end the same
  way: a refusal with no write.
- Store errors on the leaderboard's queries are not modelled. A failed page
  query throws, and the command ends in its error reply (index.ts:762-767).
  A failed rank query leaves out the "Your Rank" line (747-749).
- The "Your Rank" line reads the rank from one query and the page from
  another. The model reads both from one table.
- The order of rows with equal points is whatever the store returns. The
  model takes the table's own order, which is also what JavaScript's stable
  `sort` keeps.
- The `page` option of `/leaderboard` has a minimum of 1 (index.ts:332), so
  Discord never sends the command a page below 1. `Leaderboard.CommandReply`
  also covers such inputs, which Discord never sends. There, a page below 1
  gives a negative offset, which the store refuses, and the command answers
  with its error reply.
- PostgREST's 416 reply for a range past the end is not modelled. A page past
  the end reads as no rows. The command answers "No users found." and a press
  ends in its error reply, as they do for an empty page.
- `sum_points_for_team` returning no data (read as 0) is not modelled. The
  procedure is the team's sum.
- `Leaderboard.PressReply`: a button id with no scope piece is read with an
  empty scope. JavaScript passes `undefined` to the team filter instead. No
  button the bot makes has such an id.
- `Text.ParseInt` does not skip leading whitespace as `parseInt` does. It
  also does not read a `0x` prefix as hexadecimal, as `parseInt` without a
  radix does (index.ts:1176-1177). The bot writes page pieces in decimal,
  without either.
- `Access.MaskAddress`: a null address is not modelled. `maskAddress` returns
  it unchanged (index.ts:85), and a CSV row would print it as `null`.
  Addresses are text throughout the model.
- A `roles.add` that fails midway through a member is not modelled. The model
  treats a member's three grants as all-or-nothing.
- Whether `discord.js` updates the cached member after `roles.add` does not
  matter to the model: every check reads the roles as fetched.
- CSV file writing and deletion, and the attachment reply of `/snapshot`, are
  left out.
- `Snapshot.TakeSnapshot` starts after the admin gate and the guild check
  (index.ts:834-850). The gate is `Access.HasAdminRole`, and a query failure
  there ends in an error reply.
- Each of the snapshot's three member fetches (index.ts:145, once per file
  at 868-870) is a map of the members the guild returned. A failed fetch is
  an empty map.
- The `/wankme` and `/updatewallet` token commands are left out. They are
  uuid generation plus an insert.
- `TeamChoice.TeamCommand`: a rejected `roles.add` or `roles.remove`
  (index.ts:644-646) is not modelled. The handler throws and sends no reply,
  and `RolesAfter` assumes both role writes succeed.
- The team-choice button handlers, `guildMemberAdd`, `/moola`, `/warstatus`,
  the health server and the scheduler are left out.
- The first team button handler is dead code and is not modelled.
- `Reconciler.Guild.UpdateRoles`, `GrantAll` and `GrantPlayer`, and the
  `Reconciled` fold, grant by the corrected rule `NewRoles`, with the winner
  role ids as parameters. As written, the WL and ML checks reach names that
  are not declared there (index.ts:222, 229) and throw. `GrantAsWritten`
  models that (see Findings).
- `updateRoles(guild)` called without thresholds, and the `WHITELIST_MINIMUM`
  global that nothing reads, are not modelled.
- `Snapshot.TopPlayers`: the limit is a natural number. The
  `Number.MAX_SAFE_INTEGER` limit covers any real table, so
  `Snapshot.AllPlayersListsEveryone` assumes a table no larger than that.

## Findings

| source | as written | input that shows it | evidently intended | confidence | as-written member | corrected member |
|---|---|---|---|---|---|---|
| index.ts:472-496 | the receiver's new balance is computed from the balance read before the sender's write | `/transfer` to oneself of 50 with a balance of 100 leaves 150 | a self-transfer changes nothing | not executed | Ledger.SelfTransferMints | Ledger.SafeTransferConserves |
| index.ts:433 | only a zero amount is refused | `/transfer` of -50 from a=100 to b=30 leaves b at -20 | only positive amounts move | not executed | Ledger.NegativeAmountAccepted | Ledger.SafeTransferConserves |
| index.ts:479-503 | the two writes are separate, with no undo | the receiver's write rejected after the sender's succeeded | both balances change or neither does | not executed | Ledger.SecondWriteFailureLosesPoints | Ledger.SafeTransferConserves |
| index.ts:222 | `WL_WINNER_ROLE_ID` and `ML_WINNER_ROLE_ID` are declared only inside `createCSV` (index.ts:137-138), so the WL and ML checks throw once the base role is missing, and the per-member catch ends that member's turn | a role-less member whose points reach every threshold is granted nothing | WL, ML and free mint are each granted by their own threshold | not executed | Reconciler.UndeclaredWinnerIdsBlockGrants | Reconciler.GrantRule |
