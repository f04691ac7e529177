/** The leaderboard's pagination buttons: the custom id a button carries,
    `<action>_<scope>_<page>`, and the handler that splits a pressed id on
    `_` and steps the page. */
module PageButtons {
  import opened Common
  import opened Text

  const PREV: string := "prev"
  const NEXT: string := "next"

  /** The custom id of a pagination button. */
  function ButtonId(action: string, scope: string, page: int): string
  {
    action + "_" + scope + "_" + IntToString(page)
  }

  /** What the button handler does with a press. */
  datatype Press =
    | Ignored                                        // not a pagination button
    | NotOwner                                       // pressed by someone other than the board's requester
    | Turn(scope: string, newPage: Option<int>)      // render this page; `None` is NaN

  /** The piece at position `k` of a split id; a missing piece (JavaScript's
      `undefined`) is empty text here, and only ever reaches `parseInt`,
      which yields NaN for both. */
  function Piece(parts: seq<string>, k: nat): string
  {
    if k < |parts| then parts[k] else ""
  }

  /** The button handler: split the id on `_`, ignore anything whose first
      piece is neither `prev` nor `next`, refuse a presser who is not the
      user the board was made for (`owner`, absent when the message has no
      originating interaction), and otherwise step the parsed page. */
  function HandlePress(customId: string, owner: Option<DiscordId>, presser: DiscordId): (press: Press)
    ensures press.Turn? ==> owner == Some(presser)
    ensures press.NotOwner? ==> owner != Some(presser)
    ensures !press.Ignored? ==> Split(customId, '_')[0] in {PREV, NEXT}
  {
    var parts := Split(customId, '_');
    var action := parts[0];
    if action != PREV && action != NEXT then Ignored
    else if owner != Some(presser) then NotOwner
    else
      var page := ParseInt(Piece(parts, 2));
      Turn(Piece(parts, 1), if page.None? then None else if action == NEXT then Some(page.value + 1) else Some(page.value - 1))
  }

  lemma {:induction false} NatTextHasNoUnderscore(n: nat)
    ensures '_' !in NatToString(n)
  {
  }

  /** The decimal text of an integer never holds the separator. */
  lemma IntTextHasNoUnderscore(page: int)
    ensures '_' !in IntToString(page)
  {
    if page < 0 {
      NatTextHasNoUnderscore(-page);
      assert IntToString(page) == "-" + NatToString(-page);
    } else {
      NatTextHasNoUnderscore(page);
    }
  }

  /** A button id splits back into its action, its scope and the text of its
      page, which `parseInt` reads back. */
  lemma ButtonIdParts(action: string, scope: string, page: int)
    requires '_' !in action && '_' !in scope
    ensures Split(ButtonId(action, scope, page), '_') == [action, scope, IntToString(page)]
    ensures ParseInt(Split(ButtonId(action, scope, page), '_')[2]) == Some(page)
  {
    var parts := [action, scope, IntToString(page)];
    IntTextHasNoUnderscore(page);
    assert Join(parts[1..], '_') == scope + "_" + IntToString(page) by {
      assert parts[1..][1..] == [IntToString(page)];
    }
    assert Join(parts, '_') == ButtonId(action, scope, page);
    SplitJoin(parts, '_');
    ParseIntToString(page);
  }

  /** The board's owner pressing `next` on the board for `page` asks for
      `page + 1`, pressing `prev` asks for `page - 1`, and the scope comes
      back unchanged; anyone else is refused. */
  lemma PressSteps(scope: string, page: int, owner: DiscordId, presser: DiscordId)
    requires '_' !in scope
    ensures HandlePress(ButtonId(NEXT, scope, page), Some(owner), owner) == Turn(scope, Some(page + 1))
    ensures HandlePress(ButtonId(PREV, scope, page), Some(owner), owner) == Turn(scope, Some(page - 1))
    ensures presser != owner ==> HandlePress(ButtonId(NEXT, scope, page), Some(owner), presser) == NotOwner
    ensures presser != owner ==> HandlePress(ButtonId(PREV, scope, page), Some(owner), presser) == NotOwner
  {
    ButtonIdParts(NEXT, scope, page);
    ButtonIdParts(PREV, scope, page);
  }

  /** An id without the separator is one piece: unless it is `prev` or
      `next` itself, the handler leaves it alone. The team-choice buttons,
      `bullButton` and `bearButton`, are such ids. */
  lemma PlainIdIgnored(customId: string, owner: Option<DiscordId>, presser: DiscordId)
    requires '_' !in customId && customId != PREV && customId != NEXT
    ensures HandlePress(customId, owner, presser) == Ignored
  {
    SplitNoSeparator(customId, '_');
  }
}
