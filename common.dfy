/** Shared value types of the moola bot: nullable values and the identifiers the
    chat platform hands out. */
module Common {

  /** A value that may be absent: a nullable column, an optional command
      option, a lookup that found nothing. */
  datatype Option<+T> = None | Some(value: T)

  /** A chat-platform user id ("snowflake"), kept as its decimal text. */
  type DiscordId = string

  /** A chat-platform role id, kept as its decimal text. */
  type RoleId = string
}
