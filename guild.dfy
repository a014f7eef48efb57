/** What the bot reads of the guild: roles and their place in the hierarchy. */
module Guild {

  /** A role's snowflake identifier, kept as the string the platform hands over. */
  type RoleId = string

  /** A guild role: its identifier, display name and hierarchy position (higher = more authority). */
  datatype Role = Role(id: RoleId, name: string, position: int)
}
