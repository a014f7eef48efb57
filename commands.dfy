/**
 * The slash commands the bot registers once at startup, kept as constant
 * data, and the resolved option values an invocation carries.
 */
module Commands {
  import opened Wrappers
  import opened Guild

  datatype OptionType = StringOption | RoleOption

  datatype OptionDef = OptionDef(name: string, description: string, required: bool, kind: OptionType)

  /** A command definition; `manageRoles` is the default-member permission the panel command sets. */
  datatype CommandDef = CommandDef(name: string, description: string, options: seq<OptionDef>, manageRoles: bool)

  const EmbedCommand := CommandDef("embed", "Create a custom embed", [
    OptionDef("title", "Embed title", false, StringOption),
    OptionDef("description", "Embed description", false, StringOption),
    OptionDef("color", "Hex color, e.g. #ff99cc", false, StringOption),
    OptionDef("image", "Image URL", false, StringOption),
    OptionDef("footer", "Footer text", false, StringOption)
  ], false)

  const PanelCommand := CommandDef("panel", "Post a role panel with toggle buttons", [
    OptionDef("role1", "First role", true, RoleOption),
    OptionDef("role2", "Second role", true, RoleOption),
    OptionDef("role3", "Third role", false, RoleOption),
    OptionDef("role4", "Fourth role", false, RoleOption),
    OptionDef("role5", "Fifth role", false, RoleOption),
    OptionDef("title", "Panel title", false, StringOption),
    OptionDef("description", "Panel description", false, StringOption)
  ], true)

  const PingCommand := CommandDef("ping", "Check if Halo is awake", [], false)

  /** The commands, in the order they are registered. */
  const Registry: seq<CommandDef> := [EmbedCommand, PanelCommand, PingCommand]

  /**
   * The option values of one invocation, already resolved by the platform.
   * String and role options are kept apart, so an option is read only
   * with the getter of its own type.
   */
  datatype CommandOptions = CommandOptions(strings: map<string, string>, roles: map<string, Role>)

  /** `interaction.options.getString(name)`: null when the option was not given. */
  function GetString(o: CommandOptions, name: string): Option<string> {
    if name in o.strings then Some(o.strings[name]) else None
  }

  /** `interaction.options.getRole(name)`: null when the option was not given. */
  function GetRole(o: CommandOptions, name: string): Option<Role> {
    if name in o.roles then Some(o.roles[name]) else None
  }

  /** The platform delivers every required option of the invoked command, with its declared type. */
  ghost predicate MeetsSchema(c: CommandDef, o: CommandOptions) {
    forall k :: 0 <= k < |c.options| && c.options[k].required ==>
      (match c.options[k].kind
       case StringOption => c.options[k].name in o.strings
       case RoleOption => c.options[k].name in o.roles)
  }

  /** An invocation of the panel command always carries role1 and role2. */
  lemma PanelSchemaRequiresTwoRoles(o: CommandOptions)
    requires MeetsSchema(PanelCommand, o)
    ensures "role1" in o.roles && "role2" in o.roles
  {
    assert PanelCommand.options[0].required && PanelCommand.options[0].kind == RoleOption;
    assert PanelCommand.options[1].required && PanelCommand.options[1].kind == RoleOption;
  }
}
