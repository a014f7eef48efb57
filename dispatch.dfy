/**
 * The interaction handler: classify one incoming interaction, run the
 * matching command or the role toggle, and say what is posted and what is
 * replied. The results of the platform calls the handler awaits are
 * inputs; a call that throws lands in the handler's catch, which replies
 * with a generic notice.
 */
module Dispatch {
  import opened Wrappers
  import opened Guild
  import opened Text
  import opened Commands
  import Embed
  import Panel
  import CustomId
  import opened RoleToggle

  /** One incoming interaction: a slash command, a button click, or anything else. */
  datatype Interaction =
    | ChatInput(commandName: string, options: CommandOptions)
    | ButtonPress(customId: string)
    | OtherInteraction

  /** What the handler does with an interaction. */
  datatype Route =
    | PingRoute
    | EmbedRoute
    | PanelRoute
    | RoleButtonRoute(roleId: RoleId)
    | Ignored

  /**
   * The results of the platform calls the handler awaits. `None` or `false`
   * means the call threw: fetching the bot's own member (for its highest
   * role position), posting the panel (for the message URL), fetching the
   * clicking member, and adding or removing the role.
   */
  datatype Platform = Platform(
    botHighest: Option<int>,
    postedUrl: Option<string>,
    guildRoles: map<RoleId, Role>,
    memberFetched: bool,
    roleUpdated: bool)

  /** The guild's role cache is keyed by role id. */
  predicate RolesKeyedById(roles: map<RoleId, Role>) {
    forall k :: k in roles ==> roles[k].id == k
  }

  datatype Content = Message(text: string) | Embeds(embed: Embed.EmbedPayload)

  /** An interaction reply; an ephemeral one is shown to the invoker only. */
  datatype Reply = Reply(content: Content, ephemeral: bool)

  datatype PanelMessage = PanelMessage(embed: Panel.PanelEmbed, buttons: seq<Panel.Button>)

  /** The panel message posted to the channel, if any, and the reply to the interaction, if any. */
  datatype Response = Response(posted: Option<PanelMessage>, reply: Option<Reply>)

  const Pong: string := "Pong! 🐰"
  const Failed: string := "Something went wrong 😿"

  /** The catch block's reply: a generic notice, to the invoker only, nothing posted. */
  const FailedResponse: Response := Response(None, Some(Reply(Message(Failed), true)))

  function PostedText(url: string): string {
    "Panel posted: " + url
  }

  /** Classify an interaction by its kind, its command name and the `role:` prefix of a button's id. */
  function RouteOf(i: Interaction): (r: Route)
    ensures r.PingRoute? <==> i.ChatInput? && i.commandName == "ping"
    ensures r.EmbedRoute? <==> i.ChatInput? && i.commandName == "embed"
    ensures r.PanelRoute? <==> i.ChatInput? && i.commandName == "panel"
    ensures r.RoleButtonRoute? <==> i.ButtonPress? && HasPrefix(i.customId, CustomId.RolePrefix)
    ensures r.RoleButtonRoute? ==> CustomId.Decode(i.customId) == Some(r.roleId)
  {
    match i
    case ChatInput(name, _) =>
      if name == "ping" then PingRoute
      else if name == "embed" then EmbedRoute
      else if name == "panel" then PanelRoute
      else Ignored
    case ButtonPress(customId) =>
      (match CustomId.Decode(customId)
       case Some(id) => RoleButtonRoute(id)
       case None => Ignored)
    case OtherInteraction => Ignored
  }

  /** The three slash commands: ping, embed and panel. */
  function CommandResponse(route: Route, o: CommandOptions, p: Platform): (r: Response)
    requires route.PingRoute? || route.EmbedRoute? || route.PanelRoute?
    ensures r.reply.Some?
    ensures route.PingRoute? ==> r == Response(None, Some(Reply(Message(Pong), true)))
    ensures !r.reply.value.ephemeral <==> route.EmbedRoute?
    ensures route.EmbedRoute? ==> r.reply.value.content == Embeds(Embed.Compose(o))
    ensures r.posted.Some? <==>
      route.PanelRoute? && p.botHighest.Some? && p.postedUrl.Some? && Panel.Build(o, p.botHighest.value).Built?
    ensures r.posted.Some? ==>
      r.posted.value.embed == Panel.Build(o, p.botHighest.value).embed &&
      r.posted.value.buttons == Panel.Build(o, p.botHighest.value).buttons &&
      r.reply.value.content == Message(PostedText(p.postedUrl.value))
    ensures route.PanelRoute? && p.botHighest.Some? && Panel.Build(o, p.botHighest.value).Rejected? ==>
      r.reply.value.content == Message(Panel.Build(o, p.botHighest.value).message)
    ensures route.PanelRoute? && (p.botHighest.None? || (p.postedUrl.None? && Panel.Build(o, p.botHighest.value).Built?)) ==>
      r == FailedResponse
  {
    match route
    case PingRoute => Response(None, Some(Reply(Message(Pong), true)))
    case EmbedRoute => Response(None, Some(Reply(Embeds(Embed.Compose(o)), false)))
    case PanelRoute =>
      match p.botHighest
      case None => FailedResponse
      case Some(highest) =>
        match Panel.Build(o, highest)
        case Rejected(message) => Response(None, Some(Reply(Message(message), true)))
        case Built(embed, buttons) =>
          match p.postedUrl
          case None => FailedResponse
          case Some(url) => Response(Some(PanelMessage(embed, buttons)), Some(Reply(Message(PostedText(url)), true)))
  }

  /** Handle one interaction; only a role button click changes the clicking member's roles. */
  method Handle(i: Interaction, p: Platform, member: Member) returns (resp: Response)
    requires RolesKeyedById(p.guildRoles)
    modifies member
    ensures !RouteOf(i).RoleButtonRoute? ==> member.roles == old(member.roles)
    ensures RouteOf(i).Ignored? ==> resp == Response(None, None)
    ensures RouteOf(i).PingRoute? || RouteOf(i).EmbedRoute? || RouteOf(i).PanelRoute? ==>
      resp == CommandResponse(RouteOf(i), i.options, p)
    ensures RouteOf(i).RoleButtonRoute? ==>
      resp.posted.None? && resp.reply.Some? && resp.reply.value.ephemeral
    ensures RouteOf(i).RoleButtonRoute? && RouteOf(i).roleId !in p.guildRoles ==>
      resp.reply.value.content == Message(RoleGone) && member.roles == old(member.roles)
    ensures RouteOf(i).RoleButtonRoute? && RouteOf(i).roleId in p.guildRoles && !(p.memberFetched && p.roleUpdated) ==>
      resp == FailedResponse && member.roles == old(member.roles)
    ensures RouteOf(i).RoleButtonRoute? && RouteOf(i).roleId in p.guildRoles && p.memberFetched && p.roleUpdated ==>
      var role := p.guildRoles[RouteOf(i).roleId];
      member.roles == Toggled(old(member.roles), RouteOf(i).roleId) &&
      resp.reply.value.content == Message(ToggleMessage(role, role.id in old(member.roles)))
  {
    var route := RouteOf(i);
    match route {
      case PingRoute =>
        resp := CommandResponse(route, i.options, p);
      case EmbedRoute =>
        resp := CommandResponse(route, i.options, p);
      case PanelRoute =>
        resp := CommandResponse(route, i.options, p);
      case RoleButtonRoute(roleId) =>
        if roleId !in p.guildRoles {
          resp := Response(None, Some(Reply(Message(RoleGone), true)));
        } else if !p.memberFetched || !p.roleUpdated {
          resp := FailedResponse;
        } else {
          var role := p.guildRoles[roleId];
          var removed := member.Toggle(role);
          resp := Response(None, Some(Reply(Message(ToggleMessage(role, removed)), true)));
        }
      case Ignored =>
        resp := Response(None, None);
    }
  }

  /** Every registered command has a handler, and the handled command names are exactly the registered ones. */
  lemma RegistryRouted(name: string, o: CommandOptions)
    ensures (exists k :: 0 <= k < |Registry| && Registry[k].name == name) <==>
      !RouteOf(ChatInput(name, o)).Ignored?
  {
    if name == "embed" { assert Registry[0].name == name; }
    if name == "panel" { assert Registry[1].name == name; }
    if name == "ping" { assert Registry[2].name == name; }
  }

  /** A button of a posted panel routes to the toggle of its own role. */
  lemma PanelButtonRoutes(id: RoleId)
    requires ':' !in id
    ensures RouteOf(ButtonPress(CustomId.Encode(id))) == RoleButtonRoute(id)
  {
    CustomId.DecodeEncode(id);
  }

  /** Only the embed reply is public; every other reply is shown to the invoker only. */
  lemma OnlyEmbedIsPublic(i: Interaction, p: Platform)
    requires i.ChatInput?
    requires !RouteOf(i).Ignored?
    ensures !CommandResponse(RouteOf(i), i.options, p).reply.value.ephemeral <==> i.commandName == "embed"
  {
  }
}
