# Halo bot: interaction handling, modelled in Dafny

Halo is a small Discord bot with three slash commands. `/ping` answers privately. `/embed` builds an embed from five optional text fields. `/panel` posts a message that lists two to five roles, with one toggle button per role. A click on a panel button (custom id `role:<role id>`) adds the role to the clicking member or removes it. All of this lives in the `interactionCreate` handler of `index.js`. This project models that handler's decision logic and proves what it promises. Discord and Express calls are replaced by inputs and outputs.

Modules:

- `Wrappers`: `Option`.
- `Text`: the JavaScript string operations the handler uses: `split` with a one-character separator, `join`, `startsWith`, and decimal rendering of a number.
- `Guild`: roles (id, name, hierarchy position).
- `Commands`: the registered command definitions as constant data, plus the typed option values of an invocation.
- `Embed`: the `/embed` composer and its `||` defaults.
- `Panel`: collecting the roles, refusing unmanageable roles, and building the panel body and buttons.
- `CustomId`: the `role:<id>` button-id encoder and the `split(":")[1]` decoder.
- `RoleToggle`: the `Member` class, whose role set a click flips in place.
- `Dispatch`: routing an interaction, the three command responses, and the `Handle` method, which changes the member's roles.

Platform results that the handler awaits are fields of `Dispatch.Platform`:

- the bot's highest role position (`fetchMe`);
- the posted panel's URL (`channel.send`);
- the guild's roles (the role cache);
- whether fetching the member succeeded (`members.fetch`);
- whether the role add/remove succeeded.

A missing result stands for a call that threw. The catch block then replies with the generic notice. The handler's `return interaction.reply(...)` calls are returned, not awaited, inside the `try`. A rejection of one of them therefore never reaches the catch block. The embed and button builders can also throw inside the `try`; the model leaves those throws out, as "## Left out" says.

## Model

| member | source | states |
|---|---|---|
| Text.Split | index.js:122 | a split always has at least one piece |
| Text.SplitPiecesFree | index.js:122 | no piece of a split contains the separator |
| Text.JoinSplit | index.js:122 | joining the pieces of a split with the separator gives back the original string |
| Text.SplitNoSeparator | index.js:122 | a string without the separator splits into itself |
| Text.SplitAtSeparator | index.js:122 | splitting `a + sep + b` gives the pieces of `a` followed by the pieces of `b` |
| Text.SplitJoin | index.js:110 | joining separator-free pieces and splitting them again gives back the pieces |
| Text.NatToString | index.js:110 | the rendering of `i+1` is a non-empty string of decimal digits that denotes exactly that number, with no leading zero (only "0" itself starts with '0'), so the rendering is unique |
| Text.HasPrefix | index.js:121 | `startsWith`: the string is at least as long as the prefix and begins with it; `CustomId.Decode` and `Dispatch.RouteOf` are stated with it |
| Text.Join | index.js:101 | `Array.prototype.join`: "" for no parts, the part itself for one, parts separated by the separator otherwise; its partners are `Text.JoinSplit` and `Text.SplitJoin` |
| Commands.PanelSchemaRequiresTwoRoles | index.js:37-38 | an invocation that meets the panel schema carries role1 and role2 |
| CustomId.Encode | index.js:113 | a button id starts with `role:`, and the role id follows the prefix |
| CustomId.Decode | index.js:121-122 | a custom id is decoded exactly when it starts with `role:`; the result is the text after the prefix up to the next ':' or the end, and it never contains ':' |
| CustomId.SplitPrefixed | index.js:122 | splitting `role:` + rest gives the field "role" followed by the fields of rest |
| CustomId.FirstField | index.js:122 | a split's first piece is a prefix of the string, followed by the separator when shorter |
| CustomId.DecodeEncode | index.js:113-122 | decoding the id of the button for role `id` gives `id` back exactly when `id` contains no ':' |
| CustomId.EncodeDecode | index.js:113-122 | a decoded id re-encodes to the custom id it came from when nothing follows it |
| Embed.Compose | index.js:71-83 | title, description, image and footer are each set exactly when the option is a non-empty string, and then equal it; the color is the non-empty option or `#FFC0CB` |
| Embed.ComposeHasNoEmptyField | index.js:71-83 | no field of a composed embed is an empty string, and the color is always present |
| Embed.ComposeAllAbsent | index.js:71-83 | with no options the embed has only the pink color `#FFC0CB` |
| Embed.ComposeIgnoresEmpty | index.js:71-75 | giving an option as the empty string is the same as leaving it out |
| Panel.Present | index.js:90-96 | at most one role per slot, each the role given for one of the slots; when every slot is given, slot k's role is at position k |
| Panel.PresentSingle | index.js:90-96 | one slot contributes its role when given and nothing otherwise |
| Panel.PresentAppend | index.js:90-96 | collecting keeps slot order: collecting a concatenation of slots concatenates the collected parts |
| Panel.PresentPrefix | index.js:90-96 | a leading run of given slots comes first and unchanged |
| Panel.PresentNone | index.js:90-96 | slots none of which is given contribute no role |
| Panel.CollectTwoRoles | index.js:90-96 | with only role1 and role2 given, the panel's roles are exactly role1 then role2 |
| Panel.CollectRoles | index.js:90-96 | the selected roles are exactly the role given for role1, then role2, role3, role4 and role5, each slot contributing its role when given and nothing when absent |
| Panel.CollectKeepsRoleAfterGap | index.js:90-96 | with role1, role2 and role4 given, the roles are role1, role2, role4: a role after an empty slot is kept, in slot order |
| Panel.CollectRolesFromSchema | index.js:37-41 | with role1 and role2 required, a panel has between two and five roles, role1 then role2 first |
| Panel.Unmanageable | index.js:99 | a role is in the filtered list exactly when it is selected and its position is at least the bot's highest |
| Panel.UnmanageableAppend | index.js:99 | the filter keeps input order: filtering a concatenation concatenates the filtered parts |
| Panel.Names | index.js:101 | one name per role, in order |
| Panel.Lines | index.js:110 | one body line per role, in order, line k being `{k+1}. <@&{id}>` |
| Panel.Buttons | index.js:113 | one button per role, in order: custom id `role:{id}`, label the role name, style Primary |
| Panel.Build | index.js:90-117 | refused exactly when some selected role is at or above the bot's highest position, with a message naming the offending roles joined by ", "; otherwise one Primary button per role in input order, a body of the numbered role lines joined by newlines, color 0xFFC0CB, and the title option or the default title |
| Panel.ButtonsDecodeToRoles | index.js:113-122 | decoding the custom id of button k of a panel's buttons gives role k's id, when role ids contain no ':' |
| Panel.LineHasNoNewline | index.js:110 | a body line holds no newline when the role id holds none |
| Panel.BodySplitsIntoLines | index.js:110 | a panel body (the role lines joined by newlines, as `Build` makes it) splits at newlines into exactly the role lines, line k for role k, when there is at least one role |
| Panel.RejectsOnlyOffendingRole | index.js:99-102 | Admin (10) and Fan (1) with the bot at 5: the refusal names Admin only |
| Panel.BuildsButtonsInOrder | index.js:105-114 | Fan (1) and Member (2) with the bot at 5: a panel with two buttons, Fan then Member |
| RoleToggle.Toggled | index.js:127-131 | after the toggle the member holds the role exactly when they did not before; every other role is unchanged |
| RoleToggle.ToggledTwice | index.js:126-133 | two toggles of the same role in sequence restore the original role set |
| RoleToggle.Member.constructor | index.js:126 | the fetched member starts with the given role set |
| RoleToggle.Member.Toggle | index.js:127-131 | reports removal exactly when the role was held; the new role set is the old one with that role removed or added, and nothing else changes |
| Dispatch.RouteOf | index.js:65-121 | ping, embed and panel slash commands are routed by name; a button whose id starts with `role:` goes to the toggle of the decoded role; everything else is ignored |
| Dispatch.CommandResponse | index.js:64-117 | every command gets a reply, and only the embed reply is public; `/ping` replies exactly "Pong! 🐰" to the invoker only and posts nothing; the panel is posted exactly when the bot's position and the post succeed and the panel is not refused; a refusal is replied with its message; a failed platform call gives the generic notice |
| Dispatch.Handle | index.js:62-138 | an ignored interaction gets no reply; commands answer as CommandResponse says and leave roles alone; a click on an unknown role replies "Role no longer exists." and changes nothing; a failed member fetch or role update gives the generic notice and changes nothing; otherwise, with the guild's roles keyed by their ids, the clicked role is toggled and the reply says which way |
| Dispatch.RegistryRouted | index.js:21-89 | a slash command name is handled exactly when it is one of the registered command names |
| Dispatch.PanelButtonRoutes | index.js:113-122 | clicking a panel button routes to the toggle of its own role when the id contains no ':' |
| Dispatch.OnlyEmbedIsPublic | index.js:66-117 | of the handled commands, only `/embed` replies publicly |

## Left out

- The Express keep-alive server (index.js:4-7): HTTP I/O.
- Client construction, the ready log, command registration over REST, login and startup (index.js:10-18, 52-59, 142-149): platform session and network calls. The commands themselves are kept as constant data in `Commands.Registry`.
- The behaviour of the embed, button and action-row builders: hex-color parsing, URL checks, length and component limits. These are library code outside this model (discord.js is not part of this model). Payloads are plain records, and the embed color string is passed on uninterpreted.
- Embed.Compose: describes only options the embed builder accepts. A color the builder cannot resolve (index.js:80), an image that is not an http(s) URL (index.js:82), or a title or footer past its length limit (index.js:78, 83) makes the builder throw; the catch (index.js:135-137) then sends the private generic notice instead of the public embed.
- Dispatch.CommandResponse: the embed and panel replies it states assume the builders accept their input. A builder throw, such as a role name longer than the 80-character button label limit (index.js:113), instead gives the private generic notice and posts no panel.
- Dispatch.OnlyEmbedIsPublic: holds only for embeds the builder accepts. An embed the builder rejects ends in the private generic notice.
- Sending the panel message, the message URL, and fetching the bot's own member or the clicking member: their results are inputs (`Dispatch.Platform`).
- The race between reading membership and adding or removing the role across awaits (index.js:126-131): only sequential clicks are modelled.
- Console logging in the catch block, and `isRepliable()`: every awaited call that can throw runs before any reply, on a slash command or a button, both of which accept a reply. So the catch always sends the generic notice.
- A failed `interaction.reply` itself: it is returned, not awaited, so it escapes the catch. The model always treats the reply as delivered.
- A rejection of the role add/remove is modelled as leaving the role set unchanged. The platform call itself is not part of this model.
- discord.js's type-mismatch error when an option is read with the wrong getter: string and role options are kept in separate maps, so that error cannot arise.
- A role picked in two slots: `filter(Boolean)` keeps both, so `Panel.Buttons` gives two buttons with the same custom id. The platform refuses a message whose components repeat a custom id, so the real post at index.js:116 would throw and the generic notice would be sent. The model takes the post result (`Dispatch.Platform.postedUrl`) as an unconstrained input and does not tie its failure to repeated roles.
- The panel's `description` option (index.js:106) is read but never used, so it has no effect in the model either. Its default text is kept as `Panel.DefaultDescription`.
