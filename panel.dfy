/**
 * The `/panel` command: collect the selected roles, refuse when the bot
 * cannot manage one of them, otherwise build an embed listing the roles
 * and one toggle button per role, both in the order the roles were given.
 */
module Panel {
  import opened Wrappers
  import opened Guild
  import opened Text
  import opened Commands
  import CustomId

  const RoleSlots: seq<string> := ["role1", "role2", "role3", "role4", "role5"]
  const DefaultTitle: string := "🌸 Halo’s Role Panel"
  /** Read by the command but never shown: the embed's body is always the role list. */
  const DefaultDescription: string := "Click a button to toggle a role. 🐰💖"
  const PanelColor: int := 0xFFC0CB
  const RejectPrefix: string := "⚠️ I can't manage these roles: "

  datatype ButtonStyle = Primary

  datatype Button = Button(customId: string, text: string, style: ButtonStyle)

  datatype PanelEmbed = PanelEmbed(title: string, body: string, color: int)

  /** Either the refusal text sent back to the invoker, or the message to post. */
  datatype PanelOutcome =
    | Rejected(message: string)
    | Built(embed: PanelEmbed, buttons: seq<Button>)

  /** The roles given for `slots`, in slot order, dropping the slots left empty. */
  function Present(slots: seq<string>, roles: map<string, Role>): (r: seq<Role>)
    ensures |r| <= |slots|
    ensures forall x :: x in r ==> exists k :: 0 <= k < |slots| && slots[k] in roles && roles[slots[k]] == x
    ensures (forall k :: 0 <= k < |slots| ==> slots[k] in roles) ==>
      |r| == |slots| && forall k :: 0 <= k < |slots| ==> r[k] == roles[slots[k]]
  {
    if |slots| == 0 then []
    else
      var rest := Present(slots[1..], roles);
      assert forall k :: 1 <= k < |slots| ==> slots[k] == slots[1..][k - 1];
      if slots[0] in roles then [roles[slots[0]]] + rest else rest
  }

  /** A leading run of given slots comes out first, unchanged. */
  lemma {:induction false} PresentPrefix(slots: seq<string>, roles: map<string, Role>, n: nat)
    requires n <= |slots|
    requires forall k :: 0 <= k < n ==> slots[k] in roles
    ensures |Present(slots, roles)| >= n
    ensures forall k :: 0 <= k < n ==> Present(slots, roles)[k] == roles[slots[k]]
  {
    if n > 0 {
      PresentPrefix(slots[1..], roles, n - 1);
    }
  }

  /** Slots none of which was given contribute no role. */
  lemma {:induction false} PresentNone(slots: seq<string>, roles: map<string, Role>)
    requires forall k :: 0 <= k < |slots| ==> slots[k] !in roles
    ensures Present(slots, roles) == []
  {
    if |slots| > 0 {
      PresentNone(slots[1..], roles);
    }
  }

  /** With only role1 and role2 given, those two are the panel's roles. */
  lemma CollectTwoRoles(o: CommandOptions)
    requires o.roles.Keys == {"role1", "role2"}
    ensures CollectRoles(o) == [o.roles["role1"], o.roles["role2"]]
  {
    var tail := RoleSlots[2..];
    assert tail == ["role3", "role4", "role5"];
    PresentNone(tail, o.roles);
    assert RoleSlots[1..][1..] == tail;
    assert RoleSlots[0] in o.roles && RoleSlots[1..][0] in o.roles;
    calc {
      Present(RoleSlots, o.roles);
      [o.roles["role1"]] + Present(RoleSlots[1..], o.roles);
      [o.roles["role1"]] + ([o.roles["role2"]] + Present(tail, o.roles));
    }
  }

  /** A slot with no role given contributes nothing; a given slot contributes its role. */
  lemma PresentSingle(slot: string, roles: map<string, Role>)
    ensures Present([slot], roles) == if slot in roles then [roles[slot]] else []
  {
    assert [slot][1..] == [];
  }

  /** Collecting keeps slot order: collecting a concatenation of slots concatenates the collected parts. */
  lemma {:induction false} PresentAppend(a: seq<string>, b: seq<string>, roles: map<string, Role>)
    ensures Present(a + b, roles) == Present(a, roles) + Present(b, roles)
  {
    if |a| == 0 {
      assert a + b == b;
    } else {
      assert (a + b)[0] == a[0] && (a + b)[1..] == a[1..] + b;
      PresentAppend(a[1..], b, roles);
    }
  }

  /** `getRole(name)` as a list: the role when the option was given, else nothing (what `filter(Boolean)` keeps). */
  function Given(o: CommandOptions, name: string): seq<Role> {
    match GetRole(o, name)
    case Some(r) => [r]
    case None => []
  }

  /** The selected roles: role1..role5 in that order, absent options dropped. */
  function CollectRoles(o: CommandOptions): (r: seq<Role>)
    ensures r == Given(o, "role1") + Given(o, "role2") + Given(o, "role3") + Given(o, "role4") + Given(o, "role5")
  {
    var slots := RoleSlots;
    assert slots == ["role1"] + ["role2"] + ["role3"] + ["role4"] + ["role5"];
    PresentAppend(["role1"] + ["role2"] + ["role3"] + ["role4"], ["role5"], o.roles);
    PresentAppend(["role1"] + ["role2"] + ["role3"], ["role4"], o.roles);
    PresentAppend(["role1"] + ["role2"], ["role3"], o.roles);
    PresentAppend(["role1"], ["role2"], o.roles);
    PresentSingle("role1", o.roles);
    PresentSingle("role2", o.roles);
    PresentSingle("role3", o.roles);
    PresentSingle("role4", o.roles);
    PresentSingle("role5", o.roles);
    Present(RoleSlots, o.roles)
  }

  /** A role given after an empty slot still appears, in slot order: role1, role2 and role4 give [role1, role2, role4]. */
  lemma CollectKeepsRoleAfterGap(o: CommandOptions)
    requires o.roles.Keys == {"role1", "role2", "role4"}
    ensures CollectRoles(o) == [o.roles["role1"], o.roles["role2"], o.roles["role4"]]
  {
  }

  /** As the command schema demands role1 and role2, a panel always has two to five roles, role1 and role2 first. */
  lemma CollectRolesFromSchema(o: CommandOptions)
    requires MeetsSchema(PanelCommand, o)
    ensures 2 <= |CollectRoles(o)| <= 5
    ensures "role1" in o.roles && "role2" in o.roles
    ensures CollectRoles(o)[0] == o.roles["role1"] && CollectRoles(o)[1] == o.roles["role2"]
  {
    PanelSchemaRequiresTwoRoles(o);
    PresentPrefix(RoleSlots, o.roles, 2);
  }

  /** The roles at or above the bot's highest position, in input order. */
  function Unmanageable(roles: seq<Role>, botHighest: int): (r: seq<Role>)
    ensures |r| <= |roles|
    ensures forall x :: x in r <==> x in roles && x.position >= botHighest
  {
    if |roles| == 0 then []
    else
      var rest := Unmanageable(roles[1..], botHighest);
      assert forall x :: x in roles <==> x == roles[0] || x in roles[1..];
      if roles[0].position >= botHighest then [roles[0]] + rest else rest
  }

  /** The filter keeps input order: filtering a concatenation concatenates the filtered parts. */
  lemma {:induction false} UnmanageableAppend(a: seq<Role>, b: seq<Role>, botHighest: int)
    ensures Unmanageable(a + b, botHighest) == Unmanageable(a, botHighest) + Unmanageable(b, botHighest)
  {
    if |a| > 0 {
      assert (a + b)[0] == a[0] && (a + b)[1..] == a[1..] + b;
      UnmanageableAppend(a[1..], b, botHighest);
    } else {
      assert a + b == b;
    }
  }

  function Names(roles: seq<Role>): (r: seq<string>)
    ensures |r| == |roles| && forall k :: 0 <= k < |roles| ==> r[k] == roles[k].name
  {
    seq(|roles|, k requires 0 <= k < |roles| => roles[k].name)
  }

  /** Body line i: "{i+1}. <@&{id}>", a mention of the role. */
  function Line(i: nat, r: Role): string {
    NatToString(i + 1) + ". <@&" + r.id + ">"
  }

  function Lines(roles: seq<Role>): (r: seq<string>)
    ensures |r| == |roles| && forall k :: 0 <= k < |roles| ==> r[k] == Line(k, roles[k])
  {
    seq(|roles|, k requires 0 <= k < |roles| => Line(k, roles[k]))
  }

  function Buttons(roles: seq<Role>): (r: seq<Button>)
    ensures |r| == |roles|
    ensures forall k :: 0 <= k < |roles| ==>
      r[k] == Button(CustomId.Encode(roles[k].id), roles[k].name, Primary)
  {
    seq(|roles|, k requires 0 <= k < |roles| => Button(CustomId.Encode(roles[k].id), roles[k].name, Primary))
  }

  /** Validate the selected roles against the bot's highest position, then build the panel. */
  function Build(o: CommandOptions, botHighest: int): (r: PanelOutcome)
    ensures r.Rejected? <==> exists k :: 0 <= k < |CollectRoles(o)| && CollectRoles(o)[k].position >= botHighest
    ensures r.Rejected? ==>
      r.message == RejectPrefix + Join(Names(Unmanageable(CollectRoles(o), botHighest)), ", ")
    ensures r.Built? ==>
      |r.buttons| == |CollectRoles(o)| &&
      forall k :: 0 <= k < |r.buttons| ==>
        r.buttons[k].customId == CustomId.Encode(CollectRoles(o)[k].id) &&
        r.buttons[k].text == CollectRoles(o)[k].name &&
        r.buttons[k].style == Primary
    ensures r.Built? ==>
      r.embed.color == PanelColor &&
      r.embed.body == Join(Lines(CollectRoles(o)), "\n") &&
      (("title" in o.strings && o.strings["title"] != "") ==> r.embed.title == o.strings["title"]) &&
      (!("title" in o.strings && o.strings["title"] != "") ==> r.embed.title == DefaultTitle)
  {
    var roles := CollectRoles(o);
    var unmanageable := Unmanageable(roles, botHighest);
    if |unmanageable| > 0 then
      Rejected(RejectPrefix + Join(Names(unmanageable), ", "))
    else
      var given := GetString(o, "title");
      var title := if given.Some? && given.value != "" then given.value else DefaultTitle;
      Built(PanelEmbed(title, Join(Lines(roles), "\n"), PanelColor), Buttons(roles))
  }

  /** Clicking button k of a panel toggles role k, as long as role ids hold no ':'. */
  lemma ButtonsDecodeToRoles(roles: seq<Role>)
    requires forall x :: x in roles ==> ':' !in x.id
    ensures forall k :: 0 <= k < |roles| ==> CustomId.Decode(Buttons(roles)[k].customId) == Some(roles[k].id)
  {
    forall k | 0 <= k < |roles|
      ensures CustomId.Decode(CustomId.Encode(roles[k].id)) == Some(roles[k].id)
    {
      assert roles[k] in roles;
      CustomId.DecodeEncode(roles[k].id);
    }
  }

  lemma LineHasNoNewline(i: nat, r: Role)
    requires '\n' !in r.id
    ensures '\n' !in Line(i, r)
  {
    var digits := NatToString(i + 1);
    assert Line(i, r) == digits + ". <@&" + r.id + ">";
    assert '\n' !in digits;
  }

  /** A panel body has exactly one line per role, line k being Line(k, role k), when role ids hold no newline. */
  lemma BodySplitsIntoLines(roles: seq<Role>)
    requires |roles| >= 1
    requires forall x :: x in roles ==> '\n' !in x.id
    ensures Split(Join(Lines(roles), "\n"), '\n') == Lines(roles)
  {
    var lines := Lines(roles);
    forall k | 0 <= k < |lines| ensures '\n' !in lines[k] {
      assert roles[k] in roles;
      LineHasNoNewline(k, roles[k]);
    }
    SplitJoin(lines, '\n');
  }

  /** Admin (10) and Fan (1) with the bot at 5: the refusal names Admin only. */
  lemma RejectsOnlyOffendingRole()
    ensures
      var admin := Role("1", "Admin", 10);
      var fan := Role("2", "Fan", 1);
      Build(CommandOptions(map[], map["role1" := admin, "role2" := fan]), 5) ==
        Rejected(RejectPrefix + "Admin")
  {
    var admin := Role("1", "Admin", 10);
    var fan := Role("2", "Fan", 1);
    var o := CommandOptions(map[], map["role1" := admin, "role2" := fan]);
    CollectTwoRoles(o);
    assert Unmanageable([admin, fan], 5) == [admin];
  }

  /** Fan (1) and Member (2) with the bot at 5: two buttons, Fan then Member. */
  lemma BuildsButtonsInOrder()
    ensures
      var fan := Role("2", "Fan", 1);
      var member := Role("3", "Member", 2);
      var r := Build(CommandOptions(map[], map["role1" := fan, "role2" := member]), 5);
      r.Built? && |r.buttons| == 2 && r.buttons[0].text == "Fan" && r.buttons[1].text == "Member"
  {
    var fan := Role("2", "Fan", 1);
    var member := Role("3", "Member", 2);
    var o := CommandOptions(map[], map["role1" := fan, "role2" := member]);
    CollectTwoRoles(o);
  }
}
