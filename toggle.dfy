/**
 * The role toggle behind a panel button: the invoking member loses the
 * role if they hold it and gains it otherwise. Only that one role changes.
 */
module RoleToggle {
  import opened Guild

  const RoleGone: string := "Role no longer exists."

  /** The member's role set after flipping membership of `id`. */
  function Toggled(held: set<RoleId>, id: RoleId): (r: set<RoleId>)
    ensures id in r <==> id !in held
    ensures forall x :: x != id ==> (x in r <==> x in held)
  {
    if id in held then held - {id} else held + {id}
  }

  /** Two clicks in sequence on the same button give back the original role set. */
  lemma ToggledTwice(held: set<RoleId>, id: RoleId)
    ensures Toggled(Toggled(held, id), id) == held
  {
  }

  /** The reply after a toggle: which way the role went, and its name. */
  function ToggleMessage(role: Role, removed: bool): string {
    if removed then "Removed **" + role.name + "**. 👋" else "Given **" + role.name + "**. ✨"
  }

  /** A guild member as fetched for the click; `roles` is their live role set. */
  class Member {
    var roles: set<RoleId>

    constructor (initial: set<RoleId>)
      ensures roles == initial
    {
      roles := initial;
    }

    /** Remove the role when held, else add it; returns whether it was removed. */
    method Toggle(role: Role) returns (removed: bool)
      modifies this
      ensures removed <==> role.id in old(roles)
      ensures roles == Toggled(old(roles), role.id)
      ensures removed ==> roles == old(roles) - {role.id}
      ensures !removed ==> roles == old(roles) + {role.id}
    {
      removed := role.id in roles;
      if removed {
        roles := roles - {role.id};
      } else {
        roles := roles + {role.id};
      }
    }
  }
}
