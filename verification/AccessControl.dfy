/** The access-control contract's storage, its entry points and its read helpers. */
module AccessControlContract {
  import opened Host
  import opened Walks
  import opened Roles
  import Spec = Roles

  class AccessControl {
    var superAdmin: Address
    var admins: map<Address, bool>
    var registered: set<Symbol>
    var allRoles: seq<Symbol>
    var parent: map<Symbol, Symbol>
    var members: map<Symbol, map<Address, bool>>

    ghost function View(): State
      reads this
    {
      State(superAdmin, admins, registered, allRoles, parent, members)
    }

    ghost predicate Valid()
      reads this
    {
      Inv(View())
    }

    constructor (admin: Address)
      ensures View() == Initialize(admin) && Valid()
    {
      superAdmin := admin;
      admins := map[admin := true];
      registered := {SUPER};
      allRoles := [SUPER];
      parent := map[];
      members := map[SUPER := map[admin := true]];
      new;
      ReachableInv(admin, []);
    }

    method AddAdmin(caller: Address, newAdmin: Address) returns (r: Result<(), RoleError>)
      requires Valid()
      modifies this
      ensures Valid() && Refines(Spec.AddAdmin(old(View()), caller, newAdmin), old(View()), r, View())
    {
      StepKeepsInv(View(), CallAddAdmin(caller, newAdmin));
      var _ :- Need(GetOr(admins, caller, false), NotAdmin);
      if GetOr(admins, newAdmin, false) {
        assert admins == admins[newAdmin := true];
        return Ok(());
      }
      admins := admins[newAdmin := true];
      return Ok(());
    }

    method RemoveAdmin(caller: Address, target: Address) returns (r: Result<(), RoleError>)
      requires Valid()
      modifies this
      ensures Valid() && Refines(Spec.RemoveAdmin(old(View()), caller, target), old(View()), r, View())
    {
      StepKeepsInv(View(), CallRemoveAdmin(caller, target));
      var _ :- Need(GetOr(admins, caller, false), NotAdmin);
      if target == superAdmin {
        return Err(CannotRemoveSuperAdmin);
      }
      if !GetOr(admins, target, false) {
        return Ok(());
      }
      admins := admins[target := false];
      return Ok(());
    }

    method CreateRole(caller: Address, role: Symbol) returns (r: Result<(), RoleError>)
      requires Valid()
      modifies this
      ensures Valid() && Refines(Spec.CreateRole(old(View()), caller, role), old(View()), r, View())
    {
      StepKeepsInv(View(), CallCreateRole(caller, role));
      var _ :- Need(GetOr(admins, caller, false), NotAdmin);
      if role in registered {
        return Err(RoleAlreadyExists);
      }
      registered := registered + {role};
      allRoles := allRoles + [role];
      return Ok(());
    }

    /** The walk has no fuel: it ends because the hierarchy is acyclic. */
    method HasAncestorWalk(role: Symbol, candidate: Symbol) returns (found: bool)
      requires Valid()
      ensures found == HasAncestor(parent, role, candidate)
    {
      var current := role;
      ghost var n: nat := 0;
      while true
        invariant Reaches(parent, role, current, n)
        invariant forall i: nat :: 1 <= i <= n ==> !Reaches(parent, role, candidate, i)
        decreases Height(parent, current)
      {
        if current in parent {
          var above := parent[current];
          assert Reaches(parent, role, above, n + 1);
          if above == candidate {
            return true;
          }
          HeightDrops(parent, current);
          current := above;
          n := n + 1;
        } else {
          WalkStops(parent, role, current, n);
          return false;
        }
      }
    }

    method SetRoleParent(caller: Address, role: Symbol, newParent: Symbol) returns (r: Result<(), RoleError>)
      requires Valid()
      modifies this
      ensures Valid() && Refines(Spec.SetRoleParent(old(View()), caller, role, newParent), old(View()), r, View())
    {
      StepKeepsInv(View(), CallSetRoleParent(caller, role, newParent));
      var _ :- Need(GetOr(admins, caller, false), NotAdmin);
      if role !in registered {
        return Err(RoleNotFound);
      }
      if newParent !in registered {
        return Err(RoleNotFound);
      }
      if role == newParent {
        return Err(SelfReference);
      }
      var cyclic := HasAncestorWalk(newParent, role);
      if cyclic {
        return Err(CycleDetected);
      }
      parent := parent[role := newParent];
      return Ok(());
    }

    method GrantRole(caller: Address, role: Symbol, user: Address) returns (r: Result<(), RoleError>)
      requires Valid()
      modifies this
      ensures Valid() && Refines(Spec.SetMember(old(View()), caller, role, user, true), old(View()), r, View())
    {
      StepKeepsInv(View(), CallGrant(caller, role, user));
      var _ :- Need(GetOr(admins, caller, false), NotAdmin);
      if role !in registered {
        return Err(RoleNotFound);
      }
      var current := GetOr(members, role, map[]);
      current := current[user := true];
      members := members[role := current];
      return Ok(());
    }

    method RevokeRole(caller: Address, role: Symbol, user: Address) returns (r: Result<(), RoleError>)
      requires Valid()
      modifies this
      ensures Valid() && Refines(Spec.SetMember(old(View()), caller, role, user, false), old(View()), r, View())
    {
      StepKeepsInv(View(), CallRevoke(caller, role, user));
      var _ :- Need(GetOr(admins, caller, false), NotAdmin);
      if role !in registered {
        return Err(RoleNotFound);
      }
      var current := GetOr(members, role, map[]);
      current := current[user := false];
      members := members[role := current];
      return Ok(());
    }

    /** Direct membership first, then the parent, and so on to the top. */
    method HasRole(role: Symbol, user: Address) returns (b: bool)
      requires Valid()
      ensures b == Holds(View(), role, user)
      decreases Height(parent, role)
    {
      HoldsUnfold(View(), role, user);
      if GetOr(GetOr(members, role, map[]), user, false) {
        return true;
      }
      if role in parent {
        HeightDrops(parent, role);
        b := HasRole(parent[role], user);
        return;
      }
      return false;
    }

    method GetRoleAncestors(role: Symbol) returns (chain: seq<Symbol>)
      requires Valid()
      ensures chain == Ancestors(parent, role)
    {
      chain := [];
      var current := role;
      while current in parent
        invariant chain + Ancestors(parent, current) == Ancestors(parent, role)
        decreases Height(parent, current)
      {
        HeightDrops(parent, current);
        chain := chain + [parent[current]];
        current := parent[current];
      }
    }
  }
}
