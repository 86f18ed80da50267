/** The role registry of the access-control contract: hierarchy, membership and the admin set. */
module Roles {
  import opened Host
  import opened Walks

  datatype RoleError =
    | RoleNotFound
    | RoleAlreadyExists
    | SelfReference
    | CycleDetected
    | NotAdmin
    | CannotRemoveSuperAdmin

  datatype State = State(
    superAdmin: Address,
    admins: map<Address, bool>,
    registered: set<Symbol>,
    allRoles: seq<Symbol>,
    parent: map<Symbol, Symbol>,
    members: map<Symbol, map<Address, bool>>)

  const SUPER: Symbol := "super"

  // -------------------------------------------------------------------------
  // Entry points as state changes
  // -------------------------------------------------------------------------

  function Initialize(superAdmin: Address): State {
    State(superAdmin, map[superAdmin := true], {SUPER}, [SUPER], map[], map[SUPER := map[superAdmin := true]])
  }

  predicate IsAdmin(s: State, who: Address) { GetOr(s.admins, who, false) }

  predicate IsMember(s: State, role: Symbol, user: Address) {
    GetOr(GetOr(s.members, role, map[]), user, false)
  }

  function AddAdmin(s: State, caller: Address, newAdmin: Address): Result<State, RoleError> {
    var _ :- Need(IsAdmin(s, caller), NotAdmin);
    Ok(s.(admins := s.admins[newAdmin := true]))
  }

  function RemoveAdmin(s: State, caller: Address, target: Address): Result<State, RoleError> {
    var _ :- Need(IsAdmin(s, caller), NotAdmin);
    var _ :- Need(target != s.superAdmin, CannotRemoveSuperAdmin);
    Ok(if IsAdmin(s, target) then s.(admins := s.admins[target := false]) else s)
  }

  function CreateRole(s: State, caller: Address, role: Symbol): Result<State, RoleError> {
    var _ :- Need(IsAdmin(s, caller), NotAdmin);
    var _ :- Need(role !in s.registered, RoleAlreadyExists);
    Ok(s.(registered := s.registered + {role}, allRoles := s.allRoles + [role]))
  }

  ghost predicate HasAncestor(parent: map<Symbol, Symbol>, role: Symbol, candidate: Symbol) {
    exists n: nat :: n >= 1 && Reaches(parent, role, candidate, n)
  }

  ghost function SetRoleParent(s: State, caller: Address, role: Symbol, parent: Symbol): Result<State, RoleError> {
    var _ :- Need(IsAdmin(s, caller), NotAdmin);
    var _ :- Need(role in s.registered && parent in s.registered, RoleNotFound);
    var _ :- Need(role != parent, SelfReference);
    var _ :- Need(!HasAncestor(s.parent, parent, role), CycleDetected);
    Ok(s.(parent := s.parent[role := parent]))
  }

  function SetMember(s: State, caller: Address, role: Symbol, user: Address, isMember: bool): Result<State, RoleError> {
    var _ :- Need(IsAdmin(s, caller), NotAdmin);
    var _ :- Need(role in s.registered, RoleNotFound);
    Ok(s.(members := s.members[role := GetOr(s.members, role, map[])[user := isMember]]))
  }

  // -------------------------------------------------------------------------
  // Runs
  // -------------------------------------------------------------------------

  datatype Call =
    | CallAddAdmin(caller: Address, who: Address)
    | CallRemoveAdmin(caller: Address, who: Address)
    | CallCreateRole(caller: Address, role: Symbol)
    | CallSetRoleParent(caller: Address, role: Symbol, parent: Symbol)
    | CallGrant(caller: Address, role: Symbol, who: Address)
    | CallRevoke(caller: Address, role: Symbol, who: Address)

  ghost function Step(s: State, call: Call): State {
    After(s, match call
      case CallAddAdmin(caller, who) => AddAdmin(s, caller, who)
      case CallRemoveAdmin(caller, who) => RemoveAdmin(s, caller, who)
      case CallCreateRole(caller, role) => CreateRole(s, caller, role)
      case CallSetRoleParent(caller, role, parent) => SetRoleParent(s, caller, role, parent)
      case CallGrant(caller, role, who) => SetMember(s, caller, role, who, true)
      case CallRevoke(caller, role, who) => SetMember(s, caller, role, who, false))
  }

  ghost function Run(s: State, calls: seq<Call>): State {
    if calls == [] then s else Step(Run(s, calls[..|calls| - 1]), calls[|calls| - 1])
  }

  ghost predicate Inv(s: State) {
    && Acyclic(s.parent)
    && s.parent.Keys <= s.registered
    && s.parent.Values <= s.registered
    && s.members.Keys <= s.registered
    && (forall r :: r in s.registered <==> r in s.allRoles)
    && (forall i, j :: 0 <= i < j < |s.allRoles| ==> s.allRoles[i] != s.allRoles[j])
    && IsAdmin(s, s.superAdmin)
  }

  lemma SetRoleParentKeepsInv(s: State, caller: Address, role: Symbol, parent: Symbol)
    requires Inv(s) && SetRoleParent(s, caller, role, parent).Ok?
    ensures Inv(SetRoleParent(s, caller, role, parent).value)
  {
    forall j: nat ensures !Reaches(s.parent, parent, role, j) {
      assert j == 0 || !Reaches(s.parent, parent, role, j);
    }
    EdgeKeepsAcyclic(s.parent, role, parent);
  }

  lemma StepKeepsInv(s: State, call: Call)
    requires Inv(s)
    ensures Inv(Step(s, call))
  {
    if call.CallSetRoleParent? && SetRoleParent(s, call.caller, call.role, call.parent).Ok? {
      SetRoleParentKeepsInv(s, call.caller, call.role, call.parent);
    }
  }

  /** After any sequence of calls the hierarchy is acyclic and stays within the registered
      roles, the role list has no repeats, and the super-admin is still an admin. */
  lemma {:induction false} ReachableInv(superAdmin: Address, calls: seq<Call>)
    ensures Inv(Run(Initialize(superAdmin), calls))
    ensures Run(Initialize(superAdmin), calls).superAdmin == superAdmin
  {
    if calls == [] {
      NoEdgesNoCycle<Symbol>();
    } else {
      ReachableInv(superAdmin, calls[..|calls| - 1]);
      StepKeepsInv(Run(Initialize(superAdmin), calls[..|calls| - 1]), calls[|calls| - 1]);
    }
  }

  lemma NoEdgesNoCycle<T(!new)>()
    ensures Acyclic<T>(map[])
  {
    forall x: T, n: nat | 1 <= n ensures !Reaches(map[], x, x, n) {
      WalkStops(map[], x, x, 0);
    }
  }

  /** The cycle check is exact: among registered, distinct roles it refuses a parent
      precisely when accepting it would close a cycle. */
  lemma CycleCheckIsExact(s: State, caller: Address, role: Symbol, parent: Symbol)
    requires Inv(s) && IsAdmin(s, caller)
    requires role in s.registered && parent in s.registered && role != parent
    ensures SetRoleParent(s, caller, role, parent).Err? <==> !Acyclic(s.parent[role := parent])
    ensures SetRoleParent(s, caller, role, parent).Err? ==>
              SetRoleParent(s, caller, role, parent).error == CycleDetected
  {
    if SetRoleParent(s, caller, role, parent).Ok? {
      SetRoleParentKeepsInv(s, caller, role, parent);
    } else {
      var n: nat :| n >= 1 && Reaches(s.parent, parent, role, n);
      EdgeClosesCycle(s.parent, role, parent, n);
    }
  }

  // -------------------------------------------------------------------------
  // Who holds a role
  // -------------------------------------------------------------------------

  /** The user is a member of the role or of some role above it. */
  ghost predicate Holds(s: State, role: Symbol, user: Address) {
    exists n: nat, above: Symbol :: Reaches(s.parent, role, above, n) && IsMember(s, above, user)
  }

  lemma HoldsUnfold(s: State, role: Symbol, user: Address)
    ensures Holds(s, role, user)
       <==> IsMember(s, role, user) || (role in s.parent && Holds(s, s.parent[role], user))
  {
    assert Reaches(s.parent, role, role, 0);
    HopOne(s.parent, role);
    if IsMember(s, role, user) {
    } else if role in s.parent {
      var p := s.parent[role];
      if Holds(s, p, user) {
        var n: nat, above :| Reaches(s.parent, p, above, n) && IsMember(s, above, user);
        HopAdd(s.parent, role, 1, n);
        assert Reaches(s.parent, role, above, n + 1);
      }
      if Holds(s, role, user) {
        var n: nat, above :| Reaches(s.parent, role, above, n) && IsMember(s, above, user);
        HopAdd(s.parent, role, 1, n - 1);
        assert Reaches(s.parent, p, above, n - 1);
      }
    } else if Holds(s, role, user) {
      var n: nat, above :| Reaches(s.parent, role, above, n) && IsMember(s, above, user);
      WalkStops(s.parent, role, role, 0);
    }
  }

  /** The roles above `role`, nearest first. */
  ghost function Ancestors(parent: map<Symbol, Symbol>, role: Symbol): (chain: seq<Symbol>)
    requires Acyclic(parent)
    ensures |chain| == Height(parent, role)
    decreases Height(parent, role)
  {
    if role in parent then
      HeightDrops(parent, role);
      [parent[role]] + Ancestors(parent, parent[role])
    else
      WalkStops(parent, role, role, 0);
      []
  }

  lemma {:induction false} AncestorAt(parent: map<Symbol, Symbol>, role: Symbol, i: nat)
    requires Acyclic(parent) && i < |Ancestors(parent, role)|
    ensures Reaches(parent, role, Ancestors(parent, role)[i], i + 1)
    decreases i
  {
    HeightDrops(parent, role);
    var p := parent[role];
    HopOne(parent, role);
    if i > 0 {
      AncestorAt(parent, p, i - 1);
      HopAdd(parent, role, 1, i);
    }
  }

  /** The ancestor list never repeats a role and never contains the role itself. */
  lemma AncestorsDistinct(parent: map<Symbol, Symbol>, role: Symbol)
    requires Acyclic(parent)
    ensures role !in Ancestors(parent, role)
    ensures forall i, j :: 0 <= i < j < |Ancestors(parent, role)| ==>
              Ancestors(parent, role)[i] != Ancestors(parent, role)[j]
  {
    var chain := Ancestors(parent, role);
    forall i | 0 <= i < |chain| ensures chain[i] != role {
      AncestorAt(parent, role, i);
      assert !Reaches(parent, role, role, i + 1);
    }
    forall i, j | 0 <= i < j < |chain| ensures chain[i] != chain[j] {
      AncestorAt(parent, role, i);
      AncestorAt(parent, role, j);
      if chain[i] == chain[j] {
        RepeatIsCycle(parent, role, i + 1, j + 1);
      }
    }
  }

  /** A role is held exactly by its own members and the members of its listed ancestors. */
  lemma {:induction false} HoldsIffListed(s: State, role: Symbol, user: Address)
    requires Acyclic(s.parent)
    ensures Holds(s, role, user)
       <==> IsMember(s, role, user) || exists a :: a in Ancestors(s.parent, role) && IsMember(s, a, user)
    decreases Height(s.parent, role)
  {
    HoldsUnfold(s, role, user);
    if role in s.parent {
      HeightDrops(s.parent, role);
      var p := s.parent[role];
      HoldsIffListed(s, p, user);
      assert Ancestors(s.parent, role) == [p] + Ancestors(s.parent, p);
    }
  }

  /** The user is a member of the role or of one of the n nearest roles above it. */
  ghost predicate HoldsWithin(s: State, role: Symbol, user: Address, n: nat) {
    exists m: nat, above: Symbol :: m <= n && Reaches(s.parent, role, above, m) && IsMember(s, above, user)
  }

  lemma HoldsWithinUnfold(s: State, role: Symbol, user: Address, n: nat)
    ensures HoldsWithin(s, role, user, 0) <==> IsMember(s, role, user)
    ensures n > 0 && role in s.parent ==>
              (HoldsWithin(s, role, user, n) <==>
                 IsMember(s, role, user) || HoldsWithin(s, s.parent[role], user, n - 1))
  {
    assert Reaches(s.parent, role, role, 0);
    HopOne(s.parent, role);
    if n > 0 && role in s.parent {
      var p := s.parent[role];
      if HoldsWithin(s, p, user, n - 1) {
        var m: nat, above :| m <= n - 1 && Reaches(s.parent, p, above, m) && IsMember(s, above, user);
        HopAdd(s.parent, role, 1, m);
        assert Reaches(s.parent, role, above, m + 1);
      }
      if HoldsWithin(s, role, user, n) && !IsMember(s, role, user) {
        var m: nat, above :| m <= n && Reaches(s.parent, role, above, m) && IsMember(s, above, user);
        HopAdd(s.parent, role, 1, m - 1);
        assert Reaches(s.parent, p, above, m - 1);
      }
    }
  }

  /** Re-parenting reaches exactly the roles at or below the moved role. Such a role, n hops below, is afterwards held
      by the members of the roles from it up to the moved one and by the holders of the new parent; every other role
      keeps its holders. */
  lemma ReparentingEffect(s: State, caller: Address, role: Symbol, parent: Symbol, x: Symbol, user: Address)
    requires Inv(s) && SetRoleParent(s, caller, role, parent).Ok?
    ensures var s' := SetRoleParent(s, caller, role, parent).value;
            && Holds(s', parent, user) == Holds(s, parent, user)
            && (forall n: nat :: Reaches(s.parent, x, role, n) ==>
                  (Holds(s', x, user) <==> HoldsWithin(s, x, user, n) || Holds(s, parent, user)))
            && ((forall n: nat :: !Reaches(s.parent, x, role, n)) ==> Holds(s', x, user) == Holds(s, x, user))
  {
    var s' := SetRoleParent(s, caller, role, parent).value;
    UntouchedByRedirect(s, s', role, parent, parent, user);
    forall n: nat | Reaches(s.parent, x, role, n)
      ensures Holds(s', x, user) <==> HoldsWithin(s, x, user, n) || Holds(s, parent, user)
    {
      ReparentingBelow(s, caller, role, parent, x, user, n);
    }
    if forall n: nat :: !Reaches(s.parent, x, role, n) {
      assert !Reaches(s.parent, x, role, 0);
      UntouchedByRedirect(s, s', role, parent, x, user);
    }
  }

  /** From n > 0 hops below a role, the next hop leads to n - 1 hops below it. */
  lemma HopBelow(parent: map<Symbol, Symbol>, x: Symbol, role: Symbol, n: nat)
    requires Acyclic(parent) && n > 0 && Reaches(parent, x, role, n)
    ensures x != role && x in parent && Reaches(parent, parent[x], role, n - 1)
  {
    assert !Reaches(parent, role, role, n);
    HopPrefix(parent, x, 1, n);
    HopOne(parent, x);
    HopAdd(parent, x, 1, n - 1);
  }

  lemma {:induction false} ReparentingBelow(s: State, caller: Address, role: Symbol, parent: Symbol, x: Symbol,
                                            user: Address, n: nat)
    requires Inv(s) && SetRoleParent(s, caller, role, parent).Ok? && Reaches(s.parent, x, role, n)
    ensures Holds(SetRoleParent(s, caller, role, parent).value, x, user)
       <==> HoldsWithin(s, x, user, n) || Holds(s, parent, user)
    decreases n
  {
    var s' := SetRoleParent(s, caller, role, parent).value;
    HoldsUnfold(s', x, user);
    HoldsWithinUnfold(s, x, user, n);
    if n == 0 {
      UntouchedByRedirect(s, s', role, parent, parent, user);
    } else {
      HopBelow(s.parent, x, role, n);
      ReparentingBelow(s, caller, role, parent, s.parent[x], user, n - 1);
    }
  }

  lemma UntouchedByRedirect(s: State, s': State, role: Symbol, parent: Symbol, x: Symbol, user: Address)
    requires s' == s.(parent := s.parent[role := parent])
    requires x != role && !HasAncestor(s.parent, x, role)
    ensures Holds(s', x, user) == Holds(s, x, user)
  {
    forall n: nat ensures Hop(s'.parent, x, n) == Hop(s.parent, x, n) {
      assert forall i: nat :: i < n ==> i == 0 || !Reaches(s.parent, x, role, i);
      HopUnaffected(s.parent, role, parent, x, n);
    }
    assert forall n: nat, a :: Reaches(s'.parent, x, a, n) == Reaches(s.parent, x, a, n);
  }

  /** Granting or revoking changes one direct membership, and with it who holds the roles at or below: after a grant the
      user holds exactly those more; after a revocation a user still holds a role through any other membership on its
      way up. */
  lemma MembershipEffect(s: State, caller: Address, role: Symbol, who: Address, flag: bool, x: Symbol, user: Address)
    requires SetMember(s, caller, role, who, flag).Ok?
    ensures var s' := SetMember(s, caller, role, who, flag).value;
            && (flag ==> (Holds(s', x, user) <==>
                  Holds(s, x, user) || (user == who && exists n: nat :: Reaches(s.parent, x, role, n))))
            && (!flag ==> (Holds(s', x, user) <==>
                  exists n: nat, above: Symbol ::
                    Reaches(s.parent, x, above, n) && IsMember(s, above, user) && (above != role || user != who)))
  {
    var s' := SetMember(s, caller, role, who, flag).value;
    assert forall a: Symbol, u: Address ::
        IsMember(s', a, u) == if a == role && u == who then flag else IsMember(s, a, u);
    if Holds(s, x, user) {
      var n: nat, above :| Reaches(s.parent, x, above, n) && IsMember(s, above, user);
      assert flag ==> Reaches(s'.parent, x, above, n) && IsMember(s', above, user);
    }
    if flag && user == who && exists n: nat :: Reaches(s.parent, x, role, n) {
      var n: nat :| Reaches(s.parent, x, role, n);
      assert Reaches(s'.parent, x, role, n) && IsMember(s', role, user);
    }
    if Holds(s', x, user) {
      var n: nat, above :| Reaches(s'.parent, x, above, n) && IsMember(s', above, user);
      assert Reaches(s.parent, x, above, n);
    }
    if !flag && exists n: nat, above: Symbol ::
         Reaches(s.parent, x, above, n) && IsMember(s, above, user) && (above != role || user != who) {
      var n: nat, above: Symbol :|
        Reaches(s.parent, x, above, n) && IsMember(s, above, user) && (above != role || user != who);
      assert Reaches(s'.parent, x, above, n) && IsMember(s', above, user);
    }
  }

  /** Somebody becomes or ceases to be an admin in one call exactly when an admin says so, and the super-admin never
      ceases to be one. */
  lemma AdminsChangeExactlyBy(s: State, call: Call, who: Address)
    requires Inv(s)
    ensures !IsAdmin(s, who) ==>
              (IsAdmin(Step(s, call), who) <==> call.CallAddAdmin? && call.who == who && IsAdmin(s, call.caller))
    ensures IsAdmin(s, who) ==>
              (!IsAdmin(Step(s, call), who) <==>
                 call.CallRemoveAdmin? && call.who == who && IsAdmin(s, call.caller) && who != s.superAdmin)
  {
  }

  /** A direct membership changes in one call exactly by an admin's grant or revocation of a registered role ... */
  lemma MembersChangeExactlyBy(s: State, call: Call, role: Symbol, who: Address)
    ensures IsMember(Step(s, call), role, who) ==
              if (call.CallGrant? || call.CallRevoke?) && call.role == role && call.who == who
                 && IsAdmin(s, call.caller) && role in s.registered
              then call.CallGrant? else IsMember(s, role, who)
  {
  }

  /** ... a parent exactly by an admin's call for two different registered roles that leaves the hierarchy acyclic
      ... */
  lemma ParentsChangeExactlyBy(s: State, call: Call, role: Symbol)
    requires Inv(s)
    ensures Get(Step(s, call).parent, role) ==
              if call.CallSetRoleParent? && call.role == role && IsAdmin(s, call.caller)
                 && role in s.registered && call.parent in s.registered && role != call.parent
                 && Acyclic(s.parent[role := call.parent])
              then Some(call.parent) else Get(s.parent, role)
  {
    if call.CallSetRoleParent? && call.role == role && IsAdmin(s, call.caller)
       && role in s.registered && call.parent in s.registered && role != call.parent
    {
      CycleCheckIsExact(s, call.caller, role, call.parent);
    }
  }

  /** ... and a role is registered exactly by an admin's call, at the end of the list of roles. */
  lemma RolesAddedExactlyBy(s: State, call: Call)
    ensures Step(s, call).allRoles ==
              s.allRoles + if call.CallCreateRole? && IsAdmin(s, call.caller) && call.role !in s.registered
                           then [call.role] else []
    ensures forall role :: role in Step(s, call).registered <==>
              role in s.registered || (call.CallCreateRole? && call.role == role && IsAdmin(s, call.caller))
  {
  }

  /** At first the super-admin, and nobody else, is an admin and a member of the one role there is. */
  lemma FirstMembers(superAdmin: Address, who: Address, role: Symbol)
    ensures var s := Initialize(superAdmin);
            && (IsAdmin(s, who) <==> who == superAdmin)
            && (IsMember(s, role, who) <==> role == "super" && who == superAdmin)
            && (role in s.registered <==> role == "super") && s.allRoles == ["super"]
            && s.superAdmin == superAdmin && role !in s.parent
  {
  }

  /** The initial grant of the super role is not protected: in one call the super-admin stops
      being a direct member exactly when an admin revokes that membership. */
  lemma SuperMembershipLostOnlyByRevoke(s: State, call: Call)
    requires Inv(s) && IsMember(s, SUPER, s.superAdmin)
    ensures !IsMember(Step(s, call), SUPER, s.superAdmin)
       <==> call.CallRevoke? && call.role == SUPER && call.who == s.superAdmin && IsAdmin(s, call.caller)
  {
    assert SUPER in s.members;
  }
}
