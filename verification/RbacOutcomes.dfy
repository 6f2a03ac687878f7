/** Which role requests succeed, what the tables and the log hold afterwards, and why the others are
    refused. */
module RbacOutcomes {
  import opened Common
  import opened Rbac

  predicate Owns(s: State, seller: Seller, u: User) {
    u in s.members && s.members[u] == Membership(seller, Owner)
  }

  predicate InTeam(s: State, seller: Seller, u: User) {
    u in s.members && s.members[u].seller == seller
  }

  predicate IsSuper(s: State, u: User) {
    u in s.admins && s.admins[u] == SuperAdmin
  }

  /** Nothing changes, and this is why. */
  predicate Refused(s: State, r: (State, Option<Error>), e: Error) {
    r == (s, Some(e))
  }

  /** Exactly u's team row changes, to this one, and the log grows by these rows. */
  ghost predicate TeamRow(s: State, r: (State, Option<Error>), u: User, m: Option<Membership>, log: seq<Entry>) {
    && r.1 == None && r.0.founders == s.founders && r.0.admins == s.admins && r.0.audit == s.audit + log
    && (forall v: User | v != u :: (v in r.0.members <==> v in s.members) && (v in s.members ==> r.0.members[v] == s.members[v]))
    && (u in r.0.members <==> m.Some?) && (m.Some? ==> r.0.members[u] == m.value)
  }

  /** Exactly u's administrator row changes, to this one, and the log grows by this row. */
  ghost predicate AdminRow(s: State, r: (State, Option<Error>), u: User, rank: Option<AdminRole>, e: Entry) {
    && r.1 == None && r.0.founders == s.founders && r.0.members == s.members && r.0.audit == s.audit + [e]
    && (forall v: User | v != u :: (v in r.0.admins <==> v in s.admins) && (v in s.admins ==> r.0.admins[v] == s.admins[v]))
    && (u in r.0.admins <==> rank.Some?) && (rank.Some? ==> r.0.admins[u] == rank.value)
  }

  // ----- Seller teams -----

  /** Anyone without a team may open a seller account and becomes its owner; there is no audit row. */
  lemma CreateOutcome(s: State, caller: User)
    ensures var r := Step(s, OpCreate(caller));
            if caller in s.members then Refused(s, r, Internal)
            else r.1 == None && r.0.founders == s.founders + [caller]
                 && TeamRow(s.(founders := r.0.founders), r, caller, Some(Membership(|s.founders|, Owner)), [])
  {
    assert s.audit + [] == s.audit;
  }

  /** The owner adds a user without a team as administrator or member, in the role asked for. */
  lemma AddOutcome(s: State, caller: User, seller: Seller, user: User, role: Option<SellerRole>)
    ensures var r := Step(s, OpAdd(caller, seller, user, role));
            match role
            case None => Refused(s, r, InvalidRole)
            case Some(Owner) => Refused(s, r, UseTransfer)
            case Some(asked) =>
              if !Owns(s, seller, caller) then Refused(s, r, InsufficientRole)
              else if user in s.members then Refused(s, r, if s.members[user].seller == seller then Conflict else Internal)
              else TeamRow(s, r, user, Some(Membership(seller, asked)), [SellerEntry(caller, user, seller, Grant, None, Some(asked))])
  {
  }

  /** The owner gives another member of the team the role asked for; a role they hold already is left
      without an audit row. */
  lemma UpdateOutcome(s: State, caller: User, seller: Seller, target: User, role: Option<SellerRole>)
    requires Inv(s)
    ensures var r := Step(s, OpUpdate(caller, seller, target, role));
            match role
            case None => Refused(s, r, InvalidRole)
            case Some(Owner) => Refused(s, r, UseTransfer)
            case Some(asked) =>
              if !Owns(s, seller, caller) then Refused(s, r, InsufficientRole)
              else if !InTeam(s, seller, target) then Refused(s, r, TargetNotFound)
              else if target == caller then Refused(s, r, SelfRoleChange)
              else if s.members[target].role == asked then r == (s, None)
              else TeamRow(s, r, target, Some(Membership(seller, asked)),
                           [SellerEntry(caller, target, seller, RoleChange, Some(s.members[target].role), Some(asked))])
  {
    if Owns(s, seller, caller) {
      SoleOwner(s, seller, caller, target);
    }
  }

  /** The owner removes another member of the team. */
  lemma RemoveOutcome(s: State, caller: User, seller: Seller, target: User)
    requires Inv(s)
    ensures var r := Step(s, OpRemove(caller, seller, target));
            if !Owns(s, seller, caller) then Refused(s, r, InsufficientRole)
            else if !InTeam(s, seller, target) then Refused(s, r, TargetNotFound)
            else if target == caller then Refused(s, r, SelfRoleChange)
            else TeamRow(s, r, target, None, [SellerEntry(caller, target, seller, Revoke, Some(s.members[target].role), None)])
  {
    if Owns(s, seller, caller) {
      SoleOwner(s, seller, caller, target);
    }
  }

  /** The owner hands the seller account to another member of the team and stays as administrator;
      both changes are logged. */
  lemma TransferOutcome(s: State, caller: User, seller: Seller, target: User)
    ensures var r := Step(s, OpTransfer(caller, seller, target));
            if !Owns(s, seller, caller) then Refused(s, r, InsufficientRole)
            else if !InTeam(s, seller, target) then Refused(s, r, TargetNotFound)
            else if target == caller then Refused(s, r, SelfRoleChange)
            else
              && caller in r.0.members && r.0.members[caller] == Membership(seller, Admin)
              && TeamRow(s.(members := s.members[caller := Membership(seller, Admin)]), r, target, Some(Membership(seller, Owner)),
                         [SellerEntry(caller, target, seller, TransferOwnership, Some(s.members[target].role), Some(Owner)),
                          SellerEntry(caller, caller, seller, RoleChange, Some(Owner), Some(Admin))])
  {
  }

  // ----- Platform administrators -----

  /** A super administrator makes a user without a platform role one of the rank asked for. */
  lemma GrantOutcome(s: State, caller: User, user: User, rank: Option<AdminRole>)
    ensures var r := Step(s, OpGrant(caller, user, rank));
            if rank == None then Refused(s, r, InvalidRole)
            else if !IsSuper(s, caller) then Refused(s, r, InsufficientRole)
            else if user in s.admins then Refused(s, r, Conflict)
            else AdminRow(s, r, user, rank, AdminEntry(Some(caller), user, Grant, None, rank))
  {
  }

  /** A super administrator gives another administrator the rank asked for; a rank they hold already
      is left without an audit row. */
  lemma UpdateAdminOutcome(s: State, caller: User, target: User, rank: Option<AdminRole>)
    ensures var r := Step(s, OpUpdateAdmin(caller, target, rank));
            if rank == None then Refused(s, r, InvalidRole)
            else if !IsSuper(s, caller) then Refused(s, r, InsufficientRole)
            else if target !in s.admins then Refused(s, r, TargetNotFound)
            else if target == caller then Refused(s, r, SelfRoleChange)
            else if rank == Some(s.admins[target]) then r == (s, None)
            else AdminRow(s, r, target, rank, AdminEntry(Some(caller), target, RoleChange, Some(s.admins[target]), rank))
  {
    if IsSuper(s, caller) && IsSuper(s, target) && caller != target {
      TwoSuperAdmins(s.admins, caller, target);
    }
  }

  /** A super administrator takes another administrator's role away. */
  lemma RevokeOutcome(s: State, caller: User, target: User)
    ensures var r := Step(s, OpRevoke(caller, target));
            if !IsSuper(s, caller) then Refused(s, r, InsufficientRole)
            else if target !in s.admins then Refused(s, r, TargetNotFound)
            else if target == caller then Refused(s, r, SelfRoleChange)
            else AdminRow(s, r, target, None, AdminEntry(Some(caller), target, Revoke, Some(s.admins[target]), None))
  {
    if IsSuper(s, caller) && IsSuper(s, target) && caller != target {
      TwoSuperAdmins(s.admins, caller, target);
    }
  }

  /** The bootstrap makes its user a super administrator exactly while there is none. */
  lemma BootstrapOutcome(s: State, user: User)
    ensures var r := Step(s, OpBootstrap(user));
            if exists u: User :: IsSuper(s, u) then r == (s, None)
            else if user in s.admins then Refused(s, r, Internal)
            else AdminRow(s, r, user, Some(SuperAdmin), AdminEntry(None, user, Grant, None, Some(SuperAdmin)))
  {
    SomeSuper(s);
  }

  lemma SomeSuper(s: State)
    ensures (exists u: User :: IsSuper(s, u)) <==> |SuperAdmins(s.admins)| > 0
  {
    if u: User :| IsSuper(s, u) {
      assert u in SuperAdmins(s.admins);
    }
    if |SuperAdmins(s.admins)| > 0 {
      var u :| u in SuperAdmins(s.admins);
      assert IsSuper(s, u);
    }
  }
}
