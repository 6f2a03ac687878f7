/** Seller teams, platform administrators and the audit log of their changes. A user has at most one
    seller-team row (the column is unique), so rows are keyed by user. */
module Rbac {
  import opened Common

  type User = nat
  type Seller = nat

  datatype SellerRole = Owner | Admin | Member
  datatype AdminRole = SuperAdmin | PlatformAdmin | Support

  datatype Membership = Membership(seller: Seller, role: SellerRole)

  datatype Action = Grant | Revoke | RoleChange | TransferOwnership

  /** One audit row. An administrator row without an actor is the bootstrap's. */
  datatype Entry =
    | SellerEntry(owner: User, target: User, seller: Seller, action: Action,
                  before: Option<SellerRole>, after: Option<SellerRole>)
    | AdminEntry(actor: Option<User>, target: User, action: Action,
                 had: Option<AdminRole>, has: Option<AdminRole>)

  /** The two role tables and the log; founders[i] created seller i and got no audit row for it. */
  datatype State = State(founders: seq<User>, members: map<User, Membership>, admins: map<User, AdminRole>, audit: seq<Entry>)

  const EMPTY := State([], map[], map[], [])

  datatype Error =
    | InvalidRole | UseTransfer | InsufficientRole | Conflict | Internal
    | TargetNotFound | SelfRoleChange | LastOwner | LastSuperAdmin

  // ----- Lookups -----

  function SellerRoleOf(members: map<User, Membership>, seller: Seller, u: User): Option<SellerRole> {
    if u in members && members[u].seller == seller then Some(members[u].role) else None
  }

  function AdminRoleOf(admins: map<User, AdminRole>, u: User): Option<AdminRole> {
    if u in admins then Some(admins[u]) else None
  }

  function OwnersOf(members: map<User, Membership>, seller: Seller): set<User> {
    set u | u in members && members[u] == Membership(seller, Owner)
  }

  function SuperAdmins(admins: map<User, AdminRole>): set<User> {
    set u | u in admins && admins[u] == SuperAdmin
  }

  // ----- Operations: a guard over the tables as read, then the writes -----

  function Guarded(error: Option<Error>, s: State, s': State): (State, Option<Error>) {
    if error == None then (s', None) else (s, error)
  }

  function CreateSeller(s: State, caller: User): (State, Option<Error>) {
    if caller in s.members then (s, Some(Internal))
    else (s.(founders := s.founders + [caller], members := s.members[caller := Membership(|s.founders|, Owner)]), None)
  }

  function AddGuard(s: State, caller: User, seller: Seller, user: User, role: Option<SellerRole>): Option<Error> {
    if role == None then Some(InvalidRole)
    else if role == Some(Owner) then Some(UseTransfer)
    else if SellerRoleOf(s.members, seller, caller) != Some(Owner) then Some(InsufficientRole)
    else if SellerRoleOf(s.members, seller, user).Some? then Some(Conflict)
    else if user in s.members then Some(Internal)
    else None
  }

  function AddSellerUser(s: State, caller: User, seller: Seller, user: User, role: Option<SellerRole>): (State, Option<Error>) {
    var e := AddGuard(s, caller, seller, user, role);
    if e != None then (s, e)
    else
      (s.(members := s.members[user := Membership(seller, role.value)],
          audit := s.audit + [SellerEntry(caller, user, seller, Grant, None, role)]),
       None)
  }

  /** The checks shared by changing a member's role and removing one. */
  function TargetGuard(s: State, caller: User, seller: Seller, target: User): Option<Error> {
    if SellerRoleOf(s.members, seller, caller) != Some(Owner) then Some(InsufficientRole)
    else if SellerRoleOf(s.members, seller, target) == None then Some(TargetNotFound)
    else if target == caller then Some(SelfRoleChange)
    else None
  }

  function LastOwnerGuard(s: State, seller: Seller, target: User): Option<Error> {
    if SellerRoleOf(s.members, seller, target) == Some(Owner) && |OwnersOf(s.members, seller)| <= 1 then Some(LastOwner) else None
  }

  function UpdateSellerUserRole(s: State, caller: User, seller: Seller, target: User, role: Option<SellerRole>): (State, Option<Error>) {
    if role == None then (s, Some(InvalidRole))
    else if role == Some(Owner) then (s, Some(UseTransfer))
    else
      var e := TargetGuard(s, caller, seller, target);
      if e != None then (s, e)
      else if SellerRoleOf(s.members, seller, target) == role then (s, None)
      else
        Guarded(LastOwnerGuard(s, seller, target), s,
                s.(members := s.members[target := Membership(seller, role.value)],
                   audit := s.audit + [SellerEntry(caller, target, seller, RoleChange, SellerRoleOf(s.members, seller, target), role)]))
  }

  function RemoveSellerUser(s: State, caller: User, seller: Seller, target: User): (State, Option<Error>) {
    var e := TargetGuard(s, caller, seller, target);
    if e != None then (s, e)
    else
      Guarded(LastOwnerGuard(s, seller, target), s,
              s.(members := s.members - {target},
                 audit := s.audit + [SellerEntry(caller, target, seller, Revoke, SellerRoleOf(s.members, seller, target), None)]))
  }

  /** The writes of a transfer: the caller becomes an administrator, the target the owner. */
  function WriteTransfer(s: State, caller: User, seller: Seller, target: User): State {
    s.(members := s.members[caller := Membership(seller, Admin)][target := Membership(seller, Owner)],
       audit := s.audit + [SellerEntry(caller, target, seller, TransferOwnership, SellerRoleOf(s.members, seller, target), Some(Owner)),
                           SellerEntry(caller, caller, seller, RoleChange, Some(Owner), Some(Admin))])
  }

  function TransferSellerOwnership(s: State, caller: User, seller: Seller, target: User): (State, Option<Error>) {
    Guarded(TargetGuard(s, caller, seller, target), s, WriteTransfer(s, caller, seller, target))
  }

  function GrantPlatformAdmin(s: State, caller: User, user: User, role: Option<AdminRole>): (State, Option<Error>) {
    if role == None then (s, Some(InvalidRole))
    else if AdminRoleOf(s.admins, caller) != Some(SuperAdmin) then (s, Some(InsufficientRole))
    else if user in s.admins then (s, Some(Conflict))
    else
      (s.(admins := s.admins[user := role.value],
          audit := s.audit + [AdminEntry(Some(caller), user, Grant, None, role)]),
       None)
  }

  function AdminGuard(s: State, caller: User, target: User): Option<Error> {
    if AdminRoleOf(s.admins, caller) != Some(SuperAdmin) then Some(InsufficientRole)
    else if target !in s.admins then Some(TargetNotFound)
    else if target == caller then Some(SelfRoleChange)
    else None
  }

  function LastSuperGuard(s: State, target: User): Option<Error> {
    if AdminRoleOf(s.admins, target) == Some(SuperAdmin) && |SuperAdmins(s.admins)| <= 1 then Some(LastSuperAdmin) else None
  }

  function WriteAdminRole(s: State, caller: User, target: User, role: AdminRole): State {
    s.(admins := s.admins[target := role],
       audit := s.audit + [AdminEntry(Some(caller), target, RoleChange, AdminRoleOf(s.admins, target), Some(role))])
  }

  function UpdatePlatformAdminRole(s: State, caller: User, target: User, role: Option<AdminRole>): (State, Option<Error>) {
    if role == None then (s, Some(InvalidRole))
    else
      var e := AdminGuard(s, caller, target);
      if e != None then (s, e)
      else if AdminRoleOf(s.admins, target) == role then (s, None)
      else Guarded(LastSuperGuard(s, target), s, WriteAdminRole(s, caller, target, role.value))
  }

  function RevokePlatformAdmin(s: State, caller: User, target: User): (State, Option<Error>) {
    var e := AdminGuard(s, caller, target);
    if e != None then (s, e)
    else
      Guarded(LastSuperGuard(s, target), s,
              s.(admins := s.admins - {target},
                 audit := s.audit + [AdminEntry(Some(caller), target, Revoke, AdminRoleOf(s.admins, target), None)]))
  }

  function BootstrapSuperAdmin(s: State, user: User): (State, Option<Error>) {
    if |SuperAdmins(s.admins)| > 0 then (s, None)
    else if user in s.admins then (s, Some(Internal))
    else
      (s.(admins := s.admins[user := SuperAdmin],
          audit := s.audit + [AdminEntry(None, user, Grant, None, Some(SuperAdmin))]),
       None)
  }

  // ----- Runs -----

  datatype Op =
    | OpCreate(caller: User)
    | OpAdd(caller: User, seller: Seller, user: User, role: Option<SellerRole>)
    | OpUpdate(caller: User, seller: Seller, target: User, role: Option<SellerRole>)
    | OpRemove(caller: User, seller: Seller, target: User)
    | OpTransfer(caller: User, seller: Seller, target: User)
    | OpGrant(caller: User, user: User, rank: Option<AdminRole>)
    | OpUpdateAdmin(caller: User, target: User, rank: Option<AdminRole>)
    | OpRevoke(caller: User, target: User)
    | OpBootstrap(user: User)

  function Step(s: State, op: Op): (State, Option<Error>) {
    match op
    case OpCreate(caller) => CreateSeller(s, caller)
    case OpAdd(caller, seller, user, role) => AddSellerUser(s, caller, seller, user, role)
    case OpUpdate(caller, seller, target, role) => UpdateSellerUserRole(s, caller, seller, target, role)
    case OpRemove(caller, seller, target) => RemoveSellerUser(s, caller, seller, target)
    case OpTransfer(caller, seller, target) => TransferSellerOwnership(s, caller, seller, target)
    case OpGrant(caller, user, rank) => GrantPlatformAdmin(s, caller, user, rank)
    case OpUpdateAdmin(caller, target, rank) => UpdatePlatformAdminRole(s, caller, target, rank)
    case OpRevoke(caller, target) => RevokePlatformAdmin(s, caller, target)
    case OpBootstrap(user) => BootstrapSuperAdmin(s, user)
  }

  function Run(s: State, ops: seq<Op>): State {
    if ops == [] then s else Step(Run(s, ops[..|ops| - 1]), ops[|ops| - 1]).0
  }

  // ----- Replaying the audit log -----

  type Roles = map<(Seller, User), SellerRole>

  /** Every founder owns its seller. */
  function Founded(founders: seq<User>): Roles {
    if founders == [] then map[]
    else
      var n := |founders| - 1;
      Founded(founders[..n])[(n, founders[n]) := Owner]
  }

  function ApplySeller(roles: Roles, e: Entry): Roles {
    match e
    case AdminEntry(_, _, _, _, _) => roles
    case SellerEntry(_, target, seller, _, _, after) =>
      if after.Some? then roles[(seller, target) := after.value] else roles - {(seller, target)}
  }

  /** The seller roles that the log says are held, starting from the founders. */
  function ReplaySellers(founders: seq<User>, audit: seq<Entry>): Roles {
    if audit == [] then Founded(founders) else ApplySeller(ReplaySellers(founders, audit[..|audit| - 1]), audit[|audit| - 1])
  }

  function ApplyAdmin(admins: map<User, AdminRole>, e: Entry): map<User, AdminRole> {
    match e
    case SellerEntry(_, _, _, _, _, _) => admins
    case AdminEntry(_, target, _, _, has) => if has.Some? then admins[target := has.value] else admins - {target}
  }

  function ReplayAdmins(audit: seq<Entry>): map<User, AdminRole> {
    if audit == [] then map[] else ApplyAdmin(ReplayAdmins(audit[..|audit| - 1]), audit[|audit| - 1])
  }

  function Held(roles: Roles, seller: Seller, u: User): Option<SellerRole> {
    if (seller, u) in roles then Some(roles[(seller, u)]) else None
  }

  /** The entry was made by someone who held the required role at that point of the log, and
      it names the role that its target held there. */
  predicate EntryOk(founders: seq<User>, before: seq<Entry>, e: Entry) {
    match e
    case SellerEntry(owner, target, seller, action, was, after) =>
      && seller < |founders|
      && Held(ReplaySellers(founders, before), seller, owner) == Some(Owner)
      && Held(ReplaySellers(founders, before), seller, target) == was
      && (action == Grant ==> was == None && after.Some?)
      && (action == Revoke ==> was.Some? && after == None)
    case AdminEntry(actor, target, action, had, has) =>
      && (actor == None ==> SuperAdmins(ReplayAdmins(before)) == {} && action == Grant && has == Some(SuperAdmin))
      && (actor.Some? ==> AdminRoleOf(ReplayAdmins(before), actor.value) == Some(SuperAdmin))
      && AdminRoleOf(ReplayAdmins(before), target) == had
      && (action == Grant ==> had == None && has.Some?)
      && (action == Revoke ==> had.Some? && has == None)
  }

  predicate AuditOk(founders: seq<User>, audit: seq<Entry>) {
    audit == [] ||
    (AuditOk(founders, audit[..|audit| - 1]) && EntryOk(founders, audit[..|audit| - 1], audit[|audit| - 1]))
  }

  /** The table holds exactly the replayed roles. */
  ghost predicate Agrees(roles: Roles, members: map<User, Membership>) {
    forall seller: Seller, u: User :: Held(roles, seller, u) == SellerRoleOf(members, seller, u)
  }

  predicate OwnedBy(members: map<User, Membership>, seller: Seller, u: User) {
    OwnersOf(members, seller) == {u}
  }

  ghost predicate OneOwner(members: map<User, Membership>, seller: Seller) {
    exists u: User :: OwnedBy(members, seller, u)
  }

  ghost predicate Inv(s: State) {
    && (forall u | u in s.members :: s.members[u].seller < |s.founders|)
    && (forall seller: nat | seller < |s.founders| :: OneOwner(s.members, seller))
    && Agrees(ReplaySellers(s.founders, s.audit), s.members)
    && ReplayAdmins(s.audit) == s.admins
    && AuditOk(s.founders, s.audit)
  }

  // ----- Steps keep the invariant -----

  lemma AppendEntry(founders: seq<User>, audit: seq<Entry>, e: Entry, audit': seq<Entry>)
    requires audit' == audit + [e]
    ensures ReplaySellers(founders, audit') == ApplySeller(ReplaySellers(founders, audit), e)
    ensures ReplayAdmins(audit') == ApplyAdmin(ReplayAdmins(audit), e)
    ensures AuditOk(founders, audit') <==> AuditOk(founders, audit) && EntryOk(founders, audit, e)
  {
    assert audit'[..|audit|] == audit;
  }

  /** One seller-team change with its audit row. */
  lemma SellerStep(s: State, s': State, e: Entry)
    requires Inv(s) && e.SellerEntry? && s'.founders == s.founders && s'.admins == s.admins && s'.audit == s.audit + [e]
    requires e.seller < |s.founders| && SellerRoleOf(s.members, e.seller, e.owner) == Some(Owner)
    requires SellerRoleOf(s.members, e.seller, e.target) == e.before
    requires (e.action == Grant ==> e.before == None && e.after.Some?) && (e.action == Revoke ==> e.before.Some? && e.after == None)
    requires forall seller: Seller, u: User ::
               SellerRoleOf(s'.members, seller, u) ==
                 if seller == e.seller && u == e.target then e.after else SellerRoleOf(s.members, seller, u)
    ensures Agrees(ReplaySellers(s'.founders, s'.audit), s'.members)
    ensures ReplayAdmins(s'.audit) == s'.admins && AuditOk(s'.founders, s'.audit)
  {
    AppendEntry(s.founders, s.audit, e, s'.audit);
    var roles := ReplaySellers(s.founders, s.audit);
    assert Held(roles, e.seller, e.owner) == SellerRoleOf(s.members, e.seller, e.owner);
    assert Held(roles, e.seller, e.target) == SellerRoleOf(s.members, e.seller, e.target);
    forall seller: Seller, u: User
      ensures Held(ApplySeller(roles, e), seller, u) == SellerRoleOf(s'.members, seller, u)
    {
      assert Held(roles, seller, u) == SellerRoleOf(s.members, seller, u);
    }
  }

  /** A change that leaves the owners as they are. */
  lemma OwnersKept(s: State, s': State)
    requires Inv(s) && s'.founders == s.founders
    requires forall seller: nat | seller < |s.founders| :: OwnersOf(s'.members, seller) == OwnersOf(s.members, seller)
    ensures forall seller: nat | seller < |s.founders| :: OneOwner(s'.members, seller)
  {
    forall seller: nat | seller < |s.founders|
      ensures OneOwner(s'.members, seller)
    {
      assert OneOwner(s.members, seller);
      var u: User :| OwnedBy(s.members, seller, u);
      assert OwnedBy(s'.members, seller, u);
    }
  }

  lemma AddKeepsInv(s: State, caller: User, seller: Seller, user: User, role: Option<SellerRole>)
    requires Inv(s)
    ensures Inv(AddSellerUser(s, caller, seller, user, role).0)
  {
    var (s', e) := AddSellerUser(s, caller, seller, user, role);
    if e == None {
      SellerStep(s, s', SellerEntry(caller, user, seller, Grant, None, role));
      forall t: nat | t < |s.founders|
        ensures OwnersOf(s'.members, t) == OwnersOf(s.members, t)
      {
      }
      OwnersKept(s, s');
    }
  }

  /** The owner who acts is the only one, so nobody else is an owner. */
  lemma SoleOwner(s: State, seller: Seller, caller: User, target: User)
    requires Inv(s) && SellerRoleOf(s.members, seller, caller) == Some(Owner)
    ensures OwnersOf(s.members, seller) == {caller}
    ensures target != caller ==> SellerRoleOf(s.members, seller, target) != Some(Owner)
  {
    assert OneOwner(s.members, seller);
    var u: User :| OwnedBy(s.members, seller, u);
    assert caller in OwnersOf(s.members, seller);
    if SellerRoleOf(s.members, seller, target) == Some(Owner) {
      assert target in OwnersOf(s.members, seller);
    }
  }

  lemma UpdateKeepsInv(s: State, caller: User, seller: Seller, target: User, role: Option<SellerRole>)
    requires Inv(s)
    ensures Inv(UpdateSellerUserRole(s, caller, seller, target, role).0)
  {
    var (s', e) := UpdateSellerUserRole(s, caller, seller, target, role);
    if e == None && s' != s {
      SellerStep(s, s', SellerEntry(caller, target, seller, RoleChange, SellerRoleOf(s.members, seller, target), role));
      SoleOwner(s, seller, caller, target);
      forall t: nat | t < |s.founders|
        ensures OwnersOf(s'.members, t) == OwnersOf(s.members, t)
      {
      }
      OwnersKept(s, s');
    }
  }

  lemma RemoveKeepsInv(s: State, caller: User, seller: Seller, target: User)
    requires Inv(s)
    ensures Inv(RemoveSellerUser(s, caller, seller, target).0)
  {
    var (s', e) := RemoveSellerUser(s, caller, seller, target);
    if e == None {
      SellerStep(s, s', SellerEntry(caller, target, seller, Revoke, SellerRoleOf(s.members, seller, target), None));
      SoleOwner(s, seller, caller, target);
      forall t: nat | t < |s.founders|
        ensures OwnersOf(s'.members, t) == OwnersOf(s.members, t)
      {
      }
      OwnersKept(s, s');
    }
  }

  lemma TransferKeepsInv(s: State, caller: User, seller: Seller, target: User)
    requires Inv(s)
    ensures Inv(TransferSellerOwnership(s, caller, seller, target).0)
  {
    if TargetGuard(s, caller, seller, target) == None {
      var s' := WriteTransfer(s, caller, seller, target);
      TransferAudit(s, caller, seller, target);
      SoleOwner(s, seller, caller, target);
      forall t: nat | t < |s.founders|
        ensures OneOwner(s'.members, t)
      {
        assert OneOwner(s.members, t);
        var u: User :| OwnedBy(s.members, t, u);
        if t == seller {
          forall v: User
            ensures v in OwnersOf(s'.members, t) <==> v == target
          {
            assert v in OwnersOf(s.members, t) <==> v == caller;
          }
          assert OwnedBy(s'.members, t, target);
        } else {
          assert OwnedBy(s'.members, t, u);
        }
      }
    }
  }

  lemma TransferAudit(s: State, caller: User, seller: Seller, target: User)
    requires Inv(s) && TargetGuard(s, caller, seller, target) == None
    ensures var s' := WriteTransfer(s, caller, seller, target);
            && Agrees(ReplaySellers(s'.founders, s'.audit), s'.members)
            && ReplayAdmins(s'.audit) == s'.admins && AuditOk(s'.founders, s'.audit)
  {
    var s' := WriteTransfer(s, caller, seller, target);
    var first := SellerEntry(caller, target, seller, TransferOwnership, SellerRoleOf(s.members, seller, target), Some(Owner));
    var second := SellerEntry(caller, caller, seller, RoleChange, Some(Owner), Some(Admin));
    var roles, mid := ReplaySellers(s.founders, s.audit), s.audit + [first];
    assert s'.audit == mid + [second];
    AppendEntry(s.founders, s.audit, first, mid);
    AppendEntry(s.founders, mid, second, s'.audit);
    assert Held(roles, seller, caller) == Some(Owner);
    assert Held(roles, seller, target) == SellerRoleOf(s.members, seller, target);
    forall t: Seller, u: User
      ensures Held(ReplaySellers(s'.founders, s'.audit), t, u) == SellerRoleOf(s'.members, t, u)
    {
      assert Held(roles, t, u) == SellerRoleOf(s.members, t, u);
    }
  }

  /** One change of the administrators with its audit row. */
  lemma AdminStep(s: State, s': State, e: Entry)
    requires Inv(s) && e.AdminEntry? && s'.founders == s.founders && s'.members == s.members && s'.audit == s.audit + [e]
    requires EntryOk(s.founders, s.audit, e) && s'.admins == ApplyAdmin(s.admins, e)
    ensures Inv(s')
  {
    AppendEntry(s.founders, s.audit, e, s'.audit);
  }

  lemma AdminOpsKeepInv(s: State, op: Op)
    requires Inv(s) && (op.OpGrant? || op.OpUpdateAdmin? || op.OpRevoke? || op.OpBootstrap?)
    ensures Inv(Step(s, op).0)
  {
    var (s', e) := Step(s, op);
    if s' != s {
      match op
      case OpGrant(caller, user, rank) => AdminStep(s, s', AdminEntry(Some(caller), user, Grant, None, rank));
      case OpUpdateAdmin(caller, target, rank) =>
        AdminStep(s, s', AdminEntry(Some(caller), target, RoleChange, AdminRoleOf(s.admins, target), rank));
      case OpRevoke(caller, target) =>
        AdminStep(s, s', AdminEntry(Some(caller), target, Revoke, AdminRoleOf(s.admins, target), None));
      case OpBootstrap(user) => AdminStep(s, s', AdminEntry(None, user, Grant, None, Some(SuperAdmin)));
    }
  }

  predicate Before(audit: seq<Entry>, n: nat) {
    forall i | 0 <= i < |audit| && audit[i].SellerEntry? :: audit[i].seller < n
  }

  lemma {:induction false} AuditSellers(founders: seq<User>, audit: seq<Entry>)
    requires AuditOk(founders, audit)
    ensures Before(audit, |founders|)
  {
    if audit != [] {
      AuditSellers(founders, audit[..|audit| - 1]);
    }
  }

  lemma {:induction false} FoundedSellers(founders: seq<User>)
    ensures forall k :: k in Founded(founders) ==> k.0 < |founders|
  {
    if founders != [] {
      FoundedSellers(founders[..|founders| - 1]);
    }
  }

  /** A new seller adds its founder to the replay and changes nothing else. */
  lemma {:induction false} FounderStep(founders: seq<User>, audit: seq<Entry>, caller: User, founders': seq<User>)
    requires Before(audit, |founders|) && founders' == founders + [caller]
    ensures ReplaySellers(founders', audit) == ReplaySellers(founders, audit)[(|founders|, caller) := Owner]
    ensures forall u: User :: (|founders|, u) !in ReplaySellers(founders, audit)
  {
    if audit == [] {
      assert founders'[..|founders|] == founders;
      FoundedSellers(founders);
    } else {
      FounderStep(founders, audit[..|audit| - 1], caller, founders');
    }
  }

  lemma {:induction false} FounderKeepsAudit(founders: seq<User>, audit: seq<Entry>, caller: User, founders': seq<User>)
    requires AuditOk(founders, audit) && founders' == founders + [caller]
    ensures AuditOk(founders', audit)
  {
    if audit != [] {
      var init := audit[..|audit| - 1];
      FounderKeepsAudit(founders, init, caller, founders');
      AuditSellers(founders, init);
      FounderStep(founders, init, caller, founders');
    }
  }

  lemma CreateKeepsInv(s: State, caller: User)
    requires Inv(s)
    ensures Inv(CreateSeller(s, caller).0)
  {
    if caller !in s.members {
      var s' := CreateSeller(s, caller).0;
      var roles := ReplaySellers(s.founders, s.audit);
      AuditSellers(s.founders, s.audit);
      FounderStep(s.founders, s.audit, caller, s'.founders);
      FounderKeepsAudit(s.founders, s.audit, caller, s'.founders);
      forall t: Seller, u: User
        ensures Held(ReplaySellers(s'.founders, s'.audit), t, u) == SellerRoleOf(s'.members, t, u)
      {
        assert Held(roles, t, u) == SellerRoleOf(s.members, t, u);
      }
      forall t: nat | t < |s'.founders|
        ensures OneOwner(s'.members, t)
      {
        if t < |s.founders| {
          assert OneOwner(s.members, t);
          var u: User :| OwnedBy(s.members, t, u);
          assert OwnedBy(s'.members, t, u);
        } else {
          assert OwnedBy(s'.members, t, caller);
        }
      }
    }
  }

  lemma StepKeepsInv(s: State, op: Op)
    requires Inv(s)
    ensures Inv(Step(s, op).0)
  {
    match op
    case OpCreate(caller) => CreateKeepsInv(s, caller);
    case OpAdd(caller, seller, user, role) => AddKeepsInv(s, caller, seller, user, role);
    case OpUpdate(caller, seller, target, role) => UpdateKeepsInv(s, caller, seller, target, role);
    case OpRemove(caller, seller, target) => RemoveKeepsInv(s, caller, seller, target);
    case OpTransfer(caller, seller, target) => TransferKeepsInv(s, caller, seller, target);
    case _ => AdminOpsKeepInv(s, op);
  }

  lemma {:induction false} RunKeepsInv(ops: seq<Op>)
    ensures Inv(Run(EMPTY, ops))
  {
    if ops != [] {
      RunKeepsInv(ops[..|ops| - 1]);
      StepKeepsInv(Run(EMPTY, ops[..|ops| - 1]), ops[|ops| - 1]);
    }
  }

  // ----- Theorems -----

  /** Over every run of serialised transactions each seller has exactly one owner. */
  lemma ExactlyOneOwner(ops: seq<Op>, seller: Seller)
    requires seller < |Run(EMPTY, ops).founders|
    ensures |OwnersOf(Run(EMPTY, ops).members, seller)| == 1
  {
    RunKeepsInv(ops);
    assert OneOwner(Run(EMPTY, ops).members, seller);
    var u: User :| OwnedBy(Run(EMPTY, ops).members, seller, u);
  }

  /** The audit log, replayed from the founders, reconstructs both role tables. */
  lemma AuditReconstructs(ops: seq<Op>, seller: Seller, u: User)
    ensures var s := Run(EMPTY, ops);
            && Held(ReplaySellers(s.founders, s.audit), seller, u) == SellerRoleOf(s.members, seller, u)
            && ReplayAdmins(s.audit) == s.admins
  {
    RunKeepsInv(ops);
  }

  lemma {:induction false} AuditEntry(founders: seq<User>, audit: seq<Entry>, k: nat)
    requires AuditOk(founders, audit) && k < |audit|
    ensures EntryOk(founders, audit[..k], audit[k])
  {
    var init := audit[..|audit| - 1];
    if k < |init| {
      AuditEntry(founders, init, k);
      assert init[..k] == audit[..k];
    }
  }

  /** At its point of the log every entry's actor held the required role, and the role the entry
      says its target had is the one the log gives. */
  lemma ActorsWereEntitled(ops: seq<Op>, k: nat)
    requires k < |Run(EMPTY, ops).audit|
    ensures var s := Run(EMPTY, ops); EntryOk(s.founders, s.audit[..k], s.audit[k])
  {
    RunKeepsInv(ops);
    var s := Run(EMPTY, ops);
    AuditEntry(s.founders, s.audit, k);
  }

  /** Once there is a super administrator there always is one. */
  lemma StepKeepsSuperAdmins(s: State, op: Op)
    requires SuperAdmins(s.admins) != {}
    ensures SuperAdmins(Step(s, op).0.admins) != {}
  {
    var s' := Step(s, op).0;
    var u :| u in SuperAdmins(s.admins);
    match op
    case OpUpdateAdmin(caller, _, _) => assert s' != s ==> caller in SuperAdmins(s'.admins);
    case OpRevoke(caller, _) => assert s' != s ==> caller in SuperAdmins(s'.admins);
    case _ => assert u in SuperAdmins(s'.admins);
  }

  lemma {:induction false} SuperAdminsNeverVanish(s: State, ops: seq<Op>)
    requires SuperAdmins(s.admins) != {}
    ensures SuperAdmins(Run(s, ops).admins) != {}
  {
    if ops != [] {
      SuperAdminsNeverVanish(s, ops[..|ops| - 1]);
      StepKeepsSuperAdmins(Run(s, ops[..|ops| - 1]), ops[|ops| - 1]);
    }
  }

  /** Two distinct super administrators are two. */
  lemma TwoSuperAdmins(admins: map<User, AdminRole>, a: User, b: User)
    requires a != b && AdminRoleOf(admins, a) == Some(SuperAdmin) && AdminRoleOf(admins, b) == Some(SuperAdmin)
    ensures |SuperAdmins(admins)| >= 2
  {
    var rest := SuperAdmins(admins) - {a, b};
    assert SuperAdmins(admins) == {a, b} + rest;
  }

  /** Among serialised transactions the last-owner and last-super-administrator safeguards never
      answer: the actor's own role already keeps one. */
  lemma SafeguardsNeverFire(s: State, op: Op)
    requires Inv(s)
    ensures Step(s, op).1 != Some(LastOwner) && Step(s, op).1 != Some(LastSuperAdmin)
  {
    match op
    case OpUpdate(caller, seller, target, _) =>
      if TargetGuard(s, caller, seller, target) == None {
        SoleOwner(s, seller, caller, target);
      }
    case OpRemove(caller, seller, target) =>
      if TargetGuard(s, caller, seller, target) == None {
        SoleOwner(s, seller, caller, target);
      }
    case OpUpdateAdmin(caller, target, _) =>
      if AdminGuard(s, caller, target) == None && AdminRoleOf(s.admins, target) == Some(SuperAdmin) {
        TwoSuperAdmins(s.admins, caller, target);
      }
    case OpRevoke(caller, target) =>
      if AdminGuard(s, caller, target) == None && AdminRoleOf(s.admins, target) == Some(SuperAdmin) {
        TwoSuperAdmins(s.admins, caller, target);
      }
    case _ =>
  }

  // ----- Without serialisation -----

  /** A change of an administrator's role, or a revocation when there is no new role. */
  datatype Change = Change(caller: User, target: User, rank: Option<AdminRole>)

  /** All checks of the change pass on the tables as read. */
  predicate MayChange(s: State, c: Change) {
    AdminGuard(s, c.caller, c.target) == None && AdminRoleOf(s.admins, c.target) != c.rank && LastSuperGuard(s, c.target) == None
  }

  function AdminsAfter(admins: map<User, AdminRole>, c: Change): map<User, AdminRole> {
    if c.rank.Some? then admins[c.target := c.rank.value] else admins - {c.target}
  }

  /** One change on its own is the operation of the service. */
  lemma ChangeIsOperation(s: State, c: Change)
    ensures var (s', e) := if c.rank.Some? then UpdatePlatformAdminRole(s, c.caller, c.target, c.rank)
                           else RevokePlatformAdmin(s, c.caller, c.target);
            && s'.admins == (if MayChange(s, c) then AdminsAfter(s.admins, c) else s.admins)
            && (MayChange(s, c) ==> e == None)
  {
  }

  /** The guards only read. Two changes that both read before either writes both pass, the guard for
      the last super administrator included, and leave no super administrator, exactly when the two
      super administrators there are demote each other. */
  lemma MutualDemotion(s: State, c: Change, d: Change)
    requires c.rank != Some(SuperAdmin) && d.rank != Some(SuperAdmin)
    ensures MayChange(s, c) && MayChange(s, d) && SuperAdmins(AdminsAfter(AdminsAfter(s.admins, c), d)) == {} <==>
              && c.target != d.target && c.caller == d.target && d.caller == c.target
              && SuperAdmins(s.admins) == {c.target, d.target}
  {
    var left := SuperAdmins(AdminsAfter(AdminsAfter(s.admins, c), d));
    forall u: User
      ensures u in left <==> u in SuperAdmins(s.admins) && u != c.target && u != d.target
    {
    }
    if MayChange(s, c) && MayChange(s, d) && left == {} {
      assert c.caller in SuperAdmins(s.admins) && d.caller in SuperAdmins(s.admins);
      assert SuperAdmins(s.admins) == {c.target, d.target};
    }
    if c.target != d.target && c.caller == d.target && d.caller == c.target && SuperAdmins(s.admins) == {c.target, d.target} {
      assert c.target in SuperAdmins(s.admins) && d.target in SuperAdmins(s.admins);
      TwoSuperAdmins(s.admins, c.target, d.target);
    }
  }

  datatype Transfer = Transfer(caller: User, target: User)

  predicate MayTransfer(s: State, seller: Seller, t: Transfer) {
    TargetGuard(s, t.caller, seller, t.target) == None
  }

  /** The writes of a transfer that was judged on the state `read`. */
  function AfterTransfer(read: State, s: State, seller: Seller, t: Transfer): State {
    if MayTransfer(read, seller, t) then WriteTransfer(s, t.caller, seller, t.target) else s
  }

  /** Two transfers that both read before either writes leave the seller with two owners exactly
      when both pass, for different targets; otherwise there is exactly one owner, as always. */
  lemma DoubleTransfer(s: State, seller: Seller, t: Transfer, u: Transfer)
    requires Inv(s) && seller < |s.founders|
    ensures var owners := OwnersOf(AfterTransfer(s, AfterTransfer(s, s, seller, t), seller, u).members, seller);
            if MayTransfer(s, seller, t) && MayTransfer(s, seller, u) && t.target != u.target
            then owners == {t.target, u.target} && |owners| == 2
            else |owners| == 1
  {
    assert OneOwner(s.members, seller);
    var o: User :| OwnedBy(s.members, seller, o);
    var mid := AfterTransfer(s, s, seller, t);
    TransferOwners(s, s, seller, t, o);
    TransferOwners(s, mid, seller, u, o);
    var owners := OwnersOf(AfterTransfer(s, mid, seller, u).members, seller);
    if MayTransfer(s, seller, t) {
      assert OwnersOf(mid.members, seller) == {t.target};
      assert owners == if MayTransfer(s, seller, u) then {t.target, u.target} else {t.target};
    } else {
      assert owners == {if MayTransfer(s, seller, u) then u.target else o};
    }
  }

  /** What a transfer by the sole owner, as read, does to the owners there are when it writes. */
  lemma TransferOwners(read: State, s: State, seller: Seller, t: Transfer, o: User)
    requires OwnersOf(read.members, seller) == {o}
    ensures OwnersOf(AfterTransfer(read, s, seller, t).members, seller) ==
              if MayTransfer(read, seller, t) then OwnersOf(s.members, seller) - {o} + {t.target} else OwnersOf(s.members, seller)
    ensures MayTransfer(read, seller, t) ==> t.target != o
  {
    if MayTransfer(read, seller, t) {
      assert t.caller in OwnersOf(read.members, seller);
    }
  }
}
