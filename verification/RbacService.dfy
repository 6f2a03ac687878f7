/** The role changes as the service makes them, table by table inside a transaction. Every method is
    proved equal to the operation of Rbac and keeps its invariant. */
module RbacServices {
  import opened Common
  import opened Rbac

  class RbacService {
    ghost var founders: seq<User>
    var sellers: nat
    var members: map<User, Membership>
    var admins: map<User, AdminRole>
    var audit: seq<Entry>

    constructor ()
      ensures Db() == EMPTY && Valid()
    {
      founders, sellers, members, admins, audit := [], 0, map[], map[], [];
    }

    ghost function Db(): State
      reads this
    {
      State(founders, members, admins, audit)
    }

    ghost predicate Valid()
      reads this
    {
      sellers == |founders| && Inv(Db())
    }

    method CountOwners(seller: Seller) returns (n: nat)
      ensures n == |OwnersOf(members, seller)|
    {
      n := |OwnersOf(members, seller)|;
    }

    method CountSuperAdmins() returns (n: nat)
      ensures n == |SuperAdmins(admins)|
    {
      n := |SuperAdmins(admins)|;
    }

    /** The caller becomes the first owner; no audit row is written. */
    method CreateSeller(caller: User) returns (e: Option<Error>)
      requires Valid()
      modifies this
      ensures (Db(), e) == Rbac.CreateSeller(old(Db()), caller) && Valid()
    {
      StepKeepsInv(Db(), OpCreate(caller));
      if caller in members {
        return Some(Internal);
      }
      members := members[caller := Membership(sellers, Owner)];
      sellers := sellers + 1;
      founders := founders + [caller];
      e := None;
    }

    method RequireOwner(caller: User, seller: Seller) returns (e: Option<Error>)
      ensures e == if SellerRoleOf(members, seller, caller) != Some(Owner) then Some(InsufficientRole) else None
    {
      var role := SellerRoleOf(members, seller, caller);
      e := if role == None || role.value != Owner then Some(InsufficientRole) else None;
    }

    method AddSellerUser(caller: User, seller: Seller, user: User, role: Option<SellerRole>) returns (e: Option<Error>)
      requires Valid()
      modifies this
      ensures (Db(), e) == Rbac.AddSellerUser(old(Db()), caller, seller, user, role) && Valid()
    {
      StepKeepsInv(Db(), OpAdd(caller, seller, user, role));
      if role == None {
        return Some(InvalidRole);
      }
      if role.value == Owner {
        return Some(UseTransfer);
      }
      e := RequireOwner(caller, seller);
      if e != None {
        return;
      }
      if SellerRoleOf(members, seller, user).Some? {
        return Some(Conflict);
      }
      if user in members {
        return Some(Internal);
      }
      members := members[user := Membership(seller, role.value)];
      audit := audit + [SellerEntry(caller, user, seller, Grant, None, role)];
    }

    method FindTarget(caller: User, seller: Seller, target: User) returns (e: Option<Error>)
      ensures e == TargetGuard(Db(), caller, seller, target)
    {
      e := RequireOwner(caller, seller);
      if e != None {
        return;
      }
      if SellerRoleOf(members, seller, target) == None {
        return Some(TargetNotFound);
      }
      if target == caller {
        return Some(SelfRoleChange);
      }
    }

    method GuardLastOwner(seller: Seller, target: User) returns (e: Option<Error>)
      ensures e == LastOwnerGuard(Db(), seller, target)
    {
      if SellerRoleOf(members, seller, target) == Some(Owner) {
        var owners := CountOwners(seller);
        if owners <= 1 {
          return Some(LastOwner);
        }
      }
      e := None;
    }

    method UpdateSellerUserRole(caller: User, seller: Seller, target: User, role: Option<SellerRole>) returns (e: Option<Error>)
      requires Valid()
      modifies this
      ensures (Db(), e) == Rbac.UpdateSellerUserRole(old(Db()), caller, seller, target, role) && Valid()
    {
      StepKeepsInv(Db(), OpUpdate(caller, seller, target, role));
      if role == None {
        return Some(InvalidRole);
      }
      if role.value == Owner {
        return Some(UseTransfer);
      }
      e := FindTarget(caller, seller, target);
      if e != None {
        return;
      }
      var before := SellerRoleOf(members, seller, target);
      if before == role {
        return None;
      }
      e := GuardLastOwner(seller, target);
      if e != None {
        return;
      }
      members := members[target := Membership(seller, role.value)];
      audit := audit + [SellerEntry(caller, target, seller, RoleChange, before, role)];
    }

    method RemoveSellerUser(caller: User, seller: Seller, target: User) returns (e: Option<Error>)
      requires Valid()
      modifies this
      ensures (Db(), e) == Rbac.RemoveSellerUser(old(Db()), caller, seller, target) && Valid()
    {
      StepKeepsInv(Db(), OpRemove(caller, seller, target));
      e := FindTarget(caller, seller, target);
      if e != None {
        return;
      }
      e := GuardLastOwner(seller, target);
      if e != None {
        return;
      }
      var before := SellerRoleOf(members, seller, target);
      members := members - {target};
      audit := audit + [SellerEntry(caller, target, seller, Revoke, before, None)];
    }

    /** Demotes the caller, then promotes the target; two audit rows, the promotion first. */
    method TransferSellerOwnership(caller: User, seller: Seller, target: User) returns (e: Option<Error>)
      requires Valid()
      modifies this
      ensures (Db(), e) == Rbac.TransferSellerOwnership(old(Db()), caller, seller, target) && Valid()
    {
      StepKeepsInv(Db(), OpTransfer(caller, seller, target));
      e := FindTarget(caller, seller, target);
      if e != None {
        return;
      }
      ghost var before := audit;
      var beforeTarget := SellerRoleOf(members, seller, target);
      members := members[caller := Membership(seller, Admin)];
      members := members[target := Membership(seller, Owner)];
      audit := audit + [SellerEntry(caller, target, seller, TransferOwnership, beforeTarget, Some(Owner))];
      audit := audit + [SellerEntry(caller, caller, seller, RoleChange, Some(Owner), Some(Admin))];
      assert audit == before + [SellerEntry(caller, target, seller, TransferOwnership, beforeTarget, Some(Owner)),
                                SellerEntry(caller, caller, seller, RoleChange, Some(Owner), Some(Admin))];
    }

    method GrantPlatformAdmin(caller: User, user: User, role: Option<AdminRole>) returns (e: Option<Error>)
      requires Valid()
      modifies this
      ensures (Db(), e) == Rbac.GrantPlatformAdmin(old(Db()), caller, user, role) && Valid()
    {
      StepKeepsInv(Db(), OpGrant(caller, user, role));
      if role == None {
        return Some(InvalidRole);
      }
      if AdminRoleOf(admins, caller) != Some(SuperAdmin) {
        return Some(InsufficientRole);
      }
      if user in admins {
        return Some(Conflict);
      }
      admins := admins[user := role.value];
      audit := audit + [AdminEntry(Some(caller), user, Grant, None, role)];
      e := None;
    }

    method FindAdmin(caller: User, target: User) returns (e: Option<Error>)
      ensures e == AdminGuard(Db(), caller, target)
    {
      if AdminRoleOf(admins, caller) != Some(SuperAdmin) {
        return Some(InsufficientRole);
      }
      if target !in admins {
        return Some(TargetNotFound);
      }
      e := if target == caller then Some(SelfRoleChange) else None;
    }

    method GuardLastSuperAdmin(target: User) returns (e: Option<Error>)
      ensures e == LastSuperGuard(Db(), target)
    {
      if AdminRoleOf(admins, target) == Some(SuperAdmin) {
        var supers := CountSuperAdmins();
        if supers <= 1 {
          return Some(LastSuperAdmin);
        }
      }
      e := None;
    }

    method UpdatePlatformAdminRole(caller: User, target: User, role: Option<AdminRole>) returns (e: Option<Error>)
      requires Valid()
      modifies this
      ensures (Db(), e) == Rbac.UpdatePlatformAdminRole(old(Db()), caller, target, role) && Valid()
    {
      StepKeepsInv(Db(), OpUpdateAdmin(caller, target, role));
      if role == None {
        return Some(InvalidRole);
      }
      e := FindAdmin(caller, target);
      if e != None {
        return;
      }
      var before := AdminRoleOf(admins, target);
      if before == role {
        return None;
      }
      e := GuardLastSuperAdmin(target);
      if e != None {
        return;
      }
      admins := admins[target := role.value];
      audit := audit + [AdminEntry(Some(caller), target, RoleChange, before, role)];
    }

    method RevokePlatformAdmin(caller: User, target: User) returns (e: Option<Error>)
      requires Valid()
      modifies this
      ensures (Db(), e) == Rbac.RevokePlatformAdmin(old(Db()), caller, target) && Valid()
    {
      StepKeepsInv(Db(), OpRevoke(caller, target));
      e := FindAdmin(caller, target);
      if e != None {
        return;
      }
      e := GuardLastSuperAdmin(target);
      if e != None {
        return;
      }
      var before := AdminRoleOf(admins, target);
      admins := admins - {target};
      audit := audit + [AdminEntry(Some(caller), target, Revoke, before, None)];
    }

    method BootstrapSuperAdmin(user: User) returns (e: Option<Error>)
      requires Valid()
      modifies this
      ensures (Db(), e) == Rbac.BootstrapSuperAdmin(old(Db()), user) && Valid()
    {
      StepKeepsInv(Db(), OpBootstrap(user));
      var count := CountSuperAdmins();
      if count > 0 {
        return None;
      }
      if user in admins {
        return Some(Internal);
      }
      admins := admins[user := SuperAdmin];
      audit := audit + [AdminEntry(None, user, Grant, None, Some(SuperAdmin))];
      e := None;
    }
  }
}
