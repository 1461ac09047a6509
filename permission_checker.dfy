/** `check_user_permission` (naturalassistant/permission_checker.py): administrators
    may do anything; anyone else needs one of the allowed roles. */
module PermissionChecker {
  import opened AssistantConfig

  /** What the check reads of a guild member. */
  datatype Member = Member(isAdministrator: bool, roles: seq<RoleId>)

  /** The search over the member's roles. */
  function AnyRoleAllowed(roles: seq<RoleId>, allowed: seq<RoleId>): (r: bool)
    ensures r <==> exists i :: 0 <= i < |roles| && roles[i] in allowed
  {
    if roles == [] then false
    else if roles[0] in allowed then true
    else
      var r := AnyRoleAllowed(roles[1..], allowed);
      assert forall i :: 1 <= i < |roles| ==> roles[i] == roles[1..][i - 1];
      r
  }

  function CheckUserPermission(m: Member, allowed: seq<RoleId>): (r: bool)
    ensures m.isAdministrator ==> r
    ensures !m.isAdministrator ==> (r <==> exists i :: 0 <= i < |m.roles| && m.roles[i] in allowed)
  {
    m.isAdministrator || AnyRoleAllowed(m.roles, allowed)
  }

  /** With no allowed roles only administrators pass. */
  lemma EmptyAllowedOnlyAdmins(m: Member)
    ensures CheckUserPermission(m, []) <==> m.isAdministrator
  {
  }

  /** Allowing more roles never turns an allowed member away. */
  lemma MoreRolesNeverDeny(m: Member, allowed: seq<RoleId>, more: seq<RoleId>)
    requires forall x :: x in allowed ==> x in more
    requires CheckUserPermission(m, allowed)
    ensures CheckUserPermission(m, more)
  {
  }

  /** The order of the member's roles does not matter, only which ones it has. */
  lemma RoleOrderIrrelevant(m: Member, n: Member, allowed: seq<RoleId>)
    requires m.isAdministrator == n.isAdministrator
    requires forall x :: x in m.roles <==> x in n.roles
    ensures CheckUserPermission(m, allowed) == CheckUserPermission(n, allowed)
  {
    if !m.isAdministrator {
      if CheckUserPermission(m, allowed) {
        var i :| 0 <= i < |m.roles| && m.roles[i] in allowed;
        assert m.roles[i] in n.roles;
      }
      if CheckUserPermission(n, allowed) {
        var i :| 0 <= i < |n.roles| && n.roles[i] in allowed;
        assert n.roles[i] in m.roles;
      }
    }
  }
}
