/** Role-based access: the three user roles, their labels and the permission lists (utils/roles.ts). */
module Roles {
  import opened Wrappers
  import Text

  datatype UserRole = Manager | Consultant | Analyst

  /** The stored text of a role. */
  function RoleName(r: UserRole): (s: string)
  {
    match r
    case Manager => "manager"
    case Consultant => "consultant"
    case Analyst => "analyst"
  }

  /** `ROLES`: constant name to role. */
  function Roles(): (m: map<string, UserRole>)
    ensures m.Keys == {"MANAGER", "CONSULTANT", "ANALYST"}
    ensures m.Values == {Manager, Consultant, Analyst}
    ensures m["MANAGER"] == Manager && m["CONSULTANT"] == Consultant && m["ANALYST"] == Analyst
  {
    var m := map["MANAGER" := Manager, "CONSULTANT" := Consultant, "ANALYST" := Analyst];
    assert m["MANAGER"] == Manager && m["CONSULTANT"] == Consultant && m["ANALYST"] == Analyst;
    m
  }

  /** `ROLE_LABELS`: the Portuguese label of every role. */
  function RoleLabel(r: UserRole): (s: string)
    ensures s == "Gestor" <==> r == Manager
    ensures s == "Consultor" <==> r == Consultant
    ensures s == "Analista" <==> r == Analyst
  {
    match r
    case Manager => "Gestor"
    case Consultant => "Consultor"
    case Analyst => "Analista"
  }

  /** Each role has its own label, so `ROLE_LABELS` is keyed by exactly the three roles. */
  lemma RoleLabelsDistinct(a: UserRole, b: UserRole)
    ensures RoleLabel(a) == RoleLabel(b) <==> a == b
    ensures RoleName(a) == RoleName(b) <==> a == b
  {
  }

  datatype Permission = ViewFinancial | EditGoals | ManageCrmColumns | ManageSettings

  /** `PERMISSIONS`: the role names allowed each permission. */
  function Allowed(p: Permission): (roles: seq<string>)
    ensures roles == ["manager"]
  {
    match p
    case ViewFinancial => ["manager"]
    case EditGoals => ["manager"]
    case ManageCrmColumns => ["manager"]
    case ManageSettings => ["manager"]
  }

  /** `hasPermission(userRole, permission)`; `None` is `null`/`undefined`. */
  function HasPermission(userRole: Option<string>, permission: seq<string>): (b: bool)
    ensures userRole.None? || userRole.value == "" ==> !b
    ensures userRole.Some? && userRole.value != "" ==> (b <==> Text.Lower(userRole.value) in permission)
  {
    match userRole
    case None => false
    case Some(r) => r != "" && Text.Lower(r) in permission
  }

  /** Lowercasing the role first changes nothing. */
  lemma HasPermissionLowerInvariant(r: string, permission: seq<string>)
    ensures HasPermission(Some(Text.Lower(r)), permission) == HasPermission(Some(r), permission)
  {
    Text.LowerIdempotent(r);
  }

  /** Every permission is granted to managers, whatever the case of the stored role, and to nobody else. */
  lemma OnlyManagers(r: string, p: Permission)
    ensures HasPermission(Some(r), Allowed(p)) <==> Text.Lower(r) == "manager"
  {
  }

  lemma CaseInsensitiveManager(p: Permission)
    ensures HasPermission(Some("Manager"), Allowed(p))
    ensures HasPermission(Some("MANAGER"), Allowed(p))
    ensures HasPermission(Some("manager"), Allowed(p))
    ensures !HasPermission(Some("consultant"), Allowed(p))
    ensures !HasPermission(Some("analyst"), Allowed(p))
  {
    assert Text.Lower("Manager") == "manager";
    assert Text.Lower("MANAGER") == "manager";
    assert Text.Lower("manager") == "manager";
    assert Text.Lower("consultant") == "consultant";
    assert Text.Lower("analyst") == "analyst";
  }
}
