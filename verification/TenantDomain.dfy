/** Tenant roles and the two tables about who may hand out which. */
module TenantDomain {
  import opened Base

  datatype Role = Owner | Admin | Editor | Viewer

  function RoleName(r: Role): string {
    match r
    case Owner => "owner"
    case Admin => "admin"
    case Editor => "editor"
    case Viewer => "viewer"
  }

  function RoleNamed(s: string): Option<Role> {
    if s == "owner" then Some(Owner)
    else if s == "admin" then Some(Admin)
    else if s == "editor" then Some(Editor)
    else if s == "viewer" then Some(Viewer)
    else None
  }

  /** Names and roles correspond one to one. */
  lemma RoleNamesReadBack(r: Role, s: string)
    ensures RoleNamed(RoleName(r)) == Some(r)
    ensures RoleNamed(s) == Some(r) <==> s == RoleName(r)
    ensures [RoleName(Owner), RoleName(Admin), RoleName(Editor), RoleName(Viewer)] == ["owner", "admin", "editor", "viewer"]
  {
  }

  predicate ValidRole(s: string) { RoleNamed(s).Some? }

  predicate InvitableRole(s: string) { s == "admin" || s == "editor" || s == "viewer" }

  /** The roles a minter may give an agent credential; an unknown minter may give none. */
  function MintableAgentRoles(minterRole: string): seq<string> {
    if minterRole == "owner" then ["admin", "editor", "viewer"]
    else if minterRole == "admin" then ["editor", "viewer"]
    else []
  }

  predicate CanMintAgentRole(minterRole: string, target: string) {
    target in MintableAgentRoles(minterRole)
  }

  /** Minting is strictly downward: never the minter's own role, never owner, and never in two directions. */
  lemma MintingIsStrict(a: string, b: string)
    requires CanMintAgentRole(a, b)
    ensures a != b && b != "owner" && (a == "owner" || a == "admin") && !CanMintAgentRole(b, a)
  {
    var k :| 0 <= k < |MintableAgentRoles(a)| && MintableAgentRoles(a)[k] == b;
    assert b == "admin" || b == "editor" || b == "viewer";
  }
}
