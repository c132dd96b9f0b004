/** The two role gates that run after `protect`: each compares the authenticated user's
    numeric role and either passes the request on or answers 403. */
module AuthPermission {
  import opened Common
  import opened Models

  const AdminsOnly := "Access denied. Admins only."
  const AdminsOrManagersOnly := "Access denied. Admins or Managers only."

  /** A gate either calls `next` or answers and stops the chain. */
  datatype GateResult = Next | Deny(reply: Reply)

  /** `isAdmin`: only role 1 passes. */
  function IsAdmin(user: User): (g: GateResult)
    ensures g.Next? <==> user.role == Admin
    ensures g.Deny? ==> g.reply == Reply(403, AdminsOnly)
  {
    if user.role != Admin then Deny(Reply(403, AdminsOnly)) else Next
  }

  /** `isAdminOrManager`: roles 1 and 2 pass. */
  function IsAdminOrManager(user: User): (g: GateResult)
    ensures g.Next? <==> user.role == Admin || user.role == Manager
    ensures g.Deny? ==> g.reply == Reply(403, AdminsOrManagersOnly)
  {
    if !(user.role in [Admin, Manager]) then Deny(Reply(403, AdminsOrManagersOnly)) else Next
  }

  /** The admin gate is the stricter of the two. */
  lemma AdminGateImpliesAdminOrManagerGate(user: User)
    ensures IsAdmin(user).Next? ==> IsAdminOrManager(user).Next?
  {
  }

  /** A member gets through neither gate. */
  lemma MemberDeniedByBothGates(user: User)
    requires user.role == Member
    ensures IsAdmin(user) == Deny(Reply(403, AdminsOnly))
    ensures IsAdminOrManager(user) == Deny(Reply(403, AdminsOrManagersOnly))
  {
  }

  /** Over the schema's role domain, the wider gate turns away exactly the members and the
      admin gate exactly the managers and members. */
  lemma GatesOverRoleDomain(user: User)
    requires ValidRole(user.role)
    ensures IsAdminOrManager(user).Deny? <==> user.role == Member
    ensures IsAdmin(user).Deny? <==> user.role == Manager || user.role == Member
  {
  }
}
