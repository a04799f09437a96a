/**
 * The role guard put in front of supervisor and admin routes: it lets the request
 * through to the next handler, or answers 403.
 */
module RoleMiddleware {

  import opened Wrappers
  import opened Entities

  /** The identity the authentication middleware attached to the request. */
  datatype Principal = Principal(id: Id, role: string)

  datatype Gate = Next | Denied(code: Code)

  /** `requireRole(required)`: 403 without a user, or for a user of another role who is not ADMIN. */
  function RequireRole(required: string, user: Option<Principal>): (g: Gate)
    ensures user.None? ==> g == Denied(Forbidden)
    ensures user.Some? && user.value.role == "ADMIN" ==> g == Next
    ensures user.Some? && user.value.role == required ==> g == Next
    ensures user.Some? && user.value.role != required && user.value.role != "ADMIN" ==> g == Denied(Forbidden)
    ensures g.Denied? ==> g.code == Forbidden && HttpStatus(g.code) == 403
  {
    if user.None? || (user.value.role != required && user.value.role != "ADMIN") then Denied(Forbidden) else Next
  }

  /** Passing the ADMIN guard means passing every guard. */
  lemma AdminGuardIsStrictest(required: string, user: Option<Principal>)
    requires RequireRole("ADMIN", user) == Next
    ensures RequireRole(required, user) == Next
  {
  }

  /** Two guards of different non-admin roles are both passed only by an admin. */
  lemma DistinctGuardsOnlyAdmin(a: string, b: string, user: Option<Principal>)
    requires a != b
    requires RequireRole(a, user) == Next && RequireRole(b, user) == Next
    ensures user.Some? && user.value.role == "ADMIN"
  {
  }
}
