/**
 * The session slot and the two route guards (src/utils/session.jsx).
 */
module Sessions {
  import opened Wrappers
  import opened Entities
  import opened Storage

  /** The pages a handler or guard sends the browser to. */
  datatype Route = Login | AdminDashboard | UserDashboard | EventList | ManageEvents

  /** What a guard renders: the protected page, or a redirect. */
  datatype Access = Grant | Redirect(to: Route)

  /** `getSession()`: the session slot's value, `null` when there is none. */
  function GetSession(slots: Slots): (v: Value)
    ensures SESSION_KEY in slots && slots[SESSION_KEY].Stored? ==> v == slots[SESSION_KEY].value
    ensures !(SESSION_KEY in slots && slots[SESSION_KEY].Stored?) ==> v == Null
  {
    ReadSlot(slots, SESSION_KEY, Null)
  }

  /** `session.id` (or `session?.id`): absent for anything but a session record that has one. */
  function SessionId(session: Value): Option<string> {
    if session.SessionRecord? then session.session.id else None
  }

  /** `session.role`, absent for anything but a session record. */
  function SessionRole(session: Value): Option<string> {
    if session.SessionRecord? then Some(session.session.role) else None
  }

  /** `session && session.role === "admin"`. */
  predicate IsAdmin(session: Value) {
    Truthy(session) && SessionRole(session) == Some(ADMIN)
  }

  /** `RequireAuth`: the protected page for any truthy session. */
  function RequireAuth(slots: Slots): (a: Access)
    ensures a == Grant <==> Truthy(GetSession(slots))
    ensures a != Grant ==> a == Redirect(Login)
  {
    if Truthy(GetSession(slots)) then Grant else Redirect(Login)
  }

  /** `RequireAdmin`: the protected page only for an admin session. */
  function RequireAdmin(slots: Slots): (a: Access)
    ensures a == Grant <==> Truthy(GetSession(slots)) && SessionRole(GetSession(slots)) == Some(ADMIN)
    ensures a != Grant ==> a == Redirect(Login)
  {
    if IsAdmin(GetSession(slots)) then Grant else Redirect(Login)
  }

  /** The dashboard a role lands on after signup or login. */
  function DashboardFor(role: string): (r: Route)
    ensures r == AdminDashboard <==> role == ADMIN
    ensures r != AdminDashboard ==> r == UserDashboard
  {
    if role == ADMIN then AdminDashboard else UserDashboard
  }

  /** With no session slot, or an unreadable one, the session is `null`. */
  lemma NoSessionIsNull(slots: Slots)
    requires SESSION_KEY !in slots || !slots[SESSION_KEY].Stored?
    ensures GetSession(slots) == Null
  {
  }

  /** `setSession(u)` followed by `getSession()` gives `u`. */
  lemma GetAfterSet(slots: Slots, u: Value)
    ensures GetSession(WriteSlot(slots, SESSION_KEY, u)) == u
  {
  }

  /** After `clearSession()` the session is `null` and both guards send the visitor to the login page. */
  lemma GuardsAfterClear(slots: Slots)
    ensures GetSession(RemoveSlot(slots, SESSION_KEY)) == Null
    ensures RequireAuth(RemoveSlot(slots, SESSION_KEY)) == Redirect(Login)
    ensures RequireAdmin(RemoveSlot(slots, SESSION_KEY)) == Redirect(Login)
  {
  }

  /** A logged-in non-admin gets the same redirect from `RequireAdmin` as a visitor with no session. */
  lemma NonAdminRedirectedLikeVisitor(slots: Slots)
    ensures RequireAdmin(slots) != Grant ==> RequireAdmin(slots) == RequireAuth(RemoveSlot(slots, SESSION_KEY))
  {
  }

  /** Whatever `RequireAdmin` lets through, `RequireAuth` lets through too. */
  lemma AdminImpliesAuth(slots: Slots)
    ensures RequireAdmin(slots) == Grant ==> RequireAuth(slots) == Grant
  {
  }

  /** `setSession` and `clearSession` touch no key but the session's. */
  lemma SessionWritesOnlySession(slots: Slots, u: Value, key: string)
    requires key != SESSION_KEY
    ensures ReadSlot(WriteSlot(slots, SESSION_KEY, u), key, Null) == ReadSlot(slots, key, Null)
    ensures ReadSlot(RemoveSlot(slots, SESSION_KEY), key, Null) == ReadSlot(slots, key, Null)
  {
  }

  /** `setSession(user)`. */
  method SetSession(store: LocalStore, user: Value)
    modifies store
    ensures store.slots == WriteSlot(old(store.slots), SESSION_KEY, user)
    ensures GetSession(store.slots) == user
  {
    store.Write(SESSION_KEY, user);
  }

  /** `clearSession()`. */
  method ClearSession(store: LocalStore)
    modifies store
    ensures store.slots == RemoveSlot(old(store.slots), SESSION_KEY)
    ensures GetSession(store.slots) == Null
  {
    store.Remove(SESSION_KEY);
  }
}
