/**
 * Logging in (`handleLogin`, src/pages/Login.jsx).
 */
module Login {
  import opened Wrappers
  import opened Entities
  import opened Storage
  import opened Sessions
  import Seqs

  datatype LoginError =
    | InvalidCredentials   // the "Invalid credentials or role!" alert
    | UsersUnreadable      // the users slot holds no list, so `.find` throws

  /** The login form's test: username, password and the selected role must all match. */
  predicate Matches(u: User, username: string, password: string, role: string) {
    u.username == username && u.password == password && u.role == role
  }

  /** `users.find(...)`: the first stored user matching the triple. */
  function Authenticate(users: seq<User>, username: string, password: string, role: string): (r: Option<User>)
    ensures r.None? <==> forall u :: u in users ==> !Matches(u, username, password, role)
    ensures r.Some? ==> r.value in users && Matches(r.value, username, password, role)
    ensures r.Some? ==> exists i :: (0 <= i < |users| && users[i] == r.value &&
                                     forall j :: 0 <= j < i ==> !Matches(users[j], username, password, role))
  {
    Seqs.Find(users, (u: User) => Matches(u, username, password, role))
  }

  /**
   * With usernames unique, the right username and password under the other
   * role is rejected.
   */
  lemma WrongRoleFails(users: seq<User>, u: User, role: string)
    requires UniqueUsernames(users) && u in users && role != u.role
    ensures Authenticate(users, u.username, u.password, role).None?
  {
    forall v | v in users
      ensures !Matches(v, u.username, u.password, role)
    {
      if v.username == u.username {
        var i :| 0 <= i < |users| && users[i] == u;
        var j :| 0 <= j < |users| && users[j] == v;
        assert i == j;
      }
    }
  }

  /** The store after a login, or the error that leaves it unchanged. */
  function LoginEffect(slots: Slots, username: string, password: string, role: string): (r: Result<(Slots, Route), LoginError>)
    ensures r.Failure? <==> UsersIn(slots).None? || Authenticate(UsersIn(slots).value, username, password, role).None?
    ensures r.Success? ==> GetSession(r.value.0) == SessionRecord(Session(username, role, None))
    ensures r.Success? ==> (r.value.1 == AdminDashboard <==> role == ADMIN)
    ensures r.Success? ==> UsersIn(r.value.0) == UsersIn(slots)
  {
    match UsersIn(slots)
    case None => Failure(UsersUnreadable)
    case Some(users) =>
      match Authenticate(users, username, password, role)
      case None => Failure(InvalidCredentials)
      case Some(user) =>
        var session := SessionRecord(Session(user.username, user.role, None));
        Success((WriteSlot(slots, SESSION_KEY, session), DashboardFor(user.role)))
  }

  /** A login writes the session slot and nothing else. */
  lemma LoginTouchesSessionOnly(slots: Slots, username: string, password: string, role: string)
    requires LoginEffect(slots, username, password, role).Success?
    ensures LoginEffect(slots, username, password, role).value.0 == WriteSlot(slots, SESSION_KEY, GetSession(LoginEffect(slots, username, password, role).value.0))
  {
  }

  /** `handleLogin` with the form's fields: a failed login writes nothing. */
  method HandleLogin(store: LocalStore, username: string, password: string, role: string)
    returns (r: Result<Route, LoginError>)
    modifies store
    ensures var effect := LoginEffect(old(store.slots), username, password, role);
      if effect.Success? then r == Success(effect.value.1) && store.slots == effect.value.0
      else r == Failure(effect.error) && store.slots == old(store.slots)
  {
    var users := AsUsers(store.Read(USERS_KEY, Users([])));
    if users.None? {
      return Failure(UsersUnreadable);
    }
    var user := Authenticate(users.value, username, password, role);
    if user.None? {
      return Failure(InvalidCredentials);
    }
    store.Write(SESSION_KEY, SessionRecord(Session(user.value.username, user.value.role, None)));
    r := if user.value.role == ADMIN then Success(AdminDashboard) else Success(UserDashboard);
  }
}
