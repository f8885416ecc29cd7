/**
 * Account creation (`handleSignup`, src/pages/Signup.jsx).
 */
module Signup {
  import opened Wrappers
  import opened Entities
  import opened Storage
  import opened Sessions
  import Seqs

  datatype SignupError =
    | UserExists        // the "User already exists!" alert
    | UsersUnreadable   // the users slot holds no list, so `.some` throws

  /** `users.some(u => u.username === username)`. */
  predicate UsernameTaken(users: seq<User>, username: string) {
    Seqs.Any(users, (u: User) => u.username == username)
  }

  /** The uniqueness check and the append of `[...users, newUser]`. */
  function Register(users: seq<User>, newUser: User): (r: Result<seq<User>, SignupError>)
    ensures r.Failure? <==> exists u :: u in users && u.username == newUser.username
    ensures r.Failure? ==> r.error == UserExists
    ensures r.Success? ==> |r.value| == |users| + 1 && r.value[..|users|] == users && r.value[|users|] == newUser
  {
    if UsernameTaken(users, newUser.username) then Failure(UserExists) else Success(users + [newUser])
  }

  /** A signup never lets a second account take a username: uniqueness is kept. */
  lemma RegisterKeepsUnique(users: seq<User>, newUser: User)
    requires UniqueUsernames(users)
    requires Register(users, newUser).Success?
    ensures UniqueUsernames(Register(users, newUser).value)
  {
    var r := Register(users, newUser).value;
    forall i, j | 0 <= i < j < |r|
      ensures r[i].username != r[j].username
    {
      if j == |users| {
        assert r[i] == users[i];
        assert users[i] in users;
      } else {
        assert r[i] == users[i] && r[j] == users[j];
      }
    }
  }

  /** The session a signup leaves behind: `{username, role}`, with no id, name or password. */
  function SignupSession(newUser: User): (v: Value)
    ensures v.SessionRecord? && v.session.username == newUser.username
    ensures SessionId(v).None? && SessionRole(v) == Some(newUser.role) && Truthy(v)
  {
    SessionRecord(Session(newUser.username, newUser.role, None))
  }

  /** The store after a signup, or the error that stops it before anything is written. */
  function SignupEffect(slots: Slots, newUser: User): (r: Result<(Slots, Route), SignupError>)
    ensures r.Success? ==> UsersIn(slots).Some? && UsersIn(r.value.0) == Some(UsersIn(slots).value + [newUser])
    ensures r.Success? ==> GetSession(r.value.0) == SignupSession(newUser)
    ensures r.Success? ==> (r.value.1 == AdminDashboard <==> newUser.role == ADMIN)
    ensures r.Failure? <==> UsersIn(slots).None? || UsernameTaken(UsersIn(slots).value, newUser.username)
  {
    match UsersIn(slots)
    case None => Failure(UsersUnreadable)
    case Some(users) =>
      match Register(users, newUser)
      case Failure(e) => Failure(e)
      case Success(updated) =>
        var withUsers := WriteSlot(slots, USERS_KEY, Users(updated));
        Success((WriteSlot(withUsers, SESSION_KEY, SignupSession(newUser)), DashboardFor(newUser.role)))
  }

  /** A signup touches the users and session slots and no other. */
  lemma SignupTouchesTwoSlots(slots: Slots, newUser: User, key: string)
    requires SignupEffect(slots, newUser).Success?
    requires key != USERS_KEY && key != SESSION_KEY
    ensures key in SignupEffect(slots, newUser).value.0 <==> key in slots
    ensures key in slots ==> SignupEffect(slots, newUser).value.0[key] == slots[key]
  {
  }

  /** `handleSignup` with the form's fields: a rejected signup writes nothing. */
  method HandleSignup(store: LocalStore, name: string, username: string, password: string, role: string)
    returns (r: Result<Route, SignupError>)
    modifies store
    ensures var effect := SignupEffect(old(store.slots), User(name, username, password, role));
      if effect.Success? then r == Success(effect.value.1) && store.slots == effect.value.0
      else r == Failure(effect.error) && store.slots == old(store.slots)
  {
    var newUser := User(name, username, password, role);
    var users := AsUsers(store.Read(USERS_KEY, Users([])));
    if users.None? {
      return Failure(UsersUnreadable);
    }
    if UsernameTaken(users.value, username) {
      return Failure(UserExists);
    }
    store.Write(USERS_KEY, Users(users.value + [newUser]));
    store.Write(SESSION_KEY, SessionRecord(Session(username, role, None)));
    r := Success(DashboardFor(role));
  }
}
