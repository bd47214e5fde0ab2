/** The account handlers: registration, sign-in, password change, and the
    administrator's approve, block and role-change operations, over the user
    collection held as a sequence indexed by user id. The same collection
    serves the `authenticate` middleware, which stamps `lastActive`. */
module Accounts {
  import opened Common
  import opened Strings
  import opened Roles
  import opened Users
  import opened Auth

  /** The first user whose stored (normalised) email is `e`. */
  function EmailIndex(users: seq<User>, e: string): (r: Option<UserId>)
    ensures r.Some? ==> r.value < |users| && users[r.value].email == e
    ensures r.Some? ==> forall j :: 0 <= j < r.value ==> users[j].email != e
    ensures r.None? <==> forall j :: 0 <= j < |users| ==> users[j].email != e
  {
    if users == [] then None
    else if users[|users| - 1].email == e && EmailIndex(users[..|users| - 1], e).None? then Some(|users| - 1)
    else EmailIndex(users[..|users| - 1], e)
  }

  /** No two accounts share an email address (the `unique` index). */
  ghost predicate UniqueEmails(users: seq<User>)
  {
    forall i, j :: 0 <= i < j < |users| ==> users[i].email != users[j].email
  }

  /** The record `register` creates: a student, unapproved, unblocked, without
      a class, with the name trimmed and the email normalised. */
  function NewAccount(name: string, email: string, password: string, now: Time): (u: User)
    ensures u.role == DefaultRole && !u.isApproved && !u.isBlocked && u.cls.None?
    ensures u.email == NormalizeEmail(email) && u.password == password
  {
    User(Trim(name), NormalizeEmail(email), password, Student, None, false, false, now)
  }

  /** The outcome of `login` on a collection: the same 401 for an unknown
      email and a wrong password, then 403 for a pending account, then 403 for
      a blocked one. */
  function LoginOutcome(users: seq<User>, email: string, password: string, matches: (string, string) -> bool): (r: Result<UserId>)
    ensures r.Ok? ==> r.value < |users| && users[r.value].email == NormalizeEmail(email)
    ensures r == Err(Unauthorized) <==>
      EmailIndex(users, NormalizeEmail(email)).None?
      || !matches(password, users[EmailIndex(users, NormalizeEmail(email)).value].password)
    ensures r.Ok? ==> users[r.value].isApproved && !users[r.value].isBlocked && matches(password, users[r.value].password)
    ensures r.Err? ==> r.error == Unauthorized || r.error == Forbidden
  {
    match EmailIndex(users, NormalizeEmail(email))
    case None => Err(Unauthorized)
    case Some(id) =>
      var u := users[id];
      if !matches(password, u.password) then Err(Unauthorized)
      else if !u.isApproved then Err(Forbidden)
      else if u.isBlocked then Err(Forbidden)
      else Ok(id)
  }

  /** Sign-in and the authentication chain agree: once the password matches,
      login succeeds for exactly the accounts the chain admits. */
  lemma LoginAgreesWithGate(users: seq<User>, email: string, password: string,
                            matches: (string, string) -> bool, token: string, verify: string -> Option<UserId>)
    requires EmailIndex(users, NormalizeEmail(email)).Some?
    requires token != "" && verify(token) == EmailIndex(users, NormalizeEmail(email))
    requires matches(password, users[verify(token).value].password)
    ensures LoginOutcome(users, email, password, matches).Ok? <==> Gate(users, Some(token), verify).Admitted?
  {
  }

  /** What `approveUser` does to a record: it is approved, and its role
      becomes the given one only when that names a role. */
  function Approved(u: User, role: Option<string>): (v: User)
    ensures v.isApproved
    ensures role.Some? && ParseRole(role.value).Some? ==> v.role == ParseRole(role.value).value
    ensures role.None? || ParseRole(role.value).None? ==> v.role == u.role
    ensures v.(isApproved := u.isApproved, role := u.role) == u
  {
    var v := u.(isApproved := true);
    if role.Some? && role.value != "" then
      match ParseRole(role.value)
      case Some(r) => v.(role := r)
      case None => v
    else v
  }

  /** Approving twice with the same arguments is approving once. */
  lemma ApproveIdempotent(u: User, role: Option<string>)
    ensures Approved(Approved(u, role), role) == Approved(u, role)
  {
  }

  class Directory {
    var users: seq<User>

    ghost predicate Valid()
      reads this
    {
      UniqueEmails(users)
    }

    constructor()
      ensures Valid() && users == []
    {
      users := [];
    }

    /** `User.findOne({ email })`, with the query value normalised as the
        schema's setters do. */
    method FindByEmail(email: string) returns (r: Option<UserId>)
      ensures r == EmailIndex(users, NormalizeEmail(email))
    {
      var e := NormalizeEmail(email);
      var i := 0;
      while i < |users|
        invariant 0 <= i <= |users|
        invariant forall j :: 0 <= j < i ==> users[j].email != e
      {
        if users[i].email == e {
          ghost var first := EmailIndex(users, e);
          assert first.Some? && first.value <= i;
          return Some(i);
        }
        i := i + 1;
      }
      r := None;
    }

    /** `register`: 400 for an email already taken; a record failing schema
        validation is not saved (500); otherwise one unapproved student is
        appended. */
    method Register(name: string, email: string, password: string, now: Time) returns (r: Result<UserId>)
      requires Valid()
      modifies this
      ensures Valid()
      ensures EmailIndex(old(users), NormalizeEmail(email)).Some? ==> r == Err(BadRequest)
      ensures r.Err? ==> users == old(users)
      ensures r.Ok? <==> EmailIndex(old(users), NormalizeEmail(email)).None? && ValidAccountFields(name, email, password)
      ensures r.Ok? ==> r.value == |old(users)| && users == old(users) + [NewAccount(name, email, password, now)]
    {
      var existing := FindByEmail(email);
      if existing.Some? {
        return Err(BadRequest);
      }
      if !ValidAccountFields(name, email, password) {
        return Err(ServerError);
      }
      r := Ok(|users|);
      users := users + [NewAccount(name, email, password, now)];
    }

    /** `login`: the checks of `LoginOutcome`, and on success the account's
        `lastActive` is stamped. */
    method Login(email: string, password: string, matches: (string, string) -> bool, now: Time) returns (r: Result<UserId>)
      requires Valid()
      modifies this
      ensures Valid()
      ensures r == LoginOutcome(old(users), email, password, matches)
      ensures r.Err? ==> users == old(users)
      ensures r.Ok? ==> users == old(users)[r.value := old(users)[r.value].(lastActive := now)]
    {
      r := LoginOutcome(users, email, password, matches);
      if r.Ok? {
        users := users[r.value := users[r.value].(lastActive := now)];
      }
    }

    /** `authenticate`: the chain of `Gate` on the request's token; an admitted
        user's `lastActive` is stamped and the user is handed on. */
    method Authenticate(token: Option<string>, verify: string -> Option<UserId>, now: Time) returns (r: Result<Actor>)
      requires Valid()
      modifies this
      ensures Valid()
      ensures r.Ok? <==> Gate(old(users), token, verify).Admitted?
      ensures r.Err? ==> r.error == AuthenticateError(Gate(old(users), token, verify)) && users == old(users)
      ensures r.Ok? ==> var id := Gate(old(users), token, verify).id;
        r.value == ActorOf(id, old(users)[id]) && users == old(users)[id := old(users)[id].(lastActive := now)]
    {
      var a := Gate(users, token, verify);
      if !a.Admitted? {
        return Err(AuthenticateError(a));
      }
      r := Ok(ActorOf(a.id, users[a.id]));
      users := users[a.id := users[a.id].(lastActive := now)];
    }

    /** `changePassword`: 404 for an unknown user, 401 when the current
        password does not match, a new password under six characters fails
        validation (500); otherwise only that user's password changes. */
    method ChangePassword(id: UserId, current: string, next: string, matches: (string, string) -> bool) returns (s: Status)
      requires Valid()
      modifies this
      ensures Valid()
      ensures id >= |old(users)| ==> s == Failed(NotFound)
      ensures id < |old(users)| && !matches(current, old(users)[id].password) ==> s == Failed(Unauthorized)
      ensures s == Done <==> id < |old(users)| && matches(current, old(users)[id].password) && |next| >= 6
      ensures s.Failed? ==> users == old(users)
      ensures s == Done ==> users == old(users)[id := old(users)[id].(password := next)]
    {
      if id >= |users| {
        return Failed(NotFound);
      }
      if !matches(current, users[id].password) {
        return Failed(Unauthorized);
      }
      if |next| < 6 {
        return Failed(ServerError);
      }
      users := users[id := users[id].(password := next)];
      s := Done;
    }

    /** `approveUser`: 404 for an unknown user, otherwise the record becomes
        `Approved(record, role)`. */
    method ApproveUser(id: UserId, role: Option<string>) returns (s: Status)
      requires Valid()
      modifies this
      ensures Valid()
      ensures s == Done <==> id < |old(users)|
      ensures s.Failed? ==> s == Failed(NotFound) && users == old(users)
      ensures s == Done ==> users == old(users)[id := Approved(old(users)[id], role)]
    {
      if id >= |users| {
        return Failed(NotFound);
      }
      users := users[id := Approved(users[id], role)];
      s := Done;
    }

    /** `toggleBlockUser`: sets `isBlocked` to the given flag and nothing else. */
    method ToggleBlockUser(id: UserId, blocked: bool) returns (s: Status)
      requires Valid()
      modifies this
      ensures Valid()
      ensures s == Done <==> id < |old(users)|
      ensures s.Failed? ==> s == Failed(NotFound) && users == old(users)
      ensures s == Done ==> users == old(users)[id := old(users)[id].(isBlocked := blocked)]
    {
      if id >= |users| {
        return Failed(NotFound);
      }
      users := users[id := users[id].(isBlocked := blocked)];
      s := Done;
    }

    /** `changeUserRole`: a string that names no role is refused with 400 before
        any lookup; then 404 for an unknown user; otherwise only the role
        changes. */
    method ChangeUserRole(id: UserId, role: string) returns (s: Status)
      requires Valid()
      modifies this
      ensures Valid()
      ensures ParseRole(role).None? ==> s == Failed(BadRequest)
      ensures ParseRole(role).Some? && id >= |old(users)| ==> s == Failed(NotFound)
      ensures s == Done <==> ParseRole(role).Some? && id < |old(users)|
      ensures s.Failed? ==> users == old(users)
      ensures s == Done ==> users == old(users)[id := old(users)[id].(role := ParseRole(role).value)]
    {
      var parsed := ParseRole(role);
      if parsed.None? {
        return Failed(BadRequest);
      }
      if id >= |users| {
        return Failed(NotFound);
      }
      users := users[id := users[id].(role := parsed.value)];
      s := Done;
    }
  }
}
