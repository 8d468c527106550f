/** The account endpoints: registration, login, the profile read and the
    skills update, over the user table. `bcrypt` and `jwt` are passed in
    as functions. */
module UserController {
  import opened Common
  import opened Users
  import AuthMiddleware

  /** A user as the responses show it: every field but the password. */
  datatype PublicUser = PublicUser(id: ObjectId, name: string, email: string, skills: Option<seq<Skill>>)

  /** The JSON bodies of these endpoints. None of them has a password field. */
  datatype Body =
    | Registered(message: string, id: ObjectId, name: string, email: string)
    | LoggedIn(message: string, token: string, user: PublicUser)
    | Profile(user: PublicUser)
    | SkillsUpdated(message: string, updated: Option<PublicUser>)
    | Note(message: string)
    | ErrorBody(error: string)

  const FieldsRequired := "All fields are required"
  const EmailTaken := "Email already exists"
  const InvalidCredentials := "Invalid credentials"
  const UserNotFound := "User not found"
  /** The `expiresIn` of every token `login` signs. */
  const TokenLifetime := "1h"

  /** `.select("-password")` */
  function Public(u: User): PublicUser
  {
    PublicUser(u.id, u.name, u.email, u.skills)
  }

  /** At most one user per e-mail address. */
  ghost predicate UniqueEmails(users: seq<User>)
  {
    forall i, j :: 0 <= i < j < |users| ==> users[i].email != users[j].email
  }

  /** `register`. A missing or empty field gets 400 before the table is
      read; a taken e-mail gets 400; both leave the table unchanged.
      Otherwise exactly one user is added, whose stored password is
      `hash(password)`, and the 201 reply shows id, name and e-mail.
      Registration never makes two users share an e-mail. */
  method Register(users: UserTable, name: Option<string>, email: Option<string>, password: Option<string>,
                  hash: string -> string) returns (reply: Reply<Body>)
    requires users.Valid()
    modifies users
    ensures users.Valid()
    ensures UniqueEmails(old(users.users)) ==> UniqueEmails(users.users)
    ensures !(Truthy(name) && Truthy(email) && Truthy(password)) ==>
              reply == Reply(400, ErrorBody(FieldsRequired)) && users.users == old(users.users)
    ensures Truthy(name) && Truthy(email) && Truthy(password) && FindByEmail(old(users.users), email.value).Some? ==>
              reply == Reply(400, ErrorBody(EmailTaken)) && users.users == old(users.users)
    ensures Truthy(name) && Truthy(email) && Truthy(password) && FindByEmail(old(users.users), email.value).None? ==>
              var u := User(|old(users.users)|, name.value, email.value, hash(password.value), Some([]));
              && users.users == old(users.users) + [u]
              && reply == Reply(201, Registered("User registered successfully", u.id, u.name, u.email))
  {
    if !(Truthy(name) && Truthy(email) && Truthy(password)) {
      reply := Reply(400, ErrorBody(FieldsRequired));
      return;
    }
    if FindByEmail(users.users, email.value).Some? {
      reply := Reply(400, ErrorBody(EmailTaken));
      return;
    }
    var u := users.Create(name.value, email.value, hash(password.value));
    reply := Reply(201, Registered("User registered successfully", u.id, u.name, u.email));
  }

  /** `login`. `matches(p, h)` is `bcrypt.compare` and `sign(claims, ttl)`
      is `jwt.sign` with the server's secret. An unknown e-mail and a wrong
      password get the same 400; on success the token is signed over the
      user's id alone for one hour, and `skills` defaults to the empty
      list. */
  function Login(users: seq<User>, email: Option<string>, password: Option<string>,
                 matches: (string, string) -> bool, sign: (AuthMiddleware.Claims, string) -> string): (reply: Reply<Body>)
    ensures !(Truthy(email) && Truthy(password)) ==> reply == Reply(400, ErrorBody(FieldsRequired))
    ensures Truthy(email) && Truthy(password) ==>
              var found := FindByEmail(users, email.value);
              if found.None? || !matches(password.value, found.value.password) then
                reply == Reply(400, ErrorBody(InvalidCredentials))
              else
                var u := found.value;
                reply.status == 200 && reply.body.LoggedIn?
                && reply.body.token == sign(AuthMiddleware.Claims(u.id), TokenLifetime)
                && reply.body.user == PublicUser(u.id, u.name, u.email, Some(if u.skills.Some? then u.skills.value else []))
  {
    if !(Truthy(email) && Truthy(password)) then Reply(400, ErrorBody(FieldsRequired))
    else
      match FindByEmail(users, email.value)
      case None => Reply(400, ErrorBody(InvalidCredentials))
      case Some(u) =>
        if !matches(password.value, u.password) then Reply(400, ErrorBody(InvalidCredentials))
        else
          var token := sign(AuthMiddleware.Claims(u.id), TokenLifetime);
          Reply(200, LoggedIn("Login successful", token,
                              PublicUser(u.id, u.name, u.email, Some(if u.skills.Some? then u.skills.value else []))))
  }

  /** A user with a fresh e-mail is the one `findOne` finds after it is appended. */
  lemma {:induction false} FindByEmailAfterAppend(users: seq<User>, u: User)
    requires FindByEmail(users, u.email).None?
    ensures FindByEmail(users + [u], u.email) == Some(u)
  {
    if users != [] {
      FindByEmailAfterAppend(users[1..], u);
      assert (users + [u])[1..] == users[1..] + [u];
    }
  }

  /** Registering and then logging in with the same password succeeds with
      the new user's token, provided `bcrypt.compare` accepts a password
      against its own hash. */
  lemma LoginAfterRegister(users: seq<User>, name: string, email: string, password: string,
                           hash: string -> string, matches: (string, string) -> bool, sign: (AuthMiddleware.Claims, string) -> string)
    requires email != "" && password != ""
    requires FindByEmail(users, email).None?
    requires matches(password, hash(password))
    ensures var u := User(|users|, name, email, hash(password), Some([]));
            Login(users + [u], Some(email), Some(password), matches, sign)
              == Reply(200, LoggedIn("Login successful", sign(AuthMiddleware.Claims(|users|), TokenLifetime),
                                     PublicUser(|users|, name, email, Some([]))))
  {
    FindByEmailAfterAppend(users, User(|users|, name, email, hash(password), Some([])));
  }

  /** `getProfile`: 404 for an unknown id, otherwise the user without the password. */
  function GetProfile(users: seq<User>, id: ObjectId): (reply: Reply<Body>)
    ensures FindById(users, id).None? <==> reply == Reply(404, Note(UserNotFound))
    ensures FindById(users, id).Some? ==>
              var u := FindById(users, id).value;
              reply == Reply(200, Profile(PublicUser(u.id, u.name, u.email, u.skills)))
  {
    match FindById(users, id)
    case None => Reply(404, Note(UserNotFound))
    case Some(u) => Reply(200, Profile(Public(u)))
  }

  /** `updateSkills`: replaces the skills of the authenticated user and
      nothing else, and answers with the updated user, or `null` when the
      id names no user. */
  method UpdateSkills(users: UserTable, id: ObjectId, skills: seq<Skill>) returns (reply: Reply<Body>)
    requires users.Valid()
    modifies users
    ensures users.Valid()
    ensures users.users == UpdateSkillsOf(old(users.users), id, skills)
    ensures UniqueEmails(old(users.users)) ==> UniqueEmails(users.users)
    ensures id < |users.users| ==>
              var u := old(users.users)[id];
              reply == Reply(200, SkillsUpdated("Skills updated successfully",
                                                Some(PublicUser(u.id, u.name, u.email, Some(skills)))))
    ensures id >= |users.users| ==> reply == Reply(200, SkillsUpdated("Skills updated successfully", None))
  {
    users.SetSkills(id, skills);
    var updated := if id < |users.users| then Some(Public(users.users[id])) else None;
    reply := Reply(200, SkillsUpdated("Skills updated successfully", updated));
  }
}
