/** The `User` collection, shared by the user and group controllers:
    each user's name, e-mail, stored password hash and skill list. */
module Users {
  import opened Common

  /** One entry of a user's `skills`, as `{ domain, level }`. */
  datatype Skill = Skill(domain: string, level: string)

  /** A stored user. `password` holds the bcrypt hash. `skills` is `None`
      on a document that has no `skills` field. */
  datatype User = User(id: ObjectId, name: string, email: string, password: string, skills: Option<seq<Skill>>)

  function FindById(users: seq<User>, id: ObjectId): (r: Option<User>)
    ensures r.Some? ==> r.value in users && r.value.id == id
    ensures r.None? ==> forall u :: u in users ==> u.id != id
  {
    if users == [] then None
    else if users[0].id == id then Some(users[0])
    else FindById(users[1..], id)
  }

  /** `User.findOne({ email })`: the first user with that e-mail. */
  function FindByEmail(users: seq<User>, email: string): (r: Option<User>)
    ensures r.Some? ==> r.value in users && r.value.email == email
    ensures r.None? ==> forall u :: u in users ==> u.email != email
  {
    if users == [] then None
    else if users[0].email == email then Some(users[0])
    else FindByEmail(users[1..], email)
  }

  /** `$addToSet`: the skill is appended only when no equal entry exists. */
  function AddToSet(skills: seq<Skill>, s: Skill): (r: seq<Skill>)
    ensures s in r && forall x :: x in r <==> x in skills || x == s
    ensures s in skills ==> r == skills
    ensures s !in skills ==> |r| == |skills| + 1 && r[..|skills|] == skills
  {
    if s in skills then skills else skills + [s]
  }

  /** The users after setting the skills of user `id` to `skills`; every
      other user and every other field is kept. */
  function UpdateSkillsOf(users: seq<User>, id: ObjectId, skills: seq<Skill>): (r: seq<User>)
    ensures |r| == |users|
    ensures forall i :: 0 <= i < |users| ==>
              if users[i].id == id then r[i] == users[i].(skills := Some(skills)) else r[i] == users[i]
  {
    if users == [] then []
    else [if users[0].id == id then users[0].(skills := Some(skills)) else users[0]]
         + UpdateSkillsOf(users[1..], id, skills)
  }

  class UserTable {
    var users: seq<User>

    /** Ids are assigned in insertion order. */
    ghost predicate Valid()
      reads this
    {
      forall i :: 0 <= i < |users| ==> users[i].id == i
    }

    constructor ()
      ensures Valid() && users == []
    {
      users := [];
    }

    /** `User.create({ name, email, password })`. */
    method Create(name: string, email: string, password: string) returns (u: User)
      requires Valid()
      modifies this
      ensures Valid()
      ensures u == User(|old(users)|, name, email, password, Some([]))
      ensures users == old(users) + [u]
    {
      u := User(|users|, name, email, password, Some([]));
      users := users + [u];
    }

    /** `User.findByIdAndUpdate(id, { $addToSet: { skills: s } })`: a missing
        user is left alone. */
    method AddSkill(id: ObjectId, s: Skill)
      requires Valid()
      modifies this
      ensures Valid()
      ensures id < |old(users)| ==>
                var u := old(users)[id];
                users == UpdateSkillsOf(old(users), id, AddToSet(if u.skills.Some? then u.skills.value else [], s))
      ensures id >= |old(users)| ==> users == old(users)
    {
      if id < |users| {
        var u := users[id];
        var updated := AddToSet(if u.skills.Some? then u.skills.value else [], s);
        users := UpdateSkillsOf(users, id, updated);
      }
    }

    /** `User.findByIdAndUpdate(id, { skills })`: replaces only that user's
        skills; a missing user is left alone. */
    method SetSkills(id: ObjectId, skills: seq<Skill>)
      requires Valid()
      modifies this
      ensures Valid()
      ensures users == UpdateSkillsOf(old(users), id, skills)
    {
      users := UpdateSkillsOf(users, id, skills);
      assert forall i :: 0 <= i < |users| ==> users[i].id == old(users)[i].id;
    }
  }
}
