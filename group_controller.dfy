/** The study-group endpoints: find-or-create a group by (domain, level)
    and join it, list groups with an optional filter, join a group by id,
    and list a group's members. */
module GroupController {
  import opened Common
  import opened GroupSchema
  import opened Users

  /** A `StudyGroup` document. */
  datatype Group = Group(id: ObjectId, domain: Domain, level: Level, members: seq<ObjectId>)

  /** A member as `populate("members", "name email")` shows it. */
  datatype MemberInfo = MemberInfo(id: ObjectId, name: string, email: string)

  /** The JSON bodies these endpoints answer with. */
  datatype Body =
    | Note(message: string)
    | JoinedGroup(message: string, group: Group)
    | GroupList(groups: seq<Group>)
    | MemberList(members: seq<MemberInfo>)
    | ErrorBody(error: string)

  const AlreadyJoined := "Already joined this group"
  const GroupNotFound := "Group not found"
  /** The error a `StudyGroup.create` with a domain or level outside the
      schema's enums throws (mongoose's exact wording is not modelled). */
  const ValidationFailed := "StudyGroup validation failed"

  /** The group has the domain and level named by the two strings. */
  predicate HasKey(g: Group, domain: string, level: string)
  {
    DomainName(g.domain) == domain && LevelName(g.level) == level
  }

  /** `StudyGroup.findOne({ domain, level })`: the index of the first
      group with that domain and level. */
  function FindGroup(groups: seq<Group>, domain: string, level: string): (r: Option<nat>)
    ensures r.Some? ==> r.value < |groups| && HasKey(groups[r.value], domain, level)
                        && forall k :: 0 <= k < r.value ==> !HasKey(groups[k], domain, level)
    ensures r.None? ==> forall k :: 0 <= k < |groups| ==> !HasKey(groups[k], domain, level)
  {
    if groups == [] then None
    else if HasKey(groups[0], domain, level) then Some(0)
    else
      var r := FindGroup(groups[1..], domain, level);
      if r.Some? then Some(r.value + 1) else None
  }

  /** Changing members of the group `findOne` picks keeps it the one picked. */
  lemma {:induction false} FindGroupAfterUpdate(groups: seq<Group>, domain: string, level: string, i: nat, g: Group)
    requires FindGroup(groups, domain, level) == Some(i)
    requires g.domain == groups[i].domain && g.level == groups[i].level
    ensures FindGroup(groups[i := g], domain, level) == Some(i)
  {
    if i > 0 {
      FindGroupAfterUpdate(groups[1..], domain, level, i - 1, g);
      assert groups[i := g][1..] == groups[1..][i - 1 := g];
    }
  }

  /** A group created because none matched is the one `findOne` picks next. */
  lemma {:induction false} FindGroupAfterCreate(groups: seq<Group>, domain: string, level: string, g: Group)
    requires FindGroup(groups, domain, level).None? && HasKey(g, domain, level)
    ensures FindGroup(groups + [g], domain, level) == Some(|groups|)
  {
    if groups != [] {
      FindGroupAfterCreate(groups[1..], domain, level, g);
      assert (groups + [g])[1..] == groups[1..] + [g];
    }
  }

  /** At most one group per (domain, level). */
  ghost predicate UniqueKeys(groups: seq<Group>)
  {
    forall i, j :: 0 <= i < j < |groups| ==>
      groups[i].domain != groups[j].domain || groups[i].level != groups[j].level
  }

  /** No group lists a member twice. */
  ghost predicate MembersDistinct(groups: seq<Group>)
  {
    forall k :: 0 <= k < |groups| ==>
      forall i, j :: 0 <= i < j < |groups[k].members| ==> groups[k].members[i] != groups[k].members[j]
  }

  /** Appending a group whose key no group has keeps both invariants. */
  lemma AppendGroupKeepsInvariants(groups: seq<Group>, g: Group, domain: string, level: string)
    requires FindGroup(groups, domain, level).None? && HasKey(g, domain, level)
    ensures UniqueKeys(groups) ==> UniqueKeys(groups + [g])
    ensures MembersDistinct(groups) && |g.members| <= 1 ==> MembersDistinct(groups + [g])
  {
    var ext := groups + [g];
    assert forall k :: 0 <= k < |groups| ==> ext[k] == groups[k];
  }

  /** Appending a new member to one group keeps both invariants. */
  lemma AddMemberKeepsInvariants(groups: seq<Group>, i: nat, userId: ObjectId)
    requires i < |groups| && userId !in groups[i].members
    ensures var g := groups[i];
            UniqueKeys(groups) ==> UniqueKeys(groups[i := g.(members := g.members + [userId])])
    ensures var g := groups[i];
            MembersDistinct(groups) ==> MembersDistinct(groups[i := g.(members := g.members + [userId])])
  {
    var g := groups[i];
    var ms := g.members + [userId];
    assert forall a :: 0 <= a < |g.members| ==> ms[a] == g.members[a];
  }

  /** The query filter `getGroups` builds: a field is set only when the
      query parameter is supplied and non-empty. */
  datatype Filter = Filter(domain: Option<string>, level: Option<string>)

  function BuildFilter(domain: Option<string>, level: Option<string>): (f: Filter)
    ensures f.domain.Some? <==> Truthy(domain)
    ensures f.level.Some? <==> Truthy(level)
    ensures f.domain.Some? ==> f.domain == domain
    ensures f.level.Some? ==> f.level == level
  {
    Filter(if Truthy(domain) then domain else None, if Truthy(level) then level else None)
  }

  predicate Matches(g: Group, f: Filter)
  {
    (f.domain.Some? ==> DomainName(g.domain) == f.domain.value)
    && (f.level.Some? ==> LevelName(g.level) == f.level.value)
  }

  /** `StudyGroup.find(filter)`: the matching groups, in collection order. */
  function FindAll(groups: seq<Group>, f: Filter): (r: seq<Group>)
    ensures forall g :: g in r <==> g in groups && Matches(g, f)
    ensures |r| <= |groups|
    ensures multiset(r) <= multiset(groups)
  {
    if groups == [] then []
    else
      assert forall g :: g in groups <==> g == groups[0] || g in groups[1..];
      var head: seq<Group> := if Matches(groups[0], f) then [groups[0]] else [];
      var rest := FindAll(groups[1..], f);
      assert groups == [groups[0]] + groups[1..];
      assert multiset(groups) == multiset{groups[0]} + multiset(groups[1..]);
      assert multiset(head + rest) == multiset(head) + multiset(rest);
      head + rest
  }

  /** An empty filter matches everything. */
  lemma {:induction false} FindAllEmptyFilter(groups: seq<Group>)
    ensures FindAll(groups, Filter(None, None)) == groups
  {
    if groups != [] {
      FindAllEmptyFilter(groups[1..]);
      assert groups == [groups[0]] + groups[1..];
    }
  }

  /** `getGroups`: 200 with exactly the groups that match the supplied
      parameters; with neither supplied, with every group, in order. */
  function GetGroups(groups: seq<Group>, domain: Option<string>, level: Option<string>): (reply: Reply<Body>)
    ensures reply.status == 200 && reply.body.GroupList?
    ensures forall g :: g in reply.body.groups <==>
              g in groups
              && (Truthy(domain) ==> DomainName(g.domain) == domain.value)
              && (Truthy(level) ==> LevelName(g.level) == level.value)
    ensures !Truthy(domain) && !Truthy(level) ==> reply.body.groups == groups
  {
    FindAllEmptyFilter(groups);
    Reply(200, GroupList(FindAll(groups, BuildFilter(domain, level))))
  }

  /** The member ids that name an existing user, in member order. */
  function ExistingMembers(members: seq<ObjectId>, users: seq<User>): (r: seq<ObjectId>)
    ensures |r| <= |members|
    ensures (forall m :: m in members ==> FindById(users, m).Some?) ==> r == members
  {
    if members == [] then []
    else
      assert members == [members[0]] + members[1..];
      (if FindById(users, members[0]).Some? then [members[0]] else []) + ExistingMembers(members[1..], users)
  }

  /** Exactly the members whose user exists are kept. */
  lemma {:induction false} ExistingMembersIff(members: seq<ObjectId>, users: seq<User>)
    ensures forall m :: m in ExistingMembers(members, users) <==> m in members && FindById(users, m).Some?
  {
    if members != [] {
      ExistingMembersIff(members[1..], users);
      assert forall m :: m in members <==> m == members[0] || m in members[1..];
    }
  }

  /** A user as a populated member entry shows it. */
  function Info(u: User): MemberInfo
  {
    MemberInfo(u.id, u.name, u.email)
  }

  /** `populate("members", "name email")`: each member id replaced by the
      user's name and e-mail, in member order; ids of users that do not
      exist are dropped and nothing else is. */
  function Populate(members: seq<ObjectId>, users: seq<User>): (r: seq<MemberInfo>)
    ensures |r| == |ExistingMembers(members, users)|
    ensures forall i :: 0 <= i < |r| ==>
              var m := ExistingMembers(members, users)[i];
              FindById(users, m).Some? && r[i] == Info(FindById(users, m).value)
    ensures |r| <= |members|
    ensures (forall m :: m in members ==> FindById(users, m).Some?) ==> |r| == |members|
    ensures forall i :: 0 <= i < |r| ==>
              r[i].id in members && FindById(users, r[i].id).Some? && r[i] == Info(FindById(users, r[i].id).value)
  {
    var e := ExistingMembers(members, users);
    ExistingMembersIff(members, users);
    assert forall i :: 0 <= i < |e| ==> e[i] in e;
    seq(|e|, i requires 0 <= i < |e| => Info(FindById(users, e[i]).value))
  }

  /** Extending the member list by one id extends the existing members by
      that id exactly when its user exists. */
  lemma {:induction false} ExistingMembersAppend(members: seq<ObjectId>, m: ObjectId, users: seq<User>)
    ensures ExistingMembers(members + [m], users)
              == ExistingMembers(members, users) + (if FindById(users, m).Some? then [m] else [])
  {
    var last: seq<ObjectId> := if FindById(users, m).Some? then [m] else [];
    if members == [] {
      assert [] + [m] == [m];
      assert ExistingMembers([m], users) == last + ExistingMembers([m][1..], users);
    } else {
      var ext := members + [m];
      assert ext[0] == members[0] && ext[1..] == members[1..] + [m];
      ExistingMembersAppend(members[1..], m, users);
      var head: seq<ObjectId> := if FindById(users, members[0]).Some? then [members[0]] else [];
      assert ExistingMembers(ext, users) == head + ExistingMembers(ext[1..], users);
      assert ExistingMembers(members, users) == head + ExistingMembers(members[1..], users);
      assert head + (ExistingMembers(members[1..], users) + last) == (head + ExistingMembers(members[1..], users)) + last;
    }
  }

  /** Populating a member list extended by one id extends the entries by
      that user's entry, when the user exists. */
  lemma PopulateAppend(members: seq<ObjectId>, m: ObjectId, users: seq<User>)
    ensures Populate(members + [m], users)
              == Populate(members, users) + (if FindById(users, m).Some? then [Info(FindById(users, m).value)] else [])
  {
    ExistingMembersAppend(members, m, users);
    var a := Populate(members + [m], users);
    var b := Populate(members, users) + (if FindById(users, m).Some? then [Info(FindById(users, m).value)] else []);
    var e := ExistingMembers(members, users);
    assert |a| == |b|;
    forall i | 0 <= i < |a| ensures a[i] == b[i] {
      if i < |e| {
        assert ExistingMembers(members + [m], users)[i] == e[i];
      } else {
        assert ExistingMembers(members + [m], users)[i] == m;
      }
    }
  }

  /** `getGroupMembers`: 404 for an unknown group, otherwise 200 with the
      entries of exactly its existing members, in member order. */
  function GetGroupMembers(groups: seq<Group>, users: seq<User>, groupId: ObjectId): (reply: Reply<Body>)
    ensures groupId >= |groups| ==> reply == Reply(404, Note(GroupNotFound))
    ensures groupId < |groups| ==>
              && reply.status == 200 && reply.body.MemberList?
              && (forall i :: 0 <= i < |reply.body.members| ==>
                    reply.body.members[i].id in groups[groupId].members)
              && |reply.body.members| == |ExistingMembers(groups[groupId].members, users)|
              && (forall i :: 0 <= i < |reply.body.members| ==>
                    var m := ExistingMembers(groups[groupId].members, users)[i];
                    FindById(users, m).Some? && reply.body.members[i] == Info(FindById(users, m).value))
  {
    if groupId >= |groups| then Reply(404, Note(GroupNotFound))
    else Reply(200, MemberList(Populate(groups[groupId].members, users)))
  }

  /** After a successful `joinGroup` by an existing user, the member list
      is the previous one followed by that user's entry. */
  lemma JoinedMemberIsListedLast(groups: seq<Group>, users: seq<User>, groupId: ObjectId, userId: ObjectId)
    requires groupId < |groups| && FindById(users, userId).Some?
    ensures var g := groups[groupId];
            var after := groups[groupId := g.(members := g.members + [userId])];
            GetGroupMembers(after, users, groupId).body.members
              == GetGroupMembers(groups, users, groupId).body.members + [Info(FindById(users, userId).value)]
  {
    PopulateAppend(groups[groupId].members, userId, users);
  }

  class GroupCollection {
    var groups: seq<Group>

    /** Ids are assigned in insertion order. */
    ghost predicate Valid()
      reads this
    {
      forall i :: 0 <= i < |groups| ==> groups[i].id == i
    }

    constructor ()
      ensures Valid() && groups == []
    {
      groups := [];
    }

    /** `joinOrCreateGroup`. A group with an empty member list is created
        only when none exists for (domain, level), and it stays created
        even if the rest fails. A user who already belongs gets 400 and
        nothing changes. Otherwise the user is appended to the members and
        `{ domain, level }` is added to the user's skills if absent. A
        domain or level outside the enums fails the creation with a 500.
        At most one group per pair and duplicate-free member lists are
        kept. */
    method JoinOrCreate(users: UserTable, userId: ObjectId, domain: string, level: string) returns (reply: Reply<Body>)
      requires Valid() && users.Valid()
      modifies this, users
      ensures Valid() && users.Valid()
      ensures UniqueKeys(old(groups)) ==> UniqueKeys(groups)
      ensures MembersDistinct(old(groups)) ==> MembersDistinct(groups)
      ensures reply.status == 200 ==>
                var k := FindGroup(groups, domain, level);
                k.Some? && userId in groups[k.value].members
      ensures FindGroup(old(groups), domain, level).None? && (ParseDomain(domain).None? || ParseLevel(level).None?) ==>
                reply == Reply(500, ErrorBody(ValidationFailed))
                && groups == old(groups) && users.users == old(users.users)
      ensures FindGroup(old(groups), domain, level).None? && ParseDomain(domain).Some? && ParseLevel(level).Some? ==>
                var g := Group(|old(groups)|, ParseDomain(domain).value, ParseLevel(level).value, [userId]);
                && groups == old(groups) + [g]
                && reply == Reply(200, JoinedGroup("Joined successfully", g))
                && (userId < |old(users.users)| ==>
                      var u := old(users.users)[userId];
                      users.users == UpdateSkillsOf(old(users.users), userId,
                                       AddToSet(if u.skills.Some? then u.skills.value else [], Skill(domain, level))))
                && (userId >= |old(users.users)| ==> users.users == old(users.users))
      ensures FindGroup(old(groups), domain, level).Some? ==>
                var i := FindGroup(old(groups), domain, level).value;
                var g := old(groups)[i];
                && (userId in g.members ==>
                      reply == Reply(400, Note(AlreadyJoined))
                      && groups == old(groups) && users.users == old(users.users))
                && (userId !in g.members ==>
                      groups == old(groups)[i := g.(members := g.members + [userId])]
                      && reply == Reply(200, JoinedGroup("Joined successfully", groups[i]))
                      && (userId < |old(users.users)| ==>
                            var u := old(users.users)[userId];
                            users.users == UpdateSkillsOf(old(users.users), userId,
                                             AddToSet(if u.skills.Some? then u.skills.value else [], Skill(domain, level))))
                      && (userId >= |old(users.users)| ==> users.users == old(users.users)))
    {
      var found := FindGroup(groups, domain, level);
      var i: nat;
      if found.None? {
        var d, l := ParseDomain(domain), ParseLevel(level);
        if d.None? || l.None? {
          reply := Reply(500, ErrorBody(ValidationFailed));
          return;
        }
        i := |groups|;
        groups := groups + [Group(i, d.value, l.value, [])];
      } else {
        i := found.value;
      }
      var g := groups[i];
      if userId in g.members {
        reply := Reply(400, Note(AlreadyJoined));
        return;
      }
      ghost var before := groups;
      groups := groups[i := g.(members := g.members + [userId])];
      if found.None? {
        assert g.members + [userId] == [userId];
        assert groups == before[..i] + [g.(members := [userId])];
        FindGroupAfterCreate(before[..i], domain, level, g.(members := [userId]));
        AppendGroupKeepsInvariants(before[..i], g.(members := [userId]), domain, level);
      } else {
        FindGroupAfterUpdate(before, domain, level, i, g.(members := g.members + [userId]));
        AddMemberKeepsInvariants(before, i, userId);
      }
      users.AddSkill(userId, Skill(domain, level));
      reply := Reply(200, JoinedGroup("Joined successfully", groups[i]));
    }

    /** `joinGroup`: 404 for an unknown group and 400 for a member, both
        changing nothing; otherwise the user is appended to the members.
        Skills are never touched. */
    method JoinGroup(groupId: ObjectId, userId: ObjectId) returns (reply: Reply<Body>)
      requires Valid()
      modifies this
      ensures Valid()
      ensures MembersDistinct(old(groups)) ==> MembersDistinct(groups)
      ensures UniqueKeys(old(groups)) ==> UniqueKeys(groups)
      ensures groupId >= |old(groups)| ==> reply == Reply(404, Note(GroupNotFound)) && groups == old(groups)
      ensures groupId < |old(groups)| && userId in old(groups)[groupId].members ==>
                reply == Reply(400, Note(AlreadyJoined)) && groups == old(groups)
      ensures groupId < |old(groups)| && userId !in old(groups)[groupId].members ==>
                var g := old(groups)[groupId];
                reply == Reply(200, Note("Joined group successfully"))
                && groups == old(groups)[groupId := g.(members := g.members + [userId])]
    {
      if groupId >= |groups| {
        reply := Reply(404, Note(GroupNotFound));
        return;
      }
      var g := groups[groupId];
      if userId in g.members {
        reply := Reply(400, Note(AlreadyJoined));
        return;
      }
      AddMemberKeepsInvariants(groups, groupId, userId);
      groups := groups[groupId := g.(members := g.members + [userId])];
      reply := Reply(200, Note("Joined group successfully"));
    }
  }
}
