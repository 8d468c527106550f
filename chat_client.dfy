/** The chat page's state updates: how each server event changes the
    message list, the member list and the list of typing users, and the
    avatar initials and colour of a user name. */
module ChatClient {
  import opened Common
  import opened Text

  type UserId = string

  /** A message as the page holds it; `kind` is the message's `type`. */
  datatype ChatMessage = ChatMessage(senderId: UserId, senderName: string, content: string, kind: string, createdAt: string)

  datatype Member = Member(userId: UserId, userName: string, isOnline: bool)

  /** The server events the page listens to. */
  datatype ServerEvent =
    | RoomHistory(history: seq<ChatMessage>)
    | ChatMessageIn(message: ChatMessage)
    | SystemMessage(message: ChatMessage)
    | RoomMembers(memberList: seq<Member>)
    | UserOnline(userId: UserId)
    | UserOffline(userId: UserId)
    | UserTyping(userId: UserId, userName: string, isTyping: bool)

  /** The state the events update: `messages`, `members`, `typingUsers`. */
  datatype View = View(messages: seq<ChatMessage>, members: seq<Member>, typingUsers: seq<string>)

  const InitialView := View([], [], [])

  predicate NoDuplicates(s: seq<string>)
  {
    forall i, j :: 0 <= i < j < |s| ==> s[i] != s[j]
  }

  /** `members.map(m => m.userId === id ? { ...m, isOnline } : m)`: only the
      members with that id change, and only in `isOnline`; length, order
      and every other member are kept. */
  function SetOnline(members: seq<Member>, id: UserId, online: bool): (r: seq<Member>)
    ensures |r| == |members|
    ensures forall i :: 0 <= i < |r| ==>
              if members[i].userId == id then r[i] == members[i].(isOnline := online) else r[i] == members[i]
  {
    if members == [] then []
    else
      var m := members[0];
      [if m.userId == id then m.(isOnline := online) else m] + SetOnline(members[1..], id, online)
  }

  /** The first entry of a duplicate-free list is not in its tail, and
      the tail is duplicate-free. */
  lemma NoDuplicatesTail(users: seq<string>)
    requires users != [] && NoDuplicates(users)
    ensures NoDuplicates(users[1..]) && users[0] !in users[1..]
  {
    forall i, j | 0 <= i < j < |users[1..]| ensures users[1..][i] != users[1..][j] {
      assert users[1..][i] == users[i + 1] && users[1..][j] == users[j + 1];
    }
  }

  /** One step of the filter keeps the membership law. */
  lemma RemoveStepMembers(users: seq<string>, name: string, rest: seq<string>)
    requires users != []
    requires forall n :: n in rest <==> n in users[1..] && n != name
    ensures var r := if users[0] == name then rest else [users[0]] + rest;
            forall n :: n in r <==> n in users && n != name
  {
    assert users == [users[0]] + users[1..];
  }

  /** One step of the filter keeps a duplicate-free list duplicate-free. */
  lemma RemoveStepDistinct(users: seq<string>, name: string, rest: seq<string>)
    requires users != [] && NoDuplicates(users)
    requires NoDuplicates(rest) && forall n :: n in rest ==> n in users[1..]
    ensures NoDuplicates(if users[0] == name then rest else [users[0]] + rest)
  {
    NoDuplicatesTail(users);
    if users[0] != name {
      var r := [users[0]] + rest;
      forall i, j | 0 <= i < j < |r| ensures r[i] != r[j] {
        assert r[j] == rest[j - 1];
        if i > 0 { assert r[i] == rest[i - 1]; }
      }
    }
  }

  /** When the head is `name`, the filtered tail is the list with its
      only `name` entry cut out. */
  lemma CutAtHead(users: seq<string>, name: string, rest: seq<string>, k: nat)
    requires k < |users| && users[k] == name && users[0] == name && NoDuplicates(users)
    requires rest == users[1..]
    ensures rest == users[..k] + users[k + 1..]
  {
    assert k == 0;
    assert users[..0] + users[1..] == users[1..];
  }

  /** When `name` sits after the head, keeping the head in front of the
      cut tail cuts the same entry out of the whole list. */
  lemma CutAfterHead(users: seq<string>, rest: seq<string>, k: nat)
    requires 0 < k < |users|
    requires rest == users[1..][..k - 1] + users[1..][k..]
    ensures [users[0]] + rest == users[..k] + users[k + 1..]
  {
    var tail := users[1..];
    assert [users[0]] + tail[..k - 1] == users[..k];
    assert tail[k..] == users[k + 1..];
  }

  /** `typingUsers.filter(n => n !== name)`: `name` disappears, every other
      name stays in its order, and no duplicate is introduced. Without
      `name` the list is unchanged; in a duplicate-free list exactly the
      one entry equal to `name` is cut out. */
  function RemoveName(users: seq<string>, name: string): (r: seq<string>)
    ensures forall n :: n in r <==> n in users && n != name
    ensures |r| <= |users|
    ensures NoDuplicates(users) ==> NoDuplicates(r)
    ensures name !in users ==> r == users
    ensures NoDuplicates(users) ==>
              forall k :: 0 <= k < |users| && users[k] == name ==> r == users[..k] + users[k + 1..]
  {
    if users == [] then []
    else
      var rest := RemoveName(users[1..], name);
      RemoveStepMembers(users, name, rest);
      assert name !in users ==> rest == users[1..] by {
        assert users == [users[0]] + users[1..];
      }
      assert NoDuplicates(users) ==> NoDuplicates(if users[0] == name then rest else [users[0]] + rest) by {
        if NoDuplicates(users) {
          NoDuplicatesTail(users);
          RemoveStepDistinct(users, name, rest);
        }
      }
      assert NoDuplicates(users) ==>
               forall k :: 0 <= k < |users| && users[k] == name ==>
                 (if users[0] == name then rest else [users[0]] + rest) == users[..k] + users[k + 1..] by {
        if NoDuplicates(users) {
          NoDuplicatesTail(users);
          forall k | 0 <= k < |users| && users[k] == name
            ensures (if users[0] == name then rest else [users[0]] + rest) == users[..k] + users[k + 1..]
          {
            if users[0] == name {
              CutAtHead(users, name, rest, k);
            } else {
              assert k > 0 && users[1..][k - 1] == name;
              CutAfterHead(users, rest, k);
            }
          }
        }
      }
      if users[0] == name then rest else [users[0]] + rest
  }

  /** The update of `typingUsers` for one typing event about `name`:
      starting to type adds the name at the end only if it is absent,
      stopping removes it; every other name keeps its membership. */
  function Typing(users: seq<string>, name: string, isTyping: bool): (r: seq<string>)
    ensures forall n :: n != name ==> (n in r <==> n in users)
    ensures name in r <==> isTyping
    ensures isTyping ==> |users| <= |r| <= |users| + 1 && r[..|users|] == users
    ensures NoDuplicates(users) ==> NoDuplicates(r)
    ensures !isTyping ==> r == RemoveName(users, name)
  {
    if isTyping then (if name in users then users else users + [name])
    else RemoveName(users, name)
  }

  /** The effect of one server event on the page, for the user `me`. */
  function Apply(me: UserId, v: View, e: ServerEvent): (r: View)
    ensures e.RoomHistory? ==> r.messages == e.history && r.members == v.members && r.typingUsers == v.typingUsers
    ensures e.ChatMessageIn? ==>
              |r.messages| == |v.messages| + 1 && r.messages[..|v.messages|] == v.messages
              && r.messages[|v.messages|] == e.message
              && r.members == v.members && r.typingUsers == v.typingUsers
    ensures e.SystemMessage? ==>
              |r.messages| == |v.messages| + 1 && r.messages[..|v.messages|] == v.messages
              && r.messages[|v.messages|] == e.message.(kind := "system")
              && r.members == v.members && r.typingUsers == v.typingUsers
    ensures e.RoomMembers? ==>
              r.members == e.memberList && r.messages == v.messages && r.typingUsers == v.typingUsers
    ensures (e.UserOnline? || e.UserOffline?) ==>
              r.messages == v.messages && r.typingUsers == v.typingUsers && |r.members| == |v.members|
              && forall i :: 0 <= i < |v.members| ==>
                   r.members[i].userId == v.members[i].userId && r.members[i].userName == v.members[i].userName
                   && r.members[i].isOnline == if v.members[i].userId == e.userId then e.UserOnline? else v.members[i].isOnline
    ensures e.UserTyping? && e.userId == me ==> r == v
    ensures e.UserTyping? ==> r.messages == v.messages && r.members == v.members
    ensures e.UserTyping? && e.userId != me ==>
              (forall n :: n != e.userName ==> (n in r.typingUsers <==> n in v.typingUsers))
              && (e.userName in r.typingUsers <==> e.isTyping)
    ensures NoDuplicates(v.typingUsers) ==> NoDuplicates(r.typingUsers)
  {
    match e
    case RoomHistory(h) => v.(messages := h)
    case ChatMessageIn(m) => v.(messages := v.messages + [m])
    case SystemMessage(m) => v.(messages := v.messages + [m.(kind := "system")])
    case RoomMembers(list) => v.(members := list)
    case UserOnline(id) => v.(members := SetOnline(v.members, id, true))
    case UserOffline(id) => v.(members := SetOnline(v.members, id, false))
    case UserTyping(id, name, isTyping) =>
      if id == me then v else v.(typingUsers := Typing(v.typingUsers, name, isTyping))
  }

  /** The page after a sequence of events, in arrival order. */
  function ApplyAll(me: UserId, v: View, events: seq<ServerEvent>): View
    decreases |events|
  {
    if events == [] then v else ApplyAll(me, Apply(me, v, events[0]), events[1..])
  }

  /** Whatever events arrive, a duplicate-free typing list stays duplicate-free. */
  lemma {:induction false} TypingStaysDuplicateFree(me: UserId, v: View, events: seq<ServerEvent>)
    requires NoDuplicates(v.typingUsers)
    ensures NoDuplicates(ApplyAll(me, v, events).typingUsers)
    decreases |events|
  {
    if events != [] {
      TypingStaysDuplicateFree(me, Apply(me, v, events[0]), events[1..]);
    }
  }

  /** Chat and system messages only ever append: what was on the page stays,
      in its place, until a `room:history` replaces the whole list. */
  lemma {:induction false} MessagesOnlyGrow(me: UserId, v: View, events: seq<ServerEvent>)
    requires forall k :: 0 <= k < |events| ==> !events[k].RoomHistory?
    ensures |ApplyAll(me, v, events).messages| >= |v.messages|
    ensures ApplyAll(me, v, events).messages[..|v.messages|] == v.messages
    decreases |events|
  {
    if events != [] {
      var w := Apply(me, v, events[0]);
      assert |w.messages| >= |v.messages| && w.messages[..|v.messages|] == v.messages;
      MessagesOnlyGrow(me, w, events[1..]);
      var r := ApplyAll(me, v, events).messages;
      assert r[..|w.messages|] == w.messages;
      assert r[..|v.messages|] == r[..|w.messages|][..|v.messages|];
    }
  }

  /** The first character of each word, an empty word contributing nothing
      (`w[0]` is `undefined` there and joins as ""). */
  function FirstLetters(words: seq<string>): string
  {
    if words == [] then ""
    else (if words[0] == "" then "" else [words[0][0]]) + FirstLetters(words[1..])
  }

  /** The characters of `s` that start a word: not a space, and at the
      beginning or after a space (`atStart` says whether the position
      before `s` counts as a word break). */
  function WordStarts(s: string, atStart: bool): string
  {
    if s == [] then ""
    else if s[0] == ' ' then WordStarts(s[1..], true)
    else (if atStart then [s[0]] else "") + WordStarts(s[1..], false)
  }

  /** Taking the first letter of every piece of `split(" ")` is taking every
      character that starts a word. */
  lemma {:induction false} FirstLettersOfSplit(s: string)
    ensures FirstLetters(Split(s, ' ')) == WordStarts(s, true)
    ensures FirstLetters(Split(s, ' ')[1..]) == WordStarts(s, false)
  {
    if s != [] {
      FirstLettersOfSplit(s[1..]);
      var rest := Split(s[1..], ' ');
      if s[0] == ' ' {
        assert Split(s, ' ') == [""] + rest;
        assert Split(s, ' ')[1..] == rest;
      } else {
        var parts := Split(s, ' ');
        assert parts == [[s[0]] + rest[0]] + rest[1..];
        assert parts[1..] == rest[1..];
      }
    }
  }

  /** `getAvatar(name).initials`:
      `name.split(" ").map(w => w[0]).join("").toUpperCase().slice(0, 2)`. */
  function Initials(name: string): string
  {
    var letters := ToUpper(FirstLetters(Split(name, ' ')));
    if |letters| <= 2 then letters else letters[..2]
  }

  /** The initials are at most two characters: the upper-cased first
      characters of the first two words. */
  lemma InitialsAreWordStarts(name: string)
    ensures |Initials(name)| <= 2
    ensures var starts := WordStarts(name, true);
            |Initials(name)| == if |starts| < 2 then |starts| else 2
    ensures forall i :: 0 <= i < |Initials(name)| ==> Initials(name)[i] == UpperChar(WordStarts(name, true)[i])
  {
    FirstLettersOfSplit(name);
  }

  const AvatarColors: seq<string> := ["#34d399", "#60a5fa", "#f472b6", "#fbbf24", "#a78bfa", "#fb923c"]

  /** `getAvatar(name).color`: picked by the first character's code modulo
      the six colours; an empty name has no first character, and the
      lookup yields `undefined`. */
  function AvatarColor(name: string): (r: Option<string>)
    ensures name == "" <==> r.None?
    ensures r.Some? ==> r.value in AvatarColors
  {
    if name == "" then None else Some(AvatarColors[(name[0] as int) % |AvatarColors|])
  }
}
