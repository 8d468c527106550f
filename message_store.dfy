/** The `Message` collection shared by the socket server and the message
    controller: an append-only log of chat messages, and the ordered
    per-group read that `getMessages` performs on it. */
module MessageStore {
  import opened Common

  /** A stored chat message: the `Message` document with its id and the
      `createdAt` time the database gives it. */
  datatype Message = Message(id: ObjectId, group: ObjectId, sender: ObjectId, content: string, createdAt: int)

  /** The fields handed to `Message.create`. */
  datatype Draft = Draft(group: ObjectId, sender: ObjectId, content: string)

  /** What the database does with one `Message.create`: it stores the
      document at creation time `createdAt`, or the call throws. */
  datatype WriteOutcome = Stored(createdAt: int) | Failed(reason: string)

  /** The document that `Message.create(d)` stores as the `id`-th message. */
  function Record(d: Draft, id: ObjectId, createdAt: int): Message
  {
    Message(id, d.group, d.sender, d.content, createdAt)
  }

  /** The `Message` collection. Ids are assigned in insertion order. */
  class MessageCollection {
    var messages: seq<Message>

    ghost predicate Valid()
      reads this
    {
      forall i :: 0 <= i < |messages| ==> messages[i].id == i
    }

    constructor ()
      ensures Valid() && messages == []
    {
      messages := [];
    }

    /** `Message.create(d)`: on success the new record is appended and
        returned; on failure nothing is stored and the error is returned. */
    method Create(d: Draft, outcome: WriteOutcome) returns (r: Result<Message>)
      requires Valid()
      modifies this
      ensures Valid()
      ensures outcome.Stored? ==>
                r == Ok(Record(d, |old(messages)|, outcome.createdAt))
                && messages == old(messages) + [r.value]
      ensures outcome.Failed? ==> r == Err(outcome.reason) && messages == old(messages)
    {
      match outcome
      case Stored(createdAt) =>
        r := Ok(Record(d, |messages|, createdAt));
        messages := messages + [r.value];
      case Failed(reason) =>
        r := Err(reason);
    }
  }

  /** `Message.find({ group: g })`: the messages of group `g`, in log order. */
  function ByGroup(log: seq<Message>, g: ObjectId): (r: seq<Message>)
    ensures |r| <= |log|
    ensures forall i :: 0 <= i < |r| ==> r[i].group == g && r[i] in log
  {
    if log == [] then []
    else (if log[0].group == g then [log[0]] else []) + ByGroup(log[1..], g)
  }

  /** The filter keeps each message of group `g` as often as the log holds
      it, and drops every message of any other group. */
  lemma {:induction false} ByGroupCount(log: seq<Message>, g: ObjectId, m: Message)
    ensures multiset(ByGroup(log, g))[m] == if m.group == g then multiset(log)[m] else 0
  {
    if log != [] {
      ByGroupCount(log[1..], g, m);
      var head: seq<Message> := if log[0].group == g then [log[0]] else [];
      assert ByGroup(log, g) == head + ByGroup(log[1..], g);
      assert multiset(ByGroup(log, g)) == multiset(head) + multiset(ByGroup(log[1..], g));
      assert log == [log[0]] + log[1..];
      assert multiset(log) == multiset{log[0]} + multiset(log[1..]);
    }
  }

  /** Oldest first: `createdAt` never decreases along the sequence. */
  ghost predicate Ascending(s: seq<Message>)
  {
    forall i, j :: 0 <= i < j < |s| ==> s[i].createdAt <= s[j].createdAt
  }

  /** A message no newer than any of an ascending sequence can go first. */
  lemma AscendingCons(x: Message, t: seq<Message>)
    requires Ascending(t)
    requires forall k :: 0 <= k < |t| ==> x.createdAt <= t[k].createdAt
    ensures Ascending([x] + t)
  {
    var r := [x] + t;
    assert forall k :: 1 <= k < |r| ==> r[k] == t[k - 1];
  }

  /** Places `m` into an ascending sequence, before the first message that
      is not older than it. */
  function Insert(m: Message, s: seq<Message>): (r: seq<Message>)
    requires Ascending(s)
    ensures Ascending(r)
    ensures multiset(r) == multiset(s) + multiset{m}
    ensures forall i :: 0 <= i < |r| ==> r[i] == m || r[i] in s
  {
    if s == [] || m.createdAt <= s[0].createdAt then
      AscendingCons(m, s);
      [m] + s
    else
      var t := Insert(m, s[1..]);
      InsertAfterHead(m, s, t);
      [s[0]] + t
  }

  /** The recursive step of `Insert`: keeping the head in front of the
      insertion into the tail. */
  lemma InsertAfterHead(m: Message, s: seq<Message>, t: seq<Message>)
    requires Ascending(s) && s != [] && s[0].createdAt < m.createdAt
    requires Ascending(t) && multiset(t) == multiset(s[1..]) + multiset{m}
    requires forall i :: 0 <= i < |t| ==> t[i] == m || t[i] in s[1..]
    ensures Ascending([s[0]] + t)
    ensures multiset([s[0]] + t) == multiset(s) + multiset{m}
    ensures forall i :: 0 <= i < |[s[0]] + t| ==> ([s[0]] + t)[i] == m || ([s[0]] + t)[i] in s
  {
    assert s == [s[0]] + s[1..];
    forall k | 0 <= k < |t| ensures s[0].createdAt <= t[k].createdAt {
      if t[k] != m {
        var j :| 0 <= j < |s[1..]| && s[1..][j] == t[k];
        assert s[j + 1] == t[k];
      }
    }
    AscendingCons(s[0], t);
  }

  /** `.sort({ createdAt: 1 })`: the same messages, oldest first. */
  function SortByCreatedAt(s: seq<Message>): (r: seq<Message>)
    ensures Ascending(r)
    ensures multiset(r) == multiset(s)
  {
    if s == [] then []
    else
      assert s == [s[0]] + s[1..];
      Insert(s[0], SortByCreatedAt(s[1..]))
  }

  /** The history of group `g` as `getMessages` reads it: the messages of
      `g`, oldest first. */
  function History(log: seq<Message>, g: ObjectId): (r: seq<Message>)
    ensures Ascending(r)
    ensures multiset(r) == multiset(ByGroup(log, g))
  {
    SortByCreatedAt(ByGroup(log, g))
  }

  /** The history holds exactly the messages of group `g` in the log, each
      as often as it was stored, and none of any other group. */
  lemma HistoryExact(log: seq<Message>, g: ObjectId, m: Message)
    ensures multiset(History(log, g))[m] == if m.group == g then multiset(log)[m] else 0
    ensures m in History(log, g) <==> m in log && m.group == g
  {
    ByGroupCount(log, g, m);
    assert m in History(log, g) <==> m in multiset(History(log, g));
    assert m in log <==> m in multiset(log);
  }

  /** Filtering an extended log extends the filtered log by the new
      message exactly when it belongs to the group. */
  lemma {:induction false} ByGroupAppend(log: seq<Message>, m: Message, g: ObjectId)
    ensures ByGroup(log + [m], g) == ByGroup(log, g) + (if m.group == g then [m] else [])
  {
    var last: seq<Message> := if m.group == g then [m] else [];
    if log == [] {
      assert [] + [m] == [m];
      assert ByGroup([m], g) == last + ByGroup([m][1..], g);
    } else {
      var ext := log + [m];
      assert ext[0] == log[0] && ext[1..] == log[1..] + [m];
      ByGroupAppend(log[1..], m, g);
      var head: seq<Message> := if log[0].group == g then [log[0]] else [];
      assert ByGroup(ext, g) == head + ByGroup(ext[1..], g);
      assert ByGroup(log, g) == head + ByGroup(log[1..], g);
      assert head + (ByGroup(log[1..], g) + last) == (head + ByGroup(log[1..], g)) + last;
    }
  }

  /** Appending a message of one group leaves the history of every other
      group as it was, and adds exactly that message to its own group's. */
  lemma HistoryAfterAppend(log: seq<Message>, m: Message, g: ObjectId)
    ensures g != m.group ==> History(log + [m], g) == History(log, g)
    ensures g == m.group ==> multiset(History(log + [m], g)) == multiset(History(log, g)) + multiset{m}
  {
    ByGroupAppend(log, m, g);
    if g != m.group {
      assert ByGroup(log + [m], g) == ByGroup(log, g) + [];
      assert ByGroup(log, g) + [] == ByGroup(log, g);
      assert History(log + [m], g) == SortByCreatedAt(ByGroup(log + [m], g));
    }
  }
}
