/** Conversations (src/hooks/useChat.js): finding the one conversation
    between two users or opening it, listing a user's conversations with the
    other participant's profile, and storing a sent message. */
module UseChat {
  import opened Wrappers
  import Seqs

  /** A row of the `conversations` table. `last_message_at` is a timestamp
      in milliseconds. */
  datatype Conversation = Conversation(
    id: string, participant_ids: seq<string>, last_message: string, last_message_at: int,
    unread_count_per_user: map<string, int>)

  /** A row of the `messages` table. */
  datatype MessageRow = MessageRow(id: string, conversation_id: string, sender_id: string, body: string,
                                   read: bool)

  /** The columns of `users` read for the other participant; `None` is a
      null `avatar_url`. */
  datatype Profile = Profile(display_name: string, avatar_url: Option<string>, last_seen: Option<int>)

  /** A conversation as the list shows it: the row and the other participant. */
  datatype ConversationView = ConversationView(conv: Conversation, other_user: Profile)

  /** The strict pair test: exactly two participants, both ids among them. */
  predicate IsExactPair(c: Conversation, a: string, b: string) {
    |c.participant_ids| == 2 && a in c.participant_ids && b in c.participant_ids
  }

  function PairOf(a: string, b: string): Conversation -> bool {
    (c: Conversation) => IsExactPair(c, a, b)
  }

  /** `.contains('participant_ids', [a, b])`: the rows the query returns. */
  predicate ContainsBoth(c: Conversation, a: string, b: string) {
    a in c.participant_ids && b in c.participant_ids
  }

  function WithBoth(a: string, b: string): Conversation -> bool {
    (c: Conversation) => ContainsBoth(c, a, b)
  }

  /** `existingConvos?.find(...)`: the first returned row that passes the
      strict pair test; `rows` is `None` when the query reports an error and
      `data` is null. */
  function FindPair(rows: Option<seq<Conversation>>, a: string, b: string): Option<Conversation> {
    if rows.None? then None
    else
      var k := Seqs.FindIndex(rows.value, PairOf(a, b));
      if k == -1 then None else Some(rows.value[k])
  }

  /** What the strict test finds among the rows: a row of the list with
      exactly the two users, the first such; nothing only when no row
      qualifies. A conversation of three or more is never returned. */
  lemma FindPairSpec(rows: seq<Conversation>, a: string, b: string)
    ensures FindPair(Some(rows), a, b).Some? ==>
              var c := FindPair(Some(rows), a, b).value;
              c in rows && |c.participant_ids| == 2 && a in c.participant_ids && b in c.participant_ids
    ensures FindPair(Some(rows), a, b).Some? ==>
              exists k :: 0 <= k < |rows| && rows[k] == FindPair(Some(rows), a, b).value
                          && forall j :: 0 <= j < k ==> !IsExactPair(rows[j], a, b)
    ensures FindPair(Some(rows), a, b).None? <==> forall k :: 0 <= k < |rows| ==> !IsExactPair(rows[k], a, b)
  {
  }

  /** The server's containment filter loses no strict pair, so finding in its
      answer is finding in the whole table, in the table's order. */
  lemma FindPairAfterContains(table: seq<Conversation>, a: string, b: string)
    ensures FindPair(Some(Seqs.Filter(table, WithBoth(a, b))), a, b) == FindPair(Some(table), a, b)
  {
    Seqs.FindIndexAfterFilter(table, WithBoth(a, b), PairOf(a, b));
  }

  /** Two different users: a strict pair is the two of them, in either order. */
  lemma ExactPairOfTwo(c: Conversation, a: string, b: string)
    requires a != b && IsExactPair(c, a, b)
    ensures c.participant_ids == [a, b] || c.participant_ids == [b, a]
  {
  }

  /** One user with themself: the strict test also accepts any conversation
      of that user with somebody else, because `includes` is asked the same
      question twice. */
  lemma SelfPairAcceptsPartner(id: string, a: string, x: string, rest: string)
    ensures IsExactPair(Conversation(id, [a, x], rest, 0, map[]), a, a)
  {
  }

  /** The row `getOrCreateConversation` inserts. */
  function NewConversation(id: string, current: string, other: string, now: int): Conversation {
    Conversation(id, [current, other], "Started a new conversation", now, map[current := 0][other := 1])
  }

  /** The new row has the two users in call order, the fixed preview text and
      unread counts 0 for the caller and 1 for the other user; with one user
      twice, the later key of the object literal wins. It passes the strict
      pair test, so the next lookup finds it. */
  lemma NewConversationShape(id: string, current: string, other: string, now: int)
    ensures var c := NewConversation(id, current, other, now);
            c.participant_ids == [current, other]
            && c.last_message == "Started a new conversation"
            && c.unread_count_per_user.Keys == {current, other}
            && c.unread_count_per_user[other] == 1
            && (current != other ==> c.unread_count_per_user[current] == 0)
            && IsExactPair(c, current, other)
  {
  }

  /** Resolving the same two users again after a creation finds the row just
      created: no earlier row was a strict pair, and the new one is. So the
      second call returns the first call's id and inserts nothing, provided
      its lookup succeeds. */
  lemma ResolveTwiceSameId(table: seq<Conversation>, a: string, b: string, id: string, now: int)
    requires FindPair(Some(table), a, b).None?
    ensures FindPair(Some(table + [NewConversation(id, a, b, now)]), a, b) == Some(NewConversation(id, a, b, now))
  {
    var c := NewConversation(id, a, b, now);
    var t := table + [c];
    FindPairSpec(table, a, b);
    NewConversationShape(id, a, b, now);
    assert forall j :: 0 <= j < |table| ==> t[j] == table[j];
    assert t[|table|] == c;
    var k := Seqs.FindIndex(t, PairOf(a, b));
    assert PairOf(a, b)(t[|table|]);
    assert k == |table|;
  }

  /** `conv.participant_ids.find(id => id !== userId) || userId`: the first
      other participant; the user themself when there is none, or when the
      first other id is the empty string (which `||` treats as false). */
  function OtherUser(ids: seq<string>, userId: string): string {
    var k := Seqs.FindIndex(ids, NotId(userId));
    if k == -1 || ids[k] == "" then userId else ids[k]
  }

  function NotId(userId: string): string -> bool {
    (id: string) => id != userId
  }

  /** The other participant is a participant different from the user, the
      first such, whenever one with a non-empty id comes first; otherwise it
      is the user. */
  lemma OtherUserSpec(ids: seq<string>, userId: string)
    ensures OtherUser(ids, userId) == userId || OtherUser(ids, userId) in ids
    ensures OtherUser(ids, userId) != userId ==>
              exists k :: 0 <= k < |ids| && ids[k] == OtherUser(ids, userId)
                          && forall j :: 0 <= j < k ==> ids[j] == userId
    ensures (forall k :: 0 <= k < |ids| ==> ids[k] == userId) ==> OtherUser(ids, userId) == userId
    ensures userId != "" && |ids| == 2 && ids[0] == userId && ids[1] != userId && ids[1] != "" ==>
              OtherUser(ids, userId) == ids[1]
  {
    var k := Seqs.FindIndex(ids, NotId(userId));
    if k != -1 && ids[k] != "" {
      assert ids[k] != userId;
    }
  }

  /** The profile shown when the lookup gives none. */
  const UnknownUser := Profile("Unknown User", None, None)

  /** `fetchConversations(userId)`. `userId` is `None` when falsy, `rows` the
      answer to the conversations query (`Err` on an error) and `users` the
      `users` table by id. */
  function FetchConversations(userId: Option<string>, rows: Result<seq<Conversation>>,
                              users: map<string, Profile>): (r: seq<ConversationView>)
    ensures userId.None? || userId == Some("") || rows.Err? ==> r == []
    ensures userId.Some? && userId.value != "" && rows.Ok? ==>
              |r| == |rows.value|
              && forall k :: 0 <= k < |r| ==>
                   r[k].conv == rows.value[k]
                   && var other := OtherUser(rows.value[k].participant_ids, userId.value);
                      r[k].other_user == (if other in users then users[other] else UnknownUser)
  {
    if userId.None? || userId.value == "" || rows.Err? then []
    else
      seq(|rows.value|, k requires 0 <= k < |rows.value| =>
        var conv := rows.value[k];
        var other := OtherUser(conv.participant_ids, userId.value);
        ConversationView(conv, if other in users then users[other] else UnknownUser))
  }

  /** The view lists the query's rows one for one, in the query's order, and
      a user missing from the table is shown as the fallback profile. */
  lemma FetchConversationsFallback(userId: string, rows: seq<Conversation>, users: map<string, Profile>, k: int)
    requires userId != "" && 0 <= k < |rows|
    requires OtherUser(rows[k].participant_ids, userId) !in users
    ensures FetchConversations(Some(userId), Ok(rows), users)[k].other_user == Profile("Unknown User", None, None)
  {
  }

  /** `update({ last_message, last_message_at }).eq('id', id)` applied to the
      table. */
  function SetLastMessage(table: seq<Conversation>, id: string, text: string, now: int): (r: seq<Conversation>)
    ensures |r| == |table|
  {
    seq(|table|, k requires 0 <= k < |table| =>
      if table[k].id == id then table[k].(last_message := text, last_message_at := now) else table[k])
  }

  /** The update touches only the rows with that id and only their two
      preview columns; participants and unread counts stay. */
  lemma SetLastMessageSpec(table: seq<Conversation>, id: string, text: string, now: int)
    ensures forall k :: 0 <= k < |table| && table[k].id != id ==> SetLastMessage(table, id, text, now)[k] == table[k]
    ensures forall k :: 0 <= k < |table| && table[k].id == id ==>
              var c := SetLastMessage(table, id, text, now)[k];
              c.last_message == text && c.last_message_at == now
              && c.participant_ids == table[k].participant_ids
              && c.unread_count_per_user == table[k].unread_count_per_user
    ensures (forall k :: 0 <= k < |table| ==> table[k].id != id) ==> SetLastMessage(table, id, text, now) == table
  {
    var r := SetLastMessage(table, id, text, now);
    if forall k :: 0 <= k < |table| ==> table[k].id != id {
      assert forall k :: 0 <= k < |table| ==> r[k] == table[k];
    }
  }

  /** The two tables the hook writes. */
  class ChatBackend {
    var conversations: seq<Conversation>
    var messages: seq<MessageRow>

    constructor (convs: seq<Conversation>, msgs: seq<MessageRow>)
      ensures conversations == convs && messages == msgs
    {
      conversations := convs;
      messages := msgs;
    }

    /** `getOrCreateConversation(current, other)`. `selectFails` says the
        lookup query reports an error, `insertFails` that the insert does,
        `newId` and `now` are the id and creation time the table gives a new
        row. An error thrown by the insert is `Err`. */
    method GetOrCreateConversation(current: string, other: string, selectFails: bool, insertFails: bool,
                                   newId: string, now: int) returns (r: Result<string>)
      modifies this
      ensures messages == old(messages)
      ensures var found := if selectFails then None else FindPair(Some(old(conversations)), current, other);
              if found.Some? then r == Ok(found.value.id) && conversations == old(conversations)
              else if insertFails then r.Err? && conversations == old(conversations)
              else r == Ok(newId) && conversations == old(conversations) + [NewConversation(newId, current, other, now)]
    {
      var existing: Option<seq<Conversation>> := None;
      if !selectFails {
        existing := Some(Seqs.Filter(conversations, WithBoth(current, other)));
        FindPairAfterContains(conversations, current, other);
      }
      var found := FindPair(existing, current, other);
      if found.Some? {
        return Ok(found.value.id);
      }
      if insertFails {
        return Err("Error resolving conversation");
      }
      var newConvo := NewConversation(newId, current, other, now);
      conversations := conversations + [newConvo];
      return Ok(newConvo.id);
    }

    /** `sendMessage(conversationId, senderId, text)`. The message is
        inserted unread; only when that succeeds is the conversation's
        preview set to the text, and an error of that update is not looked
        at. `newId` is the id the table gives the new row. */
    method SendMessage(conversationId: string, senderId: string, text: string, insertFails: bool,
                       updateFails: bool, newId: string, now: int) returns (r: Result<MessageRow>)
      modifies this
      ensures insertFails ==> r.Err? && messages == old(messages) && conversations == old(conversations)
      ensures !insertFails ==>
                r == Ok(MessageRow(newId, conversationId, senderId, text, false))
                && messages == old(messages) + [r.value]
                && conversations == (if updateFails then old(conversations)
                                     else SetLastMessage(old(conversations), conversationId, text, now))
    {
      if insertFails {
        return Err("Error sending message");
      }
      var data := MessageRow(newId, conversationId, senderId, text, false);
      messages := messages + [data];
      if !updateFails {
        conversations := SetLastMessage(conversations, conversationId, text, now);
      }
      return Ok(data);
    }
  }
}
