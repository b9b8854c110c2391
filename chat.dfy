/** The message list of a chat screen (src/pages/Chat.jsx). Two writers
    change it: the send path, which shows a provisional ("optimistic") entry
    at once and later swaps in the stored message or drops it, and the
    realtime feed, which delivers every message inserted into the
    conversation. Also the presence line under the other user's name. */
module Chat {
  import opened Wrappers
  import opened Strings
  import Seqs

  /** A message as the list holds it. `isOptimistic` marks the provisional
      entry of a send still in flight. */
  datatype Message = Message(id: string, conversation_id: string, sender_id: string, body: string,
                             isOptimistic: bool)

  /** `list.some(m => m.id === id)`. */
  predicate HasId(list: seq<Message>, id: string) {
    exists k :: 0 <= k < |list| && list[k].id == id
  }

  /** No message is shown twice. */
  predicate NoDupIds(list: seq<Message>) {
    forall i, j :: 0 <= i < j < |list| ==> list[i].id != list[j].id
  }

  /** The provisional entry a realtime message can stand for: optimistic, same
      body, same sender. */
  predicate StandsFor(m: Message, incoming: Message) {
    m.isOptimistic && m.body == incoming.body && m.sender_id == incoming.sender_id
  }

  /** The tests handed to `findIndex` and `filter`. */
  function MatchOf(incoming: Message): Message -> bool {
    (m: Message) => StandsFor(m, incoming)
  }

  function WithId(id: string): Message -> bool {
    (m: Message) => m.id == id
  }

  function WithoutId(id: string): Message -> bool {
    (m: Message) => m.id != id
  }

  /** The realtime handler's updater: a known id changes nothing; otherwise
      the first provisional entry the message stands for is replaced in place;
      otherwise the message is appended. */
  function ApplyRemote(prev: seq<Message>, incoming: Message): seq<Message> {
    if HasId(prev, incoming.id) then prev
    else
      var k := Seqs.FindIndex(prev, MatchOf(incoming));
      if k != -1 then prev[k := incoming] else prev + [incoming]
  }

  /** What the realtime updater does, case by case. */
  lemma ApplyRemoteCases(prev: seq<Message>, incoming: Message)
    ensures HasId(prev, incoming.id) ==> ApplyRemote(prev, incoming) == prev
    ensures !HasId(prev, incoming.id) && (exists k :: 0 <= k < |prev| && StandsFor(prev[k], incoming)) ==>
              var r := ApplyRemote(prev, incoming);
              |r| == |prev|
              && exists k :: 0 <= k < |prev| && StandsFor(prev[k], incoming) && r[k] == incoming
                             && (forall j :: 0 <= j < k ==> !StandsFor(prev[j], incoming))
                             && (forall j :: 0 <= j < |prev| && j != k ==> r[j] == prev[j])
    ensures !HasId(prev, incoming.id) && (forall k :: 0 <= k < |prev| ==> !StandsFor(prev[k], incoming)) ==>
              ApplyRemote(prev, incoming) == prev + [incoming]
  {
    var k := Seqs.FindIndex(prev, MatchOf(incoming));
    if !HasId(prev, incoming.id) && k != -1 {
      assert ApplyRemote(prev, incoming) == prev[k := incoming];
    }
  }

  /** Delivering the same realtime message twice has the effect of
      delivering it once. */
  lemma ApplyRemoteIdempotent(prev: seq<Message>, incoming: Message)
    ensures ApplyRemote(ApplyRemote(prev, incoming), incoming) == ApplyRemote(prev, incoming)
  {
    var r := ApplyRemote(prev, incoming);
    if !HasId(prev, incoming.id) {
      var k := Seqs.FindIndex(prev, MatchOf(incoming));
      if k != -1 {
        assert r[k] == incoming;
      } else {
        assert r[|prev|] == incoming;
      }
    }
  }

  /** The send path's success updater as written: the entry with the
      provisional id is replaced in place by the stored message, and nothing
      changes when it is gone. */
  function ConfirmSentAsWritten(prev: seq<Message>, tempId: string, sent: Message): (r: seq<Message>)
    ensures |r| == |prev|
    ensures !HasId(prev, tempId) ==> r == prev
    ensures HasId(prev, tempId) ==>
              exists k :: 0 <= k < |prev| && prev[k].id == tempId && r == prev[k := sent]
                          && forall j :: 0 <= j < k ==> prev[j].id != tempId
  {
    var k := Seqs.FindIndex(prev, WithId(tempId));
    if k != -1 then prev[k := sent] else prev
  }

  /** The failure updater: `prev.filter(m => m.id !== tempId)`. It keeps
      every other entry in its order and drops exactly the entries with the
      provisional id. */
  function RemoveTemp(prev: seq<Message>, tempId: string): (r: seq<Message>)
    ensures !HasId(r, tempId)
    ensures forall k :: 0 <= k < |prev| && prev[k].id != tempId ==> prev[k] in r
    ensures forall k :: 0 <= k < |r| ==> r[k] in prev
    ensures Seqs.IsSubseq(r, prev)
    ensures |r| == |prev| - |Seqs.Filter(prev, WithId(tempId))|
  {
    Seqs.FilterIsSubseq(prev, WithoutId(tempId));
    Seqs.FilterCount(prev, WithoutId(tempId), WithId(tempId));
    Seqs.Filter(prev, WithoutId(tempId))
  }

  /** The success updater with the realtime handler's id check added: when
      the stored message is already listed (the realtime feed was first and
      matched another entry), the provisional entry is dropped instead of
      becoming a second copy. */
  function ConfirmSent(prev: seq<Message>, tempId: string, sent: Message): seq<Message> {
    if HasId(prev, sent.id) then RemoveTemp(prev, tempId) else ConfirmSentAsWritten(prev, tempId, sent)
  }

  /** The provisional entry `handleSend` appends. */
  function TempMessage(tempId: string, conversationId: string, userId: string, text: string): Message {
    Message(tempId, conversationId, userId, text, true)
  }

  /** Appending a message with a new id keeps ids unique. */
  lemma AppendKeepsNoDup(list: seq<Message>, m: Message)
    requires NoDupIds(list) && !HasId(list, m.id)
    ensures NoDupIds(list + [m])
  {
    var r := list + [m];
    forall i, j | 0 <= i < j < |r| ensures r[i].id != r[j].id {
      if j == |list| {
        assert r[i] == list[i];
      } else {
        assert r[i] == list[i] && r[j] == list[j];
      }
    }
  }

  /** Writing a message with a new id over one entry keeps ids unique. */
  lemma ReplaceKeepsNoDup(list: seq<Message>, k: int, m: Message)
    requires NoDupIds(list) && !HasId(list, m.id) && 0 <= k < |list|
    ensures NoDupIds(list[k := m])
  {
  }

  /** Filtering keeps ids unique. */
  lemma RemoveKeepsNoDup(list: seq<Message>, tempId: string)
    requires NoDupIds(list)
    ensures NoDupIds(RemoveTemp(list, tempId))
  {
    var p := WithoutId(tempId);
    var r := Seqs.Filter(list, p);
    Seqs.FilterIsSubseq(list, p);
    SubseqKeepsNoDup(r, list);
  }

  lemma {:induction false} SubseqKeepsNoDup(a: seq<Message>, b: seq<Message>)
    requires Seqs.IsSubseq(a, b) && NoDupIds(b)
    ensures NoDupIds(a)
    decreases |b|
  {
    if a != [] {
      assert NoDupIds(b[1..]) by {
        forall i, j | 0 <= i < j < |b| - 1 ensures b[1..][i].id != b[1..][j].id {
          assert b[1..][i] == b[i + 1] && b[1..][j] == b[j + 1];
        }
      }
      if a[0] == b[0] && Seqs.IsSubseq(a[1..], b[1..]) {
        SubseqKeepsNoDup(a[1..], b[1..]);
        SubseqMembers(a[1..], b[1..]);
        forall j | 0 < j < |a| ensures a[0].id != a[j].id {
          assert a[j] == a[1..][j - 1];
          var m :| 0 <= m < |b[1..]| && b[1..][m] == a[j];
          assert b[m + 1] == a[j];
        }
        forall i, j | 0 <= i < j < |a| ensures a[i].id != a[j].id {
          if i > 0 {
            assert a[i] == a[1..][i - 1] && a[j] == a[1..][j - 1];
          }
        }
      } else {
        SubseqKeepsNoDup(a, b[1..]);
      }
    }
  }

  lemma {:induction false} SubseqMembers(a: seq<Message>, b: seq<Message>)
    requires Seqs.IsSubseq(a, b)
    ensures forall k :: 0 <= k < |a| ==> a[k] in b
    decreases |b|
  {
    if a != [] {
      if a[0] == b[0] && Seqs.IsSubseq(a[1..], b[1..]) {
        SubseqMembers(a[1..], b[1..]);
        assert forall k :: 0 < k < |a| ==> a[k] == a[1..][k - 1];
      } else {
        SubseqMembers(a, b[1..]);
      }
    }
  }

  /** The realtime updater never lists a message twice. */
  lemma ApplyRemoteKeepsNoDup(prev: seq<Message>, incoming: Message)
    requires NoDupIds(prev)
    ensures NoDupIds(ApplyRemote(prev, incoming))
  {
    if !HasId(prev, incoming.id) {
      var k := Seqs.FindIndex(prev, MatchOf(incoming));
      if k != -1 {
        ReplaceKeepsNoDup(prev, k, incoming);
      } else {
        AppendKeepsNoDup(prev, incoming);
      }
    }
  }

  /** The corrected success updater never lists a message twice. */
  lemma ConfirmSentKeepsNoDup(prev: seq<Message>, tempId: string, sent: Message)
    requires NoDupIds(prev)
    ensures NoDupIds(ConfirmSent(prev, tempId, sent))
  {
    if HasId(prev, sent.id) {
      RemoveKeepsNoDup(prev, tempId);
    } else if HasId(prev, tempId) {
      var k :| 0 <= k < |prev| && prev[k].id == tempId && ConfirmSentAsWritten(prev, tempId, sent) == prev[k := sent];
      ReplaceKeepsNoDup(prev, k, sent);
    }
  }

  /** The conditions of a single send: the provisional entry has the text
      and sender of the stored message, its id and the stored message's id are
      new, and no earlier provisional entry has the same text and sender. */
  predicate SingleSend(before: seq<Message>, temp: Message, sent: Message) {
    temp.isOptimistic && temp.body == sent.body && temp.sender_id == sent.sender_id
    && !HasId(before, temp.id) && !HasId(before, sent.id) && sent.id != temp.id
    && forall k :: 0 <= k < |before| ==> !StandsFor(before[k], sent)
  }

  /** The realtime message arriving first takes the provisional entry's
      place. */
  lemma RealtimeReplacesTemp(before: seq<Message>, temp: Message, sent: Message)
    requires SingleSend(before, temp, sent)
    ensures ApplyRemote(before + [temp], sent) == before + [sent]
  {
    var list := before + [temp];
    var n := |before|;
    assert list[n] == temp;
    assert forall k :: 0 <= k < n ==> list[k] == before[k];
    assert !HasId(list, sent.id);
    ApplyRemoteCases(list, sent);
    var r := ApplyRemote(list, sent);
    var k :| 0 <= k < |list| && StandsFor(list[k], sent) && r[k] == sent
             && (forall j :: 0 <= j < |list| && j != k ==> r[j] == list[j]);
    assert k == n;
  }

  /** The success callback as written, arriving first, swaps in the stored
      message. */
  lemma SuccessReplacesTempAsWritten(before: seq<Message>, temp: Message, sent: Message)
    requires SingleSend(before, temp, sent)
    ensures ConfirmSentAsWritten(before + [temp], temp.id, sent) == before + [sent]
  {
    var list := before + [temp];
    var n := |before|;
    assert list[n] == temp;
    assert forall k :: 0 <= k < n ==> list[k] == before[k];
    assert HasId(list, temp.id);
    var r := ConfirmSentAsWritten(list, temp.id, sent);
    var k :| 0 <= k < |list| && list[k].id == temp.id && r == list[k := sent];
    assert k == n;
  }

  /** The success callback with the id check, arriving first, does the
      same. */
  lemma SuccessReplacesTemp(before: seq<Message>, temp: Message, sent: Message)
    requires SingleSend(before, temp, sent)
    ensures ConfirmSent(before + [temp], temp.id, sent) == before + [sent]
  {
    var list := before + [temp];
    assert forall k :: 0 <= k < |before| ==> list[k] == before[k];
    assert list[|before|] == temp;
    assert !HasId(list, sent.id);
    SuccessReplacesTempAsWritten(before, temp, sent);
  }

  /** With a single send in flight the success callback as written is
      already right in either order; the duplicate needs two sends (see
      `DuplicateAfterEarlyRealtime`). */
  lemma OneSendEitherOrderAsWritten(before: seq<Message>, temp: Message, sent: Message)
    requires SingleSend(before, temp, sent)
    ensures ConfirmSentAsWritten(ApplyRemote(before + [temp], sent), temp.id, sent) == before + [sent]
    ensures ApplyRemote(ConfirmSentAsWritten(before + [temp], temp.id, sent), sent) == before + [sent]
  {
    var n := |before|;
    RealtimeReplacesTemp(before, temp, sent);
    SuccessReplacesTempAsWritten(before, temp, sent);
    var after := before + [sent];
    assert !HasId(after, temp.id) by {
      forall k | 0 <= k < |after| ensures after[k].id != temp.id {
        if k < n {
          assert after[k] == before[k];
        }
      }
    }
    assert HasId(after, sent.id) by {
      assert after[n] == sent;
    }
  }

  /** One send, from the list `before` with its provisional entry appended:
      whichever of the success callback and the realtime message is handled
      first, the list ends as `before` with the stored message appended, so
      the message is shown exactly once; on failure the list is `before`. */
  lemma OneSendEitherOrder(before: seq<Message>, temp: Message, sent: Message)
    requires SingleSend(before, temp, sent)
    ensures ConfirmSent(ApplyRemote(before + [temp], sent), temp.id, sent) == before + [sent]
    ensures ApplyRemote(ConfirmSent(before + [temp], temp.id, sent), sent) == before + [sent]
    ensures RemoveTemp(before + [temp], temp.id) == before
  {
    var n := |before|;
    RealtimeReplacesTemp(before, temp, sent);
    var afterRemote := before + [sent];
    assert !HasId(afterRemote, temp.id) by {
      forall k | 0 <= k < |afterRemote| ensures afterRemote[k].id != temp.id {
        if k < n {
          assert afterRemote[k] == before[k];
        }
      }
    }
    assert HasId(afterRemote, sent.id) by {
      assert afterRemote[n] == sent;
    }
    Seqs.FilterAppend(before, [sent], WithoutId(temp.id));
    Seqs.FilterAll(before, WithoutId(temp.id));
    Seqs.FilterAll([sent], WithoutId(temp.id));
    SuccessReplacesTemp(before, temp, sent);
    Seqs.FilterAppend(before, [temp], WithoutId(temp.id));
    assert Seqs.Filter([temp], WithoutId(temp.id)) == [];
  }

  /** Two sends of the same text "ok" by user "u", both still provisional,
      and the stored message of the second send. */
  const Temp1: Message := Message("optimistic-1", "c", "u", "ok", true)
  const Temp2: Message := Message("optimistic-2", "c", "u", "ok", true)
  const Stored2: Message := Message("m2", "c", "u", "ok", false)

  /** The realtime message of the second send, arriving first, takes the
      place of the first provisional entry. */
  lemma EarlyRealtimeTakesFirstEntry()
    ensures ApplyRemote([Temp1, Temp2], Stored2) == [Stored2, Temp2]
  {
    var prev := [Temp1, Temp2];
    assert !HasId(prev, "m2");
    assert Seqs.FindIndex(prev, MatchOf(Stored2)) == 0 by {
      assert MatchOf(Stored2)(prev[0]);
    }
  }

  /** The second send's success then finds its provisional entry still
      listed: the written updater copies the stored message over it, the
      corrected one drops it. */
  lemma SecondSuccessAfterEarlyRealtime()
    ensures ConfirmSentAsWritten([Stored2, Temp2], "optimistic-2", Stored2) == [Stored2, Stored2]
    ensures ConfirmSent([Stored2, Temp2], "optimistic-2", Stored2) == [Stored2]
  {
    var list := [Stored2, Temp2];
    assert HasId(list, "optimistic-2") by { assert list[1].id == "optimistic-2"; }
    var r := ConfirmSentAsWritten(list, "optimistic-2", Stored2);
    var k :| 0 <= k < |list| && list[k].id == "optimistic-2" && r == list[k := Stored2];
    assert k == 1;
    assert HasId(list, "m2") by { assert list[0].id == "m2"; }
    Seqs.FilterAppend([Stored2], [Temp2], WithoutId("optimistic-2"));
    assert [Stored2] + [Temp2] == list;
    Seqs.FilterAll([Stored2], WithoutId("optimistic-2"));
    assert Seqs.Filter([Temp2], WithoutId("optimistic-2")) == [];
  }

  /** When the realtime message of the second of two identical pending sends
      arrives first, the written success updater shows that message twice.
      The corrected updater shows it once. */
  lemma DuplicateAfterEarlyRealtime()
    ensures var list := ApplyRemote([Temp1, Temp2], Stored2);
            list == [Stored2, Temp2]
            && ConfirmSentAsWritten(list, "optimistic-2", Stored2) == [Stored2, Stored2]
            && !NoDupIds(ConfirmSentAsWritten(list, "optimistic-2", Stored2))
            && ConfirmSent(list, "optimistic-2", Stored2) == [Stored2]
  {
    EarlyRealtimeTakesFirstEntry();
    SecondSuccessAfterEarlyRealtime();
    var twice := [Stored2, Stored2];
    assert twice[0].id == twice[1].id;
  }

  /** What the presence line shows. */
  datatype Presence = Offline | Online | LastSeen(at: int)

  /** Two minutes in milliseconds. */
  const OnlineWindow: int := 2 * 60 * 1000

  /** `getLastSeenText()`: `lastSeen` is the other user's `last_seen` in
      milliseconds (`None` when unset) and `now` the clock. */
  function LastSeenText(lastSeen: Option<int>, now: int): Presence {
    if lastSeen.None? then Offline
    else if (now - lastSeen.value) < OnlineWindow then Online
    else LastSeen(lastSeen.value)
  }

  /** A user is shown online exactly when the last heartbeat is less than two
      minutes old, offline exactly when there was none; once shown as last
      seen, later clocks keep showing it until a new heartbeat. */
  lemma PresenceRules(lastSeen: Option<int>, now: int, later: int)
    ensures LastSeenText(lastSeen, now) == Online <==> lastSeen.Some? && now - lastSeen.value < 120000
    ensures LastSeenText(lastSeen, now) == Offline <==> lastSeen.None?
    ensures LastSeenText(lastSeen, now).LastSeen? && now <= later ==>
              LastSeenText(lastSeen, later) == LastSeenText(lastSeen, now)
  {
  }

  /** The chat screen's `messages` and `input` state. */
  class ChatView {
    var messages: seq<Message>
    var input: string

    predicate Valid()
      reads this
    {
      NoDupIds(messages)
    }

    /** The screen opens on the fetched messages, whose ids are unique. */
    constructor (initial: seq<Message>)
      requires NoDupIds(initial)
      ensures Valid() && messages == initial && input == ""
    {
      messages := initial;
      input := "";
    }

    /** The synchronous part of `handleSend`: blank input does nothing;
        otherwise the input is cleared and a provisional entry with the
        trimmed text is appended. `tempId` stands for
        `'optimistic-' + Date.now()`, an id no listed message has. The text
        to send is returned. */
    method BeginSend(conversationId: string, userId: string, tempId: string) returns (text: Option<string>)
      requires Valid() && !HasId(messages, tempId)
      modifies this
      ensures Valid()
      ensures IsBlank(old(input)) ==> text.None? && messages == old(messages) && input == old(input)
      ensures !IsBlank(old(input)) ==>
                text == Some(Trim(old(input))) && input == ""
                && messages == old(messages) + [TempMessage(tempId, conversationId, userId, Trim(old(input)))]
    {
      if IsBlank(input) {
        return None;
      }
      var t := Trim(input);
      input := "";
      AppendKeepsNoDup(messages, TempMessage(tempId, conversationId, userId, t));
      messages := messages + [TempMessage(tempId, conversationId, userId, t)];
      return Some(t);
    }

    /** A realtime insert arrives. */
    method OnRealtime(incoming: Message)
      requires Valid()
      modifies this
      ensures Valid()
      ensures messages == ApplyRemote(old(messages), incoming) && input == old(input)
    {
      ApplyRemoteKeepsNoDup(messages, incoming);
      messages := ApplyRemote(messages, incoming);
    }

    /** `sendMessage` resolved with the stored message. */
    method OnSendSuccess(tempId: string, sent: Message)
      requires Valid()
      modifies this
      ensures Valid()
      ensures messages == ConfirmSent(old(messages), tempId, sent) && input == old(input)
    {
      ConfirmSentKeepsNoDup(messages, tempId, sent);
      messages := ConfirmSent(messages, tempId, sent);
    }

    /** `sendMessage` threw: the text goes back into the input and the
        provisional entry is dropped. */
    method OnSendFailure(tempId: string, text: string)
      requires Valid()
      modifies this
      ensures Valid()
      ensures input == text && messages == RemoveTemp(old(messages), tempId)
    {
      RemoveKeepsNoDup(messages, tempId);
      input := text;
      messages := RemoveTemp(messages, tempId);
    }
  }
}
