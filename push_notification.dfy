/** The database-webhook function that turns a row change into a
    notification (supabase/functions/push-notification/index.ts): a cascade of
    rules picks the user to notify and the title, body and link; the
    notification is saved, and a web push is sent to each of that user's
    subscriptions, pruning the ones the push service reports gone. */
module PushNotification {
  import opened Wrappers
  import opened Strings
  import Seqs
  import PushSubscribe
  import Base64

  /** A value of the webhook's JSON payload, with JavaScript's `undefined`
      (`Missing`) for a property that is not there. Numbers are integers. */
  datatype Json = Missing | Null | Bool(b: bool) | Num(n: int) | Str(s: string) | Obj(fields: map<string, Json>)

  /** JavaScript truthiness: `undefined`, `null`, `false`, `0` and `""` are
      falsy. */
  predicate Truthy(v: Json) {
    match v
    case Missing => false
    case Null => false
    case Bool(b) => b
    case Num(n) => n != 0
    case Str(s) => s != ""
    case Obj(_) => true
  }

  /** Reading a property of `null` or `undefined` throws a `TypeError`. */
  predicate Nullish(v: Json) {
    v.Missing? || v.Null?
  }

  /** `v.key` for a value that is not nullish; the other primitive values
      have none of the properties the function reads. */
  function Field(v: Json, key: string): Json {
    if v.Obj? && key in v.fields then v.fields[key] else Missing
  }

  /** The text a template literal `${v}` inserts. */
  function ToText(v: Json): string {
    match v
    case Missing => "undefined"
    case Null => "null"
    case Bool(b) => if b then "true" else "false"
    case Num(n) => IntToText(n)
    case Str(s) => s
    case Obj(_) => "[object Object]"
  }

  /** `v || d`. */
  function Or(v: Json, d: string): (r: Json)
    ensures Truthy(v) ==> r == v
    ensures !Truthy(v) ==> r == Str(d)
  {
    if Truthy(v) then v else Str(d)
  }

  /** A row of `tasks`, as the offer rule selects it. */
  datatype TaskRow = TaskRow(created_by: Json, title: Json)

  /** A row of `applications`, as the completion rule selects it. */
  datatype ApplicationRow = ApplicationRow(task_id: Json, status: Json, worker_id: Json)

  /** What the rules read from the database: participants by conversation
      id, `display_name` by user id, tasks by id, and all applications. */
  datatype Db = Db(
    conversations: map<Json, seq<string>>,
    users: map<Json, Json>,
    tasks: map<Json, TaskRow>,
    applications: seq<ApplicationRow>)

  /** The notification a rule produces; also the row written to
      `notifications` (`data: { url }`). */
  datatype Notice = Notice(user: Json, title: Json, body: Json, url: string)

  /** `ids.find(id => id !== sender)`: the first participant other than the
      sender, or `undefined`. */
  function FindOther(ids: seq<string>, sender: Json): (r: Json)
    ensures r.Missing? <==> forall k :: 0 <= k < |ids| ==> Str(ids[k]) == sender
    ensures !r.Missing? ==> exists k :: 0 <= k < |ids| && r == Str(ids[k]) && r != sender
                                         && forall j :: 0 <= j < k ==> Str(ids[j]) == sender
    decreases |ids|
  {
    if ids == [] then Missing
    else if Str(ids[0]) != sender then Str(ids[0])
    else
      var r := FindOther(ids[1..], sender);
      assert !r.Missing? ==> exists k :: 0 <= k < |ids| && r == Str(ids[k]) && r != sender
                                         && forall j :: 0 <= j < k ==> Str(ids[j]) == sender by {
        if !r.Missing? {
          var k :| 0 <= k < |ids| - 1 && r == Str(ids[1..][k]) && r != sender
                   && forall j :: 0 <= j < k ==> Str(ids[1..][j]) == sender;
          assert r == Str(ids[k + 1]);
          forall j | 0 <= j < k + 1 ensures Str(ids[j]) == sender {
            if j > 0 {
              assert ids[j] == ids[1..][j - 1];
            }
          }
        }
      }
      assert r.Missing? ==> forall k :: 0 <= k < |ids| ==> Str(ids[k]) == sender by {
        if r.Missing? {
          forall k | 0 <= k < |ids| ensures Str(ids[k]) == sender {
            if k > 0 {
              assert ids[k] == ids[1..][k - 1];
            }
          }
        }
      }
      r
  }

  /** An application row accepted for the task `taskId`. */
  predicate AcceptedOf(taskId: Json, a: ApplicationRow) {
    a.task_id == taskId && a.status == Str("accepted")
  }

  /** The row filter of the accepted-application query. */
  function AcceptedFor(taskId: Json): ApplicationRow -> bool {
    (a: ApplicationRow) => AcceptedOf(taskId, a)
  }

  /** Row `k` is the one and only accepted application of the task. */
  predicate OnlyAccepted(apps: seq<ApplicationRow>, taskId: Json, k: int) {
    0 <= k < |apps| && AcceptedOf(taskId, apps[k])
    && forall i :: 0 <= i < |apps| && i != k ==> !AcceptedOf(taskId, apps[i])
  }

  /** `.single()` on the accepted applications of a task: the worker of the
      one matching row, and no data when none or several match. */
  function AcceptedWorker(apps: seq<ApplicationRow>, taskId: Json): (r: Option<Json>)
    ensures r.Some? ==> exists k :: 0 <= k < |apps| && AcceptedOf(taskId, apps[k]) && apps[k].worker_id == r.value
    ensures (forall k :: 0 <= k < |apps| ==> !AcceptedOf(taskId, apps[k])) ==> r.None?
  {
    var matching := Seqs.Filter(apps, AcceptedFor(taskId));
    if |matching| == 1 then Some(matching[0].worker_id) else None
  }

  /** `.single()` answers the worker of the only accepted row, and nothing
      as soon as two rows are accepted. */
  lemma AcceptedWorkerSpec(apps: seq<ApplicationRow>, taskId: Json)
    ensures forall k :: OnlyAccepted(apps, taskId, k) ==> AcceptedWorker(apps, taskId) == Some(apps[k].worker_id)
    ensures (exists i, j :: 0 <= i < j < |apps| && AcceptedOf(taskId, apps[i]) && AcceptedOf(taskId, apps[j]))
            ==> AcceptedWorker(apps, taskId).None?
  {
    forall k | OnlyAccepted(apps, taskId, k)
      ensures AcceptedWorker(apps, taskId) == Some(apps[k].worker_id)
    {
      AcceptedWorkerOnly(apps, taskId, k);
    }
    if exists i, j :: 0 <= i < j < |apps| && AcceptedOf(taskId, apps[i]) && AcceptedOf(taskId, apps[j]) {
      var i, j :| 0 <= i < j < |apps| && AcceptedOf(taskId, apps[i]) && AcceptedOf(taskId, apps[j]);
      AcceptedWorkerTwo(apps, taskId, i, j);
    }
  }

  /** The one accepted row gives its worker. */
  lemma AcceptedWorkerOnly(apps: seq<ApplicationRow>, taskId: Json, k: int)
    requires OnlyAccepted(apps, taskId, k)
    ensures AcceptedWorker(apps, taskId) == Some(apps[k].worker_id)
  {
    Seqs.FilterOnly(apps, AcceptedFor(taskId), k);
  }

  /** Two accepted rows give nothing. */
  lemma AcceptedWorkerTwo(apps: seq<ApplicationRow>, taskId: Json, i: int, j: int)
    requires 0 <= i < j < |apps| && AcceptedOf(taskId, apps[i]) && AcceptedOf(taskId, apps[j])
    ensures AcceptedWorker(apps, taskId).None?
  {
    Seqs.FilterTwo(apps, AcceptedFor(taskId), i, j);
  }

  /** The notice of a rule that found `user`, or none when `!user`. */
  function Target(user: Json, title: Json, body: Json, url: string): (r: Option<Notice>)
    ensures r.Some? <==> Truthy(user)
    ensures r.Some? ==> r.value == Notice(user, title, body, url)
  {
    if Truthy(user) then Some(Notice(user, title, body, url)) else None
  }

  /** A new chat message: notify the other participant. */
  function MessageRule(record: Json, db: Db): Option<Notice> {
    var cid := Field(record, "conversation_id");
    var sender := Field(record, "sender_id");
    var user := if cid in db.conversations then FindOther(db.conversations[cid], sender) else Null;
    var name := if sender in db.users then db.users[sender] else Missing;
    Target(user, Or(name, "New Message"), Or(Field(record, "body"), "Sent you a photo"),
           "/messages/" + ToText(cid))
  }

  /** A new offer: notify the task's creator. */
  function OfferRule(record: Json, db: Db): Option<Notice> {
    var tid := Field(record, "task_id");
    if tid in db.tasks then
      var task := db.tasks[tid];
      Target(task.created_by, Str("New Offer!"),
             Str("Someone offered \U{20B9}" + ToText(Field(record, "offer_price")) + " for \""
                 + ToText(task.title) + "\""),
             "/tasks/" + ToText(tid))
    else None
  }

  /** An offer accepted: notify its worker. */
  function AcceptedRule(record: Json): Option<Notice> {
    Target(Field(record, "worker_id"), Str("Offer Accepted! \U{1F389}"),
           Str("Congratulations! Your offer has been accepted."),
           "/tasks/" + ToText(Field(record, "task_id")))
  }

  /** A task completed: notify the worker of its accepted application. */
  function CompletedRule(record: Json, db: Db): Option<Notice> {
    var id := Field(record, "id");
    match AcceptedWorker(db.applications, id)
    case None => None
    case Some(worker) =>
      Target(worker, Str("Job Completed \U{2705}"),
             Str("\"" + ToText(Field(record, "title")) + "\" has been marked as completed."),
             "/tasks/" + ToText(id))
  }

  /** A new review: notify the reviewed worker. */
  function ReviewRule(record: Json): Option<Notice> {
    Target(Field(record, "worker_id"), Str("New Review \U{2B50}"),
           Str("You received a " + ToText(Field(record, "rating")) + "-star review!"), "/profile")
  }

  /** The rule cascade over the parsed payload `{ record, type, old_record }`:
      the first rule whose condition holds decides; `Ok(None)` is "skipped"
      and `Err` a `TypeError` from reading a property of a null record. A
      notice always names a truthy user. */
  function Classify(payload: Json, db: Db): (r: Result<Option<Notice>>)
    ensures r.Ok? && r.value.Some? ==> Truthy(r.value.value.user)
  {
    if Nullish(payload) then Err("TypeError")
    else
      var record := Field(payload, "record");
      var ty := Field(payload, "type");
      var old_record := Field(payload, "old_record");
      var insert := ty == Str("INSERT");
      var update := ty == Str("UPDATE");
      var status := Field(record, "status");
      if (insert || update) && Nullish(record) then Err("TypeError")
      else if insert && Truthy(Field(record, "conversation_id")) then Ok(MessageRule(record, db))
      else if insert && Truthy(Field(record, "task_id")) && Truthy(Field(record, "offer_price")) then
        Ok(OfferRule(record, db))
      else if update && status == Str("accepted") && Nullish(old_record) then Err("TypeError")
      else if update && status == Str("accepted") && Field(old_record, "status") != Str("accepted") then
        Ok(AcceptedRule(record))
      else if update && status == Str("completed") && Nullish(old_record) then Err("TypeError")
      else if update && status == Str("completed") && Field(old_record, "status") != Str("completed")
              && Truthy(Field(record, "title")) then
        Ok(CompletedRule(record, db))
      else if insert && Truthy(Field(record, "rating")) then Ok(ReviewRule(record))
      else Ok(None)
  }

  /** The payload `{ record, type, old_record }` of a row change. */
  function Payload(ty: string, record: Json, old_record: Json): Json {
    Obj(map["type" := Str(ty), "record" := record, "old_record" := old_record])
  }

  /** An inserted row with a conversation id is a chat message, whatever else
      it carries (an offer price, a rating). */
  lemma MessageRuleWins(record: Json, old_record: Json, db: Db)
    requires Truthy(Field(record, "conversation_id"))
    ensures Classify(Payload("INSERT", record, old_record), db) == Ok(MessageRule(record, db))
  {
  }

  /** The message notice goes to the first participant other than the
      sender, falls back to "New Message" and "Sent you a photo", and links to
      the conversation. */
  lemma MessageRuleContent(record: Json, db: Db)
    ensures var r := MessageRule(record, db);
            var cid := Field(record, "conversation_id");
            r.Some? ==> cid in db.conversations
                        && r.value.user == FindOther(db.conversations[cid], Field(record, "sender_id"))
                        && r.value.url == "/messages/" + ToText(cid)
                        && r.value.title == Or(if Field(record, "sender_id") in db.users
                                               then db.users[Field(record, "sender_id")] else Missing,
                                               "New Message")
                        && (Truthy(Field(record, "body")) ==> r.value.body == Field(record, "body"))
                        && (!Truthy(Field(record, "body")) ==> r.value.body == Str("Sent you a photo"))
    ensures var cid := Field(record, "conversation_id");
            cid in db.conversations && Truthy(FindOther(db.conversations[cid], Field(record, "sender_id")))
            ==> MessageRule(record, db).Some?
    ensures Field(record, "conversation_id") !in db.conversations ==> MessageRule(record, db).None?
  {
  }

  /** An offer is recognised only on an insert with a task id and a price and
      without a conversation id; it notifies the task's creator when the task
      exists, with the price and the title in the body. */
  lemma OfferRuleFires(record: Json, old_record: Json, db: Db)
    requires !Truthy(Field(record, "conversation_id"))
    requires Truthy(Field(record, "task_id")) && Truthy(Field(record, "offer_price"))
    ensures var r := Classify(Payload("INSERT", record, old_record), db);
            r == Ok(OfferRule(record, db))
            && (Field(record, "task_id") !in db.tasks ==> r == Ok(None))
            && (r.value.Some? ==>
                  r.value.value.user == db.tasks[Field(record, "task_id")].created_by
                  && r.value.value.url == "/tasks/" + ToText(Field(record, "task_id"))
                  && r.value.value.body.Str?
                  && Includes(r.value.value.body.s, ToText(Field(record, "offer_price")))
                  && Includes(r.value.value.body.s, ToText(db.tasks[Field(record, "task_id")].title)))
  {
    var tid := Field(record, "task_id");
    if tid in db.tasks {
      var price := ToText(Field(record, "offer_price"));
      var title := ToText(db.tasks[tid].title);
      var pre := "Someone offered \U{20B9}";
      var s := pre + price + " for \"" + title + "\"";
      assert s[|pre|..|pre| + |price|] == price;
      IncludesAt(s, price, |pre|);
      var at := |pre| + |price| + |" for \""|;
      assert s[at..at + |title|] == title;
      IncludesAt(s, title, at);
    }
  }

  /** An accepted offer notifies the worker only when the status changes to
      accepted; an update of an already accepted row matches no rule. */
  lemma AcceptedRuleFires(record: Json, old_record: Json, db: Db)
    requires !Nullish(record) && !Nullish(old_record)
    requires Field(record, "status") == Str("accepted")
    ensures Field(old_record, "status") != Str("accepted") ==>
              Classify(Payload("UPDATE", record, old_record), db) == Ok(AcceptedRule(record))
    ensures Field(old_record, "status") == Str("accepted") ==>
              Classify(Payload("UPDATE", record, old_record), db) == Ok(None)
    ensures AcceptedRule(record).Some? ==> AcceptedRule(record).value.user == Field(record, "worker_id")
  {
  }

  /** A completed task notifies the worker of the only accepted application
      that the task is done, linking to the task; it is skipped when there is
      no such application or there are several. */
  lemma CompletedRuleFires(record: Json, old_record: Json, db: Db)
    requires !Nullish(record) && !Nullish(old_record)
    requires Field(record, "status") == Str("completed")
    requires Field(old_record, "status") != Str("completed") && Truthy(Field(record, "title"))
    ensures Classify(Payload("UPDATE", record, old_record), db) == Ok(CompletedRule(record, db))
    ensures forall k :: OnlyAccepted(db.applications, Field(record, "id"), k) ==>
              Classify(Payload("UPDATE", record, old_record), db)
              == if Truthy(db.applications[k].worker_id) then
                   Ok(Some(Notice(db.applications[k].worker_id, Str("Job Completed \U{2705}"),
                                  Str("\"" + ToText(Field(record, "title")) + "\" has been marked as completed."),
                                  "/tasks/" + ToText(Field(record, "id")))))
                 else Ok(None)
    ensures (exists i, j :: 0 <= i < j < |db.applications|
               && AcceptedOf(Field(record, "id"), db.applications[i])
               && AcceptedOf(Field(record, "id"), db.applications[j]))
            ==> Classify(Payload("UPDATE", record, old_record), db) == Ok(None)
    ensures AcceptedWorker(db.applications, Field(record, "id")).None? ==>
              Classify(Payload("UPDATE", record, old_record), db) == Ok(None)
    ensures CompletedRule(record, db).Some? ==>
              Some(CompletedRule(record, db).value.user) == AcceptedWorker(db.applications, Field(record, "id"))
  {
    AcceptedWorkerSpec(db.applications, Field(record, "id"));
  }

  /** A review notifies the reviewed worker, with the rating in the body. */
  lemma ReviewRuleFires(record: Json, old_record: Json, db: Db)
    requires !Truthy(Field(record, "conversation_id"))
    requires !(Truthy(Field(record, "task_id")) && Truthy(Field(record, "offer_price")))
    requires Truthy(Field(record, "rating"))
    ensures Classify(Payload("INSERT", record, old_record), db) == Ok(ReviewRule(record))
    ensures ReviewRule(record).Some? ==>
              ReviewRule(record).value.user == Field(record, "worker_id")
              && Includes(ReviewRule(record).value.body.s, ToText(Field(record, "rating")))
  {
    var rating := ToText(Field(record, "rating"));
    var pre := "You received a ";
    var s := pre + rating + "-star review!";
    assert s[|pre|..|pre| + |rating|] == rating;
    IncludesAt(s, rating, |pre|);
  }

  /** An insert or update whose record is null is a `TypeError`; any other
      type is skipped without the record being read. */
  lemma NullRecord(ty: string, record: Json, old_record: Json, db: Db)
    ensures (ty == "INSERT" || ty == "UPDATE") && Nullish(record) ==>
              Classify(Payload(ty, record, old_record), db).Err?
    ensures ty != "INSERT" && ty != "UPDATE" ==> Classify(Payload(ty, record, old_record), db) == Ok(None)
  {
  }

  /** What a push attempt ends in: delivered, or an error carrying the push
      service's HTTP status code when it answered. */
  datatype Delivery = Delivered | Failed(statusCode: Option<int>)

  /** 410 Gone and 404 Not Found mean the subscription no longer exists. */
  predicate Expired(d: Delivery) {
    d.Failed? && d.statusCode.Some? && (d.statusCode.value == 410 || d.statusCode.value == 404)
  }

  /** The function's HTTP response. */
  datatype Response = Skipped | SavedWithoutPush | Success | ServerError

  /** One call of `webpush.sendNotification`: the subscription and the
      payload `{ title, body, url }`. */
  datatype Attempt = Attempt(sub: PushSubscribe.SubscriptionRow, title: Json, body: Json, url: string)

  /** `.from('push_subscriptions').select('*').eq('user_id', user)`. */
  function SubscriptionsOf(table: seq<PushSubscribe.SubscriptionRow>, user: Json): seq<PushSubscribe.SubscriptionRow> {
    Seqs.Filter(table, (r: PushSubscribe.SubscriptionRow) => Str(r.user_id) == user)
  }

  /** The 404/410 handler's `delete().eq('id', sub.id)` goes through unless
      `deleteFails(sub)`: its error is never read, so a failed delete leaves
      the row in place. */
  predicate Deleted(sub: PushSubscribe.SubscriptionRow, outcome: PushSubscribe.SubscriptionRow -> Delivery,
                    deleteFails: PushSubscribe.SubscriptionRow -> bool) {
    Expired(outcome(sub)) && !deleteFails(sub)
  }

  /** The ids of the subscriptions whose push came back 404 or 410 and whose
      delete went through. */
  function DeletedIds(subs: seq<PushSubscribe.SubscriptionRow>, outcome: PushSubscribe.SubscriptionRow -> Delivery,
                      deleteFails: PushSubscribe.SubscriptionRow -> bool): set<int>
    decreases |subs|
  {
    if subs == [] then {}
    else
      DeletedIds(subs[..|subs| - 1], outcome, deleteFails)
      + (if Deleted(subs[|subs| - 1], outcome, deleteFails) then {subs[|subs| - 1].id} else {})
  }

  /** An id is collected exactly when some subscription with it expired and
      its delete went through. */
  lemma {:induction false} DeletedIdsIff(subs: seq<PushSubscribe.SubscriptionRow>,
                                         outcome: PushSubscribe.SubscriptionRow -> Delivery,
                                         deleteFails: PushSubscribe.SubscriptionRow -> bool, id: int)
    ensures id in DeletedIds(subs, outcome, deleteFails) <==>
              exists k :: 0 <= k < |subs| && subs[k].id == id && Deleted(subs[k], outcome, deleteFails)
    decreases |subs|
  {
    if subs != [] {
      var front := subs[..|subs| - 1];
      DeletedIdsIff(front, outcome, deleteFails, id);
      if exists k :: 0 <= k < |front| && front[k].id == id && Deleted(front[k], outcome, deleteFails) {
        var k :| 0 <= k < |front| && front[k].id == id && Deleted(front[k], outcome, deleteFails);
        assert subs[k] == front[k];
      }
      if exists k :: 0 <= k < |subs| && subs[k].id == id && Deleted(subs[k], outcome, deleteFails) {
        var k :| 0 <= k < |subs| && subs[k].id == id && Deleted(subs[k], outcome, deleteFails);
        if k < |front| {
          assert front[k] == subs[k];
        }
      }
    }
  }

  /** `delete().eq('id', id)` for every id in `ids`. */
  function Prune(table: seq<PushSubscribe.SubscriptionRow>, ids: set<int>): (r: seq<PushSubscribe.SubscriptionRow>)
    ensures forall x :: x in r <==> x in table && x.id !in ids
    decreases |table|
  {
    if table == [] then []
    else (if table[0].id in ids then [] else [table[0]]) + Prune(table[1..], ids)
  }

  /** Deleting one id after others is deleting them all at once. */
  lemma {:induction false} PruneTwice(table: seq<PushSubscribe.SubscriptionRow>, a: set<int>, b: set<int>)
    ensures Prune(Prune(table, a), b) == Prune(table, a + b)
    decreases |table|
  {
    if table != [] {
      PruneTwice(table[1..], a, b);
      var rest := Prune(table[1..], a);
      if table[0].id in a {
        assert Prune(table, a) == rest;
      } else {
        var once := [table[0]] + rest;
        assert Prune(table, a) == once;
        assert once[1..] == rest;
        assert Prune(once, b) == (if table[0].id in b then [] else [table[0]]) + Prune(rest, b);
      }
    }
  }

  /** Deleting no id keeps the table. */
  lemma {:induction false} PruneNone(table: seq<PushSubscribe.SubscriptionRow>)
    ensures Prune(table, {}) == table
    decreases |table|
  {
    if table != [] {
      PruneNone(table[1..]);
    }
  }

  /** One more subscription adds one attempt and, when it expired and its
      delete went through, one deletion. */
  lemma FanOutStep(table: seq<PushSubscribe.SubscriptionRow>, subs: seq<PushSubscribe.SubscriptionRow>,
                   i: int, n: Notice, outcome: PushSubscribe.SubscriptionRow -> Delivery,
                   deleteFails: PushSubscribe.SubscriptionRow -> bool)
    requires 0 <= i < |subs|
    ensures AttemptsFor(subs[..i + 1], n) == AttemptsFor(subs[..i], n) + [Attempt(subs[i], n.title, n.body, n.url)]
    ensures Prune(table, DeletedIds(subs[..i + 1], outcome, deleteFails))
            == if Deleted(subs[i], outcome, deleteFails)
               then Prune(Prune(table, DeletedIds(subs[..i], outcome, deleteFails)), {subs[i].id})
               else Prune(table, DeletedIds(subs[..i], outcome, deleteFails))
  {
    assert subs[..i + 1][..i] == subs[..i];
    var before := DeletedIds(subs[..i], outcome, deleteFails);
    if Deleted(subs[i], outcome, deleteFails) {
      PruneTwice(table, before, {subs[i].id});
    } else {
      assert DeletedIds(subs[..i + 1], outcome, deleteFails) == before;
    }
  }

  /** No two rows of the table share an id. */
  predicate IdsUnique(table: seq<PushSubscribe.SubscriptionRow>) {
    forall i, j :: 0 <= i < |table| && 0 <= j < |table| && table[i].id == table[j].id ==> i == j
  }

  /** With unique ids, a row of the table survives the fan-out over `sent`
      (rows of the table) exactly when it is not one of them whose push came
      back 404 or 410 with a delete that went through: any other error, or a
      failed delete, leaves it alone. */
  lemma PruneExactlyExpired(table: seq<PushSubscribe.SubscriptionRow>, sent: seq<PushSubscribe.SubscriptionRow>,
                            outcome: PushSubscribe.SubscriptionRow -> Delivery,
                            deleteFails: PushSubscribe.SubscriptionRow -> bool)
    requires IdsUnique(table)
    requires forall k :: 0 <= k < |sent| ==> sent[k] in table
    ensures forall x :: x in table ==>
              (x in Prune(table, DeletedIds(sent, outcome, deleteFails))
               <==> !(x in sent && Deleted(x, outcome, deleteFails)))
  {
    forall x | x in table
      ensures x in Prune(table, DeletedIds(sent, outcome, deleteFails)) <==> !(x in sent && Deleted(x, outcome, deleteFails))
    {
      DeletedIdsIff(sent, outcome, deleteFails, x.id);
      if x.id in DeletedIds(sent, outcome, deleteFails) {
        var k :| 0 <= k < |sent| && sent[k].id == x.id && Deleted(sent[k], outcome, deleteFails);
        var i :| 0 <= i < |table| && table[i] == x;
        var j :| 0 <= j < |table| && table[j] == sent[k];
        assert sent[k] == x;
      } else if x in sent {
        var k :| 0 <= k < |sent| && sent[k] == x;
      }
    }
  }

  /** The attempts the fan-out makes for `subs`, in order. */
  function AttemptsFor(subs: seq<PushSubscribe.SubscriptionRow>, n: Notice): (r: seq<Attempt>)
    ensures |r| == |subs|
    ensures forall k :: 0 <= k < |subs| ==> r[k] == Attempt(subs[k], n.title, n.body, n.url)
  {
    seq(|subs|, k requires 0 <= k < |subs| => Attempt(subs[k], n.title, n.body, n.url))
  }

  /** The `map` callback runs `atob(sub.p256dh)` and `atob(sub.auth)` before
      it pushes; either throws on a key that is not base64. */
  predicate KeysDecode(sub: PushSubscribe.SubscriptionRow) {
    Base64.Atob(sub.p256dh).Some? && Base64.Atob(sub.auth).Some?
  }

  /** The callback throws. */
  predicate KeysUndecodable(sub: PushSubscribe.SubscriptionRow) {
    !KeysDecode(sub)
  }

  /** The subscriptions `map` pushes to before a callback throws: all of them,
      or those before the first for which `throws` holds. */
  function Reached(subs: seq<PushSubscribe.SubscriptionRow>, throws: PushSubscribe.SubscriptionRow -> bool)
    : (r: seq<PushSubscribe.SubscriptionRow>)
    ensures r <= subs
    ensures forall k :: 0 <= k < |r| ==> !throws(r[k])
    ensures |r| < |subs| ==> throws(subs[|r|])
  {
    var k := Seqs.FindIndex(subs, throws);
    if k < 0 then subs else subs[..k]
  }

  /** Whether the callback for `sub` throws. */
  predicate Throws(throws: PushSubscribe.SubscriptionRow -> bool, sub: PushSubscribe.SubscriptionRow) {
    throws(sub)
  }

  /** Having passed `i` subscriptions, `map` goes on to the next one exactly
      when its callback does not throw, and otherwise stops there. */
  lemma ReachedStep(subs: seq<PushSubscribe.SubscriptionRow>, throws: PushSubscribe.SubscriptionRow -> bool, i: int)
    requires 0 <= i <= |subs| && i <= |Reached(subs, throws)|
    ensures i < |subs| ==> (!Throws(throws, subs[i]) <==> i < |Reached(subs, throws)|)
    ensures (i == |subs| || Throws(throws, subs[i])) ==> Reached(subs, throws) == subs[..i]
  {
    var r := Reached(subs, throws);
    if i < |r| {
      assert r[i] == subs[i];
    }
  }

  /** Keys written as `btoa` of some bytes, as the subscribe flow stores
      them, always decode, so `map` reaches every such subscription. */
  lemma ReachedAllWhenStoredByBtoa(subs: seq<PushSubscribe.SubscriptionRow>,
                                   p256dh: seq<seq<Base64.byte>>, auth: seq<seq<Base64.byte>>)
    requires |p256dh| == |subs| && |auth| == |subs|
    requires forall k :: 0 <= k < |subs| ==>
               subs[k].p256dh == Base64.Btoa(p256dh[k]) && subs[k].auth == Base64.Btoa(auth[k])
    ensures Reached(subs, KeysUndecodable) == subs
  {
    forall k | 0 <= k < |subs|
      ensures KeysDecode(subs[k])
    {
      Base64.AtobBtoa(p256dh[k]);
      Base64.AtobBtoa(auth[k]);
    }
  }

  /** What the handler decides before writing anything: a `SyntaxError` for a
      body that is not JSON, then the rule cascade. */
  function Decide(request: Option<Json>, db: Db): Result<Option<Notice>> {
    if request.None? then Err("SyntaxError") else Classify(request.value, db)
  }

  /** The tables the handler writes and the pushes it sends. */
  class PushFunction {
    var notifications: seq<Notice>
    var subscriptions: seq<PushSubscribe.SubscriptionRow>
    var attempts: seq<Attempt>

    constructor (table: seq<PushSubscribe.SubscriptionRow>)
      ensures notifications == [] && subscriptions == table && attempts == []
    {
      notifications := [];
      subscriptions := table;
      attempts := [];
    }

    /** One request. `request` is the parsed body (`None` when it is not
        JSON), `insertFails` whether saving the notification reports an error,
        `fetchFails` whether reading the subscriptions returns no data,
        `outcome` what each push attempt ends in and `deleteFails` whether an
        expired subscription's delete fails. A key `atob` cannot decode ends
        the fan-out with a 500. */
    method Serve(request: Option<Json>, db: Db, insertFails: bool, fetchFails: bool,
                 outcome: PushSubscribe.SubscriptionRow -> Delivery,
                 deleteFails: PushSubscribe.SubscriptionRow -> bool) returns (resp: Response)
      modifies this
      ensures Decide(request, db).Err? ==>
                resp == ServerError && notifications == old(notifications)
                && subscriptions == old(subscriptions) && attempts == old(attempts)
      ensures Decide(request, db) == Ok(None) ==>
                resp == Skipped && notifications == old(notifications)
                && subscriptions == old(subscriptions) && attempts == old(attempts)
      ensures Decide(request, db).Ok? && Decide(request, db).value.Some? ==>
                var n := Decide(request, db).value.value;
                var subs := if fetchFails then [] else SubscriptionsOf(old(subscriptions), n.user);
                var sent := Reached(subs, KeysUndecodable);
                notifications == old(notifications) + (if insertFails then [] else [n])
                && (subs == [] ==> resp == SavedWithoutPush && subscriptions == old(subscriptions)
                                   && attempts == old(attempts))
                && (subs != [] ==> resp == (if sent == subs then Success else ServerError)
                                   && attempts == old(attempts) + AttemptsFor(sent, n)
                                   && subscriptions == Prune(old(subscriptions), DeletedIds(sent, outcome, deleteFails)))
    {
      if request.None? {
        return ServerError;
      }
      var decision := Classify(request.value, db);
      if decision.Err? {
        return ServerError;
      }
      if decision.value.None? {
        return Skipped;
      }
      var n := decision.value.value;
      if !insertFails {
        notifications := notifications + [n];
      }
      var subs := if fetchFails then [] else SubscriptionsOf(subscriptions, n.user);
      if subs == [] {
        return SavedWithoutPush;
      }
      var reachedAll := FanOut(subs, n, outcome, deleteFails, KeysUndecodable);
      resp := if reachedAll then Success else ServerError;
    }

    /** The pushes of `Promise.all(subscriptions.map(...))`, one after the
        other: every subscription the callbacks reach gets one attempt, and
        one whose attempt ends in 404 or 410 is deleted by id unless the
        delete fails. `throws` says whose callback throws before its push;
        `reachedAll` is false when one did. */
    method FanOut(subs: seq<PushSubscribe.SubscriptionRow>, n: Notice,
                  outcome: PushSubscribe.SubscriptionRow -> Delivery,
                  deleteFails: PushSubscribe.SubscriptionRow -> bool,
                  throws: PushSubscribe.SubscriptionRow -> bool) returns (reachedAll: bool)
      modifies this
      ensures reachedAll <==> Reached(subs, throws) == subs
      ensures notifications == old(notifications)
      ensures attempts == old(attempts) + AttemptsFor(Reached(subs, throws), n)
      ensures subscriptions == Prune(old(subscriptions), DeletedIds(Reached(subs, throws), outcome, deleteFails))
    {
      var i := PushUntilThrow(subs, n, outcome, deleteFails, throws);
      ReachedStep(subs, throws, i);
      reachedAll := i == |subs|;
    }

    /** The `map` callbacks in order, up to the first that throws: `i` is
        where it stopped. */
    method PushUntilThrow(subs: seq<PushSubscribe.SubscriptionRow>, n: Notice,
                          outcome: PushSubscribe.SubscriptionRow -> Delivery,
                          deleteFails: PushSubscribe.SubscriptionRow -> bool,
                          throws: PushSubscribe.SubscriptionRow -> bool) returns (i: int)
      modifies this
      ensures 0 <= i <= |subs| && i <= |Reached(subs, throws)|
      ensures i < |subs| ==> Throws(throws, subs[i])
      ensures notifications == old(notifications)
      ensures attempts == old(attempts) + AttemptsFor(subs[..i], n)
      ensures subscriptions == Prune(old(subscriptions), DeletedIds(subs[..i], outcome, deleteFails))
    {
      i := 0;
      PruneNone(subscriptions);
      ghost var stop := |Reached(subs, throws)|;
      while i < |subs| && !Throws(throws, subs[i])
        invariant 0 <= i <= |subs| && i <= stop
        invariant notifications == old(notifications)
        invariant attempts == old(attempts) + AttemptsFor(subs[..i], n)
        invariant subscriptions == Prune(old(subscriptions), DeletedIds(subs[..i], outcome, deleteFails))
      {
        ReachedStep(subs, throws, i);
        FanOutStep(old(subscriptions), subs, i, n, outcome, deleteFails);
        Push(subs[i], n, outcome, deleteFails);
        i := i + 1;
      }
    }

    /** One callback of the `map` once its keys have decoded: the push, and
        the delete of a subscription reported gone. */
    method Push(sub: PushSubscribe.SubscriptionRow, n: Notice,
                outcome: PushSubscribe.SubscriptionRow -> Delivery,
                deleteFails: PushSubscribe.SubscriptionRow -> bool)
      modifies this
      ensures notifications == old(notifications)
      ensures attempts == old(attempts) + [Attempt(sub, n.title, n.body, n.url)]
      ensures subscriptions == if Deleted(sub, outcome, deleteFails) then Prune(old(subscriptions), {sub.id})
                               else old(subscriptions)
    {
      attempts := attempts + [Attempt(sub, n.title, n.body, n.url)];
      if Deleted(sub, outcome, deleteFails) {
        subscriptions := Prune(subscriptions, {sub.id});
      }
    }
  }
}
