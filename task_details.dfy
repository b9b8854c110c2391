/** The task page (src/pages/TaskDetails.jsx): which actions are offered in
    each stage of a task's life (`open`, then `in_progress` once an offer is
    accepted, then `completed`), the accept and complete sequences, and
    contacting the task's owner. */
module TaskDetails {
  import opened Wrappers

  /** The columns of a `tasks` row the page decides on. */
  datatype Task = Task(id: string, created_by: string, status: string)

  /** A row of `applications` (an offer). */
  datatype Application = Application(id: string, task_id: string, worker_id: string, status: string)

  /** `user?.id === task.created_by`. */
  predicate IsOwner(user: Option<string>, task: Task) {
    user.Some? && user.value == task.created_by
  }

  /** The Accept button beside an offer. */
  predicate ShowAccept(user: Option<string>, task: Task, app: Application) {
    IsOwner(user, task) && app.status == "pending" && task.status == "open"
  }

  /** The "Mark as Completed" bar. */
  predicate ShowComplete(user: Option<string>, task: Task) {
    IsOwner(user, task) && task.status == "in_progress"
  }

  /** The offer button of the footer: its caption and whether it is disabled. */
  datatype OfferButton = OfferButton(caption: string, disabled: bool)

  /** The footer is rendered only for a visitor who is not the owner. */
  function OfferButtonOf(user: Option<string>, task: Task): (b: Option<OfferButton>)
    ensures b.Some? <==> !IsOwner(user, task)
    ensures b.Some? ==> (b.value.disabled <==> task.status != "open")
    ensures b.Some? ==> (b.value.caption == "Make Offer" <==> task.status == "open")
    ensures b.Some? ==> (b.value.caption == "Task Closed" <==> task.status != "open")
  {
    if IsOwner(user, task) then None
    else if task.status != "open" then Some(OfferButton("Task Closed", true))
    else Some(OfferButton("Make Offer", false))
  }

  /** What a click on the offer button does. */
  datatype OfferClick = GoToAuth | WorkerProfileRequired | OpenOfferModal

  /** `!user` sends the visitor to sign in; `!profile?.is_worker` (no profile,
      or the flag unset) refuses with an error; otherwise the modal opens. */
  function OnOfferClick(user: Option<string>, isWorker: Option<bool>): (c: OfferClick)
    ensures c == OpenOfferModal <==> user.Some? && isWorker == Some(true)
    ensures c == GoToAuth <==> user.None?
  {
    if user.None? then GoToAuth
    else if isWorker != Some(true) then WorkerProfileRequired
    else OpenOfferModal
  }

  /** Each action belongs to one stage: accepting needs an open task, marking
      complete an accepted one, an enabled offer button an open task and a
      visitor; so the owner is never offered Accept and Complete at once, and
      no action at all remains on a completed task. */
  lemma StageGating(user: Option<string>, task: Task, app: Application)
    ensures ShowAccept(user, task, app) ==> task.status == "open" && IsOwner(user, task) && app.status == "pending"
    ensures ShowComplete(user, task) ==> task.status == "in_progress" && IsOwner(user, task)
    ensures !(ShowAccept(user, task, app) && ShowComplete(user, task))
    ensures !(ShowComplete(user, task) && OfferButtonOf(user, task).Some?)
    ensures task.status == "completed" ==>
              !ShowAccept(user, task, app) && !ShowComplete(user, task)
              && (OfferButtonOf(user, task).Some? ==> OfferButtonOf(user, task).value.disabled)
  {
  }

  /** The notice dialog (`infoModal`). */
  datatype Info = Info(title: string, message: string, kind: string)

  /** `update({ status }).eq('id', id)` on the applications. */
  function SetAppStatus(apps: seq<Application>, id: string, status: string): (r: seq<Application>)
    ensures |r| == |apps|
    ensures forall k :: 0 <= k < |apps| ==>
              r[k] == (if apps[k].id == id then apps[k].(status := status) else apps[k])
  {
    seq(|apps|, k requires 0 <= k < |apps| =>
      if apps[k].id == id then apps[k].(status := status) else apps[k])
  }

  /** `applications.find(app => app.status === 'accepted')`. */
  function FindAccepted(apps: seq<Application>): (r: Option<Application>)
    ensures r.Some? ==> r.value in apps && r.value.status == "accepted"
    ensures r.None? <==> forall k :: 0 <= k < |apps| ==> apps[k].status != "accepted"
    decreases |apps|
  {
    if apps == [] then None
    else if apps[0].status == "accepted" then Some(apps[0])
    else FindAccepted(apps[1..])
  }

  /** Accepting an offer through `SetAppStatus` makes `FindAccepted` succeed,
      so once the first step of accepting has gone through, completing the
      task finds its worker. */
  lemma {:induction false} AcceptedIsFound(apps: seq<Application>, id: string)
    requires exists k :: 0 <= k < |apps| && apps[k].id == id
    ensures FindAccepted(SetAppStatus(apps, id, "accepted")).Some?
  {
    var k :| 0 <= k < |apps| && apps[k].id == id;
    var r := SetAppStatus(apps, id, "accepted");
    assert r[k].status == "accepted";
  }

  /** The dialog text on completing when no worker is found. */
  const NoAcceptedMessage := "No accepted application found. Please accept an offer first."

  /** The page's state with the rows it writes. */
  class TaskPage {
    var task: Task
    var applications: seq<Application>
    var isAcceptModalOpen: bool
    var isCompleteModalOpen: bool
    var isReviewModalOpen: bool
    var info: Option<Info>
    /** Workers passed to the `increment_completed_jobs` call, in order. */
    var completedJobCalls: seq<string>

    constructor (t: Task, apps: seq<Application>)
      ensures task == t && applications == apps
      ensures !isAcceptModalOpen && !isCompleteModalOpen && !isReviewModalOpen && info.None?
      ensures completedJobCalls == []
    {
      task := t;
      applications := apps;
      isAcceptModalOpen := false;
      isCompleteModalOpen := false;
      isReviewModalOpen := false;
      info := None;
      completedJobCalls := [];
    }

    /** `confirmAcceptOffer()`: the offer is marked accepted, then the task
        in progress. The two updates are separate: when the first fails the
        task is not touched, and when only the second fails the offer stays
        accepted while the task stays as it was. */
    method ConfirmAcceptOffer(selected: Option<string>, appUpdateFails: bool, taskUpdateFails: bool)
      modifies this
      ensures isCompleteModalOpen == old(isCompleteModalOpen) && isReviewModalOpen == old(isReviewModalOpen)
      ensures completedJobCalls == old(completedJobCalls)
      ensures selected.None? || selected == Some("") ==>
                task == old(task) && applications == old(applications)
                && isAcceptModalOpen == old(isAcceptModalOpen) && info == old(info)
      ensures selected.Some? && selected.value != "" && appUpdateFails ==>
                task == old(task) && applications == old(applications) && isAcceptModalOpen == old(isAcceptModalOpen)
                && info == Some(Info("Error", "Failed to accept offer.", "error"))
      ensures selected.Some? && selected.value != "" && !appUpdateFails ==>
                applications == SetAppStatus(old(applications), selected.value, "accepted")
      ensures selected.Some? && selected.value != "" && !appUpdateFails && taskUpdateFails ==>
                task == old(task) && isAcceptModalOpen == old(isAcceptModalOpen)
                && info == Some(Info("Error", "Failed to accept offer.", "error"))
      ensures selected.Some? && selected.value != "" && !appUpdateFails && !taskUpdateFails ==>
                task == old(task).(status := "in_progress") && !isAcceptModalOpen
                && info == Some(Info("Success", "Task marked as completed.", "success"))
    {
      if selected.None? || selected.value == "" {
        return;
      }
      if appUpdateFails {
        info := Some(Info("Error", "Failed to accept offer.", "error"));
        return;
      }
      applications := SetAppStatus(applications, selected.value, "accepted");
      if taskUpdateFails {
        info := Some(Info("Error", "Failed to accept offer.", "error"));
        return;
      }
      task := task.(status := "in_progress");
      isAcceptModalOpen := false;
      info := Some(Info("Success", "Task marked as completed.", "success"));
    }

    /** `confirmCompleteTask()`. `fetched` is what the fallback `.single()`
        query gives (`None` when it has no single row), `taskError` the
        error of the task update (`Some(message)` when it fails) and
        `rpcFails` whether the counter call reports an error, which is only
        logged. Without an accepted offer, nothing but the dialog changes. */
    method ConfirmCompleteTask(fetched: Option<Application>, taskError: Option<string>, rpcFails: bool)
      modifies this
      ensures applications == old(applications) && isAcceptModalOpen == old(isAcceptModalOpen)
      ensures var accepted := if FindAccepted(old(applications)).Some? then FindAccepted(old(applications)) else fetched;
              if accepted.None? then
                task == old(task) && completedJobCalls == old(completedJobCalls)
                && isCompleteModalOpen == old(isCompleteModalOpen) && isReviewModalOpen == old(isReviewModalOpen)
                && info == Some(Info("Error", NoAcceptedMessage, "error"))
              else if taskError.Some? then
                task == old(task) && completedJobCalls == old(completedJobCalls)
                && isCompleteModalOpen == old(isCompleteModalOpen) && isReviewModalOpen == old(isReviewModalOpen)
                && info == Some(Info("Error", if taskError.value != "" then taskError.value else "Failed to complete task.", "error"))
              else
                task == old(task).(status := "completed")
                && completedJobCalls == old(completedJobCalls) + (if accepted.value.worker_id != "" then [accepted.value.worker_id] else [])
                && isReviewModalOpen && !isCompleteModalOpen && info == old(info)
    {
      var acceptedApp := FindAccepted(applications);
      if acceptedApp.None? {
        if fetched.Some? {
          acceptedApp := fetched;
        }
      }
      if acceptedApp.None? {
        info := Some(Info("Error", NoAcceptedMessage, "error"));
        return;
      }
      if taskError.Some? {
        info := Some(Info("Error", if taskError.value != "" then taskError.value else "Failed to complete task.", "error"));
        return;
      }
      task := task.(status := "completed");
      if acceptedApp.value.worker_id != "" {
        completedJobCalls := completedJobCalls + [acceptedApp.value.worker_id];
      }
      isReviewModalOpen := true;
      isCompleteModalOpen := false;
    }
  }

  /** What the Contact button leads to. */
  datatype ContactOutcome = SignIn | SelfChatRefused | OpenChat(conversationId: string) | ChatFailed

  /** A conversation row `handleContact` inserts. */
  datatype StartedChat = StartedChat(id: string, participant_ids: seq<string>, created_at: int)

  /** The rows `handleContact` writes. */
  class ContactButton {
    var contactLoading: bool
    var started: seq<StartedChat>

    constructor ()
      ensures !contactLoading && started == []
    {
      contactLoading := false;
      started := [];
    }

    /** `handleContact()`. `existing` is the answer to the query for
        conversations containing both ids (`Err` on an error), `createFails`
        says the insert reports an error, `newId` and `now` are the new row's
        id and time. Any conversation containing both is reused, whatever its
        size, before one is created. */
    method HandleContact(user: Option<string>, owner: string, existing: Result<seq<string>>,
                         createFails: bool, newId: string, now: int) returns (r: ContactOutcome)
      modifies this
      ensures contactLoading == old(contactLoading) || !contactLoading
      ensures user.None? ==> r == SignIn && started == old(started) && contactLoading == old(contactLoading)
      ensures user == Some(owner) ==> r == SelfChatRefused && started == old(started) && contactLoading == old(contactLoading)
      ensures user.Some? && user.value != owner ==>
                !contactLoading
                && if existing.Err? then r == ChatFailed && started == old(started)
                   else if |existing.value| > 0 then r == OpenChat(existing.value[0]) && started == old(started)
                   else if createFails then r == ChatFailed && started == old(started)
                   else r == OpenChat(newId) && started == old(started) + [StartedChat(newId, [user.value, owner], now)]
    {
      if user.None? {
        return SignIn;
      }
      if user.value == owner {
        return SelfChatRefused;
      }
      contactLoading := true;
      if existing.Err? {
        r := ChatFailed;
      } else if |existing.value| > 0 {
        r := OpenChat(existing.value[0]);
      } else if createFails {
        r := ChatFailed;
      } else {
        started := started + [StartedChat(newId, [user.value, owner], now)];
        r := OpenChat(newId);
      }
      contactLoading := false;
    }
  }
}
