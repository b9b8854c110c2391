/** A card of the task feed (src/components/TaskCard.jsx): its like button,
    the owner's menu and the delete that the menu confirms. */
module TaskCard {
  import opened Wrappers
  import opened Likes

  /** `user && task.created_by === user.id`: the owner's menu is shown. */
  predicate IsOwner(user: Option<string>, createdBy: Option<string>) {
    user.Some? && createdBy == Some(user.value)
  }

  /** Only the user whose id the task names sees the owner's menu; a task
      without `created_by` has no owner, nor does any task for a guest. */
  lemma OwnerRule(user: Option<string>, other: Option<string>, createdBy: Option<string>)
    ensures IsOwner(user, createdBy) && IsOwner(other, createdBy) ==> user == other
    ensures createdBy.None? ==> !IsOwner(user, createdBy)
    ensures user.None? ==> !IsOwner(user, createdBy)
    ensures createdBy.Some? ==> IsOwner(createdBy, createdBy)
  {
  }

  /** How a confirmed delete ends: the parent's `onDelete(id)` is called,
      the page reloads when there is no such callback, or it fails. */
  datatype DeleteOutcome = Removed(id: string) | Reloaded | DeleteFailed

  /** The message of the error modal on a failed delete. */
  const DeleteFailedMessage := "Failed to delete task"

  /** The rows a delete with `.select()` hands back: `None` when `data` is
      null; `error` is set when the backend reports one. */
  predicate DeleteSucceeded(error: bool, returned: Option<nat>) {
    !error && returned.Some? && returned.value > 0
  }

  /** A delete succeeds only when no error is reported and at least one row
      comes back, so a delete the row policies silently refuse fails. */
  lemma DeleteRule(error: bool, returned: Option<nat>)
    ensures error ==> !DeleteSucceeded(error, returned)
    ensures returned == Some(0) || returned.None? ==> !DeleteSucceeded(error, returned)
    ensures !error && returned.Some? && returned.value >= 1 ==> DeleteSucceeded(error, returned)
  {
  }

  /** The card's state with the rows its writes touch: `likers` are the users
      whose `task_likes` row for this task is stored, `imageDeletes` the URLs
      handed to `deleteImage`, in order. */
  class Card {
    const id: string
    var liked: bool
    var likesCount: int
    var likers: set<string>
    var errorModal: Option<string>
    var imageDeletes: seq<string>

    /** The like button's part of the state. */
    function State(): LikeState
      reads this
    {
      LikeState(liked, likesCount, likers)
    }

    /** The card after the initial fetch: the count of the task's like rows,
        and the heart filled when the user's row is among them. */
    constructor (taskId: string, user: Option<string>, stored: set<string>)
      ensures id == taskId && likers == stored && likesCount == |stored|
      ensures liked == (user.Some? && user.value in stored)
      ensures errorModal.None? && imageDeletes == []
      ensures user.Some? ==> Synced(State(), user.value)
    {
      id := taskId;
      likers := stored;
      likesCount := |stored|;
      liked := user.Some? && user.value in stored;
      errorModal := None;
      imageDeletes := [];
    }

    /** `handleLike()`. Without a user it only navigates to /auth. Otherwise
        the heart and count change at once, a newly liked state inserts the
        user's row and an un-like deletes it, and any error, returned or
        thrown, reverts both. */
    method HandleLike(user: Option<string>, result: WriteResult) returns (toAuth: bool)
      modifies this
      ensures toAuth <==> user.None?
      ensures user.None? ==> liked == old(liked) && likesCount == old(likesCount) && likers == old(likers)
      ensures user.Some? ==> State() == LikeChecked(old(State()), user.value, result)
      ensures user.Some? && old(Synced(State(), user.value)) ==> Synced(State(), user.value)
      ensures errorModal == old(errorModal) && imageDeletes == old(imageDeletes)
    {
      if user.None? {
        return true;
      }
      toAuth := false;
      ghost var before := State();
      var newLiked := !liked;
      liked := newLiked;
      likesCount := if newLiked then likesCount + 1 else likesCount - 1;
      if result == Done {
        if newLiked {
          likers := likers + {user.value};
        } else {
          likers := likers - {user.value};
        }
      } else {
        liked := !newLiked;
        likesCount := if !newLiked then likesCount + 1 else likesCount - 1;
      }
      if Synced(before, user.value) {
        LikeCheckedKeepsSync(before, user.value, result);
      }
    }

    /** `confirmDelete()`. Every photo is handed to `deleteImage` first (which
        never throws); then the task row is deleted, and an error or an empty
        answer opens the error modal. */
    method ConfirmDelete(photos: Option<seq<string>>, error: bool, returned: Option<nat>, hasOnDelete: bool)
      returns (outcome: DeleteOutcome)
      modifies this
      ensures imageDeletes == old(imageDeletes) + (if photos.Some? then photos.value else [])
      ensures outcome == DeleteFailed <==> !DeleteSucceeded(error, returned)
      ensures DeleteSucceeded(error, returned) ==> outcome == (if hasOnDelete then Removed(id) else Reloaded)
      ensures errorModal == (if DeleteSucceeded(error, returned) then old(errorModal) else Some(DeleteFailedMessage))
      ensures liked == old(liked) && likesCount == old(likesCount) && likers == old(likers)
    {
      if photos.Some? && |photos.value| > 0 {
        imageDeletes := imageDeletes + photos.value;
      }
      if error || returned.None? || returned.value == 0 {
        errorModal := Some(DeleteFailedMessage);
        return DeleteFailed;
      }
      outcome := if hasOnDelete then Removed(id) else Reloaded;
    }
  }
}
