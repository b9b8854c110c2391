/** One comment of a thread (src/components/comments/CommentItem.jsx): its
    like button, the owner's delete control and the reply form. */
module CommentItem {
  import opened Wrappers
  import opened Strings
  import opened Likes
  import CommentSection

  /** `user?.id === comment.user_id`: the delete control is shown. */
  predicate IsOwner(user: Option<string>, author: string) {
    user.Some? && user.value == author
  }

  /** Only the author sees the delete control, and never a guest. */
  lemma OwnerRule(user: Option<string>, other: Option<string>, author: string)
    ensures IsOwner(user, author) && IsOwner(other, author) ==> user == other
    ensures user.None? ==> !IsOwner(user, author)
    ensures IsOwner(Some(author), author)
  {
  }

  /** The row a reply inserts under the comment `parentId` of task `taskId`:
      trimmed content, the comment as parent. */
  function ReplyRow(newId: string, taskId: string, user: string, text: string, parentId: string, now: int)
    : (r: CommentSection.CommentRow)
    ensures r.parent_id == Some(parentId) && r.content == Trim(text) && r.user_id == user && r.task_id == taskId
  {
    CommentSection.CommentRow(newId, taskId, user, Trim(text), Some(parentId), now, [])
  }

  /** A reply to a fetched comment is placed, on the next fetch, among the
      replies of (the last fetched comment with) that comment's id. */
  lemma ReplyAttachesToComment(table: seq<CommentSection.CommentRow>, row: CommentSection.CommentRow, parentId: string)
    requires parentId != "" && row.parent_id == Some(parentId) && row.id != parentId
    requires exists k :: 0 <= k < |table| && table[k].id == parentId
    ensures var data := table + [row];
            CommentSection.Parent(data, |table|).Some?
            && 0 <= CommentSection.Parent(data, |table|).value < |table|
            && table[CommentSection.Parent(data, |table|).value].id == parentId
  {
    var data := table + [row];
    assert data[..|data| - 1] == table;
    assert CommentSection.IdIndex(data) == CommentSection.IdIndex(table)[row.id := |table|];
    CommentSection.IdIndexSpec(table, parentId);
  }

  /** A comment as seen by the signed-in user: `likers` are the users whose
      `comment_likes` row for it is stored, `comments` the rows of the
      `comments` table the reply writes to. */
  class Item {
    const id: string
    const author: string
    var liked: bool
    var likesCount: int
    var likers: set<string>
    var replying: bool
    var replyText: string
    var submitting: bool
    var info: Option<string>
    var comments: seq<CommentSection.CommentRow>

    function State(): LikeState
      reads this
    {
      LikeState(liked, likesCount, likers)
    }

    /** The item as it mounts: the heart empty whatever is stored, the count
        `comment.likes_count || 0`. */
    constructor (commentId: string, userId: string, likesCountField: Option<int>, stored: set<string>,
                 table: seq<CommentSection.CommentRow>)
      ensures id == commentId && author == userId
      ensures !liked && likesCount == OrZero(likesCountField) && likers == stored
      ensures !replying && replyText == "" && !submitting && info.None? && comments == table
    {
      id := commentId;
      author := userId;
      liked := false;
      likesCount := OrZero(likesCountField);
      likers := stored;
      replying := false;
      replyText := "";
      submitting := false;
      info := None;
      comments := table;
    }

    /** `handleLike()` with the write's result checked as the task card checks
        it: without a user it navigates to /auth; otherwise the heart and
        count change, the row is inserted or deleted, and every failure
        reverts both. */
    method HandleLike(user: Option<string>, result: WriteResult) returns (toAuth: bool)
      modifies this
      ensures toAuth <==> user.None?
      ensures user.None? ==> State() == old(State())
      ensures user.Some? ==> State() == LikeChecked(old(State()), user.value, result)
      ensures user.Some? && old(Synced(State(), user.value)) ==> Synced(State(), user.value)
      ensures replying == old(replying) && replyText == old(replyText) && submitting == old(submitting)
      ensures info == old(info) && comments == old(comments)
    {
      if user.None? {
        return true;
      }
      toAuth := false;
      ghost var before := State();
      var newLiked := !liked;
      liked := newLiked;
      likesCount := if newLiked then likesCount + 1 else likesCount - 1;
      if result == Done {
        likers := if newLiked then likers + {user.value} else likers - {user.value};
      } else {
        liked := !newLiked;
        likesCount := if !newLiked then likesCount + 1 else likesCount - 1;
      }
      if Synced(before, user.value) {
        LikeCheckedKeepsSync(before, user.value, result);
      }
    }

    /** The Reply button: the form opens or closes. */
    method ToggleReply()
      modifies this
      ensures replying == !old(replying)
      ensures State() == old(State()) && replyText == old(replyText) && submitting == old(submitting)
      ensures info == old(info) && comments == old(comments)
    {
      replying := !replying;
    }

    /** `handleReply()`. Without a user it navigates to /auth; a blank reply
        is ignored; otherwise the reply is posted. */
    method HandleReply(user: Option<string>, taskId: string, insertFails: bool, newId: string, now: int)
      returns (toAuth: bool)
      modifies this
      ensures toAuth <==> user.None?
      ensures liked == old(liked) && likesCount == old(likesCount) && likers == old(likers)
      ensures user.None? || IsBlank(old(replyText)) ==>
                replyText == old(replyText) && replying == old(replying) && submitting == old(submitting)
                && info == old(info) && comments == old(comments)
      ensures user.Some? && !IsBlank(old(replyText)) ==>
                !submitting
                && (insertFails ==> replyText == old(replyText) && replying == old(replying)
                                    && info == Some("Failed to reply") && comments == old(comments))
                && (!insertFails ==> replyText == "" && !replying && info == old(info)
                                     && comments == old(comments) + [ReplyRow(newId, taskId, user.value, old(replyText), id, now)])
    {
      if user.None? {
        return true;
      }
      toAuth := false;
      if IsBlank(replyText) {
        return;
      }
      PostReply(ReplyRow(newId, taskId, user.value, replyText, id, now), insertFails);
    }

    /** The insert of a non-blank reply: on success the text is cleared and
        the form closed, on failure the text stays and 'Failed to reply' is
        shown; `submitting` is false again either way. */
    method PostReply(row: CommentSection.CommentRow, insertFails: bool)
      modifies this
      ensures liked == old(liked) && likesCount == old(likesCount) && likers == old(likers)
      ensures !submitting
      ensures insertFails ==> replyText == old(replyText) && replying == old(replying)
                              && info == Some("Failed to reply") && comments == old(comments)
      ensures !insertFails ==> replyText == "" && !replying && info == old(info) && comments == old(comments) + [row]
    {
      submitting := true;
      if insertFails {
        info := Some("Failed to reply");
      } else {
        comments := comments + [row];
        replyText := "";
        replying := false;
      }
      submitting := false;
    }
  }
}
