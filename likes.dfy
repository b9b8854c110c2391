/** The like button shared by task cards (src/components/TaskCard.jsx) and
    comments (src/components/comments/CommentItem.jsx): the heart and the
    count change at once, the row is written, and a failed write puts both
    back. */
module Likes {
  import opened Wrappers

  /** How the backend answers the insert or delete: it succeeds, resolves
      with an `error` in its result, or throws. */
  datatype WriteResult = Done | ErrorReturned | Thrown

  /** The button's state together with the users whose like row for this
      item is stored. */
  datatype LikeState = LikeState(liked: bool, likesCount: int, likers: set<string>)

  /** The button tells the truth about the table: the heart says whether
      the user's row is stored, and the count is the number of rows. */
  predicate Synced(s: LikeState, user: string) {
    s.liked == (user in s.likers) && s.likesCount == |s.likers|
  }

  /** The row a write leaves: an insert adds the user's like, a delete
      removes it; a failed write changes nothing. */
  function Stored(likers: set<string>, user: string, newLiked: bool, result: WriteResult): set<string> {
    if result != Done then likers
    else if newLiked then likers + {user}
    else likers - {user}
  }

  /** The optimistic step: the heart flips and the count moves by one. */
  function Optimistic(s: LikeState): (t: LikeState)
    ensures t.liked == !s.liked
    ensures t.likesCount == (if t.liked then s.likesCount + 1 else s.likesCount - 1)
    ensures t.likers == s.likers
  {
    var newLiked := !s.liked;
    LikeState(newLiked, if newLiked then s.likesCount + 1 else s.likesCount - 1, s.likers)
  }

  /** The revert of `newLiked`: the heart back and the count moved back. */
  function Revert(s: LikeState, newLiked: bool): LikeState {
    LikeState(!newLiked, if !newLiked then s.likesCount + 1 else s.likesCount - 1, s.likers)
  }

  /** A click when the write's result is checked (`if (error) throw error`,
      as the task card does): every failure is reverted. */
  function LikeChecked(s: LikeState, user: string, result: WriteResult): LikeState {
    var t := Optimistic(s);
    var u := t.(likers := Stored(s.likers, user, t.liked, result));
    if result == Done then u else Revert(u, t.liked)
  }

  /** A click as the comment's handler is written: the returned `error` is
      never looked at, so only a thrown exception is reverted. */
  function LikeAsWritten(s: LikeState, user: string, result: WriteResult): LikeState {
    var t := Optimistic(s);
    var u := t.(likers := Stored(s.likers, user, t.liked, result));
    if result == Thrown then Revert(u, t.liked) else u
  }

  /** With the result checked, a click either flips the heart and moves the
      count by one (success) or leaves both as they were (any failure). */
  lemma LikeCheckedOutcome(s: LikeState, user: string, result: WriteResult)
    ensures var r := LikeChecked(s, user, result);
            if result == Done then
              r.liked == !s.liked && r.likesCount == (if r.liked then s.likesCount + 1 else s.likesCount - 1)
            else r.liked == s.liked && r.likesCount == s.likesCount && r.likers == s.likers
  {
  }

  /** With the result checked, a button that agreed with the table still
      agrees after a click, whatever the backend answers. */
  lemma LikeCheckedKeepsSync(s: LikeState, user: string, result: WriteResult)
    requires Synced(s, user)
    ensures Synced(LikeChecked(s, user, result), user)
  {
    var r := LikeChecked(s, user, result);
    if result == Done {
      if !s.liked {
        assert s.likers + {user} - s.likers == {user};
        assert |s.likers + {user}| == |s.likers| + 1;
      } else {
        assert s.likers == s.likers - {user} + {user};
        assert |s.likers - {user}| == |s.likers| - 1;
      }
    }
  }

  /** Two successful clicks give back the starting state. */
  lemma LikeTwiceRestores(s: LikeState, user: string)
    requires Synced(s, user)
    ensures LikeChecked(LikeChecked(s, user, Done), user, Done) == s
  {
    LikeCheckedKeepsSync(s, user, Done);
    if s.liked {
      assert s.likers - {user} + {user} == s.likers;
    } else {
      assert s.likers + {user} - {user} == s.likers;
    }
  }

  /** As written, one insert that resolves with an error leaves a filled
      heart and a count of one over a table with no like. */
  lemma AsWrittenLosesSync()
    ensures Synced(LikeState(false, 0, {}), "u")
    ensures LikeAsWritten(LikeState(false, 0, {}), "u", ErrorReturned) == LikeState(true, 1, {})
    ensures !Synced(LikeAsWritten(LikeState(false, 0, {}), "u", ErrorReturned), "u")
  {
  }

  /** Both handlers agree except on an error resolved in the result. */
  lemma AsWrittenDiffersOnlyOnReturnedError(s: LikeState, user: string, result: WriteResult)
    ensures result != ErrorReturned ==> LikeAsWritten(s, user, result) == LikeChecked(s, user, result)
    ensures result == ErrorReturned ==> LikeAsWritten(s, user, result) == Optimistic(s)
  {
  }
}
