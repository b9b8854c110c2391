/** The comment thread under a task (src/components/comments/CommentSection.jsx):
    the flat list of fetched comments is organised into roots and reply
    lists, and a new top-level comment is posted. */
module CommentSection {
  import opened Wrappers
  import opened Strings
  import Seqs

  /** A fetched row of `comments`. `comment_likes` is the aggregate the query
      joins, one entry per returned object with its `count` (`None` when the
      object has none); a null aggregate is the empty list. */
  datatype CommentRow = CommentRow(id: string, task_id: string, user_id: string, content: string,
                                   parent_id: Option<string>, created_at: int,
                                   comment_likes: seq<Option<int>>)

  /** A comment as the thread holds it: the row, its like count and the
      positions (in the fetched list) of its replies. Replies are shared
      objects in the page, so they are referred to by position here. */
  datatype Node = Node(row: CommentRow, likes_count: int, replies: seq<int>)

  /** `c.comment_likes?.[0]?.count || 0`. */
  function LikesCount(c: CommentRow): (n: int)
    ensures |c.comment_likes| == 0 ==> n == 0
    ensures |c.comment_likes| > 0 && c.comment_likes[0].Some? ==> n == c.comment_likes[0].value
    ensures |c.comment_likes| > 0 && c.comment_likes[0].None? ==> n == 0
  {
    if |c.comment_likes| > 0 then OrZero(c.comment_likes[0]) else 0
  }

  /** The `map` object after the first loop: each id names the LAST fetched
      comment carrying it, because later assignments overwrite earlier ones. */
  function IdIndex(s: seq<CommentRow>): (m: map<string, int>)
    ensures forall id :: id in m ==> 0 <= m[id] < |s|
    decreases |s|
  {
    if s == [] then map[] else IdIndex(s[..|s| - 1])[s[|s| - 1].id := |s| - 1]
  }

  /** An id is in the map iff some comment has it, and it maps to the last
      such position. */
  lemma {:induction false} IdIndexSpec(s: seq<CommentRow>, id: string)
    ensures id in IdIndex(s) <==> exists k :: 0 <= k < |s| && s[k].id == id
    ensures id in IdIndex(s) ==>
              var k := IdIndex(s)[id];
              0 <= k < |s| && s[k].id == id && forall j :: k < j < |s| ==> s[j].id != id
    decreases |s|
  {
    if s != [] {
      var init := s[..|s| - 1];
      IdIndexSpec(init, id);
      assert forall k :: 0 <= k < |init| ==> init[k] == s[k];
      if id != s[|s| - 1].id && exists k :: 0 <= k < |s| && s[k].id == id {
        var k :| 0 <= k < |s| && s[k].id == id;
        assert init[k].id == id;
      }
    }
  }

  /** The position whose `replies` the comment at `i` is pushed to: the one
      `map[c.parent_id]` names, when `parent_id` is a non-empty id of a
      fetched comment. */
  function Parent(data: seq<CommentRow>, i: int): Option<int>
    requires 0 <= i < |data|
  {
    var p := data[i].parent_id;
    if p.Some? && p.value != "" && p.value in IdIndex(data) then Some(IdIndex(data)[p.value]) else None
  }

  /** The tests the second loop applies, one position at a time. */
  function IsRootAt(data: seq<CommentRow>): int -> bool {
    (i: int) => 0 <= i < |data| && Parent(data, i).None?
  }

  function IsChildAt(data: seq<CommentRow>, parent: int): int -> bool {
    (i: int) => 0 <= i < |data| && Parent(data, i) == Some(parent)
  }

  /** The positions `0 .. n-1`, the order of `data.forEach`. */
  function Indexes(n: nat): (r: seq<int>)
    ensures |r| == n && forall k :: 0 <= k < n ==> r[k] == k
  {
    seq(n, k requires 0 <= k < n => k)
  }

  /** The roots and the reply lists, as filters of the fetch order. */
  function Roots(data: seq<CommentRow>): seq<int> {
    Seqs.Filter(Indexes(|data|), IsRootAt(data))
  }

  function Children(data: seq<CommentRow>, parent: int): seq<int> {
    Seqs.Filter(Indexes(|data|), IsChildAt(data, parent))
  }

  /** One more position in the fetch order adds it at the end exactly when it
      passes the test. */
  lemma FilterStep(n: nat, p: int -> bool)
    ensures Seqs.Filter(Indexes(n + 1), p) == Seqs.Filter(Indexes(n), p) + (if p(n) then [n] else [])
  {
    assert Indexes(n + 1) == Indexes(n) + [n];
    Seqs.FilterAppend(Indexes(n), [n], p);
    assert [n][1..] == [];
    assert Seqs.Filter([n][1..], p) == [];
  }

  /** The reply lists once the second loop has handled the first `i`
      comments. */
  predicate RepliesUpTo(data: seq<CommentRow>, nodes: seq<Node>, i: nat) {
    |nodes| == |data|
    && forall k :: 0 <= k < |data| ==> nodes[k].replies == Seqs.Filter(Indexes(i), IsChildAt(data, k))
  }

  /** Pushing comment `i` onto the replies of its parent `j`. */
  lemma AttachStep(data: seq<CommentRow>, nodes: seq<Node>, i: nat, j: int)
    requires i < |data| && RepliesUpTo(data, nodes, i) && Parent(data, i) == Some(j) && 0 <= j < |data|
    ensures RepliesUpTo(data, nodes[j := nodes[j].(replies := nodes[j].replies + [i])], i + 1)
    ensures RowsKept(data, nodes) ==> RowsKept(data, nodes[j := nodes[j].(replies := nodes[j].replies + [i])])
  {
    forall k | 0 <= k < |data| {
      FilterStep(i, IsChildAt(data, k));
    }
  }

  /** A root leaves every reply list as it is. */
  lemma RootStep(data: seq<CommentRow>, nodes: seq<Node>, i: nat)
    requires i < |data| && RepliesUpTo(data, nodes, i) && Parent(data, i).None?
    ensures RepliesUpTo(data, nodes, i + 1)
  {
    forall k | 0 <= k < |data| {
      FilterStep(i, IsChildAt(data, k));
    }
  }

  /** The first loop of `fetchComments`: every comment gets an empty reply
      list and its like count, and the id map is filled. */
  method Prepare(data: seq<CommentRow>) returns (nodes: seq<Node>, index: map<string, int>)
    ensures |nodes| == |data|
    ensures forall k :: 0 <= k < |data| ==> nodes[k] == Node(data[k], LikesCount(data[k]), [])
    ensures index == IdIndex(data)
  {
    nodes := [];
    index := map[];
    var i := 0;
    while i < |data|
      invariant 0 <= i <= |data|
      invariant |nodes| == i
      invariant forall k :: 0 <= k < i ==> nodes[k] == Node(data[k], LikesCount(data[k]), [])
      invariant index == IdIndex(data[..i])
    {
      assert data[..i + 1][..i] == data[..i];
      nodes := nodes + [Node(data[i], LikesCount(data[i]), [])];
      index := index[data[i].id := i];
      i := i + 1;
    }
    assert data[..|data|] == data;
  }

  /** Each node carries its fetched row and like count. */
  predicate RowsKept(data: seq<CommentRow>, nodes: seq<Node>) {
    |nodes| == |data|
    && forall k :: 0 <= k < |data| ==> nodes[k].row == data[k] && nodes[k].likes_count == LikesCount(data[k])
  }

  /** Both loops of `fetchComments`: after the first, the second pushes each
      comment onto its parent's replies or onto the roots. */
  method BuildTree(data: seq<CommentRow>) returns (nodes: seq<Node>, roots: seq<int>)
    ensures |nodes| == |data|
    ensures forall k :: 0 <= k < |data| ==> nodes[k].row == data[k] && nodes[k].likes_count == LikesCount(data[k])
    ensures forall k :: 0 <= k < |data| ==> nodes[k].replies == Children(data, k)
    ensures roots == Roots(data)
  {
    var index;
    nodes, index := Prepare(data);
    roots := [];
    assert RepliesUpTo(data, nodes, 0);
    var i := 0;
    while i < |data|
      invariant 0 <= i <= |data|
      invariant RowsKept(data, nodes)
      invariant RepliesUpTo(data, nodes, i)
      invariant roots == Seqs.Filter(Indexes(i), IsRootAt(data))
    {
      nodes, roots := Place(data, index, nodes, roots, i);
      i := i + 1;
    }
  }

  /** One turn of the second loop: comment `i` is pushed onto the replies of
      the comment `map[c.parent_id]` names, or onto the roots. */
  method Place(data: seq<CommentRow>, index: map<string, int>, nodes: seq<Node>, roots: seq<int>, i: nat)
    returns (newNodes: seq<Node>, newRoots: seq<int>)
    requires i < |data| && index == IdIndex(data)
    requires RowsKept(data, nodes) && RepliesUpTo(data, nodes, i)
    requires roots == Seqs.Filter(Indexes(i), IsRootAt(data))
    ensures RowsKept(data, newNodes) && RepliesUpTo(data, newNodes, i + 1)
    ensures newRoots == Seqs.Filter(Indexes(i + 1), IsRootAt(data))
    ensures Parent(data, i).Some? ==>
              var j := Parent(data, i).value;
              0 <= j < |nodes| && newNodes == nodes[j := nodes[j].(replies := nodes[j].replies + [i])] && newRoots == roots
    ensures Parent(data, i).None? ==> newNodes == nodes && newRoots == roots + [i]
  {
    var p := data[i].parent_id;
    TreeStep(data, nodes, roots, i);
    if p.Some? && p.value != "" && p.value in index {
      var j := index[p.value];
      newNodes, newRoots := nodes[j := nodes[j].(replies := nodes[j].replies + [i])], roots;
    } else {
      newNodes, newRoots := nodes, roots + [i];
    }
  }

  /** One turn of the second loop keeps the loop's invariants. */
  lemma TreeStep(data: seq<CommentRow>, nodes: seq<Node>, roots: seq<int>, i: nat)
    requires i < |data| && RowsKept(data, nodes) && RepliesUpTo(data, nodes, i)
    requires roots == Seqs.Filter(Indexes(i), IsRootAt(data))
    ensures Parent(data, i).Some? ==>
              var j := Parent(data, i).value;
              var next := nodes[j := nodes[j].(replies := nodes[j].replies + [i])];
              0 <= j < |data| && RowsKept(data, next) && RepliesUpTo(data, next, i + 1)
              && roots == Seqs.Filter(Indexes(i + 1), IsRootAt(data))
    ensures Parent(data, i).None? ==>
              RepliesUpTo(data, nodes, i + 1) && roots + [i] == Seqs.Filter(Indexes(i + 1), IsRootAt(data))
  {
    FilterStep(i, IsRootAt(data));
    if Parent(data, i).Some? {
      AttachStep(data, nodes, i, Parent(data, i).value);
    } else {
      RootStep(data, nodes, i);
    }
  }

  /** Every comment lands in exactly one place: the roots when it has no
      parent among the fetched comments, and otherwise the replies of that
      parent and of no other comment. */
  lemma ExactlyOnePlace(data: seq<CommentRow>, i: int)
    requires 0 <= i < |data|
    ensures i in Roots(data) <==> Parent(data, i).None?
    ensures forall k :: 0 <= k < |data| ==> (i in Children(data, k) <==> Parent(data, i) == Some(k))
  {
    assert Indexes(|data|)[i] == i;
  }

  /** A `parent_id` naming a fetched comment attaches to (the last fetched
      comment with) that id; a missing, empty or unknown one makes a root. */
  lemma ParentRule(data: seq<CommentRow>, i: int)
    requires 0 <= i < |data|
    ensures var p := data[i].parent_id;
            (p.Some? && p.value != "" && exists k :: 0 <= k < |data| && data[k].id == p.value) <==> Parent(data, i).Some?
    ensures Parent(data, i).Some? ==>
              var k := Parent(data, i).value;
              0 <= k < |data| && Some(data[k].id) == data[i].parent_id
  {
    if data[i].parent_id.Some? {
      IdIndexSpec(data, data[i].parent_id.value);
    }
  }

  predicate Increasing(s: seq<int>) {
    forall a, b :: 0 <= a < b < |s| ==> s[a] < s[b]
  }

  /** Roots and reply lists list their comments in fetch order, which the
      query makes ascending `created_at`. */
  lemma FetchOrderKept(data: seq<CommentRow>, k: int)
    ensures Increasing(Roots(data))
    ensures Increasing(Children(data, k))
  {
    FilterKeepsIncreasing(Indexes(|data|), IsRootAt(data));
    FilterKeepsIncreasing(Indexes(|data|), IsChildAt(data, k));
  }

  lemma {:induction false} FilterKeepsIncreasing(s: seq<int>, p: int -> bool)
    requires Increasing(s)
    ensures Increasing(Seqs.Filter(s, p))
    decreases |s|
  {
    if s != [] {
      var t := s[1..];
      assert Increasing(t) && forall a :: 0 <= a < |t| ==> s[0] < t[a] by {
        assert forall a :: 0 <= a < |t| ==> t[a] == s[a + 1];
      }
      FilterKeepsIncreasing(t, p);
      if p(s[0]) {
        var rest := Seqs.Filter(t, p);
        forall a | 0 <= a < |rest| ensures s[0] < rest[a] {
          var m :| 0 <= m < |t| && t[m] == rest[a];
        }
        IncreasingCons(s[0], rest);
      }
    }
  }

  /** A head below an increasing tail gives an increasing list. */
  lemma IncreasingCons(x: int, s: seq<int>)
    requires Increasing(s) && forall a :: 0 <= a < |s| ==> x < s[a]
    ensures Increasing([x] + s)
  {
    var r := [x] + s;
    forall a, b | 0 <= a < b < |r| ensures r[a] < r[b] {
      assert r[b] == s[b - 1];
      if a > 0 {
        assert r[a] == s[a - 1];
      }
    }
  }

  /** What a submit does. */
  datatype SubmitOutcome = NavigateToAuth | Ignored | Posted | Failed

  /** The state of one thread: the tree shown, the draft and the comments
      table the page writes. */
  class Thread {
    var nodes: seq<Node>
    var roots: seq<int>
    var loading: bool
    var newComment: string
    var submitting: bool
    var table: seq<CommentRow>

    constructor (rows: seq<CommentRow>)
      ensures nodes == [] && roots == [] && loading && newComment == "" && !submitting && table == rows
    {
      nodes := [];
      roots := [];
      loading := true;
      newComment := "";
      submitting := false;
      table := rows;
    }

    /** `fetchComments()` with the query's answer: on success the tree of
        the fetched rows replaces the shown one, on error it stays; loading
        ends either way. */
    method FetchComments(answer: Result<seq<CommentRow>>)
      modifies this
      ensures !loading && newComment == old(newComment) && submitting == old(submitting) && table == old(table)
      ensures answer.Err? ==> nodes == old(nodes) && roots == old(roots)
      ensures answer.Ok? ==> roots == Roots(answer.value) && |nodes| == |answer.value|
                             && forall k :: 0 <= k < |nodes| ==>
                                  nodes[k] == Node(answer.value[k], LikesCount(answer.value[k]), Children(answer.value, k))
    {
      if answer.Ok? {
        var n, r := BuildTree(answer.value);
        nodes, roots := n, r;
      }
      loading := false;
    }

    /** `handleSubmit`. `user` is the signed-in user's id, `insertFails`
        whether the insert reports an error, `newId` and `now` the id and
        time the table gives the row, and `refetched` the answer of the
        `fetchComments()` a successful post starts. A failure is the alert
        'Failed to post comment'. */
    method HandleSubmit(taskId: string, user: Option<string>, insertFails: bool, newId: string, now: int,
                        refetched: Result<seq<CommentRow>>)
      returns (outcome: SubmitOutcome)
      modifies this
      ensures outcome != Posted ==> nodes == old(nodes) && roots == old(roots) && loading == old(loading)
      ensures user.None? ==> outcome == NavigateToAuth && newComment == old(newComment)
                             && submitting == old(submitting) && table == old(table)
      ensures user.Some? && IsBlank(old(newComment)) ==>
                outcome == Ignored && newComment == old(newComment) && submitting == old(submitting) && table == old(table)
      ensures user.Some? && !IsBlank(old(newComment)) ==>
                !submitting
                && (insertFails ==> outcome == Failed && newComment == old(newComment) && table == old(table))
                && (!insertFails ==> outcome == Posted && newComment == ""
                                     && table == old(table) + [CommentRow(newId, taskId, user.value, Trim(old(newComment)), None, now, [])])
      ensures outcome == Posted ==>
                !loading
                && (refetched.Err? ==> nodes == old(nodes) && roots == old(roots))
                && (refetched.Ok? ==> roots == Roots(refetched.value) && |nodes| == |refetched.value|
                                      && forall k :: 0 <= k < |nodes| ==>
                                           nodes[k] == Node(refetched.value[k], LikesCount(refetched.value[k]),
                                                            Children(refetched.value, k)))
    {
      if user.None? {
        return NavigateToAuth;
      }
      var text := newComment;
      if IsBlank(text) {
        return Ignored;
      }
      submitting := true;
      if insertFails {
        outcome := Failed;
      } else {
        var content := Trim(text);
        table := table + [CommentRow(newId, taskId, user.value, content, None, now, [])];
        newComment := "";
        FetchComments(refetched);
        outcome := Posted;
      }
      submitting := false;
    }
  }

  /** A posted comment is a root of the next fetch: its `parent_id` is null. */
  lemma PostedCommentIsRoot(data: seq<CommentRow>, i: int)
    requires 0 <= i < |data| && data[i].parent_id.None?
    ensures i in Roots(data)
  {
    ExactlyOnePlace(data, i);
  }
}
