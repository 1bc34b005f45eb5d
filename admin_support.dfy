// The moderation page (src/app/admin/support/page.tsx): the page keeps its
// own copy of every post, changes it only after the store reports success,
// and filters and counts it by status.
module AdminSupport {
  import opened Wrappers
  import opened Seqs
  import opened SupportService

  const StatusChangeFailed: string := "상태 변경에 실패했습니다."
  const DeleteFailed: string := "삭제에 실패했습니다."

  function StatusIs(status: string): Post -> bool {
    (p: Post) => p.status == status
  }

  /** filteredPosts: every post for 'all', otherwise those with that
      status, in the page's order. */
  function FilteredPosts(posts: seq<Post>, filter: string): (r: seq<Post>)
    ensures filter == "all" ==> r == posts
    ensures IsSubsequence(r, posts)
  {
    FilterIsSubsequence(posts, StatusIs(filter));
    SubsequenceRefl(posts);
    if filter == "all" then posts else Filter(posts, StatusIs(filter))
  }

  /** A post passes a status filter iff it has that status. */
  lemma FilteredPostsMembership(posts: seq<Post>, filter: string, p: Post)
    requires filter != "all"
    ensures p in FilteredPosts(posts, filter) <==> p in posts && p.status == filter
  {
    FilterMembership(posts, StatusIs(filter), p);
  }

  /** The count shown on a status button. */
  function StatusCount(posts: seq<Post>, status: string): (n: nat)
    ensures n <= |posts|
  {
    |Filter(posts, StatusIs(status))|
  }

  predicate Moderated(p: Post) {
    p.status == "pending" || p.status == "approved" || p.status == "rejected"
  }

  /** When every post has one of the three statuses, the three counts add
      up to the 'all' count. */
  lemma {:induction false} CountsAddUp(posts: seq<Post>)
    requires forall i :: 0 <= i < |posts| ==> Moderated(posts[i])
    ensures StatusCount(posts, "pending") + StatusCount(posts, "approved") + StatusCount(posts, "rejected") == |posts|
  {
    if posts != [] {
      CountsAddUp(posts[1..]);
    }
  }

  /** getStatusText: fixed labels for the three statuses, anything else
      shown as it is. */
  function StatusText(status: string): (t: string)
    ensures status == "approved" ==> t == "승인됨"
    ensures status == "rejected" ==> t == "거부됨"
    ensures status == "pending" ==> t == "대기중"
    ensures !(status == "approved" || status == "rejected" || status == "pending") ==> t == status
  {
    match status
    case "approved" => "승인됨"
    case "rejected" => "거부됨"
    case "pending" => "대기중"
    case _ => status
  }

  /** The three labels differ, so a moderator can tell the statuses apart. */
  lemma StatusTextsDiffer(a: string, b: string)
    requires a in {"pending", "approved", "rejected"} && b in {"pending", "approved", "rejected"} && a != b
    ensures StatusText(a) != StatusText(b)
  {
  }

  /** Approve and reject are offered only for pending posts. */
  predicate OffersModeration(p: Post) {
    p.status == "pending"
  }

  /** Once a post is approved or rejected, its actions are gone. */
  lemma ModerationIsFinal(posts: seq<Post>, id: string, status: string, i: nat)
    requires status == "approved" || status == "rejected"
    requires i < |posts| && posts[i].id == id
    ensures !OffersModeration(SetPostStatus(posts, id, status)[i])
  {
  }

  class AdminSupportPage {
    var posts: seq<Post>
    var filter: string
    var actionLoading: Option<string>

    constructor()
      ensures posts == [] && filter == "all" && actionLoading.None?
    {
      posts := [];
      filter := "all";
      actionLoading := None;
    }

    /** loadPosts: the store's full list, newest first (empty on failure). */
    method LoadPosts(table: PostTable, storeOk: bool)
      modifies this
      ensures storeOk ==> multiset(posts) == multiset(table.posts) && SortedDesc(posts, PostCreatedAt)
      ensures !storeOk ==> posts == []
      ensures filter == old(filter) && actionLoading == old(actionLoading)
    {
      posts := table.GetAllSupportPosts(storeOk);
    }

    /** handleStatusChange: on success the page's posts with that id take
        the new status and nothing else changes; on failure an alert is
        raised and the list stays. No action is left running. */
    method HandleStatusChange(postId: string, status: string, table: PostTable, storeOk: bool)
      returns (alert: Option<string>)
      requires status == "approved" || status == "rejected"
      requires table.Valid()
      modifies this, table
      ensures table.Valid()
      ensures table.posts == if storeOk then SetPostStatus(old(table.posts), postId, status) else old(table.posts)
      ensures posts == if storeOk then SetPostStatus(old(posts), postId, status) else old(posts)
      ensures alert == if storeOk then None else Some(StatusChangeFailed)
      ensures filter == old(filter) && actionLoading.None?
    {
      actionLoading := Some(postId);
      var success := table.UpdatePostStatus(postId, status, storeOk);
      if success {
        posts := SetPostStatus(posts, postId, status);
        alert := None;
      } else {
        alert := Some(StatusChangeFailed);
      }
      actionLoading := None;
    }

    /** handleDelete: nothing without confirmation; on success the page's
        posts with that id are dropped and the rest keep their order; on
        failure an alert is raised and the list stays. */
    method HandleDelete(postId: string, confirmed: bool, table: PostTable, storeOk: bool)
      returns (alert: Option<string>)
      requires table.Valid()
      modifies this, table
      ensures table.Valid()
      ensures !confirmed ==> (table.posts == old(table.posts) && posts == old(posts) && alert.None?
        && actionLoading == old(actionLoading))
      ensures confirmed ==> table.posts == (if storeOk then Filter(old(table.posts), IdIsNot(postId)) else old(table.posts))
      ensures confirmed ==> posts == (if storeOk then Filter(old(posts), IdIsNot(postId)) else old(posts))
      ensures confirmed ==> alert == (if storeOk then None else Some(DeleteFailed)) && actionLoading.None?
      ensures filter == old(filter)
    {
      if !confirmed {
        return None;
      }
      actionLoading := Some(postId);
      var success := table.DeleteSupportPost(postId, storeOk);
      if success {
        posts := Filter(posts, IdIsNot(postId));
        alert := None;
      } else {
        alert := Some(DeleteFailed);
      }
      actionLoading := None;
    }

    /** A filter button selects its status (or 'all'). */
    method SetFilter(f: string)
      requires f in {"all", "pending", "approved", "rejected"}
      modifies this
      ensures filter == f && posts == old(posts) && actionLoading == old(actionLoading)
    {
      filter := f;
    }
  }

  /** A status change keeps the page's list the same length, in the same
      order, with the same ids; only the affected posts' status moves. */
  lemma StatusChangeKeepsShape(posts: seq<Post>, id: string, status: string)
    ensures |SetPostStatus(posts, id, status)| == |posts|
    ensures forall i :: 0 <= i < |posts| ==> SetPostStatus(posts, id, status)[i].id == posts[i].id
    ensures forall i :: 0 <= i < |posts| ==> SetPostStatus(posts, id, status)[i] == posts[i].(status := SetPostStatus(posts, id, status)[i].status)
  {
  }

  /** Approving a pending post moves exactly one post from the pending
      count to the approved count. */
  lemma {:induction false} ApproveMovesOne(posts: seq<Post>, id: string, i: nat)
    requires DistinctPostIds(posts) && i < |posts| && posts[i].id == id && posts[i].status == "pending"
    ensures StatusCount(SetPostStatus(posts, id, "approved"), "pending") == StatusCount(posts, "pending") - 1
    ensures StatusCount(SetPostStatus(posts, id, "approved"), "approved") == StatusCount(posts, "approved") + 1
  {
    var after := SetPostStatus(posts, id, "approved");
    assert after[1..] == SetPostStatus(posts[1..], id, "approved");
    if i == 0 {
      assert SetPostStatus(posts[1..], id, "approved") == posts[1..];
    } else {
      ApproveMovesOne(posts[1..], id, i - 1);
    }
  }
}
