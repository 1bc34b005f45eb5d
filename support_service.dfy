// The support board's store (src/lib/supportService.ts): the
// `support_posts` table as a sequence of posts owned by a class, each service
// call a method on it. Every call catches its own errors, so a failing store
// shows up as an empty list, `null` or `false`, never as an exception.
// `storeOk` stands for whether the store answered without an error; the new
// post's id and the clock are parameters.
module SupportService {
  import opened Wrappers
  import opened Seqs
  import opened Base64

  datatype PostType = Notice | Community

  /** A row of `support_posts`. The stored password is btoa of the one the
      author gave, if any. Timestamps are milliseconds. */
  datatype Post = Post(
    id: string,
    title: string,
    content: string,
    kind: PostType,
    authorName: string,
    authorPassword: Option<string>,
    isAdmin: bool,
    status: string,
    createdAt: int,
    updatedAt: int,
    views: int)

  /** What a caller submits. An omitted is_admin is false. */
  datatype CreatePostData = CreatePostData(
    title: string,
    content: string,
    kind: PostType,
    authorName: string,
    authorPassword: Option<string>,
    isAdmin: bool)

  // ---- passwords -----------------------------------------------------------

  /** The password column a create writes: nothing for a missing or empty
      password, else its btoa. The outer None is btoa throwing
      InvalidCharacterError, which makes the create fail. */
  function StoredPassword(password: Option<string>): (r: Option<Option<string>>)
    ensures password.None? || password == Some("") ==> r == Some(None)
    ensures password.Some? && password.value != "" ==>
      (r.Some? <==> IsLatin1(password.value)) && (r.Some? ==> r.value == Btoa(password.value))
  {
    if password.None? || password.value == "" then Some(None)
    else
      match Btoa(password.value)
      case Some(h) => Some(Some(h))
      case None => None
  }

  /** verifyPostPassword's comparison: the stored value equals btoa of the
      attempt. An attempt btoa rejects, or a post stored without a
      password, never matches. */
  predicate PasswordMatches(post: Post, attempt: string) {
    post.authorPassword.Some? && Btoa(attempt) == Some(post.authorPassword.value)
  }

  // ---- rows and queries ----------------------------------------------------

  /** The row createSupportPost inserts: the submitted fields, the stored
      password, 'approved' for an admin and 'pending' otherwise; the
      table's defaults give the timestamps and zero views. */
  function NewPost(data: CreatePostData, id: string, nowMs: int, password: Option<string>): Post {
    Post(id, data.title, data.content, data.kind, data.authorName, password, data.isAdmin,
         if data.isAdmin then "approved" else "pending", nowMs, nowMs, 0)
  }

  /** getSupportPosts' filter: approved, and of the requested type when one
      is requested. */
  function PublicQuery(kind: Option<PostType>): Post -> bool {
    (p: Post) => p.status == "approved" && (kind.None? || p.kind == kind.value)
  }

  function PostCreatedAt(p: Post): int { p.createdAt }

  /** `.delete().eq('id', id)` keeps the posts with another id. */
  function IdIsNot(id: string): Post -> bool {
    (p: Post) => p.id != id
  }

  function PostIndex(posts: seq<Post>, id: string): (r: Option<nat>)
    ensures r.Some? ==> r.value < |posts| && posts[r.value].id == id
    ensures r.None? <==> forall i :: 0 <= i < |posts| ==> posts[i].id != id
  {
    if posts == [] then None
    else if posts[0].id == id then Some(0)
    else
      var k := PostIndex(posts[1..], id);
      if k.Some? then Some(k.value + 1) else None
  }

  predicate DistinctPostIds(posts: seq<Post>) {
    forall i, j :: 0 <= i < j < |posts| ==> posts[i].id != posts[j].id
  }

  /** The list after `.update({ status }).eq('id', id)`: that post's status
      replaced, everything else as it was. The admin page applies the same
      map to its local copy. */
  function SetPostStatus(posts: seq<Post>, id: string, status: string): (r: seq<Post>)
    ensures |r| == |posts|
    ensures forall i :: 0 <= i < |posts| && posts[i].id != id ==> r[i] == posts[i]
    ensures forall i :: 0 <= i < |posts| && posts[i].id == id ==> r[i] == posts[i].(status := status)
  {
    seq(|posts|, i requires 0 <= i < |posts| =>
      if posts[i].id == id then posts[i].(status := status) else posts[i])
  }

  /** The table after increment_post_views: that post's views plus one. */
  function AddView(posts: seq<Post>, id: string): (r: seq<Post>)
    ensures |r| == |posts|
    ensures forall i :: 0 <= i < |posts| && posts[i].id != id ==> r[i] == posts[i]
    ensures forall i :: 0 <= i < |posts| && posts[i].id == id ==> r[i] == posts[i].(views := posts[i].views + 1)
  {
    seq(|posts|, i requires 0 <= i < |posts| =>
      if posts[i].id == id then posts[i].(views := posts[i].views + 1) else posts[i])
  }

  // ---- the table -----------------------------------------------------------

  class PostTable {
    var posts: seq<Post>

    predicate Valid()
      reads this
    {
      DistinctPostIds(posts)
    }

    constructor()
      ensures posts == [] && Valid()
    {
      posts := [];
    }

    /** getSupportPosts: the approved posts (of the requested type, if any),
        newest first; a failure gives the empty list. */
    method GetSupportPosts(kind: Option<PostType>, storeOk: bool) returns (result: seq<Post>)
      ensures !storeOk ==> result == []
      ensures storeOk ==>
        multiset(result) == multiset(Filter(posts, PublicQuery(kind))) && SortedDesc(result, PostCreatedAt)
    {
      if !storeOk {
        return [];
      }
      result := SortDesc(Filter(posts, PublicQuery(kind)), PostCreatedAt);
    }

    /** createSupportPost: inserts one post and reports true; a password btoa
        rejects, a clash with an existing id or a store error inserts
        nothing and reports false. */
    method CreateSupportPost(data: CreatePostData, id: string, nowMs: int, storeOk: bool)
      returns (success: bool)
      requires Valid()
      modifies this
      ensures Valid()
      ensures success <==> storeOk && StoredPassword(data.authorPassword).Some? && PostIndex(old(posts), id).None?
      ensures success ==> posts == old(posts) + [NewPost(data, id, nowMs, StoredPassword(data.authorPassword).value)]
      ensures !success ==> posts == old(posts)
    {
      var hashed := StoredPassword(data.authorPassword);
      if hashed.None? || !storeOk || PostIndex(posts, id).Some? {
        return false;
      }
      posts := posts + [NewPost(data, id, nowMs, hashed.value)];
      success := true;
    }

    /** getSupportPostById: first counts a view (when that call gets
        through), then returns the post only if it is approved; otherwise,
        or on a store error, null. */
    method GetSupportPostById(id: string, viewOk: bool, storeOk: bool) returns (result: Option<Post>)
      requires Valid()
      modifies this
      ensures Valid()
      ensures posts == if viewOk then AddView(old(posts), id) else old(posts)
      ensures result.Some? <==> storeOk && PostIndex(posts, id).Some? && posts[PostIndex(posts, id).value].status == "approved"
      ensures result.Some? ==> result.value in posts && result.value.id == id && result.value.status == "approved"
    {
      if viewOk {
        posts := AddView(posts, id);
      }
      var k := PostIndex(posts, id);
      if !storeOk || k.None? || posts[k.value].status != "approved" {
        return None;
      }
      result := Some(posts[k.value]);
    }

    /** verifyPostPassword: true iff the post exists and its stored value
        equals btoa of the attempt; every failure is false. */
    method VerifyPostPassword(id: string, password: string, storeOk: bool) returns (ok: bool)
      ensures ok <==> storeOk && PostIndex(posts, id).Some? && PasswordMatches(posts[PostIndex(posts, id).value], password)
    {
      var k := PostIndex(posts, id);
      if !storeOk || k.None? {
        return false;
      }
      var hashed := Btoa(password);
      ok := hashed.Some? && posts[k.value].authorPassword == hashed;
    }

    /** getAllSupportPosts: every post whatever its status, newest first; a
        failure gives the empty list. */
    method GetAllSupportPosts(storeOk: bool) returns (result: seq<Post>)
      ensures !storeOk ==> result == []
      ensures storeOk ==> multiset(result) == multiset(posts) && SortedDesc(result, PostCreatedAt)
    {
      if !storeOk {
        return [];
      }
      result := SortDesc(posts, PostCreatedAt);
    }

    /** updatePostStatus: sets the status of the post with that id (an
        unknown id matches nothing and still succeeds). */
    method UpdatePostStatus(id: string, status: string, storeOk: bool) returns (success: bool)
      requires status == "approved" || status == "rejected"
      requires Valid()
      modifies this
      ensures Valid()
      ensures success == storeOk
      ensures posts == if storeOk then SetPostStatus(old(posts), id, status) else old(posts)
    {
      if !storeOk {
        return false;
      }
      posts := SetPostStatus(posts, id, status);
      success := true;
    }

    /** deleteSupportPost: removes the post with that id. */
    method DeleteSupportPost(id: string, storeOk: bool) returns (success: bool)
      requires Valid()
      modifies this
      ensures Valid()
      ensures success == storeOk
      ensures posts == if storeOk then Filter(old(posts), IdIsNot(id)) else old(posts)
    {
      if !storeOk {
        return false;
      }
      FilterKeepsDistinct(posts, IdIsNot(id));
      posts := Filter(posts, IdIsNot(id));
      success := true;
    }
  }

  // ---- properties ----------------------------------------------------------

  /** Filtering keeps ids distinct. */
  lemma {:induction false} FilterKeepsDistinct(posts: seq<Post>, p: Post -> bool)
    requires DistinctPostIds(posts)
    ensures DistinctPostIds(Filter(posts, p))
  {
    if posts != [] {
      FilterKeepsDistinct(posts[1..], p);
      var rest := Filter(posts[1..], p);
      forall q | q in rest
        ensures q.id != posts[0].id
      {
        FilterMembership(posts[1..], p, q);
        var j :| 0 <= j < |posts[1..]| && posts[1..][j] == q;
        assert posts[j + 1] == q;
      }
      if p(posts[0]) {
        var r := [posts[0]] + rest;
        forall i, j | 0 <= i < j < |r|
          ensures r[i].id != r[j].id
        {
          if i == 0 {
            assert r[j] == rest[j - 1] && rest[j - 1] in rest;
          } else {
            assert r[i] == rest[i - 1] && r[j] == rest[j - 1];
          }
        }
      }
    }
  }

  /** A post is listed on the board iff it is in the table, approved, and
      of the requested type (any type when none is requested). */
  lemma PublicListing(posts: seq<Post>, kind: Option<PostType>, p: Post)
    ensures p in SortDesc(Filter(posts, PublicQuery(kind)), PostCreatedAt)
      <==> p in posts && p.status == "approved" && (kind.None? || p.kind == kind.value)
  {
    SortDescMembers(Filter(posts, PublicQuery(kind)), PostCreatedAt, p);
    FilterMembership(posts, PublicQuery(kind), p);
  }

  /** A new post is approved iff it comes from an admin, so a guest's post
      stays off the board until a moderator approves it. */
  lemma NewPostApproval(data: CreatePostData, id: string, nowMs: int, password: Option<string>, kind: Option<PostType>)
    ensures NewPost(data, id, nowMs, password).status == "approved" <==> data.isAdmin
    ensures !data.isAdmin ==> !PublicQuery(kind)(NewPost(data, id, nowMs, password))
  {
  }

  /** The password round trip: a post created with a non-empty password
      verifies with exactly that password and with no other. */
  lemma VerifyCreationPassword(data: CreatePostData, id: string, nowMs: int, attempt: string)
    requires data.authorPassword.Some? && data.authorPassword.value != ""
    requires StoredPassword(data.authorPassword).Some?
    ensures var post := NewPost(data, id, nowMs, StoredPassword(data.authorPassword).value);
      PasswordMatches(post, attempt) <==> attempt == data.authorPassword.value
  {
    var post := NewPost(data, id, nowMs, StoredPassword(data.authorPassword).value);
    if PasswordMatches(post, attempt) {
      BtoaInjective(data.authorPassword.value, attempt);
    }
  }

  /** A post stored without a password verifies with no attempt. */
  lemma NoPasswordNeverVerifies(data: CreatePostData, id: string, nowMs: int, attempt: string)
    requires data.authorPassword.None? || data.authorPassword == Some("")
    ensures !PasswordMatches(NewPost(data, id, nowMs, StoredPassword(data.authorPassword).value), attempt)
  {
  }

  /** Deleting keeps exactly the other posts, in their order. */
  lemma DeleteKeepsOthers(posts: seq<Post>, id: string, p: Post)
    ensures p in Filter(posts, IdIsNot(id)) <==> p in posts && p.id != id
    ensures IsSubsequence(Filter(posts, IdIsNot(id)), posts)
  {
    FilterMembership(posts, IdIsNot(id), p);
    FilterIsSubsequence(posts, IdIsNot(id));
  }
}
