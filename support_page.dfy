// The support board page (src/app/support/page.tsx): the tab, the listed
// posts and the modal flags as a class, and the one-line preview of each
// post, which drops everything that looks like an HTML tag and keeps the
// first hundred characters.
module SupportPage {
  import opened Wrappers
  import opened Text
  import opened Seqs
  import opened SupportService

  // ---- the preview ---------------------------------------------------------

  /** The index of the first '>' at or after i. */
  function CloseAt(s: string, i: nat): (j: nat)
    requires i <= |s| && '>' in s[i..]
    ensures i <= j < |s| && s[j] == '>'
    ensures forall k :: i <= k < j ==> s[k] != '>'
    decreases |s| - i
  {
    if s[i] == '>' then i
    else
      assert s[i..] == [s[i]] + s[i + 1..];
      CloseAt(s, i + 1)
  }

  /** `s.replace(/<[^>]*>/g, '')`: scanning left to right, a '<' that has a
      '>' somewhere after it starts a match running to the first such '>',
      and the match is removed; a '<' with no '>' after it stays, and so
      does every other character. */
  function StripTags(s: string): (r: string)
    ensures |r| <= |s|
    decreases |s|
  {
    if s == [] then []
    else if s[0] == '<' && '>' in s[1..] then StripTags(s[CloseAt(s, 1) + 1..])
    else [s[0]] + StripTags(s[1..])
  }

  /** What is left is the content with some characters deleted. */
  lemma {:induction false} StripTagsSubsequence(s: string)
    ensures IsSubsequence(StripTags(s), s)
    decreases |s|
  {
    if s != [] {
      if s[0] == '<' && '>' in s[1..] {
        var j := CloseAt(s, 1);
        StripTagsSubsequence(s[j + 1..]);
        SubsequenceOfSuffix(StripTags(s[j + 1..]), s, j + 1);
      } else {
        StripTagsSubsequence(s[1..]);
        assert [s[0]] + StripTags(s[1..]) == StripTags(s);
        assert StripTags(s)[1..] == StripTags(s[1..]);
      }
    }
  }

  /** A subsequence of a suffix is a subsequence of the whole. */
  lemma {:induction false} SubsequenceOfSuffix(a: string, s: string, k: nat)
    requires k <= |s| && IsSubsequence(a, s[k..])
    ensures IsSubsequence(a, s)
    decreases k
  {
    if k > 0 {
      assert s[k..] == s[1..][k - 1..];
      SubsequenceOfSuffix(a, s[1..], k - 1);
      SubsequenceExtend(a, s[1..], s[0]);
      assert [s[0]] + s[1..] == s;
    }
  }

  /** No '<' is followed, anywhere later, by a '>': nothing tag-like is
      left. */
  predicate TagFree(s: string) {
    forall i, j :: 0 <= i < j < |s| && s[i] == '<' ==> s[j] != '>'
  }

  /** Stripping leaves no tag behind. */
  lemma {:induction false} StripTagsTagFree(s: string)
    ensures TagFree(StripTags(s))
    decreases |s|
  {
    if s != [] {
      if s[0] == '<' && '>' in s[1..] {
        StripTagsTagFree(s[CloseAt(s, 1) + 1..]);
      } else {
        var rest := StripTags(s[1..]);
        StripTagsTagFree(s[1..]);
        if s[0] == '<' {
          StripTagsSubsequence(s[1..]);
          forall j | 0 <= j < |rest|
            ensures rest[j] != '>'
          {
            SubsequenceMembers(rest, s[1..], rest[j]);
          }
        }
        var r := [s[0]] + rest;
        forall i, j | 0 <= i < j < |r| && r[i] == '<'
          ensures r[j] != '>'
        {
          if i > 0 {
            assert r[i] == rest[i - 1] && r[j] == rest[j - 1];
          } else {
            assert r[j] == rest[j - 1];
          }
        }
      }
    }
  }

  /** Tag-free text passes through unchanged, so stripping twice is
      stripping once. */
  lemma {:induction false} StripTagsIdentity(s: string)
    requires TagFree(s)
    ensures StripTags(s) == s
    decreases |s|
  {
    if s != [] {
      assert TagFree(s[1..]) by {
        forall i, j | 0 <= i < j < |s[1..]| && s[1..][i] == '<'
          ensures s[1..][j] != '>'
        {
          assert s[i + 1] == '<';
        }
      }
      StripTagsIdentity(s[1..]);
    }
  }

  lemma StripTagsIdempotent(s: string)
    ensures StripTags(StripTags(s)) == StripTags(s)
  {
    StripTagsTagFree(s);
    StripTagsIdentity(StripTags(s));
  }

  /** Text without any '<' is left alone. */
  lemma NoAngleUntouched(s: string)
    requires '<' !in s
    ensures StripTags(s) == s
  {
    StripTagsIdentity(s);
  }

  /** The preview: tags stripped, then the first 100 characters. */
  function Preview(content: string): (p: string)
    ensures |p| <= 100
    ensures p == Take(StripTags(content), 100)
  {
    Take(StripTags(content), 100)
  }

  /** The preview is at most 100 characters taken, in order, from the
      content, and has no tag left in it. */
  lemma PreviewFromContent(content: string)
    ensures |Preview(content)| <= 100
    ensures IsSubsequence(Preview(content), content)
    ensures TagFree(Preview(content))
  {
    var stripped := StripTags(content);
    StripTagsSubsequence(content);
    SubsequencePrefix(stripped, content, |Preview(content)|);
    StripTagsTagFree(content);
  }

  /** Content without '<' is only cut to length. */
  lemma PlainContentPreview(content: string)
    requires '<' !in content
    ensures Preview(content) == Take(content, 100)
  {
    NoAngleUntouched(content);
  }

  /** The line under each title: the preview followed by "...". */
  function PreviewLine(content: string): (line: string)
    ensures 3 <= |line| <= 103 && line[|line| - 3..] == "..."
  {
    Preview(content) + "..."
  }

  // ---- the page ------------------------------------------------------------

  /** The write button is rendered on the community tab only. */
  predicate ShowsWriteButton(tab: PostType) {
    tab == Community
  }

  class SupportPageState {
    var activeTab: PostType
    var posts: seq<Post>
    var showPostModal: bool
    var selectedPost: Option<Post>

    constructor()
      ensures activeTab == Notice && posts == [] && !showPostModal && selectedPost.None?
    {
      activeTab := Notice;
      posts := [];
      showPostModal := false;
      selectedPost := None;
    }

    /** loadPosts: the approved posts of the active tab, newest first. */
    method LoadPosts(table: PostTable, storeOk: bool)
      modifies this
      ensures activeTab == old(activeTab) && showPostModal == old(showPostModal) && selectedPost == old(selectedPost)
      ensures !storeOk ==> posts == []
      ensures storeOk ==> (multiset(posts) == multiset(Filter(table.posts, PublicQuery(Some(activeTab))))
        && SortedDesc(posts, PostCreatedAt))
    {
      posts := table.GetSupportPosts(Some(activeTab), storeOk);
    }

    /** A tab click sets the tab; the effect on the tab reloads the list
        only when the tab actually changes, so clicking the active tab
        keeps the list as it is. */
    method SelectTab(tab: PostType, table: PostTable, storeOk: bool)
      modifies this
      ensures activeTab == tab && showPostModal == old(showPostModal) && selectedPost == old(selectedPost)
      ensures tab == old(activeTab) ==> posts == old(posts)
      ensures tab != old(activeTab) && !storeOk ==> posts == []
      ensures tab != old(activeTab) && storeOk ==>
        multiset(posts) == multiset(Filter(table.posts, PublicQuery(Some(tab)))) && SortedDesc(posts, PostCreatedAt)
    {
      if tab != activeTab {
        activeTab := tab;
        LoadPosts(table, storeOk);
      }
    }

    /** The write button opens the form; it exists only on the community
        tab, so a click anywhere else changes nothing. */
    method ClickWriteButton()
      modifies this
      ensures showPostModal == (old(showPostModal) || ShowsWriteButton(activeTab))
      ensures activeTab == old(activeTab) && posts == old(posts) && selectedPost == old(selectedPost)
    {
      if ShowsWriteButton(activeTab) {
        showPostModal := true;
      }
    }

    /** onSuccess of the form: close it and reload the list. */
    method PostCreated(table: PostTable, storeOk: bool)
      modifies this
      ensures !showPostModal && activeTab == old(activeTab) && selectedPost == old(selectedPost)
      ensures !storeOk ==> posts == []
      ensures storeOk ==>
        multiset(posts) == multiset(Filter(table.posts, PublicQuery(Some(activeTab)))) && SortedDesc(posts, PostCreatedAt)
    {
      showPostModal := false;
      LoadPosts(table, storeOk);
    }

    /** Clicking a post opens its detail; closing the detail clears it. */
    method SelectPost(p: Option<Post>)
      modifies this
      ensures selectedPost == p && activeTab == old(activeTab) && posts == old(posts) && showPostModal == old(showPostModal)
    {
      selectedPost := p;
    }
  }

  /** A guest's new post is not listed after the reload: it is pending. */
  lemma NewGuestPostNotListed(posts: seq<Post>, data: CreatePostData, id: string, nowMs: int,
                              password: Option<string>, tab: PostType)
    requires !data.isAdmin
    ensures NewPost(data, id, nowMs, password) !in SortDesc(Filter(posts + [NewPost(data, id, nowMs, password)],
      PublicQuery(Some(tab))), PostCreatedAt)
  {
    var p := NewPost(data, id, nowMs, password);
    PublicListing(posts + [p], Some(tab), p);
  }
}
