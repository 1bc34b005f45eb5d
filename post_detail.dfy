// The post detail view (src/components/support/PostDetailModal.tsx): the
// content shown line by line with a break after every line but the last,
// the type header, and which footer items are visible.
module PostDetail {
  import opened Text
  import opened SupportService
  import IconMap

  /** One rendered span: a line of the content and whether a <br/> follows
      it. */
  datatype Span = Span(text: string, lineBreak: bool)

  /** formatContent: the '\n'-separated lines, each with a break unless it
      is the last. */
  function FormatContent(content: string): (spans: seq<Span>)
    ensures |spans| == |Split(content, '\n')|
    ensures forall i :: 0 <= i < |spans| ==>
      spans[i] == Span(Split(content, '\n')[i], i < |spans| - 1)
  {
    var lines := Split(content, '\n');
    seq(|lines|, i requires 0 <= i < |lines| => Span(lines[i], i < |lines| - 1))
  }

  function Texts(spans: seq<Span>): (r: seq<string>)
    ensures |r| == |spans| && forall i :: 0 <= i < |spans| ==> r[i] == spans[i].text
  {
    seq(|spans|, i requires 0 <= i < |spans| => spans[i].text)
  }

  function BreakCount(spans: seq<Span>): nat {
    if spans == [] then 0 else (if spans[0].lineBreak then 1 else 0) + BreakCount(spans[1..])
  }

  /** Spans whose breaks are all set but the last's. */
  lemma {:induction false} BreaksAllButLast(spans: seq<Span>)
    requires spans != []
    requires forall i :: 0 <= i < |spans| ==> spans[i].lineBreak == (i < |spans| - 1)
    ensures BreakCount(spans) == |spans| - 1
  {
    if |spans| > 1 {
      BreaksAllButLast(spans[1..]);
    }
  }

  /** There is one span per line, i.e. one more than there are newlines;
      there is one break per newline; no span holds a newline; and joining
      the spans' lines with '\n' gives the content back. */
  lemma FormatContentFaithful(content: string)
    ensures |FormatContent(content)| == CountChar(content, '\n') + 1
    ensures BreakCount(FormatContent(content)) == CountChar(content, '\n')
    ensures forall i :: 0 <= i < |FormatContent(content)| ==> '\n' !in FormatContent(content)[i].text
    ensures Join(Texts(FormatContent(content)), "\n") == content
  {
    var spans := FormatContent(content);
    SplitCount(content, '\n');
    BreaksAllButLast(spans);
    SplitPartsFree(content, '\n');
    JoinSplit(content, '\n');
    assert Texts(spans) == Split(content, '\n');
  }

  /** The header: bell and '공지사항' for a notice, users and '커뮤니티'
      for a community post. */
  function TypeHeader(kind: PostType): (h: (string, string))
    ensures kind == Notice ==> h == ("bell", "공지사항")
    ensures kind == Community ==> h == ("users", "커뮤니티")
  {
    if kind == Notice then ("bell", "공지사항") else ("users", "커뮤니티")
  }

  /** The icon map has no "bell" entry, so a notice's header shows the
      alert icon that DynamicIcon falls back to, while a community post's
      header shows the users icon. */
  lemma HeaderIcons()
    ensures !IconMap.HasIcon(TypeHeader(Notice).0)
    ensures IconMap.DynamicIcon(TypeHeader(Notice).0, Wrappers.None, Wrappers.None).icon == IconMap.AlertCircle
    ensures IconMap.DynamicIcon(TypeHeader(Community).0, Wrappers.None, Wrappers.None).icon == IconMap.Users
  {
    assert Lower("bell") == "bell";
    assert Lower("users") == "users";
  }

  /** "Last modified" is shown iff the post was updated after creation. */
  predicate ShowsModified(post: Post) {
    post.createdAt != post.updatedAt
  }

  /** The report action is offered on guests' posts only. */
  predicate ShowsReport(post: Post) {
    !post.isAdmin
  }

  /** A freshly created post shows no modification time; a guest's shows
      the report action and an admin's does not. */
  lemma NewPostFooter(data: CreatePostData, id: string, nowMs: int, password: Wrappers.Option<string>)
    ensures !ShowsModified(NewPost(data, id, nowMs, password))
    ensures ShowsReport(NewPost(data, id, nowMs, password)) <==> !data.isAdmin
  {
  }

  /** A moderation status change alone does not make a post look modified. */
  lemma StatusChangeNotModified(post: Post, status: string)
    ensures ShowsModified(post.(status := status)) <==> ShowsModified(post)
  {
  }
}
