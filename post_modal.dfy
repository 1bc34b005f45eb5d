// The post-writing form (src/components/support/PostModal.tsx): its fields,
// its error text and its loading flag as a class whose methods are the
// form's handlers. Submitting checks the fields, then asks the store to
// create a guest post.
module PostModal {
  import opened Wrappers
  import opened Text
  import opened Base64
  import opened SupportService

  datatype PostField = Title | Content | AuthorName | AuthorPassword

  datatype PostForm = PostForm(title: string, content: string, authorName: string, authorPassword: string)

  const EmptyForm: PostForm := PostForm("", "", "", "")

  const FieldsMissing: string := "제목, 내용, 작성자명을 모두 입력해주세요."
  const PasswordMissing: string := "비밀번호를 입력해주세요."
  const CreateFailed: string := "게시글 작성에 실패했습니다. 다시 시도해주세요."

  /** `{ ...prev, [name]: value }` */
  function WithField(f: PostForm, field: PostField, value: string): PostForm {
    match field
    case Title => f.(title := value)
    case Content => f.(content := value)
    case AuthorName => f.(authorName := value)
    case AuthorPassword => f.(authorPassword := value)
  }

  function FieldValue(f: PostForm, field: PostField): string {
    match field
    case Title => f.title
    case Content => f.content
    case AuthorName => f.authorName
    case AuthorPassword => f.authorPassword
  }

  /** Setting a field changes that field and no other. */
  lemma WithFieldOnlyThatField(f: PostForm, field: PostField, value: string, other: PostField)
    ensures FieldValue(WithField(f, field, value), field) == value
    ensures other != field ==> FieldValue(WithField(f, field, value), other) == FieldValue(f, other)
  {
  }

  /** The checks before anything is sent: title, content and author must
      not be blank; a community post also needs a non-blank password. */
  function SubmitError(f: PostForm, kind: PostType): (e: Option<string>)
    ensures e.None? <==>
      !IsBlank(f.title) && !IsBlank(f.content) && !IsBlank(f.authorName)
      && (kind == Community ==> !IsBlank(f.authorPassword))
    ensures e.Some? ==> e.value == FieldsMissing || e.value == PasswordMissing
  {
    TrimEmptyIffBlank(f.title);
    TrimEmptyIffBlank(f.content);
    TrimEmptyIffBlank(f.authorName);
    TrimEmptyIffBlank(f.authorPassword);
    if Trim(f.title) == "" || Trim(f.content) == "" || Trim(f.authorName) == "" then Some(FieldsMissing)
    else if kind == Community && Trim(f.authorPassword) == "" then Some(PasswordMissing)
    else None
  }

  /** The first message wins: a blank title, content or author is reported
      as such even when the password is blank too. */
  lemma MissingFieldsReportedFirst(f: PostForm, kind: PostType)
    requires IsBlank(f.title) || IsBlank(f.content) || IsBlank(f.authorName)
    ensures SubmitError(f, kind) == Some(FieldsMissing)
  {
    TrimEmptyIffBlank(f.title);
    TrimEmptyIffBlank(f.content);
    TrimEmptyIffBlank(f.authorName);
  }

  /** A notice never asks for a password. */
  lemma NoticeNeedsNoPassword(f: PostForm)
    requires !IsBlank(f.title) && !IsBlank(f.content) && !IsBlank(f.authorName)
    ensures SubmitError(f, Notice).None?
  {
  }

  /** What is sent: the fields as typed (untrimmed), the password only for
      a community post, and never the admin flag. */
  function Payload(f: PostForm, kind: PostType): (d: CreatePostData)
    ensures d.title == f.title && d.content == f.content && d.authorName == f.authorName && d.kind == kind
    ensures d.authorPassword == (if kind == Community then Some(f.authorPassword) else None)
    ensures !d.isAdmin
  {
    CreatePostData(f.title, f.content, kind, f.authorName,
                   if kind == Community then Some(f.authorPassword) else None, false)
  }

  class PostModalState {
    var form: PostForm
    var loading: bool
    var error: string

    constructor()
      ensures form == EmptyForm && !loading && error == ""
    {
      form := EmptyForm;
      loading := false;
      error := "";
    }

    /** handleInputChange: updates the named field only. */
    method HandleInputChange(field: PostField, value: string)
      modifies this
      ensures form == WithField(old(form), field, value)
      ensures loading == old(loading) && error == old(error)
    {
      form := WithField(form, field, value);
    }

    /** handleSubmit: a failed check sets its message and sends nothing.
        Otherwise the post is created; `success` (onSuccess being called)
        holds iff the store created it, and a failed create sets the
        failure message. Loading ends false after every attempt that
        reached the store. */
    method HandleSubmit(kind: PostType, table: PostTable, id: string, nowMs: int, storeOk: bool)
      returns (success: bool)
      requires table.Valid()
      modifies this, table
      ensures table.Valid()
      ensures form == old(form)
      ensures SubmitError(form, kind).Some? ==>
        !success && error == SubmitError(form, kind).value
        && table.posts == old(table.posts) && loading == old(loading)
      ensures SubmitError(form, kind).None? ==> !loading
      ensures SubmitError(form, kind).None? ==> (success <==>
        storeOk && StoredPassword(Payload(form, kind).authorPassword).Some? && PostIndex(old(table.posts), id).None?)
      ensures SubmitError(form, kind).None? && success ==>
        error == "" && table.posts == old(table.posts) + [NewPost(Payload(form, kind), id, nowMs,
          StoredPassword(Payload(form, kind).authorPassword).value)]
      ensures SubmitError(form, kind).None? && !success ==>
        error == CreateFailed && table.posts == old(table.posts)
    {
      var check := SubmitError(form, kind);
      if check.Some? {
        error := check.value;
        return false;
      }
      loading := true;
      error := "";
      var payload := Payload(form, kind);
      success := table.CreateSupportPost(payload, id, nowMs, storeOk);
      assert form == old(form) && payload == Payload(form, kind);
      if !success {
        error := CreateFailed;
      }
      loading := false;
    }
  }

  /** A post written here waits for moderation: it is created pending. */
  lemma FormPostsArePending(f: PostForm, kind: PostType, id: string, nowMs: int, password: Option<string>)
    ensures NewPost(Payload(f, kind), id, nowMs, password).status == "pending"
  {
  }

  /** A community post written here verifies with the password as typed
      (spaces included) and with nothing else. */
  lemma CommunityPasswordVerifies(f: PostForm, id: string, nowMs: int, attempt: string)
    requires SubmitError(f, Community).None? && IsLatin1(f.authorPassword)
    ensures StoredPassword(Payload(f, Community).authorPassword).Some?
    ensures var post := NewPost(Payload(f, Community), id, nowMs, StoredPassword(Payload(f, Community).authorPassword).value);
      PasswordMatches(post, attempt) <==> attempt == f.authorPassword
  {
    assert f.authorPassword != "" by {
      if f.authorPassword == "" {
        assert IsBlank(f.authorPassword);
      }
    }
    VerifyCreationPassword(Payload(f, Community), id, nowMs, attempt);
  }
}
