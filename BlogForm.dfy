/**
 * The create/edit form: its validation and the payload it hands to the
 * parent (pure), and the component state (`title`, `content`, `loading`)
 * that its effect and its submit handler update in sequence.
 */
module BlogForm {
  import opened Common
  import opened JsText
  import opened Posts

  /** The `postData` object: trimmed fields, and `_id` only when editing. */
  datatype Payload = Payload(title: string, content: string, id: Option<string>)

  /** The fields the form shows for a given `editingPost`: its title and content, or two empty strings. */
  function DraftFor(editing: Option<Post>): (d: (string, string))
  {
    match editing
    case None => ("", "")
    case Some(p) => (p.title, p.content)
  }

  /**
   * Validation and payload construction of `handleSubmit`: None is the
   * "fill in both" alert, when either field is blank once trimmed.
   */
  function BuildPayload(title: string, content: string, editing: Option<Post>): (r: Option<Payload>)
    ensures r.None? <==> AllWhiteSpace(title) || AllWhiteSpace(content)
    ensures r.Some? ==> r.value.title == Trim(title) && r.value.content == Trim(content)
    ensures r.Some? ==> r.value.id.Some? == editing.Some?
    ensures r.Some? && editing.Some? ==> r.value.id == Some(editing.value.id)
  {
    TrimEmptyIffAllWhiteSpace(title);
    TrimEmptyIffAllWhiteSpace(content);
    if Trim(title) == [] || Trim(content) == [] then None
    else Some(Payload(Trim(title), Trim(content), if editing.Some? then Some(editing.value.id) else None))
  }

  /** A payload that passes validation has non-empty fields with no surrounding white space. */
  lemma PayloadIsTrimmedAndNonEmpty(title: string, content: string, editing: Option<Post>)
    ensures var r := BuildPayload(title, content, editing);
      r.Some? ==> r.value.title != [] && r.value.content != [] && Trimmed(r.value.title) && Trimmed(r.value.content)
  {
  }

  /** Resubmitting a payload's own fields builds the same payload: validation is idempotent. */
  lemma PayloadStable(title: string, content: string, editing: Option<Post>)
    ensures var r := BuildPayload(title, content, editing);
      r.Some? ==> BuildPayload(r.value.title, r.value.content, editing) == r
  {
    TrimIdempotent(title);
    TrimIdempotent(content);
  }

  /**
   * Opening the form on a post and submitting it unchanged sends that post's
   * trimmed title and content under the post's own id, unless one of them is blank.
   */
  lemma UnchangedEditSubmitsOwnPost(p: Post)
    ensures var (title, content) := DraftFor(Some(p));
      BuildPayload(title, content, Some(p)) ==
        if AllWhiteSpace(p.title) || AllWhiteSpace(p.content) then None
        else Some(Payload(Trim(p.title), Trim(p.content), Some(p.id)))
  {
  }

  /** A blank title is rejected, whatever the content: `{title: "  ", content: "x"}` is refused. */
  lemma BlankTitleRejected(content: string, editing: Option<Post>)
    ensures BuildPayload("  ", content, editing).None?
  {
  }

  /** The form component's state. */
  class Form {
    var title: string
    var content: string
    var loading: bool

    /** Mounting: the initial state, then the `editingPost` effect. */
    constructor (editing: Option<Post>)
      ensures (title, content) == DraftFor(editing)
      ensures !loading
    {
      title, content, loading := "", "", false;
      new;
      SyncEditingPost(editing);
    }

    /** The effect that runs when `editingPost` changes: load its fields, or clear them. */
    method SyncEditingPost(editing: Option<Post>)
      modifies this
      ensures (title, content) == DraftFor(editing)
      ensures loading == old(loading)
    {
      match editing {
        case Some(p) =>
          title := p.title;
          content := p.content;
        case None =>
          title := "";
          content := "";
      }
    }

    /** Typing in the title input; the input is disabled while saving. */
    method TypeTitle(t: string)
      modifies this
      ensures title == (if old(loading) then old(title) else t)
      ensures content == old(content) && loading == old(loading)
    {
      if !loading {
        title := t;
      }
    }

    /** Typing in the content textarea; disabled while saving. */
    method TypeContent(c: string)
      modifies this
      ensures content == (if old(loading) then old(content) else c)
      ensures title == old(title) && loading == old(loading)
    {
      if !loading {
        content := c;
      }
    }

    /**
     * `handleSubmit` up to the await: validate, build the payload, raise the
     * loading flag. The payload returned is what `onSubmit` receives; None
     * means the alert was shown and `onSubmit` is never called.
     */
    method BeginSubmit(editing: Option<Post>) returns (payload: Option<Payload>)
      modifies this
      ensures payload == BuildPayload(old(title), old(content), editing)
      ensures payload.None? <==> AllWhiteSpace(old(title)) || AllWhiteSpace(old(content))
      ensures title == old(title) && content == old(content)
      ensures loading == (payload.Some? || old(loading))
    {
      payload := BuildPayload(title, content, editing);
      if payload.Some? {
        loading := true;
      }
    }

    /**
     * `handleSubmit` after the await: the fields are cleared when `onSubmit`
     * resolved, kept when it rejected; the loading flag drops either way.
     */
    method FinishSubmit(resolved: bool)
      modifies this
      ensures !loading
      ensures resolved ==> title == "" && content == ""
      ensures !resolved ==> title == old(title) && content == old(content)
    {
      if resolved {
        title := "";
        content := "";
      }
      loading := false;
    }
  }
}
