/**
 * One post card: the ownership check that gates the author-only controls,
 * the controls a card shows, and the action each of them hands to its parent.
 */
module BlogItem {
  import opened Common
  import opened Posts

  /** `String(x)` of a property holding an id, `null` or nothing. */
  function JsIdString(x: JsId): string {
    match x
    case Undefined => "undefined"
    case Null => "null"
    case Str(s) => s
  }

  /** `String(post.author)`: a bare id is itself, any object prints as "[object Object]". */
  function AuthorString(a: Author): string {
    match a
    case AuthorId(s) => s
    case Embedded(_, _) => "[object Object]"
    case NullAuthor => "null"
    case NoAuthor => "undefined"
  }

  /**
   * `String(post.author?._id)`: only an embedded object's `_id` is read; a
   * string has no `_id`, and `?.` turns a null or missing author into `undefined`.
   */
  function EmbeddedIdString(a: Author): string {
    match a
    case Embedded(o, _) => JsIdString(o)
    case _ => "undefined"
  }

  /** A current user id is truthy when it is present and not the empty string. */
  predicate Truthy(uid: Option<string>) {
    uid.Some? && uid.value != ""
  }

  /** The author's id as the service means it: the bare id or the embedded `_id`. */
  function AuthorIdOf(a: Author): Option<string> {
    match a
    case AuthorId(s) => Some(s)
    case Embedded(Str(s), _) => Some(s)
    case _ => None
  }

  /** The strings that JavaScript's `String` conversion produces for things that are not ids. */
  predicate IsConversionArtifact(s: string) {
    s == "undefined" || s == "null" || s == "[object Object]"
  }

  /**
   * `isAuthor`: the current user id is truthy and equals, as a string, either
   * the author field itself or the embedded author's `_id`.
   */
  function IsAuthor(post: Post, uid: Option<string>): (r: bool)
    ensures !Truthy(uid) ==> !r
    ensures Truthy(uid) && !IsConversionArtifact(uid.value) ==> (r <==> AuthorIdOf(post.author) == uid)
  {
    Truthy(uid) && (AuthorString(post.author) == uid.value || EmbeddedIdString(post.author) == uid.value)
  }

  /** The embedded author is matched on `_id`; its `id` property never matters. */
  lemma IsAuthorIgnoresPlainId(post: Post, o: JsId, x: JsId, y: JsId, uid: Option<string>)
    ensures IsAuthor(post.(author := Embedded(o, x)), uid) == IsAuthor(post.(author := Embedded(o, y)), uid)
  {
  }

  /**
   * The string comparison is literal: a user whose id were the string
   * "undefined" would own every post whose author is a bare id.
   */
  lemma UndefinedIdOwnsBareAuthors(post: Post, s: string)
    requires post.author == AuthorId(s)
    ensures IsAuthor(post, Some("undefined"))
  {
  }

  /**
   * Likewise a user whose id were the string "null" would own every post with
   * a `null` author, and so would one whose id were "undefined", through the
   * missing `_id` of the null author.
   */
  lemma NullIdOwnsNullAuthors(post: Post)
    requires post.author == NullAuthor
    ensures IsAuthor(post, Some("null"))
    ensures IsAuthor(post, Some("undefined"))
    ensures forall uid :: Truthy(uid) && !IsConversionArtifact(uid.value) ==> !IsAuthor(post, uid)
  {
  }

  /** A control on a card. */
  datatype Control = LikeButton(liked: bool, count: int) | EditButton | DeleteButton

  /** What a card asks its parent to do. */
  datatype Action = LikePost(id: string) | EditPost(post: Post) | DeletePost(id: string) | ViewPost(post: Post)

  /** The controls of a card: the like button always, Edit and Delete only for the author. */
  function Controls(post: Post, uid: Option<string>): (cs: seq<Control>)
    ensures |cs| >= 1 && cs[0] == LikeButton(post.isLikedByUser, LikeCount(post))
    ensures EditButton in cs <==> IsAuthor(post, uid)
    ensures DeleteButton in cs <==> IsAuthor(post, uid)
    ensures forall i :: 1 <= i < |cs| ==> !cs[i].LikeButton?
  {
    [LikeButton(post.isLikedByUser, LikeCount(post))] + (if IsAuthor(post, uid) then [EditButton, DeleteButton] else [])
  }

  /** Pressing a control: like and delete pass the post's id, edit passes the whole post. */
  function Press(post: Post, c: Control): (a: Action)
  {
    match c
    case LikeButton(_, _) => LikePost(post.id)
    case EditButton => EditPost(post)
    case DeleteButton => DeletePost(post.id)
  }

  /** A click on the card itself opens the full view, unless it landed inside a button. */
  function CardClick(post: Post, targetInsideButton: bool): (a: Option<Action>)
  {
    if targetInsideButton then None else Some(ViewPost(post))
  }

  /** A rendered card: its React key, its post, the "You" badge and its controls. */
  datatype ItemView = ItemView(key: string, post: Post, mine: bool, controls: seq<Control>)

  /** The card rendered for `post`. */
  function Render(post: Post, uid: Option<string>): (v: ItemView)
  {
    ItemView(post.id, post, IsAuthor(post, uid), Controls(post, uid))
  }

  /** Whatever control of a card is pressed, the action concerns that card's post. */
  lemma ActionsConcernOwnPost(post: Post, uid: Option<string>, i: nat)
    requires i < |Controls(post, uid)|
    ensures var a := Press(post, Controls(post, uid)[i]);
      match a
      case LikePost(id) => id == post.id
      case DeletePost(id) => id == post.id && IsAuthor(post, uid)
      case EditPost(p) => p == post && IsAuthor(post, uid)
      case ViewPost(p) => false
  {
  }
}
