/**
 * The records the client receives from the blog service, and the one
 * expression over the cached post list that is not a wholesale replacement:
 * the like patch of `handleLike`.
 */
module Posts {
  import opened Common

  /** A JSON property that may hold a string id, `null`, or be absent (`undefined`). */
  datatype JsId = Undefined | Null | Str(s: string)

  /**
   * A post's `author` field: the service sends either the author's bare id,
   * or an embedded user object (with an `_id` and an `id` property, each
   * possibly null or absent), or `null`, or nothing at all.
   */
  datatype Author = AuthorId(id: string) | Embedded(oid: JsId, plainId: JsId) | NullAuthor | NoAuthor

  /** A post as the service returns it from `GET /blogs` or `POST /blogs/{id}/like`. */
  datatype Post = Post(
    id: string,
    title: string,
    content: string,
    author: Author,
    authorName: string,
    createdAt: string,
    likes: Option<int>,
    isLikedByUser: bool)

  /** The user object of a login or signup response; `id` may be missing. */
  datatype User = User(id: Option<string>, username: string)

  /** `post.likes || 0`: a missing (or zero) count reads as 0. */
  function LikeCount(p: Post): (n: int)
  {
    match p.likes
    case None => 0
    case Some(k) => k
  }

  /** Every post id occurs at most once in the cache. */
  predicate UniqueIds(posts: seq<Post>) {
    forall i, j :: 0 <= i < j < |posts| ==> posts[i].id != posts[j].id
  }

  /** Some cached post has id `id`. */
  predicate HasId(posts: seq<Post>, id: string) {
    exists i :: 0 <= i < |posts| && posts[i].id == id
  }

  /**
   * `posts.map(post => post._id === id ? updated : post)`: the like patch.
   * The list keeps its length; an entry is replaced exactly when its id matches.
   */
  function PatchPosts(posts: seq<Post>, id: string, updated: Post): (r: seq<Post>)
    ensures |r| == |posts|
    ensures forall i :: 0 <= i < |posts| && posts[i].id == id ==> r[i] == updated
    ensures forall i :: 0 <= i < |posts| && posts[i].id != id ==> r[i] == posts[i]
  {
    if posts == [] then []
    else [if posts[0].id == id then updated else posts[0]] + PatchPosts(posts[1..], id, updated)
  }

  /** Liking a post that is no longer cached leaves the cache as it was. */
  lemma PatchAbsentIsIdentity(posts: seq<Post>, id: string, updated: Post)
    requires !HasId(posts, id)
    ensures PatchPosts(posts, id, updated) == posts
  {
  }

  /** With unique ids the patch is a single in-place update of the matching entry. */
  lemma PatchIsSingleUpdate(posts: seq<Post>, id: string, updated: Post, k: nat)
    requires UniqueIds(posts)
    requires k < |posts| && posts[k].id == id
    ensures PatchPosts(posts, id, updated) == posts[k := updated]
  {
  }

  /** A patch whose response carries the liked post's own id keeps the ids unique. */
  lemma PatchKeepsUniqueIds(posts: seq<Post>, id: string, updated: Post)
    requires UniqueIds(posts) && updated.id == id
    ensures UniqueIds(PatchPosts(posts, id, updated))
  {
  }
}
