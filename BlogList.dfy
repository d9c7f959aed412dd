/**
 * The post list: the empty-state message, and otherwise one card per post in
 * the order of `[...posts].sort((a, b) => (b.likes || 0) - (a.likes || 0))`.
 * ECMA-262 requires `Array.prototype.sort` to be stable (section 23.1.3.30 of
 * the 2023 edition), so the order is fixed: likes descending, ties in input
 * order. The model sorts by insertion and proves that any sorted sequence
 * with the same tie order is that very result.
 */
module BlogList {
  import opened Common
  import opened Posts
  import BlogItem

  /** Non-increasing by like count, the comparator's order. */
  predicate SortedByLikes(s: seq<Post>) {
    forall i, j :: 0 <= i < j < |s| ==> LikeCount(s[i]) >= LikeCount(s[j])
  }

  /** The posts of `s` whose like count is `k`, in the order of `s`. */
  function WithLikes(s: seq<Post>, k: int): (r: seq<Post>)
    ensures |r| <= |s|
  {
    if s == [] then []
    else (if LikeCount(s[0]) == k then [s[0]] else []) + WithLikes(s[1..], k)
  }

  /** Stability: for every like count, the posts having it appear in the same relative order. */
  ghost predicate SameTieOrder(s: seq<Post>, t: seq<Post>) {
    forall k :: WithLikes(s, k) == WithLikes(t, k)
  }

  /** Inserts `p` into a list sorted by likes, in front of every post with no more likes than it. */
  function Insert(p: Post, s: seq<Post>): (r: seq<Post>)
    ensures multiset(r) == multiset{p} + multiset(s)
    ensures |r| == |s| + 1
  {
    if s == [] || LikeCount(p) >= LikeCount(s[0]) then [p] + s
    else
      assert s == [s[0]] + s[1..];
      [s[0]] + Insert(p, s[1..])
  }

  /** The sorted copy that the list renders; the input is a value and is never changed. */
  function SortByLikes(posts: seq<Post>): (r: seq<Post>)
    ensures multiset(r) == multiset(posts)
    ensures |r| == |posts|
  {
    if posts == [] then []
    else
      assert posts == [posts[0]] + posts[1..];
      Insert(posts[0], SortByLikes(posts[1..]))
  }

  lemma {:induction false} InsertSorted(p: Post, s: seq<Post>)
    requires SortedByLikes(s)
    ensures SortedByLikes(Insert(p, s))
  {
    if s == [] || LikeCount(p) >= LikeCount(s[0]) {
    } else {
      InsertSorted(p, s[1..]);
      var r := Insert(p, s);
      var t := Insert(p, s[1..]);
      assert r == [s[0]] + t;
      forall j | 0 < j < |r| ensures LikeCount(r[0]) >= LikeCount(r[j]) {
        assert r[j] in multiset(t);
        assert r[j] == p || r[j] in multiset(s[1..]);
        if r[j] != p {
          var m :| 0 <= m < |s[1..]| && s[1..][m] == r[j];
          assert s[m + 1] == r[j];
        }
      }
    }
  }

  lemma WithLikesCons(x: Post, s: seq<Post>, k: int)
    ensures WithLikes([x] + s, k) == (if LikeCount(x) == k then [x] else []) + WithLikes(s, k)
  {
  }

  lemma {:induction false} InsertTieOrder(p: Post, s: seq<Post>, k: int)
    ensures WithLikes(Insert(p, s), k) == (if LikeCount(p) == k then [p] else []) + WithLikes(s, k)
  {
    if s == [] || LikeCount(p) >= LikeCount(s[0]) {
      WithLikesCons(p, s, k);
    } else {
      var pk := if LikeCount(p) == k then [p] else [];
      var sk := if LikeCount(s[0]) == k then [s[0]] else [];
      var rest := WithLikes(s[1..], k);
      InsertTieOrder(p, s[1..], k);
      WithLikesCons(s[0], Insert(p, s[1..]), k);
      WithLikesCons(s[0], s[1..], k);
      assert s == [s[0]] + s[1..];
      assert pk != [] ==> sk == [];
      assert sk + (pk + rest) == pk + (sk + rest);
    }
  }

  /** The sorted copy is ordered by likes, most liked first. */
  lemma {:induction false} SortByLikesSorted(posts: seq<Post>)
    ensures SortedByLikes(SortByLikes(posts))
  {
    if posts != [] {
      SortByLikesSorted(posts[1..]);
      InsertSorted(posts[0], SortByLikes(posts[1..]));
    }
  }

  /** The sort is stable: posts with equal likes keep their input order. */
  lemma {:induction false} SortByLikesStable(posts: seq<Post>)
    ensures SameTieOrder(SortByLikes(posts), posts)
  {
    if posts != [] {
      SortByLikesStable(posts[1..]);
      forall k ensures WithLikes(SortByLikes(posts), k) == WithLikes(posts, k) {
        InsertTieOrder(posts[0], SortByLikes(posts[1..]), k);
      }
    }
  }

  lemma {:induction false} WithLikesMember(s: seq<Post>, k: int)
    requires WithLikes(s, k) != []
    ensures exists i :: 0 <= i < |s| && LikeCount(s[i]) == k
  {
    if LikeCount(s[0]) != k {
      WithLikesMember(s[1..], k);
      var i :| 0 <= i < |s[1..]| && LikeCount(s[1..][i]) == k;
      assert LikeCount(s[i + 1]) == k;
    }
  }

  lemma TieOrderKeepsNonEmpty(s: seq<Post>, t: seq<Post>)
    requires SameTieOrder(s, t) && s != []
    ensures t != []
  {
    var k := LikeCount(s[0]);
    assert WithLikes(s, k) != [];
    assert WithLikes(t, k) == WithLikes(s, k);
  }

  /**
   * Being sorted by likes and stable determines the result: any sequence with
   * both properties equals SortByLikes, whatever algorithm produced it.
   */
  lemma {:induction false} SortedStableIsUnique(s: seq<Post>, t: seq<Post>)
    requires SortedByLikes(s) && SortedByLikes(t)
    requires SameTieOrder(s, t)
    ensures s == t
  {
    if s == [] || t == [] {
      if s != [] {
        TieOrderKeepsNonEmpty(s, t);
        assert false;
      } else if t != [] {
        TieOrderKeepsNonEmpty(t, s);
        assert false;
      }
    } else {
      var ks, kt := LikeCount(s[0]), LikeCount(t[0]);
      assert WithLikes(s, kt) == WithLikes(t, kt) != [];
      WithLikesMember(s, kt);
      assert WithLikes(t, ks) == WithLikes(s, ks) != [];
      WithLikesMember(t, ks);
      assert ks == kt;
      assert s[0] == WithLikes(s, ks)[0] == WithLikes(t, ks)[0] == t[0];
      forall k ensures WithLikes(s[1..], k) == WithLikes(t[1..], k) {
        var head := if ks == k then [s[0]] else [];
        assert WithLikes(s, k) == head + WithLikes(s[1..], k);
        assert WithLikes(t, k) == head + WithLikes(t[1..], k);
        assert WithLikes(s, k) == WithLikes(t, k);
        assert (head + WithLikes(s[1..], k))[|head|..] == WithLikes(s[1..], k);
        assert (head + WithLikes(t[1..], k))[|head|..] == WithLikes(t[1..], k);
      }
      SortedStableIsUnique(s[1..], t[1..]);
      assert s == [s[0]] + s[1..];
      assert t == [t[0]] + t[1..];
    }
  }

  /** What the list shows: the empty-state message, or the cards in display order. */
  datatype ListView = EmptyMessage | Cards(items: seq<BlogItem.ItemView>)

  /** The rendered list for `posts`, as seen by the user with id `uid`. */
  function Render(posts: seq<Post>, uid: Option<string>): (v: ListView)
    ensures v.EmptyMessage? <==> posts == []
    ensures v.Cards? ==> |v.items| == |posts|
    ensures v.Cards? ==> forall i :: 0 <= i < |v.items| ==>
      v.items[i] == BlogItem.Render(SortByLikes(posts)[i], uid) && v.items[i].key == SortByLikes(posts)[i].id
  {
    if |posts| == 0 then EmptyMessage
    else
      var sorted := SortByLikes(posts);
      Cards(seq(|sorted|, i requires 0 <= i < |sorted| => BlogItem.Render(sorted[i], uid)))
  }

  /** The posts on the cards of a list, in display order. */
  function ShownPosts(items: seq<BlogItem.ItemView>): (r: seq<Post>)
    ensures |r| == |items|
    ensures forall i :: 0 <= i < |items| ==> r[i] == items[i].post
  {
    if items == [] then [] else [items[0].post] + ShownPosts(items[1..])
  }

  /** The cards show the posts themselves: a permutation, most liked first, ties in input order. */
  lemma RenderedPostsAreSortedPermutation(posts: seq<Post>, uid: Option<string>)
    requires posts != []
    ensures Render(posts, uid).Cards?
    ensures var shown := ShownPosts(Render(posts, uid).items);
      multiset(shown) == multiset(posts) && SortedByLikes(shown) && SameTieOrder(shown, posts)
  {
    var shown := ShownPosts(Render(posts, uid).items);
    assert shown == SortByLikes(posts);
    SortByLikesSorted(posts);
    SortByLikesStable(posts);
  }

  /** Card `i` is keyed by the id of the `i`-th post in display order and marks it as mine exactly for its author. */
  lemma CardIsKeyedBySortedPost(posts: seq<Post>, uid: Option<string>, i: nat)
    requires i < |posts|
    ensures Render(posts, uid).Cards? && i < |Render(posts, uid).items|
    ensures var card := Render(posts, uid).items[i];
      var p := SortByLikes(posts)[i];
      card.key == p.id && card.post == p && card.mine == BlogItem.IsAuthor(p, uid)
  {
  }

  /**
   * A click on card `i` outside its buttons opens the full view of the
   * `i`-th post in display order (not of `posts[i]`); a click inside a button opens nothing.
   */
  lemma CardClickOpensSortedPost(posts: seq<Post>, uid: Option<string>, i: nat, insideButton: bool)
    requires i < |posts|
    ensures Render(posts, uid).Cards? && i < |Render(posts, uid).items|
    ensures var card := Render(posts, uid).items[i];
      BlogItem.CardClick(card.post, insideButton) ==
        (if insideButton then None else Some(BlogItem.ViewPost(SortByLikes(posts)[i])))
  {
  }

  /**
   * Every control of card `i` acts on the `i`-th post in display order: like
   * and delete pass its id, edit passes the post; the like button shows
   * `likes || 0` of that post, and only its author gets edit and delete.
   */
  lemma CardControlsActOnSortedPost(posts: seq<Post>, uid: Option<string>, i: nat, j: nat)
    requires i < |posts|
    ensures Render(posts, uid).Cards? && i < |Render(posts, uid).items|
    ensures var card := Render(posts, uid).items[i];
      var p := SortByLikes(posts)[i];
      && |card.controls| >= 1
      && card.controls[0] == BlogItem.LikeButton(p.isLikedByUser, LikeCount(p))
      && (j < |card.controls| ==>
            BlogItem.Press(card.post, card.controls[j]) in
              (if BlogItem.IsAuthor(p, uid) then {BlogItem.LikePost(p.id), BlogItem.EditPost(p), BlogItem.DeletePost(p.id)}
               else {BlogItem.LikePost(p.id)}))
  {
  }

  /** The worked example: ids/likes [1:5, 2:9, 3:5] are shown as [2, 1, 3]. */
  lemma StableExample(p1: Post, p2: Post, p3: Post)
    requires p1.likes == Some(5) && p2.likes == Some(9) && p3.likes == Some(5)
    ensures SortByLikes([p1, p2, p3]) == [p2, p1, p3]
  {
    assert [p1, p2, p3][1..] == [p2, p3];
    assert [p3][1..] == [];
    assert SortByLikes([p3]) == Insert(p3, []) == [p3];
    assert Insert(p2, [p3]) == [p2, p3];
    assert [p2, p3][1..] == [p3];
    assert Insert(p1, [p3]) == [p1, p3];
    assert Insert(p1, [p2, p3]) == [p2] + Insert(p1, [p3]);
  }
}
