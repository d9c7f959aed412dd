# Blog client: session, post cache and display logic

A Dafny model of the browser side of a small blogging application (React).
The model covers the logic the UI code surrounds:

- the application component's state (`src/App.jsx`): the session
  (`isAuthenticated`, `currentUser`), the two local-storage entries
  (`token`, `user`), the cached `posts`, the overlays (`editingPost`,
  `showModal`, `viewingPost`), the `loading` flag and the login/signup page
  switch, as the class `App.App`, with one method per handler;
- the like patch over the cached post list, and the post records (`Posts`);
- the ownership check that gates the Edit and Delete controls of a card, the
  controls a card shows and the action each hands to the parent (`BlogItem`);
- the list's empty state and its stable sort by likes, most liked first, on a
  copy of the posts (`BlogList`);
- the form's validation (`String.prototype.trim`, in `JsText`), the payload it
  builds, and its `title`/`content`/`loading` state (`BlogForm`, class
  `BlogForm.Form`).

Each network call is a parameter of the handler that awaits it, `Ok(value)`
or `Err`; `window.confirm` is a `bool` parameter; the click target "inside a
button" is a `bool` parameter. Each handler returns the list of API requests
it issued, so "no API call is made" is a statement about that list. The
rendered screen is the function `App.App.View`; what it shows after each
handler follows from that handler's contract. The session invariant `Valid()`
says that the app is authenticated exactly when a current user is set, that
the token and that user are then both stored, and that once the mount effect
has run a stored session (non-empty token and a user) means an
authenticated one.

Logging out keeps the login/signup page choice (`authView`) as it was, as the
source does: a session that began on the signup page returns to the signup
page after logout, not to the login page.
`fetchBlogs`, which the handlers start without awaiting, runs to completion
inside the step that starts it, with its own response parameter.

The sort is specified by what ECMA-262 requires of `Array.prototype.sort`
(stable, by the comparator): the model sorts by insertion, proves the result
is a permutation, ordered by likes (a missing count read as 0), and stable
(for every like count, the posts having it keep their input order), and
proves that these properties determine the result uniquely, so any
conforming engine produces the same order.

The ownership check is modelled with JavaScript's `String` conversion written
out: an embedded author object converts to `"[object Object]"`, a `null`
author or `_id` to `"null"`, and a missing author or `_id` (and the `_id` of
a bare id) to `"undefined"`. For every non-empty user id other than those three strings, `isAuthor` is proved equal to "the author's id
(bare, or the embedded `_id`) equals the current user id".

## Model

| member | source | states |
|---|---|---|
| App.App.constructor | src/App.jsx:22-31 | initial state: unauthenticated, no user, login page, empty cache, no overlays, loading, not yet mounted; storage as given; the session invariant holds |
| App.App.Mount | src/App.jsx:37-48 | the session is restored (authenticated, user = stored user) exactly when a non-empty token and a user are stored, otherwise the session is unchanged; the posts are fetched either way; a restored session shows the list rendered for the stored user's id; from here on a stored session implies an authenticated one |
| App.App.FetchBlogs | src/App.jsx:53-63 | the cache is replaced wholesale on success and kept on failure; `loading` is false afterwards either way |
| App.App.HandleLogin | src/App.jsx:68-82 | on success both storage entries, the session and the refreshed cache are set, nothing else changes, and the screen shows the list rendered for the returned user's id; on failure no state or storage changes |
| App.App.HandleSignup | src/App.jsx:87-101 | as login, through the signup request |
| App.App.StartSession | src/App.jsx:72-81 | the shared success path: token and user persisted, session authenticated with the returned user, cache refreshed, the list shown for `user.id` |
| App.App.HandleLogout | src/App.jsx:106-112 | both storage entries removed, unauthenticated, no user, no edit target; cache, modal, full view and page untouched; the screen is the login/signup page with no list and no overlay even when the modal or full view was open; the session invariant holds |
| App.App.HandleSubmit | src/App.jsx:117-134 | issues an update by the payload's `_id` when editing, a create otherwise; on success closes the modal, clears `editingPost` and refreshes; on failure nothing changes |
| App.App.HandleEdit | src/App.jsx:139-142 | `editingPost` is the post and the modal is open |
| App.App.HandleDelete | src/App.jsx:147-163 | unconfirmed: no request and no change; confirmed and failed: only the delete request, no change; success: `editingPost` cleared exactly when it is the deleted id, cache refreshed |
| App.App.HandleLike | src/App.jsx:168-180 | one toggle request; on success the cache becomes the like patch of the old cache, on failure it is unchanged; nothing else changes |
| App.App.LikeFromFullView | src/App.jsx:309-317 | likes the viewed post by its id and closes the full view |
| App.App.HandleViewPost | src/App.jsx:185-187 | the full view shows the post |
| App.App.HandleCloseView | src/App.jsx:192-194 | the full view is closed |
| App.App.HandleCancelEdit | src/App.jsx:199-202 | no edit target and the modal is closed |
| App.App.HandleCreateNew | src/App.jsx:207-210 | no edit target and the modal is open |
| App.App.SwitchAuthView | src/App.jsx:213-228 | offered only on the unauthenticated page; afterwards the screen is the chosen login or signup page and nothing else changes |
| App.App.SubmitForm | src/components/BlogForm.jsx:40-72 | a blank field issues no request and changes neither the app nor the form; otherwise the form's fields are cleared and its loading flag dropped even after a failed save, the request is an update by the payload's `_id` when editing and a create otherwise, a failed save changes nothing in the app, and a successful one closes the modal, stops editing, refreshes the cache and leaves session, storage, full view and page as they were |
| Posts.PatchPosts | src/App.jsx:173-175 | same length; every entry with the liked id becomes the response, every other entry is identical |
| Posts.PatchAbsentIsIdentity | src/App.jsx:173-175 | liking an id that is not cached leaves the cache equal to itself |
| Posts.PatchIsSingleUpdate | src/App.jsx:173-175 | with unique ids the patch is the single update of the matching position |
| Posts.PatchKeepsUniqueIds | src/App.jsx:173-175 | a response carrying the liked id keeps the cache's ids unique |
| BlogItem.IsAuthor | src/components/BlogItem.jsx:19-22 | false without a truthy user id; otherwise (for ids other than "undefined", "null" and "[object Object]") true exactly when the bare author id or the embedded `_id` equals the user id |
| BlogItem.IsAuthorIgnoresPlainId | src/components/BlogItem.jsx:21 | an embedded author is matched on `_id`; its `id` property does not affect the result |
| BlogItem.UndefinedIdOwnsBareAuthors | src/components/BlogItem.jsx:21 | the literal string comparison makes a user id "undefined" own every bare-id post |
| BlogItem.NullIdOwnsNullAuthors | src/components/BlogItem.jsx:19-21 | a `null` author converts to "null" and its missing `_id` to "undefined": the user ids "null" and "undefined" both own such a post, and no non-empty id other than "undefined", "null" and "[object Object]" does |
| BlogItem.Controls | src/components/BlogItem.jsx:58-94 | the like button (with the like state and the like count, 0 when missing) is always first; Edit and Delete are present exactly when the user is the author |
| BlogItem.ActionsConcernOwnPost | src/components/BlogItem.jsx:64-88 | every control of a card acts on that card's post, and edit/delete only appear for its author |
| BlogList.Insert | src/components/BlogList.jsx:29-33 | inserting adds exactly one element to the multiset |
| BlogList.SortByLikes | src/components/BlogList.jsx:29 | the sorted copy is a permutation of the posts |
| BlogList.SortByLikesSorted | src/components/BlogList.jsx:29-33 | the sorted copy is non-increasing by likes, a missing count read as 0 |
| BlogList.SortByLikesStable | src/components/BlogList.jsx:29-33 | for every like count, the posts having it keep their input order |
| BlogList.SortedStableIsUnique | src/components/BlogList.jsx:29-33 | two sequences that are both sorted by likes and have the same tie order are equal, so the order any stable sort produces is this one |
| BlogList.StableExample | src/components/BlogList.jsx:29-33 | ids/likes 1:5, 2:9, 3:5 are shown as 2, 1, 3 |
| BlogList.Render | src/components/BlogList.jsx:20-48 | the empty-state message exactly for an empty list; otherwise one card per sorted post, in order, keyed by its id |
| BlogList.ShownPosts | src/components/BlogList.jsx:38-41 | the posts carried by the cards, one per card, in card order |
| BlogList.RenderedPostsAreSortedPermutation | src/components/BlogList.jsx:29-48 | the posts on the cards are a permutation of the input, sorted by likes and stable |
| BlogList.CardIsKeyedBySortedPost | src/components/BlogList.jsx:38-41 | card i is keyed by the id of the i-th post in display order, shows that post, and carries the "You" badge exactly for its author |
| BlogList.CardClickOpensSortedPost | src/components/BlogItem.jsx:25-30 | a click on card i outside a button opens the full view of the i-th post in display order (not of the i-th input post); inside a button it opens nothing |
| BlogList.CardControlsActOnSortedPost | src/components/BlogItem.jsx:60-94 | card i's like button comes first and shows that post's like state and like count (0 when missing); every control of the card likes or deletes that post's id or edits that post, and edit/delete exist only for its author |
| JsText.Trim | src/components/BlogForm.jsx:44-53 | the result has no white space at either end and is no longer than the input |
| JsText.TrimIsSlice | src/components/BlogForm.jsx:50-53 | the trimmed text is a contiguous slice of the input whose surroundings are all white space |
| JsText.TrimEmptyIffAllWhiteSpace | src/components/BlogForm.jsx:44 | a field trims to the empty string exactly when it is all white space |
| JsText.TrimIdempotent | src/components/BlogForm.jsx:50-53 | trimming a trimmed field changes nothing |
| BlogForm.BuildPayload | src/components/BlogForm.jsx:44-58 | rejected exactly when the title or the content is all white space; otherwise the trimmed fields, with `_id` present exactly when editing and equal to the edited post's id |
| BlogForm.PayloadIsTrimmedAndNonEmpty | src/components/BlogForm.jsx:50-53 | an accepted payload has non-empty fields with no surrounding white space |
| BlogForm.PayloadStable | src/components/BlogForm.jsx:44-58 | submitting an accepted payload's own fields again yields the same payload |
| BlogForm.UnchangedEditSubmitsOwnPost | src/components/BlogForm.jsx:24-58 | opening the form on a post and submitting it unchanged sends the post's trimmed title and content with its own id as `_id`, unless either is blank |
| BlogForm.BlankTitleRejected | src/components/BlogForm.jsx:44-47 | a title of two spaces is rejected whatever the content |
| BlogForm.Form.constructor | src/components/BlogForm.jsx:16-34 | on mount the fields are those of the edited post (or empty) and the form is not loading |
| BlogForm.Form.SyncEditingPost | src/components/BlogForm.jsx:24-34 | when `editingPost` changes the fields become its title/content, or both empty; loading is untouched |
| BlogForm.Form.TypeTitle | src/components/BlogForm.jsx:83-90 | typing sets the title unless the form is saving |
| BlogForm.Form.TypeContent | src/components/BlogForm.jsx:96-103 | typing sets the content unless the form is saving |
| BlogForm.Form.BeginSubmit | src/components/BlogForm.jsx:40-60 | returns the payload handed to `onSubmit` (none for a blank field); the fields are kept and loading is raised exactly when a payload is sent |
| BlogForm.Form.FinishSubmit | src/components/BlogForm.jsx:61-72 | loading is false afterwards; the fields are cleared when `onSubmit` resolved and kept when it rejected |

## Left out

- The API client (`src/services/api.js`): base-URL configuration and the bearer header are not modelled; each request is an `ApiCall` value and its outcome a parameter.
- Local storage, `JSON.parse`/`JSON.stringify`, `alert`, `console` and `window.confirm`: storage is two optional fields holding the values, confirmation a boolean; alerts and logs have no effect on state and are dropped. A stored user text that does not parse cannot be represented, so the source's `JSON.parse` throwing in the mount effect (after the session is marked authenticated and before the posts are fetched) is not modelled. A stored user is a JSON object text and so never the empty string, which is why only the token's emptiness matters in the `token && user` test.
- Asynchronous interleaving: every handler is one atomic step, so a like response arriving after a refresh or a delete (the stale `posts` captured by `handleLike`) is not modelled.
- Unmounting the form when the modal closes, and the form's effect re-running while mounted when `editingPost` changes through the app: the form is a separate object whose effect is a method the caller invokes.
- JSX layout, CSS classes, emoji, the date formatting of `createdAt`, the form's title and button labels, and DOM event propagation beyond the "click target inside a button" boolean.
- The `Login` and `Signup` components are not part of this model; their credentials and signup data are opaque records.
- Ids are modelled as strings; a numeric id, whose `String` conversion is its decimal text, is not distinguished.
