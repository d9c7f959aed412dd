/**
 * The application component: the session, the persisted credential, the
 * cached post list and the overlays, changed step by step by the handlers.
 * Each handler is one atomic step: the awaited network calls are parameters
 * (`Ok(value)` or `Err`), `fetchBlogs` runs to completion inside the step
 * that starts it, and each handler returns the API calls it issued, in order.
 */
module App {
  import opened Common
  import opened Posts
  import BlogList
  import opened BlogForm

  /** Which of the two unauthenticated pages is shown. */
  datatype AuthView = LoginPage | SignupPage

  /** The body of a login or signup response. */
  datatype Session = Session(token: string, user: User)

  datatype Credentials = Credentials(identifier: string, password: string)
  datatype SignupData = SignupData(username: string, email: string, password: string)

  /** A request sent through the API client. */
  datatype ApiCall =
    | SignupCall(data: SignupData)
    | LoginCall(credentials: Credentials)
    | GetAllBlogs
    | CreateBlog(payload: Payload)
    | UpdateBlog(targetId: Option<string>, payload: Payload)
    | DeleteBlog(id: string)
    | ToggleLike(id: string)

  /** What the component renders. */
  datatype Screen =
    | AuthScreen(page: AuthView)
    | MainScreen(
        username: Option<string>,
        list: Option<BlogList.ListView>,
        formOpen: bool,
        formEditing: Option<Post>,
        fullView: Option<Post>)

  /** `token && user`: a stored session counts when the token is non-empty and a user is stored. */
  predicate StoredSessionPresent(token: Option<string>, user: Option<User>) {
    token.Some? && token.value != "" && user.Some?
  }

  class App {
    var isAuthenticated: bool
    var currentUser: Option<User>
    var authView: AuthView
    var posts: seq<Post>
    var editingPost: Option<Post>
    var viewingPost: Option<Post>
    var loading: bool
    var showModal: bool
    /** The `token` entry of local storage. */
    var storedToken: Option<string>
    /** The `user` entry of local storage (its JSON text, as the value it encodes). */
    var storedUser: Option<User>
    /** Whether the mount effect has run. */
    ghost var mounted: bool

    /**
     * The session invariant: authenticated exactly when a current user is
     * set, and then the credential and that user are both persisted.
     */
    ghost predicate Valid()
      reads this
    {
      && (isAuthenticated <==> currentUser.Some?)
      && (isAuthenticated ==> storedToken.Some? && storedUser == currentUser)
      && (mounted && StoredSessionPresent(storedToken, storedUser) ==> isAuthenticated)
    }

    /** `currentUser?.id`, the id handed to the list for the ownership check. */
    function CurrentUserId(): (uid: Option<string>)
      reads this
    {
      match currentUser
      case None => None
      case Some(u) => u.id
    }

    /** The initial `useState` values, over whatever local storage holds. */
    constructor (token: Option<string>, user: Option<User>)
      ensures Valid()
      ensures !isAuthenticated && currentUser.None? && authView == LoginPage
      ensures posts == [] && editingPost.None? && viewingPost.None?
      ensures loading && !showModal
      ensures storedToken == token && storedUser == user
      ensures !mounted
    {
      isAuthenticated, currentUser, authView := false, None, LoginPage;
      posts, editingPost, viewingPost := [], None, None;
      loading, showModal := true, false;
      storedToken, storedUser := token, user;
      mounted := false;
    }

    /**
     * The mount effect: restore the session when both stored entries are
     * present, then fetch the posts whatever the session.
     */
    method Mount(fetched: Response<seq<Post>>) returns (calls: seq<ApiCall>)
      requires Valid()
      modifies this
      ensures Valid()
      ensures StoredSessionPresent(storedToken, storedUser) ==> isAuthenticated && currentUser == storedUser
      ensures !StoredSessionPresent(storedToken, storedUser) ==>
        isAuthenticated == old(isAuthenticated) && currentUser == old(currentUser)
      ensures posts == (if fetched.Ok? then fetched.value else old(posts)) && !loading
      ensures calls == [GetAllBlogs]
      ensures storedToken == old(storedToken) && storedUser == old(storedUser)
      ensures authView == old(authView) && editingPost == old(editingPost)
      ensures viewingPost == old(viewingPost) && showModal == old(showModal)
      ensures mounted
      ensures StoredSessionPresent(storedToken, storedUser) ==>
        View().MainScreen? && View().list == Some(BlogList.Render(posts, storedUser.value.id))
    {
      if StoredSessionPresent(storedToken, storedUser) {
        isAuthenticated := true;
        currentUser := storedUser;
      }
      calls := FetchBlogs(fetched);
      mounted := true;
    }

    /** `fetchBlogs`: replace the cache on success, keep it on failure; loading ends false. */
    method FetchBlogs(fetched: Response<seq<Post>>) returns (calls: seq<ApiCall>)
      modifies this`posts, this`loading
      ensures posts == (if fetched.Ok? then fetched.value else old(posts))
      ensures !loading
      ensures calls == [GetAllBlogs]
    {
      loading := true;
      if fetched.Ok? {
        posts := fetched.value;
      }
      loading := false;
      calls := [GetAllBlogs];
    }

    /** The success tail shared by login and signup: persist, authenticate, refresh. */
    method StartSession(s: Session, fetched: Response<seq<Post>>) returns (calls: seq<ApiCall>)
      modifies this
      ensures Valid()
      ensures storedToken == Some(s.token) && storedUser == Some(s.user)
      ensures isAuthenticated && currentUser == Some(s.user)
      ensures posts == (if fetched.Ok? then fetched.value else old(posts)) && !loading
      ensures calls == [GetAllBlogs]
      ensures authView == old(authView) && editingPost == old(editingPost)
      ensures viewingPost == old(viewingPost) && showModal == old(showModal)
      ensures mounted == old(mounted)
      ensures View().MainScreen? && View().list == Some(BlogList.Render(posts, s.user.id))
    {
      storedToken := Some(s.token);
      storedUser := Some(s.user);
      isAuthenticated := true;
      currentUser := Some(s.user);
      calls := FetchBlogs(fetched);
    }

    /** `handleLogin`: a rejected login changes nothing, since the await precedes every update. */
    method HandleLogin(credentials: Credentials, response: Response<Session>, fetched: Response<seq<Post>>)
      returns (calls: seq<ApiCall>)
      requires Valid()
      modifies this
      ensures mounted == old(mounted)
      ensures Valid()
      ensures response.Err? ==> unchanged(this) && calls == [LoginCall(credentials)]
      ensures response.Ok? ==>
        && calls == [LoginCall(credentials), GetAllBlogs]
        && storedToken == Some(response.value.token) && storedUser == Some(response.value.user)
        && isAuthenticated && currentUser == Some(response.value.user)
        && posts == (if fetched.Ok? then fetched.value else old(posts)) && !loading
        && authView == old(authView) && editingPost == old(editingPost)
        && viewingPost == old(viewingPost) && showModal == old(showModal)
        && View().MainScreen? && View().list == Some(BlogList.Render(posts, response.value.user.id))
    {
      calls := [LoginCall(credentials)];
      if response.Ok? {
        var more := StartSession(response.value, fetched);
        calls := calls + more;
      }
    }

    /** `handleSignup`: the same shape as login, through the signup endpoint. */
    method HandleSignup(data: SignupData, response: Response<Session>, fetched: Response<seq<Post>>)
      returns (calls: seq<ApiCall>)
      requires Valid()
      modifies this
      ensures mounted == old(mounted)
      ensures Valid()
      ensures response.Err? ==> unchanged(this) && calls == [SignupCall(data)]
      ensures response.Ok? ==>
        && calls == [SignupCall(data), GetAllBlogs]
        && storedToken == Some(response.value.token) && storedUser == Some(response.value.user)
        && isAuthenticated && currentUser == Some(response.value.user)
        && posts == (if fetched.Ok? then fetched.value else old(posts)) && !loading
        && authView == old(authView) && editingPost == old(editingPost)
        && viewingPost == old(viewingPost) && showModal == old(showModal)
        && View().MainScreen? && View().list == Some(BlogList.Render(posts, response.value.user.id))
    {
      calls := [SignupCall(data)];
      if response.Ok? {
        var more := StartSession(response.value, fetched);
        calls := calls + more;
      }
    }

    /**
     * `handleLogout`: both stored entries removed, session and edit target
     * cleared; the cache and the two overlays are left as they were.
     */
    method HandleLogout()
      modifies this
      ensures mounted == old(mounted)
      ensures Valid()
      ensures storedToken.None? && storedUser.None?
      ensures !isAuthenticated && currentUser.None? && editingPost.None?
      ensures posts == old(posts) && showModal == old(showModal) && viewingPost == old(viewingPost)
      ensures authView == old(authView) && loading == old(loading)
      ensures View() == AuthScreen(authView)
    {
      storedToken := None;
      storedUser := None;
      isAuthenticated := false;
      currentUser := None;
      editingPost := None;
    }

    /**
     * `handleSubmit`: update the post being edited (by the payload's `_id`)
     * or create a new one; on success close the modal, stop editing and
     * refresh; on failure (the alert) change nothing.
     */
    method HandleSubmit(payload: Payload, saved: Response<()>, fetched: Response<seq<Post>>)
      returns (calls: seq<ApiCall>)
      requires Valid()
      modifies this
      ensures mounted == old(mounted)
      ensures Valid()
      ensures |calls| >= 1
      ensures calls[0] == (if old(editingPost).Some? then UpdateBlog(payload.id, payload) else CreateBlog(payload))
      ensures saved.Err? ==> unchanged(this) && |calls| == 1
      ensures saved.Ok? ==>
        && calls[1..] == [GetAllBlogs]
        && !showModal && editingPost.None?
        && posts == (if fetched.Ok? then fetched.value else old(posts)) && !loading
        && isAuthenticated == old(isAuthenticated) && currentUser == old(currentUser)
        && storedToken == old(storedToken) && storedUser == old(storedUser)
        && authView == old(authView) && viewingPost == old(viewingPost)
    {
      if editingPost.Some? {
        calls := [UpdateBlog(payload.id, payload)];
        if saved.Ok? {
          editingPost := None;
        }
      } else {
        calls := [CreateBlog(payload)];
      }
      if saved.Ok? {
        showModal := false;
        var more := FetchBlogs(fetched);
        calls := calls + more;
      }
    }

    /** `handleEdit`: open the modal on `post`. */
    method HandleEdit(post: Post)
      modifies this`editingPost, this`showModal
      ensures editingPost == Some(post) && showModal
    {
      editingPost := Some(post);
      showModal := true;
    }

    /**
     * `handleDelete`: nothing at all happens unless the user confirms; a
     * confirmed, successful delete stops editing that post and refreshes.
     */
    method HandleDelete(id: string, confirmed: bool, deleted: Response<()>, fetched: Response<seq<Post>>)
      returns (calls: seq<ApiCall>)
      requires Valid()
      modifies this
      ensures mounted == old(mounted)
      ensures Valid()
      ensures !confirmed ==> calls == [] && unchanged(this)
      ensures confirmed && deleted.Err? ==> calls == [DeleteBlog(id)] && unchanged(this)
      ensures confirmed && deleted.Ok? ==>
        && calls == [DeleteBlog(id), GetAllBlogs]
        && editingPost == (if old(editingPost).Some? && old(editingPost).value.id == id then None else old(editingPost))
        && posts == (if fetched.Ok? then fetched.value else old(posts)) && !loading
        && isAuthenticated == old(isAuthenticated) && currentUser == old(currentUser)
        && storedToken == old(storedToken) && storedUser == old(storedUser)
        && authView == old(authView) && viewingPost == old(viewingPost) && showModal == old(showModal)
    {
      calls := [];
      if confirmed {
        calls := [DeleteBlog(id)];
        if deleted.Ok? {
          if editingPost.Some? && editingPost.value.id == id {
            editingPost := None;
          }
          var more := FetchBlogs(fetched);
          calls := calls + more;
        }
      }
    }

    /**
     * `handleLike`: patch the entries whose id matches with the returned
     * post, in place; on failure the cache is unchanged. Nothing else moves.
     */
    method HandleLike(id: string, response: Response<Post>) returns (calls: seq<ApiCall>)
      modifies this`posts
      ensures calls == [ToggleLike(id)]
      ensures posts == (if response.Ok? then PatchPosts(old(posts), id, response.value) else old(posts))
    {
      calls := [ToggleLike(id)];
      if response.Ok? {
        posts := PatchPosts(posts, id, response.value);
      }
    }

    /** The like button of the full view: like the viewed post, then close the view. */
    method LikeFromFullView(response: Response<Post>) returns (calls: seq<ApiCall>)
      requires viewingPost.Some?
      modifies this`posts, this`viewingPost
      ensures calls == [ToggleLike(old(viewingPost).value.id)]
      ensures posts == (if response.Ok? then PatchPosts(old(posts), old(viewingPost).value.id, response.value) else old(posts))
      ensures viewingPost.None?
    {
      calls := HandleLike(viewingPost.value.id, response);
      HandleCloseView();
    }

    /** `handleViewPost`: open the full view on `post`. */
    method HandleViewPost(post: Post)
      modifies this`viewingPost
      ensures viewingPost == Some(post)
    {
      viewingPost := Some(post);
    }

    /** `handleCloseView`. */
    method HandleCloseView()
      modifies this`viewingPost
      ensures viewingPost.None?
    {
      viewingPost := None;
    }

    /** `handleCancelEdit`: stop editing and close the modal. */
    method HandleCancelEdit()
      modifies this`editingPost, this`showModal
      ensures editingPost.None? && !showModal
    {
      editingPost := None;
      showModal := false;
    }

    /** `handleCreateNew`: open the modal on an empty form. */
    method HandleCreateNew()
      modifies this`editingPost, this`showModal
      ensures editingPost.None? && showModal
    {
      editingPost := None;
      showModal := true;
    }

    /** The links between the login and signup pages. */
    method SwitchAuthView(page: AuthView)
      requires !isAuthenticated
      modifies this`authView
      ensures authView == page
      ensures View() == AuthScreen(page)
    {
      authView := page;
    }

    /**
     * Submitting the modal's form: the form validates and raises its loading
     * flag, the app saves, and since the app's handler catches its own errors
     * the form always sees a resolved promise and clears its fields, even
     * after a failed save.
     */
    method SubmitForm(form: Form, saved: Response<()>, fetched: Response<seq<Post>>) returns (calls: seq<ApiCall>)
      requires Valid()
      modifies this, form
      ensures mounted == old(mounted)
      ensures Valid()
      ensures BuildPayload(old(form.title), old(form.content), old(editingPost)).None? ==>
        && calls == [] && unchanged(this)
        && form.title == old(form.title) && form.content == old(form.content) && form.loading == old(form.loading)
      ensures BuildPayload(old(form.title), old(form.content), old(editingPost)).Some? ==>
        var p := BuildPayload(old(form.title), old(form.content), old(editingPost)).value;
        && form.title == "" && form.content == "" && !form.loading
        && |calls| >= 1
        && calls[0] == (if old(editingPost).Some? then UpdateBlog(p.id, p) else CreateBlog(p))
        && (saved.Err? ==> unchanged(this) && |calls| == 1)
        && (saved.Ok? ==>
              && calls[1..] == [GetAllBlogs]
              && !showModal && editingPost.None?
              && posts == (if fetched.Ok? then fetched.value else old(posts)) && !loading
              && isAuthenticated == old(isAuthenticated) && currentUser == old(currentUser)
              && storedToken == old(storedToken) && storedUser == old(storedUser)
              && authView == old(authView) && viewingPost == old(viewingPost))
    {
      var payload := form.BeginSubmit(editingPost);
      if payload.None? {
        calls := [];
        return;
      }
      calls := HandleSubmit(payload.value, saved, fetched);
      form.FinishSubmit(true);
    }

    /**
     * What is on screen: the login or signup page while unauthenticated (no
     * list, no overlay); otherwise the header, the loading note or the list
     * rendered for `currentUser?.id`, and the two overlays.
     */
    function View(): (s: Screen)
      reads this
    {
      if !isAuthenticated then AuthScreen(authView)
      else
        MainScreen(
          if currentUser.Some? then Some(currentUser.value.username) else None,
          if loading then None else Some(BlogList.Render(posts, CurrentUserId())),
          showModal,
          if showModal then editingPost else None,
          viewingPost)
    }
  }
}
