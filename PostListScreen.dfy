/** The post list screen: which of the four content views it shows for a given
    hook state, the count it gives the search bar, and its two refresh
    buttons. */
module PostListScreen {
  import opened Types
  import opened Text
  import opened UsePosts
  import Storage

  /** One rendered post card and the key React identifies it by. */
  datatype Card = Card(key: int, post: Post)

  /** The content area: the loading skeleton, the network error with its retry
      button, the "no matches" message naming the query, or the cards. */
  datatype View = Skeleton | ErrorView | EmptyState(query: string) | PostList(cards: seq<Card>)

  /** One card per post, in order, keyed by the post's `id`. */
  function CardsFor(posts: seq<Post>): (cards: seq<Card>)
    ensures |cards| == |posts|
    ensures forall i :: 0 <= i < |posts| ==> cards[i].key == posts[i].id && cards[i].post == posts[i]
    ensures forall c :: c in cards ==> c.key == c.post.id && c.post in posts
  {
    if posts == [] then [] else [Card(posts[0].id, posts[0])] + CardsFor(posts[1..])
  }

  /** `renderContent()`, given the hook's status, refreshing flag, filtered
      posts and query. The checks are tried in order; each ensures clause
      states, on its own, the states in which one view is chosen. */
  function RenderContent(status: FetchStatus, isRefreshing: bool, posts: seq<Post>, searchQuery: string): (v: View)
    ensures v == Skeleton <==> status == Loading && !isRefreshing
    ensures v == ErrorView <==> status == Error
    ensures v.EmptyState? <==> status == Success && |posts| == 0
    ensures v.EmptyState? ==> v.query == searchQuery
    ensures v.PostList? <==> (status.Idle? || (status.Loading? && isRefreshing) || (status.Success? && |posts| > 0))
    ensures v.PostList? ==> |v.cards| == |posts| && forall i :: 0 <= i < |posts| ==> v.cards[i] == Card(posts[i].id, posts[i])
    ensures v.PostList? ==> forall c :: c in v.cards ==> c.key == c.post.id && c.post in posts
  {
    if status == Loading && !isRefreshing then Skeleton
    else if status == Error then ErrorView
    else if |posts| == 0 && status == Success then EmptyState(searchQuery)
    else PostList(CardsFor(posts))
  }

  /** The view the screen shows for a hook, in terms of the hook's state: the
      skeleton only for a foreground load, the error view for every error, the
      "no matches" message only after a successful load in which no title
      matches the query, and otherwise cards for matching posts only. */
  function ViewOf(h: PostsHook): (v: View)
    reads h
    ensures v == Skeleton <==> h.status == Loading && !h.isRefreshing
    ensures v == ErrorView <==> h.status == Error
    ensures v.EmptyState? <==> h.status == Success && forall p :: p in h.posts ==> !Matches(p, Normalize(h.searchQuery))
    ensures v.EmptyState? ==> v.query == h.searchQuery
    ensures v.PostList? ==> forall c :: c in v.cards ==> c.key == c.post.id && c.post in h.posts && Matches(c.post, Normalize(h.searchQuery))
  {
    NothingShown(h.posts, h.searchQuery);
    RenderContent(h.status, h.isRefreshing, h.FilteredPosts(), h.searchQuery)
  }

  /** The count handed to the search bar: the length of the filtered list,
      not of all posts. */
  function ResultsCount(h: PostsHook): (n: nat)
    reads h
    ensures n <= |h.posts|
    ensures n == |h.posts| <==> forall i :: 0 <= i < |h.posts| ==> Matches(h.posts[i], Normalize(h.searchQuery))
  {
    ResultsCountBounds(h.posts, h.searchQuery);
    |h.FilteredPosts()|
  }

  // ---------------------------------------------------------------- lemmas

  /** The filtered list is empty exactly when no post's title matches the
      query. */
  lemma NothingShown(posts: seq<Post>, searchQuery: string)
    ensures FilterPosts(posts, searchQuery) == [] <==> forall p :: p in posts ==> !Matches(p, Normalize(searchQuery))
  {
    var shown := FilterPosts(posts, searchQuery);
    if shown != [] {
      assert shown[0] in shown;
    }
  }

  /** A loading status during a background refresh does not show the skeleton:
      the list is shown, even when it is empty. */
  lemma LoadingWhileRefreshingShowsList(posts: seq<Post>, searchQuery: string)
    ensures RenderContent(Loading, true, posts, searchQuery) == PostList(CardsFor(posts))
  {
  }

  /** The error view wins over the empty-state view and over the list: an error
      hides even a non-empty list of posts kept from an earlier load. */
  lemma ErrorHidesPosts(isRefreshing: bool, posts: seq<Post>, searchQuery: string)
    ensures RenderContent(Error, isRefreshing, posts, searchQuery) == ErrorView
  {
  }

  /** Before the first load starts (idle, no posts) the screen shows an empty
      list, not the "no matches" message. */
  lemma IdleShowsEmptyList(isRefreshing: bool, searchQuery: string)
    ensures RenderContent(Idle, isRefreshing, [], searchQuery) == PostList([])
  {
  }

  /** The count shown in the search bar is at most the number of posts, and it
      equals it exactly when every post's title matches the normalised query
      (always so for an empty query). */
  lemma ResultsCountBounds(posts: seq<Post>, searchQuery: string)
    ensures |FilterPosts(posts, searchQuery)| <= |posts|
    ensures |FilterPosts(posts, searchQuery)| == |posts| <==>
            forall i :: 0 <= i < |posts| ==> Matches(posts[i], Normalize(searchQuery))
  {
    var nq := Normalize(searchQuery);
    if nq == [] {
      assert forall i :: 0 <= i < |posts| ==> Matches(posts[i], nq);
    } else {
      KeepMatchingAll(posts, nq);
    }
  }

  // ------------------------------------------------------------ handlers

  /** The error view's retry button calls `refresh()`. Until the fetch settles
      the status stays an error, so the error view stays on screen. */
  method PressRetry(h: PostsHook)
    requires ViewOf(h) == ErrorView
    modifies h
    ensures h.isRefreshing && h.status == Error
    ensures h.posts == old(h.posts) && h.searchQuery == old(h.searchQuery)
    ensures ViewOf(h) == ErrorView
  {
    h.BeginLoad(true);
  }

  /** The header's refresh button calls `refresh()`; it is disabled while a
      refresh is in flight, and then a press changes nothing. */
  method PressHeaderRefresh(h: PostsHook)
    modifies h
    ensures h.isRefreshing
    ensures h.status == old(h.status) && h.posts == old(h.posts) && h.searchQuery == old(h.searchQuery)
  {
    if !h.isRefreshing {
      h.BeginLoad(true);
    }
  }

  // ----------------------------------------------------------- scenarios

  /** The first load fails: the status is an error, there are no posts, and
      the error view is shown. */
  method InitialLoadFails(store: Storage.SearchStorage) returns (h: PostsHook)
    ensures h.status == Error && h.posts == [] && !h.isRefreshing
    ensures ViewOf(h) == ErrorView
  {
    h := new PostsHook(store);
    h.LoadPosts(false, FetchFailed);
  }

  /** Two posts load, then a background refresh fails: the two posts are kept,
      the status becomes an error, and the error view replaces the list. */
  method RefreshFailsAfterSuccess(store: Storage.SearchStorage, p1: Post, p2: Post) returns (h: PostsHook)
    ensures h.posts == [p1, p2] && h.status == Error && !h.isRefreshing
    ensures ViewOf(h) == ErrorView
  {
    h := new PostsHook(store);
    h.LoadPosts(false, Fetched([p1, p2]));
    assert ViewOf(h).PostList?;
    h.Refresh(FetchFailed);
  }

  /** A query stored by an earlier session is the query after mounting, and
      the store still holds it. */
  method RestoresStoredQuery(store: Storage.SearchStorage) returns (h: PostsHook)
    requires Storage.ReadQuery(store.entries) == "foo"
    modifies store
    ensures h.searchQuery == "foo" && h.Persisted()
  {
    h := new PostsHook(store);
    h.RestoreOnMount();
  }
}
