/** The Post Explorer hook: it holds the posts, the fetch status, the search
    query and the refreshing flag; it loads posts, restores and persists the
    query, and derives the filtered list shown to the user. */
module UsePosts {
  import opened Types
  import opened Text
  import Storage

  // ------------------------------------------------------------ filtering

  /** The query as it is matched: trimmed, then lower-cased. The order of the
      two steps does not matter; the result has no capital letters; it is
      empty exactly when the query is whitespace only. */
  function Normalize(query: string): (nq: string)
    ensures Trim(ToLower(query)) == nq
    ensures forall i :: 0 <= i < |nq| ==> !IsUpper(nq[i])
    ensures nq == [] <==> AllSpace(query)
  {
    TrimLowerCommute(query);
    LowerKeepsSpace(query);
    LowerHasNoUpper(Trim(query));
    var nq := ToLower(Trim(query));
    assert nq == [] <==> Trim(ToLower(query)) == [];
    nq
  }

  /** A post matches when its lower-cased title contains the normalised query;
      the body is not read. The empty query matches every post, and a query
      longer than the title matches none. */
  function Matches(post: Post, normalizedQuery: string): (m: bool)
    ensures normalizedQuery == [] ==> m
    ensures m ==> |normalizedQuery| <= |post.title|
  {
    Contains(ToLower(post.title), normalizedQuery)
  }

  /** The posts that match `nq`, in their original order. */
  function KeepMatching(posts: seq<Post>, nq: string): (r: seq<Post>)
    ensures |r| <= |posts|
    ensures forall p :: p in r <==> p in posts && Matches(p, nq)
  {
    if posts == [] then []
    else if Matches(posts[0], nq) then [posts[0]] + KeepMatching(posts[1..], nq)
    else KeepMatching(posts[1..], nq)
  }

  /** `filteredPosts`: every post when the normalised query is empty, otherwise
      the posts whose lower-cased title contains it. The result is an
      order-preserving subsequence of the posts; a post is in it exactly when
      it is one of the posts and its title matches; an empty or
      whitespace-only query gives back all posts unchanged. */
  function FilterPosts(posts: seq<Post>, searchQuery: string): (r: seq<Post>)
    ensures IsSubsequence(r, posts)
    ensures forall p :: p in r <==> p in posts && Matches(p, Normalize(searchQuery))
    ensures AllSpace(searchQuery) ==> r == posts
  {
    var nq := Normalize(searchQuery);
    if nq == [] then
      SubsequenceReflexive(posts);
      posts
    else
      KeepMatchingIsSubsequence(posts, nq);
      KeepMatching(posts, nq)
  }

  /** `a` is `b` with some elements left out and the rest kept in their order. */
  predicate IsSubsequence(a: seq<Post>, b: seq<Post>)
    decreases |b|
  {
    a == [] || (b != [] && ((a[0] == b[0] && IsSubsequence(a[1..], b[1..])) || IsSubsequence(a, b[1..])))
  }

  // ------------------------------------------------------ filter lemmas

  lemma {:induction false} KeepMatchingIsSubsequence(posts: seq<Post>, nq: string)
    ensures IsSubsequence(KeepMatching(posts, nq), posts)
    decreases |posts|
  {
    if posts != [] {
      KeepMatchingIsSubsequence(posts[1..], nq);
    }
  }

  lemma {:induction false} SubsequenceReflexive(s: seq<Post>)
    ensures IsSubsequence(s, s)
    decreases |s|
  {
    if s != [] {
      SubsequenceReflexive(s[1..]);
    }
  }

  /** Each post that matches is kept as often as it occurs, and no other post
      is kept: together with the order `FilterPosts` keeps, this pins the result
      down. */
  lemma {:induction false} KeepMatchingCounts(posts: seq<Post>, nq: string, p: Post)
    ensures multiset(KeepMatching(posts, nq))[p] == if Matches(p, nq) then multiset(posts)[p] else 0
    decreases |posts|
  {
    if posts != [] {
      KeepMatchingCounts(posts[1..], nq, p);
      assert posts == [posts[0]] + posts[1..];
      assert multiset(posts) == multiset{posts[0]} + multiset(posts[1..]);
      if Matches(posts[0], nq) {
        assert multiset(KeepMatching(posts, nq)) == multiset{posts[0]} + multiset(KeepMatching(posts[1..], nq));
      }
    }
  }

  /** Every post is kept exactly when all of them match, and then the filtered
      list is the whole list. */
  lemma {:induction false} KeepMatchingAll(posts: seq<Post>, nq: string)
    ensures |KeepMatching(posts, nq)| == |posts| <==> forall i :: 0 <= i < |posts| ==> Matches(posts[i], nq)
    ensures |KeepMatching(posts, nq)| == |posts| ==> KeepMatching(posts, nq) == posts
    decreases |posts|
  {
    if posts != [] {
      var rest := posts[1..];
      KeepMatchingAll(rest, nq);
      assert forall i :: 1 <= i < |posts| ==> posts[i] == rest[i - 1];
      if Matches(posts[0], nq) {
        assert KeepMatching(posts, nq) == [posts[0]] + KeepMatching(rest, nq);
        assert posts == [posts[0]] + rest;
      } else {
        assert KeepMatching(posts, nq) == KeepMatching(rest, nq);
      }
    }
  }

  /** Filtering is case-insensitive: queries equal up to letter case filter
      alike. */
  lemma FilterIgnoresCase(posts: seq<Post>, q1: string, q2: string)
    requires ToLower(q1) == ToLower(q2)
    ensures FilterPosts(posts, q1) == FilterPosts(posts, q2)
  {
    TrimLowerCommute(q1);
    TrimLowerCommute(q2);
  }

  /** Upper-casing the query does not change what is shown. */
  lemma FilterUpperCaseQuery(posts: seq<Post>, searchQuery: string)
    ensures FilterPosts(posts, ToUpper(searchQuery)) == FilterPosts(posts, searchQuery)
  {
    LowerOfUpper(searchQuery);
    FilterIgnoresCase(posts, ToUpper(searchQuery), searchQuery);
  }

  /** Whitespace around the query does not change the result. */
  lemma FilterIgnoresPadding(posts: seq<Post>, pre: string, searchQuery: string, post: string)
    requires AllSpace(pre) && AllSpace(post)
    ensures FilterPosts(posts, pre + searchQuery + post) == FilterPosts(posts, searchQuery)
  {
    TrimIgnoresPadding(pre, searchQuery, post);
  }

  /** The filter reads titles only: posts that differ in their bodies alone are
      either both shown or both hidden. */
  lemma FilterIgnoresBody(posts: seq<Post>, searchQuery: string, p: Post, body: string)
    requires p in posts && p.(body := body) in posts
    ensures p in FilterPosts(posts, searchQuery) <==> p.(body := body) in FilterPosts(posts, searchQuery)
  {
  }

  lemma NormalizeHello()
    ensures Normalize("hello") == "hello"
  {
    var q: string := "hello";
    assert !IsSpace(q[0]) && !IsSpace(q[|q| - 1]);
    assert TrimStart(q) == q;
    assert TrimEnd(q) == q;
    NoUpperLower(q);
  }

  lemma MatchesHelloWorld()
    ensures Matches(Post(1, 1, "Hello World", "x"), "hello")
  {
    var t: string := "Hello World";
    assert t[0] == 'H' && t[1] == 'e' && t[2] == 'l' && t[3] == 'l' && t[4] == 'o';
    MatchesLowerPrefix(Post(1, 1, t, "x"), "hello");
  }

  /** A query that is the lower-cased start of a title matches the post. */
  lemma MatchesLowerPrefix(post: Post, nq: string)
    requires |nq| <= |post.title|
    requires forall i :: 0 <= i < |nq| ==> LowerChar(post.title[i]) == nq[i]
    ensures Matches(post, nq)
  {
    var lt := ToLower(post.title);
    assert lt[0..|nq|] == nq;
    ContainsAt(lt, nq, 0);
  }

  lemma NotMatchesOther(body: string)
    ensures !Matches(Post(1, 2, "Other", body), "hello")
  {
    var lt := ToLower("Other");
    assert lt[0] == 'o';
    assert !OccursAt(lt, "hello", 0);
  }

  /** A query found in one post's title and only in another post's body
      selects the first post alone. */
  lemma TitleMatchScenario()
    ensures var first := Post(1, 1, "Hello World", "x");
            var second := Post(1, 2, "Other", "hello");
            FilterPosts([first, second], "hello") == [first]
  {
    var first := Post(1, 1, "Hello World", "x");
    var second := Post(1, 2, "Other", "hello");
    NormalizeHello();
    MatchesHelloWorld();
    NotMatchesOther("hello");
    FilterKeepsFirstOfTwo(first, second, "hello");
  }

  /** Of two posts, when only the first matches a query with something other
      than whitespace, the filter keeps the first alone. */
  lemma FilterKeepsFirstOfTwo(a: Post, b: Post, searchQuery: string)
    requires Normalize(searchQuery) != []
    requires Matches(a, Normalize(searchQuery)) && !Matches(b, Normalize(searchQuery))
    ensures FilterPosts([a, b], searchQuery) == [a]
  {
    KeepFirstOfTwo(a, b, Normalize(searchQuery));
  }

  lemma KeepFirstOfTwo(a: Post, b: Post, nq: string)
    requires Matches(a, nq) && !Matches(b, nq)
    ensures KeepMatching([a, b], nq) == [a]
  {
    assert [a, b][1..] == [b] && [b][1..] == [];
    assert KeepMatching([b], nq) == [];
  }

  // ------------------------------------------------------------ the hook

  /** The hook's state. `storage` is the persistence adapter it writes the
      query through. Every method is one atomic step: the asynchronous gaps
      of the source are the boundaries between steps. */
  class PostsHook {
    var posts: seq<Post>
    var status: FetchStatus
    var searchQuery: string
    var isRefreshing: bool
    const storage: Storage.SearchStorage

    /** The first render: no posts, idle, empty query, not refreshing. */
    constructor (storage: Storage.SearchStorage)
      ensures posts == [] && status == Idle && searchQuery == "" && !isRefreshing
      ensures this.storage == storage
    {
      posts := [];
      status := Idle;
      searchQuery := "";
      isRefreshing := false;
      this.storage := storage;
    }

    /** The list the hook hands to the screen as `posts`: an order-preserving
        subsequence of the posts, holding exactly those whose title matches
        the current query. */
    function FilteredPosts(): (r: seq<Post>)
      reads this
      ensures IsSubsequence(r, posts)
      ensures forall p :: p in r <==> p in posts && Matches(p, Normalize(searchQuery))
    {
      FilterPosts(posts, searchQuery)
    }

    /** The store holds the current query. */
    ghost predicate Persisted()
      reads this, storage
    {
      Storage.ReadQuery(storage.entries) == searchQuery
    }

    /** The two query effects on mount, in the order they touch the store: the
        restore effect reads the key at once; the save effect then writes the
        current query; when the read settles, a non-empty stored value becomes
        the query and is written again. The stored query therefore survives,
        and afterwards the store holds the query. */
    method RestoreOnMount()
      modifies this, storage
      ensures posts == old(posts) && status == old(status) && isRefreshing == old(isRefreshing)
      ensures var stored := Storage.ReadQuery(old(storage.entries));
              searchQuery == if stored != "" then stored else old(searchQuery)
      ensures storage.entries == old(storage.entries)[Storage.SearchHistoryKey := searchQuery]
      ensures Persisted()
    {
      var persisted := storage.GetSearchQuery();
      storage.SaveSearchQuery(searchQuery);
      if persisted != "" {
        SetSearchQuery(persisted);
      }
    }

    /** `setSearchQuery(query)` and the save effect it triggers. React skips the
        update, and with it the effect, when the value is unchanged. */
    method SetSearchQuery(query: string)
      modifies this, storage
      ensures searchQuery == query
      ensures posts == old(posts) && status == old(status) && isRefreshing == old(isRefreshing)
      ensures storage.entries == if query == old(searchQuery) then old(storage.entries)
                                 else old(storage.entries)[Storage.SearchHistoryKey := query]
      ensures old(Persisted()) ==> Persisted()
    {
      if query != searchQuery {
        searchQuery := query;
        storage.SaveSearchQuery(query);
      }
    }

    /** The part of `loadPosts(refreshing)` before the fetch is awaited: a
        foreground load shows the loading status, a background refresh only
        raises the refreshing flag; the posts stay as they are. */
    method BeginLoad(refreshing: bool)
      modifies this
      ensures posts == old(posts) && searchQuery == old(searchQuery)
      ensures refreshing ==> isRefreshing && status == old(status)
      ensures !refreshing ==> status == Loading && isRefreshing == old(isRefreshing)
    {
      if refreshing {
        isRefreshing := true;
      } else {
        status := Loading;
      }
    }

    /** The part of `loadPosts` after the fetch settles: on success the posts
        are replaced wholesale; on failure the status is an error and the posts
        are kept. Either way the refreshing flag is lowered. */
    method SettleLoad(outcome: FetchOutcome)
      modifies this
      ensures searchQuery == old(searchQuery) && !isRefreshing
      ensures outcome.Fetched? ==> posts == outcome.data && status == Success
      ensures outcome.FetchFailed? ==> posts == old(posts) && status == Error
    {
      match outcome {
        case Fetched(data) =>
          posts := data;
          status := Success;
        case FetchFailed =>
          status := Error;
      }
      isRefreshing := false;
    }

    /** `loadPosts(refreshing)` run to completion with the given fetch outcome. */
    method LoadPosts(refreshing: bool, outcome: FetchOutcome)
      modifies this
      ensures searchQuery == old(searchQuery) && !isRefreshing
      ensures outcome.Fetched? ==> posts == outcome.data && status == Success
      ensures outcome.FetchFailed? ==> posts == old(posts) && status == Error
    {
      BeginLoad(refreshing);
      SettleLoad(outcome);
    }

    /** `refresh()`, which is `loadPosts(true)`. */
    method Refresh(outcome: FetchOutcome)
      modifies this
      ensures searchQuery == old(searchQuery) && !isRefreshing
      ensures outcome.Fetched? ==> posts == outcome.data && status == Success
      ensures outcome.FetchFailed? ==> posts == old(posts) && status == Error
    {
      LoadPosts(true, outcome);
    }
  }
}
