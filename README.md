# Post Explorer — a Dafny model

The Post Explorer is a small React front end. It fetches a list of posts from a
public REST endpoint, filters them by a live search query, keeps the query in
the browser's key-value store across sessions, and shows one of four content
views: a loading skeleton, a network error with a retry button, a "no matches"
message, or the list of post cards. This project models the logic behind that
and proves what it promises:

- `Types` holds the records: a `Post`, the `FetchStatus` (idle, loading,
  success, error), and the outcome of one fetch.
- `Text` holds the string primitives the filter uses: `trim`,
  `toLowerCase` and `includes`, plus `toUpperCase` for stating
  case-insensitivity. Letter case is ASCII, and whitespace is a fixed set of
  characters.
- `Storage` is the persistence adapter. `SearchStorage` owns the whole
  key-value store as a map. Its three methods touch only the entry under
  `@post_explorer_search_query`.
- `UsePosts` holds the hook. `FilterPosts` is the filtered list. `PostsHook`
  is a class with the hook's four state fields and a reference to the storage
  object. Its methods are the hook's steps: restore on mount, the query
  setter with its save effect, and the two halves of `loadPosts` around the
  awaited fetch (`BeginLoad`, `SettleLoad`). `LoadPosts` runs both halves, and
  `Refresh` is `LoadPosts(true, …)`.
- `PostListScreen` holds the screen. `RenderContent` chooses the view. The
  module also has the count given to the search bar, the two refresh buttons,
  and three end-to-end scenarios.

Behaviour of the code worth noting:

- Only the title is matched; the body is never read.
- The error view's retry calls `refresh()`, so it runs a background load, not a
  foreground one.
- A failed background refresh sets the status to an error and keeps the
  earlier posts. The error view then hides those posts.
- Restoring the query and the first load are two independent effects; they are
  not run one after the other.
- Only clearing the history catches a failure of the store.

## Model

| member | source | states |
|---|---|---|
| `Text.IsSpace` | hooks/usePosts.ts:72 | a character `trim` removes is neither an upper-case nor a lower-case letter |
| `Text.ToLower` | hooks/usePosts.ts:72 | lower-casing keeps the length and lower-cases each character in place |
| `Text.LowerChar` | hooks/usePosts.ts:72 | a capital letter becomes the small letter at the same place in the alphabet; every other character is kept; the result is never a capital and is whitespace exactly when the input is |
| `Text.TrimStart` | hooks/usePosts.ts:72 | the result is a suffix of the input that does not start with whitespace |
| `Text.TrimStartDropsSpace` | hooks/usePosts.ts:72 | every character dropped from the front is whitespace |
| `Text.TrimEnd` | hooks/usePosts.ts:72 | the result is a prefix of the input that does not end with whitespace |
| `Text.TrimEndDropsSpace` | hooks/usePosts.ts:72 | every character dropped from the back is whitespace |
| `Text.Trim` | hooks/usePosts.ts:72 | the trimmed query is a slice of the query with only whitespace before and after it; it neither starts nor ends with whitespace; it is empty iff the query is whitespace only |
| `Text.TrimMiddle` | hooks/usePosts.ts:72 | dropping leading then trailing whitespace keeps a slice with only whitespace around it, not starting with whitespace, and empty iff the string is whitespace only |
| `Text.LowerKeepsSpace` | hooks/usePosts.ts:72 | a string is whitespace only iff its lower-cased form is |
| `Text.TrimLowerCommute` | hooks/usePosts.ts:72 | trimming and lower-casing can be done in either order |
| `Text.TrimIgnoresPadding` | hooks/usePosts.ts:72 | whitespace added around a string does not survive trimming |
| `Text.LowerOfUpper` | hooks/usePosts.ts:72 | an upper-cased query lower-cases to the same string as the query |
| `Text.Contains` | hooks/usePosts.ts:76 | the empty string occurs in every string, and a string longer than the text never occurs in it |
| `UsePosts.Normalize` | hooks/usePosts.ts:72 | the normalised query is the same whichever of trim and lower-case runs first, holds no capital letter, and is empty iff the query is whitespace only |
| `UsePosts.Matches` | hooks/usePosts.ts:76 | the empty query matches every post, and a query longer than the title matches none |
| `UsePosts.KeepMatching` | hooks/usePosts.ts:75-77 | the kept posts are no more than the posts; a post is kept iff it is one of the posts and matches |
| `UsePosts.FilterPosts` | hooks/usePosts.ts:71-78 | the filtered list is an order-preserving subsequence of the posts; a post is in it iff it is one of the posts and its lower-cased title contains the normalised query; a whitespace-only query gives all posts unchanged |
| `UsePosts.KeepMatchingCounts` | hooks/usePosts.ts:75-77 | each matching post is kept as many times as it occurs, every other post zero times |
| `UsePosts.KeepMatchingAll` | hooks/usePosts.ts:75-77 | all posts are kept iff all of them match, and then the result is the whole list |
| `UsePosts.FilterIgnoresCase` | hooks/usePosts.ts:72-76 | queries that are equal after lower-casing give identical results |
| `UsePosts.FilterUpperCaseQuery` | hooks/usePosts.ts:72-76 | the upper-cased query gives the same result as the query |
| `UsePosts.FilterIgnoresPadding` | hooks/usePosts.ts:72 | whitespace around the query does not change the result |
| `UsePosts.FilterIgnoresBody` | hooks/usePosts.ts:75-77 | two posts that differ only in their body are both shown or both hidden |
| `UsePosts.FilterKeepsFirstOfTwo` | hooks/usePosts.ts:71-78 | of two posts of which only the first matches a non-blank query, the filter keeps the first alone |
| `UsePosts.TitleMatchScenario` | hooks/usePosts.ts:75-77 | with posts "Hello World" and "Other" (whose body is "hello"), the query "hello" yields the first post only |
| `UsePosts.PostsHook.constructor` | hooks/usePosts.ts:13-16 | the hook starts with no posts, idle, an empty query and not refreshing |
| `UsePosts.PostsHook.FilteredPosts` | hooks/usePosts.ts:81 | the list handed to the screen is an order-preserving subsequence of the hook's posts, holding exactly those whose title matches the current query |
| `UsePosts.PostsHook.RestoreOnMount` | hooks/usePosts.ts:23-31 | a non-empty stored query becomes the query, otherwise the query is kept; posts, status and flag are unchanged; the store ends up holding the query |
| `UsePosts.PostsHook.SetSearchQuery` | hooks/usePosts.ts:63-65 | the query becomes the new value; the store is written only when the value changed; "the store holds the query" is preserved |
| `UsePosts.PostsHook.BeginLoad` | hooks/usePosts.ts:38-42 | a foreground load sets the status to loading and leaves the flag; a background one raises the flag and leaves the status; posts are untouched |
| `UsePosts.PostsHook.SettleLoad` | hooks/usePosts.ts:44-52 | success replaces the posts and sets success; failure sets error and keeps the posts; the flag is lowered on both paths |
| `UsePosts.PostsHook.LoadPosts` | hooks/usePosts.ts:37-53 | after a complete load the flag is false; the posts and status depend on the outcome as for `SettleLoad` |
| `UsePosts.PostsHook.Refresh` | hooks/usePosts.ts:86 | a refresh is a background load, with the same end state |
| `Storage.ReadQuery` | utils/storage.ts:37-38 | a read yields the stored string, or the empty string when nothing is stored under the key |
| `Storage.SearchStorage.constructor` | utils/storage.ts:11-13 | the adapter starts over the given store, unchanged |
| `Storage.SearchStorage.SaveSearchQuery` | utils/storage.ts:18-28 | the key maps to the query and every other entry is unchanged |
| `Storage.SearchStorage.GetSearchQuery` | utils/storage.ts:34-44 | the stored value is returned, or the empty string when the key is absent, as `ReadQuery` says; the store is not modified |
| `Storage.SearchStorage.ClearSearchHistory` | utils/storage.ts:49-55 | the key is removed and every other entry is unchanged |
| `Storage.ReadAfterSave` | utils/storage.ts:22 | a read after saving a query returns that query |
| `Storage.ReadAfterClear` | utils/storage.ts:51 | a read after clearing returns the empty string |
| `Storage.LastWriteWins` | utils/storage.ts:22 | saving a then b leaves the same store as saving b |
| `Storage.SaveKeepsOtherKeys` | utils/storage.ts:11 | a save neither adds, removes nor changes an entry under any other key |
| `Storage.ClearKeepsOtherKeys` | utils/storage.ts:51 | a clear neither adds, removes nor changes an entry under any other key |
| `Storage.SaveReadSave` | utils/storage.ts:22-38 | interleaved saves and reads: each read returns the latest save, and the store ends with the last one |
| `PostListScreen.CardsFor` | screens/PostListScreen.tsx:87-89 | one card per post, in order, each keyed by the post's id; every card shows one of the posts |
| `PostListScreen.RenderContent` | screens/PostListScreen.tsx:34-92 | skeleton iff loading and not refreshing; error view iff status is error; empty state iff success with no posts, and it carries the query; otherwise the cards of the filtered posts in order |
| `PostListScreen.ViewOf` | screens/PostListScreen.tsx:22-92 | for a hook: skeleton iff a foreground load; error view iff an error; "no matches" iff a successful load in which no title matches the query, naming the query; otherwise cards, each for a post that matches |
| `PostListScreen.NothingShown` | hooks/usePosts.ts:71-78 | the filtered list is empty iff no post's title matches the normalised query |
| `PostListScreen.LoadingWhileRefreshingShowsList` | screens/PostListScreen.tsx:36 | loading during a refresh is not the skeleton and falls through to the list |
| `PostListScreen.ErrorHidesPosts` | screens/PostListScreen.tsx:45 | the error view is chosen whatever the posts are |
| `PostListScreen.IdleShowsEmptyList` | screens/PostListScreen.tsx:85-91 | idle with no posts shows an empty list, not the no-matches message |
| `PostListScreen.ResultsCountBounds` | hooks/usePosts.ts:71-81 | the filtered count is at most the post count, and equals it iff every title matches the normalised query |
| `PostListScreen.ResultsCount` | screens/PostListScreen.tsx:122-126 | the count given to the search bar is the filtered length: at most the number of posts, and equal to it iff every title matches |
| `PostListScreen.PressRetry` | screens/PostListScreen.tsx:57-62 | retry raises the refreshing flag, keeps the error status and the posts, so the error view stays until the fetch settles |
| `PostListScreen.PressHeaderRefresh` | screens/PostListScreen.tsx:110-113 | the header button starts a background refresh, or does nothing while one is running; status and posts are unchanged |
| `PostListScreen.InitialLoadFails` | hooks/usePosts.ts:48-49 | a failed first load ends in the error status with no posts and shows the error view |
| `PostListScreen.RefreshFailsAfterSuccess` | hooks/usePosts.ts:44-52 | two posts loaded then a failed refresh: the posts are kept, the status is error, and the error view is shown |
| `PostListScreen.RestoresStoredQuery` | hooks/usePosts.ts:25-28 | a query "foo" stored by an earlier session is the query after mounting and stays stored |

## Left out

- The network fetch (services/postService.ts) is not modelled; its result is an input to the load, either a list of posts or a failure. Decoding the JSON body is not modelled.
- `toLowerCase` and `trim` are modelled for ASCII letter case and a fixed whitespace set: ASCII whitespace, no-break space, byte-order mark, and the line and paragraph separators. Other Unicode case mappings and space separators are not modelled. `LowerOfUpper` and `FilterUpperCaseQuery` hold for this ASCII mapping only: in JavaScript, upper-casing "ß" gives "SS", which lower-cases to "ss".
- `Text.UpperChar` and `Text.ToUpper` are helpers for stating case-insensitivity; the code never upper-cases.
- Failures of the browser store are not modelled. In the source, a failing save or read ends as a rejected promise, and only clearing catches its failure.
- React scheduling is not modelled. Each method is one atomic step, so interleavings are not modelled: overlapping loads, or a restore that settles after the user has typed. The first load is `LoadPosts(false, …)`, run as a step of its own next to `RestoreOnMount`.
- Strict-mode double effects and tearing down the component are not modelled.
- The markup and styling of the screen, the cards, the skeleton and the search bar are not modelled. This includes the "Refreshing Feed" banner shown while the refreshing flag is set, and the search bar's "Result"/"Results" label.
- The voice-assistant overlay (components/LiveAssistant.tsx) is not part of this model. It drives a vendor audio SDK, and the screen renders it closed.
- The bundler configuration (vite.config.ts) and the app shell (App.tsx) are not part of this model.
